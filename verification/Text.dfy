/** Names, as every other module uses them: lower case (ASCII letters only), code point order, and the numbers that
    group names end in.

    Two databases are one when their names are the same in lower case; ties between equally big databases, and between
    equally light groups, are settled by name; and a group made for a server takes the lowest number none of the job's
    groups ends in, so reading that number back matters. */
module Text {

  function LowerChar(c: char): char {
    if 'A' <= c <= 'Z' then (c as int + 32) as char else c
  }

  function Lower(s: string): (lower: string)
    ensures |lower| == |s|
    ensures forall i :: 0 <= i < |s| ==> lower[i] == LowerChar(s[i])
  {
    seq(|s|, i requires 0 <= i < |s| => LowerChar(s[i]))
  }

  lemma LowerTwice(s: string)
    ensures Lower(Lower(s)) == Lower(s)
  {
  }

  lemma NoMoreMembers<T>(a: set<T>, b: set<T>)
    requires a <= b
    ensures |a| <= |b|
  {
    assert b == a + (b - a);
  }

  // Python compares strings by code point; Dafny's < on strings is the prefix order.

  predicate Precedes(a: string, b: string) {
    b != "" && (a == "" || a[0] < b[0] || (a[0] == b[0] && Precedes(a[1..], b[1..])))
  }

  lemma {:induction false} PrecedesIsTotal(a: string, b: string)
    ensures a == b ==> !Precedes(a, b)
    ensures a != b ==> Precedes(a, b) != Precedes(b, a)
  {
    if a != "" && b != "" && a[0] == b[0] {
      PrecedesIsTotal(a[1..], b[1..]);
      assert a == [a[0]] + a[1..] && b == [b[0]] + b[1..];
    }
  }

  lemma {:induction false} PrecedesIsTransitive(a: string, b: string, c: string)
    requires Precedes(a, b) && Precedes(b, c)
    ensures Precedes(a, c)
  {
    if a != "" && a[0] == b[0] == c[0] {
      PrecedesIsTransitive(a[1..], b[1..], c[1..]);
    }
  }

  predicate Contains(s: string, part: string) {
    part <= s || (s != "" && Contains(s[1..], part))
  }

  // Numbers in decimal, padded to two digits in a group's name.

  predicate Digit(c: char) {
    '0' <= c <= '9'
  }

  predicate Digits(s: string) {
    forall i :: 0 <= i < |s| ==> Digit(s[i])
  }

  function Decimal(n: nat): (s: string)
    ensures s != "" && Digits(s)
  {
    var last := [('0' as int + n % 10) as char];
    if n < 10 then last else Decimal(n / 10) + last
  }

  function PadTwo(n: nat): (s: string)
    ensures s != "" && Digits(s)
  {
    if n < 10 then "0" + Decimal(n) else Decimal(n)
  }

  function Value(s: string): nat
    requires Digits(s)
  {
    if s == "" then 0 else Value(s[..|s| - 1]) * 10 + (s[|s| - 1] as int - '0' as int)
  }

  lemma {:induction false} ValueOfDecimal(n: nat)
    ensures Value(Decimal(n)) == n
  {
    if n >= 10 {
      ValueOfDecimal(n / 10);
      assert Decimal(n)[..|Decimal(n)| - 1] == Decimal(n / 10);
    } else {
      assert Decimal(n)[..0] == "";
    }
  }

  lemma ValueOfPadTwo(n: nat)
    ensures Value(PadTwo(n)) == n
  {
    ValueOfDecimal(n);
    if n < 10 {
      var d := Decimal(n);
      assert ("0" + d)[..1] == "0" && "0"[..0] == "" && d[..0] == "";
    }
  }

  /** Where the last "_c" of a name's first n characters starts. */
  function LastMark(s: string, n: nat): (at: int)
    requires n <= |s|
    ensures at == -1 || 0 <= at <= n - 2
  {
    if n < 2 then -1 else if s[n - 2..n] == "_c" then n - 2 else LastMark(s, n - 1)
  }

  datatype Maybe<T> = None | Some(value: T)

  /** The number a group's name ends in, after its last "_c"; None when it ends in none. */
  function GroupNumber(name: string): Maybe<nat> {
    var at := LastMark(name, |name|);
    if at < 0 || at + 2 == |name| || !Digits(name[at + 2..]) then None else Some(Value(name[at + 2..]))
  }

  function GroupName(prefix: string, number: nat): string {
    prefix + "_c" + PadTwo(number)
  }

  lemma {:induction false} LastMarkBeforeDigits(prefix: string, digits: string, k: nat)
    requires Digits(digits) && k <= |digits|
    ensures LastMark(prefix + "_c" + digits, |prefix| + 2 + k) == |prefix|
    decreases k
  {
    var s := prefix + "_c" + digits;
    var n := |prefix| + 2 + k;
    if k == 0 {
      assert s[n - 2..n] == "_c";
    } else {
      assert s[n - 1] == digits[k - 1] && s[n - 2..n][1] == s[n - 1];
      LastMarkBeforeDigits(prefix, digits, k - 1);
    }
  }

  /** A name made for a group gives its number back. */
  lemma NumberOfGroupName(prefix: string, number: nat)
    ensures GroupNumber(GroupName(prefix, number)) == Some(number)
  {
    var digits, name := PadTwo(number), GroupName(prefix, number);
    assert |name| == |prefix| + 2 + |digits|;
    LastMarkBeforeDigits(prefix, digits, |digits|);
    assert LastMark(name, |name|) == |prefix|;
    assert name[|prefix| + 2..] == digits;
    ValueOfPadTwo(number);
  }
}
