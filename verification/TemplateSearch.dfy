/** _templates and _shared_template in app/src/job_settings.py: every template that fills to a value, and the one all
    rows share. */
module TemplateSearch {
  import opened Text
  import opened Templates

  const LIMIT := 512

  function Prefixed(prefix: string, texts: set<string>): set<string> {
    set t | t in texts :: prefix + t
  }

  // ---- every template, with no limit --------------------------------------------------------------------------------

  /** What a template may say from here on: a tag whose value comes next, or the next character as it is. */
  function BuiltFrom(value: string, fields: seq<Field>, i: nat): set<string>
    requires i <= |value|
    decreases |value| - i, |fields| + 1
  {
    if i == |value| then {""} else
      BuiltByTag(value, fields, i, |fields|) + Prefixed([value[i]], BuiltFrom(value, fields, i + 1))
  }

  predicate Comes(value: string, part: string, i: nat)
    requires i <= |value|
  {
    "" < part <= value[i..]
  }

  function BuiltByTag(value: string, fields: seq<Field>, i: nat, n: nat): set<string>
    requires i <= |value| && n <= |fields|
    decreases |value| - i, n
  {
    if n == 0 then {} else
      BuiltByTag(value, fields, i, n - 1) +
      if Comes(value, fields[n - 1].value, i)
      then Prefixed(fields[n - 1].tag, BuiltFrom(value, fields, i + |fields[n - 1].value|))
      else {}
  }

  // ---- the search ---------------------------------------------------------------------------------------------------

  /** What the search has found once it has tried everything from position i, unless it stopped at the limit. */
  function Walked(value: string, fields: seq<Field>, limit: nat, i: nat, built: string, found: set<string>): set<string>
    requires i <= |value|
    decreases |value| - i, |fields| + 1
  {
    if |found| >= limit then found
    else if i == |value| then found + {built}
    else Walked(value, fields, limit, i + 1, built + [value[i]],
        WalkedByTag(value, fields, limit, i, built, found, |fields|))
  }

  function WalkedByTag(value: string, fields: seq<Field>, limit: nat, i: nat, built: string, found: set<string>,
                       n: nat): set<string>
    requires i <= |value| && n <= |fields|
    decreases |value| - i, n
  {
    if n == 0 then found else
      var before := WalkedByTag(value, fields, limit, i, built, found, n - 1);
      if Comes(value, fields[n - 1].value, i)
      then Walked(value, fields, limit, i + |fields[n - 1].value|, built + fields[n - 1].tag, before)
      else before
  }

  class Search {
    const value: string
    const fields: seq<Field>
    const limit: nat
    var found: set<string>

    constructor (value: string, fields: seq<Field>, limit: nat)
      ensures this.value == value && this.fields == fields && this.limit == limit && found == {}
    {
      this.value, this.fields, this.limit, found := value, fields, limit, {};
    }

    method Walk(i: nat, built: string)
      requires i <= |value|
      modifies this
      ensures found == Walked(value, fields, limit, i, built, old(found))
      decreases |value| - i
    {
      if |found| >= limit {
        return;
      }
      if i == |value| {
        found := found + {built};
        return;
      }
      for n := 0 to |fields|
        invariant found == WalkedByTag(value, fields, limit, i, built, old(found), n)
      {
        if Comes(value, fields[n].value, i) {
          Walk(i + |fields[n].value|, built + fields[n].tag);
        }
      }
      Walk(i + 1, built + [value[i]]);
    }
  }

  function Found(value: string, fields: seq<Field>): set<string> {
    Walked(value, fields, LIMIT, 0, "", {})
  }

  /** The templates kept: those found that do fill to the value, and the value itself. */
  function Candidates(value: string, fields: seq<Field>): set<string> {
    Kept(Found(value, fields), value, fields)
  }

  function Kept(found: set<string>, value: string, fields: seq<Field>): set<string> {
    (set t | t in found && Rendered(t, fields) == Some(value)) + {value}
  }

  lemma KeptIs(found: set<string>, value: string, fields: seq<Field>, t: string)
    ensures t in Kept(found, value, fields) <==> t == value || (t in found && Rendered(t, fields) == Some(value))
  {
  }

  method TemplatesOf(value: string, fields: seq<Field>) returns (templates: set<string>)
    ensures templates == Candidates(value, fields)
  {
    var search := new Search(value, fields, LIMIT);
    search.Walk(0, "");
    templates := {};
    var left := search.found;
    ghost var found := Found(value, fields);
    while left != {}
      invariant left <= search.found == found
      invariant templates == set t | t in found - left && Rendered(t, fields) == Some(value)
      decreases |left|
    {
      var t :| t in left;
      var name := Render(t, fields);
      if name == Some(value) {
        templates := templates + {t};
      }
      left := left - {t};
    }
    assert found - {} == found;
    templates := templates + {value};
    assert templates == Kept(found, value, fields);
  }

  // ---- the search finds every template, and nothing else ------------------------------------------------------------

  lemma PrefixedTwice(a: string, b: string, texts: set<string>)
    ensures Prefixed(a + b, texts) == Prefixed(a, Prefixed(b, texts))
  {
    forall t | t in texts
      ensures (a + b) + t in Prefixed(a, Prefixed(b, texts)) && a + (b + t) in Prefixed(a + b, texts) {
      assert (a + b) + t == a + (b + t) && b + t in Prefixed(b, texts);
    }
  }

  /** The search adds only templates that fill to the value, and all of them while it stays under the limit. */
  ghost predicate Explores(before: set<string>, after: set<string>, all: set<string>, limit: nat) {
    before <= after <= before + all && (|after| < limit ==> all <= after)
  }

  lemma ExploresBoth(a: set<string>, b: set<string>, c: set<string>, first: set<string>, second: set<string>,
                     limit: nat)
    requires Explores(a, b, first, limit) && Explores(b, c, second, limit)
    ensures Explores(a, c, first + second, limit)
  {
    NoMoreMembers(b, c);
  }

  lemma {:induction false} WalkExplores(value: string, fields: seq<Field>, limit: nat, i: nat, built: string,
                          found: set<string>)
    requires i <= |value|
    ensures Explores(found, Walked(value, fields, limit, i, built, found), Prefixed(built, BuiltFrom(value, fields, i)),
            limit)
    decreases |value| - i, |fields| + 1
  {
    if |found| >= limit {
    } else if i == |value| {
      assert built + "" == built;
      assert Prefixed(built, {""}) == {built};
    } else {
      var byTag := WalkedByTag(value, fields, limit, i, built, found, |fields|);
      var rest := BuiltFrom(value, fields, i + 1);
      TagsExplore(value, fields, limit, i, built, found, |fields|);
      WalkExplores(value, fields, limit, i + 1, built + [value[i]], byTag);
      PrefixedTwice(built, [value[i]], rest);
      ExploresBoth(found, byTag, Walked(value, fields, limit, i + 1, built + [value[i]], byTag),
                   Prefixed(built, BuiltByTag(value, fields, i, |fields|)), Prefixed(built,
                       Prefixed([value[i]], rest)), limit);
      PrefixedJoin(built, BuiltByTag(value, fields, i, |fields|), Prefixed([value[i]], rest));
    }
  }

  lemma PrefixedJoin(prefix: string, a: set<string>, b: set<string>)
    ensures Prefixed(prefix, a + b) == Prefixed(prefix, a) + Prefixed(prefix, b)
  {
  }

  lemma {:induction false} TagsExplore(value: string, fields: seq<Field>, limit: nat, i: nat, built: string,
                          found: set<string>, n: nat)
    requires i <= |value| && n <= |fields|
    ensures Explores(found, WalkedByTag(value, fields, limit, i, built, found, n),
                     Prefixed(built, BuiltByTag(value, fields, i, n)), limit)
    decreases |value| - i, n
  {
    if n > 0 {
      var before := WalkedByTag(value, fields, limit, i, built, found, n - 1);
      TagsExplore(value, fields, limit, i, built, found, n - 1);
      if Comes(value, fields[n - 1].value, i) {
        var at, tag := i + |fields[n - 1].value|, fields[n - 1].tag;
        WalkExplores(value, fields, limit, at, built + tag, before);
        PrefixedTwice(built, tag, BuiltFrom(value, fields, at));
        ExploresBoth(found, before, Walked(value, fields, limit, at, built + tag, before),
                     Prefixed(built, BuiltByTag(value, fields, i, n - 1)),
                     Prefixed(built, Prefixed(tag, BuiltFrom(value, fields, at))), limit);
        PrefixedJoin(built, BuiltByTag(value, fields, i, n - 1), Prefixed(tag, BuiltFrom(value, fields, at)));
      }
    } else {
      assert Prefixed(built, {}) == {};
    }
  }

  lemma FoundIsBuilt(value: string, fields: seq<Field>)
    ensures Found(value, fields) <= BuiltFrom(value, fields, 0)
    ensures |BuiltFrom(value, fields, 0)| < LIMIT ==> Found(value, fields) == BuiltFrom(value, fields, 0)
  {
    var all := BuiltFrom(value, fields, 0);
    WalkExplores(value, fields, LIMIT, 0, "", {});
    assert Prefixed("", all) == all by {
      assert forall t: string :: "" + t == t;
    }
    NoMoreMembers(Found(value, fields), all);
  }

  // ---- what is built, piece by piece --------------------------------------------------------------------------------

  /** Every tag used has a value in the row. */
  ghost predicate Usable(ps: seq<Piece>) {
    forall k :: 0 <= k < |ps| ==> ps[k].Hole? ==> ps[k].field.value != ""
  }

  lemma {:induction false} ByTagHas(value: string, fields: seq<Field>, i: nat, n: nat, m: nat, t: string)
    requires i <= |value| && m < n <= |fields| && Comes(value, fields[m].value, i)
    requires t in BuiltFrom(value, fields, i + |fields[m].value|)
    ensures fields[m].tag + t in BuiltByTag(value, fields, i, n)
    decreases n
  {
    if m < n - 1 {
      ByTagHas(value, fields, i, n - 1, m, t);
    }
  }

  lemma {:induction false} ByTagIs(value: string, fields: seq<Field>, i: nat, n: nat, built: string)
    returns (f: Field, t: string)
    requires i <= |value| && n <= |fields| && built in BuiltByTag(value, fields, i, n)
    ensures f in fields && Comes(value, f.value, i) && t in BuiltFrom(value, fields, i + |f.value|)
            && built == f.tag + t
    decreases n
  {
    f := fields[n - 1];
    if Comes(value, f.value, i) && built in Prefixed(f.tag, BuiltFrom(value, fields, i + |f.value|)) {
      t :| t in BuiltFrom(value, fields, i + |f.value|) && built == f.tag + t;
    } else {
      f, t := ByTagIs(value, fields, i, n - 1, built);
    }
  }

  /** What comes first and what is left. */
  lemma Remains(value: string, i: nat, part: string, rest: string)
    requires i <= |value|
    ensures part <= value[i..] ==> i + |part| <= |value| && value[i..] == part + value[i + |part|..]
    ensures value[i..] == part + rest ==> part <= value[i..] && i + |part| <= |value| && rest == value[i + |part|..]
  {
    if value[i..] == part + rest {
      assert |value| - i == |part| + |rest|;
      assert rest == value[i..][|part|..] == value[i + |part|..];
    }
  }

  /** Every piece list whose tags have values and which fills to the rest is built. */
  lemma {:induction false} PrintedIsBuilt(ps: seq<Piece>, value: string, fields: seq<Field>, i: nat)
    requires i <= |value| && Usable(ps) && From(ps, fields) && Fill(ps) == value[i..]
    ensures Print(ps) in BuiltFrom(value, fields, i)
    decreases |ps|
  {
    if ps != [] {
      var p, rest := ps[0], ps[1..];
      Uncons(ps, fields);
      Remains(value, i, FillOne(p), Fill(rest));
      PrintedIsBuilt(rest, value, fields, i + |FillOne(p)|);
      PieceIsBuilt(p, Print(rest), value, fields, i);
    } else {
      EndIsBuilt(value, fields, i);
    }
  }

  lemma Uncons(ps: seq<Piece>, fields: seq<Field>)
    requires ps != [] && Usable(ps) && From(ps, fields)
    ensures Usable(ps[1..]) && From(ps[1..], fields)
    ensures Fill(ps) == FillOne(ps[0]) + Fill(ps[1..]) && Print(ps) == PrintOne(ps[0]) + Print(ps[1..])
    ensures FillOne(ps[0]) != "" && (ps[0].Hole? ==> ps[0].field.value != "" && ps[0].field in fields)
  {
    assert forall k :: 0 <= k < |ps[1..]| ==> ps[1..][k] == ps[k + 1];
  }

  lemma EndIsBuilt(value: string, fields: seq<Field>, i: nat)
    requires i <= |value| && value[i..] == ""
    ensures "" in BuiltFrom(value, fields, i)
  {
    assert |value[i..]| == |value| - i;
  }

  lemma PieceIsBuilt(p: Piece, rest: string, value: string, fields: seq<Field>, i: nat)
    requires i < |value| && FillOne(p) <= value[i..] && (p.Hole? ==> p.field.value != "" && p.field in fields)
    requires i + |FillOne(p)| <= |value| && rest in BuiltFrom(value, fields, i + |FillOne(p)|)
    ensures PrintOne(p) + rest in BuiltFrom(value, fields, i)
  {
    match p
    case Lit(c) =>
      assert value[i..][0] == c;
      assert [value[i]] + rest in Prefixed([value[i]], BuiltFrom(value, fields, i + 1));
    case Hole(f) =>
      var m :| 0 <= m < |fields| && fields[m] == f;
      ByTagHas(value, fields, i, |fields|, m, rest);
  }

  lemma Cons(p: Piece, rest: seq<Piece>, fields: seq<Field>)
    requires Usable(rest) && From(rest, fields) && (p.Hole? ==> p.field.value != "" && p.field in fields)
    ensures Usable([p] + rest) && From([p] + rest, fields)
    ensures Fill([p] + rest) == FillOne(p) + Fill(rest) && Print([p] + rest) == PrintOne(p) + Print(rest)
  {
    var ps := [p] + rest;
    assert ps[1..] == rest;
    assert forall k :: 0 <= k < |ps| ==> ps[k] == if k == 0 then p else rest[k - 1];
  }

  lemma FirstPiece(value: string, fields: seq<Field>, i: nat, built: string) returns (p: Piece, t: string)
    requires i < |value| && built in BuiltFrom(value, fields, i)
    ensures (p.Hole? ==> p.field in fields && p.field.value != "") && FillOne(p) <= value[i..]
    ensures i + |FillOne(p)| <= |value| && t in BuiltFrom(value, fields, i + |FillOne(p)|) && built == PrintOne(p) + t
  {
    if built in BuiltByTag(value, fields, i, |fields|) {
      var f;
      f, t := ByTagIs(value, fields, i, |fields|, built);
      p := Hole(f);
    } else {
      p := Lit(value[i]);
      t :| t in BuiltFrom(value, fields, i + 1) && built == [value[i]] + t;
    }
  }

  lemma {:induction false} BuiltIsPrinted(value: string, fields: seq<Field>, i: nat, built: string)
    returns (ps: seq<Piece>)
    requires i <= |value| && built in BuiltFrom(value, fields, i)
    ensures Usable(ps) && From(ps, fields) && Fill(ps) == value[i..] && Print(ps) == built
    decreases |value| - i
  {
    if i == |value| {
      ps := [];
    } else {
      var p, t := FirstPiece(value, fields, i, built);
      var rest := BuiltIsPrinted(value, fields, i + |FillOne(p)|, t);
      Cons(p, rest, fields);
      Remains(value, i, FillOne(p), "");
      ps := [p] + rest;
    }
  }

  // ---- inference inverts filling ------------------------------------------------------------------------------------

  lemma {:induction false} FillsPlainly(ps: seq<Piece>)
    requires '{' !in Fill(ps)
    ensures Plain(ps)
  {
    if ps != [] {
      var part := FillOne(ps[0]);
      assert Fill(ps) == part + Fill(ps[1..]);
      FillsPlainly(ps[1..]);
      assert '{' !in part && (ps[0].Lit? ==> part[0] in part);
      assert forall k :: 0 < k < |ps| ==> ps[k] == ps[1..][k - 1];
    }
  }

  lemma Assoc(a: string, b: string, c: string)
    ensures a + (b + c) == (a + b) + c
  {
  }

  lemma {:induction false} FillOfBoth(a: seq<Piece>, b: seq<Piece>)
    ensures Fill(a + b) == Fill(a) + Fill(b)
  {
    if a == [] {
      assert a + b == b;
    } else {
      FillOfBoth(a[1..], b);
      assert (a + b)[0] == a[0] && (a + b)[1..] == a[1..] + b;
      Assoc(FillOne(a[0]), Fill(a[1..]), Fill(b));
    }
  }

  lemma {:induction false} PrintOfBoth(a: seq<Piece>, b: seq<Piece>)
    ensures Print(a + b) == Print(a) + Print(b)
  {
    if a == [] {
      assert a + b == b;
    } else {
      PrintOfBoth(a[1..], b);
      assert (a + b)[0] == a[0] && (a + b)[1..] == a[1..] + b;
      Assoc(PrintOne(a[0]), Print(a[1..]), Print(b));
    }
  }

  /** Its tags end in a closing brace, as they start with one. */
  ghost predicate Closed(fields: seq<Field>) {
    forall f :: f in fields ==> f.tag != "" && !Space(f.tag[0]) && !Space(f.tag[|f.tag| - 1])
  }

  lemma FieldsAreClosed(server: string, database: string, schema: string, table: string)
    ensures Closed(FieldsOf(server, database, schema, table))
  {
  }

  lemma Outer(first: string, rest: string, before: string, last: string)
    requires first + rest == before + last && first != "" && last != ""
    ensures var s := first + rest; s[0] == first[0] && s[|s| - 1] == last[|last| - 1]
  {
  }

  lemma OneOf(p: Piece)
    ensures Print([p]) == PrintOne(p) && Fill([p]) == FillOne(p)
  {
    assert [p][1..] == [];
  }

  lemma PieceEnds(p: Piece, fields: seq<Field>)
    requires Closed(fields) && (p.Hole? ==> p.field in fields && p.field.value != "")
    ensures var text, value := PrintOne(p), FillOne(p);
            && text != "" && value != ""
            && (!Space(value[0]) ==> !Space(text[0]))
            && (!Space(value[|value| - 1]) ==> !Space(text[|text| - 1]))
  {
  }

  lemma EndsOf(first: Piece, rest: seq<Piece>, before: seq<Piece>, last: Piece, fields: seq<Field>)
    requires [first] + rest == before + [last]
    requires PrintOne(first) != "" && PrintOne(last) != "" && FillOne(first) != "" && FillOne(last) != ""
    ensures var text, value := Print([first] + rest), Fill([first] + rest);
            && text != "" && value != "" && text[0] == PrintOne(first)[0] && value[0] == FillOne(first)[0]
            && text[|text| - 1] == PrintOne(last)[|PrintOne(last)| - 1]
            && value[|value| - 1] == FillOne(last)[|FillOne(last)| - 1]
  {
    PrintOfBoth([first], rest);
    FillOfBoth([first], rest);
    PrintOfBoth(before, [last]);
    FillOfBoth(before, [last]);
    OneOf(first);
    OneOf(last);
    Outer(FillOne(first), Fill(rest), Fill(before), FillOne(last));
    Outer(PrintOne(first), Print(rest), Print(before), PrintOne(last));
  }

  lemma PrintIsTrimmed(ps: seq<Piece>, fields: seq<Field>)
    requires From(ps, fields) && Usable(ps) && Closed(fields) && Trimmed(Fill(ps)) && Fill(ps) != ""
    ensures Trimmed(Print(ps)) && Print(ps) != ""
  {
    var last := |ps| - 1;
    assert ps == ps[..last] + [ps[last]] && ps == [ps[0]] + ps[1..];
    PieceEnds(ps[0], fields);
    PieceEnds(ps[last], fields);
    EndsOf(ps[0], ps[1..], ps[..last], ps[last], fields);
  }

  /** Every string the search builds fills back to the value, when the value has no brace and no space around it. */
  lemma BuiltFillsBack(value: string, fields: seq<Field>, template: string)
    requires Tags(fields) && Closed(fields)
    requires '{' !in value && Trimmed(value) && value != ""
    requires template in BuiltFrom(value, fields, 0)
    ensures Rendered(template, fields) == Some(value)
  {
    var ps := BuiltIsPrinted(value, fields, 0, template);
    assert Fill(ps) == value;
    FillsPlainly(ps);
    PrintIsTrimmed(ps, fields);
    StripOfTrimmed(template);
    FilledInTurn(ps, fields);
  }

  /** A template trimmed as saved, its braces all in tags, whose tags all have a value without one. */
  ghost predicate Proper(template: string, fields: seq<Field>) {
    && Strip(template) == template
    && Plain(Parse(template, fields)) && Usable(Parse(template, fields))
  }

  /** A template whose tags all have values, its braces all in tags, is built from what it fills to. */
  lemma FillsBackIsBuilt(value: string, fields: seq<Field>, template: string)
    requires Tags(fields) && Proper(template, fields) && Rendered(template, fields) == Some(value)
    ensures template in BuiltFrom(value, fields, 0)
  {
    var ps := Parse(template, fields);
    PrintOfParse(template, fields);
    ParsedFromFields(template, fields);
    FilledInTurn(ps, fields);
    assert value[0..] == value;
    PrintedIsBuilt(ps, value, fields, 0);
  }

  /** The candidates are exactly the templates that fill to the value, of those proper for the row, while fewer than the
      limit are built. */
  lemma CandidatesAreAll(value: string, fields: seq<Field>, template: string)
    requires Tags(fields) && Closed(fields) && '{' !in value && Trimmed(value) && value != ""
    requires |BuiltFrom(value, fields, 0)| < LIMIT && Proper(template, fields)
    ensures template in Candidates(value, fields) <==> Rendered(template, fields) == Some(value)
  {
    FoundIsBuilt(value, fields);
    LiteralFillsBack(value, fields);
    KeptIs(Found(value, fields), value, fields, template);
    if Rendered(template, fields) == Some(value) {
      FillsBackIsBuilt(value, fields, template);
    }
  }

  /** The value itself is a template of every row, when it has no brace. */
  lemma LiteralFillsBack(value: string, fields: seq<Field>)
    requires Tags(fields) && Closed(fields) && '{' !in value && Trimmed(value) && value != ""
    ensures Rendered(value, fields) == Some(value)
  {
    LiteralIsBuilt(value, fields, 0);
    assert value[0..] == value;
    BuiltFillsBack(value, fields, value);
  }

  lemma {:induction false} LiteralIsBuilt(value: string, fields: seq<Field>, i: nat)
    requires i <= |value|
    ensures value[i..] in BuiltFrom(value, fields, i)
    decreases |value| - i
  {
    if i < |value| {
      LiteralIsBuilt(value, fields, i + 1);
      assert value[i..] == [value[i]] + value[i + 1..];
    } else {
      assert value[i..] == "";
    }
  }
}
