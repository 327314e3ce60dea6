/** When the two renderers of a name template agree: render in app/src/job_settings.py, which replaces the tags one
    after another, and render_sql in app/src/job_settings_sql.py, which fills them in one pass; and what
    template_errors, the check of templates, lets through. */
module TemplateAgreement {
  import opened Text
  import opened Templates

  // ---- the check of templates ---------------------------------------------------------------------------------------

  predicate Brace(c: char) {
    c == '{' || c == '}'
  }

  /** How many characters come before the first brace. */
  function ToBrace(s: string): (n: nat)
    ensures n <= |s|
  {
    if s == "" || Brace(s[0]) then 0 else 1 + ToBrace(s[1..])
  }

  /** What stands in braces with none inside, from left to right. */
  function Bracketed(s: string): seq<string>
    decreases |s|
  {
    if s == "" then []
    else
      var n := ToBrace(s[1..]);
      if s[0] == '{' && n < |s| - 1 && s[n + 1] == '}' then [s[..n + 2]] + Bracketed(s[n + 2..]) else Bracketed(s[1..])
  }

  /** The check finds nothing: only known tags, and in a fan-in's target no tag that gives each its own table. */
  predicate Passes(template: string, fields: seq<Field>, fanIn: bool) {
    && (forall t :: t in Bracketed(template) ==> IsTag(t, fields))
    && (fanIn ==> forall i :: 0 <= i < 2 && i < |fields| ==> !Contains(template, fields[i].tag))
  }

  predicate IsTag(t: string, fields: seq<Field>) {
    exists f :: f in fields && f.tag == t
  }

  /** The unknown tags of a template, and the tags of those first two that fan-in cannot use. */
  method TemplateErrors(template: string, fields: seq<Field>, fanIn: bool)
    returns (unknown: seq<string>, ofEach: seq<string>)
    ensures unknown == [] && ofEach == [] <==> Passes(template, fields, fanIn)
    ensures forall t :: t in unknown <==> t in Bracketed(template) && !IsTag(t, fields)
  {
    var found := Bracketed(template);
    unknown, ofEach := [], [];
    for k := 0 to |found|
      invariant forall t :: t in unknown <==> t in found[..k] && !IsTag(t, fields)
    {
      if !IsTag(found[k], fields) {
        unknown := unknown + [found[k]];
      }
    }
    assert found[..|found|] == found;
    assert unknown == [] <==> forall t :: t in found ==> IsTag(t, fields) by {
      if unknown != [] {
        assert unknown[0] in unknown;
      }
    }
    if fanIn {
      for i := 0 to 2
        invariant ofEach == [] <==> forall j :: 0 <= j < i && j < |fields| ==> !Contains(template, fields[j].tag)
      {
        if i < |fields| && Contains(template, fields[i].tag) {
          ofEach := ofEach + [fields[i].tag];
        }
      }
    }
  }

  // ---- what each step meets -----------------------------------------------------------------------------------------

  /** A tag that starts before a brace ends before it. */
  lemma TagEndsBefore(a: string, b: string, text: string)
    requires Braced(text) && a != "" && b != "" && b[0] == '{'
    ensures text <= a + b ==> text <= a
  {
    assert (a + b)[|a|] == '{' && (a + b)[..|a|] == a;
    assert |text| > |a| ==> text[|a|] in text[1..];
  }

  lemma {:induction false} ReplaceSplits(a: string, b: string, text: string, value: string)
    requires Braced(text) && b != "" && b[0] == '{'
    ensures Replace(a + b, text, value) == Replace(a, text, value) + Replace(b, text, value)
    decreases |a|
  {
    if a == "" {
      assert a + b == b;
    } else if text <= a + b {
      TagEndsBefore(a, b, text);
      assert text <= a && (a + b)[|text|..] == a[|text|..] + b;
      ReplaceSplits(a[|text|..], b, text, value);
    } else {
      assert (a + b)[0] == a[0] && (a + b)[1..] == a[1..] + b;
      ReplaceSplits(a[1..], b, text, value);
    }
  }

  function Lits(s: string): (ps: seq<Piece>)
    ensures |ps| == |s| && forall i :: 0 <= i < |s| ==> ps[i] == Lit(s[i])
  {
    seq(|s|, i requires 0 <= i < |s| => Lit(s[i]))
  }

  lemma {:induction false} LitsPrint(s: string, rest: seq<Piece>)
    ensures Print(Lits(s) + rest) == s + Print(rest)
    decreases |s|
  {
    if s == "" {
      assert Lits(s) + rest == rest;
    } else {
      LitsTail(s, rest);
      LitsPrint(s[1..], rest);
      assert s == [s[0]] + s[1..];
      assert [s[0]] + (s[1..] + Print(rest)) == s + Print(rest);
    }
  }

  lemma {:induction false} LitsFill(s: string, rest: seq<Piece>)
    ensures Fill(Lits(s) + rest) == s + Fill(rest)
    decreases |s|
  {
    if s == "" {
      assert Lits(s) + rest == rest;
    } else {
      LitsTail(s, rest);
      LitsFill(s[1..], rest);
      assert s == [s[0]] + s[1..];
      assert [s[0]] + (s[1..] + Fill(rest)) == s + Fill(rest);
    }
  }

  lemma LitsTail(s: string, rest: seq<Piece>)
    requires s != ""
    ensures (Lits(s) + rest)[0] == Lit(s[0]) && (Lits(s) + rest)[1..] == Lits(s[1..]) + rest
  {
  }

  /** One replacement, piece by piece: each stretch between tags has the tag replaced in it, and each hole of the tag is
      filled. lit is the stretch so far. */
  function Stepped(ps: seq<Piece>, f: Field, lit: string): seq<Piece>
    decreases |ps|
  {
    if ps == [] then Lits(Replace(lit, f.tag, f.value))
    else match ps[0]
      case Lit(c) => Stepped(ps[1..], f, lit + [c])
      case Hole(g) =>
        Lits(Replace(lit, f.tag, f.value)) + ((if g == f then Lits(f.value) else [Hole(g)]) + Stepped(ps[1..], f, ""))
  }

  /** Some stretch between the tags of the pieces has the tag in it: not one of the template's own. */
  predicate Meets(ps: seq<Piece>, f: Field, lit: string)
    decreases |ps|
  {
    if ps == [] then Contains(lit, f.tag)
    else match ps[0]
      case Lit(c) => Meets(ps[1..], f, lit + [c])
      case Hole(g) => Contains(lit, f.tag) || Meets(ps[1..], f, "")
  }

  lemma SteppedHole(g: Field, f: Field, rest: seq<Piece>, lit: string, fields: seq<Field>)
    requires Tags(fields) && f in fields && g in fields
    requires Print(Stepped(rest, f, "")) == Replace(Print(rest), f.tag, f.value)
    ensures Print(Stepped([Hole(g)] + rest, f, lit)) == Replace(lit + (g.tag + Print(rest)), f.tag, f.value)
  {
    var after := Stepped(rest, f, "");
    assert ([Hole(g)] + rest)[1..] == rest;
    ReplaceSplits(lit, g.tag + Print(rest), f.tag, f.value);
    LitsPrint(Replace(lit, f.tag, f.value), (if g == f then Lits(f.value) else [Hole(g)]) + after);
    if g == f {
      LitsPrint(f.value, after);
      ReplaceFirst(Print(rest), f.tag, f.value);
    } else {
      var i :| 0 <= i < |fields| && fields[i] == f;
      var j :| 0 <= j < |fields| && fields[j] == g;
      OneTagStands(fields, i, j, Print(rest));
      ReplaceKeeps(g.tag, Print(rest), f.tag, f.value);
      assert ([Hole(g)] + after)[1..] == after;
    }
  }

  /** Printed, that is the replacement of the text. */
  lemma {:induction false} SteppedPrints(ps: seq<Piece>, f: Field, lit: string, fields: seq<Field>)
    requires Tags(fields) && f in fields && From(ps, fields)
    ensures Print(Stepped(ps, f, lit)) == Replace(lit + Print(ps), f.tag, f.value)
    decreases |ps|
  {
    if ps == [] {
      LitsPrint(Replace(lit, f.tag, f.value), []);
      assert Lits(Replace(lit, f.tag, f.value)) + [] == Lits(Replace(lit, f.tag, f.value));
      assert lit + "" == lit && Replace(lit, f.tag, f.value) + "" == Replace(lit, f.tag, f.value);
    } else {
      var rest := ps[1..];
      assert forall k :: 0 <= k < |rest| ==> rest[k] == ps[k + 1];
      match ps[0]
      case Lit(c) =>
        SteppedPrints(rest, f, lit + [c], fields);
        assert lit + ([c] + Print(rest)) == (lit + [c]) + Print(rest);
      case Hole(g) =>
        SteppedPrints(rest, f, "", fields);
        assert "" + Print(rest) == Print(rest);
        assert ps == [Hole(g)] + rest;
        SteppedHole(g, f, rest, lit, fields);
    }
  }

  function Braces(s: string): nat {
    if s == "" then 0 else (if s[0] == '{' then 1 else 0) + Braces(s[1..])
  }

  lemma {:induction false} BracesAdd(a: string, b: string)
    ensures Braces(a + b) == Braces(a) + Braces(b)
  {
    if a == "" {
      assert a + b == b;
    } else {
      assert (a + b)[0] == a[0] && (a + b)[1..] == a[1..] + b;
      BracesAdd(a[1..], b);
    }
  }

  lemma {:induction false} NoBraces(s: string)
    requires '{' !in s
    ensures Braces(s) == 0
  {
    if s != "" {
      NoBraces(s[1..]);
    }
  }

  /** A tag replaced by a value with no brace: the text is the same, or has fewer braces. */
  lemma {:induction false} ReplaceTakesBraces(s: string, text: string, value: string)
    requires Braced(text) && '{' !in value
    ensures if Contains(s, text) then Braces(Replace(s, text, value)) < Braces(s) else Replace(s, text, value) == s
    ensures Braces(Replace(s, text, value)) <= Braces(s)
    decreases |s|
  {
    if s != "" {
      if text <= s {
        ReplaceTakesBraces(s[|text|..], text, value);
        assert s == text + s[|text|..];
        BracesAdd(text, s[|text|..]);
        BracesAdd(value, Replace(s[|text|..], text, value));
        NoBraces(value);
        assert Braces(text) > 0;
      } else {
        ReplaceTakesBraces(s[1..], text, value);
        BracesAdd([s[0]], Replace(s[1..], text, value));
        assert s == [s[0]] + s[1..] && [s[0]][1..] == "";
        BracesAdd([s[0]], s[1..]);
      }
    }
  }

  /** Filled, the pieces after a step have fewer braces than before when it met a tag not of the template, else are the
      same. */
  lemma {:induction false} SteppedFills(ps: seq<Piece>, f: Field, lit: string, fields: seq<Field>)
    requires Tags(fields) && PlainValues(fields) && f in fields && From(ps, fields)
    ensures if Meets(ps, f, lit) then Braces(Fill(Stepped(ps, f, lit))) < Braces(lit + Fill(ps))
            else Fill(Stepped(ps, f, lit)) == lit + Fill(ps)
    decreases |ps|
  {
    if ps == [] {
      EndFills(f, lit);
    } else {
      var rest := ps[1..];
      assert forall k :: 0 <= k < |rest| ==> rest[k] == ps[k + 1];
      match ps[0]
      case Lit(c) =>
        SteppedFills(rest, f, lit + [c], fields);
        assert lit + ([c] + Fill(rest)) == (lit + [c]) + Fill(rest);
      case Hole(g) =>
        SteppedFills(rest, f, "", fields);
        assert "" + Fill(rest) == Fill(rest) && ps == [Hole(g)] + rest;
        HoleFills(g, f, rest, lit);
    }
  }

  lemma EndFills(f: Field, lit: string)
    requires Braced(f.tag) && '{' !in f.value
    ensures if Meets([], f, lit) then Braces(Fill(Stepped([], f, lit))) < Braces(lit + Fill([]))
            else Fill(Stepped([], f, lit)) == lit + Fill([])
  {
    var replaced := Replace(lit, f.tag, f.value);
    ReplaceTakesBraces(lit, f.tag, f.value);
    LitsFill(replaced, []);
    assert Lits(replaced) + [] == Lits(replaced) && lit + "" == lit && replaced + "" == replaced;
  }

  lemma HoleFills(g: Field, f: Field, rest: seq<Piece>, lit: string)
    requires Braced(f.tag) && '{' !in f.value
    requires if Meets(rest, f, "") then Braces(Fill(Stepped(rest, f, ""))) < Braces(Fill(rest))
             else Fill(Stepped(rest, f, "")) == Fill(rest)
    ensures var ps := [Hole(g)] + rest;
            if Meets(ps, f, lit) then Braces(Fill(Stepped(ps, f, lit))) < Braces(lit + Fill(ps))
            else Fill(Stepped(ps, f, lit)) == lit + Fill(ps)
  {
    var replaced, after := Replace(lit, f.tag, f.value), Fill(Stepped(rest, f, ""));
    assert ([Hole(g)] + rest)[1..] == rest;
    ReplaceTakesBraces(lit, f.tag, f.value);
    FilledHole(g, f, rest, lit);
    BracesOfThree(lit, g.value, Fill(rest));
    BracesOfThree(replaced, g.value, after);
  }

  lemma FilledHole(g: Field, f: Field, rest: seq<Piece>, lit: string)
    ensures Fill([Hole(g)] + rest) == g.value + Fill(rest)
    ensures Fill(Stepped([Hole(g)] + rest, f, lit))
            == Replace(lit, f.tag, f.value) + (g.value + Fill(Stepped(rest, f, "")))
  {
    var after := Stepped(rest, f, "");
    assert ([Hole(g)] + rest)[1..] == rest && ([Hole(g)] + after)[1..] == after;
    LitsFill(Replace(lit, f.tag, f.value), (if g == f then Lits(f.value) else [Hole(g)]) + after);
    LitsFill(f.value, after);
  }

  lemma BracesOfThree(a: string, b: string, c: string)
    ensures Braces(a + (b + c)) == Braces(a) + Braces(b) + Braces(c)
  {
    BracesAdd(b, c);
    BracesAdd(a, b + c);
  }

  // ---- over all the tags --------------------------------------------------------------------------------------------

  /** The template's pieces once the first n tags are replaced, in turn. */
  function After(text: string, fields: seq<Field>, n: nat): seq<Piece>
    requires n <= |fields|
  {
    if n == 0 then Parse(text, fields) else Stepped(After(text, fields, n - 1), fields[n - 1], "")
  }

  /** Every hole left is of the fields from n on. */
  ghost predicate Left(ps: seq<Piece>, fields: seq<Field>, n: nat)
    requires n <= |fields|
  {
    forall k :: 0 <= k < |ps| && ps[k].Hole? ==> ps[k].field in fields[n..]
  }

  lemma {:induction false} SteppedLeaves(ps: seq<Piece>, fields: seq<Field>, n: nat, lit: string)
    requires n < |fields| && Left(ps, fields, n)
    ensures Left(Stepped(ps, fields[n], lit), fields, n + 1)
    decreases |ps|
  {
    if ps != [] {
      var rest := ps[1..];
      assert forall k :: 0 <= k < |rest| ==> rest[k] == ps[k + 1];
      match ps[0]
      case Lit(c) => SteppedLeaves(rest, fields, n, lit + [c]);
      case Hole(g) =>
        SteppedLeaves(rest, fields, n, "");
        assert fields[n..] == [fields[n]] + fields[n + 1..];
    }
  }

  lemma LeftIsFrom(ps: seq<Piece>, fields: seq<Field>, n: nat)
    requires n <= |fields| && Left(ps, fields, n)
    ensures From(ps, fields)
  {
    assert forall f :: f in fields[n..] ==> f in fields;
  }

  lemma {:induction false} AfterIsInTurn(text: string, fields: seq<Field>, n: nat)
    requires Tags(fields) && n <= |fields|
    ensures Print(After(text, fields, n)) == InTurn(text, fields, n) && Left(After(text, fields, n), fields, n)
    decreases n
  {
    if n == 0 {
      PrintOfParse(text, fields);
      ParsedFromFields(text, fields);
      assert fields[0..] == fields;
    } else {
      AfterIsInTurn(text, fields, n - 1);
      LeftIsFrom(After(text, fields, n - 1), fields, n - 1);
      SteppedPrints(After(text, fields, n - 1), fields[n - 1], "", fields);
      SteppedLeaves(After(text, fields, n - 1), fields, n - 1, "");
      assert "" + InTurn(text, fields, n - 1) == InTurn(text, fields, n - 1);
    }
  }

  /** No step, of the first n, meets a tag but the template's own. */
  ghost predicate MeetsNone(text: string, fields: seq<Field>, n: nat)
    requires n <= |fields|
  {
    n == 0 || (MeetsNone(text, fields, n - 1) && !Meets(After(text, fields, n - 1), fields[n - 1], ""))
  }

  lemma {:induction false} AfterFills(text: string, fields: seq<Field>, n: nat)
    requires Tags(fields) && PlainValues(fields) && n <= |fields|
    ensures if MeetsNone(text, fields, n) then Fill(After(text, fields, n)) == Fill(Parse(text, fields))
            else Braces(Fill(After(text, fields, n))) < Braces(Fill(Parse(text, fields)))
    decreases n
  {
    if n > 0 {
      var before := After(text, fields, n - 1);
      AfterFills(text, fields, n - 1);
      AfterIsInTurn(text, fields, n - 1);
      LeftIsFrom(before, fields, n - 1);
      SteppedFills(before, fields[n - 1], "", fields);
      assert "" + Fill(before) == Fill(before);
    }
  }

  lemma {:induction false} NoHoles(ps: seq<Piece>, fields: seq<Field>)
    requires Left(ps, fields, |fields|)
    ensures Print(ps) == Fill(ps)
  {
    if ps != [] {
      assert forall k :: 0 <= k < |ps[1..]| ==> ps[1..][k] == ps[k + 1];
      assert fields[|fields|..] == [];
      NoHoles(ps[1..], fields);
    }
  }

  lemma {:induction false} ReplaceAbsent(s: string, text: string, value: string)
    requires !Contains(s, text)
    ensures Replace(s, text, value) == s
  {
    if s != "" && text != "" {
      ReplaceAbsent(s[1..], text, value);
    }
  }

  /** A step that meets no other tag fills its own holes and changes nothing else, whatever the values hold. */
  lemma {:induction false} UnmetFills(ps: seq<Piece>, f: Field, lit: string)
    requires f.tag != "" && !Meets(ps, f, lit)
    ensures Fill(Stepped(ps, f, lit)) == lit + Fill(ps)
    decreases |ps|
  {
    if ps == [] {
      ReplaceAbsent(lit, f.tag, f.value);
      LitsFill(lit, []);
      assert Lits(lit) + [] == Lits(lit) && lit + "" == lit;
    } else {
      var rest := ps[1..];
      match ps[0]
      case Lit(c) =>
        UnmetFills(rest, f, lit + [c]);
        assert lit + ([c] + Fill(rest)) == (lit + [c]) + Fill(rest);
      case Hole(g) =>
        UnmetFills(rest, f, "");
        assert "" + Fill(rest) == Fill(rest) && ps == [Hole(g)] + rest;
        ReplaceAbsent(lit, f.tag, f.value);
        FilledHole(g, f, rest, lit);
    }
  }

  lemma {:induction false} UnmetAfterFills(text: string, fields: seq<Field>, n: nat)
    requires Tags(fields) && n <= |fields| && MeetsNone(text, fields, n)
    ensures Fill(After(text, fields, n)) == Fill(Parse(text, fields))
    decreases n
  {
    if n > 0 {
      UnmetAfterFills(text, fields, n - 1);
      UnmetFills(After(text, fields, n - 1), fields[n - 1], "");
      assert "" + Fill(After(text, fields, n - 1)) == Fill(After(text, fields, n - 1));
    }
  }

  /** The two renderers give one name when the template is blank or no replacement meets a tag that is not one of the
      template's own: one made of what stands around a value and the value. For values with no brace, only then. */
  lemma RenderersAgreeExactly(template: string, fields: seq<Field>)
    requires Tags(fields)
    ensures var agree := Rendered(template, fields)
                         == if Strip(template) == "" then None else Some(Fill(Parse(Strip(template), fields)));
            var unmet := Strip(template) == "" || MeetsNone(Strip(template), fields, |fields|);
            (unmet ==> agree) && (PlainValues(fields) ==> (agree <==> unmet))
  {
    var text := Strip(template);
    AfterIsInTurn(text, fields, |fields|);
    NoHoles(After(text, fields, |fields|), fields);
    if MeetsNone(text, fields, |fields|) {
      UnmetAfterFills(text, fields, |fields|);
    } else if PlainValues(fields) {
      AfterFills(text, fields, |fields|);
    }
  }

  // ---- and a template that passes the check -------------------------------------------------------------------------

  lemma {:induction false} ToBraceOf(w: string, rest: string)
    requires rest != "" && Brace(rest[0]) && forall i :: 0 <= i < |w| ==> !Brace(w[i])
    ensures ToBrace(w + rest) == |w|
  {
    if w == "" {
      assert w + rest == rest;
    } else {
      assert (w + rest)[0] == w[0] && (w + rest)[1..] == w[1..] + rest;
      ToBraceOf(w[1..], rest);
    }
  }

  /** A tag in one more pair of braces passes the check: the inner pair is found, a known tag. */
  lemma DoubleBracesPass(fields: seq<Field>, word: string)
    requires fields != [] && fields[0].tag == ['{'] + (word + "}") && forall i :: 0 <= i < |word| ==> !Brace(word[i])
    ensures Passes(['{'] + (fields[0].tag + "}"), fields, false)
  {
    var tag := fields[0].tag;
    var inner := tag + "}";
    var s := ['{'] + inner;
    assert s[1..] == inner && ToBrace(inner) == 0;
    assert Bracketed(s) == Bracketed(inner);
    assert inner[1..] == word + "}}";
    ToBraceOf(word, "}}");
    assert inner[|word| + 1] == '}' && inner[..|word| + 2] == tag && inner[|word| + 2..] == "}";
    assert Bracketed(inner) == [tag] + Bracketed("}");
    assert Bracketed("}") == Bracketed("}"[1..]) == [];
    assert IsTag(tag, fields);
  }

  /** So a template that passes the check can name a row one way in turn and another in one pass: a server named
      "database" makes the database's tag of the template {{server}}. */
  lemma PassesYetDiffers(fields: seq<Field>, database: string, schema: string, table: string)
    requires fields == FieldsOf("database", database, schema, table)
    requires '{' !in database && '{' !in schema && '{' !in table
    ensures var template := ['{'] + (SERVER_TAG + "}");
            && Passes(template, fields, false)
            && InTurn(template, fields, 4) == database && Fill(Parse(template, fields)) == DATABASE_TAG
  {
    FieldsAreTags("database", database, schema, table);
    assert SERVER_TAG == ['{'] + ("server" + "}") && DATABASE_TAG == ['{'] + ("database" + "}");
    assert fields[0].tag == SERVER_TAG && fields[0].value == "database";
    assert fields[1].tag == DATABASE_TAG && fields[1].value == database;
    DoubleBracesPass(fields, "server");
    DoubleBracesDiffer(fields);
  }
}
