/** Name templates over four tags: render in app/src/job_settings.py fills them one tag after another, render_sql in
    app/src/job_settings_sql.py in one pass over the pieces. */
module Templates {
  import opened Text

  /** A tag and what fills it for one row, in the order render fills them. */
  datatype Field = Field(tag: string, value: string)

  const SERVER_TAG := "{server}"
  const DATABASE_TAG := "{database}"

  /** A row's four fields; the values as they go into the name. */
  function FieldsOf(server: string, database: string, schema: string, table: string): (fields: seq<Field>)
    ensures |fields| == 4
  {
    [Field(SERVER_TAG, server), Field(DATABASE_TAG, database), Field("{schema}", schema), Field("{table}", table)]
  }

  /** Text with a brace at its start and no other one opening. */
  predicate Braced(text: string) {
    text != "" && text[0] == '{' && '{' !in text[1..]
  }

  /** No tag begins another, so at most one stands anywhere. */
  ghost predicate Tags(fields: seq<Field>) {
    && (forall f :: f in fields ==> Braced(f.tag))
    && (forall i, j :: 0 <= i < |fields| && 0 <= j < |fields| && i != j ==> !(fields[i].tag <= fields[j].tag))
  }

  lemma FieldsAreTags(server: string, database: string, schema: string, table: string)
    ensures Tags(FieldsOf(server, database, schema, table))
  {
    var fields := FieldsOf(server, database, schema, table);
    var a, b, c, d := fields[0].tag, fields[1].tag, fields[2].tag, fields[3].tag;
    assert a[1] == 's' && a[2] == 'e' && b[1] == 'd' && c[1] == 's' && c[2] == 'c' && d[1] == 't';
    TellApart(fields, a, b, c, d);
  }

  lemma TellApart(fields: seq<Field>, a: string, b: string, c: string, d: string)
    requires |fields| == 4
    requires fields[0].tag == a && fields[1].tag == b && fields[2].tag == c && fields[3].tag == d
    requires Braced(a) && Braced(b) && Braced(c) && Braced(d) && |a| > 2 && |b| > 2 && |c| > 2 && |d| > 2
    requires a[1] == c[1] != b[1] && d[1] != a[1] && d[1] != b[1] && a[2] != c[2]
    ensures Tags(fields)
  {
    forall i, j | 0 <= i < 4 && 0 <= j < 4 && i != j ensures !(fields[i].tag <= fields[j].tag) {
      DifferAt(fields[i].tag, fields[j].tag, if i + j == 2 then 2 else 1);
    }
  }

  lemma DifferAt(a: string, b: string, k: nat)
    requires k < |a| && k < |b| && a[k] != b[k]
    ensures !(a <= b)
  {
  }

  lemma PrefixOfJoin(a: string, b: string, rest: string)
    ensures a <= b + rest ==> a <= b || b <= a
  {
    if a <= b + rest {
      if |a| <= |b| {
        assert a == (b + rest)[..|a|] == b[..|a|];
      } else {
        assert b == (b + rest)[..|b|] == a[..|b|];
      }
    }
  }

  lemma OneTagStands(fields: seq<Field>, i: nat, j: nat, rest: string)
    requires Tags(fields) && i < |fields| && j < |fields| && i != j
    ensures !(fields[i].tag <= fields[j].tag + rest)
  {
    PrefixOfJoin(fields[i].tag, fields[j].tag, rest);
  }

  /** A template as a single pass reads it: one character kept as typed, or a tag. */
  datatype Piece = Lit(c: char) | Hole(field: Field)

  function PrintOne(p: Piece): string {
    match p
    case Lit(c) => [c]
    case Hole(f) => f.tag
  }

  function Print(ps: seq<Piece>): string {
    if ps == [] then "" else PrintOne(ps[0]) + Print(ps[1..])
  }

  /** The field whose tag stands at the start, of the first n. */
  function FieldAt(s: string, fields: seq<Field>, n: nat): (found: Maybe<Field>)
    requires n <= |fields|
    ensures found.Some? ==> found.value in fields && "" < found.value.tag <= s
  {
    if n == 0 then None else if "" < fields[n - 1].tag <= s then Some(fields[n - 1]) else FieldAt(s, fields, n - 1)
  }

  lemma {:induction false} FieldAtIs(s: string, fields: seq<Field>, n: nat, i: nat)
    requires Tags(fields) && i < n <= |fields| && fields[i].tag <= s
    ensures FieldAt(s, fields, n) == Some(fields[i])
    decreases n
  {
    if i < n - 1 {
      var tag := fields[i].tag;
      assert s == tag + s[|tag|..];
      OneTagStands(fields, n - 1, i, s[|tag|..]);
      FieldAtIs(s, fields, n - 1, i);
    }
  }

  function Parse(s: string, fields: seq<Field>): seq<Piece>
    decreases |s|
  {
    if s == "" then [] else
      match FieldAt(s, fields, |fields|)
      case Some(f) => [Hole(f)] + Parse(s[|f.tag|..], fields)
      case None => [Lit(s[0])] + Parse(s[1..], fields)
  }

  lemma {:induction false} PrintOfParse(s: string, fields: seq<Field>)
    requires Tags(fields)
    ensures Print(Parse(s, fields)) == s
    decreases |s|
  {
    if s != "" {
      match FieldAt(s, fields, |fields|)
      case Some(f) =>
        PrintOfParse(s[|f.tag|..], fields);
        assert s == f.tag + s[|f.tag|..];
      case None =>
        PrintOfParse(s[1..], fields);
        assert s == [s[0]] + s[1..];
    }
  }

  lemma {:induction false} ParsedFromFields(s: string, fields: seq<Field>)
    requires Tags(fields)
    ensures From(Parse(s, fields), fields)
    decreases |s|
  {
    if s != "" {
      match FieldAt(s, fields, |fields|)
      case Some(f) => ParsedFromFields(s[|f.tag|..], fields);
      case None => ParsedFromFields(s[1..], fields);
    }
  }

  ghost predicate From(ps: seq<Piece>, fields: seq<Field>) {
    forall k :: 0 <= k < |ps| ==> ps[k].Lit? || ps[k].field in fields
  }

  // ---- the two ways to fill -----------------------------------------------------------------------------------------

  function FillOne(p: Piece): string {
    match p
    case Lit(c) => [c]
    case Hole(f) => f.value
  }

  /** Each tag swapped for its value, the values read once and never searched again. */
  function Fill(ps: seq<Piece>): string {
    if ps == [] then "" else FillOne(ps[0]) + Fill(ps[1..])
  }

  /** Every occurrence of some text replaced, left to right, none overlapping the one before. */
  function Replace(s: string, text: string, value: string): string {
    if s == "" || text == "" then s
    else if text <= s then value + Replace(s[|text|..], text, value)
    else [s[0]] + Replace(s[1..], text, value)
  }

  /** The first n tags replaced, one after another. */
  function InTurn(s: string, fields: seq<Field>, n: nat): string
    requires n <= |fields|
  {
    if n == 0 then s else Replace(InTurn(s, fields, n - 1), fields[n - 1].tag, fields[n - 1].value)
  }

  predicate Space(c: char) {
    c == ' ' || '\t' <= c <= '\r'
  }

  function StripStart(s: string): (t: string)
    ensures |t| <= |s| && (t != "" ==> !Space(t[0]))
  {
    if s != "" && Space(s[0]) then StripStart(s[1..]) else s
  }

  function StripEnd(s: string): (t: string)
    ensures |t| <= |s| && (t != "" ==> t[0] == s[0] && !Space(t[|t| - 1]))
  {
    if s != "" && Space(s[|s| - 1]) then StripEnd(s[..|s| - 1]) else s
  }

  function Strip(s: string): (t: string)
    ensures t != "" ==> !Space(t[0]) && !Space(t[|t| - 1])
  {
    StripEnd(StripStart(s))
  }

  predicate Trimmed(s: string) {
    s == "" || (!Space(s[0]) && !Space(s[|s| - 1]))
  }

  lemma StripOfTrimmed(s: string)
    requires Trimmed(s)
    ensures Strip(s) == s
  {
    assert StripStart(s) == s && StripEnd(s) == s;
  }

  /** A template filled from one row; None when it is blank. */
  method Render(template: string, fields: seq<Field>) returns (name: Maybe<string>)
    ensures name == Rendered(template, fields)
  {
    if Strip(template) == "" {
      return None;
    }
    var out := Strip(template);
    for n := 0 to |fields|
      invariant out == InTurn(Strip(template), fields, n)
    {
      out := Replace(out, fields[n].tag, fields[n].value);
    }
    name := Some(out);
  }

  function Rendered(template: string, fields: seq<Field>): Maybe<string> {
    if Strip(template) == "" then None else Some(InTurn(Strip(template), fields, |fields|))
  }

  /** The same template as SQL fills it: its pieces in order, each tag's value in place. */
  method RenderSql(template: string, fields: seq<Field>) returns (name: Maybe<string>)
    ensures name == if Strip(template) == "" then None else Some(Fill(Parse(Strip(template), fields)))
  {
    var text := Strip(template);
    if text == "" {
      return None;
    }
    var pieces, out := Parse(text, fields), "";
    for k := 0 to |pieces|
      invariant out + Fill(pieces[k..]) == Fill(pieces)
    {
      assert pieces[k..][0] == pieces[k] && pieces[k..][1..] == pieces[k + 1..];
      out := out + FillOne(pieces[k]);
    }
    assert pieces[|pieces|..] == [] && out + "" == out;
    name := Some(out);
  }

  // ---- the two agree ------------------------------------------------------------------------------------------------

  lemma {:induction false} ReplaceSkips(a: string, b: string, text: string, value: string)
    requires Braced(text) && '{' !in a
    ensures Replace(a + b, text, value) == a + Replace(b, text, value)
  {
    if a == "" {
      assert a + b == b;
    } else {
      assert (a + b)[0] == a[0] && (a + b)[1..] == a[1..] + b;
      assert a[0] in a && !(text <= a + b);
      ReplaceSkips(a[1..], b, text, value);
    }
  }

  lemma ReplaceKeeps(other: string, b: string, text: string, value: string)
    requires Braced(text) && Braced(other) && !(text <= other + b)
    ensures Replace(other + b, text, value) == other + Replace(b, text, value)
  {
    assert (other + b)[1..] == other[1..] + b;
    ReplaceSkips(other[1..], b, text, value);
    assert other == [other[0]] + other[1..];
  }

  lemma ReplaceFirst(b: string, text: string, value: string)
    requires text != ""
    ensures Replace(text + b, text, value) == value + Replace(b, text, value)
  {
    assert (text + b)[|text|..] == b;
  }

  predicate PlainPiece(p: Piece) {
    match p
    case Lit(c) => c != '{'
    case Hole(f) => '{' !in f.value
  }

  /** No brace opens in what is kept as typed, nor in the value of a tag used. */
  ghost predicate Plain(ps: seq<Piece>) {
    forall k :: 0 <= k < |ps| ==> PlainPiece(ps[k])
  }

  function PartOne(p: Piece, fields: seq<Field>, n: nat): string
    requires n <= |fields|
  {
    match p
    case Lit(c) => [c]
    case Hole(f) => if Among(f, fields, n) then f.value else f.tag
  }

  /** One of the first n fields. */
  predicate Among(f: Field, fields: seq<Field>, n: nat)
    requires n <= |fields|
  {
    n > 0 && (f == fields[n - 1] || Among(f, fields, n - 1))
  }

  lemma {:induction false} AmongAll(f: Field, fields: seq<Field>, n: nat, m: nat)
    requires m < n <= |fields| && fields[m] == f
    ensures Among(f, fields, n)
    decreases n
  {
    if m < n - 1 {
      AmongAll(f, fields, n - 1, m);
    }
  }

  /** The text once the first n tags are filled. */
  function Partly(ps: seq<Piece>, fields: seq<Field>, n: nat): string
    requires n <= |fields|
  {
    if ps == [] then "" else PartOne(ps[0], fields, n) + Partly(ps[1..], fields, n)
  }

  lemma ReplaceInOne(p: Piece, rest: string, fields: seq<Field>, n: nat)
    requires Tags(fields) && n < |fields| && PlainPiece(p) && (p.Hole? ==> p.field in fields)
    ensures Replace(PartOne(p, fields, n) + rest, fields[n].tag, fields[n].value)
            == PartOne(p, fields, n + 1) + Replace(rest, fields[n].tag, fields[n].value)
  {
    var tag, value := fields[n].tag, fields[n].value;
    match p
    case Lit(c) => ReplaceSkips([c], rest, tag, value);
    case Hole(f) =>
      if Among(f, fields, n) {
        ReplaceSkips(f.value, rest, tag, value);
      } else if f == fields[n] {
        ReplaceFirst(rest, tag, value);
      } else {
        var m :| 0 <= m < |fields| && fields[m] == f;
        OneTagStands(fields, n, m, rest);
        ReplaceKeeps(f.tag, rest, tag, value);
      }
  }

  lemma {:induction false} ReplaceInAll(ps: seq<Piece>, fields: seq<Field>, n: nat)
    requires Tags(fields) && n < |fields| && Plain(ps) && From(ps, fields)
    ensures Replace(Partly(ps, fields, n), fields[n].tag, fields[n].value) == Partly(ps, fields, n + 1)
    decreases |ps|
  {
    if ps != [] {
      var rest := ps[1..];
      assert forall k :: 0 <= k < |rest| ==> rest[k] == ps[k + 1];
      ReplaceInAll(rest, fields, n);
      ReplaceInOne(ps[0], Partly(rest, fields, n), fields, n);
    }
  }

  lemma {:induction false} PartlyEnds(ps: seq<Piece>, fields: seq<Field>)
    requires From(ps, fields)
    ensures Partly(ps, fields, 0) == Print(ps) && Partly(ps, fields, |fields|) == Fill(ps)
  {
    if ps != [] {
      assert forall k :: 0 <= k < |ps| - 1 ==> ps[1..][k] == ps[k + 1];
      PartlyEnds(ps[1..], fields);
      if ps[0].Hole? {
        var m :| 0 <= m < |fields| && fields[m] == ps[0].field;
        AmongAll(ps[0].field, fields, |fields|, m);
      }
    }
  }

  lemma {:induction false} InTurnIsPartly(text: string, ps: seq<Piece>, fields: seq<Field>, n: nat)
    requires Tags(fields) && Plain(ps) && From(ps, fields) && n <= |fields| && text == Partly(ps, fields, 0)
    ensures InTurn(text, fields, n) == Partly(ps, fields, n)
    decreases n
  {
    if n > 0 {
      InTurnIsPartly(text, ps, fields, n - 1);
      ReplaceInAll(ps, fields, n - 1);
    }
  }

  lemma FilledInTurn(ps: seq<Piece>, fields: seq<Field>)
    requires Tags(fields) && Plain(ps) && From(ps, fields)
    ensures InTurn(Print(ps), fields, |fields|) == Fill(ps)
  {
    PartlyEnds(ps, fields);
    InTurnIsPartly(Print(ps), ps, fields, |fields|);
  }

  /** Filling tag by tag gives what one pass gives, when no brace opens outside a tag of the template and none in a
      value it uses. */
  lemma BothRenderersAgree(template: string, fields: seq<Field>)
    requires Tags(fields) && Plain(Parse(Strip(template), fields))
    ensures Rendered(template, fields)
            == if Strip(template) == "" then None else Some(Fill(Parse(Strip(template), fields)))
  {
    PrintOfParse(Strip(template), fields);
    ParsedFromFields(Strip(template), fields);
    FilledInTurn(Parse(Strip(template), fields), fields);
  }

  lemma ReplaceAll(name: string, text: string, value: string)
    requires Braced(text)
    ensures '{' !in name ==> Replace(name, text, value) == name
    ensures Replace(text, text, value) == value
  {
    if '{' !in name {
      ReplaceSkips(name, "", text, value);
      assert name + "" == name;
    }
    ReplaceFirst("", text, value);
    assert text + "" == text && value + "" == value;
  }

  lemma ReplaceMiddle(b: string, text: string, value: string)
    requires Braced(text) && |text| > 1 && '{' !in b
    ensures Replace(['{'] + (text + b), text, value) == ['{'] + (value + b)
  {
    var s := ['{'] + (text + b);
    assert s[1] == '{' && s[1..] == text + b;
    assert text[1] in text[1..];
    DifferAt(text, s, 1);
    ReplaceFirst(b, text, value);
    ReplaceAll(b, text, value);
  }

  ghost predicate PlainValues(fields: seq<Field>) {
    forall f :: f in fields ==> '{' !in f.value
  }

  lemma {:induction false} InTurnKeeps(s: string, name: string, fields: seq<Field>, n: nat, m: nat)
    requires Tags(fields) && n <= m <= |fields| && InTurn(s, fields, n) == name && '{' !in name
    ensures InTurn(s, fields, m) == name
    decreases m
  {
    if n < m {
      InTurnKeeps(s, name, fields, n, m - 1);
      ReplaceAll(name, fields[m - 1].tag, fields[m - 1].value);
    }
  }

  /** A brace around a tag passes the check of templates, and then the two differ: when a row's server is named as the
      database tag is, in turn builds that tag and fills it too, and one pass does not. */
  lemma DoubleBracesDiffer(fields: seq<Field>)
    requires Tags(fields) && |fields| == 4 && PlainValues(fields)
    requires ['{'] + (fields[0].value + "}") == fields[1].tag
    ensures var template := ['{'] + (fields[0].tag + "}");
            InTurn(template, fields, 4) == fields[1].value && Fill(Parse(template, fields)) == fields[1].tag
  {
    var template := ['{'] + (fields[0].tag + "}");
    assert |fields[0].tag| > 1 by { assert fields[0] in fields && fields[1] in fields
        && !(fields[0].tag <= fields[1].tag); }
    ReplaceMiddle("}", fields[0].tag, fields[0].value);
    ReplaceAll("", fields[1].tag, fields[1].value);
    assert InTurn(template, fields, 1) == fields[1].tag && InTurn(template, fields, 2) == fields[1].value;
    InTurnKeeps(template, fields[1].value, fields, 2, 4);
    OnePassKeepsBraces(fields);
  }

  lemma {:induction false} NoFieldAt(s: string, fields: seq<Field>, n: nat)
    requires n <= |fields| && forall f :: f in fields ==> !(f.tag <= s)
    ensures FieldAt(s, fields, n) == None
    decreases n
  {
    if n > 0 {
      NoFieldAt(s, fields, n - 1);
    }
  }

  lemma ParseLit(c: char, rest: string, fields: seq<Field>)
    requires forall f :: f in fields ==> !(f.tag <= [c] + rest)
    ensures Parse([c] + rest, fields) == [Lit(c)] + Parse(rest, fields)
  {
    NoFieldAt([c] + rest, fields, |fields|);
    assert ([c] + rest)[1..] == rest;
  }

  lemma ParseTag(i: nat, rest: string, fields: seq<Field>)
    requires Tags(fields) && i < |fields|
    ensures Parse(fields[i].tag + rest, fields) == [Hole(fields[i])] + Parse(rest, fields)
  {
    FieldAtIs(fields[i].tag + rest, fields, |fields|, i);
    assert (fields[i].tag + rest)[|fields[i].tag|..] == rest;
  }

  lemma TagsGoOn(fields: seq<Field>, text: string)
    requires Tags(fields) && |fields| > 1 && |text| > 1 && text[1] == '{'
    ensures forall f :: f in fields ==> !(f.tag <= text)
  {
    forall f | f in fields ensures !(f.tag <= text) {
      var i :| 0 <= i < |fields| && fields[i] == f;
      assert !(f.tag <= fields[if i == 0 then 1 else 0].tag) && Braced(fields[if i == 0 then 1 else 0].tag);
      assert |f.tag| > 1 && f.tag[1] in f.tag[1..];
    }
  }

  lemma OnePassKeepsBraces(fields: seq<Field>)
    requires Tags(fields) && |fields| > 1
    ensures Fill(Parse(['{'] + (fields[0].tag + "}"), fields)) == ['{'] + (fields[0].value + "}")
  {
    TagsGoOn(fields, ['{'] + (fields[0].tag + "}"));
    ParseLit('{', fields[0].tag + "}", fields);
    ParseTag(0, "}", fields);
    assert forall f :: f in fields ==> !(f.tag <= ['}'] + "");
    ParseLit('}', "", fields);
    assert "}" == ['}'] + "";
    FillThree('{', fields[0], '}');
    assert [Lit('{')] + ([Hole(fields[0])] + ([Lit('}')] + [])) == [Lit('{'), Hole(fields[0]), Lit('}')];
  }

  lemma FillThree(a: char, f: Field, b: char)
    ensures Fill([Lit(a), Hole(f), Lit(b)]) == [a] + (f.value + [b])
  {
    var ps := [Lit(a), Hole(f), Lit(b)];
    assert ps[1..] == [Hole(f), Lit(b)] && ps[1..][1..] == [Lit(b)] && ps[1..][1..][1..] == [];
    assert Fill([Lit(b)]) == [b] + "" == [b];
  }

  /** A value that is itself a tag is filled again, in turn, and kept in one pass. */
  lemma BracedValuesDiffer(fields: seq<Field>)
    requires Tags(fields) && |fields| == 4 && fields[0].value == fields[1].tag && '{' !in fields[1].value
    ensures InTurn(fields[0].tag, fields, 4) == fields[1].value
    ensures Fill(Parse(fields[0].tag, fields)) == fields[1].tag
  {
    assert fields[0] in fields && fields[1] in fields;
    ReplaceAll("", fields[0].tag, fields[0].value);
    ReplaceAll("", fields[1].tag, fields[1].value);
    assert InTurn(fields[0].tag, fields, 0) == fields[0].tag;
    assert InTurn(fields[0].tag, fields, 1) == fields[1].tag;
    assert InTurn(fields[0].tag, fields, 2) == fields[1].value;
    InTurnKeeps(fields[0].tag, fields[1].value, fields, 2, 4);
    ParseTag(0, "", fields);
    assert fields[0].tag + "" == fields[0].tag && [Hole(fields[0])] + [] == [Hole(fields[0])];
    assert [Hole(fields[0])][1..] == [] && fields[0].value + "" == fields[0].value;
  }
}
