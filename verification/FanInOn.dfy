/** Turning fan-in on without naming a client_id, in app/src/job_settings.py:
    the default key depends on whether the job shares its tables already, which
    is what the edit has just changed. When the edit is settled, in the rows'
    own fields. */
module FanInOn {
  import opened Text
  import opened Templates
  import opened TemplateSearch
  import opened TemplateChoice
  import opened SettingsEdit
  import opened EditSettles

  /** The four tags of a row, the first two the server's and the database's. */
  ghost predicate Source(fields: seq<Field>) {
    && |fields| == 4 && Tags(fields) && Closed(fields)
    && fields[0].tag == SERVER_TAG && fields[1].tag == DATABASE_TAG
    && forall f :: f in fields ==> EndsInBrace(f.tag)
  }

  predicate EndsInBrace(tag: string) {
    '_' !in tag && tag != "" && tag[|tag| - 1] == '}'
  }

  lemma TagsEndInBraces()
    ensures EndsInBrace(SERVER_TAG) && EndsInBrace(DATABASE_TAG) && EndsInBrace("{schema}") && EndsInBrace("{table}")
  {
  }

  lemma FieldsAreSource(server: string, database: string, schema: string, table: string)
    ensures Source(FieldsOf(server, database, schema, table))
  {
    var fields := FieldsOf(server, database, schema, table);
    FieldsAreTags(server, database, schema, table);
    FieldsAreClosed(server, database, schema, table);
    TagsEndInBraces();
    forall f | f in fields ensures EndsInBrace(f.tag) {
      assert f == fields[0] || f == fields[1] || f == fields[2] || f == fields[3];
    }
  }

  /** The edit asks for fan-in, names no client_id, and fills the server-and-database key: the default of a job that
      does not share its tables yet, or what its client_ids read back as. */
  ghost predicate TurnsOn(rows: seq<Row>, settings: Settings) {
    && settings.fanIn == Some(true) && !Given(settings.clientId) && IdTemplate(settings, Read(rows)) == SHARED
    && forall i :: 0 <= i < |rows| ==> Source(rows[i].asIs)
  }

  /** So does every job with no client_id. */
  lemma NoIdsTurnOn(rows: seq<Row>, settings: Settings)
    requires settings.fanIn == Some(true) && !Given(settings.clientId)
    requires forall i :: 0 <= i < |rows| ==> !HasId(rows[i].clientId) && Source(rows[i].asIs)
    ensures TurnsOn(rows, settings)
  {
    NoneYet(rows, |rows|);
  }

  // ---- every row gets a client_id -----------------------------------------------------------------------------------

  lemma {:induction false} ReplaceLeaves(s: string, text: string, value: string, c: char)
    requires c in s && c !in text
    ensures c in Replace(s, text, value)
    decreases |s|
  {
    if text != "" {
      if text <= s {
        assert s == text + s[|text|..];
        ReplaceLeaves(s[|text|..], text, value, c);
      } else if s[0] != c {
        assert s == [s[0]] + s[1..];
        ReplaceLeaves(s[1..], text, value, c);
      } else {
        assert Replace(s, text, value)[0] == c;
      }
    }
  }

  lemma {:induction false} InTurnLeaves(s: string, fields: seq<Field>, n: nat, c: char)
    requires n <= |fields| && c in s && forall f :: f in fields ==> c !in f.tag
    ensures c in InTurn(s, fields, n)
    decreases n
  {
    if n > 0 {
      InTurnLeaves(s, fields, n - 1, c);
      ReplaceLeaves(InTurn(s, fields, n - 1), fields[n - 1].tag, fields[n - 1].value, c);
    }
  }

  lemma {:induction false} StripStartLeaves(s: string, c: char)
    requires c in s && !Space(c)
    ensures c in StripStart(s)
  {
    if Space(s[0]) {
      assert s == [s[0]] + s[1..];
      StripStartLeaves(s[1..], c);
    }
  }

  lemma {:induction false} StripEndLeaves(s: string, c: char)
    requires c in s && !Space(c)
    ensures c in StripEnd(s)
  {
    var last := |s| - 1;
    if Space(s[last]) {
      assert s == s[..last] + [s[last]];
      StripEndLeaves(s[..last], c);
    }
  }

  lemma StoredHasId(s: string, c: char)
    requires c in s && !Space(c)
    ensures HasId(Normal(Some(s)))
  {
    StripStartLeaves(s, c);
    StripEndLeaves(StripStart(s), c);
    NormalTwice(Some(s));
  }

  lemma SharedIsTrimmed(fields: seq<Field>)
    requires Source(fields)
    ensures Strip(SHARED) == SHARED && SHARED != "" && '_' in SHARED
  {
    assert fields[0] in fields && fields[1] in fields;
    var end := "_" + DATABASE_TAG;
    assert SHARED[|SHARED| - 1] == DATABASE_TAG[|DATABASE_TAG| - 1] && SHARED[0] == SERVER_TAG[0];
    assert SHARED[|SERVER_TAG|] == '_';
    StripOfTrimmed(SHARED);
  }

  lemma SharedGivesId(fields: seq<Field>)
    requires Source(fields)
    ensures HasId(Normal(Rendered(SHARED, fields)))
  {
    SharedIsTrimmed(fields);
    InTurnLeaves(SHARED, fields, 4, '_');
    StoredHasId(InTurn(SHARED, fields, 4), '_');
  }

  lemma EveryRowGetsId(rows: seq<Row>, after: seq<Row>, settings: Settings)
    requires TurnsOn(rows, settings) && Edited(rows, after, settings)
    ensures EveryId(after) && Written(after)
  {
    forall i | 0 <= i < |rows|
      ensures after[i].clientId == Normal(Rendered(SHARED, after[i].asIs)) && HasId(after[i].clientId)
    {
      SharedGivesId(rows[i].asIs);
    }
  }

  lemma WrittenSettles(rows: seq<Row>, after: seq<Row>, settings: Settings)
    requires TurnsOn(rows, settings) && Edited(rows, after, settings) && Shared(Ids(after, |after|)).Some?
    ensures Changes(after, settings) == map[]
  {
    EveryRowGetsId(rows, after, settings);
    ReadBackSettles(rows, after, settings);
  }

  // ---- what the key is, when names hold no brace --------------------------------------------------------------------

  function KeyOf(fields: seq<Field>): string
    requires |fields| == 4
  {
    fields[0].value + ("_" + fields[1].value)
  }

  lemma SharedParses(fields: seq<Field>)
    requires Source(fields)
    ensures Parse(SHARED, fields) == [Hole(fields[0]), Lit('_'), Hole(fields[1])]
  {
    ParseTag(0, "_" + DATABASE_TAG, fields);
    assert "_" + DATABASE_TAG == ['_'] + DATABASE_TAG;
    assert forall f :: f in fields ==> f.tag[0] == '{';
    ParseLit('_', DATABASE_TAG, fields);
    LegacyParses(fields);
    assert [Hole(fields[0])] + ([Lit('_')] + [Hole(fields[1])]) == [Hole(fields[0]), Lit('_'), Hole(fields[1])];
  }

  lemma LegacyParses(fields: seq<Field>)
    requires Source(fields)
    ensures Parse(LEGACY, fields) == [Hole(fields[1])]
  {
    ParseTag(1, "", fields);
    assert DATABASE_TAG + "" == DATABASE_TAG && [Hole(fields[1])] + [] == [Hole(fields[1])];
  }

  lemma FillsKey(f: Field, g: Field)
    ensures Fill([Hole(f), Lit('_'), Hole(g)]) == f.value + ("_" + g.value) && Fill([Hole(g)]) == g.value
  {
    OneOf(Hole(g));
    FillOfBoth([Lit('_')], [Hole(g)]);
    OneOf(Lit('_'));
    assert [Lit('_')] + [Hole(g)] == [Lit('_'), Hole(g)];
    FillOfBoth([Hole(f)], [Lit('_'), Hole(g)]);
    OneOf(Hole(f));
    assert [Hole(f)] + [Lit('_'), Hole(g)] == [Hole(f), Lit('_'), Hole(g)];
  }

  lemma RenderedShared(fields: seq<Field>)
    requires Source(fields) && PlainValues(fields)
    ensures Rendered(SHARED, fields) == Some(KeyOf(fields))
  {
    var ps := [Hole(fields[0]), Lit('_'), Hole(fields[1])];
    SharedIsTrimmed(fields);
    SharedParses(fields);
    FillsKey(fields[0], fields[1]);
    SharedIsPlain(fields, ps);
    RenderedByPieces(SHARED, fields, ps);
  }

  lemma SharedIsPlain(fields: seq<Field>, ps: seq<Piece>)
    requires |fields| >= 2 && PlainValues(fields) && ps == [Hole(fields[0]), Lit('_'), Hole(fields[1])]
    ensures Plain(ps)
  {
    assert fields[0] in fields && fields[1] in fields;
  }

  lemma RenderedLegacy(fields: seq<Field>)
    requires Source(fields) && PlainValues(fields)
    ensures Rendered(LEGACY, fields) == Some(fields[1].value)
  {
    LegacyParses(fields);
    TagRenders(fields, 1);
  }

  lemma TagRenders(fields: seq<Field>, i: nat)
    requires Source(fields) && PlainValues(fields) && i < 4 && Parse(fields[i].tag, fields) == [Hole(fields[i])]
    ensures Rendered(fields[i].tag, fields) == Some(fields[i].value)
  {
    assert fields[i] in fields;
    StripOfTrimmed(fields[i].tag);
    OneOf(Hole(fields[i]));
    RenderedByPieces(fields[i].tag, fields, [Hole(fields[i])]);
  }

  lemma RenderedByPieces(template: string, fields: seq<Field>, ps: seq<Piece>)
    requires Tags(fields) && template != "" && Strip(template) == template && Parse(template, fields) == ps && Plain(ps)
    ensures Rendered(template, fields) == Some(Fill(ps))
  {
    BothRenderersAgree(template, fields);
  }

  // ---- and back: what is not read back is written over --------------------------------------------------------------

  function Underscores(s: string): nat {
    if s == "" then 0 else Underscores(s[1..]) + if s[0] == '_' then 1 else 0
  }

  lemma {:induction false} UnderscoresAdd(a: string, b: string)
    ensures Underscores(a + b) == Underscores(a) + Underscores(b)
  {
    if a == "" {
      assert a + b == b;
    } else {
      assert (a + b)[0] == a[0] && (a + b)[1..] == a[1..] + b;
      UnderscoresAdd(a[1..], b);
    }
  }

  lemma {:induction false} StripStartCounts(s: string)
    ensures Underscores(StripStart(s)) == Underscores(s)
  {
    if s != "" && Space(s[0]) {
      StripStartCounts(s[1..]);
    }
  }

  lemma {:induction false} StripEndCounts(s: string)
    ensures Underscores(StripEnd(s)) == Underscores(s)
  {
    var last := |s| - 1;
    if s != "" && Space(s[last]) {
      StripEndCounts(s[..last]);
      assert s == s[..last] + [s[last]] && [s[last]][1..] == "";
      UnderscoresAdd(s[..last], [s[last]]);
    }
  }

  lemma StripCounts(s: string)
    ensures Underscores(Strip(s)) == Underscores(s)
  {
    StripStartCounts(s);
    StripEndCounts(StripStart(s));
  }

  lemma CountsDiffer(x: string, y: string)
    requires Underscores(x) > Underscores(y)
    ensures Normal(Some(x)) != Normal(Some(y))
  {
    StoredCounts(x);
    StoredCounts(y);
  }

  lemma StoredCounts(s: string)
    ensures Normal(Some(s)).Some? ==> Underscores(Normal(Some(s)).value) == Underscores(s)
    ensures Normal(Some(s)).None? ==> Underscores(s) == 0
  {
    StripCounts(s);
  }

  lemma KeyHasMore(server: string, database: string)
    ensures Underscores(server + ("_" + database)) > Underscores(database)
  {
    UnderscoresAdd(server, "_" + database);
    UnderscoresAdd("_", database);
    assert Underscores("_") == 1 by { assert "_"[1..] == ""; }
  }

  ghost predicate PlainRows(rows: seq<Row>) {
    forall i :: 0 <= i < |rows| ==> PlainValues(rows[i].asIs)
  }

  lemma {:induction false} StripStartAmong(s: string, c: char)
    requires c !in s
    ensures c !in StripStart(s)
  {
    if s != "" && Space(s[0]) {
      StripStartAmong(s[1..], c);
    }
  }

  lemma {:induction false} StripEndAmong(s: string, c: char)
    requires c !in s
    ensures c !in StripEnd(s)
  {
    if s != "" && Space(s[|s| - 1]) {
      StripEndAmong(s[..|s| - 1], c);
    }
  }

  lemma StripAmong(s: string, c: char)
    requires c !in s
    ensures c !in Strip(s)
  {
    StripStartAmong(s, c);
    StripEndAmong(StripStart(s), c);
  }

  lemma WrittenKey(row: Row)
    requires Source(row.asIs) && PlainValues(row.asIs) && row.clientId == Normal(Rendered(SHARED, row.asIs))
    ensures HasId(row.clientId) && row.clientId.value == Strip(KeyOf(row.asIs))
    ensures '{' !in row.clientId.value && Trimmed(row.clientId.value) && row.clientId.value != ""
  {
    SharedGivesId(row.asIs);
    RenderedShared(row.asIs);
    assert row.asIs[0] in row.asIs && row.asIs[1] in row.asIs;
    StripAmong(KeyOf(row.asIs), '{');
  }

  /** Ids that read back as no template are not all the same. */
  lemma NoTemplateNoValue(ids: seq<Filled>)
    requires ids != [] && Shared(ids).None?
    requires '{' !in ids[0].value && Trimmed(ids[0].value) && ids[0].value != ""
    requires forall i :: 0 <= i < |ids| ==> Tags(ids[i].fields) && Closed(ids[i].fields)
    ensures SharedId(ids) == None
  {
    if forall i :: 0 <= i < |ids| ==> ids[i].value == ids[0].value {
      OneValueIsShared(ids, ids[0].value);
    }
  }

  ghost predicate Written(rows: seq<Row>) {
    forall i :: 0 <= i < |rows| ==> Source(rows[i].asIs) && rows[i].clientId == Normal(Rendered(SHARED, rows[i].asIs))
  }

  lemma IdsAreTags(after: seq<Row>)
    requires EveryId(after) && Written(after)
    ensures forall i :: 0 <= i < |Ids(after, |after|)| ==>
              Tags(Ids(after, |after|)[i].fields) && Closed(Ids(after, |after|)[i].fields)
  {
    var ids := Ids(after, |after|);
    IdsCount(after, |after|);
    forall i | 0 <= i < |ids| ensures Tags(ids[i].fields) && Closed(ids[i].fields) { IdsAt(after, |after|, i); }
  }

  lemma NotReadBack(after: seq<Row>)
    requires after != [] && EveryId(after) && PlainRows(after) && Written(after) && Shared(Ids(after, |after|)).None?
    ensures Read(after) == Now(Some(true), None)
  {
    IdsCount(after, |after|);
    IdsAt(after, |after|, 0);
    WrittenKey(after[0]);
    IdsAreTags(after);
    NoTemplateNoValue(Ids(after, |after|));
  }

  lemma KeyIsWrittenOver(row: Row, settings: Settings)
    requires settings.fanIn == Some(true) && !Given(settings.clientId)
    requires Source(row.asIs) && PlainValues(row.asIs) && row.clientId == Normal(Rendered(SHARED, row.asIs))
    ensures Next(row, settings, Now(Some(true), None)) != row
  {
    RenderedShared(row.asIs);
    KeyHasMore(row.asIs[0].value, row.asIs[1].value);
    CountsDiffer(KeyOf(row.asIs), row.asIs[1].value);
    LegacyNext(row.clientId, row.asIs, settings);
  }

  lemma LegacyNext(clientId: Maybe<string>, fields: seq<Field>, settings: Settings)
    requires settings.fanIn == Some(true) && !Given(settings.clientId) && Source(fields) && PlainValues(fields)
    ensures NextId(clientId, fields, settings, Now(Some(true), None)) == Normal(Some(fields[1].value))
  {
    assert IdTemplate(settings, Now(Some(true), None)) == LEGACY;
    RenderedLegacy(fields);
  }

  lemma NotReadBackUnsettles(after: seq<Row>, settings: Settings)
    requires settings.fanIn == Some(true) && !Given(settings.clientId)
    requires after != [] && EveryId(after) && PlainRows(after) && Written(after) && Shared(Ids(after, |after|)).None?
    ensures Changes(after, settings) != map[]
  {
    NotReadBack(after);
    KeyIsWrittenOver(after[0], settings);
    ChangesAt(after, settings, Now(Some(true), None), |after|, 0);
  }

  /** Planning it again changes no row exactly when the client_ids it writes read back as a template: otherwise the
      default is now the key of a job already sharing its tables, and every row is written over with it. */
  lemma SettlesWhenReadBack(rows: seq<Row>, after: seq<Row>, settings: Settings)
    requires TurnsOn(rows, settings) && Edited(rows, after, settings) && PlainRows(rows) && rows != []
    ensures Changes(after, settings) == map[] <==> Shared(Ids(after, |after|)).Some?
  {
    if Shared(Ids(after, |after|)).Some? {
      WrittenSettles(rows, after, settings);
    } else {
      EveryRowGetsId(rows, after, settings);
      NotReadBackUnsettles(after, settings);
    }
  }

  // ---- when they do read back ---------------------------------------------------------------------------------------

  lemma KeyIsItself(row: Row)
    requires Source(row.asIs) && PlainValues(row.asIs) && Trimmed(KeyOf(row.asIs))
    requires row.clientId == Normal(Rendered(SHARED, row.asIs))
    ensures HasId(row.clientId) && row.clientId.value == KeyOf(row.asIs)
  {
    WrittenKey(row);
    StripOfTrimmed(KeyOf(row.asIs));
  }

  /** The key's parts that have a value in a row: its server and its database. */
  function PartsOf(first: seq<Field>): string
    requires |first| == 4
  {
    (if first[0].value == "" then "" else SERVER_TAG) + ("_" + if first[1].value == "" then "" else DATABASE_TAG)
  }

  function PiecesOf(first: seq<Field>, fields: seq<Field>): seq<Piece>
    requires |first| == 4 && |fields| == 4
  {
    (if first[0].value == "" then [] else [Hole(fields[0])])
    + ([Lit('_')] + if first[1].value == "" then [] else [Hole(fields[1])])
  }

  lemma PartsParse(first: seq<Field>, fields: seq<Field>)
    requires |first| == 4 && Source(fields)
    ensures Parse(PartsOf(first), fields) == PiecesOf(first, fields)
  {
    var end := if first[1].value == "" then "" else DATABASE_TAG;
    EndParses(fields, end);
    assert forall f :: f in fields ==> f.tag[0] == '{';
    ParseLit('_', end, fields);
    assert "_" + end == ['_'] + end;
    if first[0].value == "" {
      assert "" + ("_" + end) == "_" + end && [] + Parse("_" + end, fields) == Parse("_" + end, fields);
    } else {
      ParseTag(0, "_" + end, fields);
    }
  }

  lemma EndParses(fields: seq<Field>, end: string)
    requires Source(fields) && (end == "" || end == DATABASE_TAG)
    ensures Parse(end, fields) == if end == "" then [] else [Hole(fields[1])]
  {
    if end != "" {
      LegacyParses(fields);
    }
  }

  lemma PartsAreTrimmed(first: seq<Field>, fields: seq<Field>)
    requires |first| == 4 && Source(fields)
    ensures Strip(PartsOf(first)) == PartsOf(first) && PartsOf(first) != ""
  {
    assert fields[0] in fields && fields[1] in fields;
    var parts := PartsOf(first);
    assert parts[0] == if first[0].value == "" then '_' else SERVER_TAG[0];
    assert parts[|parts| - 1] == if first[1].value == "" then '_' else DATABASE_TAG[|DATABASE_TAG| - 1];
    StripOfTrimmed(parts);
  }

  /** A part the first row has no value for, no row has a value for. */
  ghost predicate NamedAsFirst(first: seq<Field>, fields: seq<Field>) {
    && |first| == 4 && |fields| == 4
    && (first[0].value == "" ==> fields[0].value == "") && (first[1].value == "" ==> fields[1].value == "")
  }

  lemma PartsFill(first: seq<Field>, fields: seq<Field>)
    requires NamedAsFirst(first, fields)
    ensures Fill(PiecesOf(first, fields)) == KeyOf(fields)
  {
    var a := if first[0].value == "" then [] else [Hole(fields[0])];
    var b := if first[1].value == "" then [] else [Hole(fields[1])];
    OneOf(Hole(fields[0]));
    OneOf(Hole(fields[1]));
    OneOf(Lit('_'));
    FillOfBoth([Lit('_')], b);
    FillOfBoth(a, [Lit('_')] + b);
  }

  lemma PartsArePlain(first: seq<Field>, fields: seq<Field>)
    requires |first| == 4 && |fields| == 4 && PlainValues(fields)
    ensures Plain(PiecesOf(first, fields))
  {
    assert fields[0] in fields && fields[1] in fields;
  }

  /** The template of those parts gives such a row its key. */
  lemma PartsRender(first: seq<Field>, fields: seq<Field>)
    requires NamedAsFirst(first, fields) && Source(fields) && PlainValues(fields)
    ensures Rendered(PartsOf(first), fields) == Some(KeyOf(fields))
  {
    PartsAreTrimmed(first, fields);
    PartsParse(first, fields);
    PartsArePlain(first, fields);
    PartsFill(first, fields);
    RenderedByPieces(PartsOf(first), fields, PiecesOf(first, fields));
  }

  lemma PartsAreUsable(first: seq<Field>)
    requires |first| == 4
    ensures Usable(PiecesOf(first, first))
  {
  }

  lemma PartsAreProper(first: seq<Field>)
    requires Source(first) && PlainValues(first)
    ensures Proper(PartsOf(first), first)
  {
    PartsAreTrimmed(first, first);
    PartsParse(first, first);
    PartsArePlain(first, first);
    PartsAreUsable(first);
  }

  // ---- and when they do not -----------------------------------------------------------------------------------------

  lemma {:induction false} InTurnStarts(s: string, fields: seq<Field>, n: nat)
    requires n <= |fields| && Tags(fields) && s != "" && s[0] != '{'
    ensures InTurn(s, fields, n) != "" && InTurn(s, fields, n)[0] == s[0]
    decreases n
  {
    if n > 0 {
      InTurnStarts(s, fields, n - 1);
      assert fields[n - 1] in fields;
    }
  }

  lemma {:induction false} ReplaceEnds(s: string, text: string, value: string, c: char)
    requires s != "" && s[|s| - 1] == c && (text != "" ==> text[|text| - 1] != c)
    ensures var after := Replace(s, text, value); after != "" && after[|after| - 1] == c
    decreases |s|
  {
    if text != "" && text <= s {
      assert s == text + s[|text|..];
      if s[|text|..] != "" {
        ReplaceEnds(s[|text|..], text, value, c);
      }
    } else if text != "" && |s| > 1 {
      ReplaceEnds(s[1..], text, value, c);
    }
  }

  lemma {:induction false} InTurnEnds(s: string, fields: seq<Field>, n: nat, c: char)
    requires n <= |fields| && s != "" && s[|s| - 1] == c
    requires forall f :: f in fields ==> f.tag != "" && f.tag[|f.tag| - 1] != c
    ensures var after := InTurn(s, fields, n); after != "" && after[|after| - 1] == c
    decreases n
  {
    if n > 0 {
      InTurnEnds(s, fields, n - 1, c);
      assert fields[n - 1] in fields;
      ReplaceEnds(InTurn(s, fields, n - 1), fields[n - 1].tag, fields[n - 1].value, c);
    }
  }

  lemma {:induction false} StripStartEnds(s: string)
    requires s != "" && !Space(s[|s| - 1])
    ensures StripStart(s) != "" && StripStart(s)[|StripStart(s)| - 1] == s[|s| - 1]
  {
    if Space(s[0]) {
      StripStartEnds(s[1..]);
    }
  }

  lemma StripEnds(s: string)
    requires s != "" && !Space(s[|s| - 1])
    ensures Strip(s) != "" && Strip(s)[|Strip(s)| - 1] == s[|s| - 1]
  {
    StripStartEnds(s);
    assert StripEnd(StripStart(s)) == StripStart(s);
  }

  lemma CandidatesStart(value: string, fields: seq<Field>, t: string)
    requires value != "" && t in Candidates(value, fields)
    requires forall f :: f in fields && f.value != "" ==> f.value[0] != value[0]
    ensures t != "" && t[0] == value[0]
  {
    KeptIs(Found(value, fields), value, fields, t);
    if t != value {
      FoundIsBuilt(value, fields);
      var p, rest := FirstPiece(value, fields, 0, t);
      assert value[0..] == value;
    }
  }

  lemma {:induction false} BuiltEnds(value: string, fields: seq<Field>, i: nat, t: string)
    requires i < |value| && t in BuiltFrom(value, fields, i)
    requires forall f :: f in fields && f.value != "" ==> f.value[|f.value| - 1] != value[|value| - 1]
    ensures t != "" && t[|t| - 1] == value[|value| - 1]
    decreases |value| - i
  {
    var p, rest := FirstPiece(value, fields, i, t);
    if i + |FillOne(p)| < |value| {
      BuiltEnds(value, fields, i + |FillOne(p)|, rest);
    } else {
      LastPiece(value, fields, i, p);
      assert rest == "" && t == PrintOne(p);
    }
  }

  lemma LastPiece(value: string, fields: seq<Field>, i: nat, p: Piece)
    requires i < |value| && FillOne(p) <= value[i..] && i + |FillOne(p)| == |value|
    requires (p.Hole? ==> p.field in fields && p.field.value != "")
    requires forall f :: f in fields && f.value != "" ==> f.value[|f.value| - 1] != value[|value| - 1]
    ensures p == Lit(value[|value| - 1])
  {
    assert FillOne(p) == value[i..];
    assert value[i..][|value[i..]| - 1] == value[|value| - 1];
  }

  lemma CandidatesEnd(value: string, fields: seq<Field>, t: string)
    requires value != "" && t in Candidates(value, fields)
    requires forall f :: f in fields && f.value != "" ==> f.value[|f.value| - 1] != value[|value| - 1]
    ensures t != "" && t[|t| - 1] == value[|value| - 1]
  {
    KeptIs(Found(value, fields), value, fields, t);
    if t != value {
      FoundIsBuilt(value, fields);
      BuiltEnds(value, fields, 0, t);
    }
  }

  /** The row's key has no space around it. */
  predicate Clean(fields: seq<Field>) {
    |fields| == 4 && Trimmed(KeyOf(fields))
  }

  ghost predicate NoneStarts(fields: seq<Field>) {
    forall f :: f in fields && f.value != "" ==> f.value[0] != '_'
  }

  ghost predicate NoneEnds(fields: seq<Field>) {
    forall f :: f in fields && f.value != "" ==> f.value[|f.value| - 1] != '_'
  }

  /** A first row with no server has no name that starts with the underscore that joins the key, nor has the other row's
      server; one with no database, none that ends with it, nor has the other row's database. */
  ghost predicate Tells(first: seq<Field>, fields: seq<Field>) {
    && |first| == 4 && |fields| == 4
    && (first[0].value == "" ==>
          NoneStarts(first) && (fields[0].value != "" ==> fields[0].value[0] != '_'))
    && (first[1].value == "" ==>
          NoneEnds(first) && (fields[1].value != "" ==> fields[1].value[|fields[1].value| - 1] != '_'))
  }

  lemma KeyStarts(fields: seq<Field>)
    requires |fields| == 4
    ensures KeyOf(fields) != "" && KeyOf(fields)[0] == if fields[0].value == "" then '_' else fields[0].value[0]
  {
  }

  lemma KeyEnds(fields: seq<Field>)
    requires |fields| == 4
    ensures var key, database := KeyOf(fields), fields[1].value;
            key != "" && key[|key| - 1] == if database == "" then '_' else database[|database| - 1]
  {
  }

  /** No template gives both a row with no server its key and a row with one its own. */
  lemma ServerTellsApart(a: seq<Field>, b: seq<Field>, t: string)
    requires Source(a) && Source(b) && Tells(a, b) && a[0].value == "" && b[0].value != ""
    requires t in Candidates(KeyOf(a), a)
    ensures Rendered(t, b) != Some(KeyOf(b))
  {
    KeyStarts(a);
    KeyStarts(b);
    assert b[0] in b;
    CandidatesStart(KeyOf(a), a, t);
    StripStarts(t);
    InTurnStarts(Strip(t), b, 4);
  }

  lemma StripStarts(s: string)
    requires s != "" && !Space(s[0])
    ensures Strip(s) != "" && Strip(s)[0] == s[0]
  {
    assert StripStart(s) == s;
    StripEndStarts(s);
  }

  lemma {:induction false} StripEndStarts(s: string)
    requires s != "" && !Space(s[0])
    ensures StripEnd(s) != "" && StripEnd(s)[0] == s[0]
  {
    if Space(s[|s| - 1]) {
      assert |s| > 1;
      StripEndStarts(s[..|s| - 1]);
    }
  }

  lemma EndStays(t: string, b: seq<Field>, key: string)
    requires Source(b) && t != "" && t[|t| - 1] == '_' && key != "" && key[|key| - 1] != '_'
    ensures Rendered(t, b) != Some(key)
  {
    StripEnds(t);
    assert forall f :: f in b ==> EndsInBrace(f.tag);
    InTurnEnds(Strip(t), b, |b|, '_');
  }

  lemma NoDatabaseEnds(a: seq<Field>, t: string)
    requires |a| == 4 && NoneEnds(a) && a[1].value == "" && t in Candidates(KeyOf(a), a)
    ensures t != "" && t[|t| - 1] == '_'
  {
    KeyEnds(a);
    CandidatesEnd(KeyOf(a), a, t);
  }

  /** Nor a row with no database and a row with one. */
  lemma DatabaseTellsApart(a: seq<Field>, b: seq<Field>, t: string)
    requires Source(a) && Source(b) && Tells(a, b) && a[1].value == "" && b[1].value != ""
    requires t in Candidates(KeyOf(a), a)
    ensures Rendered(t, b) != Some(KeyOf(b))
  {
    NoDatabaseEnds(a, t);
    KeyEnds(b);
    EndStays(t, b, KeyOf(b));
  }

  lemma NothingFitsBoth(ids: seq<Filled>, a: seq<Field>, b: seq<Field>, k: nat)
    requires Source(a) && Source(b) && Tells(a, b) && !NamedAsFirst(a, b)
    requires k < |ids| && ids[0] == Filled(KeyOf(a), a) && ids[k] == Filled(KeyOf(b), b)
    ensures Shared(ids).None?
  {
    KeyStarts(b);
    if Shared(ids).Some? {
      var t := Shared(ids).value;
      ChooseFits(Candidates(KeyOf(a), a), a, ids);
      assert Fits(t, ids[k]) && Rendered(t, b) == Some(KeyOf(b));
      OneTellsApart(a, b, t);
    }
  }

  lemma OneTellsApart(a: seq<Field>, b: seq<Field>, t: string)
    requires Source(a) && Source(b) && Tells(a, b) && !NamedAsFirst(a, b) && t in Candidates(KeyOf(a), a)
    ensures Rendered(t, b) != Some(KeyOf(b))
  {
    if a[0].value == "" && b[0].value != "" {
      ServerTellsApart(a, b, t);
    } else {
      DatabaseTellsApart(a, b, t);
    }
  }

  ghost predicate CleanRows(rows: seq<Row>) {
    forall i :: 0 <= i < |rows| ==> Clean(rows[i].asIs)
  }

  ghost predicate FirstTells(rows: seq<Row>) {
    rows != [] && forall i :: 0 <= i < |rows| ==> Tells(rows[0].asIs, rows[i].asIs)
  }

  lemma KeysWritten(after: seq<Row>)
    requires EveryId(after) && Written(after) && PlainRows(after) && CleanRows(after)
    ensures |Ids(after, |after|)| == |after|
    ensures forall i :: 0 <= i < |after| ==> Ids(after, |after|)[i] == Filled(KeyOf(after[i].asIs), after[i].asIs)
  {
    IdsCount(after, |after|);
    forall i | 0 <= i < |after| ensures Ids(after, |after|)[i] == Filled(KeyOf(after[i].asIs), after[i].asIs) {
      IdsAt(after, |after|, i);
      KeyIsItself(after[i]);
    }
  }

  /** Every row names what the first does. */
  ghost predicate AllNamedAsFirst(rows: seq<Row>) {
    rows != [] && forall i :: 0 <= i < |rows| ==> NamedAsFirst(rows[0].asIs, rows[i].asIs)
  }

  lemma NamedReadBack(after: seq<Row>)
    requires EveryId(after) && Written(after) && PlainRows(after) && CleanRows(after) && AllNamedAsFirst(after)
    requires |BuiltFrom(KeyOf(after[0].asIs), after[0].asIs, 0)| < LIMIT
    ensures Shared(Ids(after, |after|)).Some?
  {
    var ids, first := Ids(after, |after|), after[0].asIs;
    KeysWritten(after);
    forall k | 0 <= k < |ids| ensures Fits(PartsOf(first), ids[k]) { PartsRender(first, after[k].asIs); }
    PartsAreTrimmed(first, first);
    PartsAreProper(first);
    WrittenKey(after[0]);
    KeyIsItself(after[0]);
    SharedIsFound(ids, PartsOf(first));
  }

  lemma UnnamedNotReadBack(after: seq<Row>, i: nat)
    requires EveryId(after) && Written(after) && PlainRows(after) && CleanRows(after) && FirstTells(after)
    requires i < |after| && !NamedAsFirst(after[0].asIs, after[i].asIs)
    ensures Shared(Ids(after, |after|)).None?
  {
    KeysWritten(after);
    NothingFitsBoth(Ids(after, |after|), after[0].asIs, after[i].asIs, i);
  }

  /** Turning fan-in on is settled in one edit if and only if no row has a server when the first row has none, and none
      a database when the first has none: when names hold no brace, keys have no space around them, no underscore at an
      end of a name stands where the first row lacks a part, and the search of the first row's key is not cut short.
      Rows may have client_ids already. */
  lemma FanInSettlesExactly(rows: seq<Row>, after: seq<Row>, settings: Settings)
    requires TurnsOn(rows, settings) && Edited(rows, after, settings) && PlainRows(rows) && CleanRows(rows)
    requires FirstTells(rows) && |BuiltFrom(KeyOf(rows[0].asIs), rows[0].asIs, 0)| < LIMIT
    ensures Changes(after, settings) == map[] <==> AllNamedAsFirst(rows)
  {
    EveryRowGetsId(rows, after, settings);
    SameFields(rows, after, settings);
    SettlesWhenReadBack(rows, after, settings);
    NamedExactly(after);
  }

  /** So it always is when the first row has both, whatever underscores the names have. */
  lemma NamingBothSettles(rows: seq<Row>, after: seq<Row>, settings: Settings)
    requires TurnsOn(rows, settings) && Edited(rows, after, settings) && PlainRows(rows) && CleanRows(rows)
            && rows != []
    requires |BuiltFrom(KeyOf(rows[0].asIs), rows[0].asIs, 0)| < LIMIT
    requires rows[0].asIs[0].value != "" && rows[0].asIs[1].value != ""
    ensures Changes(after, settings) == map[]
  {
    assert forall i :: 0 <= i < |rows| ==> Clean(rows[i].asIs);
    FanInSettlesExactly(rows, after, settings);
  }

  lemma SameFields(rows: seq<Row>, after: seq<Row>, settings: Settings)
    requires Edited(rows, after, settings) && PlainRows(rows) && CleanRows(rows) && FirstTells(rows)
    ensures PlainRows(after) && CleanRows(after) && FirstTells(after) && after[0].asIs == rows[0].asIs
    ensures AllNamedAsFirst(after) <==> AllNamedAsFirst(rows)
  {
    KeepsFields(rows, after, settings);
  }

  lemma NamedExactly(after: seq<Row>)
    requires EveryId(after) && Written(after) && PlainRows(after) && CleanRows(after) && FirstTells(after)
    requires |BuiltFrom(KeyOf(after[0].asIs), after[0].asIs, 0)| < LIMIT
    ensures Shared(Ids(after, |after|)).Some? <==> AllNamedAsFirst(after)
  {
    if AllNamedAsFirst(after) {
      NamedReadBack(after);
    } else {
      var i :| 0 <= i < |after| && !NamedAsFirst(after[0].asIs, after[i].asIs);
      UnnamedNotReadBack(after, i);
    }
  }

  lemma KeepsFields(rows: seq<Row>, after: seq<Row>, settings: Settings)
    requires Edited(rows, after, settings)
    ensures forall i :: 0 <= i < |rows| ==> after[i].asIs == rows[i].asIs
  {
  }

  /** A job whose client_ids read back as its databases' names, or as nothing while every table has one, fills the
      database's name: that is settled in one edit when every row filled has a database. */
  lemma DatabaseKeySettles(rows: seq<Row>, after: seq<Row>, settings: Settings, first: nat)
    requires !Explicit(settings) && Edited(rows, after, settings) && IdTemplate(settings, Read(rows)) == LEGACY
    requires FirstFilled(rows, settings, first)
    requires forall i :: 0 <= i < |rows| && Fills(settings, rows[i].clientId) ==> HasDatabase(rows[i].asIs)
    requires HasDatabase(rows[first].asIs) && |BuiltFrom(rows[first].asIs[1].value, rows[first].asIs, 0)| < LIMIT
    ensures Changes(after, settings) == map[]
  {
    forall i | 0 <= i < |rows| && Fills(settings, rows[i].clientId) ensures GivesKey(LEGACY, rows[i].asIs) {
      DatabaseIsKey(rows[i].asIs);
    }
    DatabaseReadsBack(rows[first].asIs);
    InferenceSettles(rows, after, settings, first);
  }

  lemma DatabaseIsKey(fields: seq<Field>)
    requires HasDatabase(fields)
    ensures Rendered(LEGACY, fields) == Some(fields[1].value) && GivesKey(LEGACY, fields)
  {
    RenderedLegacy(fields);
  }

  lemma DatabaseReadsBack(fields: seq<Field>)
    requires HasDatabase(fields) && |BuiltFrom(fields[1].value, fields, 0)| < LIMIT
    ensures ReadsBackFrom(LEGACY, fields)
  {
    DatabaseIsKey(fields);
    LegacyIsProper(fields);
  }

  ghost predicate HasDatabase(fields: seq<Field>) {
    Source(fields) && PlainValues(fields) && fields[1].value != "" && Trimmed(fields[1].value)
  }

  lemma LegacyIsProper(fields: seq<Field>)
    requires HasDatabase(fields)
    ensures Proper(LEGACY, fields)
  {
    assert fields[1] in fields;
    LegacyParses(fields);
    StripOfTrimmed(LEGACY);
  }

  // ---- such a job ---------------------------------------------------------------------------------------------------

  /** A name with no brace and no underscore or space around it. */
  predicate PlainName(name: string) {
    && name != "" && '{' !in name && name[0] != '_' && name[|name| - 1] != '_'
    && !Space(name[0]) && !Space(name[|name| - 1])
  }

  /** A first row that names no server, and any number of rows of which one does. */
  lemma OneServerUnsettles(rows: seq<Row>, settings: Settings, i: nat, server: string, name: string)
    requires settings.fanIn == Some(true) && !Given(settings.clientId) && |rows| > i > 0
    requires PlainName(server) && PlainName(name)
    requires forall j :: 0 <= j < |rows| ==>
               !HasId(rows[j].clientId) && rows[j].asIs == FieldsOf(if j == i then server else "", name, name, name)
    ensures Changes(After(rows, settings), settings) != map[]
  {
    forall j | 0 <= j < |rows|
      ensures Source(rows[j].asIs) && Clean(rows[j].asIs) && PlainValues(rows[j].asIs)
              && NoneStarts(rows[j].asIs) && NoneEnds(rows[j].asIs)
    {
      FieldsAreSource(if j == i then server else "", name, name, name);
      NamesAreClean(rows[j].asIs, if j == i then server else "", name);
    }
    NoIdsTurnOn(rows, settings);
    AfterIsEdited(rows, settings);
    FirstNamesNone(rows, After(rows, settings), settings, i);
  }

  lemma FirstNamesNone(rows: seq<Row>, after: seq<Row>, settings: Settings, i: nat)
    requires TurnsOn(rows, settings) && Edited(rows, after, settings) && PlainRows(rows) && CleanRows(rows)
    requires FirstTells(rows) && i < |rows| && !NamedAsFirst(rows[0].asIs, rows[i].asIs)
    ensures Changes(after, settings) != map[]
  {
    EveryRowGetsId(rows, after, settings);
    SameFields(rows, after, settings);
    UnnamedNotReadBack(after, i);
    SettlesWhenReadBack(rows, after, settings);
  }

  lemma NamesAreClean(fields: seq<Field>, server: string, name: string)
    requires (server == "" || PlainName(server)) && PlainName(name) && |fields| == 4
    requires fields[0].value == server && fields[1].value == name && fields[2].value == name && fields[3].value == name
    ensures Clean(fields) && PlainValues(fields) && NoneStarts(fields) && NoneEnds(fields)
  {
    assert forall f :: f in fields ==> f.value == server || f.value == name;
    EndsTrimmed(server, name);
  }

  lemma EndsTrimmed(server: string, name: string)
    requires PlainName(name) && (server != "" ==> !Space(server[0]))
    ensures Trimmed(server + ("_" + name))
  {
    var key := server + ("_" + name);
    assert key[0] == if server == "" then '_' else server[0];
    assert key[|key| - 1] == name[|name| - 1];
  }
}
