/** A settings edit: plan, _desired and the parts of read it depends on, in app/src/job_settings.py, with the
    comparisons of app/src/queries.py (normalize_value, _same). Applying an edit and planning it again should change
    nothing.

    Every field but the client_id is compared with what the row has and left when it is the same, so those settle by
    themselves. The client_id is filled from a template the edit may leave to be read back from the rows it writes:
    EditSettles says when that settles. */
module SettingsEdit {
  import opened Text
  import opened Templates
  import opened TemplateSearch
  import opened TemplateChoice

  datatype LoadType = ChangeTracked | FullReload | OtherLoad

  /** What a settings edit reads and writes of a control row: what fills the tags, as it is and as it goes into a target
      name by the job's naming rule, and the fields it sets. */
  datatype Row = Row(asIs: seq<Field>, asTarget: seq<Field>, loadType: LoadType,
                     clientId: Maybe<string>, sinks: seq<Maybe<string>>, writeMode: Maybe<string>, sla: Maybe<nat>,
                     attrs: Maybe<map<string, Maybe<string>>>)

  /** What an edit sets; None is not given. */
  datatype Settings = Settings(fanIn: Maybe<bool>, clientId: Maybe<string>, sinks: seq<Maybe<string>>,
                               modeChanges: Maybe<string>, modeFull: Maybe<string>, sla: Maybe<Maybe<nat>>,
                               identity: Maybe<map<string, string>>)

  /** What a job's rows share now, as far as an edit asks. */
  datatype Now = Now(fanIn: Maybe<bool>, clientId: Maybe<string>)

  // ---- names --------------------------------------------------------------------------------------------------------

  predicate Word(c: char) {
    'a' <= c <= 'z' || '0' <= c <= '9' || c == '_'
  }

  /** Runs of other characters become one underscore. */
  function Words(s: string, gap: bool): (words: string)
    ensures forall i :: 0 <= i < |words| ==> Word(words[i])
  {
    if s == "" then if gap then "_" else ""
    else if Word(s[0]) then (if gap then "_" else "") + [s[0]] + Words(s[1..], false)
    else Words(s[1..], true)
  }

  function TrimUnderscores(s: string): (t: string)
    ensures forall i :: 0 <= i < |t| ==> t[i] in s
    decreases |s|
  {
    if s != "" && s[0] == '_' then TrimUnderscores(s[1..])
    else if s != "" && s[|s| - 1] == '_' then TrimUnderscores(s[..|s| - 1])
    else s
  }

  /** The older rule for a target name: lower-case letters, digits and underscores, "t" when nothing is left. */
  function Identifier(s: string): (name: string)
    ensures name != "" && forall i :: 0 <= i < |name| ==> Word(name[i])
  {
    var words := TrimUnderscores(Words(Lower(s), false));
    if words == "" then "t" else words
  }

  predicate Refused(c: char) {
    c == '.' || c == ' ' || c == '/' || c < ' ' || c == '\U{7f}'
  }

  /** Unity Catalog's rule: each character it refuses becomes an underscore, then lower case. */
  function UnityName(s: string): string {
    seq(|s|, i requires 0 <= i < |s| => if Refused(s[i]) then '_' else LowerChar(s[i]))
  }

  function AsTarget(server: string, database: string, schema: string, table: string, unityCatalog: bool): seq<Field> {
    if unityCatalog then FieldsOf(UnityName(server), UnityName(database), UnityName(schema), UnityName(table))
    else FieldsOf(Identifier(server), Identifier(database), Identifier(schema), Identifier(table))
  }

  /** Under the older rule every tag of every row has a value, and none holds a brace. */
  lemma OlderNamesAreUsable(server: string, database: string, schema: string, table: string, f: Field)
    requires f in AsTarget(server, database, schema, table, false)
    ensures f.value != "" && '{' !in f.value
  {
    var a, b, c, d := Identifier(server), Identifier(database), Identifier(schema), Identifier(table);
    IdentifierIsUsable(server);
    IdentifierIsUsable(database);
    IdentifierIsUsable(schema);
    IdentifierIsUsable(table);
    OneOfFour(a, b, c, d, f);
  }

  lemma IdentifierIsUsable(s: string)
    ensures Identifier(s) != "" && '{' !in Identifier(s)
  {
  }

  lemma OneOfFour(a: string, b: string, c: string, d: string, f: Field)
    requires f in FieldsOf(a, b, c, d)
    ensures f.value == a || f.value == b || f.value == c || f.value == d
  {
  }

  // ---- values as stored and as compared -----------------------------------------------------------------------------

  function Normal(value: Maybe<string>): Maybe<string> {
    match value
    case None => None
    case Some(v) => if Strip(v) == "" then None else Some(Strip(v))
  }

  function NormalMode(mode: string): string {
    if Strip(mode) == "" then "merge" else Lower(Strip(mode))
  }

  /** The parts of a list, in lower case and trimmed: how names are compared. */
  function Parts(s: string): seq<string> {
    PartsFrom(Lower(s), "")
  }

  function PartsFrom(s: string, part: string): seq<string>
    decreases |s|
  {
    if s == "" then [Strip(part)]
    else if s[0] == ',' then [Strip(part)] + PartsFrom(s[1..], "")
    else PartsFrom(s[1..], part + [s[0]])
  }

  predicate SameName(a: Maybe<string>, b: Maybe<string>) {
    match (a, b)
    case (None, None) => true
    case (Some(x), Some(y)) => Parts(x) == Parts(y)
    case _ => false
  }

  // ---- what the rows share now --------------------------------------------------------------------------------------

  predicate Blank(s: string) {
    forall i :: 0 <= i < |s| ==> Space(s[i])
  }

  predicate HasId(clientId: Maybe<string>) {
    clientId.Some? && !Blank(clientId.value)
  }

  /** The client_ids of the first n rows, of those that have one. */
  function Ids(rows: seq<Row>, n: nat): seq<Filled>
    requires n <= |rows|
  {
    if n == 0 then [] else
      Ids(rows, n - 1) + if HasId(rows[n - 1].clientId) then [IdOf(rows[n - 1])] else []
  }

  function IdOf(row: Row): Filled
    requires HasId(row.clientId)
  {
    Filled(row.clientId.value, row.asIs)
  }

  function SharedFanIn(rows: seq<Row>): Maybe<bool> {
    if rows == [] then None
    else if forall i :: 0 <= i < |rows| ==> HasId(rows[i].clientId) == HasId(rows[0].clientId)
    then Some(HasId(rows[0].clientId))
    else None
  }

  /** The client_id template read back: the one inferred, else the value every row with one has. */
  function SharedId(ids: seq<Filled>): Maybe<string> {
    if Shared(ids).Some? || ids == [] then Shared(ids)
    else if forall i :: 0 <= i < |ids| ==> ids[i].value == ids[0].value then Some(ids[0].value)
    else None
  }

  method IdsOf(rows: seq<Row>) returns (ids: seq<Filled>)
    ensures ids == Ids(rows, |rows|)
  {
    ids := [];
    for i := 0 to |rows|
      invariant ids == Ids(rows, i)
    {
      if HasId(rows[i].clientId) {
        ids := ids + [IdOf(rows[i])];
      }
    }
  }

  function Read(rows: seq<Row>): Now {
    Now(SharedFanIn(rows), SharedId(Ids(rows, |rows|)))
  }

  method ReadNow(rows: seq<Row>) returns (now: Now)
    ensures now == Read(rows)
  {
    var ids := IdsOf(rows);
    var clientId := SharedTemplate(ids);
    if clientId.None? && ids != [] && forall i :: 0 <= i < |ids| ==> ids[i].value == ids[0].value {
      clientId := Some(ids[0].value);
    }
    now := Now(SharedFanIn(rows), clientId);
  }

  const LEGACY := DATABASE_TAG
  const SHARED := SERVER_TAG + ("_" + DATABASE_TAG)

  /** A job that shares its tables keeps the database-only key; one turning fan-in on takes the server's name too. */
  function DefaultClientId(fanInNow: Maybe<bool>): string {
    if fanInNow == Some(true) then LEGACY else SHARED
  }

  // ---- what an edit makes of a row ----------------------------------------------------------------------------------

  predicate Given(template: Maybe<string>) {
    template.Some? && template.value != ""
  }

  function IdTemplate(settings: Settings, now: Now): string {
    if Given(settings.clientId) then settings.clientId.value
    else if Given(now.clientId) then now.clientId.value
    else DefaultClientId(now.fanIn)
  }

  function NextId(clientId: Maybe<string>, asIs: seq<Field>, settings: Settings, now: Now): Maybe<string> {
    var fanIn := if settings.fanIn.Some? then settings.fanIn.value else HasId(clientId);
    if settings.fanIn.None? && settings.clientId.None? then clientId
    else if fanIn then Normal(Rendered(IdTemplate(settings, now), asIs))
    else None
  }

  /** A field's new value, unless it compares the same as what the row has. */
  function Changed(was: Maybe<string>, want: Maybe<string>): Maybe<string> {
    if SameName(was, want) then was else want
  }

  function ModeFor(loadType: LoadType, settings: Settings): Maybe<string> {
    match loadType
    case ChangeTracked => settings.modeChanges
    case FullReload => settings.modeFull
    case OtherLoad => None
  }

  function NextMode(writeMode: Maybe<string>, loadType: LoadType, settings: Settings): Maybe<string> {
    match ModeFor(loadType, settings)
    case None => writeMode
    case Some(mode) => Changed(writeMode, Some(NormalMode(mode)))
  }

  function NextSink(was: Maybe<string>, template: Maybe<string>, fields: seq<Field>): Maybe<string> {
    if Given(template) then Changed(was, Normal(Rendered(template.value, fields))) else was
  }

  function NextSinks(sinks: seq<Maybe<string>>, asTarget: seq<Field>, settings: Settings,
                     n: nat): (next: seq<Maybe<string>>)
    requires n <= |sinks|
    ensures |next| == n
  {
    if n == 0 then [] else
      NextSinks(sinks, asTarget, settings, n - 1)
      + [NextSink(sinks[n - 1], if n <= |settings.sinks| then settings.sinks[n - 1] else None, asTarget)]
  }

  function NextAttrs(attrs: Maybe<map<string, Maybe<string>>>, asIs: seq<Field>,
                     settings: Settings): Maybe<map<string, Maybe<string>>> {
    match settings.identity
    case None => attrs
    case Some(identity) =>
      if identity == map[] then None else Some(map name | name in identity :: Rendered(identity[name], asIs))
  }

  function NextSla(sla: Maybe<nat>, settings: Settings): Maybe<nat> {
    match settings.sla
    case None => sla
    case Some(minutes) => minutes
  }

  /** A row after an edit: each field the edit sets, unless it compares the same already. */
  function Next(row: Row, settings: Settings, now: Now): Row {
    Row(row.asIs, row.asTarget, row.loadType,
        NextId(row.clientId, row.asIs, settings, now),
        NextSinks(row.sinks, row.asTarget, settings, |row.sinks|),
        NextMode(row.writeMode, row.loadType, settings),
        NextSla(row.sla, settings),
        NextAttrs(row.attrs, row.asIs, settings))
  }

  /** The rows a settings edit changes, and what each becomes. */
  method Plan(rows: seq<Row>, settings: Settings) returns (changes: map<int, Row>)
    ensures changes == Changes(rows, settings)
  {
    var now := ReadNow(rows);
    changes := map[];
    for i := 0 to |rows|
      invariant changes == ChangesOf(rows, settings, now, i)
    {
      changes := Noting(changes, i, rows[i], Next(rows[i], settings, now));
    }
  }

  function ChangesOf(rows: seq<Row>, settings: Settings, now: Now, n: nat): map<int, Row>
    requires n <= |rows|
  {
    if n == 0 then map[] else
      Noting(ChangesOf(rows, settings, now, n - 1), n - 1, rows[n - 1], Next(rows[n - 1], settings, now))
  }

  /** Rows an edit leaves as they are are left out. */
  function Noting(changes: map<int, Row>, i: int, row: Row, next: Row): map<int, Row> {
    if next != row then changes[i := next] else changes
  }

  function Changes(rows: seq<Row>, settings: Settings): map<int, Row> {
    ChangesOf(rows, settings, Read(rows), |rows|)
  }

  /** The rows once the changes are written. */
  function Applied(rows: seq<Row>, changes: map<int, Row>): (after: seq<Row>)
    ensures |after| == |rows|
  {
    seq(|rows|, i requires 0 <= i < |rows| => if i in changes then changes[i] else rows[i])
  }

  function After(rows: seq<Row>, settings: Settings): (after: seq<Row>)
    ensures |after| == |rows|
  {
    Applied(rows, Changes(rows, settings))
  }

  lemma {:induction false} ChangesAt(rows: seq<Row>, settings: Settings, now: Now, n: nat, i: nat)
    requires i < |rows| && n <= |rows|
    ensures var changes, next := ChangesOf(rows, settings, now, n), Next(rows[i], settings, now);
            && (i in changes <==> i < n && next != rows[i])
            && (i in changes ==> changes[i] == next)
    decreases n
  {
    if n > 0 {
      ChangesAt(rows, settings, now, n - 1, i);
    }
  }

  lemma AfterAt(rows: seq<Row>, settings: Settings, i: nat)
    requires i < |rows|
    ensures After(rows, settings)[i] == Next(rows[i], settings, Read(rows))
  {
    ChangesAt(rows, settings, Read(rows), |rows|, i);
  }

  lemma {:induction false} NothingChanges(rows: seq<Row>, settings: Settings, now: Now, n: nat)
    requires n <= |rows|
    requires forall i :: 0 <= i < |rows| ==> Next(rows[i], settings, now) == rows[i]
    ensures ChangesOf(rows, settings, now, n) == map[]
    decreases n
  {
    if n > 0 {
      NothingChanges(rows, settings, now, n - 1);
    }
  }

  // ---- planning again -----------------------------------------------------------------------------------------------

  lemma ChangedTwice(was: Maybe<string>, want: Maybe<string>)
    ensures Changed(Changed(was, want), want) == Changed(was, want)
  {
  }

  lemma SinkSettles(was: Maybe<string>, template: Maybe<string>, fields: seq<Field>)
    ensures NextSink(NextSink(was, template, fields), template, fields) == NextSink(was, template, fields)
  {
    if Given(template) {
      ChangedTwice(was, Normal(Rendered(template.value, fields)));
    }
  }

  lemma {:induction false} SinkAt(sinks: seq<Maybe<string>>, fields: seq<Field>, settings: Settings, n: nat, i: nat)
    requires i < n <= |sinks|
    ensures NextSinks(sinks, fields, settings, n)[i]
            == NextSink(sinks[i], if i < |settings.sinks| then settings.sinks[i] else None, fields)
    decreases n
  {
    if i < n - 1 {
      SinkAt(sinks, fields, settings, n - 1, i);
    }
  }

  lemma SinksSettle(sinks: seq<Maybe<string>>, next: seq<Maybe<string>>, fields: seq<Field>, settings: Settings)
    requires next == NextSinks(sinks, fields, settings, |sinks|)
    ensures NextSinks(next, fields, settings, |next|) == next
  {
    forall i | 0 <= i < |sinks| ensures NextSinks(next, fields, settings, |next|)[i] == next[i] {
      SinkAt(next, fields, settings, |next|, i);
      SinkAt(sinks, fields, settings, |sinks|, i);
      SinkSettles(sinks[i], if i < |settings.sinks| then settings.sinks[i] else None, fields);
    }
  }

  lemma ModeSettles(mode: Maybe<string>, loadType: LoadType, settings: Settings)
    ensures NextMode(NextMode(mode, loadType, settings), loadType, settings) == NextMode(mode, loadType, settings)
  {
    match ModeFor(loadType, settings)
    case None =>
    case Some(want) => ChangedTwice(mode, Some(NormalMode(want)));
  }

  /** Every field but the client_id is the same however often the edit is planned. */
  lemma RestSettles(row: Row, settings: Settings, now: Now, again: Now)
    ensures var next := Next(row, settings, now);
            Next(next, settings, again) == next.(clientId := NextId(next.clientId, row.asIs, settings, again))
  {
    SinksSettle(row.sinks, NextSinks(row.sinks, row.asTarget, settings, |row.sinks|), row.asTarget, settings);
    ModeSettles(row.writeMode, row.loadType, settings);
  }

  /** A row keeps its client_id when the edit is planned again, if the template is the same. */
  lemma IdSettles(clientId: Maybe<string>, fields: seq<Field>, settings: Settings, now: Now, again: Now)
    requires IdTemplate(settings, now) == IdTemplate(settings, again)
    ensures NextId(NextId(clientId, fields, settings, now), fields, settings, again)
            == NextId(clientId, fields, settings, now)
  {
    NormalTwice(Rendered(IdTemplate(settings, now), fields));
  }

  lemma TrimmedIsStored(s: string)
    requires Trimmed(s) && s != ""
    ensures Strip(s) == s && Normal(Some(s)) == Some(s) && HasId(Some(s))
  {
    StripOfTrimmed(s);
    assert !Space(s[0]);
  }

  /** A value as stored is trimmed and not blank. */
  lemma NormalTwice(value: Maybe<string>)
    ensures Normal(value).Some? ==> Strip(Normal(value).value) == Normal(value).value && HasId(Normal(value))
    ensures Normal(Normal(value)) == Normal(value)
  {
    if Normal(value).Some? {
      TrimmedIsStored(Strip(value.value));
    }
  }

  /** The template does not depend on what the rows share. */
  predicate Explicit(settings: Settings) {
    Given(settings.clientId) || settings.fanIn == Some(false) || (settings.fanIn.None? && settings.clientId.None?)
  }

  /** An edit that names its client_id, turns fan-in off or leaves both alone changes nothing when planned again. */
  lemma ExplicitEditSettles(rows: seq<Row>, settings: Settings)
    requires Explicit(settings)
    ensures Changes(After(rows, settings), settings) == map[]
  {
    var after := After(rows, settings);
    forall i | 0 <= i < |rows| ensures Next(after[i], settings, Read(after)) == after[i] {
      AfterAt(rows, settings, i);
      ExplicitRowSettles(rows[i], settings, Read(rows), Read(after));
    }
    NothingChanges(after, settings, Read(after), |rows|);
  }

  lemma ExplicitRowSettles(row: Row, settings: Settings, now: Now, again: Now)
    requires Explicit(settings)
    ensures Next(Next(row, settings, now), settings, again) == Next(row, settings, now)
  {
    RestSettles(row, settings, now, again);
    if Given(settings.clientId) {
      IdSettles(row.clientId, row.asIs, settings, now, again);
    }
  }

  // ---- fan-in turned on, the client_id left to the default ----------------------------------------------------------

  predicate EveryId(rows: seq<Row>) {
    forall i :: 0 <= i < |rows| ==> HasId(rows[i].clientId)
  }

  lemma {:induction false} IdsCount(rows: seq<Row>, n: nat)
    requires n <= |rows| && EveryId(rows)
    ensures |Ids(rows, n)| == n
    decreases n
  {
    if n > 0 {
      IdsCount(rows, n - 1);
    }
  }

  lemma {:induction false} IdsAt(rows: seq<Row>, n: nat, i: nat)
    requires i < n <= |rows| && EveryId(rows)
    ensures i < |Ids(rows, n)| && Ids(rows, n)[i] == IdOf(rows[i])
    decreases n
  {
    IdsCount(rows, n - 1);
    if i < n - 1 {
      IdsAt(rows, n - 1, i);
    }
  }

  /** after is the rows once the edit is planned and written. */
  ghost predicate Edited(rows: seq<Row>, after: seq<Row>, settings: Settings) {
    |after| == |rows| && forall i :: 0 <= i < |rows| ==> after[i] == Next(rows[i], settings, Read(rows))
  }

  lemma AfterIsEdited(rows: seq<Row>, settings: Settings)
    ensures Edited(rows, After(rows, settings), settings)
  {
    forall i | 0 <= i < |rows| ensures After(rows, settings)[i] == Next(rows[i], settings, Read(rows)) {
      AfterAt(rows, settings, i);
    }
  }
}
