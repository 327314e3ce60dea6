/** When a settings edit that leaves the client_id to be read back from the rows
    is settled in one go: planned again once it is written, it changes no row.
    The template it fills then is read from the rows it has just written (plan,
    _desired and read in app/src/job_settings.py). */
module EditSettles {
  import opened Text
  import opened Templates
  import opened TemplateSearch
  import opened TemplateChoice
  import opened SettingsEdit

  /** The edit gives each row it fills the client_id of its template. */
  predicate Fills(settings: Settings, clientId: Maybe<string>) {
    if settings.fanIn.Some? then settings.fanIn.value else HasId(clientId)
  }

  /** A row's client_id from a template, as stored. */
  function Stored(template: string, fields: seq<Field>): Maybe<string> {
    Normal(Rendered(template, fields))
  }

  lemma NextIdIs(clientId: Maybe<string>, fields: seq<Field>, settings: Settings, now: Now)
    requires !Explicit(settings)
    ensures NextId(clientId, fields, settings, now)
            == if Fills(settings, clientId) then Stored(IdTemplate(settings, now), fields) else None
  {
  }

  /** Planned again, a row stays exactly when it is not filled again, or the template then gives the client_id it
      has. */
  lemma RowStays(row: Row, next: Row, settings: Settings, now: Now, again: Now)
    requires !Explicit(settings) && next == Next(row, settings, now)
    ensures Next(next, settings, again) == next
            <==> (Fills(settings, next.clientId) ==> Stored(IdTemplate(settings, again), row.asIs) == next.clientId)
  {
    RestSettles(row, settings, now, again);
    NextIdIs(row.clientId, row.asIs, settings, now);
    NextIdIs(next.clientId, row.asIs, settings, again);
    NormalTwice(Rendered(IdTemplate(settings, now), row.asIs));
  }

  /** The template of the second planning gives a row the client_id the first gave it. */
  ghost predicate Keeps(settings: Settings, after: seq<Row>, i: nat)
    requires i < |after|
  {
    Fills(settings, after[i].clientId) ==> Stored(IdTemplate(settings, Read(after)), after[i].asIs) == after[i].clientId
  }

  lemma EditStays(rows: seq<Row>, after: seq<Row>, settings: Settings)
    requires !Explicit(settings) && Edited(rows, after, settings)
    ensures Changes(after, settings) == map[] <==> forall i :: 0 <= i < |after| ==> Keeps(settings, after, i)
  {
    var again := Read(after);
    forall i | 0 <= i < |after| ensures Next(after[i], settings, again) == after[i] <==> Keeps(settings, after, i) {
      RowStays(rows[i], after[i], settings, Read(rows), again);
      assert after[i].asIs == rows[i].asIs;
    }
    StaysOrChanges(after, settings, again);
  }

  lemma StaysOrChanges(rows: seq<Row>, settings: Settings, now: Now)
    ensures ChangesOf(rows, settings, now, |rows|) == map[]
            <==> forall i :: 0 <= i < |rows| ==> Next(rows[i], settings, now) == rows[i]
  {
    if forall i :: 0 <= i < |rows| ==> Next(rows[i], settings, now) == rows[i] {
      NothingChanges(rows, settings, now, |rows|);
    } else {
      var i :| 0 <= i < |rows| && Next(rows[i], settings, now) != rows[i];
      ChangesAt(rows, settings, now, |rows|, i);
    }
  }

  // ---- the rows with a client_id ------------------------------------------------------------------------------------

  lemma {:induction false} IdIsRow(rows: seq<Row>, n: nat, k: nat) returns (i: nat)
    requires n <= |rows| && k < |Ids(rows, n)|
    ensures i < n && HasId(rows[i].clientId) && Ids(rows, n)[k] == IdOf(rows[i])
    decreases n
  {
    if k < |Ids(rows, n - 1)| {
      i := IdIsRow(rows, n - 1, k);
    } else {
      i := n - 1;
    }
  }

  lemma {:induction false} RowIsId(rows: seq<Row>, n: nat, i: nat) returns (k: nat)
    requires i < n <= |rows| && HasId(rows[i].clientId)
    ensures k < |Ids(rows, n)| && Ids(rows, n)[k] == IdOf(rows[i])
    decreases n
  {
    if i < n - 1 {
      k := RowIsId(rows, n - 1, i);
    } else {
      k := |Ids(rows, n - 1)|;
    }
  }

  /** Row i is the first with a client_id. */
  ghost predicate FirstId(rows: seq<Row>, i: nat) {
    i < |rows| && HasId(rows[i].clientId) && forall j :: 0 <= j < i ==> !HasId(rows[j].clientId)
  }

  lemma {:induction false} NoneYet(rows: seq<Row>, n: nat)
    requires n <= |rows| && forall j :: 0 <= j < n ==> !HasId(rows[j].clientId)
    ensures Ids(rows, n) == []
    decreases n
  {
    if n > 0 {
      NoneYet(rows, n - 1);
    }
  }

  lemma {:induction false} FirstIdIs(rows: seq<Row>, n: nat, i: nat)
    requires FirstId(rows, i) && i < n <= |rows|
    ensures Ids(rows, n) != [] && Ids(rows, n)[0] == IdOf(rows[i])
    decreases n
  {
    if i < n - 1 {
      FirstIdIs(rows, n - 1, i);
    } else {
      NoneYet(rows, i);
    }
  }

  // ---- read back ----------------------------------------------------------------------------------------------------

  /** A template every client_id fits gives each row with one the client_id it has. */
  lemma FittingKeeps(row: Row, template: string)
    requires HasId(row.clientId) && Normal(row.clientId) == row.clientId && Fits(template, IdOf(row))
    ensures Stored(template, row.asIs) == row.clientId
  {
  }

  lemma WrittenIsStored(row: Row, settings: Settings, now: Now)
    requires !Explicit(settings)
    ensures Normal(Next(row, settings, now).clientId) == Next(row, settings, now).clientId
  {
    NextIdIs(row.clientId, row.asIs, settings, now);
    NormalTwice(Rendered(IdTemplate(settings, now), row.asIs));
  }

  /** When the client_ids written read back as a template, and every row filled has one, the edit is settled. */
  lemma ReadBackSettles(rows: seq<Row>, after: seq<Row>, settings: Settings)
    requires !Explicit(settings) && Edited(rows, after, settings) && Shared(Ids(after, |after|)).Some?
    requires forall i :: 0 <= i < |after| && Fills(settings, after[i].clientId) ==> HasId(after[i].clientId)
    ensures Changes(after, settings) == map[]
  {
    var template := Shared(Ids(after, |after|)).value;
    SharedFits(Ids(after, |after|));
    forall i | 0 <= i < |after| ensures Keeps(settings, after, i) {
      if Fills(settings, after[i].clientId) {
        var k := RowIsId(after, |after|, i);
        WrittenIsStored(rows[i], settings, Read(rows));
        FittingKeeps(after[i], template);
        assert template != "";
      }
    }
    EditStays(rows, after, settings);
  }

  /** The template gives the row a client_id with no space around it. */
  predicate GivesKey(template: string, fields: seq<Field>) {
    var key := Rendered(template, fields);
    key.Some? && Trimmed(key.value) && key.value != ""
  }

  lemma KeyIsStored(template: string, fields: seq<Field>)
    requires GivesKey(template, fields)
    ensures Stored(template, fields) == Rendered(template, fields) && HasId(Stored(template, fields))
  {
    TrimmedIsStored(Rendered(template, fields).value);
  }

  lemma {:induction false} PlainFill(ps: seq<Piece>)
    requires Plain(ps)
    ensures '{' !in Fill(ps)
  {
    if ps != [] {
      assert forall k :: 0 <= k < |ps[1..]| ==> ps[1..][k] == ps[k + 1];
      PlainFill(ps[1..]);
    }
  }

  lemma ProperKeyIsPlain(template: string, fields: seq<Field>)
    requires Tags(fields) && Proper(template, fields) && Rendered(template, fields).Some?
    ensures '{' !in Rendered(template, fields).value
  {
    BothRenderersAgree(template, fields);
    PlainFill(Parse(template, fields));
  }

  /** The template an edit fills can be read back from the first row it fills. */
  ghost predicate ReadsBackFrom(template: string, fields: seq<Field>) {
    && Tags(fields) && Closed(fields) && Proper(template, fields) && GivesKey(template, fields)
    && |BuiltFrom(Rendered(template, fields).value, fields, 0)| < LIMIT
  }

  /** Row i is the first the edit fills. */
  ghost predicate FirstFilled(rows: seq<Row>, settings: Settings, i: nat) {
    i < |rows| && Fills(settings, rows[i].clientId) && forall j :: 0 <= j < i ==> !Fills(settings, rows[j].clientId)
  }

  ghost predicate EachGetsKey(rows: seq<Row>, settings: Settings) {
    forall i :: 0 <= i < |rows| && Fills(settings, rows[i].clientId)
        ==> GivesKey(IdTemplate(settings, Read(rows)), rows[i].asIs)
  }

  /** Each row filled has the key its template gives, and no other row has a client_id. */
  lemma FilledRows(rows: seq<Row>, after: seq<Row>, settings: Settings)
    requires !Explicit(settings) && Edited(rows, after, settings) && EachGetsKey(rows, settings)
    ensures forall i :: 0 <= i < |rows| ==>
              after[i].asIs == rows[i].asIs
              && (HasId(after[i].clientId) <==> Fills(settings, rows[i].clientId))
              && (HasId(after[i].clientId)
                  ==> after[i].clientId == Rendered(IdTemplate(settings, Read(rows)), rows[i].asIs))
  {
    forall i | 0 <= i < |rows|
      ensures after[i].asIs == rows[i].asIs
              && (HasId(after[i].clientId) <==> Fills(settings, rows[i].clientId))
              && (HasId(after[i].clientId)
                  ==> after[i].clientId == Rendered(IdTemplate(settings, Read(rows)), rows[i].asIs))
    {
      NextIdIs(rows[i].clientId, rows[i].asIs, settings, Read(rows));
      if Fills(settings, rows[i].clientId) {
        KeyIsStored(IdTemplate(settings, Read(rows)), rows[i].asIs);
      }
    }
  }

  /** Any edit that leaves the client_id to be read back, over any rows, whether they have client_ids or not, is settled
      in one go when the template it fills can be read back from the first row it fills. */
  lemma InferenceSettles(rows: seq<Row>, after: seq<Row>, settings: Settings, first: nat)
    requires !Explicit(settings) && Edited(rows, after, settings)
    requires FirstFilled(rows, settings, first) && EachGetsKey(rows, settings)
    requires ReadsBackFrom(IdTemplate(settings, Read(rows)), rows[first].asIs)
    ensures Changes(after, settings) == map[]
  {
    var template, ids := IdTemplate(settings, Read(rows)), Ids(after, |after|);
    FilledRows(rows, after, settings);
    FirstIdIs(after, |after|, first);
    forall k | 0 <= k < |ids| ensures Fits(template, ids[k]) {
      var i := IdIsRow(after, |after|, k);
    }
    ProperKeyIsPlain(template, rows[first].asIs);
    TemplateIsNotBlank(settings, Read(rows));
    SharedIsFound(ids, template);
    ReadBackSettles(rows, after, settings);
  }

  lemma TemplateIsNotBlank(settings: Settings, now: Now)
    ensures IdTemplate(settings, now) != ""
  {
  }

  /** An edit that fills no row changes none again. */
  lemma NothingFilledSettles(rows: seq<Row>, after: seq<Row>, settings: Settings)
    requires !Explicit(settings) && Edited(rows, after, settings)
    requires forall i :: 0 <= i < |rows| ==> !Fills(settings, rows[i].clientId)
    ensures Changes(after, settings) == map[]
  {
    forall i | 0 <= i < |after| ensures Keeps(settings, after, i) {
      NextIdIs(rows[i].clientId, rows[i].asIs, settings, Read(rows));
    }
    EditStays(rows, after, settings);
  }

  // ---- the same rows share what they shared -------------------------------------------------------------------------

  /** What the rows share is the same when each has the client_id it had. */
  lemma SameIdsShareTheSame(rows: seq<Row>, after: seq<Row>)
    requires |after| == |rows|
    requires forall i :: 0 <= i < |rows| ==> after[i].clientId == rows[i].clientId && after[i].asIs == rows[i].asIs
    ensures Read(after) == Read(rows)
  {
    SameIds(rows, after, |rows|);
  }

  lemma {:induction false} SameIds(rows: seq<Row>, after: seq<Row>, n: nat)
    requires |after| == |rows| && n <= |rows|
    requires forall i :: 0 <= i < |rows| ==> after[i].clientId == rows[i].clientId && after[i].asIs == rows[i].asIs
    ensures Ids(after, n) == Ids(rows, n)
    decreases n
  {
    if n > 0 {
      SameIds(rows, after, n - 1);
    }
  }

  /** When the client_ids read back as a template and the edit fills only rows that have one, it changes none of them,
      so it is settled: fan-in kept on, or a blank client_id given alone. */
  lemma SharedIdsStay(rows: seq<Row>, after: seq<Row>, settings: Settings)
    requires !Explicit(settings) && Edited(rows, after, settings) && Shared(Ids(rows, |rows|)).Some?
    requires forall i :: 0 <= i < |rows| ==> Normal(rows[i].clientId) == rows[i].clientId
    requires forall i :: 0 <= i < |rows| && Fills(settings, rows[i].clientId) ==> HasId(rows[i].clientId)
    ensures (forall i :: 0 <= i < |rows| ==> after[i].clientId == rows[i].clientId) && Changes(after, settings) == map[]
  {
    var template := Shared(Ids(rows, |rows|)).value;
    SharedFits(Ids(rows, |rows|));
    forall i | 0 <= i < |rows| ensures after[i].clientId == rows[i].clientId && after[i].asIs == rows[i].asIs {
      NextIdIs(rows[i].clientId, rows[i].asIs, settings, Read(rows));
      if HasId(rows[i].clientId) {
        var k := RowIsId(rows, |rows|, i);
        FittingKeeps(rows[i], template);
        assert template != "";
      }
    }
    SameIdsShareTheSame(rows, after);
    SameTemplateStays(rows, after, settings);
  }

  /** When the second planning fills the template of the first, it changes nothing. */
  lemma SameTemplateStays(rows: seq<Row>, after: seq<Row>, settings: Settings)
    requires !Explicit(settings) && Edited(rows, after, settings)
    requires IdTemplate(settings, Read(after)) == IdTemplate(settings, Read(rows))
    ensures Changes(after, settings) == map[]
  {
    forall i | 0 <= i < |after| ensures Keeps(settings, after, i) {
      NextIdIs(rows[i].clientId, rows[i].asIs, settings, Read(rows));
    }
    EditStays(rows, after, settings);
  }

  // ---- read back as nothing -----------------------------------------------------------------------------------------

  /** The rows' fields are those of a source; the client_ids hold no brace and no space around them. */
  ghost predicate PlainIds(rows: seq<Row>) {
    forall i :: 0 <= i < |rows| ==>
      Tags(rows[i].asIs) && Closed(rows[i].asIs)
      && (HasId(rows[i].clientId) ==> Trimmed(rows[i].clientId.value) && '{' !in rows[i].clientId.value)
  }

  /** Plain client_ids read back as a template or as nothing at all. */
  lemma TemplateOrNothing(rows: seq<Row>)
    requires PlainIds(rows)
    ensures SharedId(Ids(rows, |rows|)) == Shared(Ids(rows, |rows|))
  {
    var ids := Ids(rows, |rows|);
    if ids != [] {
      forall k | 0 <= k < |ids|
        ensures Tags(ids[k].fields) && Closed(ids[k].fields) && Trimmed(ids[k].value)
                && '{' !in ids[k].value && ids[k].value != ""
      {
        var i := IdIsRow(rows, |rows|, k);
      }
      if forall i :: 0 <= i < |ids| ==> ids[i].value == ids[0].value {
        OneValueIsShared(ids, ids[0].value);
      }
    }
  }

  ghost predicate SameRowsHaveIds(rows: seq<Row>, after: seq<Row>) {
    |after| == |rows| && forall i :: 0 <= i < |rows| ==> (HasId(after[i].clientId) <==> HasId(rows[i].clientId))
  }

  lemma SameRowsSameFanIn(rows: seq<Row>, after: seq<Row>)
    requires SameRowsHaveIds(rows, after)
    ensures SharedFanIn(after) == SharedFanIn(rows)
  {
    if rows != [] {
      assert HasId(after[0].clientId) == HasId(rows[0].clientId);
      forall i | 0 <= i < |rows| ensures HasId(after[i].clientId) == HasId(rows[i].clientId) { }
    }
  }

  /** Client_ids that read back as nothing are written over with the default template; when the same rows have one
      after, the default is the same the second time, whether those written read back or not. */
  lemma DefaultStays(rows: seq<Row>, after: seq<Row>, settings: Settings)
    requires !Explicit(settings) && Edited(rows, after, settings) && SameRowsHaveIds(rows, after)
    requires SharedId(Ids(rows, |rows|)).None? && PlainIds(after)
    requires forall i :: 0 <= i < |after| && Fills(settings, after[i].clientId) ==> HasId(after[i].clientId)
    ensures Changes(after, settings) == map[]
  {
    if Shared(Ids(after, |after|)).Some? {
      ReadBackSettles(rows, after, settings);
    } else {
      TemplateOrNothing(after);
      SameRowsSameFanIn(rows, after);
      SameTemplateStays(rows, after, settings);
    }
  }

  /** Each row the edit fills gets a client_id with no space around it and no brace in it. */
  ghost predicate EachGetsPlainKey(rows: seq<Row>, settings: Settings) {
    EachGetsKey(rows, settings)
    && forall i :: 0 <= i < |rows| && Fills(settings, rows[i].clientId) ==>
         '{' !in Rendered(IdTemplate(settings, Read(rows)), rows[i].asIs).value
  }

  /** An edit that fills only rows with a client_id already is settled in one go: a blank client_id given alone,
      whichever rows have one, or fan-in kept on. No condition, when those they have read back as a template; when they
      do not, only that the default gives each a client_id, and however many templates the search finds. */
  lemma KeptIdsSettle(rows: seq<Row>, after: seq<Row>, settings: Settings)
    requires !Explicit(settings) && Edited(rows, after, settings) && PlainIds(rows)
    requires forall i :: 0 <= i < |rows| ==> Normal(rows[i].clientId) == rows[i].clientId
    requires forall i :: 0 <= i < |rows| && Fills(settings, rows[i].clientId) ==> HasId(rows[i].clientId)
    requires Shared(Ids(rows, |rows|)).None? ==> EachGetsPlainKey(rows, settings)
    ensures Changes(after, settings) == map[]
  {
    if Shared(Ids(rows, |rows|)).Some? {
      SharedIdsStay(rows, after, settings);
    } else {
      TemplateOrNothing(rows);
      FilledRows(rows, after, settings);
      NextFills(rows, after, settings);
      DefaultStays(rows, after, settings);
    }
  }

  lemma NextFills(rows: seq<Row>, after: seq<Row>, settings: Settings)
    requires !Explicit(settings) && Edited(rows, after, settings) && PlainIds(rows) && EachGetsPlainKey(rows, settings)
    requires forall i :: 0 <= i < |rows| && Fills(settings, rows[i].clientId) ==> HasId(rows[i].clientId)
    ensures SameRowsHaveIds(rows, after) && PlainIds(after)
    ensures forall i :: 0 <= i < |after| && Fills(settings, after[i].clientId) ==> HasId(after[i].clientId)
  {
    FilledRows(rows, after, settings);
    forall i | 0 <= i < |rows| ensures HasId(after[i].clientId) <==> HasId(rows[i].clientId) {
      FilledHadId(settings, rows[i].clientId);
    }
  }

  lemma FilledHadId(settings: Settings, clientId: Maybe<string>)
    requires !Explicit(settings) && (Fills(settings, clientId) ==> HasId(clientId))
    ensures HasId(clientId) ==> Fills(settings, clientId)
  {
  }
}
