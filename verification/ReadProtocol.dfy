/** The checks and reads of one server's databases through the warehouse: the steps of WarehouseReadStore in
    app/src/main.py, by the workers in app/src/background_reads.py and the pages in app/src/warehouse_reads.py. */
module ReadProtocol {
  import opened Text

  /** How long a claim no one renews is live, in seconds. */
  const CLAIM_S: nat := 60

  datatype Status = Listed | Running | Ended | Failed

  /** A database's discovery row. checked: its access was checked. saved: the statements whose tables were saved. */
  datatype Row = Row(status: Status, checked: bool, dropped: bool, discarded: bool, claimedAt: Maybe<nat>,
                     statement: Maybe<nat>, saved: seq<nat>)

  /** A sender claimed the database to send a statement for it, a collector one whose statement had lost its watcher; a
      watcher, a page's step, took up the statement saved without a claim. */
  datatype Role = Sender | Collector | Watcher

  /** One worker or page step at work on a database, and the statement it sent or watches. */
  datatype Holder = Holder(database: nat, statement: Maybe<nat>, role: Role)

  datatype State = State(now: nat, cap: nat, rows: map<nat, Row>, holders: map<nat, Holder>)

  predicate ReadWork(row: Row) {
    row.status == Running && !row.discarded && !row.dropped
  }

  /** Left to check or to read. */
  predicate Work(row: Row) {
    ReadWork(row) || (row.status == Listed && !row.checked)
  }

  predicate Live(row: Row, now: nat) {
    row.claimedAt.Some? && row.claimedAt.value + CLAIM_S >= now
  }

  /** The checks and reads in flight: those left to do whose claim is live. */
  function InFlight(s: State): set<nat> {
    set d | d in s.rows && Work(s.rows[d]) && Live(s.rows[d], s.now)
  }

  datatype Step =
    | Tick(seconds: nat)
    | Listing(database: nat)
    | Reading(database: nat)
    | ClaimCheck(database: nat, holder: nat)
    | ClaimRead(database: nat, holder: nat)
    | Collect(database: nat, holder: nat)
    | Watch(database: nat, holder: nat)
    | Send(holder: nat, statement: nat)
    | Started(holder: nat)
    | Renew(holder: nat)
    | FinishCheck(holder: nat)
    | FinishRead(holder: nat, ok: bool)
    | Clear(holder: nat)
    | Die(holder: nat)
    | Drop(database: nat)
    | Retick(database: nat)
    | Discard(database: nat)
    | StopReading(database: nat)
    | Resume(database: nat)
    | ReadAgain(database: nat)

  /** The holder took its database with a claim. */
  predicate Claims(s: State, h: nat) {
    h in s.holders && !s.holders[h].role.Watcher?
  }

  /** A live holder renews the claim it took before it lapses. */
  ghost predicate RenewedInTime(s: State, seconds: nat) {
    forall h :: Claims(s, h) ==>
      var row := Of(s, h);
      row.claimedAt.Some? ==> row.claimedAt.value + CLAIM_S >= s.now + seconds
  }

  const NO_ROW := Row(Failed, false, false, false, None, None, [])

  function RowOf(s: State, d: nat): Row {
    if d in s.rows then s.rows[d] else NO_ROW
  }

  function Of(s: State, h: nat): Row
    requires h in s.holders
  {
    RowOf(s, s.holders[h].database)
  }

  predicate Free(s: State, d: nat, h: nat) {
    d in s.rows && h !in s.holders && !Live(s.rows[d], s.now)
  }

  ghost predicate Enabled(s: State, step: Step) {
    match step
    case Tick(seconds) => RenewedInTime(s, seconds)
    case Listing(d) => d !in s.rows
    case Reading(d) => d !in s.rows
    case ClaimCheck(d, h) =>
      Free(s, d, h) && s.rows[d].status == Listed && !s.rows[d].checked && s.rows[d].statement == None
      && |InFlight(s)| < s.cap
    case ClaimRead(d, h) =>
      Free(s, d, h) && ReadWork(s.rows[d]) && s.rows[d].statement == None && |InFlight(s)| < s.cap
    case Collect(d, h) => Free(s, d, h) && ReadWork(s.rows[d]) && s.rows[d].statement.Some?
    case Watch(d, h) => d in s.rows && h !in s.holders && Work(s.rows[d]) && s.rows[d].statement.Some?
    case Send(h, _) => h in s.holders && s.holders[h].role.Sender? && s.holders[h].statement == None
    case Started(h) => h in s.holders && s.holders[h].role.Sender? && s.holders[h].statement.Some?
    case Renew(h) => h in s.holders
    case FinishCheck(h) => h in s.holders && s.holders[h].statement.Some?
    case FinishRead(h, _) => h in s.holders && s.holders[h].statement.Some?
    case Clear(h) => h in s.holders
    case Die(h) => h in s.holders
    case Drop(d) => d in s.rows && s.rows[d].status != Listed && !s.rows[d].discarded && !s.rows[d].dropped
    case Retick(d) => d in s.rows && s.rows[d].dropped
    case Discard(d) => d in s.rows && s.rows[d].status != Listed && !s.rows[d].discarded
    case StopReading(d) => d in s.rows && s.rows[d].status == Running && !s.rows[d].discarded
    case Resume(d) => d in s.rows && s.rows[d].discarded && s.rows[d].status != Ended && s.rows[d].status != Listed
    case ReadAgain(d) => d in s.rows && s.rows[d].status == Failed && !s.rows[d].dropped
  }

  function With(s: State, d: nat, row: Row): State {
    if d in s.rows then s.(rows := s.rows[d := row]) else s
  }

  function Gone(s: State, h: nat): State {
    s.(holders := s.holders - {h})
  }

  /** Whether an answer ends its row: still running, and by the statement saved for it, or before one is saved; a
      database dropped meanwhile keeps a read that succeeded and is never failed. */
  predicate Ends(row: Row, statement: nat, ok: bool) {
    row.status == Running && (row.statement == None || row.statement == Some(statement)) && (ok || !row.dropped)
  }

  /** The row ended, and its tables saved when the read succeeded, in one transaction. */
  function EndedRow(row: Row, statement: nat, ok: bool): Row {
    if !Ends(row, statement, ok) then row
    else row.(status := if ok then Ended else Failed, statement := None, claimedAt := None,
              saved := if ok then row.saved + [statement] else row.saved)
  }

  ghost function Apply(s: State, step: Step): State
    requires Enabled(s, step)
  {
    match step
    case Tick(seconds) => s.(now := s.now + seconds)
    case Listing(d) => s.(rows := s.rows[d := Row(Listed, false, false, false, None, None, [])])
    case Reading(d) => s.(rows := s.rows[d := Row(Running, false, false, false, None, None, [])])
    case ClaimCheck(d, h) => Claimed(s, d, Holder(d, None, Sender), h)
    case ClaimRead(d, h) => Claimed(s, d, Holder(d, None, Sender), h)
    case Collect(d, h) => Claimed(s, d, Holder(d, s.rows[d].statement, Collector), h)
    case Watch(d, h) => s.(holders := s.holders[h := Holder(d, s.rows[d].statement, Watcher)])
    case Send(h, statement) => s.(holders := s.holders[h := s.holders[h].(statement := Some(statement))])
    case Started(h) =>
      if Of(s, h).dropped then Gone(s, h)
      else With(s, s.holders[h].database, Of(s, h).(statement := s.holders[h].statement, claimedAt := Some(s.now)))
    case Renew(h) =>
      if Work(Of(s, h)) then With(s, s.holders[h].database, Of(s, h).(claimedAt := Some(s.now))) else s
    case FinishCheck(h) =>
      var row := Of(s, h);
      Gone(With(s, s.holders[h].database,
                if row.status == Listed then row.(checked := true, statement := None, claimedAt := None) else row), h)
    case FinishRead(h, ok) =>
      Gone(With(s, s.holders[h].database, EndedRow(Of(s, h), s.holders[h].statement.value, ok)), h)
    case Clear(h) => Gone(With(s, s.holders[h].database, Of(s, h).(statement := None, claimedAt := None)), h)
    case Die(h) => Gone(s, h)
    case Drop(d) => With(s, d, s.rows[d].(statement := None, claimedAt := None, dropped := true))
    case Retick(d) => With(s, d, s.rows[d].(dropped := false, claimedAt := None))
    case Discard(d) => With(s, d, s.rows[d].(discarded := true))
    case StopReading(d) => With(s, d, s.rows[d].(discarded := true, claimedAt := None))
    case Resume(d) =>
      With(s, d, s.rows[d].(status := Running, discarded := false, statement := None, claimedAt := None))
    case ReadAgain(d) =>
      With(s, d, s.rows[d].(status := Running, discarded := false, statement := None, claimedAt := None))
  }

  function Claimed(s: State, d: nat, holder: Holder, h: nat): State {
    With(s, d, RowOf(s, d).(claimedAt := Some(s.now))).(holders := s.holders[h := holder])
  }

  // ---- runs ---------------------------------------------------------------------------------------------------------

  ghost predicate Runs(s: State, steps: seq<Step>)
    decreases |steps|
  {
    steps == [] || (Enabled(s, steps[0]) && Runs(Apply(s, steps[0]), steps[1..]))
  }

  ghost function After(s: State, steps: seq<Step>): State
    requires Runs(s, steps)
    decreases |steps|
  {
    if steps == [] then s else After(Apply(s, steps[0]), steps[1..])
  }

  /** A live holder other than h has the database by a claim. */
  predicate HeldBeside(s: State, d: nat, h: nat) {
    exists k :: k in s.holders && k != h && Claims(s, k) && s.holders[k].database == d
  }

  predicate Held(s: State, d: nat) {
    exists k :: k in s.holders && Claims(s, k) && s.holders[k].database == d
  }

  /** The step takes no database back to be sent again while the holder that claimed it lives: ticked again, resumed,
      read again, or cleared by someone else who watched its statement. */
  ghost predicate Careful(s: State, step: Step) {
    match step
    case Retick(d) => Held(s, d) ==> !Work(RowOf(s, d).(dropped := false))
    case Resume(d) => Held(s, d) ==> RowOf(s, d).dropped
    case ReadAgain(d) => !Held(s, d)
    case Clear(h) => h in s.holders && HeldBeside(s, s.holders[h].database, h) ==> !Work(Of(s, h))
    case _ => true
  }

  ghost predicate CarefulRun(s: State, steps: seq<Step>)
    requires Runs(s, steps)
    decreases |steps|
  {
    steps == [] || (Careful(s, steps[0]) && CarefulRun(Apply(s, steps[0]), steps[1..]))
  }

  // ---- no database is held twice ------------------------------------------------------------------------------------

  /** No database is claimed by two live holders, so none is sent by two. */
  ghost predicate HeldOnce(s: State) {
    forall h, k :: Claims(s, h) && Claims(s, k) && s.holders[h].database == s.holders[k].database ==> h == k
  }

  /** The database of a live holder that claimed it is one of the rows, and while it is left to do, its claim is
      live. */
  ghost predicate Covered(s: State) {
    forall h :: Claims(s, h) ==>
      s.holders[h].database in s.rows && (Work(Of(s, h)) ==> Live(Of(s, h), s.now))
  }

  lemma StepKeepsHeldOnce(s: State, step: Step)
    requires Enabled(s, step) && HeldOnce(s) && Covered(s)
    ensures HeldOnce(Apply(s, step))
  {
  }

  /** A step leaves the database of every live holder that claimed it under a live claim exactly when it takes none
      back. */
  lemma StepKeepsClaimsExactly(s: State, step: Step)
    requires Enabled(s, step) && HeldOnce(s) && Covered(s)
    ensures HeldOnce(Apply(s, step))
    ensures Covered(Apply(s, step)) <==> Careful(s, step)
  {
    StepKeepsHeldOnce(s, step);
    if Careful(s, step) {
      CarefulStepKeepsCovered(s, step);
    } else {
      CarelessStepUncovers(s, step);
    }
  }

  lemma CarefulStepKeepsCovered(s: State, step: Step)
    requires Enabled(s, step) && Careful(s, step) && HeldOnce(s) && Covered(s)
    ensures Covered(Apply(s, step))
  {
  }

  lemma CarelessStepUncovers(s: State, step: Step)
    requires Enabled(s, step) && !Careful(s, step) && HeldOnce(s) && Covered(s)
    ensures !Covered(Apply(s, step))
  {
    if step.Clear? {
      var k :| k in s.holders && k != step.holder && Claims(s, k)
          && s.holders[k].database == s.holders[step.holder].database;
      assert Claims(Apply(s, step), k);
    } else {
      var k :| k in s.holders && Claims(s, k) && s.holders[k].database == step.database;
      assert Claims(Apply(s, step), k);
    }
  }

  /** While no database is taken back so, no two holders ever send one database. */
  lemma {:induction false} NeverHeldTwice(s: State, steps: seq<Step>)
    requires Runs(s, steps) && CarefulRun(s, steps) && HeldOnce(s) && Covered(s)
    ensures HeldOnce(After(s, steps)) && Covered(After(s, steps))
    decreases |steps|
  {
    if steps != [] {
      StepKeepsClaimsExactly(s, steps[0]);
      NeverHeldTwice(Apply(s, steps[0]), steps[1..]);
    }
  }

  /** A live holder has the database it reads under its claim, and there is a place left for one read more once that
      claim comes off. */
  ghost predicate Reads(s: State, h: nat) {
    && Claims(s, h) && s.holders[h].database in s.rows && ReadWork(Of(s, h)) && Live(Of(s, h), s.now)
    && |InFlight(s)| <= s.cap
  }

  /** The claim is off, the database is left to read, and the holder that had it still lives. */
  ghost predicate TakenBack(s: State, was: State, h: nat, d: nat) {
    && Claims(s, h) && s.holders[h].database == d && d in s.rows && ReadWork(s.rows[d])
    && s.rows[d].statement == None && s.rows[d].claimedAt == None
    && s.cap == was.cap && InFlight(s) == InFlight(was) - {d}
  }

  lemma TakenBackIsHeldTwice(s: State, was: State, h: nat, d: nat, k: nat)
    requires TakenBack(s, was, h, d) && d in InFlight(was) && |InFlight(was)| <= s.cap && k !in s.holders
    ensures Runs(s, [ClaimRead(d, k)]) && !HeldOnce(After(s, [ClaimRead(d, k)]))
  {
    var after := Apply(s, ClaimRead(d, k));
    assert Claims(after, h) && Claims(after, k) && after.holders[h].database == after.holders[k].database;
    assert Runs(after, []);
    RunsOn(s, ClaimRead(d, k), []);
    assert [ClaimRead(d, k)] + [] == [ClaimRead(d, k)];
  }

  /** A database dropped and ticked again while a holder reads it is claimed by another at once: its claim came off with
      the mark. Both then send it. */
  lemma RetickedIsHeldTwice(s: State, h: nat, k: nat)
    requires Reads(s, h) && k !in s.holders
    ensures var d := s.holders[h].database;
            var steps := [Drop(d), Retick(d), ClaimRead(d, k)];
            Runs(s, steps) && !HeldOnce(After(s, steps))
  {
    var d := s.holders[h].database;
    var s1 := Apply(s, Drop(d));
    var s2 := Apply(s1, Retick(d));
    assert TakenBack(s2, s, h, d) && d in InFlight(s);
    TakenBackIsHeldTwice(s2, s, h, d, k);
    TwoThen(s, Drop(d), Retick(d), [ClaimRead(d, k)]);
    assert [Drop(d), Retick(d)] + [ClaimRead(d, k)] == [Drop(d), Retick(d), ClaimRead(d, k)];
  }

  /** So is one whose job was stopped and prepared again. */
  lemma ResumedIsHeldTwice(s: State, h: nat, k: nat)
    requires Reads(s, h) && k !in s.holders
    ensures var d := s.holders[h].database;
            var steps := [StopReading(d), Resume(d), ClaimRead(d, k)];
            Runs(s, steps) && !HeldOnce(After(s, steps))
  {
    var d := s.holders[h].database;
    var s1 := Apply(s, StopReading(d));
    var s2 := Apply(s1, Resume(d));
    assert TakenBack(s2, s, h, d) && d in InFlight(s);
    TakenBackIsHeldTwice(s2, s, h, d, k);
    TwoThen(s, StopReading(d), Resume(d), [ClaimRead(d, k)]);
    assert [StopReading(d), Resume(d)] + [ClaimRead(d, k)] == [StopReading(d), Resume(d), ClaimRead(d, k)];
  }

  /** So is one a page watches too, when the page fails to read its statement and clears it. */
  lemma ClearedIsHeldTwice(s: State, h: nat, w: nat, k: nat)
    requires Reads(s, h) && Of(s, h).statement.Some? && w !in s.holders && k !in s.holders && w != k
    ensures var d := s.holders[h].database;
            var steps := [Watch(d, w), Clear(w), ClaimRead(d, k)];
            Runs(s, steps) && !HeldOnce(After(s, steps))
  {
    var d := s.holders[h].database;
    var s1 := Apply(s, Watch(d, w));
    var s2 := Apply(s1, Clear(w));
    assert TakenBack(s2, s, h, d) && d in InFlight(s);
    TakenBackIsHeldTwice(s2, s, h, d, k);
    TwoThen(s, Watch(d, w), Clear(w), [ClaimRead(d, k)]);
    assert [Watch(d, w), Clear(w)] + [ClaimRead(d, k)] == [Watch(d, w), Clear(w), ClaimRead(d, k)];
  }

  /** So is one a page watches too, when the page saves that its read failed and it is read again. */
  lemma ReadAgainIsHeldTwice(s: State, h: nat, w: nat, k: nat)
    requires Reads(s, h) && Of(s, h).statement.Some? && w !in s.holders && k !in s.holders && w != k
    ensures var d := s.holders[h].database;
            var steps := [Watch(d, w), FinishRead(w, false), ReadAgain(d), ClaimRead(d, k)];
            Runs(s, steps) && !HeldOnce(After(s, steps))
  {
    var d := s.holders[h].database;
    var s1 := Apply(s, Watch(d, w));
    var s2 := Apply(s1, FinishRead(w, false));
    var s3 := Apply(s2, ReadAgain(d));
    assert TakenBack(s3, s, h, d) && d in InFlight(s);
    TakenBackIsHeldTwice(s3, s, h, d, k);
    RunsOn(s2, ReadAgain(d), [ClaimRead(d, k)]);
    assert [ReadAgain(d)] + [ClaimRead(d, k)] == [ReadAgain(d), ClaimRead(d, k)];
    TwoThen(s, Watch(d, w), FinishRead(w, false), [ReadAgain(d), ClaimRead(d, k)]);
    assert [Watch(d, w), FinishRead(w, false)] + [ReadAgain(d), ClaimRead(d, k)]
        == [Watch(d, w), FinishRead(w, false), ReadAgain(d), ClaimRead(d, k)];
  }

  lemma RunsOn(s: State, first: Step, rest: seq<Step>)
    requires Enabled(s, first) && Runs(Apply(s, first), rest)
    ensures Runs(s, [first] + rest) && After(s, [first] + rest) == After(Apply(s, first), rest)
  {
    assert ([first] + rest)[1..] == rest;
  }

  lemma TwoThen(s: State, first: Step, second: Step, rest: seq<Step>)
    requires Enabled(s, first) && Enabled(Apply(s, first), second) && Runs(Apply(Apply(s, first), second), rest)
    ensures Runs(s, [first, second] + rest)
            && After(s, [first, second] + rest) == After(Apply(Apply(s, first), second), rest)
  {
    RunsOn(Apply(s, first), second, rest);
    RunsOn(s, first, [second] + rest);
    assert [first] + ([second] + rest) == [first, second] + rest;
  }

  /** A check whose statement lost its watcher is never left so: the next page that asks can take it up and end it. */
  lemma CheckCanEnd(s: State, d: nat, w: nat)
    requires d in s.rows && s.rows[d].status == Listed && !s.rows[d].checked && s.rows[d].statement.Some?
            && w !in s.holders
    ensures var steps := [Watch(d, w), FinishCheck(w)];
            && Runs(s, steps) && d in After(s, steps).rows && After(s, steps).rows[d].checked
            && After(s, steps).holders == s.holders
  {
    var s2 := Apply(Apply(s, Watch(d, w)), FinishCheck(w));
    assert Runs(s2, []) && After(s2, []) == s2 && s2.holders == s.holders;
    TwoThen(s, Watch(d, w), FinishCheck(w), []);
    assert [Watch(d, w), FinishCheck(w)] + [] == [Watch(d, w), FinishCheck(w)];
  }

  // ---- the cap ------------------------------------------------------------------------------------------------------

  ghost predicate WithinCap(s: State) {
    |InFlight(s)| <= s.cap
  }

  /** The holder's database is left to do, and the step renews its claim: a renewal, or a statement saved as sent. */
  predicate Renews(s: State, step: Step) {
    && (step.Renew? || (step.Started? && step.holder in s.holders && !Of(s, step.holder).dropped))
    && step.holder in s.holders && Work(Of(s, step.holder))
  }

  /** The step takes a place for its database, if it has none. */
  predicate Takes(s: State, step: Step) {
    step.ClaimCheck? || step.ClaimRead? || step.Collect? || Renews(s, step)
  }

  function DatabaseOf(s: State, step: Step): nat
    requires Takes(s, step)
  {
    if step.Renew? || step.Started? then s.holders[step.holder].database else step.database
  }

  /** Only a claim, a collection, a renewal or a statement saved as sent puts a database in flight, and it puts its
      own. */
  lemma InFlightAfter(s: State, step: Step)
    requires Enabled(s, step)
    ensures if Takes(s, step) then InFlight(Apply(s, step)) == InFlight(s) + {DatabaseOf(s, step)}
            else InFlight(Apply(s, step)) <= InFlight(s)
  {
    if Takes(s, step) {
      TakingPutsItsOwn(s, step);
    } else {
      OthersPutNone(s, step);
    }
  }

  lemma TakingPutsItsOwn(s: State, step: Step)
    requires Enabled(s, step) && Takes(s, step)
    ensures InFlight(Apply(s, step)) == InFlight(s) + {DatabaseOf(s, step)}
  {
    var d := DatabaseOf(s, step);
    var row := s.rows[d].(claimedAt := Some(s.now));
    assert Apply(s, step).rows == s.rows[d := if step.Started? then row.(statement := s.holders[step.holder].statement)
                                              else row];
  }

  lemma OthersPutNone(s: State, step: Step)
    requires Enabled(s, step) && !Takes(s, step)
    ensures InFlight(Apply(s, step)) <= InFlight(s)
  {
    forall d | d in InFlight(Apply(s, step)) ensures d in InFlight(s) { InFlightBefore(s, step, d); }
  }

  lemma InFlightBefore(s: State, step: Step, d: nat)
    requires Enabled(s, step) && !Takes(s, step) && d in InFlight(Apply(s, step))
    ensures d in InFlight(s)
  {
  }

  /** The step takes a place it did not ask for: a statement collected, a lapsed claim renewed by a page, or a statement
      saved as sent whose claim was taken back meanwhile. */
  predicate TakesUnasked(s: State, step: Step) {
    step.Collect? || (Renews(s, step) && !Live(Of(s, step.holder), s.now))
  }

  /** The cap holds after a step exactly when the step is not one that takes a place, when none is left, without
      asking. */
  lemma StepKeepsCapExactly(s: State, step: Step)
    requires Enabled(s, step) && WithinCap(s)
    ensures WithinCap(Apply(s, step)) <==> !(TakesUnasked(s, step) && |InFlight(s)| == s.cap)
  {
    InFlightAfter(s, step);
    if Takes(s, step) {
      OneMoreMember(InFlight(s), DatabaseOf(s, step));
      if Renews(s, step) {
        assert Of(s, step.holder) == s.rows[DatabaseOf(s, step)];
      }
    } else {
      NoMoreMembers(InFlight(Apply(s, step)), InFlight(s));
    }
  }

  lemma OneMoreMember(a: set<nat>, d: nat)
    ensures |a + {d}| == if d in a then |a| else |a| + 1
  {
    if d in a {
      assert a + {d} == a;
    }
  }

  ghost predicate FindsRoom(s: State, steps: seq<Step>)
    requires Runs(s, steps)
    decreases |steps|
  {
    steps == []
    || ((TakesUnasked(s, steps[0]) ==> |InFlight(s)| < s.cap) && FindsRoom(Apply(s, steps[0]), steps[1..]))
  }

  /** Over every run of any number of readers, pages and instances, from any state, the server's checks and reads in
      flight keep to its cap, as long as each collection, each renewal of a lapsed claim and each statement saved as
      sent after its claim was taken back finds a place. */
  lemma {:induction false} CapHolds(s: State, steps: seq<Step>)
    requires Runs(s, steps) && FindsRoom(s, steps) && WithinCap(s)
    ensures WithinCap(After(s, steps))
    decreases |steps|
  {
    if steps != [] {
      StepKeepsCapExactly(s, steps[0]);
      CapHolds(Apply(s, steps[0]), steps[1..]);
    }
  }

  /** The cap is passed by a statement being sent too: a job is stopped and prepared again meanwhile, the place that
      leaves is claimed for another database, and the statement is then saved with a claim of its own. */
  lemma CapIsPassedBySending(s: State, h: nat, statement: nat, e: nat, k: nat)
    requires Reads(s, h) && s.holders[h].role.Sender? && s.holders[h].statement == None && |InFlight(s)| == s.cap
    requires e in s.rows && ReadWork(s.rows[e]) && s.rows[e].statement == None && !Live(s.rows[e], s.now)
    requires k !in s.holders && e != s.holders[h].database
    ensures var d := s.holders[h].database;
            var steps := [Send(h, statement), StopReading(d)] + ([Resume(d)] + [ClaimRead(e, k), Started(h)]);
            Runs(s, steps) && |InFlight(After(s, steps))| == s.cap + 1
  {
    var d := s.holders[h].database;
    var s1 := Apply(s, Send(h, statement));
    var s2 := Apply(s1, StopReading(d));
    var s3 := Apply(s2, Resume(d));
    ResumedGivesPlace(s, s3, d);
    PlaceTakenTwice(s3, h, e, k);
    RunsOn(s2, Resume(d), [ClaimRead(e, k), Started(h)]);
    TwoThen(s, Send(h, statement), StopReading(d), [Resume(d)] + [ClaimRead(e, k), Started(h)]);
  }

  /** The last place is claimed, and then taken by a statement whose claim was taken back. */
  lemma PlaceTakenTwice(s: State, h: nat, e: nat, k: nat)
    requires h in s.holders && s.holders[h].role.Sender? && s.holders[h].statement.Some?
    requires s.holders[h].database in s.rows && ReadWork(Of(s, h)) && !Live(Of(s, h), s.now)
    requires e in s.rows && ReadWork(s.rows[e]) && s.rows[e].statement == None && !Live(s.rows[e], s.now)
    requires k !in s.holders && e != s.holders[h].database && |InFlight(s)| + 1 == s.cap
    ensures var steps := [ClaimRead(e, k), Started(h)];
            Runs(s, steps) && |InFlight(After(s, steps))| == s.cap + 1
  {
    var s1 := Apply(s, ClaimRead(e, k));
    TakingPutsItsOwn(s, ClaimRead(e, k));
    OneMoreMember(InFlight(s), e);
    TakingPutsItsOwn(s1, Started(h));
    OneMoreMember(InFlight(s1), s.holders[h].database);
    assert Runs(Apply(s1, Started(h)), []);
    TwoThen(s, ClaimRead(e, k), Started(h), []);
    assert [ClaimRead(e, k), Started(h)] + [] == [ClaimRead(e, k), Started(h)];
  }

  lemma ResumedGivesPlace(s: State, after: State, d: nat)
    requires d in InFlight(s) && d in after.rows && after.rows[d].claimedAt == None
    requires after.now == s.now && after.rows == s.rows[d := after.rows[d]]
    ensures InFlight(after) == InFlight(s) - {d} && |InFlight(after)| == |InFlight(s)| - 1
  {
    assert InFlight(after) + {d} == InFlight(s);
    OneMoreMember(InFlight(after), d);
  }

  /** Read claims of the databases from one number up to another, then the steps that follow. */
  ghost function ClaimsThen(first: nat, last: nat, rest: seq<Step>): seq<Step>
    decreases last + 1 - first
  {
    if first > last then rest else [ClaimRead(first, first)] + ClaimsThen(first + 1, last, rest)
  }

  /** The databases from one number up to another wait to be read, and no one holds them. */
  ghost predicate Waiting(s: State, first: nat, last: nat) {
    forall d :: first <= d <= last ==>
      d !in s.holders && d in s.rows && ReadWork(s.rows[d]) && s.rows[d].statement == None
          && s.rows[d].claimedAt == None
  }

  /** A statement that lost its watcher, of a read or of a check. */
  ghost predicate Orphaned(s: State, d: nat, check: bool) {
    && d in s.rows && s.rows[d].statement.Some? && !Live(s.rows[d], s.now)
    && (if check then s.rows[d].status == Listed && !s.rows[d].checked else ReadWork(s.rows[d]))
  }

  /** Who takes it up: the background reader, a read; the page that asks again, a check. */
  ghost function TakenUp(check: bool, h: nat): seq<Step> {
    if check then [Watch(0, h), Renew(h)] else [Collect(0, h)]
  }

  lemma TakingUpTakesAPlace(s: State, h: nat, check: bool)
    requires Orphaned(s, 0, check) && h !in s.holders
    ensures Runs(s, TakenUp(check, h)) && InFlight(After(s, TakenUp(check, h))) == InFlight(s) + {0}
            && 0 !in InFlight(s)
  {
    if check {
      var s1 := Apply(s, Watch(0, h));
      var s2 := Apply(s1, Renew(h));
      assert InFlight(s2) == InFlight(s) + {0};
      assert Runs(s2, []) && After(s2, []) == s2;
      TwoThen(s, Watch(0, h), Renew(h), []);
      assert [Watch(0, h), Renew(h)] + [] == TakenUp(check, h);
    } else {
      var s1 := Apply(s, Collect(0, h));
      assert InFlight(s1) == InFlight(s) + {0};
      assert Runs(s1, []) && After(s1, []) == s1;
      RunsOn(s, Collect(0, h), []);
      assert [Collect(0, h)] + [] == TakenUp(check, h);
    }
  }

  lemma {:induction false} FilledThenTakenUp(s: State, first: nat, h: nat, check: bool)
    requires 1 <= first <= s.cap + 1 && Waiting(s, first, s.cap) && h !in s.holders && h > s.cap
    requires |InFlight(s)| == first - 1 && Orphaned(s, 0, check)
    ensures var steps := ClaimsThen(first, s.cap, TakenUp(check, h));
            Runs(s, steps) && |InFlight(After(s, steps))| == s.cap + 1
    decreases s.cap + 1 - first
  {
    if first > s.cap {
      TakingUpTakesAPlace(s, h, check);
    } else {
      var after := Apply(s, ClaimRead(first, first));
      ClaimedOne(s, first, check);
      FilledThenTakenUp(after, first + 1, h, check);
      RunsOn(s, ClaimRead(first, first), ClaimsThen(first + 1, s.cap, TakenUp(check, h)));
    }
  }

  lemma ClaimedOne(s: State, first: nat, check: bool)
    requires 1 <= first <= s.cap && Waiting(s, first, s.cap) && |InFlight(s)| < s.cap && Orphaned(s, 0, check)
    ensures Enabled(s, ClaimRead(first, first))
    ensures var after := Apply(s, ClaimRead(first, first));
            && Waiting(after, first + 1, s.cap) && after.cap == s.cap && |InFlight(after)| == |InFlight(s)| + 1
            && Orphaned(after, 0, check) && after.holders.Keys == s.holders.Keys + {first}
  {
    var after := Apply(s, ClaimRead(first, first));
    TakingPutsItsOwn(s, ClaimRead(first, first));
    OneMoreMember(InFlight(s), first);
    assert after.rows == s.rows[first := s.rows[first].(claimedAt := Some(s.now))];
  }

  /** A database to check or to read that nobody has begun. */
  ghost predicate Fresh(row: Row, check: bool) {
    && row.statement == None && row.claimedAt == None && !row.dropped
    && (if check then row.status == Listed && !row.checked else ReadWork(row))
  }

  ghost function ClaimOf(check: bool, h: nat): Step {
    if check then ClaimCheck(0, h) else ClaimRead(0, h)
  }

  /** And in a run with no misuse at all: a worker dies, or a page goes, with its statement sent; its claim
      lapses; reads fill the server; and the statement is collected, or the page asks again and renews its claim. */
  lemma CapIsPassed(s: State, check: bool)
    requires s.holders == map[] && 0 in s.rows && Fresh(s.rows[0], check) && Waiting(s, 1, s.cap)
    requires InFlight(s) == {} && s.cap > 0
    ensures var h := s.cap + 1;
            var steps := [ClaimOf(check, h), Send(h, 0), Started(h), Die(h), Tick(CLAIM_S + 1)]
                         + ClaimsThen(1, s.cap, TakenUp(check, h));
            Runs(s, steps) && |InFlight(After(s, steps))| == s.cap + 1
  {
    var h := s.cap + 1;
    var rest := ClaimsThen(1, s.cap, TakenUp(check, h));
    var later := OrphanOne(s, h, check, rest);
    FilledThenTakenUp(later, 1, h, check);
  }

  lemma OrphanOne(s: State, h: nat, check: bool, rest: seq<Step>) returns (later: State)
    requires s.holders == map[] && 0 in s.rows && Fresh(s.rows[0], check) && Waiting(s, 1, s.cap)
    requires InFlight(s) == {} && s.cap > 0
    ensures later.cap == s.cap && later.holders == map[] && Waiting(later, 1, s.cap) && InFlight(later) == {}
    ensures Orphaned(later, 0, check)
    ensures var steps := [ClaimOf(check, h), Send(h, 0), Started(h), Die(h), Tick(CLAIM_S + 1)] + rest;
            Runs(later, rest) ==> Runs(s, steps) && After(s, steps) == After(later, rest)
  {
    var s1 := Apply(s, ClaimOf(check, h));
    var s2 := Apply(s1, Send(h, 0));
    var s3 := Apply(s2, Started(h));
    var s4 := Apply(s3, Die(h));
    later := Apply(s4, Tick(CLAIM_S + 1));
    LapsedIsNotInFlight(s, later);
    if Runs(later, rest) {
      FiveSteps(s, s1, s2, s3, s4, later, h, check, rest);
    }
  }

  lemma FiveSteps(s: State, s1: State, s2: State, s3: State, s4: State, later: State, h: nat, check: bool,
                  rest: seq<Step>)
    requires Enabled(s, ClaimOf(check, h)) && s1 == Apply(s, ClaimOf(check, h))
    requires Enabled(s1, Send(h, 0)) && s2 == Apply(s1, Send(h, 0))
    requires Enabled(s2, Started(h)) && s3 == Apply(s2, Started(h))
    requires Enabled(s3, Die(h)) && s4 == Apply(s3, Die(h))
    requires Enabled(s4, Tick(CLAIM_S + 1)) && later == Apply(s4, Tick(CLAIM_S + 1)) && Runs(later, rest)
    ensures var steps := [ClaimOf(check, h), Send(h, 0), Started(h), Die(h), Tick(CLAIM_S + 1)] + rest;
            Runs(s, steps) && After(s, steps) == After(later, rest)
  {
    var tail := [Started(h)] + ([Die(h), Tick(CLAIM_S + 1)] + rest);
    TwoThen(s3, Die(h), Tick(CLAIM_S + 1), rest);
    RunsOn(s2, Started(h), [Die(h), Tick(CLAIM_S + 1)] + rest);
    TwoThen(s, ClaimOf(check, h), Send(h, 0), tail);
    assert [ClaimOf(check, h), Send(h, 0)] + tail
        == [ClaimOf(check, h), Send(h, 0), Started(h), Die(h), Tick(CLAIM_S + 1)] + rest;
  }

  lemma LapsedIsNotInFlight(s: State, later: State)
    requires InFlight(s) == {} && later.now > s.now + CLAIM_S && later.rows.Keys == s.rows.Keys && 0 in s.rows
    requires forall d :: d in s.rows && d != 0 ==> later.rows[d] == s.rows[d]
    requires later.rows[0].claimedAt == Some(s.now)
    ensures InFlight(later) == {}
  {
    assert forall d :: d in InFlight(later) ==> d in InFlight(s);
  }

  /** Those that claimed a database left to do are no more than the count the cap is held to. */
  lemma HoldersAreInFlight(s: State)
    requires HeldOnce(s) && Covered(s)
    ensures |set h | h in s.holders && Claims(s, h) && Work(Of(s, h))| <= |InFlight(s)|
  {
    var atWork := set h | h in s.holders && Claims(s, h) && Work(Of(s, h));
    OneEach(s, atWork);
  }

  lemma {:induction false} OneEach(s: State, some: set<nat>)
    requires HeldOnce(s) && forall h :: h in some ==> Claims(s, h) && s.holders[h].database in InFlight(s)
    ensures |some| == |set h | h in some :: s.holders[h].database|
    ensures |some| <= |InFlight(s)|
    decreases |some|
  {
    if some != {} {
      var h :| h in some;
      var rest := some - {h};
      var databases := set k | k in rest :: s.holders[k].database;
      OneEach(s, rest);
      assert (set k | k in some :: s.holders[k].database) == databases + {s.holders[h].database};
      assert s.holders[h].database !in databases;
      NoMoreMembers(databases + {s.holders[h].database}, InFlight(s));
    }
  }

  // ---- a row ends once ----------------------------------------------------------------------------------------------

  /** A row has tables exactly when it ended ok, and those of one statement. */
  ghost predicate SavedOnce(s: State) {
    forall d :: d in s.rows ==> |s.rows[d].saved| == if s.rows[d].status == Ended then 1 else 0
  }

  lemma StepSavesOnce(s: State, step: Step)
    requires Enabled(s, step) && SavedOnce(s)
    ensures SavedOnce(Apply(s, step))
  {
  }

  lemma {:induction false} TablesSavedOnce(s: State, steps: seq<Step>)
    requires Runs(s, steps) && SavedOnce(s)
    ensures SavedOnce(After(s, steps))
    decreases |steps|
  {
    if steps != [] {
      StepSavesOnce(s, steps[0]);
      TablesSavedOnce(Apply(s, steps[0]), steps[1..]);
    }
  }

  /** A row that ended ok stays so, with the tables it was ended with, whatever answers, drops and resumes follow. */
  lemma {:induction false} EndedForGood(s: State, steps: seq<Step>, d: nat)
    requires Runs(s, steps) && d in s.rows && s.rows[d].status == Ended
    ensures d in After(s, steps).rows && After(s, steps).rows[d].status == Ended
    ensures After(s, steps).rows[d].saved == s.rows[d].saved
    decreases |steps|
  {
    if steps != [] {
      StaysEnded(s, steps[0], d);
      EndedForGood(Apply(s, steps[0]), steps[1..], d);
    }
  }

  lemma StaysEnded(s: State, step: Step, d: nat)
    requires Enabled(s, step) && d in s.rows && s.rows[d].status == Ended
    ensures d in Apply(s, step).rows && Apply(s, step).rows[d].status == Ended
    ensures Apply(s, step).rows[d].saved == s.rows[d].saved
  {
  }

  /** Tables are saved only by the answer that ends the row, the statement saved for it or the first to answer. */
  lemma SavedByTheAnswerThatEnds(s: State, step: Step, d: nat)
    requires Enabled(s, step) && d in s.rows && d in Apply(s, step).rows
    requires Apply(s, step).rows[d].saved != s.rows[d].saved
    ensures step.FinishRead? && step.ok && s.holders[step.holder].database == d
    ensures s.rows[d].status == Running && Apply(s, step).rows[d].status == Ended
    ensures var statement := s.holders[step.holder].statement;
            && (s.rows[d].statement == None || s.rows[d].statement == statement)
            && Apply(s, step).rows[d].saved == s.rows[d].saved + [statement.value]
  {
  }
}
