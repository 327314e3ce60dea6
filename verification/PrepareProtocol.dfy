/** A job's prepare task, in app/src/main.py: several instances of the app, each with threads that claim the task, plan
    what is not written yet and write it in transactions, while users stop, delete, restore or prepare it again. Each
    transaction is one step (its locks order it with the others); what a thread does between two is its own. */
module PrepareProtocol {
  import opened Text

  type Database = string
  type Line = string

  /** A database of the choice as one spelling gives it: lines are gathered by spelling, while what is written and left
      out goes by the database, its server without a port and its name in lower case. */
  datatype Unit = Unit(database: Database, spelling: string)

  /** Seconds without a beat after which a running task may be claimed. */
  const STALE: nat := 120

  /** The task's row: who holds it is the owner token in its progress. */
  datatype Task = Task(running: bool, owner: Maybe<nat>, beat: nat, ended: nat)

  /** One thread's own view: whether it still runs, whether its beat still found the task its own, the databases left
      out when its pass began, what it has planned and not written, and whether it has passed the last check before the
      job is made Ready. */
  datatype Thread = Thread(alive: bool, held: bool, known: set<Database>, todo: map<Unit, set<Line>>, checked: bool)

  datatype Commit = Commit(owner: nat, lines: map<Unit, set<Line>>)

  /** chosen are the units the job was made of; leftOut the databases left out since; rows its control rows, by
      database; threads all that ever claimed its task, by token; commits the write transactions committed so far. */
  datatype State = State(now: nat, task: Task, stopped: bool, ready: bool, deleted: bool, chosen: set<Unit>,
                         leftOut: set<Database>, rows: map<Database, set<Line>>, threads: map<nat, Thread>,
                         commits: seq<Commit>)

  /** A job just recorded: nothing written, no thread on its task. */
  ghost predicate Created(s: State) {
    && s.rows == map[] && s.threads == map[] && s.commits == [] && s.leftOut == {}
    && s.task.owner == None && s.task.beat <= s.now && s.task.ended <= s.now
    && !s.stopped && !s.ready && !s.deleted
  }

  datatype Step =
    | Tick(seconds: nat)
    | Claim(token: nat, backoff: nat)
    | Beat(token: nat)
    | Begin(token: nat)
    | Plan(token: nat, plan: map<Unit, set<Line>>)
    | Write(token: nat, chunk: set<Unit>)
    | SetAside(token: nat, chunk: set<Unit>)
    | Check(token: nat)
    | MakeReady(token: nat)
    | RefusedStop(token: nat)
    | Finish(token: nat)
    | Die(token: nat)
    | Stop
    | Again
    | Delete
    | Restore
    | LeaveOut(databases: set<Database>)

  /** The task may be claimed: running with no owner yet or a stale heartbeat, or ended longer ago than the backoff. */
  predicate Claimable(task: Task, now: nat, backoff: nat) {
    if task.running then task.owner == None || task.beat + STALE < now else task.ended + backoff < now
  }

  predicate Holds(s: State, token: nat) {
    s.task.running && s.task.owner == Some(token)
  }

  /** What every write transaction checks first: this thread holds the task, and the job still prepares. */
  predicate Fence(s: State, token: nat) {
    Holds(s, token) && !s.deleted && !s.stopped && !s.ready
  }

  predicate Alive(s: State, token: nat) {
    token in s.threads && s.threads[token].alive
  }

  /** The thread is still planning and writing: it has not passed its last check. */
  predicate AtWork(s: State, token: nat) {
    Alive(s, token) && !s.threads[token].checked
  }

  /** A unit may be planned: chosen, its database not written yet and not left out when the pass began. */
  predicate Plannable(s: State, token: nat, u: Unit)
    requires token in s.threads
  {
    u in s.chosen && u.database !in s.rows && u.database !in s.threads[token].known
  }

  ghost predicate Enabled(s: State, step: Step) {
    match step
    case Tick(_) => true
    case Claim(token, backoff) => token !in s.threads && Claimable(s.task, s.now, backoff)
    case Beat(token) => Alive(s, token)
    case Begin(token) => AtWork(s, token)
    case Plan(token, plan) => AtWork(s, token) && forall u :: u in plan ==> Plannable(s, token, u) && plan[u] != {}
    case Write(token, chunk) =>
      AtWork(s, token) && chunk != {} && chunk <= s.threads[token].todo.Keys && Fence(s, token)
    case SetAside(token, chunk) => AtWork(s, token)
    case Check(token) => AtWork(s, token) && s.threads[token].held && !s.deleted && !s.stopped && !s.ready
    case MakeReady(token) => Alive(s, token) && s.threads[token].checked
    case RefusedStop(token) => Alive(s, token)
    case Finish(token) => Alive(s, token)
    case Die(token) => Alive(s, token)
    case Stop => true
    case Again => true
    case Delete => !s.deleted
    case Restore => s.deleted
    case LeaveOut(_) => !s.deleted && !s.ready
  }

  function Of(todo: map<Unit, set<Line>>, chunk: set<Unit>): map<Unit, set<Line>> {
    map u | u in todo && u in chunk :: todo[u]
  }

  function Without(todo: map<Unit, set<Line>>, chunk: set<Unit>): map<Unit, set<Line>> {
    map u | u in todo && u !in chunk :: todo[u]
  }

  function Databases(lines: map<Unit, set<Line>>): set<Database> {
    set u | u in lines :: u.database
  }

  /** The lines of a database, under all its spellings. */
  function LinesOf(lines: map<Unit, set<Line>>, d: Database): set<Line> {
    set u, line | u in lines && u.database == d && line in lines[u] :: line
  }

  /** The rows once some lines are written: those a database has stay, and those it does not have yet are added. */
  function Added(rows: map<Database, set<Line>>, lines: map<Unit, set<Line>>): map<Database, set<Line>> {
    map d | d in rows.Keys + Databases(lines) :: (if d in rows then rows[d] else {}) + LinesOf(lines, d)
  }

  function Ended(task: Task, now: nat): Task {
    if task.running then task.(running := false, ended := now) else task
  }

  /** The thread runs no more: it ended, raised, or its instance died. */
  function Gone(s: State, token: nat): State {
    s.(threads := s.threads[token := Thread(false, false, {}, map[], false)])
  }

  ghost function Apply(s: State, step: Step): State
    requires Enabled(s, step)
  {
    match step
    case Tick(seconds) => s.(now := s.now + seconds)
    case Claim(token, _) =>
      s.(task := Task(true, Some(token), s.now, s.task.ended),
         threads := s.threads[token := Thread(true, true, s.leftOut, map[], false)])
    case Beat(token) =>
      if Holds(s, token) then s.(task := s.task.(beat := s.now))
      else s.(threads := s.threads[token := s.threads[token].(held := false)])
    case Begin(token) => s.(threads := s.threads[token := s.threads[token].(known := s.leftOut, todo := map[])])
    case Plan(token, plan) => s.(threads := s.threads[token := s.threads[token].(todo := plan)])
    case Write(token, chunk) =>
      var thread := s.threads[token];
      var lines := Of(thread.todo, chunk);
      s.(rows := Added(s.rows, lines),
         threads := s.threads[token := thread.(todo := Without(thread.todo, chunk))],
         commits := s.commits + [Commit(token, lines)])
    case SetAside(token, chunk) =>
      var thread := s.threads[token];
      s.(threads := s.threads[token := thread.(todo := Without(thread.todo, chunk))])
    case Check(token) => s.(threads := s.threads[token := s.threads[token].(checked := true)])
    case MakeReady(token) => s.(ready := true, threads := s.threads[token := s.threads[token].(checked := false)])
    case RefusedStop(_) => s.(stopped := true)
    case Finish(token) =>
      var after := Gone(s, token);
      if Holds(s, token) then after.(task := Ended(s.task, s.now)) else after
    case Die(token) => Gone(s, token)
    case Stop => s.(stopped := true, task := Ended(s.task, s.now))
    case Again => s.(stopped := false)
    case Delete => s.(deleted := true)
    case Restore => s.(deleted := false)
    case LeaveOut(databases) => s.(leftOut := s.leftOut + databases)
  }

  // ---- runs ---------------------------------------------------------------------------------------------------------

  ghost predicate Runs(s: State, steps: seq<Step>)
    decreases |steps|
  {
    steps == [] || (Enabled(s, steps[0]) && Runs(Apply(s, steps[0]), steps[1..]))
  }

  ghost function After(s: State, steps: seq<Step>): State
    requires Runs(s, steps)
    decreases |steps|
  {
    if steps == [] then s else After(Apply(s, steps[0]), steps[1..])
  }

  ghost predicate Reachable(s: State) {
    exists start, steps :: Created(start) && Runs(start, steps) && After(start, steps) == s
  }

  // ---- what every step keeps ----------------------------------------------------------------------------------------

  /** The units of the first n commits. */
  ghost function Committed(commits: seq<Commit>, n: nat): set<Unit>
    requires n <= |commits|
  {
    if n == 0 then {} else Committed(commits, n - 1) + commits[n - 1].lines.Keys
  }

  ghost function CommittedIn(s: State): set<Unit> {
    Committed(s.commits, |s.commits|)
  }

  /** The rows the first n commits leave. */
  ghost function Written(commits: seq<Commit>, n: nat): map<Database, set<Line>>
    requires n <= |commits|
  {
    if n == 0 then map[] else Added(Written(commits, n - 1), commits[n - 1].lines)
  }

  /** No unit was committed before. */
  ghost predicate Once(commits: seq<Commit>) {
    forall i {:trigger Committed(commits, i)} :: 0 <= i < |commits| ==> commits[i].lines.Keys !! Committed(commits, i)
  }

  /** The task's owner has planned nothing that is committed. */
  ghost predicate OwnerIsFresh(s: State) {
    s.task.owner.Some? ==>
      && s.task.owner.value in s.threads
      && s.threads[s.task.owner.value].todo.Keys !! CommittedIn(s)
  }

  predicate ThreadIsRight(s: State, token: nat)
    requires token in s.threads
  {
    s.threads[token].todo.Keys <= s.chosen && s.threads[token].known <= s.leftOut
  }

  ghost predicate ThreadsAreRight(s: State) {
    forall token :: token in s.threads ==> ThreadIsRight(s, token)
  }

  /** A committed unit is one chosen, and its database has rows. */
  ghost predicate CommitsAreChosen(s: State) {
    forall u :: u in CommittedIn(s) ==> u in s.chosen && u.database in s.rows
  }

  ghost predicate Inv(s: State) {
    && s.task.beat <= s.now && s.task.ended <= s.now
    && OwnerIsFresh(s) && ThreadsAreRight(s) && CommitsAreChosen(s) && Once(s.commits)
    && s.rows == Written(s.commits, |s.commits|)
  }

  lemma CreatedKeepsInv(s: State)
    requires Created(s)
    ensures Inv(s)
  {
  }

  lemma {:induction false} CommittedBefore(commits: seq<Commit>, more: Commit, n: nat)
    requires n <= |commits|
    ensures Committed(commits + [more], n) == Committed(commits, n)
    decreases n
  {
    if n > 0 {
      CommittedBefore(commits, more, n - 1);
    }
  }

  lemma {:induction false} WrittenBefore(commits: seq<Commit>, more: Commit, n: nat)
    requires n <= |commits|
    ensures Written(commits + [more], n) == Written(commits, n)
    decreases n
  {
    if n > 0 {
      WrittenBefore(commits, more, n - 1);
      assert (commits + [more])[n - 1] == commits[n - 1];
    }
  }

  lemma WrittenMore(commits: seq<Commit>, more: Commit)
    ensures Written(commits + [more], |commits| + 1) == Added(Written(commits, |commits|), more.lines)
  {
    WrittenBefore(commits, more, |commits|);
  }

  lemma OnceMore(commits: seq<Commit>, more: Commit)
    requires Once(commits) && more.lines.Keys !! Committed(commits, |commits|)
    ensures Once(commits + [more])
    ensures Committed(commits + [more], |commits| + 1) == Committed(commits, |commits|) + more.lines.Keys
  {
    var all := commits + [more];
    CommittedBefore(commits, more, |commits|);
    forall i {:trigger Committed(all, i)} | 0 <= i < |all| ensures all[i].lines.Keys !! Committed(all, i) {
      CommittedBefore(commits, more, i);
      if i < |commits| {
        assert all[i] == commits[i] && commits[i].lines.Keys !! Committed(commits, i);
      }
    }
  }

  lemma WriteKeepsInv(s: State, token: nat, chunk: set<Unit>)
    requires Inv(s) && Enabled(s, Write(token, chunk))
    ensures Inv(Apply(s, Write(token, chunk)))
  {
    var lines, after := Of(s.threads[token].todo, chunk), Apply(s, Write(token, chunk));
    WriteCommits(s, token, chunk);
    RowsStayWritten(s, token, chunk);
    CommittedIsChosen(s, after, token, lines);
    WriterStaysRight(s, after, token, chunk);
  }

  lemma WriteCommits(s: State, token: nat, chunk: set<Unit>)
    requires OwnerIsFresh(s) && Once(s.commits) && Enabled(s, Write(token, chunk))
    ensures var after := Apply(s, Write(token, chunk));
            Once(after.commits) && CommittedIn(after) == CommittedIn(s) + Of(s.threads[token].todo, chunk).Keys
  {
    OnceMore(s.commits, Commit(token, Of(s.threads[token].todo, chunk)));
  }

  lemma RowsStayWritten(s: State, token: nat, chunk: set<Unit>)
    requires s.rows == Written(s.commits, |s.commits|) && Enabled(s, Write(token, chunk))
    ensures var after := Apply(s, Write(token, chunk)); after.rows == Written(after.commits, |after.commits|)
  {
    WrittenMore(s.commits, Commit(token, Of(s.threads[token].todo, chunk)));
  }

  lemma CommittedIsChosen(s: State, after: State, token: nat, lines: map<Unit, set<Line>>)
    requires CommitsAreChosen(s) && lines.Keys <= s.chosen && after.chosen == s.chosen
    requires CommittedIn(after) == CommittedIn(s) + lines.Keys && after.rows == Added(s.rows, lines)
    ensures CommitsAreChosen(after)
  {
    AddedHas(s.rows, lines);
  }

  lemma WriterStaysRight(s: State, after: State, token: nat, chunk: set<Unit>)
    requires OwnerIsFresh(s) && ThreadsAreRight(s) && Enabled(s, Write(token, chunk))
            && after == Apply(s, Write(token, chunk))
    requires CommittedIn(after) == CommittedIn(s) + Of(s.threads[token].todo, chunk).Keys
    ensures OwnerIsFresh(after) && ThreadsAreRight(after)
  {
    assert after.threads[token].todo.Keys == s.threads[token].todo.Keys - Of(s.threads[token].todo, chunk).Keys;
    forall t | t in after.threads ensures ThreadIsRight(after, t) { assert ThreadIsRight(s, t); }
  }

  lemma AddedHas(rows: map<Database, set<Line>>, lines: map<Unit, set<Line>>)
    ensures rows.Keys <= Added(rows, lines).Keys
    ensures forall u :: u in lines ==> u.database in Added(rows, lines)
  {
    forall u | u in lines ensures u.database in Added(rows, lines) { assert u.database in Databases(lines); }
  }

  lemma PlanKeepsInv(s: State, token: nat, plan: map<Unit, set<Line>>)
    requires Inv(s) && Enabled(s, Plan(token, plan))
    ensures Inv(Apply(s, Plan(token, plan)))
  {
    var after := Apply(s, Plan(token, plan));
    assert CommittedIn(after) == CommittedIn(s);
    forall u | u in plan ensures u in s.chosen { assert Plannable(s, token, u); }
    forall t | t in after.threads ensures ThreadIsRight(after, t) { assert ThreadIsRight(s, t); }
    forall u | u in plan ensures u !in CommittedIn(s) { assert Plannable(s, token, u); }
  }

  /** A step that writes nothing leaves the commits, the rows and the choice as they are. */
  lemma OthersCommitNothing(s: State, step: Step)
    requires Enabled(s, step) && !step.Write?
    ensures var after := Apply(s, step);
            && after.commits == s.commits && after.rows == s.rows && after.chosen == s.chosen
                && s.leftOut <= after.leftOut
  {
    match step
    case Tick(_) => case Claim(_, _) => case Beat(_) => case Begin(_) => case SetAside(_, _) => case Check(_) =>
    case MakeReady(_) => case RefusedStop(_) => case Finish(_) => case Die(_) => case Plan(_, _) => case _ =>
  }

  /** A step but a plan gives a thread nothing to do, and nothing known but what is left out now. */
  lemma ThreadIsNoMore(s: State, step: Step, token: nat)
    requires Enabled(s, step) && !step.Plan? && token in Apply(s, step).threads
    ensures var after := Apply(s, step).threads[token];
            && after.todo.Keys <= (if token in s.threads then s.threads[token].todo.Keys else {})
            && after.known <= (if token in s.threads then s.threads[token].known else {}) + s.leftOut
  {
  }

  lemma OwnerAfter(s: State, step: Step)
    requires Enabled(s, step)
    ensures var after := Apply(s, step);
            && s.threads.Keys <= after.threads.Keys
            && if step.Claim? then after.task.owner == Some(step.token) && step.token in after.threads
               else after.task.owner == s.task.owner
  {
  }

  lemma OwnerStaysFresh(s: State, step: Step)
    requires Inv(s) && Enabled(s, step) && !step.Write? && !step.Plan?
    ensures OwnerIsFresh(Apply(s, step))
  {
    OthersCommitNothing(s, step);
    assert CommittedIn(Apply(s, step)) == CommittedIn(s);
    OwnerAfter(s, step);
    if Apply(s, step).task.owner.Some? {
      ThreadIsNoMore(s, step, Apply(s, step).task.owner.value);
    }
  }

  lemma ThreadsStayRight(s: State, step: Step)
    requires Inv(s) && Enabled(s, step) && !step.Write? && !step.Plan?
    ensures ThreadsAreRight(Apply(s, step))
  {
    var after := Apply(s, step);
    OthersCommitNothing(s, step);
    forall token | token in after.threads ensures ThreadIsRight(after, token) {
      ThreadIsNoMore(s, step, token);
      assert token in s.threads ==> ThreadIsRight(s, token);
    }
  }

  lemma StepKeepsInv(s: State, step: Step)
    requires Inv(s) && Enabled(s, step)
    ensures Inv(Apply(s, step))
  {
    if step.Write? {
      WriteKeepsInv(s, step.token, step.chunk);
    } else if step.Plan? {
      PlanKeepsInv(s, step.token, step.plan);
    } else {
      OwnerStaysFresh(s, step);
      ThreadsStayRight(s, step);
      ClockStaysRight(s, step);
      OthersCommitNothing(s, step);
      assert CommittedIn(Apply(s, step)) == CommittedIn(s);
    }
  }

  lemma ClockStaysRight(s: State, step: Step)
    requires Enabled(s, step) && s.task.beat <= s.now && s.task.ended <= s.now
    ensures Apply(s, step).task.beat <= Apply(s, step).now && Apply(s, step).task.ended <= Apply(s, step).now
  {
  }

  lemma {:induction false} RunKeepsInv(s: State, steps: seq<Step>)
    requires Inv(s) && Runs(s, steps)
    ensures Inv(After(s, steps))
    decreases |steps|
  {
    if steps != [] {
      StepKeepsInv(s, steps[0]);
      RunKeepsInv(Apply(s, steps[0]), steps[1..]);
    }
  }

  lemma ReachableKeepsInv(s: State)
    requires Reachable(s)
    ensures Inv(s)
  {
    var start, steps :| Created(start) && Runs(start, steps) && After(start, steps) == s;
    CreatedKeepsInv(start);
    RunKeepsInv(start, steps);
  }

  lemma {:induction false} CommittedHas(commits: seq<Commit>, n: nat, i: nat, u: Unit)
    requires i < n <= |commits| && u in commits[i].lines
    ensures u in Committed(commits, n)
    decreases n
  {
    if i < n - 1 {
      CommittedHas(commits, n - 1, i, u);
    }
  }

  lemma CommitsApart(commits: seq<Commit>, i: nat, j: nat, u: Unit)
    requires Once(commits) && i < j < |commits| && u in commits[i].lines
    ensures u !in commits[j].lines
  {
    CommittedHas(commits, j, i, u);
    assert commits[j].lines.Keys !! Committed(commits, j);
  }

  lemma NoOtherCommit(commits: seq<Commit>, i: nat, j: nat, u: Unit)
    requires Once(commits) && i < |commits| && j < |commits| && i != j && u in commits[i].lines
    ensures u !in commits[j].lines
  {
    if i < j {
      CommitsApart(commits, i, j, u);
    } else if u in commits[j].lines {
      CommitsApart(commits, j, i, u);
    }
  }

  /** Some commit of the first n wrote the line for the database. */
  ghost predicate Wrote(commits: seq<Commit>, n: nat, d: Database, line: Line)
    requires n <= |commits|
  {
    exists i, u :: 0 <= i < n && u in commits[i].lines && u.database == d && line in commits[i].lines[u]
  }

  /** The rows are the lines committed, no more and no fewer. */
  lemma {:induction false} RowsAreWrote(commits: seq<Commit>, n: nat, d: Database, line: Line)
    requires n <= |commits|
    ensures d in Written(commits, n) && line in Written(commits, n)[d] <==> Wrote(commits, n, d, line)
    decreases n
  {
    if n > 0 {
      RowsAreWrote(commits, n - 1, d, line);
      var before, lines := Written(commits, n - 1), commits[n - 1].lines;
      assert d in Added(before, lines) && line in Added(before, lines)[d]
             <==> (d in before && line in before[d]) || (exists u :: u in lines && u.database == d && line in lines[u]);
      WroteNext(commits, n, d, line);
    }
  }

  lemma WroteNext(commits: seq<Commit>, n: nat, d: Database, line: Line)
    requires 0 < n <= |commits|
    ensures Wrote(commits, n, d, line)
            <==> (|| Wrote(commits, n - 1, d, line)
                  || exists u :: u in commits[n - 1].lines && u.database == d && line in commits[n - 1].lines[u])
  {
  }

  /** Whatever the instances, crashes and users do, each unit is committed whole and at most once: no two commits have a
      unit in common, and a database's rows are the lines its units were committed with, no more and no fewer. */
  lemma WrittenOnceAndWhole(s: State, d: Database, line: Line)
    requires Reachable(s)
    ensures d in s.rows && line in s.rows[d] <==> Wrote(s.commits, |s.commits|, d, line)
    ensures forall i, j, u :: 0 <= i < |s.commits| && 0 <= j < |s.commits| && i != j && u in s.commits[i].lines ==>
              u !in s.commits[j].lines
  {
    ReachableKeepsInv(s);
    RowsAreWrote(s.commits, |s.commits|, d, line);
    forall i, j, u | 0 <= i < |s.commits| && 0 <= j < |s.commits| && i != j && u in s.commits[i].lines
      ensures u !in s.commits[j].lines
    {
      NoOtherCommit(s.commits, i, j, u);
    }
  }

  /** The choice spells the unit's database one way only. */
  ghost predicate OneSpelling(chosen: set<Unit>, u: Unit) {
    forall v :: v in chosen && v.database == u.database ==> v == u
  }

  /** So a database the choice spells one way is committed whole and at most once: its rows are its one commit's
      lines. */
  lemma OneSpellingIsWhole(s: State, i: nat, u: Unit)
    requires Reachable(s) && i < |s.commits| && u in s.commits[i].lines && OneSpelling(s.chosen, u)
    ensures u.database in s.rows && s.rows[u.database] == s.commits[i].lines[u]
    ensures forall j, v :: 0 <= j < |s.commits| && v in s.commits[j].lines && v.database == u.database ==>
              j == i && v == u
  {
    ReachableKeepsInv(s);
    CommittedHas(s.commits, |s.commits|, i, u);
    forall j, v | 0 <= j < |s.commits| && v in s.commits[j].lines && v.database == u.database ensures j == i && v == u {
      CommittedHas(s.commits, |s.commits|, j, v);
      if j != i {
        NoOtherCommit(s.commits, i, j, u);
      }
    }
    forall line ensures line in s.rows[u.database] <==> line in s.commits[i].lines[u] {
      RowsAreWrote(s.commits, |s.commits|, u.database, line);
    }
  }

  // ---- what a Stop and a Delete hold back ---------------------------------------------------------------------------

  ghost predicate NoneOf(steps: seq<Step>, kept: Step) {
    forall i :: 0 <= i < |steps| ==> steps[i] != kept
  }

  /** After Stop commits nothing is written until Prepare again. */
  lemma {:induction false} NothingAfterStop(s: State, steps: seq<Step>)
    requires s.stopped && Runs(s, steps) && NoneOf(steps, Again)
    ensures After(s, steps).commits == s.commits && After(s, steps).rows == s.rows && After(s, steps).stopped
    decreases |steps|
  {
    if steps != [] {
      assert forall i :: 0 <= i < |steps| - 1 ==> steps[1..][i] == steps[i + 1];
      NothingAfterStop(Apply(s, steps[0]), steps[1..]);
    }
  }

  /** After Delete commits nothing is written until Restore. */
  lemma {:induction false} NothingAfterDelete(s: State, steps: seq<Step>)
    requires s.deleted && Runs(s, steps) && NoneOf(steps, Restore)
    ensures After(s, steps).commits == s.commits && After(s, steps).rows == s.rows && After(s, steps).deleted
    decreases |steps|
  {
    if steps != [] {
      assert forall i :: 0 <= i < |steps| - 1 ==> steps[1..][i] == steps[i + 1];
      NothingAfterDelete(Apply(s, steps[0]), steps[1..]);
    }
  }

  /** Once Ready, the task writes nothing more. */
  lemma {:induction false} NothingAfterReady(s: State, steps: seq<Step>)
    requires s.ready && Runs(s, steps)
    ensures After(s, steps).commits == s.commits && After(s, steps).rows == s.rows && After(s, steps).ready
    decreases |steps|
  {
    if steps != [] {
      NothingAfterReady(Apply(s, steps[0]), steps[1..]);
    }
  }

  // ---- and that nothing else does -----------------------------------------------------------------------------------

  lemma RunsOn(s: State, first: Step, rest: seq<Step>)
    requires Enabled(s, first) && Runs(Apply(s, first), rest)
    ensures Runs(s, [first] + rest) && After(s, [first] + rest) == After(Apply(s, first), rest)
  {
    assert ([first] + rest)[1..] == rest;
  }

  /** The steps that write one unit from here: a restore if the job is deleted, time for a dead thread's beat to go
      stale, then a thread's claim, plan and write. */
  ghost function Recovery(s: State, token: nat, u: Unit, lines: set<Line>): seq<Step> {
    (if s.deleted then [Restore] else [])
    + [Tick(STALE + 1), Claim(token, 0), Plan(token, map[u := lines]), Write(token, {u})]
  }

  /** A job that still prepares can always go on, whatever instances died where: any database it was made of, that was
      read and is neither written nor left out, can still be written, without Prepare again. */
  lemma PreparingCanGoOn(s: State, token: nat, u: Unit, lines: set<Line>)
    requires Reachable(s) && !s.stopped && !s.ready && token !in s.threads
    requires u in s.chosen && u.database !in s.rows && u.database !in s.leftOut && lines != {}
    ensures var steps := Recovery(s, token, u, lines);
            && Runs(s, steps) && NoneOf(steps, Again)
            && u.database in After(s, steps).rows && After(s, steps).rows[u.database] == lines
            && After(s, steps).commits == s.commits + [Commit(token, map[u := lines])]
  {
    ReachableKeepsInv(s);
    var live := s.(deleted := false);
    var rest := [Tick(STALE + 1), Claim(token, 0), Plan(token, map[u := lines]), Write(token, {u})];
    ClaimedWrites(live, token, u, lines);
    if s.deleted {
      RunsOn(s, Restore, rest);
      assert [Restore] + rest == Recovery(s, token, u, lines);
    } else {
      assert [] + rest == rest;
    }
  }

  lemma ClaimedWrites(s: State, token: nat, u: Unit, lines: set<Line>)
    requires s.task.beat <= s.now && s.task.ended <= s.now
    requires !s.stopped && !s.ready && !s.deleted && token !in s.threads
    requires u in s.chosen && u.database !in s.rows && u.database !in s.leftOut && lines != {}
    ensures var steps := [Tick(STALE + 1), Claim(token, 0), Plan(token, map[u := lines]), Write(token, {u})];
            && Runs(s, steps) && u.database in After(s, steps).rows && After(s, steps).rows[u.database] == lines
            && After(s, steps).commits == s.commits + [Commit(token, map[u := lines])]
  {
    var plan := map[u := lines];
    var s1 := Apply(s, Tick(STALE + 1));
    var s2 := Apply(s1, Claim(token, 0));
    assert Plannable(s2, token, u);
    var s3 := Apply(s2, Plan(token, plan));
    PlanIsWritten(s3, token, u, lines);
    assert Runs(Apply(s3, Write(token, {u})), []);
    RunsOn(s3, Write(token, {u}), []);
    assert [Write(token, {u})] + [] == [Write(token, {u})];
    RunsOn(s2, Plan(token, plan), [Write(token, {u})]);
    TwoThen(s, Tick(STALE + 1), Claim(token, 0), [Plan(token, plan), Write(token, {u})]);
  }

  lemma PlanIsWritten(s: State, token: nat, u: Unit, lines: set<Line>)
    requires Enabled(s, Write(token, {u})) && s.threads[token].todo == map[u := lines] && u.database !in s.rows
    ensures var after := Apply(s, Write(token, {u}));
            && u.database in after.rows && after.rows[u.database] == lines
            && after.commits == s.commits + [Commit(token, map[u := lines])]
  {
    var plan := map[u := lines];
    assert Of(plan, {u}) == plan && Databases(plan) == {u.database} && LinesOf(plan, u.database) == lines;
  }

  lemma TwoThen(s: State, first: Step, second: Step, rest: seq<Step>)
    requires Enabled(s, first) && Enabled(Apply(s, first), second) && Runs(Apply(Apply(s, first), second), rest)
    ensures Runs(s, [first, second] + rest)
    ensures After(s, [first, second] + rest) == After(Apply(Apply(s, first), second), rest)
  {
    RunsOn(Apply(s, first), second, rest);
    RunsOn(s, first, [second] + rest);
    assert [first] + ([second] + rest) == [first, second] + rest;
  }

  /** A write can commit with no Prepare again first. */
  ghost predicate MayStillWrite(s: State) {
    exists steps :: Runs(s, steps) && NoneOf(steps, Again) && After(s, steps).commits != s.commits
  }

  lemma NewToken(tokens: set<nat>) returns (token: nat)
    ensures token !in tokens
  {
    if tokens == {} {
      token := 0;
    } else {
      var most := Most(tokens);
      token := most + 1;
    }
  }

  lemma Most(tokens: set<nat>) returns (most: nat)
    requires tokens != {}
    ensures most in tokens && forall t :: t in tokens ==> t <= most
    decreases |tokens|
  {
    most :| most in tokens;
    var rest := tokens - {most};
    if rest != {} {
      var other := Most(rest);
      most := if other > most then other else most;
    }
    assert tokens == rest + (tokens - rest);
  }

  /** Its task's owner is still at work. */
  predicate OwnerWorks(s: State) {
    s.task.running && s.task.owner.Some? && AtWork(s, s.task.owner.value)
  }

  /** And has planned the unit. */
  predicate Planned(s: State, u: Unit) {
    OwnerWorks(s) && u in s.threads[s.task.owner.value].todo
  }

  /** Something chosen is neither written nor left out, or its owner has something planned, or may plan what was left
      out since its pass began. */
  ghost predicate LeftToWrite(s: State) {
    || (exists u :: u in s.chosen && u.database !in s.rows && u.database !in s.leftOut)
    || (exists u :: Planned(s, u))
    || (OwnerWorks(s) && exists u :: Plannable(s, s.task.owner.value, u))
  }

  /** A job with nothing left to write writes nothing, whatever its threads do. */
  lemma {:induction false} NothingLeft(s: State, steps: seq<Step>)
    requires Inv(s) && (s.ready || !LeftToWrite(s)) && Runs(s, steps)
    ensures After(s, steps).commits == s.commits
    decreases |steps|
  {
    if steps != [] {
      StepKeepsInv(s, steps[0]);
      NothingLeftStep(s, steps[0]);
      NothingLeft(Apply(s, steps[0]), steps[1..]);
    }
  }

  lemma NothingLeftStep(s: State, step: Step)
    requires Inv(s) && (s.ready || !LeftToWrite(s)) && Enabled(s, step)
    ensures Apply(s, step).commits == s.commits && (Apply(s, step).ready || !LeftToWrite(Apply(s, step)))
  {
    if step.Write? {
      WritesWhatIsLeft(s, step);
    }
    OthersCommitNothing(s, step);
    var after := Apply(s, step);
    if !after.ready {
      forall u ensures !Planned(after, u) { NoneIsPlannedAfter(s, step, u); }
      forall u | OwnerWorks(after)
        ensures !Plannable(after, after.task.owner.value, u) { NoneIsPlannableAfter(s, step, u); }
    }
  }

  lemma WritesWhatIsLeft(s: State, step: Step)
    requires Enabled(s, step) && step.Write?
    ensures !s.ready && LeftToWrite(s)
  {
    var u :| u in step.chunk;
    assert Planned(s, u);
  }

  lemma NoneIsPlannedAfter(s: State, step: Step, u: Unit)
    requires Inv(s) && !s.ready && !LeftToWrite(s) && Enabled(s, step) && !step.Write? && !step.MakeReady?
    ensures !Planned(Apply(s, step), u)
  {
    assert !Planned(s, u);
    assert OwnerWorks(s) ==> !Plannable(s, s.task.owner.value, u);
  }

  lemma NoneIsPlannableAfter(s: State, step: Step, u: Unit)
    requires Inv(s) && !s.ready && !LeftToWrite(s) && Enabled(s, step) && !step.Write? && !step.MakeReady?
    requires OwnerWorks(Apply(s, step))
    ensures !Plannable(Apply(s, step), Apply(s, step).task.owner.value, u)
  {
    assert OwnerWorks(s) ==> !Plannable(s, s.task.owner.value, u);
    assert u in s.chosen && u.database !in s.rows ==> u.database in s.leftOut;
  }

  lemma PlannedWrites(s: State, u: Unit)
    requires Planned(s, u) && !s.stopped && !s.ready
    ensures exists steps :: Runs(s, steps) && NoneOf(steps, Again)
                            && After(s, steps).commits == s.commits + [Commit(s.task.owner.value, Of(Todo(s), {u}))]
  {
    var token := s.task.owner.value;
    var write := Write(token, {u});
    if s.deleted {
      var live := Apply(s, Restore);
      assert Runs(Apply(live, write), []);
      RunsOn(live, write, []);
      assert [write] + [] == [write];
      RunsOn(s, Restore, [write]);
      assert NoneOf([Restore] + [write], Again);
    } else {
      assert Runs(Apply(s, write), []);
      RunsOn(s, write, []);
      assert NoneOf([write] + [], Again);
    }
  }

  ghost function Todo(s: State): map<Unit, set<Line>>
    requires OwnerWorks(s)
  {
    s.threads[s.task.owner.value].todo
  }

  /** The job, deleted or not, holds back every write until Prepare again exactly when it is stopped, Ready, or has
      nothing left to write. A Delete stops it first, so for a job with something left this is broken only by a Prepare
      again between the two transactions of a Delete. */
  lemma HeldBackExactly(s: State)
    requires Reachable(s)
    ensures MayStillWrite(s) <==> !s.stopped && !s.ready && LeftToWrite(s)
  {
    ReachableKeepsInv(s);
    if s.stopped || s.ready || !LeftToWrite(s) {
      forall steps | Runs(s, steps) && NoneOf(steps, Again) ensures After(s, steps).commits == s.commits {
        if s.stopped {
          NothingAfterStop(s, steps);
        } else {
          NothingLeft(s, steps);
        }
      }
    } else {
      LeftIsWritten(s);
    }
  }

  lemma LeftIsWritten(s: State)
    requires Reachable(s) && !s.stopped && !s.ready && LeftToWrite(s)
    ensures MayStillWrite(s)
  {
    if u :| u in s.chosen && u.database !in s.rows && u.database !in s.leftOut {
      var token := NewToken(s.threads.Keys);
      PreparingCanGoOn(s, token, u, {"t"});
    } else if u :| Planned(s, u) {
      PlannedWrites(s, u);
    } else {
      var token := s.task.owner.value;
      var u :| Plannable(s, token, u);
      var plan := Plan(token, map[u := {"t"}]);
      PlannedWrites(Apply(s, plan), u);
      var steps :| Runs(Apply(s, plan), steps) && NoneOf(steps, Again)
                   && After(Apply(s, plan), steps).commits != s.commits;
      RunsOn(s, plan, steps);
      assert NoneOf([plan] + steps, Again);
    }
  }

  // ---- a database spelled two ways ----------------------------------------------------------------------------------

  /** The unit's database is taken for written, and no thread that may write has it planned. */
  ghost predicate Missed(s: State, u: Unit) {
    u.database in s.rows && u !in CommittedIn(s) && (s.ready || !Planned(s, u))
  }

  lemma MissedStep(s: State, step: Step, u: Unit)
    requires Enabled(s, step) && Missed(s, u)
    ensures Missed(Apply(s, step), u)
  {
    if step.Write? {
      MissedWrite(s, step.token, step.chunk, u);
    } else {
      OthersCommitNothing(s, step);
      assert CommittedIn(Apply(s, step)) == CommittedIn(s);
      assert step.Plan? && u in step.plan ==> Plannable(s, step.token, u);
    }
  }

  lemma MissedWrite(s: State, token: nat, chunk: set<Unit>, u: Unit)
    requires Enabled(s, Write(token, chunk)) && Missed(s, u)
    ensures Missed(Apply(s, Write(token, chunk)), u)
  {
    var lines := Of(s.threads[token].todo, chunk);
    assert u !in lines;
    CommittedBefore(s.commits, Commit(token, lines), |s.commits|);
    AddedHas(s.rows, lines);
  }

  lemma {:induction false} MissedForGood(s: State, steps: seq<Step>, u: Unit)
    requires Runs(s, steps) && Missed(s, u)
    ensures u !in CommittedIn(After(s, steps))
    decreases |steps|
  {
    if steps != [] {
      MissedStep(s, steps[0], u);
      MissedForGood(Apply(s, steps[0]), steps[1..], u);
    }
  }

  /** Once a database has rows, the lines of another spelling of it can still be written exactly when the thread that
      holds the task has planned them: no later plan takes them up. */
  lemma SecondSpellingExactly(s: State, u: Unit)
    requires u.database in s.rows && u !in CommittedIn(s)
    ensures (exists steps :: Runs(s, steps) && u in CommittedIn(After(s, steps))) <==> !s.ready && Planned(s, u)
  {
    if s.ready || !Planned(s, u) {
      forall steps | Runs(s, steps) ensures u !in CommittedIn(After(s, steps)) { MissedForGood(s, steps, u); }
    } else {
      var live := Apply(s, Again);
      PlannedWrites(live, u);
      var steps :| Runs(live, steps)
                   && After(live, steps).commits == s.commits + [Commit(s.task.owner.value, Of(Todo(live), {u}))];
      CommittedBefore(s.commits, Commit(s.task.owner.value, Of(Todo(live), {u})), |s.commits|);
      assert u in CommittedIn(After(live, steps));
      RunsOn(s, Again, steps);
    }
  }

  lemma FirstIsWritten(s: State, token: nat, u: Unit, lines: set<Line>)
    requires Enabled(s, Write(token, {u})) && s.threads[token].todo[u] == lines && s.rows == map[] && s.commits == []
    ensures var after := Apply(s, Write(token, {u}));
            after.rows == map[u.database := lines] && CommittedIn(after) == {u}
  {
    var written := Of(s.threads[token].todo, {u});
    assert written == map[u := lines];
    assert Databases(written) == {u.database} && LinesOf(written, u.database) == lines;
    var rows := Added(s.rows, written);
    assert rows.Keys == {u.database} && rows[u.database] == lines;
    assert Committed([Commit(token, written)], 0) == {};
    assert s.commits + [Commit(token, written)] == [Commit(token, written)];
  }

  /** A thread that dies between the transactions of two spellings of a database leaves the second never written, while
      the job goes on and takes the database for written. */
  lemma SecondSpellingIsLost(start: State, token: nat, u: Unit, v: Unit, first: set<Line>, second: set<Line>)
    requires Created(start) && {u, v} <= start.chosen && u != v && u.database == v.database
    requires first != {} && second != {}
    ensures var plan := map[u := first, v := second];
            var steps := [Tick(STALE + 1), Claim(token, 0)] + ([Plan(token, plan), Write(token, {u})] + [Die(token)]);
            && Runs(start, steps) && u.database in After(start, steps).rows
            && After(start, steps).rows[u.database] == first && !After(start, steps).ready
            && forall more :: Runs(After(start, steps), more) ==> v !in CommittedIn(After(After(start, steps), more))
  {
    var plan := map[u := first, v := second];
    var s2 := Apply(Apply(start, Tick(STALE + 1)), Claim(token, 0));
    assert Plannable(s2, token, u) && Plannable(s2, token, v);
    var s3 := Apply(s2, Plan(token, plan));
    var s4 := Apply(s3, Write(token, {u}));
    var s5 := Apply(s4, Die(token));
    FirstIsWritten(s3, token, u, first);
    assert Runs(s5, []);
    RunsOn(s4, Die(token), []);
    assert [Die(token)] + [] == [Die(token)];
    TwoThen(s2, Plan(token, plan), Write(token, {u}), [Die(token)]);
    TwoThen(start, Tick(STALE + 1), Claim(token, 0), [Plan(token, plan), Write(token, {u})] + [Die(token)]);
    forall more | Runs(s5, more) ensures v !in CommittedIn(After(s5, more)) { MissedForGood(s5, more, v); }
  }

  /** Prepare again between a Delete's Stop and the Delete itself: the job is deleted and not stopped, so a Restore is
      all it takes for it to write on. */
  lemma DeletedAndNotStopped(start: State)
    requires Created(start) && start.chosen != {}
    ensures var steps := [Stop, Again, Delete];
            Runs(start, steps) && After(start, steps).deleted && MayStillWrite(After(start, steps))
  {
    var s1 := Apply(start, Stop);
    var s2 := Apply(s1, Again);
    var s3 := Apply(s2, Delete);
    assert Runs(s3, []);
    RunsOn(s2, Delete, []);
    RunsOn(s1, Again, [Delete]);
    RunsOn(start, Stop, [Again, Delete]);
    assert [Delete] + [] == [Delete] && [Again] + [Delete] == [Again, Delete]
        && [Stop] + [Again, Delete] == [Stop, Again, Delete];
    assert Reachable(s3);
    HeldBackExactly(s3);
  }

  // ---- the last step is not fenced ----------------------------------------------------------------------------------

  /** A thread that still runs has passed its last check. */
  ghost predicate Checked(s: State) {
    exists token :: Alive(s, token) && s.threads[token].checked
  }

  ghost predicate MayStillBeReady(s: State) {
    exists steps :: Runs(s, steps) && NoneOf(steps, Again) && After(s, steps).ready
  }

  lemma {:induction false} StaysUnready(s: State, steps: seq<Step>)
    requires s.stopped && !s.ready && !Checked(s) && Runs(s, steps) && NoneOf(steps, Again)
    ensures !After(s, steps).ready
    decreases |steps|
  {
    if steps != [] {
      assert forall i :: 0 <= i < |steps| - 1 ==> steps[1..][i] == steps[i + 1];
      UncheckedStep(s, steps[0]);
      StaysUnready(Apply(s, steps[0]), steps[1..]);
    }
  }

  lemma UncheckedStep(s: State, step: Step)
    requires s.stopped && !s.ready && !Checked(s) && Enabled(s, step) && step != Again
    ensures var after := Apply(s, step); after.stopped && !after.ready && !Checked(after)
  {
  }

  /** A stopped job is made Ready all the same exactly when a thread that still runs passed its last check before the
      Stop: the last step checks neither the Stop nor who holds the task. */
  lemma StoppedYetReady(s: State)
    requires s.stopped && !s.ready
    ensures MayStillBeReady(s) <==> Checked(s)
  {
    if Checked(s) {
      var token :| Alive(s, token) && s.threads[token].checked;
      assert Runs(Apply(s, MakeReady(token)), []);
      RunsOn(s, MakeReady(token), []);
      assert NoneOf([MakeReady(token)] + [], Again);
    } else {
      forall steps | Runs(s, steps) && NoneOf(steps, Again) ensures !After(s, steps).ready { StaysUnready(s, steps); }
    }
  }
}
