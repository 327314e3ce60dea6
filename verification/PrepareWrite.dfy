/** _prepare_write and _write_chunk in app/src/main.py: the planned databases written transaction by transaction, a
    refused one rolled back and tried again one database at a time.

    The class keeps what the database holds (its rows and the task's progress), what the thread counts, and a log of the
    transactions attempted with how each was answered. The answers are given from outside: Postgres, the checks and the
    fence may refuse, stop or fail any of them. What a finished write has done is then read off the log. */
module PrepareWrite {
  import opened Text
  import opened Packing

  /** What Postgres and the checks say to one transaction. A refusal or a failure comes before the task's state counts
      the transaction (early) or after. */
  datatype Answer =
    | Commits
    | Refuses(late: bool)
    | RefusesWhileRunning(late: bool)
    | Stops
    | Fails(late: bool)

  datatype Attempt = Attempt(chunk: seq<Checked>, answer: Answer)

  /** How a write ends: with the databases it sets aside, or raised (stopped, refused as a whole, or failed). */
  datatype Outcome = Done(found: seq<Checked>) | Raised

  /** The databases of the first n transactions that committed, in order. */
  function Committed(attempts: seq<Attempt>, n: nat): seq<Checked>
    requires n <= |attempts|
  {
    if n == 0 then [] else
      Committed(attempts, n - 1) + if attempts[n - 1].answer.Commits? then attempts[n - 1].chunk else []
  }

  /** The databases refused in a transaction of their own. */
  function Alone(attempts: seq<Attempt>, n: nat): seq<Checked>
    requires n <= |attempts|
  {
    if n == 0 then [] else
      Alone(attempts, n - 1) +
      if attempts[n - 1].answer.Refuses? && |attempts[n - 1].chunk| == 1 then attempts[n - 1].chunk else []
  }

  function Lines(done: seq<Checked>, n: nat): nat
    requires n <= |done|
  {
    if n == 0 then 0 else Lines(done, n - 1) + |done[n - 1].lines|
  }

  /** A database as the choice spells it: its server and its name. */
  type Key = (string, string)

  type Rows = map<Key, set<string>>

  function KeyOf(c: Checked): Key {
    (c.server, c.database)
  }

  /** A database's rows with the lines it does not have yet. */
  function AddedOne(rows: Rows, c: Checked): Rows {
    rows[KeyOf(c) := (if KeyOf(c) in rows then rows[KeyOf(c)] else {}) + (set line | line in c.lines)]
  }

  function Added(rows: Rows, done: seq<Checked>, n: nat): Rows
    requires n <= |done|
  {
    if n == 0 then rows else AddedOne(Added(rows, done, n - 1), done[n - 1])
  }

  /** The rows once the first n transactions ended: those that committed, added in order to the rows before. */
  function RowsAfter(before: Rows, attempts: seq<Attempt>, n: nat): Rows
    requires n <= |attempts|
  {
    if n == 0 then before
    else if attempts[n - 1].answer.Commits? then
      Added(RowsAfter(before, attempts, n - 1), attempts[n - 1].chunk, |attempts[n - 1].chunk|)
    else RowsAfter(before, attempts, n - 1)
  }

  function LinesAfter(attempts: seq<Attempt>, n: nat): nat
    requires n <= |attempts|
  {
    if n == 0 then 0
    else if attempts[n - 1].answer.Commits? then
      LinesAfter(attempts, n - 1) + Lines(attempts[n - 1].chunk, |attempts[n - 1].chunk|)
    else LinesAfter(attempts, n - 1)
  }

  lemma {:induction false} SameBefore(before: Rows, attempts: seq<Attempt>, more: Attempt, n: nat)
    requires n <= |attempts|
    ensures var all := attempts + [more];
            && Committed(all, n) == Committed(attempts, n) && Alone(all, n) == Alone(attempts, n)
            && RowsAfter(before, all, n) == RowsAfter(before, attempts, n)
                && LinesAfter(all, n) == LinesAfter(attempts, n)
    decreases n
  {
    if n > 0 {
      assert (attempts + [more])[n - 1] == attempts[n - 1];
      SameBefore(before, attempts, more, n - 1);
    }
  }

  /** What one more transaction adds. */
  lemma OneMoreAttempt(before: Rows, attempts: seq<Attempt>, more: Attempt)
    ensures var all, n := attempts + [more], |attempts|;
            var done, alone := Committed(attempts, n), Alone(attempts, n);
            && Committed(all, n + 1) == (if more.answer.Commits? then done + more.chunk else done)
            && Alone(all, n + 1) == (if more.answer.Refuses? && |more.chunk| == 1 then alone + more.chunk else alone)
            && RowsAfter(before, all, n + 1)
               == (if more.answer.Commits? then Added(RowsAfter(before, attempts, n), more.chunk, |more.chunk|)
                   else RowsAfter(before, attempts, n))
            && LinesAfter(all, n + 1)
                == LinesAfter(attempts, n) + (if more.answer.Commits? then Lines(more.chunk, |more.chunk|) else 0)
  {
    SameBefore(before, attempts, more, |attempts|);
    assert Committed(attempts, |attempts|) + [] == Committed(attempts, |attempts|);
    assert Alone(attempts, |attempts|) + [] == Alone(attempts, |attempts|);
    assert (attempts + [more])[|attempts|] == more;
  }

  lemma TakeOneMore(settled: multiset<Checked>, chunk: seq<Checked>, k: nat)
    requires k < |chunk|
    ensures settled + multiset(chunk[..k + 1]) == settled + multiset(chunk[..k]) + multiset([chunk[k]])
  {
    assert chunk[..k + 1] == chunk[..k] + [chunk[k]];
  }

  lemma JoinFound(a: seq<Checked>, b: seq<Checked>, c: seq<Checked>)
    ensures (a + b) + c == a + (b + c)
  {
  }

  // ---- the writer ---------------------------------------------------------------------------------------------------

  class Writer {
    const before: Rows                    // the job's control rows when the write began
    const answers: nat -> Answer          // what each transaction is told, in turn
    var rows: Rows                        // the control rows, as committed
    var storedDatabases: nat              // the task's progress, as committed
    var storedTables: nat
    var databasesWritten: nat             // the task's state, as the thread counts it
    var tablesWritten: nat
    var attempts: seq<Attempt>

    constructor (before: Rows, answers: nat -> Answer)
      ensures this.before == before && this.answers == answers && attempts == []
      ensures Stored() && Counted()
    {
      this.before, this.answers, rows := before, answers, before;
      storedDatabases, storedTables, databasesWritten, tablesWritten, attempts := 0, 0, 0, 0, [];
    }

    ghost function Written(): seq<Checked>
      reads this
    {
      Committed(attempts, |attempts|)
    }

    /** The rows and the progress in the database are what the committed transactions wrote. */
    ghost predicate Stored()
      reads this
    {
      && rows == RowsAfter(before, attempts, |attempts|)
      && storedDatabases == |Written()| && storedTables == LinesAfter(attempts, |attempts|)
    }

    /** The thread's own counts are the committed ones. */
    ghost predicate Counted()
      reads this
    {
      databasesWritten == storedDatabases && tablesWritten == storedTables
    }

    ghost function RefusedAlone(): seq<Checked>
      reads this
    {
      Alone(attempts, |attempts|)
    }

    /** What has been settled: committed, or refused alone. */
    ghost function Settled(): multiset<Checked>
      reads this
    {
      multiset(Written()) + multiset(RefusedAlone())
    }

    /** Adds a chunk's lines in the transaction going, and counts it in the thread's state. */
    method WriteChunk(chunk: seq<Checked>) returns (going: Rows)
      modifies `databasesWritten, `tablesWritten
      ensures going == Added(rows, chunk, |chunk|)
      ensures databasesWritten == old(databasesWritten) + |chunk|
      ensures tablesWritten == old(tablesWritten) + Lines(chunk, |chunk|)
    {
      going := Added(rows, chunk, |chunk|);
      databasesWritten := databasesWritten + |chunk|;
      tablesWritten := tablesWritten + Lines(chunk, |chunk|);
    }

    method Commit(chunk: seq<Checked>)
      requires Stored() && Counted()
      modifies this
      ensures attempts == old(attempts) + [Attempt(chunk, Commits)]
      ensures Stored() && Counted()
    {
      OneMoreAttempt(before, attempts, Attempt(chunk, Commits));
      var going := WriteChunk(chunk);
      rows, storedDatabases, storedTables := going, databasesWritten, tablesWritten;
      attempts := attempts + [Attempt(chunk, Commits)];
    }

    /** A transaction that ends without committing: what it wrote is gone, and the thread's counts are put back. */
    method RollBack(chunk: seq<Checked>, answer: Answer, late: bool)
      requires Stored() && Counted() && !answer.Commits?
      modifies this
      ensures attempts == old(attempts) + [Attempt(chunk, answer)]
      ensures Stored() && Counted()
    {
      OneMoreAttempt(before, attempts, Attempt(chunk, answer));
      var wasDatabases, wasTables := databasesWritten, tablesWritten;
      if late {
        var going := WriteChunk(chunk);
      }
      databasesWritten, tablesWritten := wasDatabases, wasTables;
      attempts := attempts + [Attempt(chunk, answer)];
    }

    /** One transaction, as it is answered. */
    method Transaction(chunk: seq<Checked>) returns (answer: Answer)
      requires Stored() && Counted()
      modifies this
      ensures attempts == old(attempts) + [Attempt(chunk, answer)]
      ensures Stored() && Counted()
    {
      answer := answers(|attempts|);
      match answer {
        case Commits => Commit(chunk);
        case Stops => RollBack(chunk, answer, false);
        case Refuses(late) => RollBack(chunk, answer, late);
        case RefusesWhileRunning(late) => RollBack(chunk, answer, late);
        case Fails(late) => RollBack(chunk, answer, late);
      }
    }

    /** A transaction's databases, or each of them alone when the transaction is refused. */
    method Write(chunk: seq<Checked>) returns (outcome: Outcome)
      requires chunk != [] && Stored() && Counted()
      modifies this
      ensures Stored() && Counted()
      ensures outcome.Done? ==> Settled() == old(Settled()) + multiset(chunk)
      ensures outcome.Done? ==> RefusedAlone() == old(RefusedAlone()) + outcome.found
      decreases |chunk|, 1
    {
      var answer := Transaction(chunk);
      OneMoreAttempt(before, old(attempts), Attempt(chunk, answer));
      if answer.Commits? {
        return Done([]);
      }
      if !answer.Refuses? {
        return Raised;
      }
      if |chunk| == 1 {
        return Done(chunk);
      }
      outcome := WriteEach(chunk);
    }

    /** Each database in a transaction of its own. */
    method WriteEach(chunk: seq<Checked>) returns (outcome: Outcome)
      requires |chunk| > 1 && Stored() && Counted()
      modifies this
      ensures Stored() && Counted()
      ensures outcome.Done? ==> Settled() == old(Settled()) + multiset(chunk)
      ensures outcome.Done? ==> RefusedAlone() == old(RefusedAlone()) + outcome.found
      decreases |chunk|, 0
    {
      ghost var settled, alone := Settled(), RefusedAlone();
      var found := [];
      for k := 0 to |chunk|
        invariant Stored() && Counted()
        invariant Settled() == settled + multiset(chunk[..k]) && RefusedAlone() == alone + found
      {
        var one := Write([chunk[k]]);
        if one.Raised? {
          return Raised;
        }
        TakeOneMore(settled, chunk, k);
        JoinFound(alone, found, one.found);
        found := found + one.found;
      }
      assert chunk[..|chunk|] == chunk;
      outcome := Done(found);
    }

    /** Every planned database, in transactions as large as the cap allows; above a size the plans were not kept, and
        each transaction's databases are read and planned again, those with no rows left dropped. */
    method WriteAll(checked: seq<Checked>, replan: Maybe<Checked -> Maybe<Checked>>) returns (outcome: Outcome)
      requires Stored() && Counted() && attempts == []
      modifies this
      ensures Stored()
      ensures outcome.Done? ==> Counted() && Settled() == multiset(Replanned(checked, |checked|, replan))
      ensures outcome.Done? ==> outcome.found == RefusedAlone()
      ensures outcome.Done? && OfEach(checked) && KeepsDatabase(replan) ==> EachOnce(attempts, checked, replan)
    {
      var chunks := TransactionsOf(checked);
      var found := [];
      for k := 0 to |chunks|
        invariant Stored() && Counted()
        invariant Settled() == multiset(PlansOf(chunks, k, replan))
        invariant found == RefusedAlone()
      {
        var pairs := Plans(chunks[k], replan);
        if pairs != [] {
          var outcome := Write(pairs);
          if outcome.Raised? {
            return Raised;
          }
          found := found + outcome.found;
        }
      }
      PlansOfAll(chunks, |chunks|, checked, replan);
      if OfEach(checked) && KeepsDatabase(replan) {
        EachSettledOnce(attempts, checked, replan);
      }
      outcome := Done(found);
    }

    method Plans(chunk: seq<Checked>, replan: Maybe<Checked -> Maybe<Checked>>) returns (pairs: seq<Checked>)
      ensures pairs == Replanned(chunk, |chunk|, replan)
    {
      pairs := [];
      for k := 0 to |chunk|
        invariant pairs == Replanned(chunk, k, replan)
      {
        pairs := pairs + PlanOf(chunk[k], replan);
      }
    }
  }

  /** A database's plan as kept from the check, or made again: none when no rows of it are left. */
  function PlanOf(c: Checked, replan: Maybe<Checked -> Maybe<Checked>>): seq<Checked> {
    match replan
    case None => [c]
    case Some(again) => (match again(c) case None => [] case Some(plan) => [plan])
  }

  function Replanned(checked: seq<Checked>, n: nat, replan: Maybe<Checked -> Maybe<Checked>>): seq<Checked>
    requires n <= |checked|
  {
    if n == 0 then [] else Replanned(checked, n - 1, replan) + PlanOf(checked[n - 1], replan)
  }

  /** The plans of the first n chunks. */
  function PlansOf(chunks: seq<seq<Checked>>, n: nat, replan: Maybe<Checked -> Maybe<Checked>>): seq<Checked>
    requires n <= |chunks|
  {
    if n == 0 then [] else PlansOf(chunks, n - 1, replan) + Replanned(chunks[n - 1], |chunks[n - 1]|, replan)
  }

  lemma {:induction false} PlansOfAll(chunks: seq<seq<Checked>>, n: nat, joined: seq<Checked>,
                                      replan: Maybe<Checked -> Maybe<Checked>>)
    requires n <= |chunks| && joined == Joined(chunks, n)
    ensures PlansOf(chunks, n, replan) == Replanned(joined, |joined|, replan)
    decreases n
  {
    if n > 0 {
      var before := Joined(chunks, n - 1);
      PlansOfAll(chunks, n - 1, before, replan);
      ReplannedJoin(before, chunks[n - 1], joined, replan);
    }
  }

  lemma ReplannedJoin(a: seq<Checked>, b: seq<Checked>, joined: seq<Checked>, replan: Maybe<Checked -> Maybe<Checked>>)
    requires joined == a + b
    ensures Replanned(joined, |joined|, replan) == Replanned(a, |a|, replan) + Replanned(b, |b|, replan)
  {
    assert |joined| == |a| + |b|;
    ReplannedBoth(a, b, |b|, replan);
  }

  lemma {:induction false} ReplannedFirst(a: seq<Checked>, b: seq<Checked>, n: nat,
                          replan: Maybe<Checked -> Maybe<Checked>>)
    requires n <= |a|
    ensures Replanned(a + b, n, replan) == Replanned(a, n, replan)
    decreases n
  {
    if n > 0 {
      ReplannedFirst(a, b, n - 1, replan);
    }
  }

  lemma {:induction false} ReplannedBoth(a: seq<Checked>, b: seq<Checked>, n: nat,
                          replan: Maybe<Checked -> Maybe<Checked>>)
    requires n <= |b|
    ensures Replanned(a + b, |a| + n, replan) == Replanned(a, |a|, replan) + Replanned(b, n, replan)
    decreases n
  {
    if n == 0 {
      ReplannedFirst(a, b, |a|, replan);
    } else {
      ReplannedBoth(a, b, n - 1, replan);
    }
  }

  // ---- what a finished write says -----------------------------------------------------------------------------------

  /** How many of the first n plans are of one database. */
  function Times(plans: seq<Checked>, key: Key, n: nat): nat
    requires n <= |plans|
  {
    if n == 0 then 0 else Times(plans, key, n - 1) + if KeyOf(plans[n - 1]) == key then 1 else 0
  }

  lemma {:induction false} TimesBefore(a: seq<Checked>, b: seq<Checked>, key: Key, n: nat)
    requires n <= |a|
    ensures Times(a + b, key, n) == Times(a, key, n)
    decreases n
  {
    if n > 0 {
      TimesBefore(a, b, key, n - 1);
    }
  }

  lemma {:induction false} TimesJoin(a: seq<Checked>, b: seq<Checked>, key: Key, n: nat)
    requires n <= |b|
    ensures Times(a + b, key, |a| + n) == Times(a, key, |a|) + Times(b, key, n)
    decreases n
  {
    if n == 0 {
      TimesBefore(a, b, key, |a|);
    } else {
      TimesJoin(a, b, key, n - 1);
    }
  }

  lemma TimesWithout(plans: seq<Checked>, at: nat, key: Key)
    requires at < |plans|
    ensures var rest := plans[..at] + plans[at + 1..];
            Times(plans, key, |plans|) == Times(rest, key, |rest|) + if KeyOf(plans[at]) == key then 1 else 0
  {
    var a, one, b := plans[..at], [plans[at]], plans[at + 1..];
    assert plans == (a + one) + b;
    TimesJoin(a + one, b, key, |b|);
    TimesJoin(a, one, key, 1);
    TimesJoin(a, b, key, |b|);
    assert Times(one, key, 0) == 0;
  }

  lemma WithoutPlan(plans: seq<Checked>, at: nat)
    requires at < |plans|
    ensures multiset(plans) == multiset(plans[..at] + plans[at + 1..]) + multiset{plans[at]}
  {
    assert plans == plans[..at] + [plans[at]] + plans[at + 1..];
  }

  lemma SamePlanIn(a: seq<Checked>, b: seq<Checked>) returns (at: nat)
    requires a != [] && multiset(a) == multiset(b)
    ensures at < |b| && b[at] == a[|a| - 1] && multiset(a[..|a| - 1]) == multiset(b[..at] + b[at + 1..])
  {
    var last := |a| - 1;
    assert a[last] in multiset(b);
    at :| 0 <= at < |b| && b[at] == a[last];
    WithoutPlan(b, at);
    WithoutPlan(a, last);
    assert a[..last] + a[last + 1..] == a[..last];
    assert multiset(a[..last]) == multiset(a) - multiset{a[last]};
    assert multiset(b[..at] + b[at + 1..]) == multiset(b) - multiset{b[at]};
  }

  /** The same plans in another order are as often of each database. */
  lemma {:induction false} TimesIgnoreOrder(a: seq<Checked>, b: seq<Checked>, key: Key)
    requires multiset(a) == multiset(b)
    ensures Times(a, key, |a|) == Times(b, key, |b|)
    decreases |a|
  {
    if a == [] {
      assert |multiset(b)| == |multiset(a)| == 0;
    } else {
      var first, last := a[..|a| - 1], [a[|a| - 1]];
      var at := SamePlanIn(a, b);
      TimesIgnoreOrder(first, b[..at] + b[at + 1..], key);
      TimesWithout(b, at, key);
      TimesBefore(first, last, key, |first|);
      assert a == first + last;
    }
  }

  /** No database is planned twice. */
  ghost predicate OfEach(checked: seq<Checked>) {
    forall i, j :: 0 <= i < j < |checked| ==> KeyOf(checked[i]) != KeyOf(checked[j])
  }

  /** A plan made again is of the database it is made for. */
  ghost predicate KeepsDatabase(replan: Maybe<Checked -> Maybe<Checked>>) {
    replan.Some? ==> forall c: Checked :: replan.value(c).Some? ==> KeyOf(replan.value(c).value) == KeyOf(c)
  }

  lemma {:induction false} ReplannedTimes(checked: seq<Checked>, n: nat, replan: Maybe<Checked -> Maybe<Checked>>,
                          i: nat)
    requires n <= |checked| && i < |checked| && OfEach(checked) && KeepsDatabase(replan)
    ensures var plans := Replanned(checked, n, replan);
            Times(plans, KeyOf(checked[i]), |plans|) == if i < n then |PlanOf(checked[i], replan)| else 0
    decreases n
  {
    if n > 0 {
      var before, one := Replanned(checked, n - 1, replan), PlanOf(checked[n - 1], replan);
      ReplannedTimes(checked, n - 1, replan, i);
      TimesJoin(before, one, KeyOf(checked[i]), |one|);
      TimesOfOne(checked[n - 1], replan, KeyOf(checked[i]));
      assert n - 1 != i ==> KeyOf(checked[n - 1]) != KeyOf(checked[i]);
    }
  }

  lemma TimesOfOne(c: Checked, replan: Maybe<Checked -> Maybe<Checked>>, key: Key)
    requires KeepsDatabase(replan)
    ensures Times(PlanOf(c, replan), key, |PlanOf(c, replan)|) == if KeyOf(c) == key then |PlanOf(c, replan)| else 0
  {
    var one := PlanOf(c, replan);
    if one != [] {
      assert |one| == 1 && KeyOf(one[0]) == KeyOf(c) && Times(one, key, 0) == 0;
    }
  }

  /** Each planned database with rows left is in exactly one committed transaction or is set aside exactly once; one
      with none left is in neither. */
  ghost predicate EachOnce(attempts: seq<Attempt>, checked: seq<Checked>, replan: Maybe<Checked -> Maybe<Checked>>) {
    var done, alone := Committed(attempts, |attempts|), Alone(attempts, |attempts|);
    forall i :: 0 <= i < |checked| ==>
      Times(done, KeyOf(checked[i]), |done|) + Times(alone, KeyOf(checked[i]), |alone|) == |PlanOf(checked[i], replan)|
  }

  lemma EachSettledOnce(attempts: seq<Attempt>, checked: seq<Checked>, replan: Maybe<Checked -> Maybe<Checked>>)
    requires OfEach(checked) && KeepsDatabase(replan)
    requires multiset(Committed(attempts, |attempts|)) + multiset(Alone(attempts, |attempts|))
             == multiset(Replanned(checked, |checked|, replan))
    ensures EachOnce(attempts, checked, replan)
  {
    var done, alone := Committed(attempts, |attempts|), Alone(attempts, |attempts|);
    var plans := Replanned(checked, |checked|, replan);
    forall i | 0 <= i < |checked|
      ensures Times(done, KeyOf(checked[i]), |done|) + Times(alone, KeyOf(checked[i]), |alone|)
              == |PlanOf(checked[i], replan)|
    {
      TimesOfBoth(done, alone, plans, KeyOf(checked[i]));
      ReplannedTimes(checked, |checked|, replan, i);
    }
  }

  lemma TimesOfBoth(a: seq<Checked>, b: seq<Checked>, both: seq<Checked>, key: Key)
    requires multiset(a) + multiset(b) == multiset(both)
    ensures Times(a, key, |a|) + Times(b, key, |b|) == Times(both, key, |both|)
  {
    TimesIgnoreOrder(a + b, both, key);
    TimesJoin(a, b, key, |b|);
  }

  /** A database is set aside exactly when a transaction of it alone was refused: never for another's refusal. */
  lemma {:induction false} SetAsideWasRefusedAlone(attempts: seq<Attempt>, n: nat, c: Checked)
    requires n <= |attempts|
    ensures c in Alone(attempts, n)
            <==> exists i :: 0 <= i < n && attempts[i].chunk == [c] && attempts[i].answer.Refuses?
    decreases n
  {
    if n > 0 {
      SetAsideWasRefusedAlone(attempts, n - 1, c);
      assert |attempts[n - 1].chunk| == 1 ==> attempts[n - 1].chunk == [attempts[n - 1].chunk[0]];
    }
  }

  predicate Has(rows: Rows, key: Key, line: string) {
    key in rows && line in rows[key]
  }

  lemma {:induction false} AddedKeeps(rows: Rows, done: seq<Checked>, n: nat, key: Key, line: string)
    requires n <= |done| && Has(rows, key, line)
    ensures Has(Added(rows, done, n), key, line)
    decreases n
  {
    if n > 0 {
      AddedKeeps(rows, done, n - 1, key, line);
    }
  }

  lemma {:induction false} AddedHas(rows: Rows, done: seq<Checked>, n: nat, c: Checked, line: string)
    requires n <= |done| && c in done[..n] && line in c.lines
    ensures Has(Added(rows, done, n), KeyOf(c), line)
    decreases n
  {
    if c != done[n - 1] {
      assert done[..n] == done[..n - 1] + [done[n - 1]];
      AddedHas(rows, done, n - 1, c, line);
    }
  }

  /** A database is committed whole: every line of its plan is among the rows, whatever was refused or failed around
      it. */
  lemma {:induction false} CommittedIsWhole(before: Rows, attempts: seq<Attempt>, n: nat, c: Checked, line: string)
    requires n <= |attempts| && c in Committed(attempts, n) && line in c.lines
    ensures Has(RowsAfter(before, attempts, n), KeyOf(c), line)
    decreases n
  {
    var last := attempts[n - 1];
    if last.answer.Commits? && c in last.chunk {
      assert last.chunk[..|last.chunk|] == last.chunk;
      AddedHas(RowsAfter(before, attempts, n - 1), last.chunk, |last.chunk|, c, line);
    } else {
      CommittedIsWhole(before, attempts, n - 1, c, line);
      if last.answer.Commits? {
        AddedKeeps(RowsAfter(before, attempts, n - 1), last.chunk, |last.chunk|, KeyOf(c), line);
      }
    }
  }

  lemma {:induction false} AddedOnly(rows: Rows, done: seq<Checked>, n: nat, key: Key, line: string)
    requires n <= |done| && Has(Added(rows, done, n), key, line)
    ensures Has(rows, key, line) || exists c :: c in done[..n] && KeyOf(c) == key && line in c.lines
    decreases n
  {
    if n > 0 {
      var last := done[n - 1];
      assert last in done[..n];
      if !(KeyOf(last) == key && line in last.lines) {
        AddedOnly(rows, done, n - 1, key, line);
        assert done[..n] == done[..n - 1] + [last];
      }
    }
  }

  /** And nothing else is: a row was there before, or is a line of a committed database. */
  lemma {:induction false} OnlyCommittedIsWritten(before: Rows, attempts: seq<Attempt>, n: nat, key: Key, line: string)
    requires n <= |attempts| && Has(RowsAfter(before, attempts, n), key, line)
    ensures Has(before, key, line) || exists c :: c in Committed(attempts, n) && KeyOf(c) == key && line in c.lines
    decreases n
  {
    if n > 0 {
      var last := attempts[n - 1];
      if last.answer.Commits? {
        AddedOnly(RowsAfter(before, attempts, n - 1), last.chunk, |last.chunk|, key, line);
        assert last.chunk[..|last.chunk|] == last.chunk;
      }
      if Has(RowsAfter(before, attempts, n - 1), key, line) {
        OnlyCommittedIsWritten(before, attempts, n - 1, key, line);
      }
    }
  }
}
