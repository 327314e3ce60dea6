/** job_inputs in app/src/new_job.py: what a job's own rows, oldest first, say to a plan; and what planning the same
    lines again finds once the first plan's lines are written.

    A database's group is its oldest row's, so rows written later cannot move it. A plan keeps each database in one
    group, so whichever of its lines is written first, the group read back is the same. */
module JobInputs {
  import opened Text
  import opened Greedy
  import opened Placement
  import opened LightestGroup
  import opened LinePlan
  import opened LinePlanProperties

  function RowKey(row: JobRow): Database {
    (row.server, Lower(row.database))
  }

  /** Each database's group, as its oldest row has it. */
  function KnownOf(rows: seq<JobRow>, n: nat): map<Database, string>
    requires n <= |rows|
  {
    if n == 0 then map[] else OrFirst(KnownOf(rows, n - 1), RowKey(rows[n - 1]), rows[n - 1].group)
  }

  function OrFirst(known: map<Database, string>, key: Database, group: string): map<Database, string> {
    if key in known then known else known[key := group]
  }

  function HaveOf(rows: seq<JobRow>, n: nat): set<Target>
    requires n <= |rows|
  {
    if n == 0 then {} else HaveOf(rows, n - 1) + {rows[n - 1].target}
  }

  function GroupNamesOf(rows: seq<JobRow>, n: nat): set<string>
    requires n <= |rows|
  {
    if n == 0 then {} else GroupNamesOf(rows, n - 1) + {rows[n - 1].group}
  }

  function LoadsOf(rows: seq<JobRow>, n: nat): map<string, Groups>
    requires n <= |rows|
  {
    if n == 0 then map[] else OneTable(LoadsOf(rows, n - 1), rows[n - 1].server, rows[n - 1].group)
  }

  function OneTable(loads: map<string, Groups>, server: string, group: string): map<string, Groups> {
    loads[server := AddTables(GroupsIn(loads, server), group, 1)]
  }

  function GroupsIn(loads: map<string, Groups>, server: string): Groups {
    if server in loads then loads[server] else map[]
  }

  function InputsOf(rows: seq<JobRow>): Inputs {
    Inputs(KnownOf(rows, |rows|), Join(LoadsOf(rows, |rows|), map[]), HaveOf(rows, |rows|))
  }

  /** Row by row: each database's group, the tables of each server's groups, the targets and the group names. */
  method JobInputs(rows: seq<JobRow>)
    returns (known: map<Database, string>, have: set<Target>, join: Lightest, names: set<string>)
    ensures Inputs(known, join.State(), have) == InputsOf(rows) && names == GroupNamesOf(rows, |rows|)
    ensures LightestGroup.Valid(join.State()) && fresh(join)
  {
    known, have, names := map[], {}, {};
    var loads: map<string, Groups> := map[];
    for n := 0 to |rows|
      invariant known == KnownOf(rows, n) && loads == LoadsOf(rows, n)
      invariant have == HaveOf(rows, n) && names == GroupNamesOf(rows, n)
    {
      if RowKey(rows[n]) !in known {
        known := known[RowKey(rows[n]) := rows[n].group];
      }
      names := names + {rows[n].group};
      loads := OneTable(loads, rows[n].server, rows[n].group);
      have := have + {rows[n].target};
    }
    join := new Lightest(loads);
  }

  // ---- what the rows hold -------------------------------------------------------------------------------------------

  lemma {:induction false} KnownIsFirst(rows: seq<JobRow>, n: nat, key: Database)
    requires n <= |rows|
    ensures key in KnownOf(rows, n) <==> exists i :: 0 <= i < n && RowKey(rows[i]) == key
    ensures key in KnownOf(rows, n)
            ==> exists i :: 0 <= i < n && IsFirstOf(rows, key, i) && rows[i].group == KnownOf(rows, n)[key]
    decreases n
  {
    if n > 0 {
      KnownIsFirst(rows, n - 1, key);
      if RowKey(rows[n - 1]) == key && key !in KnownOf(rows, n - 1) {
        assert IsFirstOf(rows, key, n - 1);
      }
    }
  }

  /** Row i is the oldest of its database. */
  ghost predicate IsFirstOf(rows: seq<JobRow>, key: Database, i: nat) {
    i < |rows| && RowKey(rows[i]) == key && forall j :: 0 <= j < i ==> RowKey(rows[j]) != key
  }

  /** A database keeps the group of its oldest row, whatever rows are added. */
  lemma {:induction false} KnownStays(rows: seq<JobRow>, more: seq<JobRow>, n: nat, key: Database)
    requires |rows| <= n <= |rows + more| && key in KnownOf(rows, |rows|)
    ensures key in KnownOf(rows + more, n) && KnownOf(rows + more, n)[key] == KnownOf(rows, |rows|)[key]
    decreases n
  {
    if n == |rows| {
      KnownOfPrefix(rows, more, n);
    } else {
      KnownStays(rows, more, n - 1, key);
    }
  }

  lemma {:induction false} KnownOfPrefix(rows: seq<JobRow>, more: seq<JobRow>, n: nat)
    requires n <= |rows|
    ensures KnownOf(rows + more, n) == KnownOf(rows, n)
    decreases n
  {
    if n > 0 {
      KnownOfPrefix(rows, more, n - 1);
    }
  }

  lemma {:induction false} HaveIs(rows: seq<JobRow>, n: nat, i: nat)
    requires i < n <= |rows|
    ensures rows[i].target in HaveOf(rows, n) && rows[i].group in GroupNamesOf(rows, n)
    decreases n
  {
    if i < n - 1 {
      HaveIs(rows, n - 1, i);
    }
  }

  lemma {:induction false} HaveFrom(rows: seq<JobRow>, n: nat, target: Target) returns (i: nat)
    requires n <= |rows| && target in HaveOf(rows, n)
    ensures i < n && rows[i].target == target
    decreases n
  {
    if rows[n - 1].target == target {
      i := n - 1;
    } else {
      i := HaveFrom(rows, n - 1, target);
    }
  }

  // ---- planning again -----------------------------------------------------------------------------------------------

  function RowOf(planned: Planned): JobRow {
    JobRow(planned.line.server, planned.line.database, planned.group, planned.line.target)
  }

  /** The rows the first n planned lines write: those of the valid ones, in order. */
  function Written(plan: seq<Planned>, n: nat): seq<JobRow>
    requires n <= |plan|
  {
    if n == 0 then [] else
      Written(plan, n - 1) + if plan[n - 1].status == Status.Valid then [RowOf(plan[n - 1])] else []
  }

  lemma {:induction false} WrittenHas(plan: seq<Planned>, n: nat, m: nat) returns (i: nat)
    requires m < n <= |plan| && plan[m].status == Status.Valid
    ensures i < |Written(plan, n)| && Written(plan, n)[i] == RowOf(plan[m])
    decreases n
  {
    if m == n - 1 {
      i := |Written(plan, n - 1)|;
    } else {
      i := WrittenHas(plan, n - 1, m);
    }
  }

  lemma {:induction false} WrittenFrom(plan: seq<Planned>, n: nat, i: nat) returns (m: nat)
    requires n <= |plan| && i < |Written(plan, n)|
    ensures m < n && plan[m].status == Status.Valid && Written(plan, n)[i] == RowOf(plan[m])
    decreases n
  {
    if i < |Written(plan, n - 1)| {
      m := WrittenFrom(plan, n - 1, i);
    } else {
      m := n - 1;
    }
  }

  /** Each line of one database has one group. */
  ghost predicate OneGroupEach(plan: seq<Planned>) {
    forall m, n :: 0 <= m < |plan| && 0 <= n < |plan| && KeyOf(plan[m].line) == KeyOf(plan[n].line)
                   ==> plan[m].group == plan[n].group
  }

  lemma PlansOneGroupEach(job: string, inputs: Inputs, lines: seq<Line>, sizing: Sizing, taken: set<string>)
    requires sizing.PerGroup? ==> sizing.tables > 0
    ensures OneGroupEach(PlanOf(job, inputs, lines, sizing, taken, |lines|))
  {
    var plan := PlanOf(job, inputs, lines, sizing, taken, |lines|);
    forall m, n | 0 <= m < |plan| && 0 <= n < |plan| && KeyOf(plan[m].line) == KeyOf(plan[n].line)
      ensures plan[m].group == plan[n].group
    {
      if m <= n {
        NeverSplit(job, inputs, lines, sizing, m, n);
      } else {
        NeverSplit(job, inputs, lines, sizing, n, m);
      }
    }
  }

  /** The job knows a written line's database, in the line's group, and has its target. */
  lemma WrittenIsKnown(rows: seq<JobRow>, plan: seq<Planned>, m: nat)
    requires m < |plan| && plan[m].status == Status.Valid && OneGroupEach(plan)
    requires KeyOf(plan[m].line) in KnownOf(rows, |rows|)
            ==> plan[m].group == KnownOf(rows, |rows|)[KeyOf(plan[m].line)]
    ensures var again := rows + Written(plan, |plan|);
            && KeyOf(plan[m].line) in KnownOf(again, |again|)
            && KnownOf(again, |again|)[KeyOf(plan[m].line)] == plan[m].group
            && plan[m].line.target in HaveOf(again, |again|) && plan[m].group in GroupNamesOf(again, |again|)
  {
    var written, key := Written(plan, |plan|), KeyOf(plan[m].line);
    var again := rows + written;
    var i := WrittenHas(plan, |plan|, m);
    assert again[|rows| + i] == written[i];
    HaveIs(again, |again|, |rows| + i);
    if key in KnownOf(rows, |rows|) {
      KnownStays(rows, written, |again|, key);
    } else {
      NewIsKnown(rows, plan, key, |rows| + i, plan[m].group);
    }
  }

  lemma NewIsKnown(rows: seq<JobRow>, plan: seq<Planned>, key: Database, i: nat, group: string)
    requires key !in KnownOf(rows, |rows|) && |rows| <= i < |rows + Written(plan, |plan|)|
    requires RowKey((rows + Written(plan, |plan|))[i]) == key
    requires forall m :: 0 <= m < |plan| && KeyOf(plan[m].line) == key ==> plan[m].group == group
    ensures var again := rows + Written(plan, |plan|);
            key in KnownOf(again, |again|) && KnownOf(again, |again|)[key] == group
  {
    var written := Written(plan, |plan|);
    var again := rows + written;
    assert forall k :: 0 <= k < |rows| ==> again[k] == rows[k];
    KnownIsFirst(again, |again|, key);
    var j :| 0 <= j < |again| && IsFirstOf(again, key, j) && again[j].group == KnownOf(again, |again|)[key];
    KnownIsFirst(rows, |rows|, key);
    assert j >= |rows|;
    var m := WrittenFrom(plan, |plan|, j - |rows|);
  }

  /** Once the lines a plan writes are in the job, the same lines planned again find each of them in the job, in the
      same group, whatever groups other jobs have taken and whatever the sizing. */
  lemma PlannedAgainIsInJob(job: string, rows: seq<JobRow>, lines: seq<Line>, sizing: Sizing, taken: set<string>,
                            sizingAgain: Sizing, takenAgain: set<string>, m: nat)
    requires (sizing.PerGroup? ==> sizing.tables > 0) && (sizingAgain.PerGroup? ==> sizingAgain.tables > 0)
            && m < |lines|
    requires PlannedAt(job, InputsOf(rows), lines, sizing, taken, m).status == Status.Valid
    requires var again := rows + Written(PlanOf(job, InputsOf(rows), lines, sizing, taken, |lines|), |lines|);
             takenAgain !! GroupNamesOf(again, |again|)
    ensures var again := rows + Written(PlanOf(job, InputsOf(rows), lines, sizing, taken, |lines|), |lines|);
            PlannedAt(job, InputsOf(again), lines, sizingAgain, takenAgain, m)
            == PlannedAt(job, InputsOf(rows), lines, sizing, taken, m).(status := InJob)
  {
    var plan := PlanOf(job, InputsOf(rows), lines, sizing, taken, |lines|);
    PlansOneGroupEach(job, InputsOf(rows), lines, sizing, taken);
    WrittenIsKnown(rows, plan, m);
    InJobAgain(job, InputsOf(rows), InputsOf(rows + Written(plan, |plan|)), lines, sizing, taken, sizingAgain,
        takenAgain, m);
  }

  lemma InJobAgain(job: string, inputs: Inputs, again: Inputs, lines: seq<Line>, sizing: Sizing, taken: set<string>,
                   sizingAgain: Sizing, takenAgain: set<string>, m: nat)
    requires (sizing.PerGroup? ==> sizing.tables > 0) && (sizingAgain.PerGroup? ==> sizingAgain.tables > 0)
            && m < |lines|
    requires PlannedAt(job, inputs, lines, sizing, taken, m).status != Invalid
    requires KeyOf(lines[m]) in again.known && lines[m].target in again.have
    requires again.known[KeyOf(lines[m])] == PlannedAt(job, inputs, lines, sizing, taken, m).group
    requires again.known[KeyOf(lines[m])] !in takenAgain
    ensures PlannedAt(job, again, lines, sizingAgain, takenAgain, m)
            == PlannedAt(job, inputs, lines, sizing, taken, m).(status := InJob)
  {
  }

  /** A line in the job, of a database the job has, stays so too. */
  lemma InJobStaysInJob(job: string, rows: seq<JobRow>, lines: seq<Line>, sizing: Sizing, taken: set<string>,
                        sizingAgain: Sizing, takenAgain: set<string>, m: nat)
    requires (sizing.PerGroup? ==> sizing.tables > 0) && (sizingAgain.PerGroup? ==> sizingAgain.tables > 0)
            && m < |lines|
    requires PlannedAt(job, InputsOf(rows), lines, sizing, taken, m).status == InJob
    requires KeyOf(lines[m]) in KnownOf(rows, |rows|)
    requires var again := rows + Written(PlanOf(job, InputsOf(rows), lines, sizing, taken, |lines|), |lines|);
             takenAgain !! GroupNamesOf(again, |again|)
    ensures var again := rows + Written(PlanOf(job, InputsOf(rows), lines, sizing, taken, |lines|), |lines|);
            PlannedAt(job, InputsOf(again), lines, sizingAgain, takenAgain, m)
            == PlannedAt(job, InputsOf(rows), lines, sizing, taken, m)
  {
    var written, key := Written(PlanOf(job, InputsOf(rows), lines, sizing, taken, |lines|), |lines|), KeyOf(lines[m]);
    var again := rows + written;
    KnownStays(rows, written, |again|, key);
    KnownIsFirst(rows, |rows|, key);
    var i :| 0 <= i < |rows| && IsFirstOf(rows, key, i) && rows[i].group == KnownOf(rows, |rows|)[key];
    assert again[i] == rows[i];
    HaveIs(again, |again|, i);
    var t := HaveFrom(rows, |rows|, lines[m].target);
    assert again[t] == rows[t];
    HaveIs(again, |again|, t);
    InJobAgain(job, InputsOf(rows), InputsOf(again), lines, sizing, taken, sizingAgain, takenAgain, m);
  }
}
