/** The line planner in app/src/new_job.py: where each line's database goes (_placer) and which lines are written
    (plan).

    A line's database goes to the group the job has for it; on a server the job has, else, to the lightest group there;
    else to its place in the even spread of its server's new databases, by the lines the file has of each. A line is
    then written unless something is wrong with it, its group belongs to another job, or its target is written already,
    by an earlier line or by the job. */
module LinePlan {
  import opened Text
  import opened Greedy
  import opened Placement
  import opened LightestGroup
  import SettingsEdit

  type Target = (string, string)

  /** A line: its server, database, target with client_id as filled, and whether its own checks found a problem. */
  datatype Line = Line(server: string, database: string, target: Target, refused: bool)

  datatype Status = Valid | InJob | Invalid

  /** A control row of the job: where it reads, its group and target. */
  datatype JobRow = JobRow(server: string, database: string, group: string, target: Target)

  /** What a job's rows say: each database's group, the groups' tables by server, and the targets written. */
  datatype Inputs = Inputs(known: map<Database, string>, join: Join, have: set<Target>)

  function KeyOf(line: Line): Database {
    (line.server, Lower(line.database))
  }

  // ---- where a database goes ----------------------------------------------------------------------------------------

  /** A line counts for its server's even placement when its database is new, on a server the job does not have. */
  predicate Counts(inputs: Inputs, line: Line) {
    KeyOf(line) !in inputs.known && !Knows(inputs.join, line.server)
  }

  /** The tables of a server's new databases among the first n lines. */
  function SizesOf(inputs: Inputs, lines: seq<Line>, server: string, n: nat): Sizes
    requires n <= |lines|
  {
    if n == 0 then map[] else
      var before, line := SizesOf(inputs, lines, server, n - 1), lines[n - 1];
      if line.server == server && Counts(inputs, line) then AddTables(before, Lower(line.database), 1) else before
  }

  function IndexIn(placed: map<string, nat>, key: string): nat {
    if key in placed then placed[key] else 0
  }

  function Prefix(job: string, server: string): string {
    SettingsEdit.Identifier(job) + ("_" + SettingsEdit.Identifier(server))
  }

  /** The even spread of a server's new databases over as many groups as its tables need. */
  function EvenIn(sizes: Sizes, sizing: Sizing): map<string, nat>
    requires sizing.PerGroup? ==> sizing.tables > 0
  {
    Spread(sizes, AtLeastOne(GroupCount(Sum(sizes), sizing)))
  }

  /** The group of a database, named in lower case, when it joins no group of the job: by index, from its server's
      spread. */
  function EvenGroup(job: string, sizes: Sizes, sizing: Sizing, server: string, key: string): string
    requires sizing.PerGroup? ==> sizing.tables > 0
  {
    GroupName(Prefix(job, server), IndexIn(EvenIn(sizes, sizing), key) + 1)
  }

  /** The databases joined before the n-th line. */
  function Joined(inputs: Inputs, lines: seq<Line>, n: nat): Join
    requires n <= |lines|
  {
    if n == 0 then inputs.join else
      var before, line := Joined(inputs, lines, n - 1), lines[n - 1];
      if KeyOf(line) in inputs.known then before else Placed(before, line.server, line.database, 1)
  }

  function GroupAt(job: string, inputs: Inputs, lines: seq<Line>, sizing: Sizing, n: nat): string
    requires (sizing.PerGroup? ==> sizing.tables > 0) && n < |lines|
  {
    var line, join := lines[n], Joined(inputs, lines, n);
    if KeyOf(line) in inputs.known then inputs.known[KeyOf(line)]
    else if Knows(join, line.server) then GroupOf(join, line.server, line.database)
    else EvenGroup(job, SizesOf(inputs, lines, line.server, |lines|), sizing, line.server, Lower(line.database))
  }

  // ---- the plan -----------------------------------------------------------------------------------------------------

  function Targets(lines: seq<Line>, n: nat): set<Target>
    requires n <= |lines|
  {
    if n == 0 then {} else Targets(lines, n - 1) + {lines[n - 1].target}
  }

  function StatusOf(line: Line, group: string, seen: set<Target>, taken: set<string>, have: set<Target>): Status {
    if line.refused || group in taken || line.target in seen then Invalid
    else if line.target in have then InJob
    else Valid
  }

  function StatusAt(inputs: Inputs, lines: seq<Line>, taken: set<string>, group: string, n: nat): Status
    requires n < |lines|
  {
    StatusOf(lines[n], group, Targets(lines, n), taken, inputs.have)
  }

  datatype Planned = Planned(line: Line, group: string, status: Status)

  function PlannedAt(job: string, inputs: Inputs, lines: seq<Line>, sizing: Sizing, taken: set<string>, n: nat): Planned
    requires (sizing.PerGroup? ==> sizing.tables > 0) && n < |lines|
  {
    var group := GroupAt(job, inputs, lines, sizing, n);
    Planned(lines[n], group, StatusAt(inputs, lines, taken, group, n))
  }

  function PlanOf(job: string, inputs: Inputs, lines: seq<Line>, sizing: Sizing, taken: set<string>,
                  n: nat): (plan: seq<Planned>)
    requires (sizing.PerGroup? ==> sizing.tables > 0) && n <= |lines|
    ensures |plan| == n
  {
    seq(n, i requires 0 <= i < n => PlannedAt(job, inputs, lines, sizing, taken, i))
  }

  /** The groups of the lines the job does not write already, those that cannot be taken too. */
  function GroupsOf(plan: seq<Planned>, have: set<Target>, n: nat): set<string>
    requires n <= |plan|
  {
    if n == 0 then {} else
      GroupsOf(plan, have, n - 1) + if plan[n - 1].line.target in have then {} else {plan[n - 1].group}
  }

  lemma {:induction false} GroupsBefore(plan: seq<Planned>, more: Planned, have: set<Target>, n: nat)
    requires n <= |plan|
    ensures GroupsOf(plan + [more], have, n) == GroupsOf(plan, have, n)
    decreases n
  {
    if n > 0 {
      assert (plan + [more])[n - 1] == plan[n - 1];
      GroupsBefore(plan, more, have, n - 1);
    }
  }

  lemma GroupsMore(plan: seq<Planned>, more: Planned, have: set<Target>)
    ensures GroupsOf(plan + [more], have, |plan| + 1)
            == GroupsOf(plan, have, |plan|) + if more.line.target in have then {} else {more.group}
  {
    GroupsBefore(plan, more, have, |plan|);
  }

  /** Line by line: its database's group, joined or spread, and whether it is written. */
  method Plan(job: string, known: map<Database, string>, have: set<Target>, join: Lightest, lines: seq<Line>,
              sizing: Sizing,
              taken: set<string>)
    returns (plan: seq<Planned>, groups: set<string>)
    requires LightestGroup.Valid(join.State()) && (sizing.PerGroup? ==> sizing.tables > 0)
    modifies join
    ensures plan == PlanOf(job, Inputs(known, old(join.State()), have), lines, sizing, taken, |lines|)
    ensures groups == GroupsOf(plan, have, |plan|)
  {
    ghost var inputs := Inputs(known, join.State(), have);
    var sizes := CountSizes(known, have, join, lines);
    var seen: set<Target> := {};
    plan, groups := [], {};
    for n := 0 to |lines|
      invariant LightestGroup.Valid(join.State())
      invariant SoFar(job, inputs, lines, sizing, taken, n, join.State(), seen, plan, groups)
    {
      ghost var before := join.State();
      var group := PlaceLine(job, known, join, sizes, sizing, lines[n]);
      var planned := PlanLine(lines[n], group, seen, taken, have);
      PlanNext(job, inputs, lines, sizing, taken, n, before, seen, plan, groups, sizes, group);
      seen := seen + {lines[n].target};
      if lines[n].target !in have {
        groups := groups + {group};
      }
      plan := plan + [planned];
    }
  }

  /** What is planned once n lines are. */
  ghost predicate SoFar(job: string, inputs: Inputs, lines: seq<Line>, sizing: Sizing, taken: set<string>, n: nat,
                        join: Join,
                        seen: set<Target>, plan: seq<Planned>, groups: set<string>)
    requires (sizing.PerGroup? ==> sizing.tables > 0) && n <= |lines|
  {
    && join == Joined(inputs, lines, n) && seen == Targets(lines, n)
    && plan == PlanOf(job, inputs, lines, sizing, taken, n) && groups == GroupsOf(plan, inputs.have, |plan|)
  }

  function PlaceOf(job: string, known: map<Database, string>, join: Join, sizes: map<string, Sizes>, sizing: Sizing,
                   line: Line): string
    requires sizing.PerGroup? ==> sizing.tables > 0
  {
    if KeyOf(line) in known then known[KeyOf(line)]
    else if Knows(join, line.server) then GroupOf(join, line.server, line.database)
    else EvenGroup(job, SizesIn(sizes, line.server), sizing, line.server, Lower(line.database))
  }

  function JoinedOne(known: map<Database, string>, join: Join, line: Line): Join {
    if KeyOf(line) in known then join else Placed(join, line.server, line.database, 1)
  }

  lemma PlanNext(job: string, inputs: Inputs, lines: seq<Line>, sizing: Sizing, taken: set<string>, n: nat, join: Join,
                 seen: set<Target>, plan: seq<Planned>, groups: set<string>, sizes: map<string, Sizes>, group: string)
    requires (sizing.PerGroup? ==> sizing.tables > 0) && n < |lines|
    requires SoFar(job, inputs, lines, sizing, taken, n, join, seen, plan, groups)
            && Counted(sizes, inputs, lines, |lines|)
    requires group == PlaceOf(job, inputs.known, join, sizes, sizing, lines[n])
    ensures SoFar(job, inputs, lines, sizing, taken, n + 1, JoinedOne(inputs.known, join, lines[n]),
            seen + {lines[n].target},
                  plan + [PlanLine(lines[n], group, seen, taken, inputs.have)],
                  if lines[n].target in inputs.have then groups else groups + {group})
  {
    var more := PlanLine(lines[n], group, seen, taken, inputs.have);
    PlacedAt(job, inputs, lines, sizing, n, join, sizes);
    JoinedNext(inputs, lines, n);
    PlanOne(job, inputs, lines, sizing, taken, n, group);
    GroupsNext(plan, more, inputs.have, groups);
    SoFarIs(job, inputs, lines, sizing, taken, n + 1, JoinedOne(inputs.known, join, lines[n]), seen + {lines[n].target},
            plan + [more], if lines[n].target in inputs.have then groups else groups + {group});
  }

  lemma SoFarIs(job: string, inputs: Inputs, lines: seq<Line>, sizing: Sizing, taken: set<string>, n: nat, join: Join,
                seen: set<Target>, plan: seq<Planned>, groups: set<string>)
    requires (sizing.PerGroup? ==> sizing.tables > 0) && n <= |lines|
    requires join == Joined(inputs, lines, n) && seen == Targets(lines, n)
    requires plan == PlanOf(job, inputs, lines, sizing, taken, n) && groups == GroupsOf(plan, inputs.have, |plan|)
    ensures SoFar(job, inputs, lines, sizing, taken, n, join, seen, plan, groups)
  {
  }

  lemma JoinedNext(inputs: Inputs, lines: seq<Line>, n: nat)
    requires n < |lines|
    ensures Joined(inputs, lines, n + 1) == JoinedOne(inputs.known, Joined(inputs, lines, n), lines[n])
  {
  }

  lemma GroupsNext(plan: seq<Planned>, more: Planned, have: set<Target>, groups: set<string>)
    requires groups == GroupsOf(plan, have, |plan|)
    ensures GroupsOf(plan + [more], have, |plan + [more]|)
            == if more.line.target in have then groups else groups + {more.group}
  {
    GroupsMore(plan, more, have);
  }

  lemma PlacedAt(job: string, inputs: Inputs, lines: seq<Line>, sizing: Sizing, n: nat, join: Join,
                 sizes: map<string, Sizes>)
    requires (sizing.PerGroup? ==> sizing.tables > 0) && n < |lines|
    requires join == Joined(inputs, lines, n) && Counted(sizes, inputs, lines, |lines|)
    ensures PlaceOf(job, inputs.known, join, sizes, sizing, lines[n]) == GroupAt(job, inputs, lines, sizing, n)
  {
    assert SizesIn(sizes, lines[n].server) == SizesOf(inputs, lines, lines[n].server, |lines|);
  }

  lemma PlanOne(job: string, inputs: Inputs, lines: seq<Line>, sizing: Sizing, taken: set<string>, n: nat,
                group: string)
    requires (sizing.PerGroup? ==> sizing.tables > 0) && n < |lines| && group == GroupAt(job, inputs, lines, sizing, n)
    ensures PlanOf(job, inputs, lines, sizing, taken, n + 1)
            == PlanOf(job, inputs, lines, sizing, taken, n)
                + [PlanLine(lines[n], group, Targets(lines, n), taken, inputs.have)]
  {
    PlannedIs(job, inputs, lines, sizing, taken, n, group);
    Extended(PlanOf(job, inputs, lines, sizing, taken, n + 1), PlanOf(job, inputs, lines, sizing, taken, n));
  }

  lemma PlannedIs(job: string, inputs: Inputs, lines: seq<Line>, sizing: Sizing, taken: set<string>, n: nat,
                  group: string)
    requires (sizing.PerGroup? ==> sizing.tables > 0) && n < |lines| && group == GroupAt(job, inputs, lines, sizing, n)
    ensures PlannedAt(job, inputs, lines, sizing, taken, n)
            == PlanLine(lines[n], group, Targets(lines, n), taken, inputs.have)
  {
  }

  lemma Extended<T>(more: seq<T>, s: seq<T>)
    requires |more| == |s| + 1 && forall i :: 0 <= i < |s| ==> more[i] == s[i]
    ensures more == s + [more[|s|]]
  {
  }

  function PlanLine(line: Line, group: string, seen: set<Target>, taken: set<string>, have: set<Target>): Planned {
    Planned(line, group, StatusOf(line, group, seen, taken, have))
  }

  ghost predicate Counted(sizes: map<string, Sizes>, inputs: Inputs, lines: seq<Line>, n: nat)
    requires n <= |lines|
  {
    forall server :: SizesIn(sizes, server) == SizesOf(inputs, lines, server, n)
  }

  /** The tables the file gives each new database, by server. */
  method CountSizes(known: map<Database, string>, ghost have: set<Target>, join: Lightest, lines: seq<Line>)
    returns (sizes: map<string, Sizes>)
    ensures Counted(sizes, Inputs(known, join.State(), have), lines, |lines|)
  {
    sizes := map[];
    ghost var inputs := Inputs(known, join.State(), have);
    for n := 0 to |lines|
      invariant Counted(sizes, inputs, lines, n)
    {
      var line := lines[n];
      if KeyOf(line) !in known && !Knows(join.State(), line.server) {
        sizes := sizes[line.server := AddTables(SizesIn(sizes, line.server), Lower(line.database), 1)];
      }
    }
  }

  function SizesIn(sizes: map<string, Sizes>, server: string): Sizes {
    if server in sizes then sizes[server] else map[]
  }

  method PlaceLine(job: string, known: map<Database, string>, join: Lightest, sizes: map<string, Sizes>,
                   sizing: Sizing, line: Line)
    returns (group: string)
    requires LightestGroup.Valid(join.State()) && (sizing.PerGroup? ==> sizing.tables > 0)
    modifies join
    ensures LightestGroup.Valid(join.State())
    ensures join.State() == JoinedOne(known, old(join.State()), line)
    ensures group == PlaceOf(job, known, old(join.State()), sizes, sizing, line)
  {
    if KeyOf(line) in known {
      return known[KeyOf(line)];
    }
    var joined := join.Place(line.server, line.database, 1);
    match joined {
      case Some(name) => group := name;
      case None => group := PlaceEvenly(job, SizesIn(sizes, line.server), sizing, line.server, Lower(line.database));
    }
  }

  method PlaceEvenly(job: string, sizes: Sizes, sizing: Sizing, server: string, key: string) returns (group: string)
    requires sizing.PerGroup? ==> sizing.tables > 0
    ensures group == EvenGroup(job, sizes, sizing, server, key)
  {
    var placed := SpreadOut(sizes, AtLeastOne(GroupCount(Sum(sizes), sizing)));
    group := GroupName(Prefix(job, server), IndexIn(placed, key) + 1);
  }

  method SpreadOut(sizes: Sizes, groups: nat) returns (placed: map<string, nat>)
    requires groups > 0
    ensures placed == Spread(sizes, groups)
  {
    placed := PlaceInOrder(BiggestFirst(sizes), sizes, Zeros(groups));
  }
}
