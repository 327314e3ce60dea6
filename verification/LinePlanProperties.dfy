/** What a plan of lines keeps: no database is split over groups, no target is written twice, and a new job's groups are
    the same whether planned from lines or from a listing of its databases.

    The last joins two paths of the source that place the same databases: a small file's lines (_placer in
    app/src/new_job.py, counting lines) and a whole server's listing (group_of_placement in app/src/by_database.py,
    given totals). */
module LinePlanProperties {
  import opened Text
  import opened Greedy
  import opened Placement
  import opened LightestGroup
  import opened LinePlan

  // ---- a database in one group --------------------------------------------------------------------------------------

  lemma {:induction false} JoinedKnowsTheSame(inputs: Inputs, lines: seq<Line>, n: nat, server: string)
    requires n <= |lines|
    ensures Knows(Joined(inputs, lines, n), server) <==> Knows(inputs.join, server)
    decreases n
  {
    if n > 0 {
      JoinedKnowsTheSame(inputs, lines, n - 1, server);
      JoinedNext(inputs, lines, n - 1);
      OneKnowsTheSame(inputs.known, Joined(inputs, lines, n - 1), lines[n - 1], server);
    }
  }

  lemma OneKnowsTheSame(known: map<Database, string>, join: Join, line: Line, server: string)
    ensures Knows(JoinedOne(known, join, line), server) <==> Knows(join, server)
  {
  }

  lemma {:induction false} JoinedForGood(inputs: Inputs, lines: seq<Line>, m: nat, n: nat, key: Database)
    requires m <= n <= |lines| && key in Joined(inputs, lines, m).placed
    ensures key in Joined(inputs, lines, n).placed
    ensures Joined(inputs, lines, n).placed[key] == Joined(inputs, lines, m).placed[key]
    decreases n
  {
    if m < n {
      JoinedForGood(inputs, lines, m, n - 1, key);
      JoinedNext(inputs, lines, n - 1);
      OneStays(inputs.known, Joined(inputs, lines, n - 1), lines[n - 1], key);
    }
  }

  lemma OneStays(known: map<Database, string>, join: Join, line: Line, key: Database)
    requires key in join.placed
    ensures key in JoinedOne(known, join, line).placed && JoinedOne(known, join, line).placed[key] == join.placed[key]
  {
  }

  lemma OneJoins(known: map<Database, string>, join: Join, line: Line)
    requires KeyOf(line) !in known && Knows(join, line.server)
    ensures KeyOf(line) in JoinedOne(known, join, line).placed
    ensures JoinedOne(known, join, line).placed[KeyOf(line)] == GroupOf(join, line.server, line.database)
  {
  }

  lemma PlacedGroup(join: Join, line: Line)
    requires Knows(join, line.server) && KeyOf(line) in join.placed
    ensures GroupOf(join, line.server, line.database) == join.placed[KeyOf(line)]
  {
  }

  /** Lines of one server and database, its name in any case, go to one group. */
  lemma NeverSplit(job: string, inputs: Inputs, lines: seq<Line>, sizing: Sizing, m: nat, n: nat)
    requires (sizing.PerGroup? ==> sizing.tables > 0) && m <= n < |lines| && KeyOf(lines[m]) == KeyOf(lines[n])
    ensures GroupAt(job, inputs, lines, sizing, m) == GroupAt(job, inputs, lines, sizing, n)
  {
    var key, server := KeyOf(lines[m]), lines[m].server;
    JoinedKnowsTheSame(inputs, lines, m, server);
    JoinedKnowsTheSame(inputs, lines, n, server);
    if m < n && key !in inputs.known && Knows(inputs.join, server) {
      JoinedNext(inputs, lines, m);
      OneJoins(inputs.known, Joined(inputs, lines, m), lines[m]);
      JoinedForGood(inputs, lines, m + 1, n, key);
      PlacedGroup(Joined(inputs, lines, n), lines[n]);
    }
  }

  /** A line of a new database of a server the job has goes to a group the job has there. */
  lemma JoinsAGroupOfItsServer(job: string, inputs: Inputs, lines: seq<Line>, sizing: Sizing, n: nat)
    requires (sizing.PerGroup? ==> sizing.tables > 0) && n < |lines| && LightestGroup.Valid(inputs.join)
    requires KeyOf(lines[n]) !in inputs.known && Knows(inputs.join, lines[n].server)
    ensures GroupAt(job, inputs, lines, sizing, n) in inputs.join.loads[lines[n].server]
  {
    var server := lines[n].server;
    JoinedKnowsTheSame(inputs, lines, n, server);
    JoinedIsValid(inputs, lines, n);
    JoinedGroupsStay(inputs, lines, n, server);
  }

  lemma {:induction false} JoinedIsValid(inputs: Inputs, lines: seq<Line>, n: nat)
    requires n <= |lines| && LightestGroup.Valid(inputs.join)
    ensures LightestGroup.Valid(Joined(inputs, lines, n))
    decreases n
  {
    if n > 0 {
      JoinedIsValid(inputs, lines, n - 1);
      PlacedIsValid(Joined(inputs, lines, n - 1), lines[n - 1].server, lines[n - 1].database, 1);
    }
  }

  lemma {:induction false} JoinedGroupsStay(inputs: Inputs, lines: seq<Line>, n: nat, server: string)
    requires n <= |lines| && LightestGroup.Valid(inputs.join) && Knows(inputs.join, server)
    ensures Knows(Joined(inputs, lines, n), server)
    ensures Joined(inputs, lines, n).loads[server].Keys == inputs.join.loads[server].Keys
    decreases n
  {
    JoinedKnowsTheSame(inputs, lines, n, server);
    if n > 0 {
      JoinedGroupsStay(inputs, lines, n - 1, server);
      JoinedIsValid(inputs, lines, n - 1);
      JoinedNext(inputs, lines, n - 1);
      OneGroupsStay(inputs.known, Joined(inputs, lines, n - 1), lines[n - 1], server);
    }
  }

  lemma OneGroupsStay(known: map<Database, string>, join: Join, line: Line, server: string)
    requires LightestGroup.Valid(join) && Knows(join, server)
    ensures Knows(JoinedOne(known, join, line), server)
    ensures JoinedOne(known, join, line).loads[server].Keys == join.loads[server].Keys
  {
    if line.server == server && KeyOf(line) !in known {
      assert GroupOf(join, server, line.database) in join.loads[server];
    }
  }

  // ---- a target written once ----------------------------------------------------------------------------------------

  lemma {:induction false} TargetsAre(lines: seq<Line>, n: nat, target: Target)
    requires n <= |lines|
    ensures target in Targets(lines, n) <==> exists m :: 0 <= m < n && lines[m].target == target
    decreases n
  {
    if n > 0 {
      TargetsAre(lines, n - 1, target);
    }
  }

  /** A line is written exactly when nothing is wrong with it, its group is free, no earlier line writes its target, and
      the job does not; it is left as it is when only the job writes it. */
  lemma WrittenExactly(inputs: Inputs, lines: seq<Line>, taken: set<string>, group: string, n: nat)
    requires n < |lines|
    ensures StatusAt(inputs, lines, taken, group, n) != Invalid
            <==> !lines[n].refused && group !in taken && forall m :: 0 <= m < n ==> lines[m].target != lines[n].target
    ensures StatusAt(inputs, lines, taken, group, n).Valid? ==> lines[n].target !in inputs.have
    ensures StatusAt(inputs, lines, taken, group, n).InJob? ==> lines[n].target in inputs.have
  {
    TargetsAre(lines, n, lines[n].target);
  }

  /** No two lines that are not invalid write one target, and none that is written writes a target of the job. */
  lemma TargetsAreDistinct(job: string, inputs: Inputs, lines: seq<Line>, sizing: Sizing, taken: set<string>, m: nat,
                          n: nat)
    requires (sizing.PerGroup? ==> sizing.tables > 0) && m < n < |lines|
    ensures var plan := PlanOf(job, inputs, lines, sizing, taken, |lines|);
            plan[m].status != Invalid && plan[n].status != Invalid ==> plan[m].line.target != plan[n].line.target
    ensures var plan := PlanOf(job, inputs, lines, sizing, taken, |lines|);
            plan[n].status == Status.Valid ==> plan[n].line.target !in inputs.have
  {
    TargetsAre(lines, n, lines[n].target);
  }

  // ---- one placement from lines or from a listing -------------------------------------------------------------------

  /** A database of a source's listing, with the tables the selection takes. */
  datatype Listed = Listed(server: string, database: string, tables: nat)

  function RowsOn(listing: seq<Listed>, server: string, n: nat): seq<Row>
    requires n <= |listing|
  {
    if n == 0 then [] else
      RowsOn(listing, server, n - 1)
      + if listing[n - 1].server == server then [Row(listing[n - 1].database, listing[n - 1].tables)] else []
  }

  function TablesOf(rows: seq<Row>, n: nat): nat
    requires n <= |rows|
  {
    if n == 0 then 0 else TablesOf(rows, n - 1) + rows[n - 1].tables
  }

  function ListedGroup(job: string, listing: seq<Listed>, sizing: Sizing, server: string, database: string): string
    requires sizing.PerGroup? ==> sizing.tables > 0
  {
    var rows := RowsOn(listing, server, |listing|);
    var placed := Spread(Totals(rows), AtLeastOne(GroupCount(TablesOf(rows, |rows|), sizing)));
    GroupName(Prefix(job, server), IndexIn(placed, Lower(database)) + 1)
  }

  /** The group of a database of a new job, planned from its source's listing: its server's rows, spread evenly. */
  method GroupOfListed(job: string, listing: seq<Listed>, sizing: Sizing, server: string, database: string)
    returns (group: string)
    requires sizing.PerGroup? ==> sizing.tables > 0
    ensures group == ListedGroup(job, listing, sizing, server, database)
  {
    var rows: seq<Row> := [];
    var tables: nat := 0;
    for n := 0 to |listing|
      invariant rows == RowsOn(listing, server, n) && tables == TablesOf(rows, |rows|)
    {
      if listing[n].server == server {
        TablesNext(rows, Row(listing[n].database, listing[n].tables));
        rows := rows + [Row(listing[n].database, listing[n].tables)];
        tables := tables + listing[n].tables;
      }
    }
    var placed := Even(rows, GroupCount(tables, sizing));
    group := GroupName(Prefix(job, server), IndexIn(placed, Lower(database)) + 1);
  }

  lemma {:induction false} TablesBefore(rows: seq<Row>, more: Row, n: nat)
    requires n <= |rows|
    ensures TablesOf(rows + [more], n) == TablesOf(rows, n)
    decreases n
  {
    if n > 0 {
      TablesBefore(rows, more, n - 1);
    }
  }

  lemma TablesNext(rows: seq<Row>, more: Row)
    ensures TablesOf(rows + [more], |rows + [more]|) == TablesOf(rows, |rows|) + more.tables
  {
    TablesBefore(rows, more, |rows|);
  }

  /** The lines of one database. */
  function LinesOf(lines: seq<Line>, key: Database, n: nat): nat
    requires n <= |lines|
  {
    if n == 0 then 0 else LinesOf(lines, key, n - 1) + if KeyOf(lines[n - 1]) == key then 1 else 0
  }

  const NEW_JOB := Inputs(map[], Join(map[], map[]), {})

  lemma {:induction false} SizesAreLines(lines: seq<Line>, server: string, key: string, n: nat)
    requires n <= |lines|
    ensures key in SizesOf(NEW_JOB, lines, server, n) <==> LinesOf(lines, (server, key), n) > 0
    ensures key in SizesOf(NEW_JOB, lines, server, n)
            ==> SizesOf(NEW_JOB, lines, server, n)[key] == LinesOf(lines, (server, key), n)
    decreases n
  {
    if n > 0 {
      SizesAreLines(lines, server, key, n - 1);
      assert LinePlan.Counts(NEW_JOB, lines[n - 1]);
    }
  }

  lemma {:induction false} TotalsAreTables(rows: seq<Row>, n: nat)
    requires n <= |rows|
    ensures Sum(TotalsOf(rows, n)) == TablesOf(rows, n)
    decreases n
  {
    if n == 0 {
      assert TotalsOf(rows, 0) == map[];
    } else {
      TotalsAreTables(rows, n - 1);
      TotalsStep(rows, n - 1);
      AddTablesAdds(TotalsOf(rows, n - 1), Lower(rows[n - 1].name), rows[n - 1].tables, TotalsOf(rows, n));
    }
  }

  lemma {:induction false} ListedWhenSome(rows: seq<Row>, key: string, n: nat)
    requires n <= |rows| && forall i :: 0 <= i < |rows| ==> rows[i].tables > 0
    ensures key in KeysOf(rows, n) <==> TotalOf(rows, key, n) > 0
    decreases n
  {
    if n > 0 {
      ListedWhenSome(rows, key, n - 1);
      KeysStep(rows, n - 1);
    }
  }

  lemma {:induction false} RowsHaveTables(listing: seq<Listed>, server: string, n: nat)
    requires n <= |listing| && forall i :: 0 <= i < |listing| ==> listing[i].tables > 0
    ensures forall i :: 0 <= i < |RowsOn(listing, server, n)| ==> RowsOn(listing, server, n)[i].tables > 0
    decreases n
  {
    if n > 0 {
      RowsHaveTables(listing, server, n - 1);
    }
  }

  /** The listing gives each database as many tables as it has lines. */
  ghost predicate SameTables(lines: seq<Line>, listing: seq<Listed>, server: string) {
    var rows := RowsOn(listing, server, |listing|);
    forall key :: TotalOf(rows, key, |rows|) == LinesOf(lines, (server, key), |lines|)
  }

  /** The file and the listing of the same tables put each database of a new job in the same group. */
  lemma FileAndListingAgree(job: string, lines: seq<Line>, listing: seq<Listed>, sizing: Sizing, n: nat)
    requires (sizing.PerGroup? ==> sizing.tables > 0) && n < |lines|
    requires SameTables(lines, listing, lines[n].server) && forall i :: 0 <= i < |listing| ==> listing[i].tables > 0
    ensures GroupAt(job, NEW_JOB, lines, sizing, n)
            == ListedGroup(job, listing, sizing, lines[n].server, lines[n].database)
  {
    var server := lines[n].server;
    NewJobIsEven(job, lines, sizing, n);
    SameSizes(lines, listing, server);
    ListedIsEven(job, listing, sizing, server, lines[n].database);
  }

  lemma NewJobIsEven(job: string, lines: seq<Line>, sizing: Sizing, n: nat)
    requires (sizing.PerGroup? ==> sizing.tables > 0) && n < |lines|
    ensures GroupAt(job, NEW_JOB, lines, sizing, n)
            == EvenGroup(job, SizesOf(NEW_JOB, lines, lines[n].server, |lines|), sizing, lines[n].server,
                Lower(lines[n].database))
  {
    JoinedKnowsTheSame(NEW_JOB, lines, n, lines[n].server);
  }

  lemma ListedIsEven(job: string, listing: seq<Listed>, sizing: Sizing, server: string, database: string)
    requires sizing.PerGroup? ==> sizing.tables > 0
    ensures ListedGroup(job, listing, sizing, server, database)
            == EvenGroup(job, Totals(RowsOn(listing, server, |listing|)), sizing, server, Lower(database))
  {
    var rows := RowsOn(listing, server, |listing|);
    TotalsAreTables(rows, |rows|);
  }

  lemma SameSizes(lines: seq<Line>, listing: seq<Listed>, server: string)
    requires SameTables(lines, listing, server) && forall i :: 0 <= i < |listing| ==> listing[i].tables > 0
    ensures SizesOf(NEW_JOB, lines, server, |lines|) == Totals(RowsOn(listing, server, |listing|))
  {
    var rows := RowsOn(listing, server, |listing|);
    var a, b := SizesOf(NEW_JOB, lines, server, |lines|), Totals(rows);
    RowsHaveTables(listing, server, |listing|);
    forall key ensures (key in a <==> key in b) && (key in a ==> a[key] == b[key]) {
      SizesAreLines(lines, server, key, |lines|);
      ListedWhenSome(rows, key, |rows|);
    }
  }
}
