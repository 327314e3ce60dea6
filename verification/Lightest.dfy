/** Lightest in app/src/placement.py: databases added to an existing job, each into its server's group with the fewest
    tables at that time.

    The class keeps the tables of each server's groups and the databases it has placed: a database is placed once, with
    its first table, and its later tables follow it. Every function here is of the class's state as a value, so that
    what a sequence of requests keeps can be said of it. */
module LightestGroup {
  import opened Text
  import Placement

  type Groups = map<string, nat>

  /** Fewest tables first, then by name. */
  predicate Lighter(loads: Groups, a: string, b: string)
    requires a in loads && b in loads
  {
    loads[a] < loads[b] || (loads[a] == loads[b] && Precedes(a, b))
  }

  predicate IsLightest(loads: Groups, g: string) {
    g in loads && forall h :: h in loads && h != g ==> Lighter(loads, g, h)
  }

  lemma LighterIsTransitive(loads: Groups, a: string, b: string, c: string)
    requires a in loads && b in loads && c in loads && Lighter(loads, a, b) && Lighter(loads, b, c)
    ensures Lighter(loads, a, c)
  {
    if loads[a] == loads[b] == loads[c] {
      PrecedesIsTransitive(a, b, c);
    }
  }

  lemma {:induction false} SomeLightest(loads: Groups)
    requires loads != map[]
    ensures exists g :: IsLightest(loads, g)
    decreases |loads|
  {
    var g :| g in loads;
    var rest := loads - {g};
    if rest == map[] {
      assert IsLightest(loads, g) by { assert forall h :: h in loads ==> h == g || h in rest; }
    } else {
      SomeLightest(rest);
      var l :| IsLightest(rest, l);
      LightestOfMore(loads, g, l);
    }
  }

  lemma LightestOfMore(loads: Groups, g: string, l: string)
    requires g in loads && g != l && IsLightest(loads - {g}, l)
    ensures IsLightest(loads, if Lighter(loads, l, g) then l else g)
  {
    PrecedesIsTotal(g, l);
    forall h | h in loads && h != g && h != l
      ensures Lighter(loads, l, h) && (Lighter(loads, g, l) ==> Lighter(loads, g, h)) {
      assert Lighter(loads - {g}, l, h);
      if Lighter(loads, g, l) {
        LighterIsTransitive(loads, g, l, h);
      }
    }
  }

  lemma OneLightest(loads: Groups)
    ensures forall a, b :: IsLightest(loads, a) && IsLightest(loads, b) ==> a == b
  {
    forall a, b | IsLightest(loads, a) && IsLightest(loads, b) ensures a == b { PrecedesIsTotal(a, b); }
  }

  function Pick(loads: Groups): (g: string)
    requires loads != map[]
    ensures IsLightest(loads, g)
  {
    SomeLightest(loads);
    OneLightest(loads);
    var g :| g in loads && IsLightest(loads, g);
    g
  }

  // ---- placing ------------------------------------------------------------------------------------------------------

  type Database = (string, string)

  /** The tables of each server's groups, and the databases placed so far. */
  datatype Join = Join(loads: map<string, Groups>, placed: map<Database, string>)

  predicate Knows(j: Join, server: string) {
    server in j.loads && j.loads[server] != map[]
  }

  /** Each database placed is in a group of its server. */
  ghost predicate Valid(j: Join) {
    forall d :: d in j.placed ==> Knows(j, d.0) && j.placed[d] in j.loads[d.0]
  }

  function GroupOf(j: Join, server: string, database: string): string
    requires Knows(j, server)
  {
    if (server, Lower(database)) in j.placed then j.placed[(server, Lower(database))] else Pick(j.loads[server])
  }

  function Placed(j: Join, server: string, database: string, tables: nat): Join {
    if !Knows(j, server) then j else
      var group := GroupOf(j, server, database);
      Join(j.loads[server := Placement.AddTables(j.loads[server], group, tables)],
          j.placed[(server, Lower(database)) := group])
  }

  class Lightest {
    var loads: map<string, Groups>
    var placed: map<Database, string>

    constructor (tablesByGroup: map<string, Groups>)
      ensures State() == Join(tablesByGroup, map[]) && Valid(State())
    {
      loads, placed := tablesByGroup, map[];
    }

    function State(): Join
      reads this
    {
      Join(loads, placed)
    }

    /** The group of a database's tables; None when the server has no group in the job yet. */
    method Place(server: string, database: string, tables: nat) returns (group: Maybe<string>)
      requires Valid(State())
      modifies this
      ensures State() == Placed(old(State()), server, database, tables) && Valid(State())
      ensures group == if Knows(old(State()), server) then Some(GroupOf(old(State()), server, database)) else None
    {
      ghost var was := State();
      PlacedIsValid(was, server, database, tables);
      if server !in loads || loads[server] == map[] {
        return None;
      }
      var key := (server, Lower(database));
      if key in placed {
        group := Some(placed[key]);
      } else {
        group := Some(Pick(loads[server]));
        placed := placed[key := group.value];
      }
      assert placed[key := group.value] == placed;
      loads := loads[server := Placement.AddTables(loads[server], group.value, tables)];
    }
  }

  lemma PlacedIsValid(j: Join, server: string, database: string, tables: nat)
    requires Valid(j)
    ensures Valid(Placed(j, server, database, tables))
  {
  }

  // ---- what placing keeps -------------------------------------------------------------------------------------------

  datatype Asked = Asked(server: string, database: string, tables: nat)

  /** The state after the first n databases asked for. */
  function After(j: Join, asked: seq<Asked>, n: nat): Join
    requires n <= |asked|
  {
    if n == 0 then j else Placed(After(j, asked, n - 1), asked[n - 1].server, asked[n - 1].database,
        asked[n - 1].tables)
  }

  lemma {:induction false} KnowsTheSame(j: Join, asked: seq<Asked>, n: nat, server: string)
    requires n <= |asked|
    ensures Knows(After(j, asked, n), server) <==> Knows(j, server)
    decreases n
  {
    if n > 0 {
      KnowsTheSame(j, asked, n - 1, server);
    }
  }

  /** A database placed once keeps its group, however many tables of it and of others follow. */
  lemma {:induction false} PlacedForGood(j: Join, asked: seq<Asked>, m: nat, n: nat, server: string, database: string)
    requires m <= n <= |asked| && (server, Lower(database)) in After(j, asked, m).placed
    ensures (server, Lower(database)) in After(j, asked, n).placed
    ensures After(j, asked, n).placed[(server, Lower(database))] == After(j, asked, m).placed[(server, Lower(database))]
    decreases n
  {
    if m < n {
      PlacedForGood(j, asked, m, n - 1, server, database);
    }
  }

  /** Two tables of one database, its name in any case, go to one group. */
  lemma SameDatabaseSameGroup(j: Join, asked: seq<Asked>, m: nat, n: nat)
    requires m < n < |asked| && asked[m].server == asked[n].server
            && Lower(asked[m].database) == Lower(asked[n].database)
    requires Knows(j, asked[m].server)
    ensures Knows(After(j, asked, m), asked[m].server) && Knows(After(j, asked, n), asked[n].server)
    ensures GroupOf(After(j, asked, m), asked[m].server, asked[m].database)
            == GroupOf(After(j, asked, n), asked[n].server, asked[n].database)
  {
    KnowsTheSame(j, asked, m, asked[m].server);
    KnowsTheSame(j, asked, n, asked[n].server);
    PlacedForGood(j, asked, m + 1, n, asked[m].server, asked[m].database);
  }

  /** Every table placed counts once, in a group of its server, and no other server's groups change. */
  lemma EveryTableCounts(j: Join, server: string, database: string, tables: nat)
    requires Knows(j, server)
    ensures var after := Placed(j, server, database, tables);
            && server in after.loads && Placement.Sum(after.loads[server]) == Placement.Sum(j.loads[server]) + tables
            && forall s :: s in j.loads && s != server ==> s in after.loads && after.loads[s] == j.loads[s]
  {
    Placement.AddTablesAdds(j.loads[server], GroupOf(j, server, database), tables,
                            Placed(j, server, database, tables).loads[server]);
  }
}
