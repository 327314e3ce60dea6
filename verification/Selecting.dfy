/** What a selection takes of a source, one database at a time: the paging, units, batches and matching of rows in
    app/src/by_database.py, against the filter the selection's own queries apply (app/src/queries.py).

    A unit is one database, whole or in part. The whole ones come first: those of the source whose name holds the
    filter, when the selection is of a whole server, then those named. Tables named of a database taken whole add
    nothing. A database is told apart by its server and its name in lower case, so one named twice in different case is
    one unit: with the tables named under the spelling met first. */
module Selecting {
  import opened Text

  datatype Table = Table(server: string, database: string, schema: string, name: string)

  datatype Named = Named(server: string, database: string)

  datatype NamedTables = NamedTables(server: string, database: string, tables: seq<string>)

  /** Every database whose name holds the filter (wholeServer), whole databases, and some tables of others. */
  datatype Selection = Selection(wholeServer: bool, filter: string, databases: seq<Named>, tables: seq<NamedTables>)

  /** A database a selection takes: all its tables, or only those named. */
  datatype Unit = Unit(server: string, database: string, every: bool, tables: set<string>)

  type Pair = (string, string)

  function PairOf(server: string, database: string): Pair {
    (Lower(server), Lower(database))
  }

  predicate Covered(selection: Selection, database: string) {
    selection.wholeServer && Contains(Lower(database), Lower(selection.filter))
  }

  // ---- pages --------------------------------------------------------------------------------------------------------

  const DATABASE_PAGE := 500

  /** The order of a source's databases: server, lower-case name, name. */
  predicate KeyBefore(a: Named, b: Named) {
    Precedes(a.server, b.server)
    || (a.server == b.server
        && (Precedes(Lower(a.database), Lower(b.database))
            || (Lower(a.database) == Lower(b.database) && Precedes(a.database, b.database))))
  }

  ghost predicate InKeyOrder(listing: seq<Named>) {
    forall i, j :: 0 <= i < j < |listing| ==> KeyBefore(listing[i], listing[j])
  }

  /** The rows after a key, in order: what the page query answers, up to a page of them. */
  function RowsAfter(listing: seq<Named>, key: Named, n: nat): seq<Named>
    requires n <= |listing|
  {
    if n == 0 then [] else
      RowsAfter(listing, key, n - 1) + if KeyBefore(key, listing[n - 1]) then [listing[n - 1]] else []
  }

  function Page(listing: seq<Named>, after: Named): seq<Named> {
    var rows := RowsAfter(listing, after, |listing|);
    if |rows| <= DATABASE_PAGE then rows else rows[..DATABASE_PAGE]
  }

  lemma KeyBeforeIsStrict(a: Named, b: Named)
    requires KeyBefore(a, b)
    ensures !KeyBefore(b, a) && a != b
  {
    PrecedesIsTotal(a.server, b.server);
    PrecedesIsTotal(Lower(a.database), Lower(b.database));
    PrecedesIsTotal(a.database, b.database);
  }

  lemma AfterInOrder(listing: seq<Named>, i: nat, k: nat)
    requires InKeyOrder(listing) && i < |listing| && k < |listing|
    ensures KeyBefore(listing[i], listing[k]) <==> i < k
  {
    if k <= i && KeyBefore(listing[i], listing[k]) {
      KeyBeforeIsStrict(listing[i], listing[k]);
    }
  }

  lemma {:induction false} RowsAfterOne(listing: seq<Named>, i: nat, n: nat)
    requires InKeyOrder(listing) && i < |listing| && n <= |listing|
    ensures RowsAfter(listing, listing[i], n) == if n <= i then [] else listing[i + 1..n]
    decreases n
  {
    if n > 0 {
      RowsAfterOne(listing, i, n - 1);
      AfterInOrder(listing, i, n - 1);
      if n - 1 > i {
        SliceGrows(listing, i + 1, n - 1);
      }
    }
  }

  lemma SliceGrows(listing: seq<Named>, i: nat, n: nat)
    requires i <= n < |listing|
    ensures listing[i..n] + [listing[n]] == listing[i..n + 1]
  {
  }

  lemma {:induction false} RowsAfterNone(listing: seq<Named>, key: Named, n: nat)
    requires n <= |listing| && forall i :: 0 <= i < |listing| ==> KeyBefore(key, listing[i])
    ensures RowsAfter(listing, key, n) == listing[..n]
    decreases n
  {
    if n > 0 {
      RowsAfterNone(listing, key, n - 1);
      assert listing[..n] == listing[..n - 1] + [listing[n - 1]];
    }
  }

  /** The next page from the first i databases on: those that follow, up to a page. */
  function NextPage(listing: seq<Named>, i: nat): seq<Named>
    requires i <= |listing|
  {
    listing[i..if |listing| - i <= DATABASE_PAGE then |listing| else i + DATABASE_PAGE]
  }

  lemma PageIsNext(listing: seq<Named>, after: Named, i: nat)
    requires InKeyOrder(listing) && i <= |listing|
    requires if i == 0 then after == Named("", "") && forall k :: 0 <= k < |listing| ==> KeyBefore(after, listing[k])
             else after == listing[i - 1]
    ensures Page(listing, after) == NextPage(listing, i)
  {
    if i == 0 {
      RowsAfterNone(listing, after, |listing|);
      assert listing[..|listing|] == listing;
    } else {
      RowsAfterOne(listing, i - 1, |listing|);
    }
  }

  lemma PageJoins(listing: seq<Named>, i: nat)
    requires i <= |listing|
    ensures i + |NextPage(listing, i)| <= |listing|
    ensures listing[..i] + NextPage(listing, i) == listing[..i + |NextPage(listing, i)|]
    ensures |NextPage(listing, i)| < DATABASE_PAGE ==> i + |NextPage(listing, i)| == |listing|
    ensures var rows := NextPage(listing, i); rows != [] ==> rows[|rows| - 1] == listing[i + |rows| - 1]
  {
  }

  /** Every database, a page at a time, each page asked for after the last row of the one before: the pages end, and
      give the whole listing, each database once. */
  method DatabasePages(listing: seq<Named>) returns (databases: seq<Named>)
    requires InKeyOrder(listing) && forall i :: 0 <= i < |listing| ==> KeyBefore(Named("", ""), listing[i])
    ensures databases == listing
  {
    databases := [];
    var after := Named("", "");
    while true
      invariant |databases| <= |listing| && databases == listing[..|databases|]
      invariant if |databases| == 0 then after == Named("", "") else after == listing[|databases| - 1]
      decreases |listing| - |databases|
    {
      PageIsNext(listing, after, |databases|);
      PageJoins(listing, |databases|);
      var rows := Page(listing, after);
      databases := databases + rows;
      if |rows| < DATABASE_PAGE {
        return;
      }
      after := rows[|rows| - 1];
    }
  }

  // ---- units --------------------------------------------------------------------------------------------------------

  /** A row is one the selection's own queries take. */
  predicate Selected(selection: Selection, row: Table) {
    || Covered(selection, row.database)
    || (exists i :: 0 <= i < |selection.databases| &&
          PairOf(selection.databases[i].server, selection.databases[i].database) == PairOf(row.server, row.database))
    || (exists i :: 0 <= i < |selection.tables| && NamesTable(selection.tables[i], row))
  }

  predicate NamesTable(named: NamedTables, row: Table) {
    PairOf(named.server, named.database) == PairOf(row.server, row.database)
    && TableName(row) in LowerAll(named.tables)
  }

  function TableName(row: Table): string {
    Lower(row.schema + "." + row.name)
  }

  function LowerAll(names: seq<string>): set<string> {
    LowerFirst(names, |names|)
  }

  function LowerFirst(names: seq<string>, n: nat): set<string>
    requires n <= |names|
  {
    if n == 0 then {} else LowerFirst(names, n - 1) + {Lower(names[n - 1])}
  }

  function UnitPair(u: Unit): Pair {
    PairOf(u.server, u.database)
  }

  function NamedPair(named: Named): Pair {
    PairOf(named.server, named.database)
  }

  /** The databases the first n units take whole. */
  function WholePairs(units: seq<Unit>, n: nat): set<Pair>
    requires n <= |units|
  {
    if n == 0 then {} else WholePairs(units, n - 1) + if units[n - 1].every then {UnitPair(units[n - 1])} else {}
  }

  /** And those they take named tables of. */
  function PartPairs(units: seq<Unit>, n: nat): set<Pair>
    requires n <= |units|
  {
    if n == 0 then {} else PartPairs(units, n - 1) + if units[n - 1].every then {} else {UnitPair(units[n - 1])}
  }

  /** No database has two of the first n units. */
  ghost predicate Apart(units: seq<Unit>, n: nat)
    requires n <= |units|
  {
    n == 0 || (Apart(units, n - 1) && UnitPair(units[n - 1]) !in WholePairs(units, n - 1) + PartPairs(units, n - 1))
  }

  lemma {:induction false} UnitsBefore(units: seq<Unit>, more: Unit, n: nat)
    requires n <= |units|
    ensures var all := units + [more];
            && WholePairs(all, n) == WholePairs(units, n) && PartPairs(all, n) == PartPairs(units, n)
            && (Apart(all, n) <==> Apart(units, n))
    decreases n
  {
    if n > 0 {
      assert (units + [more])[n - 1] == units[n - 1];
      UnitsBefore(units, more, n - 1);
    }
  }

  lemma UnitMore(units: seq<Unit>, more: Unit)
    ensures var all, n := units + [more], |units|;
            && WholePairs(all, n + 1) == WholePairs(units, n) + (if more.every then {UnitPair(more)} else {})
            && PartPairs(all, n + 1) == PartPairs(units, n) + (if more.every then {} else {UnitPair(more)})
            && (Apart(all, n + 1) <==> Apart(units, n) && UnitPair(more) !in WholePairs(units, n) + PartPairs(units, n))
  {
    UnitsBefore(units, more, |units|);
    assert (units + [more])[|units|] == more;
  }

  function Listed(listing: seq<Named>, n: nat): set<Pair>
    requires n <= |listing|
  {
    if n == 0 then {} else Listed(listing, n - 1) + {NamedPair(listing[n - 1])}
  }

  /** No two databases of the listing are the same but for case. */
  ghost predicate ListedOnce(listing: seq<Named>, n: nat)
    requires n <= |listing|
  {
    n == 0 || (ListedOnce(listing, n - 1) && NamedPair(listing[n - 1]) !in Listed(listing, n - 1))
  }

  /** The named databases, of the first n, that the whole server does not cover. */
  function NamedWhole(selection: Selection, n: nat): set<Pair>
    requires n <= |selection.databases|
  {
    if n == 0 then {} else
      var named := selection.databases[n - 1];
      NamedWhole(selection, n - 1) + if Covered(selection, named.database) then {} else {NamedPair(named)}
  }

  /** The databases a selection takes whole. */
  function TakenWhole(selection: Selection, listing: seq<Named>): set<Pair> {
    Listed(listing, |listing|) + NamedWhole(selection, |selection.databases|)
  }

  /** The tables the first n entries name of one database, however it is spelled. */
  function NamedOf(selection: Selection, n: nat, key: Pair): set<string>
    requires n <= |selection.tables|
  {
    if n == 0 then {} else
      var named := selection.tables[n - 1];
      NamedOf(selection, n - 1, key)
      + if PairOf(named.server, named.database) == key then LowerAll(named.tables) else {}
  }

  // The named tables are gathered by lower-case server, lower-case name and name as spelled, in the order first met.

  type Spelled = (string, string, string)

  function SpelledOf(named: NamedTables): Spelled {
    (Lower(named.server), Lower(named.database), named.database)
  }

  function NamesWith(names: map<Spelled, set<string>>, key: Spelled, more: set<string>): map<Spelled, set<string>> {
    names[key := (if key in names then names[key] else {}) + more]
  }

  lemma NamesWithTwice(names: map<Spelled, set<string>>, key: Spelled, a: set<string>, b: set<string>)
    ensures NamesWith(NamesWith(names, key, a), key, b) == NamesWith(names, key, a + b)
  {
    var have := if key in names then names[key] else {};
    assert (have + a) + b == have + (a + b);
  }

  method GatherTables(tables: seq<string>, key: Spelled, order: seq<Spelled>, names: map<Spelled, set<string>>)
    returns (newOrder: seq<Spelled>, newNames: map<Spelled, set<string>>)
    ensures newOrder == if tables == [] || key in names then order else order + [key]
    ensures newNames == if tables == [] then names else NamesWith(names, key, LowerAll(tables))
  {
    newOrder, newNames := order, names;
    for i := 0 to |tables|
      invariant newOrder == if i == 0 || key in names then order else order + [key]
      invariant newNames == if i == 0 then names else NamesWith(names, key, LowerFirst(tables, i))
    {
      var name := Lower(tables[i]);
      NamesWithTwice(names, key, LowerFirst(tables, i), {name});
      assert {} + {name} == {name};
      if key !in newNames {
        newOrder := newOrder + [key];
      }
      newNames := NamesWith(newNames, key, {name});
    }
  }

  /** The tables the first n entries name of a database under one spelling. */
  function SpelledTables(selection: Selection, n: nat, key: Spelled): set<string>
    requires n <= |selection.tables|
  {
    if n == 0 then {} else
      SpelledTables(selection, n - 1, key)
      + if SpelledOf(selection.tables[n - 1]) == key then LowerAll(selection.tables[n - 1].tables) else {}
  }

  /** How the first of n entries that names a table of a database spells it. */
  function FirstSpelled(selection: Selection, n: nat, key: Pair): Maybe<string>
    requires n <= |selection.tables|
  {
    if n == 0 then None else
      var before, named := FirstSpelled(selection, n - 1, key), selection.tables[n - 1];
      if before.None? && PairOf(named.server, named.database) == key && named.tables != [] then Some(named.database)
      else before
  }

  /** The tables a unit takes of a database not taken whole: those named under its first spelling. */
  function TakenTables(selection: Selection, key: Pair): set<string> {
    match FirstSpelled(selection, |selection.tables|, key)
    case None => {}
    case Some(database) => SpelledTables(selection, |selection.tables|, (key.0, key.1, database))
  }

  ghost predicate Gathered(selection: Selection, n: nat, names: map<Spelled, set<string>>)
    requires n <= |selection.tables|
  {
    forall key :: (key in names <==> SpelledTables(selection, n, key) != {})
                  && (key in names ==> names[key] == SpelledTables(selection, n, key))
  }

  ghost predicate MetBefore(order: seq<Spelled>, k: nat)
    requires k < |order|
  {
    exists j :: 0 <= j < k && order[j].0 == order[k].0 && order[j].1 == order[k].1
  }

  /** The order has what is gathered, each database's first spelling before its others. */
  ghost predicate InOrder(selection: Selection, n: nat, order: seq<Spelled>, names: map<Spelled, set<string>>)
    requires n <= |selection.tables|
  {
    && (forall key :: key in order <==> key in names)
    && (forall k :: 0 <= k < |order| ==>
          Lower(order[k].0) == order[k].0 && Lower(order[k].2) == order[k].1
          && (MetBefore(order, k) || FirstSpelled(selection, n, (order[k].0, order[k].1)) == Some(order[k].2)))
  }

  method Gather(selection: Selection) returns (order: seq<Spelled>, names: map<Spelled, set<string>>)
    ensures Gathered(selection, |selection.tables|, names) && InOrder(selection, |selection.tables|, order, names)
  {
    order, names := [], map[];
    for n := 0 to |selection.tables|
      invariant Gathered(selection, n, names) && InOrder(selection, n, order, names)
    {
      var named := selection.tables[n];
      GatheredNext(selection, n, names);
      OrderNext(selection, n, order, names);
      order, names := GatherTables(named.tables, SpelledOf(named), order, names);
    }
  }

  function NamesNext(named: NamedTables, names: map<Spelled, set<string>>): map<Spelled, set<string>> {
    if named.tables == [] then names else NamesWith(names, SpelledOf(named), LowerAll(named.tables))
  }

  lemma LowerAllOfSome(names: seq<string>)
    ensures LowerAll(names) == {} <==> names == []
  {
    if names != [] {
      assert Lower(names[|names| - 1]) in LowerAll(names);
    }
  }

  lemma GatheredNext(selection: Selection, n: nat, names: map<Spelled, set<string>>)
    requires n < |selection.tables| && Gathered(selection, n, names)
    ensures Gathered(selection, n + 1, NamesNext(selection.tables[n], names))
  {
    var named := selection.tables[n];
    LowerAllOfSome(named.tables);
    forall key
      ensures (key in NamesNext(named, names) <==> SpelledTables(selection, n + 1, key) != {})
              && (key in NamesNext(named, names)
                  ==> NamesNext(named, names)[key] == SpelledTables(selection, n + 1, key))
    {
      GatheredOne(selection, n, names, key);
    }
  }

  lemma GatheredOne(selection: Selection, n: nat, names: map<Spelled, set<string>>, key: Spelled)
    requires n < |selection.tables| && Gathered(selection, n, names)
    requires LowerAll(selection.tables[n].tables) == {} <==> selection.tables[n].tables == []
    ensures key in NamesNext(selection.tables[n], names) <==> SpelledTables(selection, n + 1, key) != {}
    ensures key in NamesNext(selection.tables[n], names)
            ==> NamesNext(selection.tables[n], names)[key] == SpelledTables(selection, n + 1, key)
  {
    var named := selection.tables[n];
    assert SpelledTables(selection, n + 1, key)
        == SpelledTables(selection, n, key) + if SpelledOf(named) == key then LowerAll(named.tables) else {};
  }

  function OrderWith(order: seq<Spelled>, names: map<Spelled, set<string>>, named: NamedTables): seq<Spelled> {
    if named.tables == [] || SpelledOf(named) in names then order else order + [SpelledOf(named)]
  }

  lemma OrderNext(selection: Selection, n: nat, order: seq<Spelled>, names: map<Spelled, set<string>>)
    requires n < |selection.tables| && Gathered(selection, n, names) && InOrder(selection, n, order, names)
    ensures var named := selection.tables[n];
            InOrder(selection, n + 1, OrderWith(order, names, named), NamesNext(named, names))
  {
    var named := selection.tables[n];
    var more := OrderWith(order, names, named);
    forall k | 0 <= k < |more|
      ensures Lower(more[k].0) == more[k].0 && Lower(more[k].2) == more[k].1
      ensures MetBefore(more, k) || FirstSpelled(selection, n + 1, (more[k].0, more[k].1)) == Some(more[k].2)
    {
      if k < |order| {
        assert more[..|order|] == order && forall j :: 0 <= j < |order| ==> more[j] == order[j];
        if MetBefore(order, k) {
          var j :| 0 <= j < k && order[j].0 == order[k].0 && order[j].1 == order[k].1;
          assert more[j] == order[j];
        }
      } else {
        LowerTwice(named.server);
        LastIsFirst(selection, n, order, names);
      }
    }
  }

  /** A spelling new to the order is its database's first, or the order has another of it. */
  lemma LastIsFirst(selection: Selection, n: nat, order: seq<Spelled>, names: map<Spelled, set<string>>)
    requires n < |selection.tables| && Gathered(selection, n, names) && InOrder(selection, n, order, names)
    requires selection.tables[n].tables != [] && SpelledOf(selection.tables[n]) !in names
    ensures var named := selection.tables[n]; var more := order + [SpelledOf(named)];
            MetBefore(more, |order|)
            || FirstSpelled(selection, n + 1, PairOf(named.server, named.database)) == Some(named.database)
  {
    var named := selection.tables[n];
    var pair := PairOf(named.server, named.database);
    if FirstSpelled(selection, n, pair).Some? {
      FirstIsGathered(selection, n, pair);
      var first: Spelled := (pair.0, pair.1, FirstSpelled(selection, n, pair).value);
      assert first in order;
      var j :| 0 <= j < |order| && order[j] == first;
      assert (order + [SpelledOf(named)])[j] == first;
    }
  }

  lemma {:induction false} FirstIsGathered(selection: Selection, n: nat, key: Pair)
    requires n <= |selection.tables| && FirstSpelled(selection, n, key).Some?
    ensures SpelledTables(selection, n, (key.0, key.1, FirstSpelled(selection, n, key).value)) != {}
    decreases n
  {
    if FirstSpelled(selection, n - 1, key).Some? {
      FirstIsGathered(selection, n - 1, key);
    } else {
      LowerAllOfSome(selection.tables[n - 1].tables);
    }
  }

  // ---- the units a selection takes ----------------------------------------------------------------------------------

  /** What the units are: the databases taken whole, each once, and the tables named, under its first spelling, of each
      that is not. */
  ghost predicate Chosen(selection: Selection, listing: seq<Named>, units: seq<Unit>) {
    && Apart(units, |units|)
    && WholePairs(units, |units|) == TakenWhole(selection, listing)
    && (forall i :: 0 <= i < |units| && !units[i].every ==> PartOf(selection, units[i]))
    && (forall key :: TakenTables(selection, key) != {} && !CoveredKey(selection, key) ==>
          key in WholePairs(units, |units|) + PartPairs(units, |units|))
  }

  predicate CoveredKey(selection: Selection, key: Pair) {
    selection.wholeServer && Contains(key.1, Lower(selection.filter))
  }

  ghost predicate PartOf(selection: Selection, u: Unit) {
    u.tables == TakenTables(selection, UnitPair(u)) && u.tables != {} && !CoveredKey(selection, UnitPair(u))
  }

  ghost predicate PartsOk(selection: Selection, units: seq<Unit>) {
    forall i :: 0 <= i < |units| && !units[i].every ==> PartOf(selection, units[i])
  }

  /** The seen databases are those of the units so far. */
  ghost predicate Seen(units: seq<Unit>, seen: set<Pair>) {
    Apart(units, |units|) && seen == WholePairs(units, |units|) + PartPairs(units, |units|)
  }

  /** One unit more, of a database not seen yet. */
  lemma AddUnit(selection: Selection, units: seq<Unit>, seen: set<Pair>, u: Unit)
    requires Seen(units, seen) && PartsOk(selection, units) && UnitPair(u) !in seen && (u.every || PartOf(selection, u))
    ensures var all := units + [u];
            && Seen(all, seen + {UnitPair(u)}) && PartsOk(selection, all)
            && WholePairs(all, |all|) == WholePairs(units, |units|) + (if u.every then {UnitPair(u)} else {})
            && (u.every ==> PartPairs(all, |all|) == PartPairs(units, |units|))
  {
    UnitMore(units, u);
    assert (units + [u])[|units|] == u && forall i :: 0 <= i < |units| ==> (units + [u])[i] == units[i];
  }

  method SelectionUnits(selection: Selection, listing: seq<Named>) returns (units: seq<Unit>)
    requires ListedOnce(listing, |listing|)
    ensures Chosen(selection, listing, units)
  {
    var seen: set<Pair>;
    units, seen := WholeUnits(selection, listing);
    var order, names := Gather(selection);
    units, seen := PartUnits(selection, units, seen, order, names);
    EveryNamedIsSeen(selection, order, names, seen);
  }

  ghost predicate SeenFirst(selection: Selection, order: seq<Spelled>, seen: set<Pair>, n: nat)
    requires n <= |order|
  {
    forall k :: 0 <= k < n && !CoveredKey(selection, (order[k].0, order[k].1)) ==> (order[k].0, order[k].1) in seen
  }

  method PartUnits(selection: Selection, whole: seq<Unit>, wholeSeen: set<Pair>, order: seq<Spelled>,
                   names: map<Spelled, set<string>>)
    returns (units: seq<Unit>, seen: set<Pair>)
    requires Seen(whole, wholeSeen) && PartsOk(selection, whole)
    requires Gathered(selection, |selection.tables|, names) && InOrder(selection, |selection.tables|, order, names)
    ensures Seen(units, seen) && PartsOk(selection, units)
    ensures WholePairs(units, |units|) == WholePairs(whole, |whole|) && SeenFirst(selection, order, seen, |order|)
  {
    units, seen := whole, wholeSeen;
    for i := 0 to |order|
      invariant PartsSoFar(selection, whole, units, seen, order, i)
    {
      var key := order[i];
      assert key in names;
      if (key.0, key.1) !in seen && !Covered(selection, key.2) {
        AddPart(selection, whole, units, seen, order, names, i);
        seen := seen + {(key.0, key.1)};
        units := units + [Unit(key.0, key.2, false, names[key])];
      } else {
        SkipPart(selection, whole, units, seen, order, names, i);
      }
    }
  }

  ghost predicate PartsSoFar(selection: Selection, whole: seq<Unit>, units: seq<Unit>, seen: set<Pair>,
                             order: seq<Spelled>, i: nat)
  {
    && i <= |order| && Seen(units, seen) && PartsOk(selection, units)
    && WholePairs(units, |units|) == WholePairs(whole, |whole|) && SeenFirst(selection, order, seen, i)
  }

  lemma SkipPart(selection: Selection, whole: seq<Unit>, units: seq<Unit>, seen: set<Pair>, order: seq<Spelled>,
                 names: map<Spelled, set<string>>, i: nat)
    requires InOrder(selection, |selection.tables|, order, names)
    requires PartsSoFar(selection, whole, units, seen, order, i) && i < |order|
    requires (order[i].0, order[i].1) in seen || Covered(selection, order[i].2)
    ensures PartsSoFar(selection, whole, units, seen, order, i + 1)
  {
    CoveredIs(selection, order[i]);
  }

  lemma AddPart(selection: Selection, whole: seq<Unit>, units: seq<Unit>, seen: set<Pair>, order: seq<Spelled>,
                names: map<Spelled, set<string>>, i: nat)
    requires Gathered(selection, |selection.tables|, names) && InOrder(selection, |selection.tables|, order, names)
    requires PartsSoFar(selection, whole, units, seen, order, i) && i < |order| && order[i] in names
    requires (order[i].0, order[i].1) !in seen && !Covered(selection, order[i].2)
    ensures var key := order[i];
            PartsSoFar(selection, whole, units + [Unit(key.0, key.2, false, names[key])], seen + {(key.0, key.1)},
                order, i + 1)
  {
    CoveredIs(selection, order[i]);
    UnitOfSpelled(selection, order, names, seen, i);
    AddUnit(selection, units, seen, Unit(order[i].0, order[i].2, false, names[order[i]]));
  }

  lemma CoveredIs(selection: Selection, key: Spelled)
    requires Lower(key.2) == key.1
    ensures Covered(selection, key.2) <==> CoveredKey(selection, (key.0, key.1))
  {
  }

  /** The first unit made of a database is under its first spelling. */
  lemma UnitOfSpelled(selection: Selection, order: seq<Spelled>, names: map<Spelled, set<string>>, seen: set<Pair>,
                      i: nat)
    requires Gathered(selection, |selection.tables|, names) && InOrder(selection, |selection.tables|, order, names)
    requires i < |order| && SeenFirst(selection, order, seen, i) && (order[i].0, order[i].1) !in seen
    requires !CoveredKey(selection, (order[i].0, order[i].1))
    ensures var key := order[i];
            && key in names && UnitPair(Unit(key.0, key.2, false, names[key])) == (key.0, key.1)
            && PartOf(selection, Unit(key.0, key.2, false, names[key]))
  {
    var key := order[i];
    assert key in names && !MetBefore(order, i);
    assert names[key] == SpelledTables(selection, |selection.tables|, key);
  }

  lemma EveryNamedIsSeen(selection: Selection, order: seq<Spelled>, names: map<Spelled, set<string>>, seen: set<Pair>)
    requires Gathered(selection, |selection.tables|, names) && InOrder(selection, |selection.tables|, order, names)
    requires SeenFirst(selection, order, seen, |order|)
    ensures forall key :: TakenTables(selection, key) != {} && !CoveredKey(selection, key) ==> key in seen
  {
    forall key | TakenTables(selection, key) != {} && !CoveredKey(selection, key) ensures key in seen {
      var spelled: Spelled := (key.0, key.1, FirstSpelled(selection, |selection.tables|, key).value);
      assert spelled in names;
      assert spelled in order;
    }
  }

  /** Units taken whole, of the databases given. */
  ghost predicate WholeOnly(selection: Selection, units: seq<Unit>, seen: set<Pair>, whole: set<Pair>) {
    && Seen(units, seen) && PartsOk(selection, units)
    && PartPairs(units, |units|) == {} && WholePairs(units, |units|) == whole
  }

  lemma AddWhole(selection: Selection, units: seq<Unit>, seen: set<Pair>, whole: set<Pair>, named: Named)
    requires WholeOnly(selection, units, seen, whole) && NamedPair(named) !in seen
    ensures WholeOnly(selection, units + [WholeUnit(named)], seen + {NamedPair(named)}, whole + {NamedPair(named)})
  {
    AddUnit(selection, units, seen, WholeUnit(named));
  }

  /** The units taken whole: the whole server's databases, then those named that it does not cover. */
  method WholeUnits(selection: Selection, listing: seq<Named>) returns (units: seq<Unit>, seen: set<Pair>)
    requires ListedOnce(listing, |listing|)
    ensures WholeOnly(selection, units, seen, TakenWhole(selection, listing))
  {
    units, seen := [], {};
    for i := 0 to |listing|
      invariant WholeOnly(selection, units, seen, Listed(listing, i))
    {
      ListedApart(listing, i, |listing|);
      AddWhole(selection, units, seen, Listed(listing, i), listing[i]);
      seen := seen + {NamedPair(listing[i])};
      units := units + [WholeUnit(listing[i])];
    }
    for i := 0 to |selection.databases|
      invariant WholeOnly(selection, units, seen, Listed(listing, |listing|) + NamedWhole(selection, i))
    {
      var named := selection.databases[i];
      NamedNext(selection, listing, seen, i);
      if NamedPair(named) !in seen && !Covered(selection, named.database) {
        AddWhole(selection, units, seen, Listed(listing, |listing|) + NamedWhole(selection, i), named);
        seen := seen + {NamedPair(named)};
        units := units + [WholeUnit(named)];
      }
    }
  }

  function WholeUnit(named: Named): Unit {
    Unit(named.server, named.database, true, {})
  }

  lemma NamedNext(selection: Selection, listing: seq<Named>, seen: set<Pair>, i: nat)
    requires i < |selection.databases| && seen == Listed(listing, |listing|) + NamedWhole(selection, i)
    ensures var named, listed := selection.databases[i], Listed(listing, |listing|);
            listed + NamedWhole(selection, i + 1)
            == if NamedPair(named) !in seen && !Covered(selection, named.database)
               then listed + NamedWhole(selection, i) + {NamedPair(named)} else listed + NamedWhole(selection, i)
  {
  }

  lemma {:induction false} ListedApart(listing: seq<Named>, i: nat, n: nat)
    requires i < n <= |listing| && ListedOnce(listing, n)
    ensures NamedPair(listing[i]) !in Listed(listing, i)
    decreases n
  {
    if i < n - 1 {
      ListedApart(listing, i, n - 1);
    }
  }
}
