/** app/src/placement.py: how many groups a server's tables take, and the spread of a new job's databases over them. */
module Placement {
  import opened Greedy
  import opened Text

  const TABLES_PER_GROUP := 10_000

  // ---- how many groups ----------------------------------------------------------------------------------------------

  /** One group per perGroup tables, a remainder of more than a tenth of a group adding one more, and at least one. */
  function GroupsForTables(tables: int, perGroup: nat): nat
    requires perGroup > 0
  {
    var known := if tables < 0 then 0 else tables;
    var all := known / perGroup + if 10 * (known % perGroup) > perGroup then 1 else 0;
    if all < 1 then 1 else all
  }

  /** What sizes a server's groups: a number of groups, a number of tables per group, or neither. */
  datatype Sizing = Default | Number(groups: nat) | PerGroup(tables: nat)

  function GroupCount(tables: int, sizing: Sizing): nat
    requires sizing.PerGroup? ==> sizing.tables > 0
  {
    match sizing
    case PerGroup(size) => GroupsForTables(tables, size)
    case Number(groups) => if groups > 0 then groups else GroupsForTables(tables, TABLES_PER_GROUP)
    case Default => GroupsForTables(tables, TABLES_PER_GROUP)
  }

  lemma QuotientsInOrder(fewer: nat, more: nat, per: nat)
    requires per > 0 && fewer <= more
    ensures fewer / per <= more / per
  {
    var a, b := fewer / per, more / per;
    assert per * a <= fewer && more < per * b + per;
    assert per * (b + 1) == per * b + per;
    if a > b {
      MulMonotone(per, b + 1, a);
      assert false;
    }
  }

  /** More tables never make fewer groups. */
  lemma MoreTablesMoreGroups(fewer: int, more: int, perGroup: nat)
    requires perGroup > 0 && fewer <= more
    ensures GroupsForTables(fewer, perGroup) <= GroupsForTables(more, perGroup)
  {
    if fewer > 0 {
      QuotientsInOrder(fewer, more, perGroup);
      if fewer / perGroup == more / perGroup {
        assert fewer % perGroup <= more % perGroup;
      }
    }
  }

  /** The groups hold all the tables with at most a tenth more than perGroup in each. */
  lemma GroupsTakeTheTables(tables: nat, perGroup: nat)
    requires perGroup > 0
    ensures 10 * tables <= GroupsForTables(tables, perGroup) * (11 * perGroup)
  {
    var whole, rest, groups := tables / perGroup, tables % perGroup, GroupsForTables(tables, perGroup);
    assert tables == perGroup * whole + rest;
    if 10 * rest > perGroup {
      assert groups == whole + 1;
      assert (whole + 1) * (11 * perGroup) == 10 * (perGroup * whole) + perGroup * whole + 11 * perGroup;
    } else if whole >= 1 {
      assert groups == whole;
      MulMonotone(perGroup, 1, whole);
      assert whole * (11 * perGroup) == 10 * (perGroup * whole) + perGroup * whole;
    } else {
      assert perGroup * whole == 0;
    }
  }

  // ---- sizes by name, and their order -------------------------------------------------------------------------------

  type Sizes = map<string, nat>

  /** The sort key of every list here: more tables first, then the name. */
  predicate Before(sizes: Sizes, a: string, b: string)
    requires a in sizes && b in sizes
  {
    sizes[a] > sizes[b] || (sizes[a] == sizes[b] && Precedes(a, b))
  }

  lemma BeforeIsTotal(sizes: Sizes, a: string, b: string)
    requires a in sizes && b in sizes
    ensures a == b ==> !Before(sizes, a, b)
    ensures a != b ==> Before(sizes, a, b) != Before(sizes, b, a)
  {
    PrecedesIsTotal(a, b);
  }

  lemma BeforeIsTransitive(sizes: Sizes, a: string, b: string, c: string)
    requires a in sizes && b in sizes && c in sizes
    requires Before(sizes, a, b) && Before(sizes, b, c)
    ensures Before(sizes, a, c)
  {
    if sizes[a] == sizes[b] == sizes[c] {
      PrecedesIsTransitive(a, b, c);
    }
  }

  predicate IsFirst(sizes: Sizes, k: string) {
    k in sizes && forall j :: j in sizes && j != k ==> Before(sizes, k, j)
  }

  lemma {:induction false} SomeFirst(sizes: Sizes)
    requires sizes != map[]
    ensures exists k :: IsFirst(sizes, k)
    decreases |sizes|
  {
    var k :| k in sizes;
    var rest := sizes - {k};
    if rest == map[] {
      assert forall j :: j in sizes ==> j == k || j in rest;
      assert IsFirst(sizes, k);
    } else {
      SomeFirst(rest);
      var f :| IsFirst(rest, f);
      FirstOfMore(sizes, k, f);
    }
  }

  lemma FirstOfMore(sizes: Sizes, k: string, f: string)
    requires k in sizes && k != f && IsFirst(sizes - {k}, f)
    ensures IsFirst(sizes, if Before(sizes, f, k) then f else k)
  {
    forall j | j in sizes && j != k && j != f
      ensures Before(sizes, f, j) && (Before(sizes, k, f) ==> Before(sizes, k, j)) {
      assert Before(sizes - {k}, f, j);
      if Before(sizes, k, f) {
        BeforeIsTransitive(sizes, k, f, j);
      }
    }
    BeforeIsTotal(sizes, k, f);
  }

  lemma OneFirst(sizes: Sizes, a: string, b: string)
    requires IsFirst(sizes, a) && IsFirst(sizes, b)
    ensures a == b
  {
    BeforeIsTotal(sizes, a, b);
  }

  lemma OnlyFirst(sizes: Sizes)
    ensures forall a, b :: IsFirst(sizes, a) && IsFirst(sizes, b) ==> a == b
  {
    forall a, b | IsFirst(sizes, a) && IsFirst(sizes, b) ensures a == b { OneFirst(sizes, a, b); }
  }

  function First(sizes: Sizes): (k: string)
    requires sizes != map[]
    ensures IsFirst(sizes, k)
  {
    SomeFirst(sizes);
    OnlyFirst(sizes);
    var k :| k in sizes && IsFirst(sizes, k);
    k
  }

  ghost predicate Within(order: seq<string>, sizes: Sizes) {
    forall i :: 0 <= i < |order| ==> order[i] in sizes
  }

  /** Every name, the biggest first. */
  function BiggestFirst(sizes: Sizes): (order: seq<string>)
    ensures |order| == |sizes| && forall i :: 0 <= i < |order| ==> order[i] in sizes
    decreases |sizes|
  {
    if sizes == map[] then [] else
      var k := First(sizes);
      [k] + BiggestFirst(sizes - {k})
  }

  ghost predicate Sorted(order: seq<string>, sizes: Sizes)
    requires Within(order, sizes)
  {
    forall i, j :: 0 <= i < j < |order| ==> Before(sizes, order[i], order[j])
  }

  lemma {:induction false} BiggestFirstIsSorted(sizes: Sizes)
    ensures Sorted(BiggestFirst(sizes), sizes)
    decreases |sizes|
  {
    if sizes != map[] {
      var k := First(sizes);
      var rest := BiggestFirst(sizes - {k});
      BiggestFirstIsSorted(sizes - {k});
      SortedCons(sizes, k, rest);
    }
  }

  lemma SortedCons(sizes: Sizes, k: string, rest: seq<string>)
    requires IsFirst(sizes, k) && Within(rest, sizes - {k}) && Sorted(rest, sizes - {k})
    ensures Within([k] + rest, sizes) && Sorted([k] + rest, sizes)
  {
    var order := [k] + rest;
    forall i, j | 0 <= i < j < |order|
      ensures order[i] in sizes && order[j] in sizes && Before(sizes, order[i], order[j]) {
      assert rest[j - 1] in sizes - {k};
      if i > 0 {
        assert Before(sizes - {k}, rest[i - 1], rest[j - 1]);
      }
    }
  }

  /** The first n names of an order. */
  function Names(order: seq<string>, n: nat): set<string>
    requires n <= |order|
  {
    if n == 0 then {} else Names(order, n - 1) + {order[n - 1]}
  }

  lemma {:induction false} NameAt(order: seq<string>, n: nat, i: nat)
    requires i < n <= |order|
    ensures order[i] in Names(order, n)
    decreases n
  {
    if i < n - 1 {
      NameAt(order, n - 1, i);
    }
  }

  lemma {:induction false} IndexOf(order: seq<string>, n: nat, name: string) returns (i: nat)
    requires n <= |order| && name in Names(order, n)
    ensures i < n && order[i] == name
    decreases n
  {
    if order[n - 1] == name {
      i := n - 1;
    } else {
      i := IndexOf(order, n - 1, name);
    }
  }

  lemma {:induction false} NamesOfCons(k: string, rest: seq<string>, n: nat)
    requires n <= |rest|
    ensures Names([k] + rest, n + 1) == {k} + Names(rest, n)
    decreases n
  {
    if n > 0 {
      NamesOfCons(k, rest, n - 1);
    } else {
      assert Names([k] + rest, 0) == {};
    }
  }

  lemma {:induction false} BiggestFirstHasAll(sizes: Sizes)
    ensures Names(BiggestFirst(sizes), |sizes|) == sizes.Keys
    decreases |sizes|
  {
    if sizes != map[] {
      var k := First(sizes);
      BiggestFirstHasAll(sizes - {k});
      NamesOfCons(k, BiggestFirst(sizes - {k}), |sizes| - 1);
    }
  }

  /** No name twice. */
  ghost predicate Distinct(order: seq<string>) {
    forall i {:trigger Names(order, i)} :: 0 <= i < |order| ==> order[i] !in Names(order, i)
  }

  lemma DifferentAt(order: seq<string>, i: nat, j: nat)
    requires Distinct(order) && i < |order| && j < |order| && i != j
    ensures order[i] != order[j]
  {
    if i < j {
      NameAt(order, j, i);
      assert order[j] !in Names(order, j);
    } else {
      NameAt(order, i, j);
      assert order[i] !in Names(order, i);
    }
  }

  lemma AllDifferent(order: seq<string>)
    requires forall i, j :: 0 <= i < j < |order| ==> order[i] != order[j]
    ensures Distinct(order)
  {
    forall i {:trigger Names(order, i)} | 0 <= i < |order| ensures order[i] !in Names(order, i) {
      if order[i] in Names(order, i) {
        var j := IndexOf(order, i, order[i]);
        assert false;
      }
    }
  }

  lemma {:induction false} NamesAmong(order: seq<string>, n: nat, all: set<string>)
    requires n <= |order| && forall i :: 0 <= i < n ==> order[i] in all
    ensures Names(order, n) <= all
    decreases n
  {
    if n > 0 {
      NamesAmong(order, n - 1, all);
    }
  }

  lemma {:induction false} NamesApart(order: seq<string>, n: nat, others: set<string>)
    requires n <= |order| && forall i :: 0 <= i < n ==> order[i] !in others
    ensures Names(order, n) !! others
    decreases n
  {
    if n > 0 {
      NamesApart(order, n - 1, others);
    }
  }

  lemma BiggestFirstIsDistinct(sizes: Sizes)
    ensures Distinct(BiggestFirst(sizes))
  {
    var order := BiggestFirst(sizes);
    BiggestFirstIsSorted(sizes);
    forall i, j | 0 <= i < j < |order| ensures order[i] != order[j] { BeforeIsTotal(sizes, order[i], order[j]); }
    AllDifferent(order);
  }

  /** What a map gives each name of an order: the databases' sizes, or the groups they are placed in. */
  function Along(order: seq<string>, values: map<string, nat>): (along: seq<nat>)
    requires Within(order, values)
    ensures |along| == |order|
    ensures forall i :: 0 <= i < |order| ==> along[i] == values[order[i]]
  {
    seq(|order|, i requires 0 <= i < |order| => values[order[i]])
  }

  // ---- sums ---------------------------------------------------------------------------------------------------------

  function Sum(sizes: Sizes): nat
    decreases |sizes|
  {
    if sizes == map[] then 0 else
      var k := First(sizes);
      sizes[k] + Sum(sizes - {k})
  }

  lemma {:induction false} SumAdds(sizes: Sizes, k: string, n: nat)
    requires k !in sizes
    ensures Sum(sizes[k := n]) == Sum(sizes) + n
    decreases |sizes|
  {
    var more := sizes[k := n];
    assert k in more;
    var f := First(more);
    if f == k {
      assert more - {k} == sizes;
    } else {
      OneFirst(sizes, f, First(sizes)) by { assert forall j :: j in sizes && j != f ==> Before(more, f, j); }
      assert more - {f} == (sizes - {f})[k := n];
      SumAdds(sizes - {f}, k, n);
    }
  }

  /** Some tables more under one name, which starts from none. */
  function AddTables(sizes: Sizes, key: string, tables: nat): Sizes {
    sizes[key := (if key in sizes then sizes[key] else 0) + tables]
  }

  lemma AddTablesAdds(sizes: Sizes, key: string, tables: nat, after: Sizes)
    requires after == AddTables(sizes, key, tables)
    ensures Sum(after) == Sum(sizes) + tables
  {
    if key in sizes {
      SameRest(sizes, key, after);
      SumWithout(sizes, key);
      SumWithout(after, key);
    } else {
      SumAdds(sizes, key, tables);
    }
  }

  lemma SameRest(sizes: Sizes, key: string, after: Sizes)
    requires key in after && after == sizes[key := after[key]]
    ensures after - {key} == sizes - {key}
  {
  }

  lemma SumWithout(sizes: Sizes, k: string)
    requires k in sizes
    ensures Sum(sizes) == Sum(sizes - {k}) + sizes[k]
  {
    assert sizes == (sizes - {k})[k := sizes[k]];
    SumAdds(sizes - {k}, k, sizes[k]);
  }

  ghost predicate Parts(whole: Sizes, a: Sizes, b: Sizes) {
    && whole.Keys == a.Keys + b.Keys
    && a.Keys !! b.Keys
    && (forall k :: k in a ==> whole[k] == a[k])
    && (forall k :: k in b ==> whole[k] == b[k])
  }

  lemma PartsWithout(whole: Sizes, a: Sizes, b: Sizes, k: string)
    requires Parts(whole, a, b) && k in b
    ensures Parts(whole - {k}, a, b - {k}) && |b - {k}| < |b|
  {
    assert b == (b - {k})[k := b[k]];
  }

  lemma {:induction false} SumOfParts(whole: Sizes, a: Sizes, b: Sizes)
    requires Parts(whole, a, b)
    ensures Sum(whole) == Sum(a) + Sum(b)
    decreases |b|
  {
    if b == map[] {
      assert whole == a;
    } else {
      var k :| k in b;
      PartsWithout(whole, a, b, k);
      SumOfParts(whole - {k}, a, b - {k});
      SumWithout(whole, k);
      SumWithout(b, k);
      assert whole[k] == b[k];
    }
  }

  /** What one group holds: the sizes of the databases placed in it. */
  function Load(placed: map<string, nat>, sizes: Sizes, group: nat): nat {
    Sum(map k | k in placed && k in sizes && placed[k] == group :: sizes[k])
  }

  lemma LoadAdds(placed: map<string, nat>, sizes: Sizes, k: string, to: nat, group: nat)
    requires k !in placed && k in sizes
    ensures Load(placed[k := to], sizes, group) == Load(placed, sizes, group) + if to == group then sizes[k] else 0
  {
    var held := map j | j in placed && j in sizes && placed[j] == group :: sizes[j];
    var after := map j | j in placed[k := to] && j in sizes && placed[k := to][j] == group :: sizes[j];
    if to == group {
      assert after == held[k := sizes[k]];
      SumAdds(held, k, sizes[k]);
    } else {
      assert after == held;
    }
  }

  // ---- the spread of a new job's databases --------------------------------------------------------------------------

  /** A row of a source: a database's name as spelled there, and some of its tables. */
  datatype Row = Row(name: string, tables: nat)

  /** The tables the first n rows give a database, its name in lower case. */
  function TotalOf(rows: seq<Row>, key: string, n: nat): nat
    requires n <= |rows|
  {
    if n == 0 then 0 else TotalOf(rows, key, n - 1) + if Lower(rows[n - 1].name) == key then rows[n - 1].tables else 0
  }

  function KeysOf(rows: seq<Row>, n: nat): set<string>
    requires n <= |rows|
  {
    set i | 0 <= i < n :: Lower(rows[i].name)
  }

  function TotalsOf(rows: seq<Row>, n: nat): Sizes
    requires n <= |rows|
  {
    map k | k in KeysOf(rows, n) :: TotalOf(rows, k, n)
  }

  /** Each database, in lower case, with all its tables. */
  function Totals(rows: seq<Row>): Sizes {
    TotalsOf(rows, |rows|)
  }

  function AtLeastOne(groups: int): nat {
    if groups < 1 then 1 else groups
  }

  /** The placement the first n names of an order get from their slots. */
  function Placing(order: seq<string>, slots: seq<nat>, n: nat): map<string, nat>
    requires n <= |order| == |slots|
  {
    if n == 0 then map[] else Placing(order, slots, n - 1)[order[n - 1] := slots[n - 1]]
  }

  /** The even placement: each database's group, by index. */
  function Spread(sizes: Sizes, groups: nat): map<string, nat>
    requires groups > 0
  {
    var order := BiggestFirst(sizes);
    Placing(order, Slots(Along(order, sizes), Zeros(groups)), |order|)
  }

  /** The sizes built up row by row, then each database, the biggest first, into the group with the fewest tables. */
  method Even(databases: seq<Row>, groups: int) returns (placed: map<string, nat>)
    ensures placed == Spread(Totals(databases), AtLeastOne(groups))
  {
    var sizes: Sizes := map[];
    for i := 0 to |databases|
      invariant sizes == TotalsOf(databases, i)
    {
      TotalsStep(databases, i);
      sizes := AddTables(sizes, Lower(databases[i].name), databases[i].tables);
    }
    placed := PlaceInOrder(BiggestFirst(sizes), sizes, Zeros(AtLeastOne(groups)));
  }

  /** Each name, in order, into the group with the fewest tables, from groups that hold some already. */
  method PlaceInOrder(order: seq<string>, sizes: Sizes, start: seq<nat>) returns (placed: map<string, nat>)
    requires start != [] && Within(order, sizes)
    ensures placed == Placing(order, Slots(Along(order, sizes), start), |order|)
  {
    var loads := start;
    placed := map[];
    ghost var weights, slots := Along(order, sizes), Slots(Along(order, sizes), start);
    SlotsTakeLightest(weights, start);
    for i := 0 to |order|
      invariant loads == Loads(weights, start, i)
      invariant placed == Placing(order, slots, i)
    {
      var index := Lightest(loads);
      assert index == slots[i];
      placed := placed[order[i] := index];
      loads := loads[index := loads[index] + sizes[order[i]]];
    }
  }

  lemma TotalsStep(rows: seq<Row>, i: nat)
    requires i < |rows|
    ensures var before, key := TotalsOf(rows, i), Lower(rows[i].name);
            TotalsOf(rows, i + 1) == AddTables(before, key, rows[i].tables)
  {
    KeysStep(rows, i);
    if Lower(rows[i].name) !in KeysOf(rows, i) {
      TotalOfAbsent(rows, Lower(rows[i].name), i);
    }
  }

  lemma KeysStep(rows: seq<Row>, i: nat)
    requires i < |rows|
    ensures KeysOf(rows, i + 1) == KeysOf(rows, i) + {Lower(rows[i].name)}
  {
  }

  lemma {:induction false} TotalOfAbsent(rows: seq<Row>, key: string, n: nat)
    requires n <= |rows| && key !in KeysOf(rows, n)
    ensures TotalOf(rows, key, n) == 0
    decreases n
  {
    if n > 0 {
      assert Lower(rows[n - 1].name) in KeysOf(rows, n);
      TotalOfAbsent(rows, key, n - 1);
    }
  }

  // ---- what the spread guarantees -----------------------------------------------------------------------------------

  lemma {:induction false} PlacingAt(order: seq<string>, slots: seq<nat>, n: nat)
    requires n <= |order| == |slots| && Distinct(order)
    ensures Placing(order, slots, n).Keys == Names(order, n)
    ensures forall i :: 0 <= i < n ==>
              order[i] in Placing(order, slots, n) && Placing(order, slots, n)[order[i]] == slots[i]
    decreases n
  {
    if n > 0 {
      PlacingAt(order, slots, n - 1);
    }
  }

  lemma LoadOfNothing(sizes: Sizes, group: nat)
    ensures Load(map[], sizes, group) == 0
  {
  }

  lemma {:induction false} PlacingLoads(order: seq<string>, sizes: Sizes, slots: seq<nat>, group: nat, n: nat)
    requires n <= |order| == |slots| && Distinct(order) && Within(order, sizes)
    ensures Load(Placing(order, slots, n), sizes, group) == Held(Along(order, sizes), slots, group, n)
    decreases n
  {
    if n == 0 {
      LoadOfNothing(sizes, group);
    } else {
      PlacingLoads(order, sizes, slots, group, n - 1);
      PlacingAt(order, slots, n - 1);
      LoadAdds(Placing(order, slots, n - 1), sizes, order[n - 1], slots[n - 1], group);
    }
  }

  /** A placement's loads, read along the biggest-first order. */
  lemma LoadsInOrder(sizes: Sizes, placed: map<string, nat>, group: nat)
    requires placed.Keys == sizes.Keys
    ensures var order := BiggestFirst(sizes);
            Load(placed, sizes, group) == Held(Along(order, sizes), Along(order, placed), group, |order|)
  {
    var order := BiggestFirst(sizes);
    BiggestFirstIsDistinct(sizes);
    PlacingLoads(order, sizes, Along(order, placed), group, |order|);
    PlacingOfAll(sizes, order, placed);
  }

  lemma PlacingOfAll(sizes: Sizes, order: seq<string>, placed: map<string, nat>)
    requires placed.Keys == sizes.Keys && order == BiggestFirst(sizes)
    ensures Placing(order, Along(order, placed), |order|) == placed
  {
    BiggestFirstIsDistinct(sizes);
    BiggestFirstHasAll(sizes);
    PlacingIs(order, Along(order, placed), placed);
  }

  lemma PlacingIs(order: seq<string>, slots: seq<nat>, placed: map<string, nat>)
    requires |order| == |slots| && Distinct(order) && Names(order, |order|) == placed.Keys
    requires forall i :: 0 <= i < |order| ==> order[i] in placed && slots[i] == placed[order[i]]
    ensures Placing(order, slots, |order|) == placed
  {
    var again := Placing(order, slots, |order|);
    PlacingAt(order, slots, |order|);
    forall k | k in placed ensures again[k] == placed[k] {
      var i := IndexOf(order, |order|, k);
    }
  }

  function Heaviest(placed: map<string, nat>, sizes: Sizes, groups: nat): nat {
    if groups == 0 then 0 else
      var before := Heaviest(placed, sizes, groups - 1);
      var load := Load(placed, sizes, groups - 1);
      if load > before then load else before
  }

  lemma {:induction false} HeaviestIsMost(placed: map<string, nat>, sizes: Sizes, groups: nat, group: nat)
    requires group < groups
    ensures Load(placed, sizes, group) <= Heaviest(placed, sizes, groups)
  {
    if group < groups - 1 {
      HeaviestIsMost(placed, sizes, groups - 1, group);
    }
  }

  lemma {:induction false} HeaviestIsHeld(placed: map<string, nat>, sizes: Sizes, groups: nat) returns (group: nat)
    requires groups > 0
    ensures group < groups && Load(placed, sizes, group) == Heaviest(placed, sizes, groups)
  {
    group := 0;
    if groups > 1 {
      group := HeaviestIsHeld(placed, sizes, groups - 1);
    }
    if Load(placed, sizes, groups - 1) > Heaviest(placed, sizes, groups - 1) {
      group := groups - 1;
    }
  }

  ghost predicate Spreads(placed: map<string, nat>, sizes: Sizes, groups: nat) {
    placed.Keys == sizes.Keys && forall k :: k in placed ==> placed[k] < groups
  }

  lemma PlacingWithin(order: seq<string>, slots: seq<nat>, groups: nat)
    requires |order| == |slots| && Distinct(order) && forall i :: 0 <= i < |slots| ==> slots[i] < groups
    ensures forall k :: k in Placing(order, slots, |order|) ==> Placing(order, slots, |order|)[k] < groups
  {
    PlacingAt(order, slots, |order|);
    forall k | k in Placing(order, slots, |order|) ensures Placing(order, slots, |order|)[k] < groups {
      var i := IndexOf(order, |order|, k);
    }
  }

  /** Every database is placed, in one of the groups. */
  lemma SpreadPlacesAll(sizes: Sizes, groups: nat)
    requires groups > 0
    ensures Spreads(Spread(sizes, groups), sizes, groups)
  {
    var order := BiggestFirst(sizes);
    var slots := Slots(Along(order, sizes), Zeros(groups));
    BiggestFirstIsDistinct(sizes);
    BiggestFirstHasAll(sizes);
    SlotsTakeLightest(Along(order, sizes), Zeros(groups));
    PlacingAt(order, slots, |order|);
    PlacingWithin(order, slots, groups);
  }

  /** Each group holds what the greedy step counted there. */
  lemma SpreadLoads(sizes: Sizes, groups: nat, group: nat)
    requires group < groups
    ensures var order := BiggestFirst(sizes);
            Load(Spread(sizes, groups), sizes, group) == Loads(Along(order, sizes), Zeros(groups), |order|)[group]
  {
    var order := BiggestFirst(sizes);
    var weights := Along(order, sizes);
    BiggestFirstIsDistinct(sizes);
    PlacingLoads(order, sizes, Slots(weights, Zeros(groups)), group, |order|);
    SlotsTakeLightest(weights, Zeros(groups));
    LoadsAreHeld(weights, Zeros(groups), Slots(weights, Zeros(groups)), group, |order|);
  }

  lemma BiggestFirstDescends(sizes: Sizes)
    ensures Descending(Along(BiggestFirst(sizes), sizes))
  {
    BiggestFirstIsSorted(sizes);
  }

  /** The biggest-first spread against any other spread of the same databases over as many groups: its heaviest group
      holds at most 4/3 - 1/(3 groups) of the other's. */
  lemma EvenIsNearOptimal(sizes: Sizes, groups: nat, other: map<string, nat>)
    requires groups > 0 && Spreads(other, sizes, groups)
    ensures NearOptimal(groups, Heaviest(Spread(sizes, groups), sizes, groups), Heaviest(other, sizes, groups))
  {
    var order := BiggestFirst(sizes);
    var weights, slots := Along(order, sizes), Along(order, other);
    var best := Heaviest(other, sizes, groups);
    forall g | 0 <= g < groups ensures Held(weights, slots, g, |weights|) <= best {
      LoadsInOrder(sizes, other, g);
      HeaviestIsMost(other, sizes, groups, g);
    }
    BiggestFirstDescends(sizes);
    var g := HeaviestIsHeld(Spread(sizes, groups), sizes, groups);
    SpreadLoads(sizes, groups, g);
    BiggestFirstIsNearOptimal(weights, slots, groups, best, g);
  }

  function Largest(sizes: Sizes): (most: nat)
    ensures forall k :: k in sizes ==> sizes[k] <= most
    ensures sizes != map[] ==> exists k :: k in sizes && sizes[k] == most
  {
    if sizes == map[] then 0 else sizes[First(sizes)]
  }

  lemma WeightsCons(sizes: Sizes, k: string, rest: seq<string>)
    requires k in sizes && Within(rest, sizes - {k})
    ensures Within([k] + rest, sizes)
    ensures Along([k] + rest, sizes) == [sizes[k]] + Along(rest, sizes - {k})
  {
    forall i | 0 <= i < |rest| + 1
      ensures ([k] + rest)[i] in sizes
      ensures sizes[([k] + rest)[i]] == ([sizes[k]] + Along(rest, sizes - {k}))[i]
    {
      if i > 0 {
        assert rest[i - 1] in sizes - {k};
      }
    }
  }

  lemma {:induction false} TotalOfOrder(sizes: Sizes)
    ensures Total(Along(BiggestFirst(sizes), sizes), |sizes|) == Sum(sizes)
    decreases |sizes|
  {
    if sizes != map[] {
      var k := First(sizes);
      var rest := sizes - {k};
      TotalOfOrder(rest);
      WeightsCons(sizes, k, BiggestFirst(rest));
      assert |rest| == |sizes| - 1;
      TotalOfCons(sizes[k], Along(BiggestFirst(rest), rest), |rest|);
    }
  }

  lemma {:induction false} TotalOfCons(first: nat, rest: seq<nat>, n: nat)
    requires n <= |rest|
    ensures Total([first] + rest, n + 1) == first + Total(rest, n)
    decreases n
  {
    if n > 0 {
      TotalOfCons(first, rest, n - 1);
    } else {
      assert Total([first] + rest, 0) == 0;
    }
  }

  /** No group passes an even share of the tables by more than (1 - 1/groups) of the biggest database. */
  lemma EvenIsWithinAnEvenShare(sizes: Sizes, groups: nat)
    requires groups > 0
    ensures EvenShare(groups, Heaviest(Spread(sizes, groups), sizes, groups), Sum(sizes), Largest(sizes))
  {
    var g := HeaviestIsHeld(Spread(sizes, groups), sizes, groups);
    SpreadLoads(sizes, groups, g);
    TotalOfOrder(sizes);
    ZerosTotal(groups, groups);
    NothingIsEven(groups, Sum(sizes), Largest(sizes));
    WithinEvenShare(Along(BiggestFirst(sizes), sizes), Zeros(groups), Sum(sizes), Largest(sizes), g);
  }

  lemma NothingIsEven(groups: nat, total: nat, largest: nat)
    requires groups > 0
    ensures EvenShare(groups, 0, total, largest)
  {
    MulMonotone(groups - 1, 0, largest);
  }

  /** With the default number of groups, the even share is a tenth over the size asked for and one database more. */
  lemma EvenShareOfDefaultGroups(tables: nat, perGroup: nat, load: nat, largest: nat)
    requires perGroup > 0 && EvenShare(GroupsForTables(tables, perGroup), load, tables, largest)
    ensures 10 * load <= 11 * perGroup + 10 * largest
  {
    var groups := GroupsForTables(tables, perGroup);
    GroupsTakeTheTables(tables, perGroup);
    var most := 11 * perGroup + 10 * largest;
    assert groups * (most + 1) == groups * (11 * perGroup) + 10 * (groups * largest) + groups;
    assert groups * (10 * load) == 10 * (groups * load);
    assert (groups - 1) * largest == groups * largest - largest;
    if 10 * load > most {
      MulMonotone(groups, most + 1, 10 * load);
      assert false;
    }
  }

  lemma EvenKeepsGroupsToSize(sizes: Sizes, perGroup: nat)
    requires perGroup > 0
    ensures var groups := GroupsForTables(Sum(sizes), perGroup);
            10 * Heaviest(Spread(sizes, groups), sizes, groups) <= 11 * perGroup + 10 * Largest(sizes)
  {
    var groups := GroupsForTables(Sum(sizes), perGroup);
    EvenIsWithinAnEvenShare(sizes, groups);
    EvenShareOfDefaultGroups(Sum(sizes), perGroup, Heaviest(Spread(sizes, groups), sizes, groups), Largest(sizes));
  }

  // ---- the same databases always land the same way ------------------------------------------------------------------

  /** A row as it counts: its name in lower case. */
  function Counted(rows: seq<Row>): (counted: seq<Row>)
    ensures |counted| == |rows|
    ensures forall i :: 0 <= i < |rows| ==> counted[i] == Row(Lower(rows[i].name), rows[i].tables)
  {
    seq(|rows|, i requires 0 <= i < |rows| => Row(Lower(rows[i].name), rows[i].tables))
  }

  lemma {:induction false} TotalOfCounted(rows: seq<Row>, key: string, n: nat)
    requires n <= |rows|
    ensures TotalOf(Counted(rows), key, n) == TotalOf(rows, key, n)
    decreases n
  {
    if n > 0 {
      TotalOfCounted(rows, key, n - 1);
      LowerTwice(rows[n - 1].name);
    }
  }

  lemma KeysOfCounted(rows: seq<Row>)
    ensures KeysOf(rows, |rows|) == set r | r in Counted(rows) :: r.name
  {
    var keys := set r | r in Counted(rows) :: r.name;
    forall i | 0 <= i < |rows| ensures Lower(rows[i].name) in keys {
      assert Counted(rows)[i] in Counted(rows);
    }
  }

  lemma {:induction false} TotalOfRemoved(rows: seq<Row>, at: nat, key: string, n: nat)
    requires at < n <= |rows|
    ensures TotalOf(rows, key, n) == TotalOf(rows[..at] + rows[at + 1..], key, n - 1)
                                     + if Lower(rows[at].name) == key then rows[at].tables else 0
    decreases n
  {
    if at == n - 1 {
      TotalOfSame(rows, rows[..at] + rows[at + 1..], key, at);
    } else {
      TotalOfRemoved(rows, at, key, n - 1);
    }
  }

  lemma {:induction false} TotalOfSame(a: seq<Row>, b: seq<Row>, key: string, n: nat)
    requires n <= |a| && n <= |b| && forall i :: 0 <= i < n ==> a[i] == b[i]
    ensures TotalOf(a, key, n) == TotalOf(b, key, n)
    decreases n
  {
    if n > 0 {
      TotalOfSame(a, b, key, n - 1);
    }
  }

  lemma {:induction false} TotalsIgnoreOrder(a: seq<Row>, b: seq<Row>, key: string)
    requires multiset(a) == multiset(b)
    ensures |a| == |b| && TotalOf(a, key, |a|) == TotalOf(b, key, |b|)
    decreases |a|
  {
    assert |multiset(a)| == |multiset(b)|;
    if a != [] {
      var last := |a| - 1;
      var at := SameRowIn(a, b);
      TotalsIgnoreOrder(a[..last], b[..at] + b[at + 1..], key);
      TotalOfRemoved(b, at, key, |b|);
      TotalOfSame(a, a[..last], key, last);
    }
  }

  lemma SameRowIn(a: seq<Row>, b: seq<Row>) returns (at: nat)
    requires multiset(a) == multiset(b) && a != []
    ensures at < |b| && b[at] == a[|a| - 1]
    ensures multiset(a[..|a| - 1]) == multiset(b[..at] + b[at + 1..])
  {
    var last := |a| - 1;
    assert a == a[..last] + [a[last]];
    assert a[last] in multiset(b);
    at :| 0 <= at < |b| && b[at] == a[last];
    WithoutRow(b, at);
    assert multiset(a[..last]) == multiset(a) - multiset{a[last]};
  }

  lemma WithoutRow(b: seq<Row>, at: nat)
    requires at < |b|
    ensures multiset(b) == multiset(b[..at] + b[at + 1..]) + multiset{b[at]}
  {
    assert b == b[..at] + [b[at]] + b[at + 1..];
  }

  lemma SameTotals(a: seq<Row>, b: seq<Row>)
    requires KeysOf(a, |a|) == KeysOf(b, |b|)
    requires forall key :: TotalOf(a, key, |a|) == TotalOf(b, key, |b|)
    ensures Totals(a) == Totals(b)
  {
  }

  /** The same rows in another order, or spelled in another case, are the same databases. */
  lemma PlacementIgnoresOrderAndCase(a: seq<Row>, b: seq<Row>, groups: nat)
    requires groups > 0 && multiset(Counted(a)) == multiset(Counted(b))
    ensures Totals(a) == Totals(b) && Spread(Totals(a), groups) == Spread(Totals(b), groups)
  {
    KeysOfCounted(a);
    KeysOfCounted(b);
    assert forall r :: r in Counted(a) <==> r in multiset(Counted(a));
    assert forall r :: r in Counted(b) <==> r in multiset(Counted(b));
    forall key ensures TotalOf(a, key, |a|) == TotalOf(b, key, |b|) {
      TotalOfCounted(a, key, |a|);
      TotalOfCounted(b, key, |b|);
      TotalsIgnoreOrder(Counted(a), Counted(b), key);
    }
    SameTotals(a, b);
  }

  /** A database given in several rows, its tables divided between them, is the same database. */
  lemma PlacementIgnoresSplitting(rows: seq<Row>, name: string, again: string, first: nat, second: nat, groups: nat)
    requires groups > 0 && Lower(name) == Lower(again)
    ensures Totals(rows + [Row(name, first), Row(again, second)]) == Totals(rows + [Row(name, first + second)])
    ensures Spread(Totals(rows + [Row(name, first), Row(again, second)]), groups)
            == Spread(Totals(rows + [Row(name, first + second)]), groups)
  {
    var n := |rows|;
    var split, whole := rows + [Row(name, first), Row(again, second)], rows + [Row(name, first + second)];
    KeysStep(split, n + 1);
    KeysStep(split, n);
    KeysStep(whole, n);
    assert forall i :: 0 <= i < n ==> split[i] == whole[i];
    assert KeysOf(split, n) == KeysOf(whole, n);
    forall key ensures TotalOf(split, key, |split|) == TotalOf(whole, key, |whole|) {
      TotalOfSame(split, whole, key, n);
      assert TotalOf(split, key, n + 2) == TotalOf(split, key, n + 1) + if Lower(again) == key then second else 0;
    }
    SameTotals(split, whole);
  }
}
