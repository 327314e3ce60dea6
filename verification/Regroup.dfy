/** regroup in app/src/placement.py: a server's databases spread again over another number of groups, moving as few as
    it can.

    The groups with the most tables stay when there are to be fewer, and all stay when there are to be more. A group
    that stays keeps its databases, the biggest first, while it is within an even share of the tables; the rest are
    pooled and go, the biggest first, into the lightest groups. New groups take the lowest numbers that no group's name
    ends in. */
module Regroup {
  import opened Greedy
  import opened Text
  import opened Placement

  /** Where a database is now, and its tables. */
  datatype Placed = Placed(group: string, tables: nat)

  type Databases = map<string, Placed>

  function TablesOf(dbs: Databases): Sizes {
    map n | n in dbs :: dbs[n].tables
  }

  function MembersOf(dbs: Databases, group: string): Sizes {
    map n | n in dbs && dbs[n].group == group :: dbs[n].tables
  }

  function GroupsNow(dbs: Databases): set<string> {
    set n | n in dbs :: dbs[n].group
  }

  function LoadsNow(dbs: Databases): Sizes {
    map g | g in GroupsNow(dbs) :: Sum(MembersOf(dbs, g))
  }

  // ---- the groups after ---------------------------------------------------------------------------------------------

  function Fewer(a: nat, b: nat): nat {
    if a < b then a else b
  }

  /** The groups that stay: those with the most tables, when there are to be fewer. */
  function Staying(dbs: Databases, count: nat): set<string> {
    var order := BiggestFirst(LoadsNow(dbs));
    Names(order, Fewer(count, |order|))
  }

  function UsedNumbers(dbs: Databases): set<nat> {
    set g | g in GroupsNow(dbs) && GroupNumber(g).Some? :: GroupNumber(g).value
  }

  /** The lowest number from here on that is not used. */
  function NextFree(used: set<nat>, number: nat): (free: nat)
    ensures free !in used && free >= number
    ensures forall n :: number <= n < free ==> n in used
    decreases |set n | n in used && n >= number|
  {
    if number in used then
      FewerAhead(used, number);
      NextFree(used, number + 1)
    else number
  }

  lemma FewerAhead(used: set<nat>, number: nat)
    requires number in used
    ensures |set n | n in used && n >= number + 1| < |set n | n in used && n >= number|
  {
    var ahead, after := set n | n in used && n >= number, set n | n in used && n >= number + 1;
    assert ahead == after + {number};
  }

  /** The numbers new groups take: those no group uses, from 1 up. */
  function NewNumber(used: set<nat>, i: nat): (number: nat)
    ensures number !in used && number >= 1
  {
    NextFree(used, if i == 0 then 1 else NewNumber(used, i - 1) + 1)
  }

  function NewNames(prefix: string, used: set<nat>, howMany: nat): (names: seq<string>)
    ensures |names| == howMany
  {
    if howMany == 0 then [] else
      NewNames(prefix, used, howMany - 1) + [GroupName(prefix, NewNumber(used, howMany - 1))]
  }

  function Made(prefix: string, dbs: Databases, count: nat): seq<string> {
    var stay := |Staying(dbs, count)|;
    NewNames(prefix, UsedNumbers(dbs), if stay < count then count - stay else 0)
  }

  /** Names in order: all weigh the same, so the name alone orders them. */
  function InOrder(names: set<string>): seq<string> {
    BiggestFirst(map n | n in names :: 0)
  }

  function GroupsAfter(prefix: string, dbs: Databases, count: nat): seq<string> {
    var made := Made(prefix, dbs, count);
    InOrder(Staying(dbs, count) + Names(made, |made|))
  }

  // ---- what a staying group keeps -----------------------------------------------------------------------------------

  /** A staying group keeps a database when it holds none with tables yet, or stays within an even share with it. */
  predicate MayKeep(load: nat, tables: nat, total: nat, count: nat) {
    load == 0 || count * (load + tables) <= total
  }

  /** What a staying group keeps of its first k databases, biggest first: the first with any tables, and each that
      leaves it within an even share of all the tables. */
  function KeptLoad(order: seq<string>, sizes: Sizes, total: nat, count: nat, k: nat): nat
    requires k <= |order| && Within(order, sizes)
  {
    if k == 0 then 0 else
      var before := KeptLoad(order, sizes, total, count, k - 1);
      var more := sizes[order[k - 1]];
      if MayKeep(before, more, total, count) then before + more else before
  }

  predicate Keeps(order: seq<string>, sizes: Sizes, total: nat, count: nat, k: nat)
    requires k < |order| && Within(order, sizes)
  {
    MayKeep(KeptLoad(order, sizes, total, count, k), sizes[order[k]], total, count)
  }

  function KeptNames(order: seq<string>, sizes: Sizes, total: nat, count: nat, k: nat): set<string>
    requires k <= |order| && Within(order, sizes)
  {
    if k == 0 then {} else
      KeptNames(order, sizes, total, count, k - 1)
          + if Keeps(order, sizes, total, count, k - 1) then {order[k - 1]} else {}
  }

  function KeptOf(dbs: Databases, group: string, total: nat, count: nat): set<string> {
    var sizes := MembersOf(dbs, group);
    KeptNames(BiggestFirst(sizes), sizes, total, count, |sizes|)
  }

  function KeptLoadOf(dbs: Databases, group: string, total: nat, count: nat): nat {
    var sizes := MembersOf(dbs, group);
    KeptLoad(BiggestFirst(sizes), sizes, total, count, |sizes|)
  }

  function Kept(dbs: Databases, stay: set<string>, total: nat, count: nat): set<string> {
    set n | n in dbs && dbs[n].group in stay && n in KeptOf(dbs, dbs[n].group, total, count)
  }

  function Pool(dbs: Databases, kept: set<string>): Sizes {
    map n | n in dbs && n !in kept :: dbs[n].tables
  }

  function StartLoads(dbs: Databases, after: seq<string>, total: nat, count: nat): (start: seq<nat>)
    ensures |start| == |after|
    ensures forall i :: 0 <= i < |after| ==> start[i] == KeptLoadOf(dbs, after[i], total, count)
  {
    seq(|after|, i requires 0 <= i < |after| => KeptLoadOf(dbs, after[i], total, count))
  }

  // ---- the whole regrouping -----------------------------------------------------------------------------------------

  datatype Regrouping = Regrouping(groupOf: map<string, string>, groups: seq<string>, made: seq<string>,
                          emptied: set<string>)

  function PoolSlots(pool: Sizes, start: seq<nat>): map<string, nat>
    requires start != []
  {
    var order := BiggestFirst(pool);
    Placing(order, Slots(Along(order, pool), start), |order|)
  }

  lemma PoolSlotsPlaceAll(pool: Sizes, start: seq<nat>)
    requires start != []
    ensures PoolSlots(pool, start).Keys == pool.Keys
    ensures forall n :: n in PoolSlots(pool, start) ==> PoolSlots(pool, start)[n] < |start|
  {
    var order := BiggestFirst(pool);
    var slots := Slots(Along(order, pool), start);
    BiggestFirstIsDistinct(pool);
    BiggestFirstHasAll(pool);
    SlotsTakeLightest(Along(order, pool), start);
    PlacingAt(order, slots, |order|);
    PlacingWithin(order, slots, |start|);
  }

  function GroupOf(dbs: Databases, pool: Sizes, after: seq<string>, start: seq<nat>): map<string, string>
    requires |after| == |start| && start != []
  {
    PoolSlotsPlaceAll(pool, start);
    var slots := PoolSlots(pool, start);
    map n | n in dbs :: if n in pool then after[slots[n]] else dbs[n].group
  }

  function RegroupingOf(dbs: Databases, after: seq<string>, made: seq<string>, count: nat): Regrouping
    requires after != []
  {
    var total := Sum(LoadsNow(dbs));
    var pool := Pool(dbs, Kept(dbs, Names(after, |after|), total, count));
    Regrouping(GroupOf(dbs, pool, after, StartLoads(dbs, after, total, count)), after, made,
               GroupsNow(dbs) - Names(after, |after|))
  }

  function Regrouped(prefix: string, dbs: Databases, count: nat): Regrouping
    requires count > 0
  {
    GroupsAfterCount(prefix, dbs, count);
    RegroupingOf(dbs, GroupsAfter(prefix, dbs, count), Made(prefix, dbs, count), count)
  }

  function Moves(dbs: Databases, groupOf: map<string, string>): map<string, (string, string)> {
    map n | n in groupOf && n in dbs && groupOf[n] != dbs[n].group :: (dbs[n].group, groupOf[n])
  }

  // ---- exactly count groups, the new ones named apart ---------------------------------------------------------------

  lemma {:induction false} NamesCount(order: seq<string>, n: nat)
    requires n <= |order| && Distinct(order)
    ensures |Names(order, n)| == n
    decreases n
  {
    if n > 0 {
      NamesCount(order, n - 1);
      assert Names(order, n) == Names(order, n - 1) + {order[n - 1]};
    }
  }

  lemma StayingCount(dbs: Databases, count: nat)
    ensures Staying(dbs, count) <= GroupsNow(dbs)
    ensures |Staying(dbs, count)| == Fewer(count, |GroupsNow(dbs)|)
  {
    var loads := LoadsNow(dbs);
    var order := BiggestFirst(loads);
    assert loads.Keys == GroupsNow(dbs);
    assert |loads| == |loads.Keys|;
    BiggestFirstIsDistinct(loads);
    NamesCount(order, Fewer(count, |order|));
    NamesAmong(order, Fewer(count, |order|), GroupsNow(dbs));
  }

  lemma {:induction false} NewNumbersClimb(used: set<nat>, i: nat, j: nat)
    requires i < j
    ensures NewNumber(used, i) < NewNumber(used, j)
    decreases j
  {
    if i < j - 1 {
      NewNumbersClimb(used, i, j - 1);
    }
  }

  lemma {:induction false} NewNameAt(prefix: string, used: set<nat>, howMany: nat, i: nat)
    requires i < howMany
    ensures NewNames(prefix, used, howMany)[i] == GroupName(prefix, NewNumber(used, i))
    decreases howMany
  {
    if i < howMany - 1 {
      NewNameAt(prefix, used, howMany - 1, i);
    }
  }

  lemma NewNamesDiffer(prefix: string, used: set<nat>, i: nat, j: nat)
    requires i < j
    ensures GroupName(prefix, NewNumber(used, i)) != GroupName(prefix, NewNumber(used, j))
  {
    NewNumbersClimb(used, i, j);
    NumberOfGroupName(prefix, NewNumber(used, i));
    NumberOfGroupName(prefix, NewNumber(used, j));
  }

  lemma NewNameIsUnused(prefix: string, dbs: Databases, i: nat)
    ensures GroupName(prefix, NewNumber(UsedNumbers(dbs), i)) !in GroupsNow(dbs)
  {
    var number := NewNumber(UsedNumbers(dbs), i);
    NumberOfGroupName(prefix, number);
    assert GroupName(prefix, number) in GroupsNow(dbs) ==> number in UsedNumbers(dbs);
  }

  lemma NewNamesAreDistinct(prefix: string, used: set<nat>, howMany: nat)
    ensures Distinct(NewNames(prefix, used, howMany))
  {
    var made := NewNames(prefix, used, howMany);
    forall i, j | 0 <= i < j < howMany ensures made[i] != made[j] {
      NewNameAt(prefix, used, howMany, i);
      NewNameAt(prefix, used, howMany, j);
      NewNamesDiffer(prefix, used, i, j);
    }
    AllDifferent(made);
  }

  lemma NewNamesAreUnused(prefix: string, dbs: Databases, howMany: nat)
    ensures Names(NewNames(prefix, UsedNumbers(dbs), howMany), howMany) !! GroupsNow(dbs)
  {
    var made := NewNames(prefix, UsedNumbers(dbs), howMany);
    forall i | 0 <= i < howMany ensures made[i] !in GroupsNow(dbs) {
      NewNameAt(prefix, UsedNumbers(dbs), howMany, i);
      NewNameIsUnused(prefix, dbs, i);
    }
    NamesApart(made, howMany, GroupsNow(dbs));
  }

  /** New groups take names no group has, and no two the same one. */
  lemma NewNamesAreNew(prefix: string, dbs: Databases, count: nat)
    ensures var made := Made(prefix, dbs, count);
            Distinct(made) && Names(made, |made|) !! GroupsNow(dbs)
  {
    var howMany := |Made(prefix, dbs, count)|;
    NewNamesAreDistinct(prefix, UsedNumbers(dbs), howMany);
    NewNamesAreUnused(prefix, dbs, howMany);
  }

  lemma InOrderHasAll(names: set<string>)
    ensures |InOrder(names)| == |names| && Distinct(InOrder(names)) && Names(InOrder(names), |names|) == names
  {
    var sizes := map n | n in names :: 0;
    assert sizes.Keys == names && |sizes| == |sizes.Keys|;
    BiggestFirstIsDistinct(sizes);
    BiggestFirstHasAll(sizes);
  }

  lemma InOrderIsSorted(names: set<string>, i: nat, j: nat)
    requires i < j < |InOrder(names)|
    ensures Precedes(InOrder(names)[i], InOrder(names)[j])
  {
    var sizes := map n | n in names :: 0;
    BiggestFirstIsSorted(sizes);
    assert Before(sizes, InOrder(names)[i], InOrder(names)[j]);
  }

  /** Exactly count groups after, each once, in name order: those that stay and those made. */
  lemma GroupsAfterCount(prefix: string, dbs: Databases, count: nat)
    ensures var after, made := GroupsAfter(prefix, dbs, count), Made(prefix, dbs, count);
            && |after| == count && Distinct(after)
            && Names(after, count) == Staying(dbs, count) + Names(made, |made|)
            && Staying(dbs, count) !! Names(made, |made|)
  {
    var made := Made(prefix, dbs, count);
    StayingCount(dbs, count);
    NewNamesAreNew(prefix, dbs, count);
    NamesCount(made, |made|);
    InOrderHasAll(Staying(dbs, count) + Names(made, |made|));
  }

  // ---- the loops ----------------------------------------------------------------------------------------------------

  ghost function Seen(dbs: Databases, left: set<string>): Databases {
    map n | n in dbs && n !in left :: dbs[n]
  }

  ghost function AllMembers(dbs: Databases): map<string, Sizes> {
    map g | g in GroupsNow(dbs) :: MembersOf(dbs, g)
  }

  lemma SeenOne(dbs: Databases, left: set<string>, name: string)
    requires left <= dbs.Keys && name in left
    ensures Seen(dbs, left - {name}) == Seen(dbs, left)[name := dbs[name]] && name !in Seen(dbs, left)
  {
  }

  lemma GroupsOfOneMore(before: Databases, name: string, placed: Placed)
    requires name !in before
    ensures GroupsNow(before[name := placed]) == GroupsNow(before) + {placed.group}
  {
    var after := before[name := placed];
    forall g | g in GroupsNow(before) + {placed.group} ensures g in GroupsNow(after) {
      if g == placed.group {
        assert name in after && after[name].group == g;
      } else {
        var n :| n in before && before[n].group == g;
        assert n in after && after[n].group == g;
      }
    }
  }

  lemma MembersOfOneMore(before: Databases, name: string, placed: Placed, group: string)
    requires name !in before
    ensures MembersOf(before[name := placed], group)
            == if group == placed.group then MembersOf(before, group)[name := placed.tables]
               else MembersOf(before, group)
    ensures group !in GroupsNow(before) ==> MembersOf(before, group) == map[]
  {
  }

  /** The members with one database more in a group. */
  function Joining(members: map<string, Sizes>, group: string, name: string, tables: nat): map<string, Sizes> {
    var others: Sizes := if group in members then members[group] else map[];
    members[group := others[name := tables]]
  }

  lemma LoadsOneMore(before: Databases, name: string, placed: Placed)
    requires name !in before
    ensures LoadsNow(before[name := placed]) == AddTables(LoadsNow(before), placed.group, placed.tables)
  {
    var after, loads, g := before[name := placed], LoadsNow(before), placed.group;
    GroupsOfOneMore(before, name, placed);
    MembersOfOneMore(before, name, placed, g);
    SumAdds(MembersOf(before, g), name, placed.tables);
    forall h | h in GroupsNow(before) && h != g ensures LoadsNow(after)[h] == loads[h] {
      MembersOfOneMore(before, name, placed, h);
    }
  }

  lemma AllMembersOneMore(before: Databases, name: string, placed: Placed)
    requires name !in before
    ensures AllMembers(before[name := placed]) == Joining(AllMembers(before), placed.group, name, placed.tables)
  {
    var after, all, g := before[name := placed], AllMembers(before), placed.group;
    GroupsOfOneMore(before, name, placed);
    MembersOfOneMore(before, name, placed, g);
    forall h | h in GroupsNow(before) && h != g ensures AllMembers(after)[h] == all[h] {
      MembersOfOneMore(before, name, placed, h);
    }
  }

  method LoadsAndMembers(dbs: Databases) returns (loadsNow: Sizes, members: map<string, Sizes>)
    ensures loadsNow == LoadsNow(dbs) && members == AllMembers(dbs)
  {
    loadsNow, members := map[], map[];
    var left := dbs.Keys;
    assert Seen(dbs, left) == map[];
    while left != {}
      invariant left <= dbs.Keys
      invariant loadsNow == LoadsNow(Seen(dbs, left)) && members == AllMembers(Seen(dbs, left))
      decreases |left|
    {
      var name :| name in left;
      SeenOne(dbs, left, name);
      LoadsOneMore(Seen(dbs, left), name, dbs[name]);
      AllMembersOneMore(Seen(dbs, left), name, dbs[name]);
      loadsNow := AddTables(loadsNow, dbs[name].group, dbs[name].tables);
      members := Joining(members, dbs[name].group, name, dbs[name].tables);
      left := left - {name};
    }
    assert Seen(dbs, left) == dbs;
  }

  ghost function Taken(used: set<nat>, n: nat): (taken: set<nat>)
    ensures used <= taken
    ensures n > 0 ==> NewNumber(used, n - 1) in taken
    ensures forall m :: m in taken ==> m in used || (n > 0 && m <= NewNumber(used, n - 1))
  {
    if n == 0 then used else Taken(used, n - 1) + {NewNumber(used, n - 1)}
  }

  /** The search goes on from the number before, over the numbers used and those already given. */
  method NewGroupNames(prefix: string, used: set<nat>, howMany: nat) returns (made: seq<string>)
    ensures made == NewNames(prefix, used, howMany)
  {
    made := [];
    var taken, number := used, 1;
    while |made| < howMany
      invariant |made| <= howMany && made == NewNames(prefix, used, |made|)
      invariant taken == Taken(used, |made|)
      invariant number == Previous(used, |made|)
    {
      number := NextNumber(used, taken, number, |made|);
      assert NewNames(prefix, used, |made| + 1) == made + [GroupName(prefix, number)];
      made := made + [GroupName(prefix, number)];
      taken := taken + {number};
    }
  }

  ghost function Previous(used: set<nat>, n: nat): nat {
    if n == 0 then 1 else NewNumber(used, n - 1)
  }

  method NextNumber(used: set<nat>, taken: set<nat>, from: nat, ghost n: nat) returns (number: nat)
    requires taken == Taken(used, n) && from == Previous(used, n)
    ensures number == NewNumber(used, n)
  {
    number := from;
    while number in taken
      invariant from <= number <= NewNumber(used, n)
      decreases NewNumber(used, n) - number
    {
      number := number + 1;
    }
  }

  function Including(rest: Sizes, name: string, tables: nat): Sizes {
    rest[name := tables]
  }

  function Joined(pool: Sizes, rest: Sizes): Sizes {
    pool + rest
  }

  ghost function RestOf(order: seq<string>, sizes: Sizes, kept: set<string>, k: nat): Sizes
    requires k <= |order|
  {
    map n | n in sizes && n in Names(order, k) && n !in kept :: sizes[n]
  }

  lemma RestOne(order: seq<string>, sizes: Sizes, kept: set<string>, k: nat)
    requires k < |order| && Within(order, sizes) && Distinct(order) && kept <= Names(order, k)
    ensures RestOf(order, sizes, kept + {order[k]}, k + 1) == RestOf(order, sizes, kept, k)
    ensures RestOf(order, sizes, kept, k + 1) == Including(RestOf(order, sizes, kept, k), order[k], sizes[order[k]])
  {
    assert order[k] !in Names(order, k);
  }

  lemma KeepsOne(order: seq<string>, sizes: Sizes, total: nat, count: nat, k: nat)
    requires k < |order| && Within(order, sizes)
    ensures var before, after := KeptNames(order, sizes, total, count, k), KeptNames(order, sizes, total, count, k + 1);
            after == if Keeps(order, sizes, total, count, k) then before + {order[k]} else before
    ensures KeptNames(order, sizes, total, count, k) <= Names(order, k)
  {
    KeptAmong(order, sizes, total, count, k);
  }

  lemma {:induction false} KeptAmong(order: seq<string>, sizes: Sizes, total: nat, count: nat, k: nat)
    requires k <= |order| && Within(order, sizes)
    ensures KeptNames(order, sizes, total, count, k) <= Names(order, k)
    decreases k
  {
    if k > 0 {
      KeptAmong(order, sizes, total, count, k - 1);
    }
  }

  lemma KeptAreMembers(sizes: Sizes, total: nat, count: nat)
    ensures KeptNames(BiggestFirst(sizes), sizes, total, count, |sizes|) <= sizes.Keys
  {
    KeptAmong(BiggestFirst(sizes), sizes, total, count, |sizes|);
    BiggestFirstHasAll(sizes);
  }

  /** One group's databases, the biggest first: what it keeps while it stays, and what goes to the pool. */
  method KeepInGroup(sizes: Sizes, stays: bool, total: nat, count: nat)
    returns (load: nat, kept: set<string>, rest: Sizes)
    ensures load == if stays then KeptLoad(BiggestFirst(sizes), sizes, total, count, |sizes|) else 0
    ensures kept == if stays then KeptNames(BiggestFirst(sizes), sizes, total, count, |sizes|) else {}
    ensures rest == map n | n in sizes && n !in kept :: sizes[n]
  {
    BiggestFirstIsDistinct(sizes);
    BiggestFirstHasAll(sizes);
    load, kept, rest := KeepInOrder(BiggestFirst(sizes), sizes, stays, total, count);
  }

  ghost predicate KeptSoFar(order: seq<string>, sizes: Sizes, stays: bool, total: nat, count: nat, k: nat,
                            load: nat, kept: set<string>, rest: Sizes)
    requires k <= |order| && Within(order, sizes)
  {
    && load == (if stays then KeptLoad(order, sizes, total, count, k) else 0)
    && kept == (if stays then KeptNames(order, sizes, total, count, k) else {})
    && rest == RestOf(order, sizes, kept, k)
  }

  lemma KeepNext(order: seq<string>, sizes: Sizes, stays: bool, total: nat, count: nat, k: nat,
                 load: nat, kept: set<string>, rest: Sizes)
    requires k < |order| && Within(order, sizes) && Distinct(order)
    requires KeptSoFar(order, sizes, stays, total, count, k, load, kept, rest)
    ensures var name := order[k];
            if stays && MayKeep(load, sizes[name], total, count)
            then KeptSoFar(order, sizes, stays, total, count, k + 1, load + sizes[name], kept + {name}, rest)
            else KeptSoFar(order, sizes, stays, total, count, k + 1, load, kept, Including(rest, name, sizes[name]))
  {
    KeepsOne(order, sizes, total, count, k);
    RestOne(order, sizes, kept, k);
  }

  method KeepInOrder(order: seq<string>, sizes: Sizes, stays: bool, total: nat, count: nat)
    returns (load: nat, kept: set<string>, rest: Sizes)
    requires Within(order, sizes) && Distinct(order)
    ensures KeptSoFar(order, sizes, stays, total, count, |order|, load, kept, rest)
  {
    load, kept, rest := 0, {}, map[];
    for k := 0 to |order|
      invariant KeptSoFar(order, sizes, stays, total, count, k, load, kept, rest)
    {
      var name := order[k];
      KeepNext(order, sizes, stays, total, count, k, load, kept, rest);
      if stays && MayKeep(load, sizes[name], total, count) {
        load, kept := load + sizes[name], kept + {name};
        assert KeptSoFar(order, sizes, stays, total, count, k + 1, load, kept, rest);
      } else {
        rest := Including(rest, name, sizes[name]);
        assert KeptSoFar(order, sizes, stays, total, count, k + 1, load, kept, rest);
      }
    }
  }

  ghost function KeptSeen(dbs: Databases, kept: set<string>, todo: set<string>): set<string> {
    set n | n in kept && n in dbs && dbs[n].group !in todo
  }

  ghost function PoolSeen(dbs: Databases, kept: set<string>, todo: set<string>): Sizes {
    map n | n in dbs && dbs[n].group !in todo && n !in kept :: dbs[n].tables
  }

  ghost predicate KeepsOf(dbs: Databases, kept: set<string>, group: string, keeps: set<string>) {
    forall n :: n in keeps <==> n in kept && n in dbs && dbs[n].group == group
  }

  lemma KeptOfGroup(dbs: Databases, stay: set<string>, group: string, total: nat, count: nat)
    ensures KeepsOf(dbs, Kept(dbs, stay, total, count), group,
            if group in stay then KeptOf(dbs, group, total, count) else {})
  {
    KeptAreMembers(MembersOf(dbs, group), total, count);
  }

  lemma OneGroupMore(dbs: Databases, kept: set<string>, group: string, todo: set<string>, keeps: set<string>,
                     rest: Sizes)
    requires group in todo && KeepsOf(dbs, kept, group, keeps)
    requires rest == map n | n in MembersOf(dbs, group) && n !in keeps :: MembersOf(dbs, group)[n]
    ensures KeptSeen(dbs, kept, todo - {group}) == KeptSeen(dbs, kept, todo) + keeps
    ensures PoolSeen(dbs, kept, todo - {group}) == Joined(PoolSeen(dbs, kept, todo), rest)
  {
  }

  ghost predicate GroupsSeen(dbs: Databases, stay: set<string>, total: nat, count: nat, todo: set<string>,
                             kept: set<string>, pool: Sizes, loads: Sizes) {
    && todo <= GroupsNow(dbs)
    && kept == KeptSeen(dbs, Kept(dbs, stay, total, count), todo)
    && pool == PoolSeen(dbs, Kept(dbs, stay, total, count), todo)
    && LoadsSeen(dbs, stay, total, count, todo, loads)
  }

  ghost predicate LoadsSeen(dbs: Databases, stay: set<string>, total: nat, count: nat, todo: set<string>,
                          loads: Sizes) {
    && loads.Keys == stay
    && (forall g :: g in stay ==>
          loads[g] == if g in GroupsNow(dbs) && g !in todo then KeptLoadOf(dbs, g, total, count) else 0)
  }

  lemma LoadsSeenNext(dbs: Databases, stay: set<string>, total: nat, count: nat, todo: set<string>, loads: Sizes,
                      group: string, load: nat)
    requires LoadsSeen(dbs, stay, total, count, todo, loads) && todo <= GroupsNow(dbs) && group in todo
    requires load == if group in stay then KeptLoadOf(dbs, group, total, count) else 0
    ensures LoadsSeen(dbs, stay, total, count, todo - {group},
            if group in stay then Including(loads, group, load) else loads)
  {
  }

  lemma GroupsSeenNext(dbs: Databases, stay: set<string>, total: nat, count: nat, todo: set<string>, kept: set<string>,
                       pool: Sizes, loads: Sizes, group: string, load: nat, keeps: set<string>, rest: Sizes)
    requires GroupsSeen(dbs, stay, total, count, todo, kept, pool, loads) && group in todo
    requires load == if group in stay then KeptLoadOf(dbs, group, total, count) else 0
    requires keeps == if group in stay then KeptOf(dbs, group, total, count) else {}
    requires rest == map n | n in MembersOf(dbs, group) && n !in keeps :: MembersOf(dbs, group)[n]
    ensures GroupsSeen(dbs, stay, total, count, todo - {group}, kept + keeps, Joined(pool, rest),
                       if group in stay then Including(loads, group, load) else loads)
  {
    KeptOfGroup(dbs, stay, group, total, count);
    OneGroupMore(dbs, Kept(dbs, stay, total, count), group, todo, keeps, rest);
    LoadsSeenNext(dbs, stay, total, count, todo, loads, group, load);
  }

  method KeepInGroups(dbs: Databases, members: map<string, Sizes>, stay: set<string>, total: nat, count: nat)
    returns (pool: Sizes, loads: Sizes)
    requires members == AllMembers(dbs)
    ensures pool == Pool(dbs, Kept(dbs, stay, total, count))
    ensures loads.Keys == stay
    ensures forall g :: g in stay ==> loads[g] == KeptLoadOf(dbs, g, total, count)
  {
    loads := map g | g in stay :: 0;
    var kept: set<string> := {};
    pool := map[];
    var todo := members.Keys;
    while todo != {}
      invariant GroupsSeen(dbs, stay, total, count, todo, kept, pool, loads)
      decreases |todo|
    {
      var group :| group in todo;
      var load, keeps, rest := KeepInGroup(members[group], group in stay, total, count);
      GroupsSeenNext(dbs, stay, total, count, todo, kept, pool, loads, group, load, keeps, rest);
      if group in stay {
        loads := Including(loads, group, load);
      }
      kept, pool := kept + keeps, Joined(pool, rest);
      todo := todo - {group};
    }
    AllGroupsSeen(dbs, stay, total, count, kept, pool, loads);
  }

  lemma AllGroupsSeen(dbs: Databases, stay: set<string>, total: nat, count: nat, kept: set<string>, pool: Sizes,
                      loads: Sizes)
    requires GroupsSeen(dbs, stay, total, count, {}, kept, pool, loads)
    ensures pool == Pool(dbs, Kept(dbs, stay, total, count))
    ensures forall g :: g in stay ==> loads[g] == KeptLoadOf(dbs, g, total, count)
  {
    forall g | g in stay ensures loads[g] == KeptLoadOf(dbs, g, total, count) {
      NobodyKept(dbs, g, total, count);
    }
  }

  lemma NobodyKept(dbs: Databases, group: string, total: nat, count: nat)
    ensures group !in GroupsNow(dbs) ==> KeptLoadOf(dbs, group, total, count) == 0
  {
    if group !in GroupsNow(dbs) {
      assert MembersOf(dbs, group) == map[];
    }
  }

  /** Each staying group keeps what it may; the rest goes, biggest first, into the lightest groups. */
  method Regroup(prefix: string, dbs: Databases, groups: int)
    returns (plan: Regrouping, moves: map<string, (string, string)>)
    ensures plan == Regrouped(prefix, dbs, AtLeastOne(groups))
    ensures moves == Moves(dbs, plan.groupOf)
  {
    var count := AtLeastOne(groups);
    var loadsNow, members := LoadsAndMembers(dbs);
    var made, after := ChooseGroups(prefix, dbs, loadsNow, count);
    GroupsAfterCount(prefix, dbs, count);
    plan := PlaceInGroups(dbs, Sum(loadsNow), members, after, made, count);
    moves := Moves(dbs, plan.groupOf);
  }

  method ChooseGroups(prefix: string, dbs: Databases, loadsNow: Sizes, count: nat)
    returns (made: seq<string>, after: seq<string>)
    requires loadsNow == LoadsNow(dbs)
    ensures made == Made(prefix, dbs, count) && after == GroupsAfter(prefix, dbs, count)
  {
    var ordered := BiggestFirst(loadsNow);
    var stay := Names(ordered, Fewer(count, |ordered|));
    made := NewGroupNames(prefix, UsedNumbers(dbs), if |stay| < count then count - |stay| else 0);
    after := InOrder(stay + Names(made, |made|));
  }

  method PlaceInGroups(dbs: Databases, total: nat, members: map<string, Sizes>, after: seq<string>, made: seq<string>,
                       count: nat)
    returns (plan: Regrouping)
    requires after != [] && members == AllMembers(dbs) && total == Sum(LoadsNow(dbs))
    ensures plan == RegroupingOf(dbs, after, made, count)
  {
    var pool, loads := KeepInGroups(dbs, members, Names(after, |after|), total, count);
    assert forall i :: 0 <= i < |after| ==> after[i] in loads by {
      forall i | 0 <= i < |after| ensures after[i] in loads { NameAt(after, |after|, i); }
    }
    var start := seq(|after|, i requires 0 <= i < |after| => loads[after[i]]);
    assert start == StartLoads(dbs, after, total, count);
    var groupOf := PlacePool(dbs, pool, after, start);
    plan := Regrouping(groupOf, after, made, GroupsNow(dbs) - Names(after, |after|));
  }

  method PlacePool(dbs: Databases, pool: Sizes, after: seq<string>, start: seq<nat>)
    returns (groupOf: map<string, string>)
    requires |after| == |start| && start != []
    ensures groupOf == GroupOf(dbs, pool, after, start)
  {
    var slots := PlaceInOrder(BiggestFirst(pool), pool, start);
    PoolSlotsPlaceAll(pool, start);
    groupOf := map n | n in dbs :: if n in pool then after[slots[n]] else dbs[n].group;
  }
}
