/** What regroup in app/src/placement.py guarantees: every database in one of exactly the groups asked for, no move
    without a reason, and no group far over an even share.

    The bound is proved in three steps. What a staying group keeps is within an even share, or a single database. The
    groups' loads and the databases left to place add up to all the tables. From there the greedy step, as for a new
    job, lets no group pass an even share by more than most of the biggest database. */
module RegroupProperties {
  import opened Greedy
  import opened Text
  import opened Placement
  import opened Regroup

  ghost predicate PlacesIn(groupOf: map<string, string>, groups: seq<string>) {
    forall n :: n in groupOf ==> groupOf[n] in Names(groups, |groups|)
  }

  lemma GroupOfWithin(dbs: Databases, pool: Sizes, after: seq<string>, start: seq<nat>)
    requires |after| == |start| && start != []
    requires forall n :: n in dbs && n !in pool ==> dbs[n].group in Names(after, |after|)
    ensures PlacesIn(GroupOf(dbs, pool, after, start), after)
  {
    PoolSlotsPlaceAll(pool, start);
    var groupOf, slots := GroupOf(dbs, pool, after, start), PoolSlots(pool, start);
    forall n | n in groupOf ensures groupOf[n] in Names(after, |after|) {
      if n in pool {
        NameAt(after, |after|, slots[n]);
      }
    }
  }

  function PoolOf(prefix: string, dbs: Databases, count: nat): Sizes {
    var after := GroupsAfter(prefix, dbs, count);
    Pool(dbs, Kept(dbs, Names(after, |after|), Sum(LoadsNow(dbs)), count))
  }

  /** The same databases, each in one of exactly count groups. */
  lemma RegroupPlacesAll(prefix: string, dbs: Databases, count: nat)
    requires count > 0
    ensures var plan := Regrouped(prefix, dbs, count);
            && plan.groupOf.Keys == dbs.Keys
            && |plan.groups| == count && Distinct(plan.groups)
            && PlacesIn(plan.groupOf, plan.groups)
  {
    GroupsAfterCount(prefix, dbs, count);
    var after := GroupsAfter(prefix, dbs, count);
    GroupOfWithin(dbs, PoolOf(prefix, dbs, count), after, StartLoads(dbs, after, Sum(LoadsNow(dbs)), count));
  }

  /** The groups made are those after that no database was in, each named once. */
  lemma MadeGroupsAreNew(prefix: string, dbs: Databases, count: nat)
    requires count > 0
    ensures var plan := Regrouped(prefix, dbs, count);
            && Distinct(plan.made)
            && Names(plan.made, |plan.made|) == Names(plan.groups, |plan.groups|) - GroupsNow(dbs)
  {
    GroupsAfterCount(prefix, dbs, count);
    NewNamesAreNew(prefix, dbs, count);
    StayingCount(dbs, count);
    var made := Made(prefix, dbs, count);
    OnlyTheNew(Staying(dbs, count), Names(made, |made|), GroupsNow(dbs));
  }

  lemma OnlyTheNew(stay: set<string>, made: set<string>, now: set<string>)
    requires stay <= now && made !! now
    ensures made == stay + made - now
  {
  }

  /** A group that goes has no more tables than any that stays. */
  lemma LightestGroupsGo(dbs: Databases, count: nat, goes: string, stays: string)
    requires goes in GroupsNow(dbs) - Staying(dbs, count) && stays in Staying(dbs, count)
    ensures stays in LoadsNow(dbs) && goes in LoadsNow(dbs) && Before(LoadsNow(dbs), stays, goes)
  {
    var loads := LoadsNow(dbs);
    var order := BiggestFirst(loads);
    var n := Fewer(count, |order|);
    BiggestFirstHasAll(loads);
    BiggestFirstIsSorted(loads);
    assert loads.Keys == GroupsNow(dbs) && |loads| == |loads.Keys|;
    var i := IndexOf(order, n, stays);
    var j := IndexBeyond(order, n, goes);
    assert Before(loads, order[i], order[j]);
  }

  lemma IndexBeyond(order: seq<string>, n: nat, name: string) returns (at: nat)
    requires n <= |order| && name in Names(order, |order|) - Names(order, n)
    ensures n <= at < |order| && order[at] == name
  {
    at := IndexOf(order, |order|, name);
    if at < n {
      NameAt(order, n, at);
      assert false;
    }
  }

  lemma StaysPut(prefix: string, dbs: Databases, count: nat, n: string)
    requires count > 0 && n in dbs && n !in PoolOf(prefix, dbs, count)
    ensures n in Regrouped(prefix, dbs, count).groupOf && Regrouped(prefix, dbs, count).groupOf[n] == dbs[n].group
  {
    GroupsAfterCount(prefix, dbs, count);
  }

  lemma StayingIsAfter(prefix: string, dbs: Databases, count: nat, group: string)
    requires group in GroupsNow(dbs)
    ensures group in Staying(dbs, count)
            <==> group in Names(GroupsAfter(prefix, dbs, count), |GroupsAfter(prefix, dbs, count)|)
  {
    GroupsAfterCount(prefix, dbs, count);
    NewNamesAreNew(prefix, dbs, count);
  }

  lemma KeepsFirst(order: seq<string>, sizes: Sizes, total: nat, count: nat, k: nat)
    requires 0 < k <= |order| && Within(order, sizes)
    ensures order[0] in KeptNames(order, sizes, total, count, k)
  {
    KeptAt(order, sizes, total, count, k, 0);
  }

  /** A group that stays keeps its biggest database. */
  lemma BiggestStays(prefix: string, dbs: Databases, count: nat, group: string)
    requires count > 0 && group in Staying(dbs, count)
    ensures MembersOf(dbs, group) != map[]
    ensures var n := First(MembersOf(dbs, group));
            n in Regrouped(prefix, dbs, count).groupOf && Regrouped(prefix, dbs, count).groupOf[n] == group
  {
    StayingCount(dbs, count);
    var some :| some in dbs && dbs[some].group == group;
    var sizes := MembersOf(dbs, group);
    assert some in sizes;
    var n := First(sizes);
    KeepsFirst(BiggestFirst(sizes), sizes, Sum(LoadsNow(dbs)), count, |sizes|);
    StayingIsAfter(prefix, dbs, count, group);
    StaysPut(prefix, dbs, count, n);
  }

  lemma KeptIsKept(prefix: string, dbs: Databases, count: nat, n: string)
    requires n in dbs && dbs[n].group in Staying(dbs, count)
    requires n in KeptOf(dbs, dbs[n].group, Sum(LoadsNow(dbs)), count)
    ensures n !in PoolOf(prefix, dbs, count)
  {
    assert dbs[n].group in GroupsNow(dbs);
    StayingIsAfter(prefix, dbs, count, dbs[n].group);
  }

  /** A database moves only when its group goes, or when its group, staying, already keeps bigger ones it would pass the
      even share beside. */
  lemma NoMoveWithoutReason(prefix: string, dbs: Databases, count: nat, n: string) returns (at: nat)
    requires count > 0 && n in dbs && dbs[n].group in Staying(dbs, count)
    requires n in Regrouped(prefix, dbs, count).groupOf && Regrouped(prefix, dbs, count).groupOf[n] != dbs[n].group
    ensures var sizes, total := MembersOf(dbs, dbs[n].group), Sum(LoadsNow(dbs));
            var order := BiggestFirst(sizes);
            && at < |order| && order[at] == n
            && !MayKeep(KeptLoad(order, sizes, total, count, at), dbs[n].tables, total, count)
  {
    var sizes, total := MembersOf(dbs, dbs[n].group), Sum(LoadsNow(dbs));
    at := PlaceInOrderOf(sizes, n);
    KeptAt(BiggestFirst(sizes), sizes, total, count, |sizes|, at);
    if n in KeptOf(dbs, dbs[n].group, total, count) {
      KeptStays(prefix, dbs, count, n);
    }
  }

  lemma PlaceInOrderOf(sizes: Sizes, n: string) returns (at: nat)
    requires n in sizes
    ensures at < |sizes| && BiggestFirst(sizes)[at] == n
  {
    BiggestFirstHasAll(sizes);
    at := IndexOf(BiggestFirst(sizes), |sizes|, n);
  }

  lemma {:induction false} KeptAt(order: seq<string>, sizes: Sizes, total: nat, count: nat, k: nat, i: nat)
    requires i < k <= |order| && Within(order, sizes)
    ensures Keeps(order, sizes, total, count, i) ==> order[i] in KeptNames(order, sizes, total, count, k)
    decreases k
  {
    if i < k - 1 {
      KeptAt(order, sizes, total, count, k - 1, i);
    }
  }

  lemma KeptStays(prefix: string, dbs: Databases, count: nat, n: string)
    requires count > 0 && n in dbs && dbs[n].group in Staying(dbs, count)
    requires n in KeptOf(dbs, dbs[n].group, Sum(LoadsNow(dbs)), count)
    ensures n in Regrouped(prefix, dbs, count).groupOf && Regrouped(prefix, dbs, count).groupOf[n] == dbs[n].group
  {
    KeptIsKept(prefix, dbs, count, n);
    StaysPut(prefix, dbs, count, n);
  }

  /** With at least as many groups as now, every group stays and none is left empty. */
  lemma MoreGroupsEmptyNone(prefix: string, dbs: Databases, count: nat, group: string)
    requires count > 0 && count >= |GroupsNow(dbs)| && group in GroupsNow(dbs)
    ensures Regrouped(prefix, dbs, count).emptied == {}
    ensures exists n :: n in Regrouped(prefix, dbs, count).groupOf && Regrouped(prefix, dbs, count).groupOf[n] == group
  {
    GroupsAfterCount(prefix, dbs, count);
    StayingCount(dbs, count);
    AllOfThem(Staying(dbs, count), GroupsNow(dbs));
    BiggestStays(prefix, dbs, count, group);
  }

  lemma AllOfThem(some: set<string>, all: set<string>)
    requires some <= all && |some| == |all|
    ensures some == all
  {
    assert all == some + (all - some);
    assert |all| == |some| + |all - some|;
  }

  // ---- the even share after a regroup -------------------------------------------------------------------------------

  function InGroups(dbs: Databases, groups: set<string>): Sizes {
    map n | n in dbs && dbs[n].group in groups :: dbs[n].tables
  }

  /** Group by group, the databases add up to the tables of all of them. */
  lemma {:induction false} SumByGroup(dbs: Databases, order: seq<string>, loads: seq<nat>, k: nat)
    requires k <= |order| == |loads| && Distinct(order)
    requires forall i :: 0 <= i < |order| ==> loads[i] == Sum(MembersOf(dbs, order[i]))
    ensures Total(loads, k) == Sum(InGroups(dbs, Names(order, k)))
    decreases k
  {
    if k == 0 {
      assert InGroups(dbs, Names(order, 0)) == map[];
    } else {
      SumByGroup(dbs, order, loads, k - 1);
      OneGroupAdds(dbs, order, k - 1);
    }
  }

  lemma OneGroupAdds(dbs: Databases, order: seq<string>, k: nat)
    requires k < |order| && Distinct(order)
    ensures Sum(InGroups(dbs, Names(order, k + 1)))
            == Sum(InGroups(dbs, Names(order, k))) + Sum(MembersOf(dbs, order[k]))
  {
    GroupIsPart(dbs, order, k);
    SumOfParts(InGroups(dbs, Names(order, k + 1)), InGroups(dbs, Names(order, k)), MembersOf(dbs, order[k]));
  }

  lemma GroupIsPart(dbs: Databases, order: seq<string>, k: nat)
    requires k < |order| && Distinct(order)
    ensures Parts(InGroups(dbs, Names(order, k + 1)), InGroups(dbs, Names(order, k)), MembersOf(dbs, order[k]))
  {
    assert Names(order, k + 1) == Names(order, k) + {order[k]};
    assert order[k] !in Names(order, k);
  }

  lemma LoadsAddUp(dbs: Databases)
    ensures Sum(LoadsNow(dbs)) == Sum(TablesOf(dbs))
  {
    var loads := LoadsNow(dbs);
    var order := BiggestFirst(loads);
    BiggestFirstIsDistinct(loads);
    BiggestFirstHasAll(loads);
    TotalOfOrder(loads);
    LoadsByGroup(dbs, order);
    SumByGroup(dbs, order, Along(order, loads), |order|);
    InAllGroups(dbs, Names(order, |order|));
  }

  lemma LoadsByGroup(dbs: Databases, order: seq<string>)
    requires Within(order, LoadsNow(dbs))
    ensures forall i :: 0 <= i < |order| ==> Along(order, LoadsNow(dbs))[i] == Sum(MembersOf(dbs, order[i]))
  {
  }

  lemma InAllGroups(dbs: Databases, groups: set<string>)
    requires groups == GroupsNow(dbs)
    ensures InGroups(dbs, groups) == TablesOf(dbs)
  {
  }

  function Only(dbs: Databases, names: set<string>): Databases {
    map n | n in dbs && n in names :: dbs[n]
  }

  function Picked(sizes: Sizes, names: set<string>): Sizes {
    map n | n in sizes && n in names :: sizes[n]
  }

  lemma {:induction false} KeptAddsUp(order: seq<string>, sizes: Sizes, total: nat, count: nat, k: nat)
    requires k <= |order| && Within(order, sizes) && Distinct(order)
    ensures Sum(Picked(sizes, KeptNames(order, sizes, total, count, k))) == KeptLoad(order, sizes, total, count, k)
    decreases k
  {
    if k == 0 {
      assert Picked(sizes, KeptNames(order, sizes, total, count, 0)) == map[];
    } else {
      KeptAddsUp(order, sizes, total, count, k - 1);
      KeepsOne(order, sizes, total, count, k - 1);
      var before, after := KeptNames(order, sizes, total, count, k - 1), KeptNames(order, sizes, total, count, k);
      if Keeps(order, sizes, total, count, k - 1) {
        PickedOneMore(order, sizes, before, after, k - 1);
      } else {
        assert after == before;
      }
    }
  }

  lemma PickedOneMore(order: seq<string>, sizes: Sizes, kept: set<string>, after: set<string>, k: nat)
    requires k < |order| && Within(order, sizes) && Distinct(order) && kept <= Names(order, k)
    requires after == kept + {order[k]}
    ensures Sum(Picked(sizes, after)) == Sum(Picked(sizes, kept)) + sizes[order[k]]
  {
    assert order[k] !in Names(order, k);
    assert Picked(sizes, after) == Picked(sizes, kept)[order[k] := sizes[order[k]]];
    SumAdds(Picked(sizes, kept), order[k], sizes[order[k]]);
  }

  /** What a staying group keeps is within an even share, or one database. */
  lemma {:induction false} KeptIsEven(order: seq<string>, sizes: Sizes, total: nat, largest: nat, count: nat, k: nat)
    requires count > 0 && k <= |order| && Within(order, sizes)
    requires forall n :: n in sizes ==> sizes[n] <= largest && sizes[n] <= total
    ensures EvenShare(count, KeptLoad(order, sizes, total, count, k), total, largest)
    decreases k
  {
    if k == 0 {
      NothingIsEven(count, total, largest);
    } else {
      KeptIsEven(order, sizes, total, largest, count, k - 1);
      var before, more := KeptLoad(order, sizes, total, count, k - 1), sizes[order[k - 1]];
      if before == 0 {
        OneIsEven(count, more, total, largest);
      } else if count * (before + more) <= total {
        MulMonotone(count - 1, 0, largest);
      }
    }
  }

  lemma OneIsEven(count: nat, tables: nat, total: nat, largest: nat)
    requires count > 0 && tables <= total && tables <= largest
    ensures EvenShare(count, tables, total, largest)
  {
    MulMonotone(count - 1, tables, largest);
    assert count * tables == tables + (count - 1) * tables;
  }

  lemma PartOfSum(sizes: Sizes, n: string)
    requires n in sizes
    ensures sizes[n] <= Sum(sizes)
  {
    SumWithout(sizes, n);
  }

  /** What a group holds after. */
  function LoadAfter(dbs: Databases, groupOf: map<string, string>, group: string): nat {
    Sum(HeldIn(dbs, groupOf, group))
  }

  lemma KeptByGroup(dbs: Databases, stay: set<string>, total: nat, count: nat, group: string)
    requires group in stay
    ensures Sum(MembersOf(Only(dbs, Kept(dbs, stay, total, count)), group)) == KeptLoadOf(dbs, group, total, count)
  {
    var sizes := MembersOf(dbs, group);
    BiggestFirstIsDistinct(sizes);
    KeptAddsUp(BiggestFirst(sizes), sizes, total, count, |sizes|);
    KeptOfGroup(dbs, stay, group, total, count);
    OnlyKept(dbs, Kept(dbs, stay, total, count), group, KeptOf(dbs, group, total, count));
  }

  lemma OnlyKept(dbs: Databases, kept: set<string>, group: string, keeps: set<string>)
    requires KeepsOf(dbs, kept, group, keeps)
    ensures MembersOf(Only(dbs, kept), group) == Picked(MembersOf(dbs, group), keeps)
  {
  }

  /** What the groups start with and what is left to place are all the tables. */
  lemma StartAndPoolAddUp(dbs: Databases, after: seq<string>, total: nat, count: nat)
    requires Distinct(after)
    ensures var start := StartLoads(dbs, after, total, count);
            var pool := Pool(dbs, Kept(dbs, Names(after, |after|), total, count));
            Total(start, |start|) + Sum(pool) == Sum(TablesOf(dbs))
  {
    var stay, start := Names(after, |after|), StartLoads(dbs, after, total, count);
    var kept := Kept(dbs, stay, total, count);
    forall i | 0 <= i < |after| ensures start[i] == Sum(MembersOf(Only(dbs, kept), after[i])) {
      NameAt(after, |after|, i);
      KeptByGroup(dbs, stay, total, count, after[i]);
    }
    SumByGroup(Only(dbs, kept), after, start, |after|);
    KeptAndPool(dbs, stay, kept);
    SumOfParts(TablesOf(dbs), InGroups(Only(dbs, kept), stay), Pool(dbs, kept));
  }

  lemma KeptAndPool(dbs: Databases, stay: set<string>, kept: set<string>)
    requires forall n :: n in kept ==> n in dbs && dbs[n].group in stay
    ensures Parts(TablesOf(dbs), InGroups(Only(dbs, kept), stay), Pool(dbs, kept))
  {
  }

  /** A group's databases after are those it kept and those of the pool placed in it. */
  lemma LoadAfterIsCounted(dbs: Databases, after: seq<string>, made: seq<string>, count: nat, i: nat)
    requires Distinct(after) && i < |after|
    ensures var total := Sum(LoadsNow(dbs));
            var start := StartLoads(dbs, after, total, count);
            var pool := Pool(dbs, Kept(dbs, Names(after, |after|), total, count));
            LoadAfter(dbs, RegroupingOf(dbs, after, made, count).groupOf, after[i])
            == Loads(Along(BiggestFirst(pool), pool), start, |pool|)[i]
  {
    var total, stay := Sum(LoadsNow(dbs)), Names(after, |after|);
    var kept := Kept(dbs, stay, total, count);
    var start, pool := StartLoads(dbs, after, total, count), Pool(dbs, kept);
    NameAt(after, |after|, i);
    KeptByGroup(dbs, stay, total, count, after[i]);
    PoolSlotsPlaceAll(pool, start);
    AfterIsKeptAndPlaced(dbs, kept, pool, after, start, i);
    PoolLoads(pool, start, i);
  }

  lemma AfterIsKeptAndPlaced(dbs: Databases, kept: set<string>, pool: Sizes, after: seq<string>, start: seq<nat>,
                          i: nat)
    requires Distinct(after) && i < |after| == |start| && pool == Pool(dbs, kept)
    ensures LoadAfter(dbs, GroupOf(dbs, pool, after, start), after[i])
            == Sum(MembersOf(Only(dbs, kept), after[i])) + Load(PoolSlots(pool, start), pool, i)
  {
    var groupOf, slots := GroupOf(dbs, pool, after, start), PoolSlots(pool, start);
    PoolSlotsPlaceAll(pool, start);
    HeldAreKeptOrPlaced(dbs, kept, pool, after, slots, groupOf, i);
    SumOfParts(HeldIn(dbs, groupOf, after[i]), MembersOf(Only(dbs, kept), after[i]), PlacedIn(slots, pool, i));
  }

  function HeldIn(dbs: Databases, groupOf: map<string, string>, group: string): Sizes {
    map n | n in dbs && n in groupOf && groupOf[n] == group :: dbs[n].tables
  }

  function PlacedIn(slots: map<string, nat>, pool: Sizes, i: nat): Sizes {
    map n | n in slots && n in pool && slots[n] == i :: pool[n]
  }

  lemma HeldAreKeptOrPlaced(dbs: Databases, kept: set<string>, pool: Sizes, after: seq<string>, slots: map<string, nat>,
                            groupOf: map<string, string>, i: nat)
    requires Distinct(after) && i < |after| && pool == Pool(dbs, kept) && slots.Keys == pool.Keys
    requires forall n :: n in slots ==> slots[n] < |after|
    requires groupOf == map n | n in dbs :: if n in pool then after[slots[n]] else dbs[n].group
    ensures Parts(HeldIn(dbs, groupOf, after[i]), MembersOf(Only(dbs, kept), after[i]), PlacedIn(slots, pool, i))
  {
    forall n | n in slots && slots[n] != i ensures after[slots[n]] != after[i] { DifferentAt(after, slots[n], i); }
  }

  lemma PoolLoads(pool: Sizes, start: seq<nat>, i: nat)
    requires i < |start|
    ensures Loads(Along(BiggestFirst(pool), pool), start, |pool|)[i] == start[i] + Load(PoolSlots(pool, start), pool, i)
  {
    var order := BiggestFirst(pool);
    var weights := Along(order, pool);
    BiggestFirstIsDistinct(pool);
    SlotsTakeLightest(weights, start);
    PlacingLoads(order, pool, Slots(weights, start), i, |order|);
    LoadsAreHeld(weights, start, Slots(weights, start), i, |order|);
  }

  lemma StartIsEven(dbs: Databases, group: string, count: nat)
    requires count > 0
    ensures EvenShare(count, KeptLoadOf(dbs, group, Sum(TablesOf(dbs)), count), Sum(TablesOf(dbs)),
            Largest(TablesOf(dbs)))
  {
    var sizes, all := MembersOf(dbs, group), TablesOf(dbs);
    forall n | n in sizes ensures sizes[n] <= Largest(all) && sizes[n] <= Sum(all) {
      assert n in all && all[n] == sizes[n];
      PartOfSum(all, n);
    }
    KeptIsEven(BiggestFirst(sizes), sizes, Sum(all), Largest(all), count, |sizes|);
  }

  /** After a regroup too, no group passes an even share of the tables by more than (1 - 1/count) of the biggest
      database. */
  lemma RegroupIsWithinAnEvenShare(prefix: string, dbs: Databases, count: nat, group: string)
    requires count > 0 && group in Names(GroupsAfter(prefix, dbs, count), |GroupsAfter(prefix, dbs, count)|)
    ensures EvenShare(count, LoadAfter(dbs, Regrouped(prefix, dbs, count).groupOf, group), Sum(TablesOf(dbs)),
                      Largest(TablesOf(dbs)))
  {
    var after, made, all := GroupsAfter(prefix, dbs, count), Made(prefix, dbs, count), TablesOf(dbs);
    GroupsAfterCount(prefix, dbs, count);
    var i := IndexOf(after, |after|, group);
    LoadsAddUp(dbs);
    LoadAfterIsCounted(dbs, after, made, count, i);
    StartAndPoolAddUp(dbs, after, Sum(all), count);
    var start, pool := StartLoads(dbs, after, Sum(all), count), PoolOf(prefix, dbs, count);
    TotalOfOrder(pool);
    StartIsEven(dbs, group, count);
    PoolIsSmall(dbs, pool);
    WithinEvenShare(Along(BiggestFirst(pool), pool), start, Sum(all), Largest(all), i);
  }

  lemma PoolIsSmall(dbs: Databases, pool: Sizes)
    requires forall n :: n in pool ==> n in dbs && pool[n] == dbs[n].tables
    ensures forall k :: 0 <= k < |pool| ==> Along(BiggestFirst(pool), pool)[k] <= Largest(TablesOf(dbs))
  {
    forall k | 0 <= k < |pool| ensures Along(BiggestFirst(pool), pool)[k] <= Largest(TablesOf(dbs)) {
      assert BiggestFirst(pool)[k] in TablesOf(dbs);
    }
  }

  lemma RegroupKeepsGroupsToSize(prefix: string, dbs: Databases, perGroup: nat, group: string)
    requires perGroup > 0
    requires var count := GroupsForTables(Sum(TablesOf(dbs)), perGroup);
             group in Names(GroupsAfter(prefix, dbs, count), |GroupsAfter(prefix, dbs, count)|)
    ensures var count := GroupsForTables(Sum(TablesOf(dbs)), perGroup);
            10 * LoadAfter(dbs, Regrouped(prefix, dbs, count).groupOf, group)
            <= 11 * perGroup + 10 * Largest(TablesOf(dbs))
  {
    var count := GroupsForTables(Sum(TablesOf(dbs)), perGroup);
    RegroupIsWithinAnEvenShare(prefix, dbs, count, group);
    EvenShareOfDefaultGroups(Sum(TablesOf(dbs)), perGroup, LoadAfter(dbs, Regrouped(prefix, dbs, count).groupOf, group),
                             Largest(TablesOf(dbs)));
  }
}
