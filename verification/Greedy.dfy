/** Greedy placement of weights into groups, each into the lightest one at that time: the step app/src/placement.py
    takes in even and again in regroup, and the two bounds on the heaviest group it leaves. Every function here takes
    the number of weights it counts. */
module Greedy {

  function Total(weights: seq<nat>, k: nat): nat
    requires k <= |weights|
  {
    if k == 0 then 0 else Total(weights, k - 1) + weights[k - 1]
  }

  /** The lightest group, the lowest index on a tie. */
  function Lightest(loads: seq<nat>): (i: nat)
    requires loads != []
    ensures i < |loads|
    ensures forall j :: 0 <= j < |loads| ==> loads[i] <= loads[j]
    ensures forall j :: 0 <= j < i ==> loads[i] < loads[j]
  {
    LightestOf(loads, |loads|)
  }

  function LightestOf(loads: seq<nat>, k: nat): (i: nat)
    requires 0 < k <= |loads|
    ensures i < k
    ensures forall j :: 0 <= j < k ==> loads[i] <= loads[j]
    ensures forall j :: 0 <= j < i ==> loads[i] < loads[j]
  {
    if k == 1 then 0 else
      var i := LightestOf(loads, k - 1);
      if loads[k - 1] < loads[i] then k - 1 else i
  }

  /** The loads once the first k weights, in order, have each gone into the lightest group. */
  function Loads(weights: seq<nat>, start: seq<nat>, k: nat): (loads: seq<nat>)
    requires start != [] && k <= |weights|
    ensures |loads| == |start|
  {
    if k == 0 then start else
      var before := Loads(weights, start, k - 1);
      var i := Lightest(before);
      before[i := before[i] + weights[k - 1]]
  }

  /** The group each weight goes to. */
  function Slots(weights: seq<nat>, start: seq<nat>): (slots: seq<nat>)
    requires start != []
    ensures |slots| == |weights|
  {
    SlotsOfFirst(weights, start, |weights|)
  }

  function SlotsOfFirst(weights: seq<nat>, start: seq<nat>, k: nat): (slots: seq<nat>)
    requires start != [] && k <= |weights|
    ensures |slots| == k
  {
    if k == 0 then [] else SlotsOfFirst(weights, start, k - 1) + [Lightest(Loads(weights, start, k - 1))]
  }

  ghost predicate Assigns(slots: seq<nat>, weights: seq<nat>, groups: nat) {
    |slots| == |weights| && forall k :: 0 <= k < |slots| ==> slots[k] < groups
  }

  /** What a group holds of the first k weights, under any assignment. */
  ghost function Held(weights: seq<nat>, slots: seq<nat>, group: nat, k: nat): nat
    requires k <= |weights| == |slots|
  {
    if k == 0 then 0 else
      Held(weights, slots, group, k - 1) + if slots[k - 1] == group then weights[k - 1] else 0
  }

  ghost function HeldBelow(weights: seq<nat>, slots: seq<nat>, groups: nat, k: nat): nat
    requires k <= |weights| == |slots|
    decreases groups
  {
    if groups == 0 then 0 else HeldBelow(weights, slots, groups - 1, k) + Held(weights, slots, groups - 1, k)
  }

  ghost predicate NoneAbove(weights: seq<nat>, slots: seq<nat>, groups: nat, k: nat, bound: nat)
    requires k <= |weights| == |slots|
  {
    forall g :: 0 <= g < groups ==> Held(weights, slots, g, k) <= bound
  }

  // Conservation: the groups together hold the total, whatever the assignment.

  lemma {:induction false} HeldBelowStep(weights: seq<nat>, slots: seq<nat>, groups: nat, k: nat)
    requires 0 < k <= |weights| == |slots|
    ensures HeldBelow(weights, slots, groups, k)
            == HeldBelow(weights, slots, groups, k - 1) + if slots[k - 1] < groups then weights[k - 1] else 0
    decreases groups
  {
    if groups > 0 {
      HeldBelowStep(weights, slots, groups - 1, k);
    }
  }

  lemma {:induction false} HeldBelowNothing(weights: seq<nat>, slots: seq<nat>, groups: nat)
    requires |weights| == |slots|
    ensures HeldBelow(weights, slots, groups, 0) == 0
    decreases groups
  {
    if groups > 0 {
      HeldBelowNothing(weights, slots, groups - 1);
    }
  }

  lemma {:induction false} GroupsHoldTheTotal(weights: seq<nat>, slots: seq<nat>, groups: nat, k: nat)
    requires Assigns(slots, weights, groups) && k <= |weights|
    ensures HeldBelow(weights, slots, groups, k) == Total(weights, k)
    decreases k
  {
    if k == 0 {
      HeldBelowNothing(weights, slots, groups);
    } else {
      GroupsHoldTheTotal(weights, slots, groups, k - 1);
      HeldBelowStep(weights, slots, groups, k);
    }
  }

  lemma {:induction false} SumAtMost(weights: seq<nat>, slots: seq<nat>, groups: nat, k: nat, bound: nat)
    requires k <= |weights| == |slots| && NoneAbove(weights, slots, groups, k, bound)
    ensures HeldBelow(weights, slots, groups, k) <= groups * bound
    decreases groups
  {
    if groups > 0 {
      assert Held(weights, slots, groups - 1, k) <= bound;
      SumAtMost(weights, slots, groups - 1, k, bound);
      assert groups * bound == (groups - 1) * bound + bound;
    }
  }

  lemma {:induction false} SumAtLeast(weights: seq<nat>, slots: seq<nat>, groups: nat, k: nat, bound: nat)
    requires k <= |weights| == |slots|
    requires forall g :: 0 <= g < groups ==> bound <= Held(weights, slots, g, k)
    ensures HeldBelow(weights, slots, groups, k) >= groups * bound
    decreases groups
  {
    if groups > 0 {
      assert bound <= Held(weights, slots, groups - 1, k);
      SumAtLeast(weights, slots, groups - 1, k, bound);
      assert groups * bound == (groups - 1) * bound + bound;
    }
  }

  function Zeros(groups: nat): (loads: seq<nat>)
    ensures |loads| == groups && forall g :: 0 <= g < groups ==> loads[g] == 0
  {
    seq(groups, _ => 0)
  }

  ghost predicate TakesLightest(slots: seq<nat>, weights: seq<nat>, start: seq<nat>)
    requires start != []
  {
    |slots| == |weights| &&
    forall k {:trigger slots[k]} :: 0 <= k < |slots| ==> slots[k] == Lightest(Loads(weights, start, k))
  }

  lemma {:induction false} SlotOfFirst(weights: seq<nat>, start: seq<nat>, k: nat, i: nat)
    requires start != [] && i < k <= |weights|
    ensures SlotsOfFirst(weights, start, k)[i] == Lightest(Loads(weights, start, i))
    decreases k
  {
    if i < k - 1 {
      SlotOfFirst(weights, start, k - 1, i);
    }
  }

  lemma SlotsTakeLightest(weights: seq<nat>, start: seq<nat>)
    requires start != []
    ensures TakesLightest(Slots(weights, start), weights, start)
    ensures Assigns(Slots(weights, start), weights, |start|)
  {
    forall k | 0 <= k < |weights| ensures Slots(weights, start)[k] == Lightest(Loads(weights, start, k)) {
      SlotOfFirst(weights, start, |weights|, k);
    }
  }

  /** The loads the greedy step keeps up to date are what its own assignment gives each group. */
  lemma {:induction false} LoadsAreHeld(weights: seq<nat>, start: seq<nat>, slots: seq<nat>, group: nat, k: nat)
    requires group < |start| && k <= |weights| && TakesLightest(slots, weights, start)
    ensures Loads(weights, start, k)[group] == start[group] + Held(weights, slots, group, k)
    decreases k
  {
    if k > 0 {
      LoadsAreHeld(weights, start, slots, group, k - 1);
    }
  }

  lemma {:induction false} UpdateAddsToTotal(loads: seq<nat>, i: nat, more: nat, k: nat)
    requires i < |loads| && k <= |loads|
    ensures Total(loads[i := loads[i] + more], k) == Total(loads, k) + if i < k then more else 0
    decreases k
  {
    if k > 0 {
      UpdateAddsToTotal(loads, i, more, k - 1);
    }
  }

  lemma {:induction false} LoadsTotal(weights: seq<nat>, start: seq<nat>, k: nat)
    requires start != [] && k <= |weights|
    ensures Total(Loads(weights, start, k), |start|) == Total(start, |start|) + Total(weights, k)
    decreases k
  {
    if k > 0 {
      var before := Loads(weights, start, k - 1);
      LoadsTotal(weights, start, k - 1);
      UpdateAddsToTotal(before, Lightest(before), weights[k - 1], |start|);
    }
  }

  lemma {:induction false} TotalAtLeast(loads: seq<nat>, bound: nat, k: nat)
    requires k <= |loads| && forall j :: 0 <= j < |loads| ==> bound <= loads[j]
    ensures k * bound <= Total(loads, k)
    decreases k
  {
    if k > 0 {
      TotalAtLeast(loads, bound, k - 1);
      assert k * bound == (k - 1) * bound + bound;
    }
  }

  lemma {:induction false} TotalGrows(weights: seq<nat>, j: nat, k: nat)
    requires j <= k <= |weights|
    ensures Total(weights, j) <= Total(weights, k)
    decreases k
  {
    if j < k {
      TotalGrows(weights, j, k - 1);
    }
  }

  lemma {:induction false} HeldGrows(weights: seq<nat>, slots: seq<nat>, group: nat, j: nat, k: nat)
    requires j <= k <= |weights| == |slots|
    ensures Held(weights, slots, group, j) <= Held(weights, slots, group, k)
    decreases k
  {
    if j < k {
      HeldGrows(weights, slots, group, j, k - 1);
    }
  }

  /** A group holds what it started with, or what the last weight it took made it hold: how many weights were placed
      by then. */
  lemma {:induction false} LastTaken(weights: seq<nat>, start: seq<nat>, group: nat, k: nat) returns (placed: nat)
    requires group < |start| && k <= |weights|
    ensures placed <= k
    ensures placed == 0 ==> Loads(weights, start, k)[group] == start[group]
    ensures placed > 0 ==> var before := Loads(weights, start, placed - 1);
                           Loads(weights, start, k)[group] == before[Lightest(before)] + weights[placed - 1]
    decreases k
  {
    if k == 0 {
      placed := 0;
    } else if group == Lightest(Loads(weights, start, k - 1)) {
      placed := k;
    } else {
      placed := LastTaken(weights, start, group, k - 1);
    }
  }

  // The list-scheduling bound.

  /** Within an even share of the total, but for (1 - 1/groups) of the largest weight. */
  ghost predicate EvenShare(groups: nat, load: nat, total: nat, largest: nat) {
    groups * load <= total + (groups - 1) * largest
  }

  lemma MulMonotone(k: nat, x: nat, y: nat)
    requires x <= y
    ensures k * x <= k * y
  {
  }

  lemma LowestShare(weights: seq<nat>, start: seq<nat>, k: nat)
    requires start != [] && 0 < k <= |weights|
    ensures var before := Loads(weights, start, k - 1);
            |start| * before[Lightest(before)] + weights[k - 1] <= Total(start, |start|) + Total(weights, k)
  {
    LoadsTotal(weights, start, k - 1);
    LightestIsBelowAverage(Loads(weights, start, k - 1));
  }

  lemma LightestIsBelowAverage(loads: seq<nat>)
    requires loads != []
    ensures |loads| * loads[Lightest(loads)] <= Total(loads, |loads|)
  {
    TotalAtLeast(loads, loads[Lightest(loads)], |loads|);
  }

  /** From groups that each keep to an even share already, the greedy step lets none pass it. */
  lemma WithinEvenShare(weights: seq<nat>, start: seq<nat>, total: nat, largest: nat, group: nat)
    requires group < |start|
    requires Total(start, |start|) + Total(weights, |weights|) <= total
    requires forall k :: 0 <= k < |weights| ==> weights[k] <= largest
    requires EvenShare(|start|, start[group], total, largest)
    ensures EvenShare(|start|, Loads(weights, start, |weights|)[group], total, largest)
  {
    var placed := LastTaken(weights, start, group, |weights|);
    if placed > 0 {
      var before := Loads(weights, start, placed - 1);
      LowestShare(weights, start, placed);
      TotalGrows(weights, placed, |weights|);
      LightestStaysEven(|start|, before[Lightest(before)], weights[placed - 1], Loads(weights, start, |weights|)[group],
                        total, largest);
    }
  }

  lemma LightestStaysEven(groups: nat, low: nat, p: nat, load: nat, total: nat, largest: nat)
    requires groups > 0 && p <= largest && groups * low + p <= total && load == low + p
    ensures EvenShare(groups, load, total, largest)
  {
    MulMonotone(groups - 1, p, largest);
    assert groups * (low + p) == groups * low + p + (groups - 1) * p;
  }

  // Graham's bound for longest processing time first. The hard case, weights above a third of the optimum, is settled
  // by counting: give a weight 2 when no group of the optimum can hold it beside the last one placed, and 1 otherwise.

  ghost predicate Descending(weights: seq<nat>) {
    forall i, j :: 0 <= i < j < |weights| ==> weights[i] >= weights[j]
  }

  ghost function Counts(weights: seq<nat>, last: nat, best: nat): (counts: seq<nat>)
    ensures |counts| == |weights|
    ensures forall i :: 0 <= i < |counts| ==> counts[i] == if weights[i] + last > best then 2 else 1
  {
    seq(|weights|, i requires 0 <= i < |weights| => if weights[i] + last > best then 2 else 1)
  }

  /** A group the counting finds less than full is light enough to take the last weight within the optimum. */
  lemma {:induction false} UncrowdedIsLight(weights: seq<nat>, slots: seq<nat>, group: nat, k: nat, last: nat,
                          best: nat)
    requires k <= |slots| == |weights| && last <= best
    ensures Held(Counts(weights, last, best), slots, group, k) == 0 ==> Held(weights, slots, group, k) == 0
    ensures Held(Counts(weights, last, best), slots, group, k) <= 1 ==> Held(weights, slots, group, k) + last <= best
    decreases k
  {
    if k > 0 {
      UncrowdedIsLight(weights, slots, group, k - 1, last, best);
    }
  }

  /** A group that counts 3 or more holds more than the optimum, when every weight is above a third of it. */
  lemma {:induction false} CrowdedIsHeavy(weights: seq<nat>, slots: seq<nat>, group: nat, k: nat, last: nat, best: nat)
    requires k <= |slots| == |weights| && 3 * last > best
    requires forall i :: 0 <= i < k ==> weights[i] >= last
    ensures var c, h := Held(Counts(weights, last, best), slots, group, k), Held(weights, slots, group, k);
            && (c == 1 ==> h >= last)
            && (c == 2 ==> h >= 2 * last || h + last > best)
            && (c >= 3 ==> h > best)
    decreases k
  {
    if k > 0 {
      CrowdedIsHeavy(weights, slots, group, k - 1, last, best);
    }
  }

  lemma CountsOfOptimum(weights: seq<nat>, other: seq<nat>, groups: nat, k: nat, best: nat)
    requires 0 < k <= |weights| && Descending(weights)
    requires Assigns(other, weights, groups) && NoneAbove(weights, other, groups, k, best)
    requires 3 * weights[k - 1] > best
    ensures Total(Counts(weights, weights[k - 1], best), k) <= groups * 2
  {
    var counts := Counts(weights, weights[k - 1], best);
    forall g | 0 <= g < groups ensures Held(counts, other, g, k) <= 2 {
      assert Held(weights, other, g, k) <= best;
      CrowdedIsHeavy(weights, other, g, k, weights[k - 1], best);
    }
    SumAtMost(counts, other, groups, k, 2);
    GroupsHoldTheTotal(counts, other, groups, k);
  }

  lemma GreedyGroupIsCrowded(weights: seq<nat>, slots: seq<nat>, groups: nat, k: nat, best: nat, group: nat)
    requires group < groups && 0 < k <= |weights| && weights[k - 1] <= best
    requires TakesLightest(slots, weights, Zeros(groups))
    requires var before := Loads(weights, Zeros(groups), k - 1); before[Lightest(before)] + weights[k - 1] > best
    ensures 2 <= Held(Counts(weights, weights[k - 1], best), slots, group, k - 1)
  {
    LoadsAreHeld(weights, Zeros(groups), slots, group, k - 1);
    UncrowdedIsLight(weights, slots, group, k - 1, weights[k - 1], best);
  }

  lemma CountsOfGreedy(weights: seq<nat>, slots: seq<nat>, groups: nat, k: nat, best: nat)
    requires groups > 0 && 0 < k <= |weights| && weights[k - 1] <= best
    requires Assigns(slots, weights, groups) && TakesLightest(slots, weights, Zeros(groups))
    requires var before := Loads(weights, Zeros(groups), k - 1); before[Lightest(before)] + weights[k - 1] > best
    ensures Total(Counts(weights, weights[k - 1], best), k) > groups * 2
  {
    var counts, before := Counts(weights, weights[k - 1], best), k - 1;
    forall g | 0 <= g < groups ensures 2 <= Held(counts, slots, g, before) {
      GreedyGroupIsCrowded(weights, slots, groups, k, best, g);
    }
    SumAtLeast(counts, slots, groups, before, 2);
    GroupsHoldTheTotal(counts, slots, groups, before);
  }

  /** When the last weight is above a third of what some assignment keeps to, the greedy step keeps to it too. */
  lemma LargeWeightsAreOptimal(weights: seq<nat>, other: seq<nat>, groups: nat, k: nat, best: nat)
    requires groups > 0 && 0 < k <= |weights| && Descending(weights)
    requires Assigns(other, weights, groups) && NoneAbove(weights, other, groups, k, best)
    requires 3 * weights[k - 1] > best
    ensures var before := Loads(weights, Zeros(groups), k - 1);
            before[Lightest(before)] + weights[k - 1] <= best
  {
    var before := Loads(weights, Zeros(groups), k - 1);
    assert weights[k - 1] <= Held(weights, other, other[k - 1], k) <= best;
    CountsOfOptimum(weights, other, groups, k, best);
    if before[Lightest(before)] + weights[k - 1] > best {
      SlotsTakeLightest(weights, Zeros(groups));
      CountsOfGreedy(weights, Slots(weights, Zeros(groups)), groups, k, best);
    }
  }

  /** Graham's ratio, 4/3 - 1/(3 groups), in whole numbers. */
  ghost predicate NearOptimal(groups: nat, load: nat, best: nat) {
    3 * groups * load <= (4 * groups - 1) * best
  }

  /** Biggest first into the lightest group: within 4/3 - 1/(3 groups) of every other assignment. */
  lemma BiggestFirstIsNearOptimal(weights: seq<nat>, other: seq<nat>, groups: nat, best: nat, group: nat)
    requires group < groups && Descending(weights)
    requires Assigns(other, weights, groups) && NoneAbove(weights, other, groups, |weights|, best)
    ensures NearOptimal(groups, Loads(weights, Zeros(groups), |weights|)[group], best)
  {
    var load := Loads(weights, Zeros(groups), |weights|)[group];
    var placed := LastTaken(weights, Zeros(groups), group, |weights|);
    if placed > 0 {
      forall g | 0 <= g < groups ensures Held(weights, other, g, placed) <= best {
        HeldGrows(weights, other, g, placed, |weights|);
        assert Held(weights, other, g, |weights|) <= best;
      }
      LastPlaced(weights, other, groups, placed, load, best);
    } else {
      NotAbove(groups, load, best);
    }
  }

  lemma LastPlaced(weights: seq<nat>, other: seq<nat>, groups: nat, k: nat, load: nat, best: nat)
    requires groups > 0 && 0 < k <= |weights| && Descending(weights)
    requires Assigns(other, weights, groups) && NoneAbove(weights, other, groups, k, best)
    requires var before := Loads(weights, Zeros(groups), k - 1); load == before[Lightest(before)] + weights[k - 1]
    ensures NearOptimal(groups, load, best)
  {
    var p := weights[k - 1];
    if 3 * p > best {
      LargeWeightsAreOptimal(weights, other, groups, k, best);
      NotAbove(groups, load, best);
    } else {
      GroupsHoldTheTotal(weights, other, groups, k);
      SumAtMost(weights, other, groups, k, best);
      LowestShare(weights, Zeros(groups), k);
      ZerosTotal(groups, groups);
      SmallLast(groups, load - p, p, load, best);
    }
  }

  lemma {:induction false} ZerosTotal(groups: nat, k: nat)
    requires k <= groups
    ensures Total(Zeros(groups), k) == 0
    decreases k
  {
    if k > 0 {
      ZerosTotal(groups, k - 1);
    }
  }

  lemma NotAbove(groups: nat, load: nat, best: nat)
    requires groups > 0 && load <= best
    ensures NearOptimal(groups, load, best)
  {
    MulMonotone(3 * groups, load, best);
    assert (4 * groups - 1) * best == 3 * groups * best + (groups - 1) * best;
  }

  lemma SmallLast(groups: nat, low: nat, p: nat, load: nat, best: nat)
    requires groups > 0 && 3 * p <= best && groups * low + p <= groups * best && load == low + p
    ensures NearOptimal(groups, load, best)
  {
    MulMonotone(groups - 1, 3 * p, best);
    assert 3 * groups * load == 3 * (groups * low + p) + (groups - 1) * (3 * p);
    assert (4 * groups - 1) * best == 3 * (groups * best) + (groups - 1) * best;
  }
}
