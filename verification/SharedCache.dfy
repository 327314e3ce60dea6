/** The shared reads of one app process: _shared, _forget_shared_reads and _write in app/src/main.py. A value is the
    number of writes committed when it was computed: it reflects the writes numbered up to it. Each stretch under the
    lock is one step. */
module SharedCache {
  import opened Text

  type Key = nat

  /** Where one request's read is. since: the last write forgotten before it began. */
  datatype Phase =
    | Begun(since: nat)                                      // asked, nothing looked up yet
    | Waiting(since: nat)                                    // no fresh hit: waits for the key's compute lock
    | Locked(since: nat)                                     // holds it
    | Computing(since: nat, generation: nat)                 // no fresh hit even so: computes
    | Computed(since: nat, generation: nat, value: nat)
    | Returned(since: nat, value: nat)
    | Failed

  datatype Reader = Reader(key: Key, phase: Phase)

  datatype State = State(committed: nat, forgotten: nat, generation: nat, cache: map<Key, nat>,
                         locks: map<Key, nat>, readers: map<nat, Reader>)

  ghost predicate Started(s: State) {
    s.forgotten <= s.committed && s.cache == map[] && s.locks == map[] && s.readers == map[]
  }

  datatype Step =
    | Commit
    | Forget(write: nat)
    | Call(reader: nat, key: Key)
    | Uncached(reader: nat)
    | Hit(reader: nat)
    | Miss(reader: nat)
    | Acquire(reader: nat)
    | HitLocked(reader: nat)
    | MissLocked(reader: nat)
    | Compute(reader: nat)
    | Keep(reader: nat)
    | Fail(reader: nat)

  predicate In(s: State, r: nat) {
    r in s.readers
  }

  /** A miss is always possible: an entry may be too old. */
  ghost predicate Enabled(s: State, step: Step) {
    match step
    case Commit => true
    case Forget(write) => write <= s.committed
    case Call(r, _) => r !in s.readers
    case Uncached(r) => In(s, r) && s.readers[r].phase.Begun?
    case Hit(r) => In(s, r) && s.readers[r].phase.Begun? && s.readers[r].key in s.cache
    case Miss(r) => In(s, r) && s.readers[r].phase.Begun?
    case Acquire(r) => In(s, r) && s.readers[r].phase.Waiting? && s.readers[r].key !in s.locks
    case HitLocked(r) => In(s, r) && s.readers[r].phase.Locked? && s.readers[r].key in s.cache
    case MissLocked(r) => In(s, r) && s.readers[r].phase.Locked?
    case Compute(r) => In(s, r) && s.readers[r].phase.Computing?
    case Keep(r) => In(s, r) && s.readers[r].phase.Computed?
    case Fail(r) => In(s, r) && s.readers[r].phase.Computing?
  }

  function To(s: State, r: nat, phase: Phase): State
    requires In(s, r)
  {
    s.(readers := s.readers[r := s.readers[r].(phase := phase)])
  }

  function Unlocked(s: State, key: Key): State {
    s.(locks := s.locks - {key})
  }

  ghost function Apply(s: State, step: Step): State
    requires Enabled(s, step)
  {
    match step
    case Commit => s.(committed := s.committed + 1)
    case Forget(write) =>
      s.(forgotten := if write > s.forgotten then write else s.forgotten, generation := s.generation + 1,
          cache := map[])
    case Call(r, key) => s.(readers := s.readers[r := Reader(key, Begun(s.forgotten))])
    case Uncached(r) => To(s, r, Returned(s.readers[r].phase.since, s.committed))
    case Hit(r) => To(s, r, Returned(s.readers[r].phase.since, s.cache[s.readers[r].key]))
    case Miss(r) => To(s, r, Waiting(s.readers[r].phase.since))
    case Acquire(r) =>
      To(s, r, Locked(s.readers[r].phase.since)).(locks := s.locks[s.readers[r].key := r])
    case HitLocked(r) =>
      Unlocked(To(s, r, Returned(s.readers[r].phase.since, s.cache[s.readers[r].key])), s.readers[r].key)
    case MissLocked(r) => To(s, r, Computing(s.readers[r].phase.since, s.generation))
    case Compute(r) => To(s, r, Computed(s.readers[r].phase.since, s.readers[r].phase.generation, s.committed))
    case Keep(r) =>
      var reader := s.readers[r];
      var kept :=
        if reader.phase.generation == s.generation then s.cache[reader.key := reader.phase.value] else s.cache;
      Unlocked(To(s, r, Returned(reader.phase.since, reader.phase.value)).(cache := kept), reader.key)
    case Fail(r) => Unlocked(To(s, r, Failed), s.readers[r].key)
  }

  ghost predicate Runs(s: State, steps: seq<Step>)
    decreases |steps|
  {
    steps == [] || (Enabled(s, steps[0]) && Runs(Apply(s, steps[0]), steps[1..]))
  }

  ghost function After(s: State, steps: seq<Step>): State
    requires Runs(s, steps)
    decreases |steps|
  {
    if steps == [] then s else After(Apply(s, steps[0]), steps[1..])
  }

  // ---- what every step keeps ----------------------------------------------------------------------------------------

  predicate HoldsLock(phase: Phase) {
    phase.Locked? || phase.Computing? || phase.Computed?
  }

  /** What a phase must hold of the writes forgotten before the call began, and of the generation it saw. */
  predicate Sound(phase: Phase, s: State) {
    match phase
    case Begun(since) => since <= s.forgotten
    case Waiting(since) => since <= s.forgotten
    case Locked(since) => since <= s.forgotten
    case Computing(since, generation) => since <= s.forgotten && generation <= s.generation
    case Computed(since, generation, value) =>
      since <= value && generation <= s.generation && (generation == s.generation ==> s.forgotten <= value)
    case Returned(since, value) => since <= value
    case Failed => true
  }

  ghost predicate Inv(s: State) {
    && s.forgotten <= s.committed
    && (forall key :: key in s.cache ==> s.forgotten <= s.cache[key])
    && (forall r :: r in s.readers ==> Sound(s.readers[r].phase, s))
    && (forall r :: r in s.readers && HoldsLock(s.readers[r].phase) ==>
          s.readers[r].key in s.locks && s.locks[s.readers[r].key] == r)
  }

  lemma StepKeepsInv(s: State, step: Step)
    requires Inv(s) && Enabled(s, step)
    ensures Inv(Apply(s, step))
  {
  }

  lemma {:induction false} RunKeepsInv(s: State, steps: seq<Step>)
    requires Inv(s) && Runs(s, steps)
    ensures Inv(After(s, steps))
    decreases |steps|
  {
    if steps != [] {
      StepKeepsInv(s, steps[0]);
      RunKeepsInv(Apply(s, steps[0]), steps[1..]);
    }
  }

  /** A call's since is the last write forgotten when it began, to its end. */
  lemma {:induction false} SinceIsWhenItBegan(s: State, steps: seq<Step>, r: nat, key: Key)
    requires r !in s.readers && Runs(Apply(s, Call(r, key)), steps)
    ensures r in After(Apply(s, Call(r, key)), steps).readers
    ensures var reader := After(Apply(s, Call(r, key)), steps).readers[r];
            reader.key == key && (reader.phase.Failed? || reader.phase.since == s.forgotten)
  {
    SinceStays(Apply(s, Call(r, key)), steps, r);
  }

  lemma {:induction false} SinceStays(s: State, steps: seq<Step>, r: nat)
    requires r in s.readers && Runs(s, steps)
    ensures r in After(s, steps).readers && After(s, steps).readers[r].key == s.readers[r].key
    ensures var phase := After(s, steps).readers[r].phase;
            s.readers[r].phase.Failed? || phase.Failed? || phase.since == s.readers[r].phase.since
    ensures s.readers[r].phase.Failed? ==> After(s, steps).readers[r].phase.Failed?
    decreases |steps|
  {
    if steps != [] {
      SinceStays(Apply(s, steps[0]), steps[1..], r);
    }
  }

  /** In every interleaving of readers and writers, the value a call returns reflects every write whose forget finished
      before the call began. */
  lemma CallReflectsForgotten(start: State, before: seq<Step>, r: nat, key: Key, rest: seq<Step>)
    requires Started(start) && Runs(start, before) && r !in After(start, before).readers
    requires Runs(Apply(After(start, before), Call(r, key)), rest)
    ensures var end := After(Apply(After(start, before), Call(r, key)), rest);
            r in end.readers && (end.readers[r].phase.Returned?
                ==> After(start, before).forgotten <= end.readers[r].phase.value)
  {
    var s := After(start, before);
    RunKeepsInv(start, before);
    StepKeepsInv(s, Call(r, key));
    RunKeepsInv(Apply(s, Call(r, key)), rest);
    SinceIsWhenItBegan(s, rest, r, key);
  }

  /** With the cache on, at most one compute of a key runs at a time. */
  lemma OneComputePerKey(start: State, steps: seq<Step>, r: nat, q: nat)
    requires Started(start) && Runs(start, steps)
    requires var readers := After(start, steps).readers;
             && r in readers && q in readers && readers[r].key == readers[q].key
             && readers[r].phase.Computing? && readers[q].phase.Computing?
    ensures r == q
  {
    RunKeepsInv(start, steps);
  }

  // ---- only the forgotten writes ------------------------------------------------------------------------------------

  lemma RunsOn(s: State, first: Step, rest: seq<Step>)
    requires Enabled(s, first) && Runs(Apply(s, first), rest)
    ensures Runs(s, [first] + rest) && After(s, [first] + rest) == After(Apply(s, first), rest)
  {
    assert ([first] + rest)[1..] == rest;
  }

  /** A write committed and not yet forgotten can be missed, by a call that began after it committed, whenever the key
      has an entry from before it. */
  lemma CommittedYetMissed(s: State, r: nat, key: Key)
    requires Inv(s) && r !in s.readers && key in s.cache && s.cache[key] <= s.committed
    ensures var steps := [Commit, Call(r, key), Hit(r)];
            && Runs(s, steps) && After(s, steps).committed == s.committed + 1
            && r in After(s, steps).readers && After(s, steps).readers[r].phase.Returned?
                && After(s, steps).readers[r].phase.value <= s.committed
  {
    var s1 := Apply(s, Commit);
    var s2 := Apply(s1, Call(r, key));
    var s3 := Apply(s2, Hit(r));
    assert Runs(s3, []);
    RunsOn(s2, Hit(r), []);
    RunsOn(s1, Call(r, key), [Hit(r)]);
    RunsOn(s, Commit, [Call(r, key), Hit(r)]);
    assert [Hit(r)] + [] == [Hit(r)] && [Call(r, key)] + [Hit(r)] == [Call(r, key), Hit(r)];
    assert [Commit] + [Call(r, key), Hit(r)] == [Commit, Call(r, key), Hit(r)];
  }
}
