/** A job's preparation record, app/src/preparing.py: whole counts of the databases set aside, every clash and the first
    of the others listed. What it stands for are the sets of the databases set aside and left out. */
module PrepareRecord {
  import opened Text

  const LISTED := 200

  datatype Kind = Unreadable | Clash | Closed

  type Key = string

  /** A database set aside: its key in the record, and its server and name in lower case, which order the list. */
  datatype Entry = Entry(key: Key, server: string, database: string, kind: Kind)

  datatype Phase = Preparing | NeedsYou | Ready

  datatype Stage = Reading | Writing | Syncing

  datatype Counts = Counts(unreadable: nat, clash: nat, closed: nat)

  /** counts is None until a pass stores them: then the entries themselves are counted. */
  datatype Record = Record(phase: Phase, stage: Maybe<Stage>, writingStarted: bool, stopped: bool, asks: nat,
                           setAside: map<Key, Entry>, leftOut: set<Key>, counts: Maybe<Counts>)

  function OfKind(entries: map<Key, Entry>, kind: Kind): set<Key> {
    set k | k in entries && entries[k].kind == kind
  }

  function CountsOf(r: Record): Counts {
    match r.counts
    case Some(counts) => counts
    case None =>
      Counts(|OfKind(r.setAside, Unreadable)|, |OfKind(r.setAside, Clash)|, |OfKind(r.setAside, Closed)|)
  }

  /** How many wait for someone's choice. */
  function Waiting(r: Record): nat {
    CountsOf(r).unreadable + CountsOf(r).clash
  }

  /** Needs you while one waits, else Preparing again; Ready stays Ready. */
  function Refreshed(r: Record): Record {
    if r.phase == Ready then r else r.(phase := if Waiting(r) > 0 then NeedsYou else Preparing)
  }

  function Asked(r: Record): Record {
    r.(asks := r.asks + 1)
  }

  predicate HasWork(r: Record) {
    r.phase == Preparing && !r.stopped
  }

  // ---- the entries a record keeps -----------------------------------------------------------------------------------

  /** By server, then name. The key is made from the two, so it never decides. */
  predicate Earlier(a: Entry, b: Entry) {
    Precedes(a.server, b.server) || (a.server == b.server && EarlierByName(a, b))
  }

  predicate EarlierByName(a: Entry, b: Entry) {
    Precedes(a.database, b.database) || (a.database == b.database && Precedes(a.key, b.key))
  }

  /** No two entries have one place in the list. */
  ghost predicate Placed(entries: map<Key, Entry>) {
    forall j, k :: j in entries && k in entries && j != k ==>
      Earlier(entries[j], entries[k]) || Earlier(entries[k], entries[j])
  }

  /** Each entry is under its own key. */
  ghost predicate Keyed(entries: map<Key, Entry>) {
    forall k :: k in entries ==> entries[k].key == k
  }

  lemma KeyedIsPlaced(entries: map<Key, Entry>)
    requires Keyed(entries)
    ensures Placed(entries)
  {
    forall j, k | j in entries && k in entries && j != k
      ensures Earlier(entries[j], entries[k]) || Earlier(entries[k], entries[j])
    {
      PrecedesIsTotal(entries[j].server, entries[k].server);
      PrecedesIsTotal(entries[j].database, entries[k].database);
      PrecedesIsTotal(entries[j].key, entries[k].key);
    }
  }

  predicate IsEarliest(entries: map<Key, Entry>, k: Key) {
    k in entries && forall j :: j in entries && j != k ==> Earlier(entries[k], entries[j])
  }

  lemma EarlierIsStrict(a: Entry, b: Entry)
    requires Earlier(a, b)
    ensures !Earlier(b, a)
  {
    PrecedesIsTotal(a.server, b.server);
    PrecedesIsTotal(a.database, b.database);
    PrecedesIsTotal(a.key, b.key);
  }

  lemma EarlierByNameIsTransitive(a: Entry, b: Entry, c: Entry)
    requires EarlierByName(a, b) && EarlierByName(b, c)
    ensures EarlierByName(a, c)
  {
    PrecedesIsTotal(a.database, b.database);
    PrecedesIsTotal(b.database, c.database);
    if a.database == b.database == c.database {
      PrecedesIsTransitive(a.key, b.key, c.key);
    } else if a.database != b.database && b.database != c.database {
      PrecedesIsTransitive(a.database, b.database, c.database);
    }
  }

  lemma EarlierIsTransitive(a: Entry, b: Entry, c: Entry)
    requires Earlier(a, b) && Earlier(b, c)
    ensures Earlier(a, c)
  {
    PrecedesIsTotal(a.server, b.server);
    PrecedesIsTotal(b.server, c.server);
    if a.server == b.server == c.server {
      EarlierByNameIsTransitive(a, b, c);
    } else if a.server != b.server && b.server != c.server {
      PrecedesIsTransitive(a.server, b.server, c.server);
    }
  }

  lemma {:induction false} SomeEarliest(entries: map<Key, Entry>)
    requires entries != map[] && Placed(entries)
    ensures exists k :: IsEarliest(entries, k)
    decreases |entries|
  {
    var k :| k in entries;
    var rest := entries - {k};
    if rest == map[] {
      assert IsEarliest(entries, k) by { assert forall j :: j in entries ==> j == k || j in rest; }
    } else {
      SomeEarliest(rest);
      var first :| IsEarliest(rest, first);
      EarliestOfMore(entries, k, first);
    }
  }

  lemma EarliestOfMore(entries: map<Key, Entry>, k: Key, first: Key)
    requires Placed(entries) && k in entries && k != first && IsEarliest(entries - {k}, first)
    ensures IsEarliest(entries, if Earlier(entries[first], entries[k]) then first else k)
  {
    forall j | j in entries && j != k && j != first && Earlier(entries[k], entries[first])
      ensures Earlier(entries[k], entries[j])
    {
      assert j in entries - {k};
      EarlierIsTransitive(entries[k], entries[first], entries[j]);
    }
    assert forall j :: j in entries && j != k && j != first ==> j in entries - {k};
  }

  lemma OneEarliest(entries: map<Key, Entry>)
    ensures forall a, b :: IsEarliest(entries, a) && IsEarliest(entries, b) ==> a == b
  {
    forall a, b | IsEarliest(entries, a) && IsEarliest(entries, b) ensures a == b {
      if a != b {
        EarlierIsStrict(entries[a], entries[b]);
      }
    }
  }

  function Earliest(entries: map<Key, Entry>): (k: Key)
    requires entries != map[] && Placed(entries)
    ensures IsEarliest(entries, k)
  {
    SomeEarliest(entries);
    OneEarliest(entries);
    var k :| k in entries && IsEarliest(entries, k);
    k
  }

  /** The first n entries by name. */
  function First(entries: map<Key, Entry>, n: nat): map<Key, Entry>
    requires Placed(entries)
    decreases n
  {
    if n == 0 || entries == map[] then map[] else
      var k := Earliest(entries);
      First(entries - {k}, n - 1)[k := entries[k]]
  }

  ghost predicate Among(some: map<Key, Entry>, all: map<Key, Entry>) {
    forall k :: k in some ==> k in all && some[k] == all[k]
  }

  lemma AmongMore(some: map<Key, Entry>, rest: map<Key, Entry>, all: map<Key, Entry>, k: Key)
    requires Among(some, rest) && k in all && rest == all - {k}
    ensures Among(some[k := all[k]], all) && |some[k := all[k]]| == |some| + 1 && |all| == |rest| + 1
  {
    assert k !in some;
    assert all == rest[k := all[k]];
  }

  lemma {:induction false} FirstIsSome(entries: map<Key, Entry>, n: nat)
    requires Placed(entries)
    ensures Among(First(entries, n), entries) && |First(entries, n)| == if |entries| <= n then |entries| else n
    decreases n
  {
    if n > 0 && entries != map[] {
      var k := Earliest(entries);
      var rest := entries - {k};
      FirstIsSome(rest, n - 1);
      AmongMore(First(rest, n - 1), rest, entries, k);
    }
  }

  /** None left out of the list comes before one in it. */
  lemma {:induction false} FirstComesFirst(entries: map<Key, Entry>, n: nat, j: Key, k: Key)
    requires Placed(entries) && j in First(entries, n) && k in entries && k !in First(entries, n)
    ensures j in entries && Earlier(entries[j], entries[k])
    decreases n
  {
    var e := Earliest(entries);
    if j != e {
      FirstComesFirst(entries - {e}, n - 1, j, k);
    }
  }

  /** The last entry of each key among the first n not left out, clashes or the others. */
  function Latest(entries: seq<Entry>, leftOut: set<Key>, clash: bool, n: nat): map<Key, Entry>
    requires n <= |entries|
  {
    if n == 0 then map[] else
      var before, item := Latest(entries, leftOut, clash, n - 1), entries[n - 1];
      if item.key !in leftOut && (item.kind == Clash) == clash then before[item.key := item] else before
  }

  lemma {:induction false} LatestIs(entries: seq<Entry>, leftOut: set<Key>, clash: bool, n: nat, k: Key)
    requires n <= |entries|
    ensures k in Latest(entries, leftOut, clash, n)
            <==> exists i :: 0 <= i < n && entries[i].key == k && k !in leftOut && (entries[i].kind == Clash) == clash
    ensures k in Latest(entries, leftOut, clash, n) ==>
              exists i :: 0 <= i < n && entries[i].key == k && (entries[i].kind == Clash) == clash
                          && Latest(entries, leftOut, clash, n)[k] == entries[i]
    decreases n
  {
    if n > 0 {
      LatestIs(entries, leftOut, clash, n - 1, k);
    }
  }

  lemma LatestIsPlaced(entries: seq<Entry>, leftOut: set<Key>, clash: bool, n: nat)
    requires n <= |entries|
    ensures Placed(Latest(entries, leftOut, clash, n))
  {
    var latest := Latest(entries, leftOut, clash, n);
    forall k | k in latest ensures latest[k].key == k { LatestIs(entries, leftOut, clash, n, k); }
    KeyedIsPlaced(latest);
  }

  function Kept(entries: seq<Entry>, leftOut: set<Key>): map<Key, Entry> {
    LatestIsPlaced(entries, leftOut, false, |entries|);
    Latest(entries, leftOut, true, |entries|) + First(Latest(entries, leftOut, false, |entries|), LISTED)
  }

  /** The clashes and the others, then every clash and the first of the others by name. */
  method KeptEntries(entries: seq<Entry>, leftOut: set<Key>) returns (kept: map<Key, Entry>)
    ensures kept == Kept(entries, leftOut)
  {
    var clashes: map<Key, Entry>, others: map<Key, Entry> := map[], map[];
    for i := 0 to |entries|
      invariant clashes == Latest(entries, leftOut, true, i) && others == Latest(entries, leftOut, false, i)
    {
      var item := entries[i];
      if item.key !in leftOut {
        if item.kind == Clash {
          clashes := clashes[item.key := item];
        } else {
          others := others[item.key := item];
        }
      }
    }
    LatestIsPlaced(entries, leftOut, false, |entries|);
    var listed := FirstListed(others);
    kept := clashes + listed;
  }

  lemma MoveOver(rest: map<Key, Entry>, listed: map<Key, Entry>, k: Key, e: Entry)
    requires k !in listed
    ensures rest[k := e] + listed == rest + listed[k := e]
  {
  }

  lemma ListNext(left: map<Key, Entry>, room: nat, listed: map<Key, Entry>)
    requires Placed(left) && room > 0 && left != map[] && left.Keys !! listed.Keys
    ensures var k := Earliest(left);
            && Placed(left - {k}) && (left - {k}).Keys !! listed[k := left[k]].Keys
            && First(left, room) + listed == First(left - {k}, room - 1) + listed[k := left[k]]
  {
    var k := Earliest(left);
    MoveOver(First(left - {k}, room - 1), listed, k, left[k]);
  }

  method FirstListed(others: map<Key, Entry>) returns (listed: map<Key, Entry>)
    requires Placed(others)
    ensures listed == First(others, LISTED)
  {
    listed := map[];
    var left, room := others, LISTED;
    assert First(left, room) + listed == First(others, LISTED);
    while room > 0 && left != map[]
      invariant room >= 0 && Placed(left) && left.Keys !! listed.Keys
      invariant First(left, room) + listed == First(others, LISTED)
      decreases room
    {
      var k := Earliest(left);
      ListNext(left, room, listed);
      listed := listed[k := left[k]];
      left, room := left - {k}, room - 1;
    }
    assert map[] + listed == listed;
  }

  // ---- what the prepare task and its actions make of a record -------------------------------------------------------

  /** What a pass found set aside, in place of what an earlier one did; counts are the whole counts it gives. */
  function Found(r: Record, entries: seq<Entry>, counts: Counts): Record {
    Refreshed(r.(setAside := Kept(entries, r.leftOut), counts := Some(counts)))
  }

  function Less(count: nat, gone: nat): nat {
    if count < gone then 0 else count - gone
  }

  predicate Named(keys: Maybe<set<Key>>, k: Key) {
    keys.None? || k in keys.value
  }

  function Reset(r: Record, keys: Maybe<set<Key>>, reset: nat): Record {
    var counts := CountsOf(r);
    r.(setAside := NotReset(r.setAside, keys),
       counts := Some(counts.(unreadable := if keys.None? then 0 else Less(counts.unreadable, reset))))
  }

  /** The databases that couldn't be read, those named or all, were reset for the reader: reset of them. */
  function ReadAgain(r: Record, keys: Maybe<set<Key>>, reset: nat): Record {
    var out := Refreshed(Asked(Reset(r, keys, reset)));
    if reset > 0 && out.phase == Preparing then out.(stage := Some(Reading)) else out
  }

  function Fewer(counts: Counts, kind: Kind): Counts {
    match kind
    case Unreadable => counts.(unreadable := Less(counts.unreadable, 1))
    case Clash => counts.(clash := Less(counts.clash, 1))
    case Closed => counts
  }

  /** One database left out: one left out before, or only closed, is passed over. */
  function LeaveOne(r: Record, item: Entry): Record {
    if item.key in r.leftOut || item.kind == Closed then r
    else r.(setAside := r.setAside - {item.key}, leftOut := r.leftOut + {item.key},
            counts := Some(Fewer(CountsOf(r), item.kind)))
  }

  function LeaveAll(r: Record, entries: seq<Entry>, n: nat): Record
    requires n <= |entries|
  {
    if n == 0 then r else LeaveOne(LeaveAll(r, entries, n - 1), entries[n - 1])
  }

  function LeaveOut(r: Record, entries: seq<Entry>): Record {
    Refreshed(Asked(LeaveAll(r, entries, |entries|)))
  }

  method LeaveThemOut(r: Record, entries: seq<Entry>) returns (out: Record)
    ensures out == LeaveOut(r, entries)
  {
    out := r;
    for i := 0 to |entries|
      invariant out == LeaveAll(r, entries, i)
    {
      out := LeaveOne(out, entries[i]);
    }
    out := Refreshed(Asked(out));
  }

  function NoClashes(r: Record): Record {
    r.(setAside := (map k | k in r.setAside && r.setAside[k].kind != Clash :: r.setAside[k]),
       counts := Some(CountsOf(r).(clash := 0)))
  }

  /** The target names changed: the clashes come off, to be planned again. */
  function ChangeTargets(r: Record): Record {
    var out := Refreshed(Asked(NoClashes(r)));
    if CountsOf(r).clash > 0 && out.phase == Preparing then out.(stage := Some(Writing)) else out
  }

  /** Moved on to a stage; once the write has begun it stays begun. */
  function Moved(r: Record, stage: Maybe<Stage>): Record {
    var at := if stage.Some? then stage else r.stage;
    r.(stage := if r.phase == Ready then None else at,
       writingStarted := r.writingStarted || at == Some(Writing) || at == Some(Syncing))
  }

  function MadeReady(r: Record): Record {
    Moved(r.(phase := Ready), None)
  }

  function Stopped(r: Record): Record {
    r.(stopped := true)
  }

  function Restarted(r: Record): Record {
    Refreshed(Asked(r.(stopped := false)))
  }

  // ---- the sets the record stands for -------------------------------------------------------------------------------

  datatype Full = Full(unreadable: set<Key>, clash: set<Key>, closed: set<Key>, leftOut: set<Key>)

  function Keys(f: Full, kind: Kind): set<Key> {
    match kind
    case Unreadable => f.unreadable
    case Clash => f.clash
    case Closed => f.closed
  }

  ghost predicate Disjoint(f: Full) {
    f.unreadable !! f.clash !! f.closed !! f.leftOut
  }

  function Others(entries: map<Key, Entry>): set<Key> {
    set k | k in entries && entries[k].kind != Clash
  }

  /** Every clash is listed, at most LISTED of the others are, and all that is listed belongs. */
  ghost predicate Lists(entries: map<Key, Entry>, f: Full) {
    && (forall k :: k in entries ==> k in Keys(f, entries[k].kind))
    && (forall k :: k in f.clash ==> k in entries && entries[k].kind == Clash)
    && |Others(entries)| <= LISTED
  }

  ghost predicate PhaseIsRight(r: Record) {
    r.phase == Ready || (r.phase == NeedsYou <==> Waiting(r) > 0)
  }

  ghost predicate Exact(counts: Counts, f: Full) {
    counts == Counts(|f.unreadable|, |f.clash|, |f.closed|)
  }

  /** The bounded record says the sets exactly: whole counts, and the list within them. */
  ghost predicate Says(r: Record, f: Full) {
    Exact(CountsOf(r), f) && r.leftOut == f.leftOut && Disjoint(f) && Lists(r.setAside, f)
  }

  ghost predicate Refines(r: Record, f: Full) {
    Says(r, f) && PhaseIsRight(r)
  }

  lemma RefreshedRefines(r: Record, f: Full)
    ensures Refines(Refreshed(r), f) <==> Says(r, f)
  {
  }

  // ---- what a pass found --------------------------------------------------------------------------------------------

  function KeysFound(entries: seq<Entry>, leftOut: set<Key>, kind: Kind, n: nat): set<Key>
    requires n <= |entries|
  {
    if n == 0 then {} else
      var item := entries[n - 1];
      KeysFound(entries, leftOut, kind, n - 1) + if item.kind == kind && item.key !in leftOut then {item.key} else {}
  }

  function NumberFound(entries: seq<Entry>, kind: Kind, n: nat): nat
    requires n <= |entries|
  {
    if n == 0 then 0 else NumberFound(entries, kind, n - 1) + if entries[n - 1].kind == kind then 1 else 0
  }

  /** The counts a pass gives: how many of each kind it found. */
  function Numbers(entries: seq<Entry>): Counts {
    Counts(NumberFound(entries, Unreadable, |entries|), NumberFound(entries, Clash, |entries|),
        NumberFound(entries, Closed, |entries|))
  }

  function FoundSets(entries: seq<Entry>, leftOut: set<Key>): Full {
    Full(KeysFound(entries, leftOut, Unreadable, |entries|), KeysFound(entries, leftOut, Clash, |entries|),
         KeysFound(entries, leftOut, Closed, |entries|), leftOut)
  }

  /** How many of the first n entries of a kind add none: left out, or of a database found under it before. */
  function Spare(entries: seq<Entry>, leftOut: set<Key>, kind: Kind, n: nat): nat
    requires n <= |entries|
  {
    if n == 0 then 0 else
      var key := entries[n - 1].key;
      Spare(entries, leftOut, kind, n - 1)
      + if entries[n - 1].kind == kind
          && (key in leftOut || key in KeysFound(entries, leftOut, kind, n - 1)) then 1 else 0
  }

  lemma {:induction false} KeysFoundAre(entries: seq<Entry>, leftOut: set<Key>, kind: Kind, n: nat, k: Key)
    requires n <= |entries|
    ensures k in KeysFound(entries, leftOut, kind, n)
            <==> exists i :: 0 <= i < n && entries[i].key == k && entries[i].kind == kind && k !in leftOut
    decreases n
  {
    if n > 0 {
      KeysFoundAre(entries, leftOut, kind, n - 1, k);
    }
  }

  lemma {:induction false} SizeOfFound(entries: seq<Entry>, leftOut: set<Key>, kind: Kind, n: nat)
    requires n <= |entries|
    ensures |KeysFound(entries, leftOut, kind, n)| + Spare(entries, leftOut, kind, n) == NumberFound(entries, kind, n)
    decreases n
  {
    if n > 0 {
      SizeOfFound(entries, leftOut, kind, n - 1);
      SizeMore(KeysFound(entries, leftOut, kind, n - 1), entries[n - 1].key);
    }
  }

  lemma SizeMore(all: set<Key>, k: Key)
    ensures |all + {k}| == if k in all then |all| else |all| + 1
  {
    if k in all {
      assert all + {k} == all;
    }
  }

  /** A database found under the kind before. */
  ghost predicate FoundBefore(entries: seq<Entry>, i: nat)
    requires i < |entries|
  {
    exists j :: 0 <= j < i && entries[j].key == entries[i].key && entries[j].kind == entries[i].kind
  }

  lemma {:induction false} NoneSpare(entries: seq<Entry>, leftOut: set<Key>, kind: Kind, n: nat)
    requires n <= |entries|
    ensures Spare(entries, leftOut, kind, n) == 0
            <==> forall i :: 0 <= i < n && entries[i].kind == kind ==>
                   entries[i].key !in leftOut && !FoundBefore(entries, i)
    decreases n
  {
    if n > 0 {
      NoneSpare(entries, leftOut, kind, n - 1);
      KeysFoundAre(entries, leftOut, kind, n - 1, entries[n - 1].key);
    }
  }

  /** None of what the pass found was left out meanwhile. */
  ghost predicate NothingLeftOut(entries: seq<Entry>, leftOut: set<Key>) {
    forall i :: 0 <= i < |entries| ==> entries[i].key !in leftOut
  }

  /** No database was found twice under one kind. */
  ghost predicate OnceUnderAKind(entries: seq<Entry>) {
    forall i :: 0 <= i < |entries| ==> !FoundBefore(entries, i)
  }

  /** The counts a pass gives are the exact sizes if and only if nothing it found was left out while it ran, and it
      found no database twice under one kind. */
  lemma CountsAreExact(entries: seq<Entry>, leftOut: set<Key>)
    ensures Exact(Numbers(entries), FoundSets(entries, leftOut))
            <==> NothingLeftOut(entries, leftOut) && OnceUnderAKind(entries)
  {
    SizeOfFound(entries, leftOut, Unreadable, |entries|);
    SizeOfFound(entries, leftOut, Clash, |entries|);
    SizeOfFound(entries, leftOut, Closed, |entries|);
    NoneSpare(entries, leftOut, Unreadable, |entries|);
    NoneSpare(entries, leftOut, Clash, |entries|);
    NoneSpare(entries, leftOut, Closed, |entries|);
    if Exact(Numbers(entries), FoundSets(entries, leftOut)) {
      forall i | 0 <= i < |entries| ensures entries[i].key !in leftOut && !FoundBefore(entries, i) {
        match entries[i].kind case Unreadable => case Clash => case Closed =>
      }
    }
  }

  /** No database was found twice. */
  ghost predicate FoundOnce(entries: seq<Entry>) {
    forall i, j :: 0 <= i < j < |entries| ==> entries[i].key != entries[j].key
  }

  lemma KeptLists(entries: seq<Entry>, leftOut: set<Key>)
    requires FoundOnce(entries)
    ensures Lists(Kept(entries, leftOut), FoundSets(entries, leftOut)) && Disjoint(FoundSets(entries, leftOut))
  {
    var n, f := |entries|, FoundSets(entries, leftOut);
    var clashes, others := Latest(entries, leftOut, true, n), Latest(entries, leftOut, false, n);
    LatestIsPlaced(entries, leftOut, false, n);
    FirstIsSome(others, LISTED);
    forall k ensures ListedRight(clashes, others, f, k) { ListedOne(entries, leftOut, k); }
    BothListed(clashes, others, First(others, LISTED), f);
    FoundSetsApart(entries, leftOut);
  }

  predicate ListedRight(clashes: map<Key, Entry>, others: map<Key, Entry>, f: Full, k: Key) {
    && (k in clashes ==> k in f.clash && clashes[k].kind == Clash)
    && (k in others ==> k in Keys(f, others[k].kind) && others[k].kind != Clash && k !in clashes)
    && (k in f.clash ==> k in clashes)
  }

  lemma BothListed(clashes: map<Key, Entry>, others: map<Key, Entry>, first: map<Key, Entry>, f: Full)
    requires forall k :: ListedRight(clashes, others, f, k)
    requires Among(first, others) && |first| <= LISTED
    ensures Lists(clashes + first, f)
  {
    forall k ensures k in first ==> k in others && ListedRight(clashes, others, f, k)
             ensures k in clashes ==> ListedRight(clashes, others, f, k) && k !in first {
      assert ListedRight(clashes, others, f, k);
    }
    assert Others(clashes + first) == first.Keys;
    assert |first.Keys| == |first|;
    forall k | k in f.clash ensures k in clashes + first && (clashes + first)[k].kind == Clash {
      assert ListedRight(clashes, others, f, k);
    }
  }

  lemma ListedOne(entries: seq<Entry>, leftOut: set<Key>, k: Key)
    requires FoundOnce(entries)
    ensures ListedRight(Latest(entries, leftOut, true, |entries|), Latest(entries, leftOut, false, |entries|),
                        FoundSets(entries, leftOut), k)
  {
    var n := |entries|;
    LatestIs(entries, leftOut, true, n, k);
    LatestIs(entries, leftOut, false, n, k);
    KeysFoundAre(entries, leftOut, Unreadable, n, k);
    KeysFoundAre(entries, leftOut, Clash, n, k);
    KeysFoundAre(entries, leftOut, Closed, n, k);
  }

  lemma FoundSetsApart(entries: seq<Entry>, leftOut: set<Key>)
    requires FoundOnce(entries)
    ensures Disjoint(FoundSets(entries, leftOut))
  {
    forall k ensures FoundApart(FoundSets(entries, leftOut), k) {
      KeysFoundAre(entries, leftOut, Unreadable, |entries|, k);
      KeysFoundAre(entries, leftOut, Clash, |entries|, k);
      KeysFoundAre(entries, leftOut, Closed, |entries|, k);
    }
    EachApart(FoundSets(entries, leftOut));
  }

  /** The key is in at most one of the sets. */
  predicate FoundApart(f: Full, k: Key) {
    && !(k in f.unreadable && k in f.clash) && !(k in f.unreadable && k in f.closed) && !(k in f.clash && k in f.closed)
    && (k in f.leftOut ==> k !in f.unreadable && k !in f.clash && k !in f.closed)
  }

  lemma EachApart(f: Full)
    requires forall k :: FoundApart(f, k)
    ensures Disjoint(f)
  {
    forall k: Key ensures !(k in f.unreadable && k in f.clash) ensures !(k in f.unreadable + f.clash && k in f.closed)
                  ensures !(k in f.unreadable + f.clash + f.closed && k in f.leftOut) {
      assert FoundApart(f, k);
    }
  }

  lemma ApartIsFoundOnce(entries: seq<Entry>, leftOut: set<Key>)
    requires NothingLeftOut(entries, leftOut) && OnceUnderAKind(entries) && Disjoint(FoundSets(entries, leftOut))
    ensures FoundOnce(entries)
  {
    var f, n := FoundSets(entries, leftOut), |entries|;
    forall i, j | 0 <= i < j < n ensures entries[i].key != entries[j].key {
      KeysFoundAre(entries, leftOut, entries[i].kind, n, entries[i].key);
      KeysFoundAre(entries, leftOut, entries[j].kind, n, entries[j].key);
      UnderOneKind(f, entries[i].key, entries[i].kind, entries[j].kind);
      assert !FoundBefore(entries, j);
    }
  }

  lemma UnderOneKind(f: Full, k: Key, a: Kind, b: Kind)
    requires Disjoint(f)
    ensures k in Keys(f, a) && k in Keys(f, b) ==> a == b
  {
  }

  /** A pass's findings make the record exact, whatever it said before, if and only if nothing it found was left out
      while it ran and no database is among them twice. */
  lemma FoundRefinesExactly(r: Record, entries: seq<Entry>)
    ensures Refines(Found(r, entries, Numbers(entries)), FoundSets(entries, r.leftOut))
            <==> NothingLeftOut(entries, r.leftOut) && FoundOnce(entries)
  {
    CountsAreExact(entries, r.leftOut);
    var kept := r.(setAside := Kept(entries, r.leftOut), counts := Some(Numbers(entries)));
    if NothingLeftOut(entries, r.leftOut) && FoundOnce(entries) {
      KeptLists(entries, r.leftOut);
      RefreshedRefines(kept, FoundSets(entries, r.leftOut));
    } else if Says(kept, FoundSets(entries, r.leftOut)) {
      ApartIsFoundOnce(entries, r.leftOut);
    }
  }

  /** Otherwise it can wait for nobody: one clash left out while a pass found it again leaves the job in Needs you, with
      nothing listed to choose and no work for the task. */
  lemma LeftOutDuringPass(r: Record, e: Entry)
    requires r.phase != Ready && e.kind != Closed && e.key in r.leftOut
    ensures var after := Found(r, [e], Numbers([e]));
            after.phase == NeedsYou && after.setAside == map[] && !HasWork(after)
  {
    assert NumberFound([e], Clash, 0) == 0 && NumberFound([e], Unreadable, 0) == 0;
    assert Latest([e], r.leftOut, true, 0) == map[] && Latest([e], r.leftOut, false, 0) == map[];
    assert Latest([e], r.leftOut, true, 1) == map[] && Latest([e], r.leftOut, false, 1) == map[];
    assert map[] + First(map[], LISTED) == map[];
  }

  /** Found under two spellings, one database is counted twice: left out, it still waits, with nothing listed to
      choose. */
  lemma RepeatedIsCountedTwice(r: Record, a: Entry, b: Entry)
    requires r.phase != Ready && a.kind == Clash && b.kind == Clash && a.key == b.key && b.key !in r.leftOut
    ensures var after := Found(r, [a, b], Numbers([a, b]));
            var left := LeaveOut(after, [b]);
            && after.setAside == map[b.key := b] && CountsOf(after).clash == 2
            && left.setAside == map[] && left.phase == NeedsYou && !HasWork(left)
  {
    var both := [a, b];
    assert Latest(both, r.leftOut, true, 1) == map[a.key := a];
    assert Latest(both, r.leftOut, true, 2) == map[b.key := b];
    assert Latest(both, r.leftOut, false, 1) == map[] && Latest(both, r.leftOut, false, 2) == map[];
    assert NumberFound(both, Clash, 1) == 1 && NumberFound(both, Unreadable, 1) == 0;
    var after := Found(r, both, Numbers(both));
    assert LeaveAll(after, [b], 0) == after;
    assert LeaveAll(after, [b], 1) == LeaveOne(after, b);
  }

  // ---- the other actions --------------------------------------------------------------------------------------------

  lemma SizeWithout(all: set<Key>, gone: set<Key>)
    ensures |all - gone| == |all| - |all * gone|
  {
    assert all == (all - gone) + (all * gone);
  }

  /** A count less a number is the size of the set without the keys. */
  ghost predicate TakesOff(all: set<Key>, keys: set<Key>, n: nat) {
    n == |all * keys| || (all <= keys && n >= |all|)
  }

  lemma LessIsExact(all: set<Key>, keys: set<Key>, n: nat)
    ensures Less(|all|, n) == |all - keys| <==> TakesOff(all, keys, n)
  {
    SizeWithout(all, keys);
    if all <= keys {
      assert all - keys == {};
    } else {
      var k :| k in all && k !in keys;
      assert k in all - keys;
    }
  }

  lemma FewerOthers(some: map<Key, Entry>, all: map<Key, Entry>)
    requires Among(some, all)
    ensures |Others(some)| <= |Others(all)|
  {
    assert Others(all) == Others(some) + (Others(all) - Others(some));
  }

  lemma SizeLess(all: set<Key>, k: Key)
    ensures |all - {k}| == if k in all then |all| - 1 else |all|
  {
    if k in all {
      assert all == (all - {k}) + {k};
    } else {
      assert all - {k} == all;
    }
  }

  /** A shorter list of the sets as they are after. */
  lemma ListsFewer(some: map<Key, Entry>, all: map<Key, Entry>, before: Full, after: Full)
    requires Lists(all, before) && Among(some, all)
    requires forall k :: k in some ==> k in Keys(after, some[k].kind)
    requires forall k :: k in after.clash ==> k in some && some[k].kind == Clash
    ensures Lists(some, after)
  {
    FewerOthers(some, all);
  }

  function ReadAgainSets(f: Full, keys: Maybe<set<Key>>): Full {
    f.(unreadable := if keys.None? then {} else f.unreadable - keys.value)
  }

  /** Reading again keeps the record exact if and only if all are, or the number reset is that of the databases set
      aside and named, or no less than all of them. */
  lemma ReadAgainRefinesExactly(r: Record, f: Full, keys: Maybe<set<Key>>, reset: nat)
    requires Refines(r, f)
    ensures Refines(ReadAgain(r, keys, reset), ReadAgainSets(f, keys))
            <==> (keys.None? || TakesOff(f.unreadable, keys.value, reset))
  {
    var next, after := Asked(Reset(r, keys, reset)), ReadAgainSets(f, keys);
    ReadAgainLists(r.setAside, f, keys);
    assert CountsOf(next) == CountsOf(r).(unreadable := CountsOf(next).unreadable);
    ResetCount(r, f, keys, reset);
    RefreshedRefines(next, after);
    assert Refines(ReadAgain(r, keys, reset), after) <==> Refines(Refreshed(next), after);
  }

  lemma ResetCount(r: Record, f: Full, keys: Maybe<set<Key>>, reset: nat)
    requires CountsOf(r).unreadable == |f.unreadable|
    ensures CountsOf(Reset(r, keys, reset)).unreadable == |ReadAgainSets(f, keys).unreadable|
            <==> (keys.None? || TakesOff(f.unreadable, keys.value, reset))
  {
    if keys.Some? {
      LessIsExact(f.unreadable, keys.value, reset);
    }
  }

  /** The databases named an upload reads again: those the list has. */
  function ListedUnreadable(r: Record, keys: Maybe<set<Key>>): set<Key> {
    set k | k in r.setAside && r.setAside[k].kind == Unreadable && Named(keys, k)
  }

  /** So an upload's record stays exact if and only if the list has every database set aside and named. */
  lemma UploadReadsAgainExactly(r: Record, f: Full, keys: set<Key>)
    requires Refines(r, f)
    ensures var reset := |ListedUnreadable(r, Some(keys))|;
            Refines(ReadAgain(r, Some(keys), reset), ReadAgainSets(f, Some(keys)))
            <==> f.unreadable * keys <= r.setAside.Keys
  {
    var listed, named := ListedUnreadable(r, Some(keys)), f.unreadable * keys;
    ReadAgainRefinesExactly(r, f, Some(keys), |listed|);
    assert listed <= named;
    if named <= r.setAside.Keys {
      assert listed == named;
    } else {
      var k :| k in named && k !in r.setAside;
      SmallerPart(listed, named, k);
      NoMore(named, f.unreadable);
    }
  }

  lemma SmallerPart(some: set<Key>, all: set<Key>, k: Key)
    requires some <= all && k in all && k !in some
    ensures |some| < |all|
  {
    assert all == some + (all - some) && k in all - some;
  }

  lemma NoMore(some: set<Key>, all: set<Key>)
    requires some <= all
    ensures |some| <= |all|
  {
    assert all == some + (all - some);
  }

  /** One of two databases fails again after it was read again, and is read again before a pass has found it: the count
      drops to none, and the job goes on with the other still listed and waiting. */
  lemma ReadAgainTwiceHidesOne(r: Record, f: Full, a: Key, b: Key)
    requires Refines(r, f) && f.unreadable == {a, b} && a != b && f.clash == {} && a in r.setAside && r.phase != Ready
    ensures var once := ReadAgain(r, Some({b}), 1);
            var twice := ReadAgain(once, Some({b}), 1);
            && once.phase == NeedsYou && !HasWork(once)
            && twice.phase == Preparing && Waiting(twice) == 0
            && a in twice.setAside && twice.setAside[a].kind == Unreadable
  {
    assert |f.unreadable| == 2;
    assert a in Keys(f, r.setAside[a].kind);
  }

  function NotReset(entries: map<Key, Entry>, keys: Maybe<set<Key>>): map<Key, Entry> {
    map k | k in entries && !(entries[k].kind == Unreadable && Named(keys, k)) :: entries[k]
  }

  lemma ReadAgainLists(entries: map<Key, Entry>, f: Full, keys: Maybe<set<Key>>)
    requires Lists(entries, f) && Disjoint(f)
    ensures Lists(NotReset(entries, keys), ReadAgainSets(f, keys)) && Disjoint(ReadAgainSets(f, keys))
  {
    ListsFewer(NotReset(entries, keys), entries, f, ReadAgainSets(f, keys));
  }

  function LeaveOneSets(f: Full, item: Entry): Full {
    var k := item.key;
    if k in f.leftOut || item.kind == Closed then f
    else Full(f.unreadable - {k}, f.clash - {k}, f.closed - {k}, f.leftOut + {k})
  }

  function LeaveAllSets(f: Full, entries: seq<Entry>, n: nat): Full
    requires n <= |entries|
  {
    if n == 0 then f else LeaveOneSets(LeaveAllSets(f, entries, n - 1), entries[n - 1])
  }

  /** The databases the first n items leave out. */
  function Gone(f: Full, entries: seq<Entry>, n: nat): set<Key>
    requires n <= |entries|
  {
    LeaveAllSets(f, entries, n).leftOut - f.leftOut
  }

  /** How many of them are left out as one of a kind. */
  function GoneAs(f: Full, entries: seq<Entry>, kind: Kind, n: nat): nat
    requires n <= |entries|
  {
    if n == 0 then 0 else
      var item := entries[n - 1];
      GoneAs(f, entries, kind, n - 1)
      + if item.kind == kind && item.key !in LeaveAllSets(f, entries, n - 1).leftOut then 1 else 0
  }

  lemma {:induction false} LeaveAllSetsAre(f: Full, entries: seq<Entry>, n: nat)
    requires n <= |entries| && Disjoint(f)
    ensures var gone, left := Gone(f, entries, n), LeaveAllSets(f, entries, n);
            && left.unreadable == f.unreadable - gone && left.clash == f.clash - gone && left.closed == f.closed - gone
            && f.leftOut <= left.leftOut && Disjoint(left)
    decreases n
  {
    if n > 0 {
      LeaveAllSetsAre(f, entries, n - 1);
      var left, item := LeaveAllSets(f, entries, n - 1), entries[n - 1];
      if !(item.key in left.leftOut || item.kind == Closed) {
        assert Gone(f, entries, n) == Gone(f, entries, n - 1) + {item.key};
      }
    }
  }

  lemma {:induction false} LeaveAllCounts(r: Record, f: Full, entries: seq<Entry>, n: nat)
    requires n <= |entries| && Says(r, f)
    ensures CountsOf(LeaveAll(r, entries, n))
            == Counts(Less(|f.unreadable|, GoneAs(f, entries, Unreadable, n)),
                      Less(|f.clash|, GoneAs(f, entries, Clash, n)), |f.closed|)
    ensures LeaveAll(r, entries, n).leftOut == LeaveAllSets(f, entries, n).leftOut
    decreases n
  {
    if n > 0 {
      LeaveAllCounts(r, f, entries, n - 1);
      LeaveOneCounts(LeaveAll(r, entries, n - 1), entries[n - 1]);
      assert LeaveAll(r, entries, n) == LeaveOne(LeaveAll(r, entries, n - 1), entries[n - 1]);
    }
  }

  lemma LeaveOneCounts(r: Record, item: Entry)
    ensures CountsOf(LeaveOne(r, item)) == if item.key in r.leftOut then CountsOf(r) else Fewer(CountsOf(r), item.kind)
  {
  }

  lemma {:induction false} LeaveAllLists(r: Record, f: Full, entries: seq<Entry>, n: nat)
    requires n <= |entries| && Says(r, f)
    ensures Lists(LeaveAll(r, entries, n).setAside, LeaveAllSets(f, entries, n))
    decreases n
  {
    if n > 0 {
      LeaveAllLists(r, f, entries, n - 1);
      LeaveAllCounts(r, f, entries, n - 1);
      LeaveAllSetsAre(f, entries, n - 1);
      LeaveOneLists(LeaveAll(r, entries, n - 1), LeaveAllSets(f, entries, n - 1), entries[n - 1]);
    }
  }

  lemma LeaveOneLists(r: Record, f: Full, item: Entry)
    requires Lists(r.setAside, f) && Disjoint(f) && r.leftOut == f.leftOut
    ensures Lists(LeaveOne(r, item).setAside, LeaveOneSets(f, item))
  {
    if !(item.key in f.leftOut || item.kind == Closed) {
      ListsFewer(r.setAside - {item.key}, r.setAside, f, LeaveOneSets(f, item));
    }
  }

  /** As many are left out under a kind as the sets have of it, or no fewer than all of them; and none was only
      closed. */
  ghost predicate LeavesRight(f: Full, entries: seq<Entry>) {
    var n := |entries|;
    && TakesOff(f.unreadable, Gone(f, entries, n), GoneAs(f, entries, Unreadable, n))
    && TakesOff(f.clash, Gone(f, entries, n), GoneAs(f, entries, Clash, n))
    && f.closed !! Gone(f, entries, n)
  }

  /** Leaving out keeps the record exact if and only if those left out are right by their kinds. */
  lemma LeaveOutRefinesExactly(r: Record, f: Full, entries: seq<Entry>)
    requires Refines(r, f)
    ensures Refines(LeaveOut(r, entries), LeaveAllSets(f, entries, |entries|)) <==> LeavesRight(f, entries)
  {
    LeaveAllSetsAre(f, entries, |entries|);
    LeaveAllLists(r, f, entries, |entries|);
    LeaveAllCounts(r, f, entries, |entries|);
    LeavesRightIsExact(f, entries);
    SaysByCounts(LeaveAll(r, entries, |entries|), LeaveAllSets(f, entries, |entries|));
    RefreshedRefines(Asked(LeaveAll(r, entries, |entries|)), LeaveAllSets(f, entries, |entries|));
  }

  lemma SaysByCounts(r: Record, f: Full)
    requires r.leftOut == f.leftOut && Disjoint(f) && Lists(r.setAside, f)
    ensures Says(Asked(r), f)
            <==> (&& CountsOf(r).unreadable == |f.unreadable| && CountsOf(r).clash == |f.clash|
                  && CountsOf(r).closed == |f.closed|)
  {
  }

  lemma LeavesRightIsExact(f: Full, entries: seq<Entry>)
    requires Disjoint(f)
    ensures var n, left := |entries|, LeaveAllSets(f, entries, |entries|);
            (&& Less(|f.unreadable|, GoneAs(f, entries, Unreadable, n)) == |left.unreadable|
             && Less(|f.clash|, GoneAs(f, entries, Clash, n)) == |left.clash|
             && |f.closed| == |left.closed|)
            <==> LeavesRight(f, entries)
  {
    var n, gone := |entries|, Gone(f, entries, |entries|);
    LeaveAllSetsAre(f, entries, n);
    LessIsExact(f.unreadable, gone, GoneAs(f, entries, Unreadable, n));
    LessIsExact(f.clash, gone, GoneAs(f, entries, Clash, n));
    SizeWithout(f.closed, gone);
    if f.closed * gone == {} {
      assert f.closed !! gone;
    }
  }

  /** Each database asked for is set aside under its kind, left out before, or only closed. */
  ghost predicate SetAside(f: Full, entries: seq<Entry>) {
    forall i :: 0 <= i < |entries| && entries[i].kind != Closed && entries[i].key !in f.leftOut ==>
      entries[i].key in Keys(f, entries[i].kind)
  }

  /** The next item is left out: not left out before, nor only closed. */
  predicate Leaves(f: Full, entries: seq<Entry>, n: nat)
    requires 0 < n <= |entries|
  {
    entries[n - 1].kind != Closed && entries[n - 1].key !in LeaveAllSets(f, entries, n - 1).leftOut
  }

  lemma GoneNext(f: Full, entries: seq<Entry>, n: nat)
    requires 0 < n <= |entries| && Disjoint(f)
    ensures Gone(f, entries, n) == Gone(f, entries, n - 1) + if Leaves(f, entries, n) then {entries[n - 1].key} else {}
    ensures Leaves(f, entries, n) ==> entries[n - 1].key !in f.leftOut + Gone(f, entries, n - 1)
  {
    LeaveAllSetsAre(f, entries, n - 1);
  }

  lemma NextIsSetAside(f: Full, entries: seq<Entry>, kind: Kind, n: nat)
    requires 0 < n <= |entries| && SetAside(f, entries) && Disjoint(f) && Leaves(f, entries, n)
    ensures var gone, after := Gone(f, entries, n - 1), Gone(f, entries, n);
            && |Keys(f, kind) * after| == |Keys(f, kind) * gone| + (if entries[n - 1].kind == kind then 1 else 0)
            && (f.closed !! gone ==> f.closed !! after)
  {
    var item := entries[n - 1];
    GoneNext(f, entries, n);
    OneMoreGone(Keys(f, kind), Gone(f, entries, n - 1), item.key);
    OneKind(f, item.key, item.kind, kind);
    OneKind(f, item.key, item.kind, Closed);
  }

  lemma {:induction false} GoneIsSetAside(f: Full, entries: seq<Entry>, kind: Kind, n: nat)
    requires n <= |entries| && SetAside(f, entries) && Disjoint(f)
    ensures GoneAs(f, entries, kind, n) == |Keys(f, kind) * Gone(f, entries, n)| || kind == Closed
    ensures f.closed !! Gone(f, entries, n)
    decreases n
  {
    if n > 0 {
      GoneIsSetAside(f, entries, kind, n - 1);
      GoneNext(f, entries, n);
      if Leaves(f, entries, n) {
        NextIsSetAside(f, entries, kind, n);
      } else {
        assert Gone(f, entries, n) == Gone(f, entries, n - 1);
      }
    }
  }

  lemma OneKind(f: Full, k: Key, kind: Kind, other: Kind)
    requires Disjoint(f) && k in Keys(f, kind)
    ensures k in Keys(f, other) <==> kind == other
  {
  }

  lemma OneMoreGone(all: set<Key>, gone: set<Key>, k: Key)
    requires k !in gone
    ensures |all * (gone + {k})| == |all * gone| + if k in all then 1 else 0
  {
    assert all * (gone + {k}) == if k in all then all * gone + {k} else all * gone;
  }

  /** Choosing among those set aside, as an upload's list does, is always right. */
  lemma SetAsideLeavesRight(f: Full, entries: seq<Entry>)
    requires SetAside(f, entries) && Disjoint(f)
    ensures LeavesRight(f, entries)
  {
    GoneIsSetAside(f, entries, Unreadable, |entries|);
    GoneIsSetAside(f, entries, Clash, |entries|);
  }

  /** One of two databases fails again after it was read again, and is left out before a pass has found it: the count
      drops to none, and the job goes on with the other still listed and waiting. */
  lemma LeaveOutHidesOne(r: Record, f: Full, a: Key, b: Entry)
    requires Refines(r, f) && f.unreadable == {a, b.key} && a != b.key && f.clash == {} && a in r.setAside
    requires b.kind == Unreadable && r.phase != Ready
    ensures var once := ReadAgain(r, Some({b.key}), 1);
            var left := LeaveOut(once, [b]);
            && once.phase == NeedsYou && !HasWork(once)
            && left.phase == Preparing && Waiting(left) == 0
            && a in left.setAside && left.setAside[a].kind == Unreadable
  {
    assert |f.unreadable| == 2 && b.key !in f.leftOut;
    assert a in Keys(f, r.setAside[a].kind);
    var once := ReadAgain(r, Some({b.key}), 1);
    assert LeaveAll(once, [b], 0) == once;
    assert LeaveAll(once, [b], 1) == LeaveOne(once, b);
  }

  lemma ChangeTargetsRefines(r: Record, f: Full)
    requires Refines(r, f)
    ensures Refines(ChangeTargets(r), f.(clash := {}))
  {
    NoClashesSays(r, f);
    RefreshedRefines(Asked(NoClashes(r)), f.(clash := {}));
  }

  lemma NoClashesSays(r: Record, f: Full)
    requires Says(r, f)
    ensures Says(NoClashes(r), f.(clash := {}))
  {
    ListsFewer(NoClashes(r).setAside, r.setAside, f, f.(clash := {}));
  }

  // ---- over every sequence of them ----------------------------------------------------------------------------------

  datatype Action =
    | FindAside(entries: seq<Entry>)
    | AskReadAgain(keys: Maybe<set<Key>>, reset: nat)
    | AskLeaveOut(entries: seq<Entry>)
    | AskTargets
    | MoveTo(stage: Maybe<Stage>)
    | BeReady
    | Stop
    | Restart

  /** When an action keeps the record exact: a pass found nothing left out meanwhile and no database twice; the number
      read again, and those left out under each kind, are those set aside or no fewer than all of them. */
  ghost predicate Right(f: Full, action: Action) {
    match action
    case FindAside(entries) => NothingLeftOut(entries, f.leftOut) && FoundOnce(entries)
    case AskReadAgain(keys, reset) => keys.None? || TakesOff(f.unreadable, keys.value, reset)
    case AskLeaveOut(entries) => LeavesRight(f, entries)
    case _ => true
  }

  ghost function Act(r: Record, action: Action): Record {
    match action
    case FindAside(entries) => Found(r, entries, Numbers(entries))
    case AskReadAgain(keys, reset) => ReadAgain(r, keys, reset)
    case AskLeaveOut(entries) => LeaveOut(r, entries)
    case AskTargets => ChangeTargets(r)
    case MoveTo(stage) => Moved(r, stage)
    case BeReady => MadeReady(r)
    case Stop => Stopped(r)
    case Restart => Restarted(r)
  }

  ghost function ActSets(f: Full, action: Action): Full {
    match action
    case FindAside(entries) => FoundSets(entries, f.leftOut)
    case AskReadAgain(keys, _) => ReadAgainSets(f, keys)
    case AskLeaveOut(entries) => LeaveAllSets(f, entries, |entries|)
    case AskTargets => f.(clash := {})
    case _ => f
  }

  ghost predicate AllRight(f: Full, actions: seq<Action>)
    decreases |actions|
  {
    actions == [] || (Right(f, actions[0]) && AllRight(ActSets(f, actions[0]), actions[1..]))
  }

  ghost function ActAll(r: Record, actions: seq<Action>): Record
    decreases |actions|
  {
    if actions == [] then r else ActAll(Act(r, actions[0]), actions[1..])
  }

  ghost function ActAllSets(f: Full, actions: seq<Action>): Full
    decreases |actions|
  {
    if actions == [] then f else ActAllSets(ActSets(f, actions[0]), actions[1..])
  }

  /** An action keeps the bounded record exact if and only if it is right. */
  lemma ActRefinesExactly(r: Record, f: Full, action: Action)
    requires Refines(r, f)
    ensures Refines(Act(r, action), ActSets(f, action)) <==> Right(f, action)
  {
    match action
    case FindAside(entries) => FoundRefinesExactly(r, entries);
    case AskReadAgain(keys, reset) => ReadAgainRefinesExactly(r, f, keys, reset);
    case AskLeaveOut(entries) => LeaveOutRefinesExactly(r, f, entries);
    case _ => OthersRefine(r, f, action);
  }

  lemma OthersRefine(r: Record, f: Full, action: Action)
    requires Refines(r, f) && !action.FindAside? && !action.AskReadAgain? && !action.AskLeaveOut?
    ensures Refines(Act(r, action), ActSets(f, action))
  {
    match action
    case AskTargets => ChangeTargetsRefines(r, f);
    case MoveTo(stage) => MovedRefines(r, f, stage);
    case BeReady => MovedRefines(r.(phase := Ready), f, None);
    case Stop => assert CountsOf(Stopped(r)) == CountsOf(r);
    case Restart => RefreshedRefines(Asked(r.(stopped := false)), f);
  }

  lemma MovedRefines(r: Record, f: Full, stage: Maybe<Stage>)
    requires Refines(r, f)
    ensures Refines(Moved(r, stage), f)
  {
    var moved := Moved(r, stage);
    assert CountsOf(moved) == CountsOf(r) && moved.setAside == r.setAside && moved.leftOut == r.leftOut;
  }

  /** Over every sequence of right actions the bounded record says the full sets: whole counts, every clash listed, at
      most LISTED others and all of them belonging, none both set aside and left out, and Needs you exactly while
      something waits. */
  lemma {:induction false} RecordRefines(r: Record, f: Full, actions: seq<Action>)
    requires Refines(r, f) && AllRight(f, actions)
    ensures Refines(ActAll(r, actions), ActAllSets(f, actions))
    decreases |actions|
  {
    if actions != [] {
      ActRefinesExactly(r, f, actions[0]);
      RecordRefines(Act(r, actions[0]), ActSets(f, actions[0]), actions[1..]);
    }
  }

  const NONE := Full({}, {}, {}, {})

  /** The record Create writes with a job to prepare. */
  function NewRecord(stage: Stage): Record {
    Record(Preparing, Some(stage), false, false, 0, map[], {}, None)
  }

  lemma NewRefines(stage: Stage)
    ensures Refines(NewRecord(stage), NONE)
  {
    assert OfKind(map[], Unreadable) == {} && OfKind(map[], Clash) == {} && OfKind(map[], Closed) == {};
    assert Others(map[]) == {};
  }

  /** From the record of a new job on, whatever a pass found last and however the record was before it. */
  lemma NewRecordRefines(stage: Stage, actions: seq<Action>)
    requires AllRight(NONE, actions)
    ensures Refines(ActAll(NewRecord(stage), actions), ActAllSets(NONE, actions))
  {
    NewRefines(stage);
    RecordRefines(NewRecord(stage), NONE, actions);
  }

  lemma {:induction false} LeaveAllKeeps(r: Record, entries: seq<Entry>, n: nat)
    requires n <= |entries|
    ensures var out := LeaveAll(r, entries, n); out.writingStarted == r.writingStarted && out.phase == r.phase
    decreases n
  {
    if n > 0 {
      LeaveAllKeeps(r, entries, n - 1);
    }
  }

  /** Once the write has begun it stays begun, and a job that is Ready stays Ready. */
  lemma {:induction false} NeverGoesBack(r: Record, actions: seq<Action>)
    ensures r.writingStarted ==> ActAll(r, actions).writingStarted
    ensures r.phase == Ready ==> ActAll(r, actions).phase == Ready
    decreases |actions|
  {
    if actions != [] {
      if actions[0].AskLeaveOut? {
        LeaveAllKeeps(r, actions[0].entries, |actions[0].entries|);
      }
      NeverGoesBack(Act(r, actions[0]), actions[1..]);
    }
  }
}
