/** The background reader of one app process, Reader in app/src/background_reads.py: its look for work (step), the
    claims it renews and what it hands to its workers. A look is one step here: a worker that finishes during it only
    frees its place sooner. */
module BackgroundReads {
  import opened Text
  import Placement
  import Regroup
  import ReadProtocol

  /** How often the claims held here are renewed, in seconds. */
  const HOLD_S: nat := 20

  /** The longest time between two looks that no claim held here outlives. */
  const LOOK_S: nat := ReadProtocol.CLAIM_S - HOLD_S

  type Key = (string, string)

  /** A read handed to the workers: its discovery and database, its server, and the statement it watches, if one was
      sent. */
  datatype Job = Job(key: Key, server: string, statement: Maybe<nat>)

  /** A discovery with databases left: statements nobody watches, and databases waiting. */
  datatype Work = Work(discovery: string, server: string, orphaned: nat, waiting: nat)

  /** The store's answers, call by call: the statements collected of a discovery and the databases claimed of a server,
      up to the number asked for. */
  datatype Store = Store(collected: (nat, string, nat) -> seq<(string, nat)>, claimed: (nat, string, nat) -> seq<Key>)

  ghost predicate Keeps(store: Store) {
    && (forall call: nat, discovery: string, limit: nat :: |store.collected(call, discovery, limit)| <= limit)
    && (forall call: nat, server: string, limit: nat :: |store.claimed(call, server, limit)| <= limit)
  }

  /** The servers with a database waiting, of the first n discoveries. */
  function Servers(work: seq<Work>, n: nat): set<string>
    requires n <= |work|
  {
    if n == 0 then {} else Servers(work, n - 1) + if work[n - 1].waiting > 0 then {work[n - 1].server} else {}
  }

  function Rotated(order: seq<string>, turn: nat): seq<string>
    requires turn <= |order|
  {
    order[turn..] + order[..turn]
  }

  /** What is held once the first n reads given are handed. */
  function HeldWith(held: map<Key, string>, given: seq<Job>, n: nat): map<Key, string>
    requires n <= |given|
  {
    if n == 0 then held else HeldWith(held, given, n - 1)[given[n - 1].key := given[n - 1].server]
  }

  lemma {:induction false} HeldBefore(held: map<Key, string>, given: seq<Job>, more: seq<Job>, n: nat)
    requires n <= |given|
    ensures HeldWith(held, given + more, n) == HeldWith(held, given, n)
    decreases n
  {
    if n > 0 {
      HeldBefore(held, given, more, n - 1);
    }
  }

  lemma {:induction false} HeldWithMore(held: map<Key, string>, given: seq<Job>, more: seq<Job>, n: nat)
    requires n <= |more|
    ensures HeldWith(held, given + more, |given| + n) == HeldWith(HeldWith(held, given, |given|), more, n)
    decreases n
  {
    if n == 0 {
      HeldBefore(held, given, more, |given|);
    } else {
      HeldWithMore(held, given, more, n - 1);
      assert (given + more)[|given| + n - 1] == more[n - 1];
    }
  }

  /** A statement nobody watches, of a discovery, handed to be watched. */
  function CollectedJobs(work: Work, answers: seq<(string, nat)>): (given: seq<Job>)
    ensures |given| == |answers| && forall i :: 0 <= i < |given| ==> given[i].statement.Some?
  {
    seq(|answers|, i requires 0 <= i < |answers| => Job((work.discovery, answers[i].0), work.server,
        Some(answers[i].1)))
  }

  /** Databases claimed of a server, handed to be sent. */
  function ClaimedJobs(server: string, keys: seq<Key>): (given: seq<Job>)
    ensures |given| == |keys| && forall i :: 0 <= i < |given| ==> given[i].statement.None? && given[i].server == server
  {
    seq(|keys|, i requires 0 <= i < |keys| => Job(keys[i], server, None))
  }

  /** While the warehouse starts, one read is claimed at most, and only when none is held. */
  ghost predicate OneAtATime(held: map<Key, string>, given: seq<Job>, ready: bool) {
    ready || given == [] || (held == map[] && |given| == 1)
  }

  /** Reads claimed of some servers. */
  ghost predicate Claimed(given: seq<Job>, servers: seq<string>) {
    forall i :: 0 <= i < |given| ==> given[i].statement.None? && given[i].server in servers
  }

  /** The first of the servers waiting, from the one whose turn it is. */
  ghost predicate InTurn(work: seq<Work>, turn: nat, asked: seq<string>) {
    asked == [] || (turn < |Regroup.InOrder(Servers(work, |work|))|
        && asked <= Rotated(Regroup.InOrder(Servers(work, |work|)), turn))
  }

  /** The server asked first by a look, given the turn it left. */
  function FirstAsked(work: seq<Work>, turn: nat): string
    requires turn < |Regroup.InOrder(Servers(work, |work|))|
  {
    Rotated(Regroup.InOrder(Servers(work, |work|)), turn)[0]
  }

  /** The turn after a look that claims: the next one's, of the servers waiting. */
  function Turned(turn: nat, work: seq<Work>): nat {
    var servers := Servers(work, |work|);
    if servers == {} then turn else (turn + 1) % |servers|
  }

  lemma ClaimedMore(given: seq<Job>, more: seq<Job>, order: seq<string>, n: nat)
    requires n < |order| && Claimed(given, order[..n]) && Claimed(more, [order[n]])
    ensures Claimed(given + more, order[..n + 1])
  {
    assert order[..n + 1] == order[..n] + [order[n]];
  }

  lemma {:induction false} HoldsAll(held: map<Key, string>, given: seq<Job>, n: nat)
    requires n <= |given|
    ensures held.Keys <= HeldWith(held, given, n).Keys && (n > 0 ==> given[n - 1].key in HeldWith(held, given, n))
    decreases n
  {
    if n > 0 {
      HoldsAll(held, given, n - 1);
    }
  }

  /** From some reads held and handed, the reads given make it others. */
  ghost predicate Gave(wasHeld: map<Key, string>, wasJobs: seq<Job>, given: seq<Job>, held: map<Key, string>,
                       jobs: seq<Job>) {
    held == HeldWith(wasHeld, given, |given|) && jobs == wasJobs + given && |held| <= |wasHeld| + |given|
  }

  lemma GaveBoth(heldA: map<Key, string>, jobsA: seq<Job>, first: seq<Job>, heldB: map<Key, string>, jobsB: seq<Job>,
                 then_: seq<Job>, heldC: map<Key, string>, jobsC: seq<Job>)
    requires Gave(heldA, jobsA, first, heldB, jobsB) && Gave(heldB, jobsB, then_, heldC, jobsC)
    ensures Gave(heldA, jobsA, first + then_, heldC, jobsC)
  {
    HeldWithMore(heldA, first, then_, |then_|);
  }

  /** When nothing is held, nothing was and nothing was given. */
  lemma HoldsGiven(held: map<Key, string>, given: seq<Job>)
    ensures HeldWith(held, given, |given|) == map[] ==> held == map[] && given == []
  {
    HoldsAll(held, given, |given|);
  }

  lemma OneMore(held: map<Key, string>, key: Key, server: string)
    ensures |held[key := server]| <= |held| + 1
  {
    assert held[key := server].Keys == held.Keys + {key};
    assert |held[key := server]| == |held[key := server].Keys| && |held| == |held.Keys|;
  }

  /** What a look finds: the time, the reads ended since the last one, the work waiting, and the store's answers. */
  datatype Look = Look(now: nat, ended: seq<Key>, work: seq<Work>, store: Store, ready: bool, paused: bool)

  ghost predicate InTime(looks: seq<Look>, from: nat) {
    && (forall n :: 0 <= n < |looks| ==> Keeps(looks[n].store) && looks[n].now >= from)
    && (forall n :: 0 < n < |looks| ==> looks[n - 1].now <= looks[n].now)
  }

  /** The look left the turn as it was and asked no server, or took it on; the first server it asked has the turn. */
  ghost predicate TookTurn(work: seq<Work>, before: nat, after: nat, asked: seq<string>) {
    && (after == Turned(before, work) || (after == before && asked == []))
    && InTurn(work, after, asked) && (asked != [] ==> asked[0] == FirstAsked(work, after))
  }

  class Reader {
    const workers: nat
    var held: map<Key, string>
    var jobs: seq<Job>
    var turn: nat
    var renewed: Maybe<nat>
    /** When each claim held was made or last renewed, at the latest; and when the last look was. */
    ghost var claimedAt: map<Key, nat>
    ghost var looked: nat

    constructor (workers: nat, now: nat)
      ensures Valid() && this.workers == workers && held == map[] && jobs == [] && looked == now
    {
      this.workers := workers;
      held, jobs, turn, renewed := map[], [], 0, None;
      claimedAt, looked := map[], now;
    }

    /** No more reads are held than there are workers, and every claim was renewed within HOLD_S of the last look. */
    ghost predicate Valid()
      reads this
    {
      && |held| <= workers && claimedAt.Keys == held.Keys
      && (renewed.Some? ==> renewed.value <= looked)
      && forall k :: k in held ==> claimedAt[k] + HOLD_S >= looked && (renewed.Some? ==> claimedAt[k] >= renewed.value)
    }

    /** Every claim held here is live at a time. */
    ghost predicate ClaimsLive(now: nat)
      reads this
      requires Valid()
    {
      forall k :: k in held ==> claimedAt[k] + ReadProtocol.CLAIM_S >= now
    }

    /** While looks are no more than LOOK_S apart, no claim held here lapses between them. */
    lemma ClaimsNeverLapse(now: nat)
      requires Valid() && now <= looked + LOOK_S
      ensures ClaimsLive(now)
    {
    }

    method Renew(now: nat)
      requires Valid() && now >= looked
      modifies `renewed, `claimedAt, `looked
      ensures Valid() && looked == now
    {
      if held != map[] && (renewed.None? || now - renewed.value >= HOLD_S) {
        renewed := Some(now);
        claimedAt := map k | k in held :: now;
      }
      looked := now;
    }

    method Hand(job: Job)
      requires Valid() && |held| < workers
      modifies `held, `jobs, `claimedAt
      ensures Valid() && held == old(held)[job.key := job.server] && jobs == old(jobs) + [job]
      ensures |held| <= old(|held|) + 1
    {
      OneMore(held, job.key, job.server);
      held := held[job.key := job.server];
      jobs := jobs + [job];
      claimedAt := claimedAt[job.key := looked];
    }

    /** Each read given handed, in order. */
    method HandAll(given: seq<Job>)
      requires Valid() && |held| + |given| <= workers
      modifies `held, `jobs, `claimedAt
      ensures Valid() && held == HeldWith(old(held), given, |given|) && jobs == old(jobs) + given
      ensures |held| <= old(|held|) + |given|
    {
      for n := 0 to |given|
        invariant Valid() && held == HeldWith(old(held), given, n) && jobs == old(jobs) + given[..n]
        invariant |held| <= old(|held|) + n
      {
        Hand(given[n]);
        assert given[..n + 1] == given[..n] + [given[n]];
      }
      assert given[..|given|] == given;
    }

    /** The statements nobody watches, discovery by discovery, while a worker is free. */
    method Collect(work: seq<Work>, store: Store) returns (free: nat, ghost given: seq<Job>)
      requires Valid() && Keeps(store)
      modifies `held, `jobs, `claimedAt
      ensures Valid() && Gave(old(held), old(jobs), given, held, jobs)
      ensures free + |given| == workers - old(|held|)
      ensures forall i :: 0 <= i < |given| ==> given[i].statement.Some?
    {
      free, given := workers - |held|, [];
      for n := 0 to |work|
        invariant Valid() && Gave(old(held), old(jobs), given, held, jobs) && free + |given| == workers - old(|held|)
        invariant forall i :: 0 <= i < |given| ==> given[i].statement.Some?
      {
        if free == 0 {
          break;
        }
        if work[n].orphaned > 0 {
          var more := CollectedJobs(work[n], store.collected(n, work[n].discovery, free));
          ghost var heldNow, jobsNow := held, jobs;
          HandAll(more);
          GaveBoth(old(held), old(jobs), given, heldNow, jobsNow, more, held, jobs);
          free, given := free - |more|, given + more;
        }
      }
    }

    /** Databases waiting on one server, claimed and handed. */
    method ClaimOf(server: string, call: nat, store: Store, limit: nat) returns (given: seq<Job>)
      requires Valid() && Keeps(store) && |held| + limit <= workers
      modifies `held, `jobs, `claimedAt
      ensures Valid() && Gave(old(held), old(jobs), given, held, jobs) && |given| <= limit
      ensures Claimed(given, [server]) && |given| == |store.claimed(call, server, limit)|
    {
      given := ClaimedJobs(server, store.claimed(call, server, limit));
      HandAll(given);
    }

    /** The places a look has left for claims: all those free, or one at most while the warehouse starts. */
    function Limit(free: nat, ready: bool): nat
      reads this
    {
      if ready then free else if held == map[] && free > 0 then 1 else 0
    }

    /** The databases waiting, server by server, within the places left; one read at a time while the warehouse
        starts. */
    method Claim(order: seq<string>, store: Store, places: nat, ready: bool)
      returns (ghost given: seq<Job>, ghost asked: nat)
      requires Valid() && Keeps(store) && |held| + places <= workers
      modifies `held, `jobs, `claimedAt
      ensures Valid() && Gave(old(held), old(jobs), given, held, jobs) && |given| <= places
      ensures OneAtATime(old(held), given, ready)
      ensures asked <= |order| && Claimed(given, order[..asked])
      ensures order != [] && old(Limit(places, ready)) > 0 ==> asked > 0
      ensures places == 1 && asked > 1 ==> store.claimed(0, order[0], 1) == []
    {
      given, asked := [], 0;
      var free: nat := places;
      for n := 0 to |order|
        invariant Valid() && Gave(old(held), old(jobs), given, held, jobs) && |given| + free == places && asked == n
        invariant OneAtATime(old(held), given, ready) && Claimed(given, order[..n])
        invariant n == 0 ==> given == []
        invariant places == 1 && (n > 1 || (n == 1 && free == 1)) ==> store.claimed(0, order[0], 1) == []
      {
        var limit := Limit(free, ready);
        if limit == 0 {
          break;
        }
        HoldsGiven(old(held), given);
        ghost var heldNow, jobsNow := held, jobs;
        var more := ClaimOf(order[n], n, store, limit);
        GaveBoth(old(held), old(jobs), given, heldNow, jobsNow, more, held, jobs);
        ClaimedMore(given, more, order, n);
        free, given, asked := free - |more|, given + more, n + 1;
      }
    }

    /** The servers waiting, from the next one's turn on. */
    method NextOrder(work: seq<Work>) returns (order: seq<string>)
      modifies `turn
      ensures |order| == |Servers(work, |work|)| && turn == Turned(old(turn), work) && InTurn(work, turn, order)
    {
      var servers := Servers(work, |work|);
      order := Regroup.InOrder(servers);
      Regroup.InOrderHasAll(servers);
      if order != [] {
        turn := (turn + 1) % |order|;
        order := Rotated(order, turn);
      }
    }

    /** One look: the claims held renewed, the statements nobody watches taken up, then the databases waiting claimed
        and handed to the free workers, the servers taking turns to be first. */
    method Step(now: nat, work: seq<Work>, store: Store, ready: bool, paused: bool)
      returns (ghost collected: seq<Job>, ghost claimed: seq<Job>, ghost asked: seq<string>)
      requires Valid() && Keeps(store) && now >= looked
      modifies this
      ensures Valid() && looked == now && Gave(old(held), old(jobs), collected + claimed, held, jobs)
      ensures |collected| + |claimed| <= workers - old(|held|)
      ensures forall i :: 0 <= i < |collected| ==> collected[i].statement.Some?
      ensures paused ==> claimed == []
      ensures !ready && claimed != [] ==> |claimed| == 1 && collected == [] && old(held) == map[]
      ensures Claimed(claimed, asked) && InTurn(work, turn, asked)
              && (asked != [] ==> asked[0] == FirstAsked(work, turn))
      ensures paused || old(|held|) == workers ==> asked == []
      ensures turn == if paused || old(|held|) == workers then old(turn) else Turned(old(turn), work)
      ensures !paused && Servers(work, |work|) != {} && |collected| < workers - old(|held|) && (ready || held == map[])
              ==> asked != []
      ensures workers - old(|held|) == |collected| + 1 && |asked| > 1 ==> store.claimed(0, asked[0], 1) == []
    {
      collected, claimed, asked := [], [], [];
      Renew(now);
      if |held| == workers {
        return;
      }
      var free;
      free, collected := Collect(work, store);
      ghost var heldNow, jobsNow := held, jobs;
      if !paused {
        claimed, asked := ClaimWaiting(work, store, free, ready);
        HoldsGiven(old(held), collected);
      }
      GaveBoth(old(held), old(jobs), collected, heldNow, jobsNow, claimed, held, jobs);
    }

    method ClaimWaiting(work: seq<Work>, store: Store, places: nat, ready: bool)
      returns (ghost given: seq<Job>, ghost asked: seq<string>)
      requires Valid() && Keeps(store) && |held| + places <= workers
      modifies `held, `jobs, `claimedAt, `turn
      ensures Valid() && Gave(old(held), old(jobs), given, held, jobs) && |given| <= places
      ensures OneAtATime(old(held), given, ready) && Claimed(given, asked) && InTurn(work, turn, asked)
      ensures turn == Turned(old(turn), work)
      ensures Servers(work, |work|) != {} && places > 0 && (ready || old(held) == map[]) ==> asked != []
      ensures places == 1 && |asked| > 1 ==> store.claimed(0, asked[0], 1) == []
    {
      var order := NextOrder(work);
      ghost var number;
      given, number := Claim(order, store, places, ready);
      asked := order[..number];
    }

    /** A worker lets its read go. */
    method LetGo(key: Key)
      requires Valid()
      modifies `held, `claimedAt
      ensures Valid() && held == old(held) - {key}
    {
      assert |held - {key}| <= |held| by {
        assert (held - {key}).Keys == held.Keys - {key};
        assert |held - {key}| == |(held - {key}).Keys| && |held| == |held.Keys|;
      }
      held := held - {key};
      claimedAt := claimedAt - {key};
    }

    method LetGoAll(keys: seq<Key>)
      requires Valid()
      modifies `held, `claimedAt
      ensures Valid() && looked == old(looked) && turn == old(turn)
    {
      for n := 0 to |keys|
        invariant Valid() && looked == old(looked) && turn == old(turn)
      {
        LetGo(keys[n]);
      }
    }

    method LookOnce(look: Look) returns (ghost asked: seq<string>)
      requires Valid() && Keeps(look.store) && look.now >= looked
      modifies this
      ensures Valid() && looked == look.now && TookTurn(look.work, old(turn), turn, asked)
    {
      LetGoAll(look.ended);
      ghost var _, _, first := Step(look.now, look.work, look.store, look.ready, look.paused);
      asked := first;
    }

    /** The loop, for some looks: before each, the workers that ended let their reads go. Each look takes the turn on,
        or asks no server; and the first server a look asks is the one whose turn it then is. */
    method Looks(looks: seq<Look>) returns (ghost turns: seq<nat>, ghost asked: seq<seq<string>>)
      requires Valid() && InTime(looks, looked)
      modifies this
      ensures Valid() && |turns| == |looks| + 1 && |asked| == |looks| && turns[0] == old(turn) && turns[|looks|] == turn
      ensures forall n :: 0 <= n < |looks| ==> TookTurn(looks[n].work, turns[n], turns[n + 1], asked[n])
    {
      turns, asked := [turn], [];
      for n := 0 to |looks|
        invariant Valid() && |turns| == n + 1 && |asked| == n && turns[0] == old(turn) && turns[n] == turn
        invariant n < |looks| ==> looks[n].now >= looked
        invariant forall m :: 0 <= m < n ==> TookTurn(looks[m].work, turns[m], turns[m + 1], asked[m])
      {
        ghost var first := LookOnce(looks[n]);
        turns, asked := turns + [turn], asked + [first];
      }
    }
  }

  // ---- whose turn it is ---------------------------------------------------------------------------------------------

  /** The turn after the first n looks that claim, each with the work it found. */
  function TurnAfter(turn: nat, works: seq<seq<Work>>, n: nat): nat
    requires n <= |works|
  {
    if n == 0 then turn else Turned(TurnAfter(turn, works, n - 1), works[n - 1])
  }

  ghost predicate AllWait(works: seq<seq<Work>>, servers: set<string>) {
    forall n :: 0 <= n < |works| ==> Servers(works[n], |works[n]|) == servers
  }

  lemma Remainders(a: nat, n: nat)
    requires a <= n && n > 0
    ensures a % n == if a < n then a else 0
  {
  }

  /** From a first look that left some turn, the next ones go round. */
  lemma {:induction false} TurnIs(turn: nat, works: seq<seq<Work>>, servers: set<string>, n: nat)
    requires servers != {} && AllWait(works, servers) && 1 <= n <= |works| && n <= |servers|
    ensures var first := (turn + 1) % |servers|;
            && first < |servers|
            && TurnAfter(turn, works, n)
                == if first + n - 1 < |servers| then first + n - 1 else first + n - 1 - |servers|
    decreases n
  {
    assert Servers(works[n - 1], |works[n - 1]|) == servers;
    if n > 1 {
      TurnIs(turn, works, servers, n - 1);
      Remainders(TurnAfter(turn, works, n - 1) + 1, |servers|);
    } else {
      assert TurnAfter(turn, works, 0) == turn;
    }
  }

  /** While the same servers wait, each of them is asked first by one of as many looks as there are servers waiting. */
  lemma EveryServerComesFirst(turn: nat, works: seq<seq<Work>>, servers: set<string>, server: string)
    returns (look: nat)
    requires server in servers && AllWait(works, servers) && |works| >= |servers|
    ensures look < |servers| && look < |works|
    ensures var left := TurnAfter(turn, works, look + 1);
            left < |Regroup.InOrder(Servers(works[look], |works[look]|))| && FirstAsked(works[look], left) == server
  {
    var order := Regroup.InOrder(servers);
    Regroup.InOrderHasAll(servers);
    var i := Placement.IndexOf(order, |order|, server);
    var first := (turn + 1) % |servers|;
    look := if i >= first then i - first else i + |servers| - first;
    TurnIs(turn, works, servers, look + 1);
    assert Servers(works[look], |works[look]|) == servers;
  }

  predicate Even(n: nat) {
    n == 0 || !Even(n - 1)
  }

  /** The first, third, fifth... look finds three servers waiting, the others two of them. */
  ghost predicate ComeAndGo(works: seq<seq<Work>>, all: set<string>, some: set<string>) {
    && |all| == 3 && |some| == 2
    && forall n :: 0 <= n < |works| ==> Servers(works[n], |works[n]|) == if Even(n) then all else some
  }

  lemma {:induction false} ComingAndGoing(works: seq<seq<Work>>, all: set<string>, some: set<string>, n: nat)
    requires ComeAndGo(works, all, some) && n <= |works|
    ensures TurnAfter(0, works, n) == if Even(n) then 0 else 1
    decreases n
  {
    if n > 0 {
      ComingAndGoing(works, all, some, n - 1);
      OneTurn(works[n - 1], if Even(n - 1) then all else some, TurnAfter(0, works, n - 1));
    }
  }

  lemma OneTurn(work: seq<Work>, servers: set<string>, turn: nat)
    requires Servers(work, |work|) == servers && servers != {} && turn + 1 <= |servers|
    ensures Turned(turn, work) == if turn + 1 < |servers| then turn + 1 else 0
  {
    Remainders(turn + 1, |servers|);
  }

  /** The last in order of three, when it waits only at every other look, is never the first asked. */
  lemma NeverFirst(works: seq<seq<Work>>, all: set<string>, some: set<string>, last: string, n: nat)
    requires ComeAndGo(works, all, some) && n < |works| && last !in some
    requires |Regroup.InOrder(all)| == 3 && Regroup.InOrder(all)[2] == last
    ensures var left := TurnAfter(0, works, n + 1);
            && left < |Regroup.InOrder(Servers(works[n], |works[n]|))| && FirstAsked(works[n], left) != last
  {
    ComingAndGoing(works, all, some, n + 1);
    assert Servers(works[n], |works[n]|) == if Even(n) then all else some;
    if Even(n) {
      SecondIsNotLast(all);
    } else {
      FirstIsAmong(some);
    }
  }

  lemma OnlyFirst(work: seq<Work>, turn: nat, asked: seq<string>)
    requires InTurn(work, turn, asked) && |asked| <= 1 && asked != []
    ensures asked == [FirstAsked(work, turn)]
  {
  }

  /** When the servers waiting change between looks, one can be passed over for good: such a server is never the first
      asked, and so never asked, while each look has one worker free and the first server has a read to give, as a look
      then asks no other. */
  lemma PassedOverForGood(works: seq<seq<Work>>, all: set<string>, some: set<string>, last: string, n: nat,
                          asked: seq<string>)
    requires ComeAndGo(works, all, some) && n < |works| && last !in some
    requires |Regroup.InOrder(all)| == 3 && Regroup.InOrder(all)[2] == last
    requires InTurn(works[n], TurnAfter(0, works, n + 1), asked)
    ensures asked != [] ==> asked[0] != last
    ensures |asked| <= 1 ==> last !in asked
  {
    NeverFirst(works, all, some, last, n);
    if asked != [] {
      OnlyFirst(works[n], TurnAfter(0, works, n + 1), asked[..1]);
    }
  }

  lemma SecondIsNotLast(all: set<string>)
    requires |Regroup.InOrder(all)| == 3
    ensures Regroup.InOrder(all)[1] != Regroup.InOrder(all)[2]
  {
    Regroup.InOrderHasAll(all);
    Placement.DifferentAt(Regroup.InOrder(all), 1, 2);
  }

  lemma FirstIsAmong(some: set<string>)
    requires |some| == 2
    ensures |Regroup.InOrder(some)| == 2 && Regroup.InOrder(some)[0] in some
  {
    Regroup.InOrderHasAll(some);
    Placement.NameAt(Regroup.InOrder(some), 2, 0);
  }
}
