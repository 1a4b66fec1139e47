/** The dispatch-and-collect loop of syncOutCoinV2 and its workers getCoinsByIndices (incclient/coin_cache.go):
    batches of indices are fetched concurrently and merged in the order in which the workers finish. */
module CoinSync {
  import opened Bytes

  const BATCH_SIZE: nat := 5000

  /** A coin by its serialized bytes; isV2 tells whether it can be read as a CoinV2. */
  datatype Coin = Coin(bytes: seq<byte>, isV2: bool)

  /** Ownership for one key set, and the burning key. */
  datatype Wallet = Wallet(belongs: Coin -> bool, burning: seq<byte>)

  predicate Keeps(w: Wallet, c: Coin) {
    c.bytes != w.burning && w.belongs(c)
  }

  /** The owned coins at the positions from lo up to hi. */
  function Owned(w: Wallet, chain: seq<Coin>, lo: nat, hi: nat): map<nat, Coin>
    requires hi <= |chain|
  {
    map i | lo <= i < hi && Keeps(w, chain[i]) :: chain[i]
  }

  /** The worker's filter, in whatever order the map is walked. */
  method GetCoinsByIndices(w: Wallet, fetched: map<nat, Coin>) returns (data: map<nat, Coin>)
    ensures data == map i | i in fetched && Keeps(w, fetched[i]) :: fetched[i]
  {
    data := map[];
    var rest := fetched.Keys;
    while rest != {}
      invariant rest <= fetched.Keys
      invariant data == map i | i in fetched && i !in rest && Keeps(w, fetched[i]) :: fetched[i]
    {
      var idx :| idx in rest;
      if fetched[idx].bytes != w.burning {
        if w.belongs(fetched[idx]) {
          data := data[idx := fetched[idx]];
        }
      }
      rest := rest - {idx};
    }
  }

  /** What the main loop meets: the message of batch k's worker (with its coins or an error), or nothing to read. */
  datatype Event = Status(batch: nat, ok: bool) | Nothing

  datatype SyncEnd = Complete | FetchFailed | StillRunning

  /** The variables of the loop, and the numbers of the batches whose workers have not been heard. */
  datatype Loop = Loop(currentIndex: nat, doneCount: nat, numWorking: nat, working: set<nat>, data: map<nat, Coin>)

  function From(start: nat, k: nat): nat {
    start + BATCH_SIZE * k
  }

  function Upto(start: nat, length: nat, k: nat): nat {
    if From(start, k + 1) < length then From(start, k + 1) else length
  }

  /** The number of batches dispatched. */
  function Dispatched(s: Loop): nat {
    s.doneCount + s.numWorking
  }

  function BatchOf(start: nat, i: nat): nat
    requires i >= start
  {
    (i - start) / BATCH_SIZE
  }

  function NumThreads(start: nat, length: nat): nat
    requires start <= length
  {
    (length - start + BATCH_SIZE - 1) / BATCH_SIZE
  }

  /** Batches are dispatched in order, each from where the one before it ended, so that they are disjoint and cover
      the indices from start up to currentIndex; the coins held are those of the batches heard. */
  ghost predicate Consistent(s: Loop, w: Wallet, chain: seq<Coin>, start: nat, maxThreads: nat) {
    && start <= s.currentIndex <= |chain|
    && s.currentIndex == (if From(start, Dispatched(s)) < |chain| then From(start, Dispatched(s)) else |chain|)
    && Dispatched(s) <= NumThreads(start, |chain|)
    && |s.working| == s.numWorking <= maxThreads && (forall k :: k in s.working ==> k < Dispatched(s))
    && s.data == Heard(s.working, w, chain, start, s.currentIndex)
  }

  ghost function Heard(working: set<nat>, w: Wallet, chain: seq<Coin>, start: nat, hi: nat): map<nat, Coin>
    requires hi <= |chain|
  {
    map i | start <= i < hi && BatchOf(start, i) !in working && Keeps(w, chain[i]) :: chain[i]
  }

  lemma NewBatch(s: Loop, w: Wallet, chain: seq<Coin>, start: nat, maxThreads: nat)
    requires Consistent(s, w, chain, start, maxThreads) && s.numWorking < maxThreads && s.currentIndex < |chain|
    ensures Dispatched(s) !in s.working && s.currentIndex == From(start, Dispatched(s))
    ensures Consistent(Loop(Upto(start, |chain|, Dispatched(s)), s.doneCount, s.numWorking + 1,
                            s.working + {Dispatched(s)}, s.data), w, chain, start, maxThreads)
  {
  }

  lemma BatchHeard(s: Loop, w: Wallet, chain: seq<Coin>, start: nat, maxThreads: nat, k: nat)
    requires Consistent(s, w, chain, start, maxThreads) && k in s.working
    ensures From(start, k) < Upto(start, |chain|, k) <= s.currentIndex
    ensures Consistent(Loop(s.currentIndex, s.doneCount + 1, s.numWorking - 1, s.working - {k},
                            s.data + Owned(w, chain, From(start, k), Upto(start, |chain|, k))),
                       w, chain, start, maxThreads)
  {
  }

  lemma AllHeard(s: Loop, w: Wallet, chain: seq<Coin>, start: nat, maxThreads: nat)
    requires Consistent(s, w, chain, start, maxThreads)
    ensures s.doneCount == NumThreads(start, |chain|) ==>
              s.currentIndex == |chain| && s.data == Owned(w, chain, start, |chain|)
    ensures s.doneCount < NumThreads(start, |chain|) && s.working == {} ==> s.currentIndex < |chain|
  {
    if s.doneCount == NumThreads(start, |chain|) {
      assert s.working == {};
    }
  }

  /** Every index handed out lies in exactly one of the dispatched batches. */
  lemma InOneBatch(s: Loop, w: Wallet, chain: seq<Coin>, start: nat, maxThreads: nat, i: nat, k: nat)
    requires Consistent(s, w, chain, start, maxThreads) && start <= i < s.currentIndex
    ensures BatchOf(start, i) < Dispatched(s)
    ensures From(start, k) <= i < Upto(start, |chain|, k) <==> k == BatchOf(start, i)
    ensures From(start, k) == start + 5000 * k
  {
  }

  /** The default branch: starts a worker on the next batch when there is room for one. */
  method Dispatch(s: Loop, ghost w: Wallet, chain: seq<Coin>, start: nat, maxThreads: nat) returns (t: Loop)
    requires Consistent(s, w, chain, start, maxThreads)
    ensures Consistent(t, w, chain, start, maxThreads)
    ensures t.doneCount == s.doneCount && Turn(s, t, Nothing, chain, maxThreads)
    ensures (t.doneCount, t.working) == Next(s.doneCount, s.working, NumThreads(start, |chain|), maxThreads, Nothing)
    ensures Dispatched(t) == Dispatched(s) + (if s.numWorking < maxThreads && s.currentIndex < |chain| then 1 else 0)
  {
    t := s;
    if s.numWorking < maxThreads && s.currentIndex < |chain| {
      var nextIndex := s.currentIndex + BATCH_SIZE;
      if nextIndex > |chain| {
        nextIndex := |chain|;
      }
      NewBatch(s, w, chain, start, maxThreads);
      t := Loop(nextIndex, s.doneCount, s.numWorking + 1, s.working + {Dispatched(s)}, s.data);
    }
  }

  /** A worker's coins are merged. */
  method Receive(s: Loop, w: Wallet, chain: seq<Coin>, start: nat, ghost maxThreads: nat, k: nat) returns (t: Loop)
    requires Consistent(s, w, chain, start, maxThreads) && k in s.working
    ensures Consistent(t, w, chain, start, maxThreads)
    ensures t.doneCount == s.doneCount + 1 && Turn(s, t, Status(k, true), chain, maxThreads)
  {
    BatchHeard(s, w, chain, start, maxThreads, k);
    var lo, hi := From(start, k), Upto(start, |chain|, k);
    var data := GetCoinsByIndices(w, map i | lo <= i < hi :: chain[i]);
    assert data == Owned(w, chain, lo, hi);
    t := Loop(s.currentIndex, s.doneCount + 1, s.numWorking - 1, s.working - {k}, s.data + data);
  }

  /** What one event does to the number of batches heard and the batches at work, of n. */
  ghost function Next(done: nat, working: set<nat>, n: nat, maxThreads: nat, e: Event): (nat, set<nat>) {
    match e
    case Status(k, ok) => if ok && k in working then (done + 1, working - {k}) else (done, working)
    case Nothing =>
      if |working| < maxThreads && done + |working| < n then (done, working + {done + |working|}) else (done, working)
  }

  /** The loop from event i on: it ends with the message of a failed worker, or when all batches are heard. */
  ghost function Play(done: nat, working: set<nat>, n: nat, maxThreads: nat, events: seq<Event>, i: nat)
    : (SyncEnd, nat, set<nat>)
    requires i <= |events|
    decreases |events| - i
  {
    if i == |events| then (StillRunning, done, working)
    else if events[i].Status? && !events[i].ok && events[i].batch in working then (FetchFailed, done, working)
    else
      var (done', working') := Next(done, working, n, maxThreads, events[i]);
      if done' == n then (Complete, done', working') else Play(done', working', n, maxThreads, events, i + 1)
  }

  // ---- Progress ----

  /** A schedule of n batches: the loop finds nothing to read at place p[k] while fewer than maxThreads of the earlier
      batches are still to be heard, and later, at place q[k], the message of batch k. */
  ghost predicate Schedule(events: seq<Event>, n: nat, maxThreads: nat, p: seq<nat>, q: seq<nat>) {
    && |p| == |q| == n
    && (forall k :: 0 <= k < n ==> p[k] < q[k] < |events| && events[p[k]] == Nothing && events[q[k]] == Status(k, true))
    && (forall j, k :: 0 <= j < k < n ==> p[j] < p[k])
    && (forall k :: 0 <= k < n ==> |Unheard(q, k, p[k])| < maxThreads)
  }

  /** The batches before batch k whose messages come after place m. */
  ghost function Unheard(q: seq<nat>, k: nat, m: nat): set<nat>
    requires k <= |q|
  {
    set j | 0 <= j < k && q[j] > m
  }

  ghost predicate NoFailure(events: seq<Event>) {
    forall k :: Status(k, false) !in events
  }

  /** Every worker is started, none fails, and each is heard. */
  ghost predicate Favourable(events: seq<Event>, n: nat, maxThreads: nat) {
    NoFailure(events) && exists p, q :: Schedule(events, n, maxThreads, p, q)
  }

  /** After m events of a schedule: the batches whose places have come are started and heard. */
  ghost predicate OnSchedule(s: Loop, p: seq<nat>, q: seq<nat>, m: nat) {
    && |p| == |q|
    && (forall k :: 0 <= k < |p| && p[k] < m ==> k < Dispatched(s))
    && (forall k :: 0 <= k < |q| && q[k] < m ==> k < Dispatched(s) && k !in s.working)
  }

  /** At a place for batch k there is room for it, unless it has been started before. */
  lemma Room(s: Loop, w: Wallet, chain: seq<Coin>, start: nat, maxThreads: nat, events: seq<Event>, p: seq<nat>,
      q: seq<nat>, k: nat)
    requires Consistent(s, w, chain, start, maxThreads) && start <= |chain|
    requires Schedule(events, NumThreads(start, |chain|), maxThreads, p, q) && k < |p| && OnSchedule(s, p, q, p[k])
    ensures k < Dispatched(s) || (k == Dispatched(s) && s.numWorking < maxThreads && s.currentIndex < |chain|)
  {
    if k >= Dispatched(s) {
      assert k == 0 || p[k - 1] < p[k];
      forall j | j in s.working
        ensures j in Unheard(q, k, p[k])
      {
        assert q[j] != p[k];
      }
      Within(s.working, Unheard(q, k, p[k]));
    }
  }

  lemma Within(a: set<nat>, b: set<nat>)
    requires a <= b
    ensures |a| <= |b|
  {
    assert b == a + (b - a);
  }

  /** What one event does to the loop. */
  ghost predicate Turn(s: Loop, t: Loop, e: Event, chain: seq<Coin>, maxThreads: nat) {
    match e
    case Status(k, ok) => Dispatched(t) == Dispatched(s) && t.working == s.working - {k}
    case Nothing =>
      if s.numWorking < maxThreads && s.currentIndex < |chain|
      then Dispatched(t) == Dispatched(s) + 1 && t.working == s.working + {Dispatched(s)}
      else t == s
  }

  lemma OnScheduleStep(s: Loop, t: Loop, w: Wallet, chain: seq<Coin>, start: nat, maxThreads: nat, events: seq<Event>,
      p: seq<nat>, q: seq<nat>, n: nat)
    requires Consistent(s, w, chain, start, maxThreads) && start <= |chain| && n < |events|
    requires Schedule(events, NumThreads(start, |chain|), maxThreads, p, q) && OnSchedule(s, p, q, n)
    requires Turn(s, t, events[n], chain, maxThreads)
    ensures OnSchedule(t, p, q, n + 1)
  {
    forall k | 0 <= k < |p| && p[k] == n
      ensures k < Dispatched(t)
    {
      Room(s, w, chain, start, maxThreads, events, p, q, k);
    }
    forall k | 0 <= k < |q| && q[k] == n
      ensures k < Dispatched(t) && k !in t.working
    {
      assert p[k] < n;
    }
  }

  /** When the last place of a schedule has passed, all is heard. */
  lemma AllOnSchedule(s: Loop, w: Wallet, chain: seq<Coin>, start: nat, maxThreads: nat, events: seq<Event>,
      p: seq<nat>, q: seq<nat>)
    requires Consistent(s, w, chain, start, maxThreads) && start <= |chain|
    requires Schedule(events, NumThreads(start, |chain|), maxThreads, p, q) && OnSchedule(s, p, q, |events|)
    ensures s.doneCount == NumThreads(start, |chain|)
  {
    assert forall k :: 0 <= k < |q| ==> q[k] < |events|;
    assert s.working == {};
    if |p| > 0 {
      assert q[|p| - 1] < |events|;
    }
  }

  /** One worker after the other: a schedule for every number of threads. */
  ghost function OneByOne(n: nat): (events: seq<Event>)
    ensures |events| == 2 * n
    ensures forall k :: 0 <= k < n ==> events[2 * k] == Nothing && events[2 * k + 1] == Status(k, true)
    ensures NoFailure(events)
  {
    if n == 0 then [] else
      var before := OneByOne(n - 1);
      var events := before + [Nothing, Status(n - 1, true)];
      assert forall e :: e in events <==> e in before || e == Nothing || e == Status(n - 1, true);
      events
  }

  lemma OneByOneIsFavourable(n: nat, maxThreads: nat)
    requires maxThreads >= 1
    ensures Favourable(OneByOne(n), n, maxThreads)
  {
    var p, q := seq(n, k requires 0 <= k < n => 2 * k), seq(n, k requires 0 <= k < n => 2 * k + 1);
    forall k | 0 <= k < n
      ensures |Unheard(q, k, p[k])| < maxThreads
    {
      assert Unheard(q, k, p[k]) == {};
    }
    assert Schedule(OneByOne(n), n, maxThreads, p, q);
  }

  /** The body of the loop. */
  method Handle(s: Loop, w: Wallet, chain: seq<Coin>, start: nat, maxThreads: nat, e: Event)
    returns (failed: bool, t: Loop)
    requires Consistent(s, w, chain, start, maxThreads) && maxThreads >= 1 && s.doneCount < NumThreads(start, |chain|)
    ensures failed <==> e.Status? && !e.ok && e.batch in s.working
    ensures failed ==> t == s
    ensures !failed ==> Consistent(t, w, chain, start, maxThreads) && Turn(s, t, e, chain, maxThreads)
    ensures !failed ==>
              (t.doneCount, t.working) == Next(s.doneCount, s.working, NumThreads(start, |chain|), maxThreads, e)
    ensures e == Nothing ==> t.working != {} && t.doneCount < NumThreads(start, |chain|)
  {
    failed, t := false, s;
    match e {
      case Status(k, ok) =>
        if k in s.working {
          if !ok {
            return true, s;
          }
          t := Receive(s, w, chain, start, maxThreads, k);
        }
      case Nothing =>
        AllHeard(s, w, chain, start, maxThreads);
        t := Dispatch(s, w, chain, start, maxThreads);
    }
  }

  /** The loop, for any order of events, refines Play; a message of a worker that is not running cannot occur and is
      skipped. The state is consistent at every moment. On normal exit the coins are exactly the owned ones from
      start on; it fails only on the message of a failed worker, and after it found nothing to read a worker is at
      work. When every batch finds room and is heard in the end, the loop exits normally. */
  method Collect(w: Wallet, chain: seq<Coin>, start: nat, maxThreads: nat, events: seq<Event>)
    returns (end: SyncEnd, s: Loop)
    requires start < |chain| && maxThreads >= 1
    ensures Consistent(s, w, chain, start, maxThreads)
    ensures end.Complete? ==> s.data == Owned(w, chain, start, |chain|)
    ensures end.StillRunning? ==> s.working != {} || (s.numWorking < maxThreads && s.currentIndex < |chain|)
    ensures end.StillRunning? && events != [] && events[|events| - 1] == Nothing ==> s.working != {}
    ensures end.FetchFailed? ==> exists k :: k in s.working && Status(k, false) in events
    ensures Favourable(events, NumThreads(start, |chain|), maxThreads) ==> end.Complete?
    ensures (end, s.doneCount, s.working) == Play(0, {}, NumThreads(start, |chain|), maxThreads, events, 0)
  {
    var numThreads := NumThreads(start, |chain|);
    ghost var favourable, p, q := Favourable(events, numThreads, maxThreads), [], [];
    if favourable {
      p, q :| Schedule(events, numThreads, maxThreads, p, q);
    }
    s := Loop(start, 0, 0, {}, map[]);
    assert Consistent(s, w, chain, start, maxThreads);
    for n := 0 to |events|
      invariant Consistent(s, w, chain, start, maxThreads) && s.doneCount < numThreads
      invariant n > 0 && events[n - 1] == Nothing ==> s.working != {}
      invariant favourable ==> OnSchedule(s, p, q, n)
      invariant Play(0, {}, numThreads, maxThreads, events, 0) ==
                Play(s.doneCount, s.working, numThreads, maxThreads, events, n)
    {
      ghost var before := s;
      var failed;
      failed, s := Handle(s, w, chain, start, maxThreads, events[n]);
      if failed {
        return FetchFailed, s;
      }
      if favourable {
        OnScheduleStep(before, s, w, chain, start, maxThreads, events, p, q, n);
      }
      if s.doneCount == numThreads {
        AllHeard(s, w, chain, start, maxThreads);
        return Complete, s;
      }
    }
    AllHeard(s, w, chain, start, maxThreads);
    if favourable {
      AllOnSchedule(s, w, chain, start, maxThreads, events, p, q);
    }
    end := StillRunning;
  }
}
