/** The rounds of ConsolidatePRVs of incclient/tx_consolidate.go: slices of the UTXO list are spent by concurrent
    workers, each into one coin, until at most ten coins are left. A transaction may take effect before its worker
    reports, after its worker has reported failure, rounds later, or never. */
module Consolidation {
  import opened MachineInts

  const MAX_INPUT_SIZE: nat := 30
  const DEFAULT_PRV_FEE: uint64 := 100000000
  const MAX_UTXOS_AFTER_CONSOLIDATED: nat := 10

  // ---- The chain ----

  /** The values of all coins ever made, and which of them are spent. */
  datatype Chain = Chain(values: seq<uint64>, spent: set<nat>)

  ghost function UnspentCoins(c: Chain): set<nat> {
    set k | 0 <= k < |c.values| && k !in c.spent
  }

  /** The worth of the unspent coins among the first n. */
  ghost function Worth(values: seq<uint64>, spent: set<nat>, n: nat): (t: int)
    requires n <= |values|
    ensures t >= 0
  {
    if n == 0 then 0 else Worth(values, spent, n - 1) + if n - 1 in spent then 0 else values[n - 1] as int
  }

  ghost function Total(c: Chain): (t: int)
    ensures t >= 0
  {
    Worth(c.values, c.spent, |c.values|)
  }

  predicate Distinct(inputs: seq<nat>) {
    forall i, j :: 0 <= i < j < |inputs| ==> inputs[i] != inputs[j]
  }

  /** Coins that a transaction can name. */
  predicate AreCoins(values: seq<uint64>, inputs: seq<nat>) {
    forall i :: 0 <= i < |inputs| ==> inputs[i] < |values|
  }

  function InputTotal(values: seq<uint64>, inputs: seq<nat>): (t: int)
    requires AreCoins(values, inputs)
    ensures t >= 0
  {
    if inputs == [] then 0
    else InputTotal(values, inputs[..|inputs| - 1]) + values[inputs[|inputs| - 1]] as int
  }

  function Coins(inputs: seq<nat>): set<nat> {
    set i | i in inputs
  }

  /** The transaction can take effect: its coins are unspent and worth more than the fee. */
  predicate CanLand(c: Chain, inputs: seq<nat>) {
    && |inputs| >= 2 && Distinct(inputs) && AreCoins(c.values, inputs)
    && (forall i :: 0 <= i < |inputs| ==> inputs[i] !in c.spent)
    && InputTotal(c.values, inputs) > DEFAULT_PRV_FEE as int
  }

  /** It spends its coins and makes one worth them less the fee. */
  function Land(c: Chain, inputs: seq<nat>): Chain
    requires CanLand(c, inputs) && InputTotal(c.values, inputs) < TWO64
  {
    Chain(c.values + [(InputTotal(c.values, inputs) - DEFAULT_PRV_FEE as int) as uint64], c.spent + Coins(inputs))
  }

  lemma {:induction false} SpendOne(values: seq<uint64>, spent: set<nat>, k: nat, n: nat)
    requires n <= |values| && k < |values| && k !in spent
    ensures Worth(values, spent + {k}, n) == Worth(values, spent, n) - if k < n then values[k] as int else 0
  {
    if n > 0 {
      SpendOne(values, spent, k, n - 1);
    }
  }

  lemma {:induction false} SpendAll(values: seq<uint64>, spent: set<nat>, inputs: seq<nat>)
    requires Distinct(inputs) && AreCoins(values, inputs) && forall i :: 0 <= i < |inputs| ==> inputs[i] !in spent
    ensures Worth(values, spent + Coins(inputs), |values|) == Worth(values, spent, |values|)
      - InputTotal(values, inputs)
    ensures |Coins(inputs)| == |inputs|
    decreases |inputs|
  {
    if inputs == [] {
      assert spent + Coins(inputs) == spent;
    } else {
      var n := |inputs| - 1;
      var init, last := inputs[..n], inputs[n];
      SpendAll(values, spent, init);
      assert last !in Coins(init);
      assert Coins(inputs) == Coins(init) + {last};
      SpendOne(values, spent + Coins(init), last, |values|);
      assert spent + Coins(inputs) == spent + Coins(init) + {last};
    }
  }

  lemma {:induction false} WorthPrefix(values: seq<uint64>, more: seq<uint64>, spent: set<nat>, n: nat)
    requires n <= |values|
    ensures Worth(values + more, spent, n) == Worth(values, spent, n)
  {
    if n > 0 {
      WorthPrefix(values, more, spent, n - 1);
    }
  }

  /** No coin is spent before it is made. */
  ghost predicate Sound(c: Chain) {
    forall k :: k in c.spent ==> k < |c.values|
  }

  /** The value that m transactions took from the chain `before`, and the coins they removed at least. */
  ghost predicate Paid(before: Chain, after: Chain, m: nat) {
    && Sound(after) && Total(after) + m * DEFAULT_PRV_FEE as int == Total(before)
    && |UnspentCoins(after)| + m <= |UnspentCoins(before)|
  }

  lemma LandTotal(c: Chain, inputs: seq<nat>)
    requires Sound(c) && CanLand(c, inputs)
    ensures InputTotal(c.values, inputs) <= Total(c)
    ensures InputTotal(c.values, inputs) < TWO64 ==>
              Total(Land(c, inputs)) + DEFAULT_PRV_FEE as int == Total(c) && Sound(Land(c, inputs))
  {
    SpendAll(c.values, c.spent, inputs);
    if InputTotal(c.values, inputs) < TWO64 {
      var d := Land(c, inputs);
      WorthPrefix(c.values, d.values[|c.values|..], d.spent, |c.values|);
      assert |c.values| !in d.spent;
    }
  }

  lemma LandCount(c: Chain, inputs: seq<nat>)
    requires Sound(c) && CanLand(c, inputs) && InputTotal(c.values, inputs) < TWO64
    ensures |UnspentCoins(Land(c, inputs))| + 1 <= |UnspentCoins(c)|
  {
    SpendAll(c.values, c.spent, inputs);
    var u, s := UnspentCoins(c), Coins(inputs);
    assert UnspentCoins(Land(c, inputs)) == u - s + {|c.values|};
    Exchanged(u, s, |c.values|);
  }

  lemma Exchanged(u: set<nat>, s: set<nat>, x: nat)
    requires s <= u && x !in u
    ensures |u - s + {x}| == |u| - |s| + 1
  {
    assert |u - s| == |u| - |s|;
  }

  /** A transaction that takes effect costs one fee and removes a coin at least. */
  lemma LandIsPaid(before: Chain, c: Chain, inputs: seq<nat>, m: nat)
    requires Paid(before, c, m) && CanLand(c, inputs) && Total(before) < TWO64
    ensures InputTotal(c.values, inputs) < TWO64 && Paid(before, Land(c, inputs), m + 1)
  {
    LandTotal(c, inputs);
    LandCount(c, inputs);
  }

  lemma PaidTwice(a: Chain, b: Chain, c: Chain, m: nat, n: nat)
    requires Paid(a, b, m) && Paid(b, c, n)
    ensures Paid(a, c, m + n)
  {
  }

  // ---- Dispatching ----

  /** Where slice k of a list of n coins begins; the slice ends where slice k + 1 begins. */
  function Start(n: nat, k: nat): (i: nat)
    ensures i <= n && (i < n ==> i == MAX_INPUT_SIZE * k)
  {
    if MAX_INPUT_SIZE * k < n then MAX_INPUT_SIZE * k else n
  }

  function Size(n: nat, k: nat): nat {
    Start(n, k + 1) - Start(n, k)
  }

  /** The slice given to worker k. */
  function Slice(list: seq<nat>, k: nat): (slice: seq<nat>)
    ensures |slice| == Size(|list|, k)
    ensures forall i :: 0 <= i < |slice| ==> 30 * k + i < |list| && slice[i] == list[30 * k + i]
  {
    list[Start(|list|, k)..Start(|list|, k + 1)]
  }

  /** The first m slices. */
  function Slices(list: seq<nat>, m: nat): (slices: seq<seq<nat>>)
    ensures |slices| == m && forall k :: 0 <= k < m ==> slices[k] == Slice(list, k)
  {
    seq(m, k requires 0 <= k < m => Slice(list, k))
  }

  /** As many workers as the threads allow, at least one, or so many that less than two coins are left. */
  ghost predicate Staffed(n: nat, numThreads: int, numWorkers: nat) {
    (numWorkers == 1 || numWorkers <= numThreads) && (numWorkers >= numThreads || n - Start(n, numWorkers) < 2)
  }

  /** The number of workers: one for each slice of at least two coins, as far as the threads go. */
  ghost function Workers(n: nat, numThreads: int): nat
  {
    if numThreads <= 1 then 1 else if numThreads < (n + 28) / 30 then numThreads else (n + 28) / 30
  }

  lemma StaffedWorkers(n: nat, numThreads: int, numWorkers: nat)
    requires n > MAX_UTXOS_AFTER_CONSOLIDATED && numWorkers >= 1 && Staffed(n, numThreads, numWorkers)
    requires Size(n, numWorkers - 1) >= 2
    ensures numWorkers == Workers(n, numThreads)
  {
  }

  /** The dispatching loop: the number of workers started. Worker k gets slice k, so slices of different workers
      share no position of the list. */
  method Dispatch(n: nat, numThreads: int) returns (numWorkers: nat)
    requires n > MAX_UTXOS_AFTER_CONSOLIDATED
    ensures numWorkers >= 1
    ensures forall k :: 0 <= k < numWorkers ==> 2 <= Size(n, k) <= 30
    ensures forall k, l :: 0 <= k < l < numWorkers ==> Start(n, k) + Size(n, k) <= Start(n, l)
    ensures Staffed(n, numThreads, numWorkers) && numWorkers == Workers(n, numThreads)
  {
    numWorkers := 0;
    var current := 0;
    while current < n
      invariant current == MAX_INPUT_SIZE * numWorkers
      invariant numWorkers == 0 || numWorkers < numThreads
      invariant forall k :: 0 <= k < numWorkers ==> 2 <= Size(n, k) <= MAX_INPUT_SIZE
      decreases n - current
    {
      var next := current + MAX_INPUT_SIZE;
      if next > n {
        next := n;
      }
      if next - current < 2 {
        break;
      }
      assert Start(n, numWorkers) == current && Start(n, numWorkers + 1) == next;
      numWorkers := numWorkers + 1;
      if numWorkers >= numThreads {
        break;
      }
      current := current + MAX_INPUT_SIZE;
    }
    StaffedWorkers(n, numThreads, numWorkers);
  }

  /** A worker's transaction amount: its coins less the fee, or an error when nothing would be left. */
  method OutputAmount(values: seq<uint64>, inputs: seq<nat>) returns (enough: bool, amount: uint64)
    requires AreCoins(values, inputs) && InputTotal(values, inputs) < TWO64
    ensures enough <==> InputTotal(values, inputs) > DEFAULT_PRV_FEE as int
    ensures enough ==> amount as int == InputTotal(values, inputs) - 100_000_000
    ensures !enough ==> amount == 0
  {
    var totalAmount: uint64 := 0;
    for i := 0 to |inputs|
      invariant AreCoins(values, inputs[..i]) && totalAmount as int == InputTotal(values, inputs[..i])
    {
      PartOfInputs(values, inputs, i + 1);
      assert inputs[..i + 1][..i] == inputs[..i];
      totalAmount := totalAmount + values[inputs[i]];
    }
    assert inputs[..|inputs|] == inputs;
    if totalAmount <= DEFAULT_PRV_FEE {
      return false, 0;
    }
    return true, totalAmount - DEFAULT_PRV_FEE;
  }

  lemma {:induction false} PartOfInputs(values: seq<uint64>, inputs: seq<nat>, i: nat)
    requires AreCoins(values, inputs) && i <= |inputs|
    ensures AreCoins(values, inputs[..i]) && InputTotal(values, inputs[..i]) <= InputTotal(values, inputs)
    decreases |inputs|
  {
    if i < |inputs| {
      PartOfInputs(values, inputs[..|inputs| - 1], i);
      assert inputs[..|inputs| - 1][..i] == inputs[..i];
    } else {
      assert inputs[..i] == inputs;
    }
  }

  /** The transaction of a slice of unspent coins can take effect exactly when the coins are worth more than the fee. */
  lemma SliceCanLand(c: Chain, list: seq<nat>, k: nat)
    requires Distinct(list) && AreCoins(c.values, list) && forall i :: 0 <= i < |list| ==> list[i] !in c.spent
    requires Size(|list|, k) >= 2
    ensures AreCoins(c.values, Slice(list, k))
    ensures CanLand(c, Slice(list, k)) <==> InputTotal(c.values, Slice(list, k)) > 100_000_000
  {
  }

  // ---- One round ----

  /** What the main thread meets at its select: the message of the worker of transaction t, the timer or nothing.
      Lands is the moment a transaction takes effect on the chain, which the main thread does not see. */
  datatype Event = Lands(t: nat) | Done(t: nat) | Fails(t: nat) | Quiet | TimeOut

  datatype RoundEnd = Finished | AllFailed | TimedOut | Waiting

  /** The chain, the transactions of all rounds that have landed, and who has reported in this round. */
  datatype Progress = Progress(chain: Chain, landed: set<nat>, done: set<nat>, failed: set<nat>)

  /** Transactions from `base` on are those of this round. Any transaction may land once; its worker reports once,
      and success only after it has landed. Other events cannot occur. */
  predicate Enabled(p: Progress, txs: seq<seq<nat>>, base: nat, e: Event) {
    match e
    case Lands(t) => t < |txs| && t !in p.landed && CanLand(p.chain, txs[t])
    case Done(t) => base <= t < |txs| && t in p.landed && t !in p.done && t !in p.failed
    case Fails(t) => base <= t < |txs| && t !in p.done && t !in p.failed
    case Quiet => true
    case TimeOut => true
  }

  predicate InRange(s: set<nat>, lo: nat, hi: nat) {
    forall t :: t in s ==> lo <= t < hi
  }

  predicate Everyone(s: set<nat>, lo: nat, hi: nat) {
    forall t :: lo <= t < hi ==> t in s
  }

  lemma {:induction false} FullSet(s: set<nat>, lo: nat, hi: nat)
    requires lo <= hi && InRange(s, lo, hi)
    ensures |s| <= hi - lo && (|s| == hi - lo <==> Everyone(s, lo, hi))
    decreases hi
  {
    if lo == hi {
      assert s == {};
    } else {
      var rest := s - {hi - 1};
      FullSet(rest, lo, hi - 1);
      assert s == if hi - 1 in s then rest + {hi - 1} else rest;
      assert hi - 1 in s && Everyone(rest, lo, hi - 1) <==> Everyone(s, lo, hi) by {
        assert Everyone(s, lo, hi) ==> forall t :: lo <= t < hi - 1 ==> t in rest;
      }
    }
  }

  /** The counters agree with the reports of this round. */
  ghost predicate Counted(p: Progress, base: nat, n: nat, numDone: nat, numErr: nat) {
    && InRange(p.done, base, n) && InRange(p.failed, base, n) && p.done !! p.failed && p.done <= p.landed
    && |p.done| == numDone && |p.failed| == numErr
  }

  /** Every landing since the start of the round has been paid for; only known transactions land. */
  ghost predicate Accounted(start: Chain, landed: set<nat>, p: Progress, n: nat) {
    landed <= p.landed && InRange(p.landed, 0, n) && Paid(start, p.chain, |p.landed - landed|)
  }

  /** What one event does. */
  ghost function Next(p: Progress, txs: seq<seq<nat>>, base: nat, e: Event): Progress {
    match e
    case Lands(t) =>
      if t < |txs| && t !in p.landed && CanLand(p.chain, txs[t]) && InputTotal(p.chain.values, txs[t]) < TWO64
      then p.(chain := Land(p.chain, txs[t]), landed := p.landed + {t}) else p
    case Done(t) =>
      if base <= t < |txs| && t in p.landed && t !in p.done && t !in p.failed then p.(done := p.done + {t}) else p
    case Fails(t) =>
      if base <= t < |txs| && t !in p.done && t !in p.failed then p.(failed := p.failed + {t}) else p
    case _ => p
  }

  /** A round, by the sets of workers that have reported and without counters: it ends with the timer, or when nothing
      is to be read and every worker has reported. */
  ghost function Play(p: Progress, txs: seq<seq<nat>>, base: nat, events: seq<Event>, i: nat): (RoundEnd, Progress)
    requires i <= |events|
    decreases |events| - i
  {
    if i == |events| then (Waiting, p)
    else
      var q := Next(p, txs, base, events[i]);
      if events[i] == TimeOut then (TimedOut, q)
      else if events[i] == Quiet && Everyone(q.done + q.failed, base, |txs|)
      then (if Everyone(q.failed, base, |txs|) then AllFailed else Finished, q)
      else Play(q, txs, base, events, i + 1)
  }

  /** All workers have reported exactly when the counters add up to their number. */
  lemma AllReported(p: Progress, base: nat, n: nat, numDone: nat, numErr: nat)
    requires base <= n && Counted(p, base, n, numDone, numErr)
    ensures numDone + numErr <= n - base
    ensures numDone + numErr == n - base <==> Everyone(p.done + p.failed, base, n)
  {
    FullSet(p.done + p.failed, base, n);
  }

  /** What each way of ending the round says about its workers. */
  ghost predicate Ended(end: RoundEnd, p: Progress, base: nat, n: nat, events: seq<Event>) {
    match end
    case Finished => Everyone(p.done + p.failed, base, n) && !Everyone(p.failed, base, n)
    case AllFailed => Everyone(p.failed, base, n)
    case TimedOut => TimeOut in events
    case Waiting =>
      TimeOut !in events && (events != [] && events[|events| - 1] == Quiet ==> !Everyone(p.done + p.failed, base, n))
  }

  lemma {:induction false} PlayEnds(p: Progress, txs: seq<seq<nat>>, base: nat, events: seq<Event>, i: nat)
    requires i <= |events|
    ensures var (end, q) := Play(p, txs, base, events, i); (i < |events| || events == []) ==>
      Ended(end, q, base, |txs|, events[i..])
    decreases |events| - i
  {
    if i < |events| {
      PlayEnds(Next(p, txs, base, events[i]), txs, base, events, i + 1);
      assert events[i..] == [events[i]] + events[i + 1..];
    }
  }

  /** Whether all have failed, by the counters and by the sets. */
  lemma Reported(p: Progress, base: nat, n: nat, numDone: nat, numErr: nat)
    requires base < n && Counted(p, base, n, numDone, numErr) && numDone + numErr == n - base
    ensures Everyone(p.failed, base, n) <==> numErr == n - base
  {
    FullSet(p.failed, base, n);
  }

  /** The default branch of the select: whether the counters end the round, and how. */
  method Check(numWorkers: nat, numDone: nat, numErr: nat) returns (over: bool, end: RoundEnd)
    requires numWorkers >= 1
    ensures over <==> numDone == numWorkers || numErr == numWorkers || numDone + numErr == numWorkers
    ensures over ==> end == (if numErr == numWorkers && numDone != numWorkers then AllFailed else Finished)
  {
    if numDone == numWorkers {
      return true, Finished;
    }
    if numErr == numWorkers {
      return true, AllFailed;
    }
    return numDone + numErr == numWorkers, Finished;
  }

  /** A transaction lands. */
  method Landing(p: Progress, txs: seq<seq<nat>>, t: nat, ghost start: Chain, ghost landed: set<nat>)
    returns (q: Progress)
    requires t < |txs| && t !in p.landed && CanLand(p.chain, txs[t])
    requires Accounted(start, landed, p, |txs|) && Total(start) < TWO64
    ensures Accounted(start, landed, q, |txs|)
    ensures InputTotal(p.chain.values, txs[t]) < TWO64
    ensures q == p.(chain := Land(p.chain, txs[t]), landed := p.landed + {t})
  {
    LandIsPaid(start, p.chain, txs[t], |p.landed - landed|);
    q := p.(chain := Land(p.chain, txs[t]), landed := p.landed + {t});
    assert q.landed - landed == p.landed - landed + {t};
  }

  lemma DoneCounted(p: Progress, base: nat, n: nat, numDone: nat, numErr: nat, t: nat)
    requires Counted(p, base, n, numDone, numErr) && base <= t < n && t in p.landed && t !in p.done && t !in p.failed
    ensures Counted(p.(done := p.done + {t}), base, n, numDone + 1, numErr)
  {
  }

  lemma FailCounted(p: Progress, base: nat, n: nat, numDone: nat, numErr: nat, t: nat)
    requires Counted(p, base, n, numDone, numErr) && base <= t < n && t !in p.done && t !in p.failed
    ensures Counted(p.(failed := p.failed + {t}), base, n, numDone, numErr + 1)
  {
  }

  lemma LandCounted(p: Progress, q: Progress, base: nat, n: nat, numDone: nat, numErr: nat)
    requires Counted(p, base, n, numDone, numErr)
    requires q.done == p.done && q.failed == p.failed && p.landed <= q.landed
    ensures Counted(q, base, n, numDone, numErr)
  {
  }

  /** A worker reports. */
  method Report(p: Progress, txs: seq<seq<nat>>, base: nat, t: nat, ok: bool, numDone: nat, numErr: nat)
    returns (q: Progress, numDone': nat, numErr': nat)
    requires base <= t < |txs| && t !in p.done && t !in p.failed && (ok ==> t in p.landed)
    requires Counted(p, base, |txs|, numDone, numErr)
    ensures Counted(q, base, |txs|, numDone', numErr')
    ensures q == Next(p, txs, base, if ok then Done(t) else Fails(t)) && q.chain == p.chain && q.landed == p.landed
  {
    if ok {
      DoneCounted(p, base, |txs|, numDone, numErr, t);
      return p.(done := p.done + {t}), numDone + 1, numErr;
    }
    FailCounted(p, base, |txs|, numDone, numErr, t);
    return p.(failed := p.failed + {t}), numDone, numErr + 1;
  }

  lemma StillAccounted(start: Chain, landed: set<nat>, p: Progress, q: Progress, n: nat)
    requires Accounted(start, landed, p, n) && q.chain == p.chain && q.landed == p.landed
    ensures Accounted(start, landed, q, n)
  {
  }

  /** A transaction lands or a worker reports. */
  method Receive(p: Progress, txs: seq<seq<nat>>, base: nat, e: Event, numDone: nat, numErr: nat, ghost start: Chain,
      ghost landed: set<nat>)
    returns (q: Progress, numDone': nat, numErr': nat)
    requires base <= |txs| && Enabled(p, txs, base, e) && Total(start) < TWO64
    requires Counted(p, base, |txs|, numDone, numErr) && Accounted(start, landed, p, |txs|)
    ensures Counted(q, base, |txs|, numDone', numErr') && Accounted(start, landed, q, |txs|)
    ensures q == Next(p, txs, base, e)
  {
    q, numDone', numErr' := p, numDone, numErr;
    match e {
      case Lands(t) =>
        q := Landing(p, txs, t, start, landed);
        LandCounted(p, q, base, |txs|, numDone, numErr);
      case Done(t) =>
        q, numDone', numErr' := Report(p, txs, base, t, true, numDone, numErr);
        StillAccounted(start, landed, p, q, |txs|);
      case Fails(t) =>
        q, numDone', numErr' := Report(p, txs, base, t, false, numDone, numErr);
        StillAccounted(start, landed, p, q, |txs|);
      case Quiet =>
      case TimeOut =>
    }
  }

  /** The body of the waiting loop; an event that cannot occur is skipped. */
  method Turn(p: Progress, txs: seq<seq<nat>>, base: nat, e: Event, numDone: nat, numErr: nat, ghost start: Chain,
      ghost landed: set<nat>)
    returns (q: Progress, numDone': nat, numErr': nat, over: bool, end: RoundEnd)
    requires base < |txs| && Total(start) < TWO64
    requires Counted(p, base, |txs|, numDone, numErr) && Accounted(start, landed, p, |txs|)
    ensures Counted(q, base, |txs|, numDone', numErr') && Accounted(start, landed, q, |txs|)
    ensures q == Next(p, txs, base, e)
    ensures over <==> e == TimeOut || (e == Quiet && Everyone(q.done + q.failed, base, |txs|))
    ensures over ==> end == (if e == TimeOut then TimedOut
                             else if Everyone(q.failed, base, |txs|) then AllFailed else Finished)
    ensures over && end.Finished? ==> numDone' >= 1
    ensures over && end.AllFailed? ==> numDone' == 0
  {
    q, numDone', numErr', over, end := p, numDone, numErr, false, Waiting;
    if Enabled(p, txs, base, e) {
      q, numDone', numErr' := Receive(p, txs, base, e, numDone, numErr, start, landed);
      if e.TimeOut? {
        return q, numDone', numErr', true, TimedOut;
      }
      if e.Quiet? {
        over, end := Check(|txs| - base, numDone', numErr');
        AllReported(q, base, |txs|, numDone', numErr');
        if over {
          Reported(q, base, |txs|, numDone', numErr');
        }
      }
    }
  }

  /** The waiting loop, for any order of events. It refines the round without counters. A round ends normally only
      after every worker of it has reported, at least one of them success, and no message is left for the next round;
      once nothing is to be read and all have reported, it does end. The chain is accounted for at every moment. */
  method Collect(start: Chain, landed: set<nat>, txs: seq<seq<nat>>, base: nat, events: seq<Event>)
    returns (end: RoundEnd, numDone: nat, p: Progress)
    requires base < |txs| && InRange(landed, 0, base) && Sound(start) && Total(start) < TWO64
    ensures Accounted(start, landed, p, |txs|)
    ensures InRange(p.done, base, |txs|) && p.done <= p.landed && |p.done| == numDone
    ensures Ended(end, p, base, |txs|, events)
    ensures (end, p) == Play(Progress(start, landed, {}, {}), txs, base, events, 0)
    ensures end.Finished? ==> numDone >= 1
  {
    var numErr, over := 0, false;
    numDone, p := 0, Progress(start, landed, {}, {});
    assert p.landed - landed == {};
    for i := 0 to |events|
      invariant Counted(p, base, |txs|, numDone, numErr) && Accounted(start, landed, p, |txs|)
      invariant Play(Progress(start, landed, {}, {}), txs, base, events, 0) == Play(p, txs, base, events, i)
    {
      p, numDone, numErr, over, end := Turn(p, txs, base, events[i], numDone, numErr, start, landed);
      if over {
        PlayEnds(Progress(start, landed, {}, {}), txs, base, events, 0);
        return;
      }
    }
    end := Waiting;
    PlayEnds(Progress(start, landed, {}, {}), txs, base, events, 0);
  }

  // ---- The run ----

  datatype Listing = Listed(coins: seq<nat>) | Unavailable

  /** The node as the client sees it: in round r it lists the unspent coins in some order or not at all, and events
      come in some order. */
  datatype Node = Node(listing: (nat, Chain) -> Listing, events: nat -> seq<Event>)

  ghost predicate ListsAll(listing: Listing, chain: Chain) {
    listing.Listed? ==>
      Distinct(listing.coins) && forall k :: k in listing.coins <==> k in UnspentCoins(chain)
  }

  ghost predicate Honest(node: Node) {
    forall r: nat, chain: Chain :: ListsAll(node.listing(r, chain), chain)
  }

  lemma {:induction false} DistinctSize(list: seq<nat>)
    requires Distinct(list)
    ensures |Coins(list)| == |list|
  {
    if list != [] {
      var n := |list| - 1;
      DistinctSize(list[..n]);
      assert list[n] !in Coins(list[..n]);
      assert Coins(list) == Coins(list[..n]) + {list[n]};
    }
  }

  lemma ListSize(listing: Listing, chain: Chain)
    requires ListsAll(listing, chain) && listing.Listed?
    ensures |listing.coins| == |UnspentCoins(chain)|
  {
    DistinctSize(listing.coins);
    assert Coins(listing.coins) == UnspentCoins(chain);
  }

  /** What is known between rounds: value fell by one fee for each landed transaction, and `known` are those that the
      client knows of. */
  ghost predicate Running(initial: Chain, chain: Chain, landed: set<nat>, known: set<nat>, n: nat, rounds: nat) {
    && Paid(initial, chain, |landed|) && InRange(landed, 0, n) && known <= landed && rounds <= |known|
  }

  lemma NextRound(initial: Chain, chain: Chain, landed: set<nat>, known: set<nat>, n: nat, rounds: nat, p: Progress,
      m: nat)
    requires Running(initial, chain, landed, known, n, rounds) && Accounted(chain, landed, p, m)
    requires p.done <= p.landed && InRange(p.done, n, m)
    ensures |known + p.done| == |known| + |p.done| && |p.landed - landed| >= |p.done|
    ensures Running(initial, p.chain, p.landed, known + p.done, m, rounds + if |p.done| >= 1 then 1 else 0)
  {
    assert known !! p.done;
    assert p.done <= p.landed - landed;
    assert |p.landed - landed - p.done| == |p.landed - landed| - |p.done|;
    assert |p.landed - landed| == |p.landed| - |landed|;
    PaidTwice(initial, chain, p.chain, |landed|, |p.landed - landed|);
  }

  /** The run between two rounds: the chain, the transactions that have landed, and those of all rounds. */
  datatype Mark = Mark(chain: Chain, landed: set<nat>, txs: seq<seq<nat>>)

  /** Round r from this mark on, for the coins listed then. */
  ghost function Played(node: Node, numThreads: int, r: nat, m: Mark, coins: seq<nat>): (RoundEnd, Mark) {
    var more := m.txs + Slices(coins, Workers(|coins|, numThreads));
    var (end, p) := Play(Progress(m.chain, m.landed, {}, {}), more, |m.txs|, node.events(r), 0);
    (end, Mark(p.chain, p.landed, more))
  }

  type Player = (nat, Mark, seq<nat>) -> (RoundEnd, Mark)

  ghost function PlayerOf(node: Node, numThreads: int): Player {
    (r: nat, m: Mark, coins: seq<nat>) => Played(node, numThreads, r, m, coins)
  }

  /** The rounds are played so. */
  ghost predicate Plays(play: Player, node: Node, numThreads: int) {
    forall r, m, coins {:trigger Played(node, numThreads, r, m, coins)} ::
      play(r, m, coins) == Played(node, numThreads, r, m, coins)
  }

  /** More than ten coins are listed, and round r finishes and leads from one mark to the next. */
  ghost predicate Leads(node: Node, play: Player, r: nat, m: Mark, m': Mark) {
    match node.listing(r, m.chain)
    case Unavailable => false
    case Listed(coins) => |coins| > 10 && play(r, m, coins) == (Finished, m')
  }

  /** The run stops at this mark: without a listing, with at most ten coins, or with a round that does not finish. */
  ghost predicate Stops(node: Node, play: Player, r: nat, m: Mark, outcome: Outcome, chain: Chain,
    landed: set<nat>)
  {
    match node.listing(r, m.chain)
    case Unavailable => outcome == ListFailed && chain == m.chain && landed == m.landed
    case Listed(coins) =>
      if |coins| <= 10 then outcome == Consolidated && chain == m.chain && landed == m.landed
      else
        var (end, m') := play(r, m, coins);
        end != Finished && outcome == Failed(end) && chain == m'.chain && landed == m'.landed
  }

  /** Each round leads from one mark to the next. */
  ghost predicate Path(node: Node, play: Player, trace: seq<Mark>) {
    forall j {:trigger Leads(node, play, j, trace[j], trace[j + 1])} ::
      0 <= j < |trace| - 1 ==> Leads(node, play, j, trace[j], trace[j + 1])
  }

  lemma PathMore(node: Node, play: Player, trace: seq<Mark>, m: Mark)
    requires trace != [] && Path(node, play, trace)
    requires Leads(node, play, |trace| - 1, trace[|trace| - 1], m)
    ensures Path(node, play, trace + [m])
  {
    var more := trace + [m];
    forall j | 0 <= j < |more| - 1
      ensures Leads(node, play, j, more[j], more[j + 1])
    {
      if j < |trace| - 1 {
        assert Leads(node, play, j, trace[j], trace[j + 1]);
      }
    }
  }

  /** A run goes from mark to mark and stops at the last one. */
  ghost predicate Follows(node: Node, play: Player, trace: seq<Mark>, outcome: Outcome, chain: Chain,
    landed: set<nat>)
  {
    && trace != [] && Path(node, play, trace)
    && Stops(node, play, |trace| - 1, trace[|trace| - 1], outcome, chain, landed)
  }

  /** Round r on a list of all unspent coins. */
  method Round(node: Node, r: nat, coins: seq<nat>, numThreads: int, m: Mark, ghost play: Player)
    returns (end: RoundEnd, numDone: nat, p: Progress, m': Mark)
    requires |coins| > MAX_UTXOS_AFTER_CONSOLIDATED && Sound(m.chain) && Total(m.chain) < TWO64
    requires InRange(m.landed, 0, |m.txs|) && Plays(play, node, numThreads)
    ensures Accounted(m.chain, m.landed, p, |m'.txs|) && p.done <= p.landed && |p.done| == numDone
    ensures InRange(p.done, |m.txs|, |m'.txs|) && |m'.txs| >= |m.txs|
    ensures m'.chain == p.chain && m'.landed == p.landed
    ensures end.Finished? ==> numDone >= 1
    ensures end.TimedOut? ==> TimeOut in node.events(r)
    ensures play(r, m, coins) == (end, m')
  {
    var numWorkers := Dispatch(|coins|, numThreads);
    var more := m.txs + Slices(coins, numWorkers);
    end, numDone, p := Collect(m.chain, m.landed, more, |m.txs|, node.events(r));
    m' := Mark(p.chain, p.landed, more);
    assert Played(node, numThreads, r, m, coins) == (end, m');
  }

  datatype Outcome = Consolidated | BadVersion | ListFailed | Failed(end: RoundEnd)

  /** What is known of the run in round r, when the coins are listed. */
  ghost predicate AtRound(node: Node, initial: Chain, m: Mark, known: set<nat>, r: nat, coins: seq<nat>) {
    && Running(initial, m.chain, m.landed, known, |m.txs|, r) && node.listing(r, m.chain) == Listed(coins)
    && |coins| == |UnspentCoins(m.chain)|
  }

  method List(node: Node, r: nat, chain: Chain) returns (listing: Listing)
    requires Honest(node)
    ensures listing == node.listing(r, chain)
    ensures listing.Listed? ==> |listing.coins| == |UnspentCoins(chain)|
  {
    listing := node.listing(r, chain);
    assert ListsAll(node.listing(r, chain), chain);
    if listing.Listed? {
      ListSize(listing, chain);
    }
  }

  /** The rounds, from a first listing of the coins on. */
  method Rounds(node: Node, numThreads: int, initial: Chain, coins: seq<nat>, ghost play: Player)
    returns (outcome: Outcome, numTxs: nat, r: nat, m: Mark, ghost known: set<nat>, ghost trace: seq<Mark>)
    requires Plays(play, node, numThreads)
    requires Honest(node) && Total(initial) < TWO64 && AtRound(node, initial, Mark(initial, {}, []), {}, 0, coins)
    ensures Running(initial, m.chain, m.landed, known, |m.txs|, r) && |known| == numTxs
    ensures outcome.Consolidated? ==> |UnspentCoins(m.chain)| <= 10
    ensures outcome.Failed? && outcome.end.TimedOut? ==> TimeOut in node.events(r)
    ensures !outcome.BadVersion? && |trace| == r + 1 && trace[0] == Mark(initial, {}, [])
    ensures Follows(node, play, trace, outcome, m.chain, m.landed)
  {
    var utxoList := coins;
    m, numTxs, known, r := Mark(initial, {}, []), 0, {}, 0;
    trace := [m];
    while |utxoList| > MAX_UTXOS_AFTER_CONSOLIDATED
      invariant AtRound(node, initial, m, known, r, utxoList) && |known| == numTxs
      invariant |trace| == r + 1 && trace[0] == Mark(initial, {}, []) && trace[r] == m
      invariant Path(node, play, trace)
      decreases |utxoList|
    {
      var end, numDone, p, m' := Round(node, r, utxoList, numThreads, m, play);
      NextRound(initial, m.chain, m.landed, known, |m.txs|, r, p, |m'.txs|);
      numTxs, m, known := numTxs + numDone, m', known + p.done;
      if !end.Finished? {
        return Failed(end), numTxs, r, m, known, trace;
      }
      PathMore(node, play, trace, m);
      trace, r := trace + [m], r + 1;
      var listing := List(node, r, m.chain);
      if listing.Unavailable? {
        return ListFailed, numTxs, r, m, known, trace;
      }
      utxoList := listing.coins;
    }
    outcome := Consolidated;
  }

  /** Value is conserved up to one fee for each transaction that has landed, whether or not the client knows of it. A
      run that ends without an error leaves at most ten coins, and each round of it made a transaction that the
      client knows of. The run goes from round to round while rounds finish and more than ten coins are listed. */
  method ConsolidatePRVs(node: Node, version: int, numThreads: int, initial: Chain)
    returns (outcome: Outcome, numTxs: nat, rounds: nat, landed: set<nat>, ghost known: set<nat>, chain: Chain,
      ghost trace: seq<Mark>)
    requires Sound(initial) && Total(initial) < TWO64 && Honest(node)
    ensures Paid(initial, chain, |landed|) && known <= landed && |known| == numTxs
    ensures outcome.Consolidated? ==> |UnspentCoins(chain)| <= 10 && rounds <= numTxs
    ensures outcome.BadVersion? <==> version != 1 && version != 2
    ensures !outcome.BadVersion? ==>
              && |trace| == rounds + 1 && trace[0] == Mark(initial, {}, [])
              && Follows(node, PlayerOf(node, numThreads), trace, outcome, chain, landed)
    ensures outcome.BadVersion? ==> chain == initial && landed == {}
    ensures outcome.Failed? && outcome.end.TimedOut? ==> TimeOut in node.events(rounds)
  {
    numTxs, rounds, landed, known, chain, trace := 0, 0, {}, {}, initial, [Mark(initial, {}, [])];
    if version > 2 || version < 1 {
      return BadVersion, numTxs, rounds, landed, known, chain, trace;
    }
    ghost var play := PlayerOf(node, numThreads);
    var listing := List(node, 0, chain);
    if listing.Unavailable? {
      return ListFailed, numTxs, rounds, landed, known, chain, trace;
    }
    var m;
    outcome, numTxs, rounds, m, known, trace := Rounds(node, numThreads, initial, listing.coins, play);
    chain, landed := m.chain, m.landed;
  }
}
