/** The greedy coin selector chooseBestCoinsByAmount of incclient/tx_utils.go. */
module CoinSelection {
  import opened MachineInts

  /** A coin, told apart from coins of equal value by its key. */
  datatype PlainCoin = PlainCoin(value: uint64, publicKey: nat)

  datatype Selection = Chosen(coins: seq<PlainCoin>, indices: seq<nat>) | NotEnough

  ghost function Total(coins: seq<PlainCoin>): (t: int)
    ensures t >= 0
  {
    if coins == [] then 0 else Total(coins[..|coins| - 1]) + coins[|coins| - 1].value as int
  }

  ghost predicate Descending(coins: seq<PlainCoin>) {
    forall i, j :: 0 <= i < j < |coins| ==> coins[i].value >= coins[j].value
  }

  /** The indices name positions below n, in increasing order, and the coins at them. */
  ghost predicate Picks(list: seq<PlainCoin>, coins: seq<PlainCoin>, indices: seq<nat>, n: nat) {
    && |coins| == |indices| && n <= |list|
    && (forall k :: 0 <= k < |indices| ==> indices[k] < n && coins[k] == list[indices[k]])
    && (forall k, l :: 0 <= k < l < |indices| ==> indices[k] < indices[l])
  }

  /** No coin of positive value can be dropped. */
  ghost predicate Irredundant(coins: seq<PlainCoin>, required: int) {
    forall k :: 0 <= k < |coins| && coins[k].value > 0 ==> Total(coins) - coins[k].value as int < required
  }

  /** The coins at increasing positions of the list that cover the amount, none of positive value being spare. */
  ghost predicate Answer(list: seq<PlainCoin>, required: int, coins: seq<PlainCoin>, indices: seq<nat>) {
    Picks(list, coins, indices, |list|) && Total(coins) >= required && Irredundant(coins, required)
  }

  // ---- The greedy rule ----

  /** The worth of the chosen coins at positions below i. */
  ghost function Picked(list: seq<PlainCoin>, indices: seq<nat>, i: nat): (t: int)
    requires i <= |list|
  {
    if i == 0 then 0 else Picked(list, indices, i - 1) + if i - 1 in indices then list[i - 1].value as int else 0
  }

  /** With `rest` still to cover, coin i is taken when it fits into the rest or when the next one would not cover it;
      the last coin is taken when anything is left to cover. */
  ghost predicate Takes(list: seq<PlainCoin>, rest: int, i: nat)
    requires i < |list|
  {
    rest >= 0 &&
    if i + 1 < |list| then list[i].value as int <= rest || (list[i + 1].value as int) < rest else rest > 0
  }

  /** The rule and the choice agree on coin i. */
  ghost predicate Agrees(list: seq<PlainCoin>, required: int, indices: seq<nat>, i: nat)
    requires i < |list|
  {
    i in indices <==> Takes(list, required - Picked(list, indices, i), i)
  }

  /** Up to n, the rule decides which coins are chosen. */
  ghost predicate Greedy(list: seq<PlainCoin>, required: int, indices: seq<nat>, n: nat)
    requires n <= |list|
  {
    forall i :: 0 <= i < n ==> Agrees(list, required, indices, i)
  }

  /** The rule decides every coin, and the coins are those at the chosen positions. */
  ghost predicate ByRule(list: seq<PlainCoin>, required: int, coins: seq<PlainCoin>, indices: seq<nat>) {
    Greedy(list, required, indices, |list|) && Picked(list, indices, |list|) == Total(coins)
  }

  /** When more than the amount is chosen, the last coin is the least one that covers what was left. */
  ghost predicate LeastSufficient(list: seq<PlainCoin>, required: int, coins: seq<PlainCoin>, indices: seq<nat>) {
    |coins| == |indices| && Total(coins) > required && indices != [] ==>
      var j := indices[|indices| - 1];
      j < |list| && list[j].value as int > required - Picked(list, indices, j) &&
      forall k :: j < k < |list| ==> (list[k].value as int) < required - Picked(list, indices, j)
  }

  /** A coin is passed over only when it is worth more than was left to cover. */
  ghost predicate OnlyLargePassed(list: seq<PlainCoin>, required: int, indices: seq<nat>) {
    forall i :: 0 <= i < |list| - 1 && i !in indices ==> list[i].value as int > required - Picked(list, indices, i)
  }

  lemma {:induction false} PickedEarlier(list: seq<PlainCoin>, indices: seq<nat>, m: nat, i: nat)
    requires i <= m < |list|
    ensures Picked(list, indices + [m], i) == Picked(list, indices, i)
  {
    if i > 0 {
      PickedEarlier(list, indices, m, i - 1);
      assert i - 1 in indices + [m] <==> i - 1 in indices;
    }
  }

  lemma {:induction false} PickedLater(list: seq<PlainCoin>, indices: seq<nat>, m: nat, i: nat)
    requires m <= i <= |list| && forall k :: 0 <= k < |indices| ==> indices[k] < m
    ensures Picked(list, indices, i) == Picked(list, indices, m)
    decreases i
  {
    if m < i {
      PickedLater(list, indices, m, i - 1);
    }
  }

  /** Coin i is not taken. */
  lemma GreedySkips(list: seq<PlainCoin>, required: int, indices: seq<nat>, i: nat)
    requires i < |list| && Greedy(list, required, indices, i) && i !in indices
    requires !Takes(list, required - Picked(list, indices, i), i)
    ensures Greedy(list, required, indices, i + 1) && Picked(list, indices, i + 1) == Picked(list, indices, i)
  {
    assert Agrees(list, required, indices, i);
  }

  /** Coin i is taken. */
  lemma GreedyTakes(list: seq<PlainCoin>, required: int, indices: seq<nat>, i: nat)
    requires i < |list| && Greedy(list, required, indices, i) && Takes(list, required - Picked(list, indices, i), i)
    ensures Greedy(list, required, indices + [i], i + 1)
    ensures Picked(list, indices + [i], i + 1) == Picked(list, indices, i) + list[i].value as int
  {
    PickedEarlier(list, indices, i, i);
    assert (indices + [i])[|indices|] == i;
    forall k | 0 <= k < i + 1
      ensures Agrees(list, required, indices + [i], k)
    {
      PickedEarlier(list, indices, i, k);
      if k < i {
        assert Agrees(list, required, indices, k);
      }
      assert k in indices + [i] <==> k in indices || k == i;
    }
  }

  /** After the amount is exceeded no more coins are taken. */
  lemma GreedyEnds(list: seq<PlainCoin>, required: int, indices: seq<nat>, m: nat)
    requires m <= |list| && Greedy(list, required, indices, m) && Picked(list, indices, m) > required
    requires forall k :: 0 <= k < |indices| ==> indices[k] < m
    ensures Greedy(list, required, indices, |list|)
  {
    forall k | 0 <= k < |list|
      ensures Agrees(list, required, indices, k)
    {
      if k >= m {
        PickedLater(list, indices, m, k);
      }
    }
  }

  lemma RuleEnds(list: seq<PlainCoin>, required: int, coins: seq<PlainCoin>, indices: seq<nat>, m: nat)
    requires Picks(list, coins, indices, m) && Greedy(list, required, indices, m)
    requires Picked(list, indices, m) == Total(coins) > required
    ensures ByRule(list, required, coins, indices)
  {
    GreedyEnds(list, required, indices, m);
    PickedLater(list, indices, m, |list|);
  }

  /** What the rule means for the last coin chosen. */
  lemma GreedyLast(list: seq<PlainCoin>, required: int, coins: seq<PlainCoin>, indices: seq<nat>)
    requires Descending(list) && ByRule(list, required, coins, indices) && Picks(list, coins, indices, |list|)
    ensures LeastSufficient(list, required, coins, indices)
  {
    if Total(coins) > required && indices != [] {
      var j := indices[|indices| - 1];
      assert j in indices && Agrees(list, required, indices, j);
      PickedLater(list, indices, j + 1, |list|);
    }
  }

  /** What the rule means for the coins passed over. */
  lemma GreedyPassed(list: seq<PlainCoin>, required: int, indices: seq<nat>)
    requires Greedy(list, required, indices, |list|)
    ensures OnlyLargePassed(list, required, indices)
  {
    forall i | 0 <= i < |list| - 1 && i !in indices
      ensures list[i].value as int > required - Picked(list, indices, i)
    {
      assert Agrees(list, required, indices, i);
    }
  }

  // ---- Totals ----

  lemma {:induction false} PrefixTotal(coins: seq<PlainCoin>, n: nat)
    requires n <= |coins|
    ensures Total(coins[..n]) <= Total(coins)
    decreases |coins|
  {
    if n < |coins| {
      PrefixTotal(coins[..|coins| - 1], n);
      assert coins[..|coins| - 1][..n] == coins[..n];
    } else {
      assert coins[..n] == coins;
    }
  }

  lemma OneMore(coins: seq<PlainCoin>, n: nat)
    requires n < |coins|
    ensures Total(coins[..n + 1]) == Total(coins[..n]) + coins[n].value as int
  {
    assert coins[..n + 1][..n] == coins[..n];
  }

  lemma Appended(coins: seq<PlainCoin>, c: PlainCoin)
    ensures Total(coins + [c]) == Total(coins) + c.value as int
  {
    assert (coins + [c])[..|coins|] == coins;
  }

  /** Coins whose total is exactly the amount cannot do without a positive one. */
  lemma ExactIsIrredundant(coins: seq<PlainCoin>, required: int)
    requires Total(coins) == required
    ensures Irredundant(coins, required)
  {
  }

  /** Adding the smallest coin to coins that fall short keeps every positive coin necessary. */
  lemma LastStraw(coins: seq<PlainCoin>, c: PlainCoin, required: int)
    requires Total(coins) < required && forall k :: 0 <= k < |coins| ==> coins[k].value >= c.value
    ensures Irredundant(coins + [c], required)
  {
    Appended(coins, c);
  }

  method SumOf(coins: seq<PlainCoin>) returns (total: uint64)
    requires Total(coins) < TWO64
    ensures total as int == Total(coins)
  {
    total := 0;
    for i := 0 to |coins|
      invariant total as int == Total(coins[..i])
    {
      OneMore(coins, i);
      PrefixTotal(coins, i + 1);
      total := total + coins[i].value;
    }
    assert coins[..|coins|] == coins;
  }

  /** Where the loop stands before coin i: the chosen coins fall short by `remain`, and either no coin was passed
      over or coin i alone would cover the rest. */
  ghost predicate Searching(list: seq<PlainCoin>, required: int, i: nat, coins: seq<PlainCoin>, indices: seq<nat>,
      remain: int, passed: bool)
  {
    && i < |list| && Picks(list, coins, indices, i) && remain >= 0 && Total(coins) + remain == required
    && (passed ==> list[i].value as int >= remain)
    && (!passed ==> coins == list[..i])
    && Greedy(list, required, indices, i) && Picked(list, indices, i) == Total(coins)
  }

  /** Coin i joins the chosen ones. */
  lemma PicksMore(list: seq<PlainCoin>, coins: seq<PlainCoin>, indices: seq<nat>, i: nat)
    requires i < |list| && Picks(list, coins, indices, i)
    ensures Picks(list, coins + [list[i]], indices + [i], i + 1)
  {
  }

  /** A coin within the rest is chosen. */
  lemma Taken(list: seq<PlainCoin>, required: int, i: nat, coins: seq<PlainCoin>, indices: seq<nat>, remain: int,
      passed: bool)
    requires Searching(list, required, i, coins, indices, remain, passed) && i + 1 < |list|
    requires list[i].value as int <= remain
    ensures Searching(list, required, i + 1, coins + [list[i]], indices + [i], remain - list[i].value as int, passed)
  {
    var more := coins + [list[i]];
    assert Total(more) == Total(coins) + list[i].value as int by {
      Appended(coins, list[i]);
    }
    assert Picks(list, more, indices + [i], i + 1) by {
      PicksMore(list, coins, indices, i);
    }
    assert !passed ==> more == list[..i + 1];
    GreedyTakes(list, required, indices, i);
  }

  /** A coin above the rest is chosen: the search ends, and the smaller ones before it are all needed. */
  lemma Finished(list: seq<PlainCoin>, required: int, i: nat, coins: seq<PlainCoin>, indices: seq<nat>, remain: int,
      passed: bool)
    requires Searching(list, required, i, coins, indices, remain, passed) && Descending(list)
    requires Takes(list, remain, i) && list[i].value as int >= remain > 0
    ensures Picks(list, coins + [list[i]], indices + [i], i + 1)
    ensures Greedy(list, required, indices + [i], i + 1)
    ensures Picked(list, indices + [i], i + 1) == Total(coins + [list[i]])
    ensures Total(coins + [list[i]]) == Total(coins) + list[i].value as int
    ensures Irredundant(coins + [list[i]], required)
  {
    Appended(coins, list[i]);
    PicksMore(list, coins, indices, i);
    GreedyTakes(list, required, indices, i);
    LastStraw(coins, list[i], required);
  }

  /** What the search has after coin i: either it goes on, or it stopped with an answer. */
  ghost predicate After(list: seq<PlainCoin>, required: int, i: nat, coins: seq<PlainCoin>, indices: seq<nat>,
      total: int, remain: int, passed: bool, done: bool)
  {
    && total == Total(coins)
    && if done then total >= required && Answer(list, required, coins, indices)
      && ByRule(list, required, coins, indices)
       else Searching(list, required, i, coins, indices, remain, passed)
  }

  /** Coin i is passed over: it and the next one are worth more than the rest. */
  lemma PassedOver(list: seq<PlainCoin>, required: int, i: nat, coins: seq<PlainCoin>, indices: seq<nat>, remain: int,
      passed: bool)
    requires Searching(list, required, i, coins, indices, remain, passed) && i + 1 < |list|
    requires list[i].value as int > remain && list[i + 1].value as int >= remain
    ensures Searching(list, required, i + 1, coins, indices, remain, true)
  {
    assert i !in indices;
    GreedySkips(list, required, indices, i);
  }

  /** Coin i ends the search. */
  lemma Ends(list: seq<PlainCoin>, required: int, i: nat, coins: seq<PlainCoin>, indices: seq<nat>, remain: int,
      passed: bool)
    requires Searching(list, required, i, coins, indices, remain, passed) && i + 1 < |list| && Descending(list)
    requires list[i].value as int > remain > list[i + 1].value as int
    ensures Total(coins + [list[i]]) == Total(coins) + list[i].value as int > required
    ensures Answer(list, required, coins + [list[i]], indices + [i])
    ensures ByRule(list, required, coins + [list[i]], indices + [i])
  {
    Finished(list, required, i, coins, indices, remain, passed);
    RuleEnds(list, required, coins + [list[i]], indices + [i], i + 1);
  }

  /** The body of the loop with its look-ahead: a coin above the rest is passed over when the next one also
      covers it, and ends the search otherwise. */
  method Step(list: seq<PlainCoin>, required: uint64, i: nat, coins: seq<PlainCoin>, indices: seq<nat>, total: uint64,
      remainAmount: uint64, ghost passed: bool)
    returns (coins': seq<PlainCoin>, indices': seq<nat>, total': uint64, remain': uint64, ghost passed': bool,
      done: bool)
    requires Descending(list) && i + 1 < |list| && Total(list) < TWO64
    requires After(list, required as int, i, coins, indices, total as int, remainAmount as int, passed, false)
    ensures After(list, required as int, i + 1, coins', indices', total' as int, remain' as int, passed', done)
  {
    coins', indices', total', remain', passed', done := coins, indices, total, remainAmount, passed, false;
    BelowTotal(list, coins, indices, i);
    if list[i].value > remainAmount {
      if list[i + 1].value >= remainAmount {
        PassedOver(list, required as int, i, coins, indices, remainAmount as int, passed);
        passed' := true;
      } else {
        Ends(list, required as int, i, coins, indices, remainAmount as int, passed);
        coins', indices', total', done := coins + [list[i]], indices + [i], total + list[i].value, true;
      }
    } else {
      Appended(coins, list[i]);
      Taken(list, required as int, i, coins, indices, remainAmount as int, passed);
      coins', indices' := coins + [list[i]], indices + [i];
      remain' := remainAmount - list[i].value;
      total' := total + list[i].value;
    }
  }

  method Search(list: seq<PlainCoin>, required: uint64)
    returns (coins: seq<PlainCoin>, indices: seq<nat>, total: uint64, ghost passed: bool)
    requires Descending(list) && |list| >= 1 && required as int < Total(list) < TWO64
    ensures total as int == Total(coins)
    ensures total >= required ==> Answer(list, required as int, coins, indices)
    ensures total >= required ==> ByRule(list, required as int, coins, indices)
    ensures total < required ==> Searching(list, required as int, |list| - 1, coins, indices,
      (required - total) as int, passed)
  {
    coins, indices, total, passed := [], [], 0, false;
    var remainAmount, done := required, false;
    var i := 0;
    while i < |list| - 1 && !done
      invariant i < |list|
      invariant After(list, required as int, i, coins, indices, total as int, remainAmount as int, passed, done)
    {
      coins, indices, total, remainAmount, passed, done :=
        Step(list, required, i, coins, indices, total, remainAmount, passed);
      i := i + 1;
    }
    if !done && total as int == required as int {
      ExactIsIrredundant(coins, required as int);
      GreedySkips(list, required as int, indices, |list| - 1);
    }
  }

  /** Coins picked at increasing positions below i, and coin i, are worth no more than the list. */
  lemma BelowTotal(list: seq<PlainCoin>, coins: seq<PlainCoin>, indices: seq<nat>, i: nat)
    requires i < |list| && Picks(list, coins, indices, i)
    ensures Total(coins) + list[i].value as int <= Total(list)
  {
    PickedTotal(list, coins, indices, i);
    OneMore(list, i);
    PrefixTotal(list, i + 1);
  }

  lemma {:induction false} PickedTotal(list: seq<PlainCoin>, coins: seq<PlainCoin>, indices: seq<nat>, n: nat)
    requires Picks(list, coins, indices, n)
    ensures Total(coins) <= Total(list[..n])
    decreases n
  {
    if coins != [] {
      var l := |coins| - 1;
      var m := indices[l];
      PickedTotal(list, coins[..l], indices[..l], m);
      OneMore(list, m);
      PrefixTotal(list[..n], m + 1);
      assert list[..n][..m + 1] == list[..m + 1];
    }
  }

  /** At the last coin the rest is covered, whether or not a coin was passed over. */
  lemma LastCoinCovers(list: seq<PlainCoin>, required: int, coins: seq<PlainCoin>, indices: seq<nat>, remain: int,
      passed: bool)
    requires required < Total(list) && |list| >= 1
    requires Searching(list, required, |list| - 1, coins, indices, remain, passed)
    ensures list[|list| - 1].value as int >= remain
  {
    if !passed {
      OneMore(list, |list| - 1);
      assert list[..|list|] == list;
    }
  }

  lemma WholeList(list: seq<PlainCoin>, required: int)
    requires Total(list) == required
    ensures Answer(list, required, list, seq(|list|, i requires 0 <= i => i))
  {
    ExactIsIrredundant(list, required);
  }

  /** The last coin is added when the search fell short; it then always covers the rest, so the source's last
      "not enough coin" error cannot occur. */
  method AddLast(list: seq<PlainCoin>, required: uint64, coins: seq<PlainCoin>, indices: seq<nat>, total: uint64,
      ghost passed: bool)
    returns (r: Selection)
    requires Descending(list) && |list| >= 1 && required as int < Total(list) < TWO64
    requires total < required && total as int == Total(coins)
    requires Searching(list, required as int, |list| - 1, coins, indices, (required - total) as int, passed)
    ensures r.Chosen? && Answer(list, required as int, r.coins, r.indices)
    ensures ByRule(list, required as int, r.coins, r.indices)
  {
    var n := |list| - 1;
    BelowTotal(list, coins, indices, n);
    LastCoinCovers(list, required as int, coins, indices, (required - total) as int, passed);
    Finished(list, required as int, n, coins, indices, (required - total) as int, passed);
    var totalChosenAmount := total + list[n].value;
    if totalChosenAmount < required {
      return NotEnough;
    }
    return Chosen(coins + [list[n]], indices + [n]);
  }

  /** Succeeds exactly when the coins cover the amount; then the chosen ones do, and none of positive value is spare.
      When not all coins are needed, the greedy rule decides which are chosen: the last one is the least that
      suffices, and only coins above the rest are passed over. */
  method ChooseBestCoinsByAmount(list: seq<PlainCoin>, required: uint64) returns (r: Selection)
    requires Descending(list) && Total(list) < TWO64
    ensures r.Chosen? <==> Total(list) >= required as int
    ensures r.Chosen? ==> Answer(list, required as int, r.coins, r.indices)
    ensures Total(list) > required as int ==>
      && ByRule(list, required as int, r.coins, r.indices)
      && LeastSufficient(list, required as int, r.coins, r.indices)
      && OnlyLargePassed(list, required as int, r.indices)
    ensures Total(list) == required as int ==> r.coins == list && |r.indices| == |list|
  {
    var totalInputAmount := SumOf(list);
    if totalInputAmount < required {
      return NotEnough;
    }
    if totalInputAmount == required {
      WholeList(list, required as int);
      return Chosen(list, seq(|list|, i requires 0 <= i => i));
    }
    var coins, indices, total, passed := Search(list, required);
    if total < required {
      r := AddLast(list, required, coins, indices, total, passed);
    } else {
      r := Chosen(coins, indices);
    }
    GreedyLast(list, required as int, r.coins, r.indices);
    GreedyPassed(list, required as int, r.indices);
  }
}
