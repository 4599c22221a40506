/** The weights that the split of the budget hands to the descriptor pool. */
module PoolWeights {
  import opened Kernel
  import opened CpdmaProtocol
  import opened CpdmaMemory
  import opened PoolSplit
  import opened CpdmaCtlr
  import opened RateSearch
  import opened RateLimit
  import opened Budget

  // ---- When the weights fit -------------------------------------------------------------

  /** The limited channels whose rate is below one percent of `m`. */
  function SlowNum(rates: seq<nat>, m: nat): nat {
    if rates == [] then 0
    else SlowNum(rates[..|rates| - 1], m) + (if 0 < 100 * rates[|rates| - 1] < m then 1 else 0)
  }

  /** What rounding down to whole percents loses, over all channels. */
  function Lost(rates: seq<nat>, m: nat): nat
    requires m > 0
  {
    if rates == [] then 0 else Lost(rates[..|rates| - 1], m) + 100 * rates[|rates| - 1] % m
  }

  lemma DivParts(x: nat, m: nat)
    requires m > 0
    ensures x == m * (x / m) + x % m
    ensures x < m ==> x / m == 0 && x % m == x
    ensures x >= m ==> x / m > 0
  {
    DivAtLeast(x, m, 1);
  }

  lemma WeightTimes(rate: nat, m: nat)
    requires m > 0 && 100 * rate < TWO_TO_THE_32
    ensures m * PoolWeight(rate, m) == 100 * rate - 100 * rate % m + if 0 < 100 * rate < m then m else 0
  {
    var x := 100 * rate;
    DivParts(x, m);
    if rate > 0 {
      PortionOf(rate, m);
    }
  }

  lemma PortionOf(rate: nat, m: nat)
    requires m > 0 && 100 * rate < TWO_TO_THE_32
    ensures Portion(rate, 100, m) == if 100 * rate / m == 0 then 1 else 100 * rate / m
  {
    SmallWord(100 * rate);
  }

  lemma SmallWord(x: nat)
    ensures x < TWO_TO_THE_32 ==> ToU32(x) == x
  {}

  /** The sum of the weights, exactly. */
  lemma {:induction false} WeightsSum(rates: seq<nat>, m: nat)
    requires m > 0 && forall i :: 0 <= i < |rates| ==> 100 * rates[i] < TWO_TO_THE_32
    ensures m * Sum(PoolWeights(rates, m)) == 100 * TotalRate(rates) + m * SlowNum(rates, m) - Lost(rates, m)
  {
    hide PoolWeight;
    if rates != [] {
      var k := |rates| - 1;
      var w := PoolWeights(rates, m);
      WeightsSum(rates[..k], m);
      WeightTimes(rates[k], m);
      assert w[..k] == PoolWeights(rates[..k], m);
      Distributes(m, Sum(w[..k]), w[k]);
      Distributes(m, SlowNum(rates[..k], m), if 0 < 100 * rates[k] < m then 1 else 0);
    }
  }

  lemma Distributes(m: int, a: int, b: int)
    ensures m * (a + b) == m * a + m * b
  {}

  /** What the slow channels gain is no more than what rounding down loses plus what the
      rates leave of the whole. */
  predicate GainFits(rates: seq<nat>, m: nat)
    requires m > 0
  {
    100 * TotalRate(rates) + m * SlowNum(rates, m) <= 100 * m + Lost(rates, m)
  }

  predicate InWords(rates: seq<nat>) {
    forall i :: 0 <= i < |rates| ==> 100 * rates[i] < TWO_TO_THE_32
  }

  /** The condition under which the weights fit the pool, exactly. */
  lemma WeightsFitExactly(rates: seq<nat>, m: nat)
    requires m > 0 && InWords(rates)
    ensures Sum(PoolWeights(rates, m)) <= 100 <==> GainFits(rates, m)
  {
    hide PoolWeights, TotalRate, SlowNum, Lost, Sum;
    WeightsSum(rates, m);
    var w := Sum(PoolWeights(rates, m));
    if w <= 100 {
      AtMostTimes(m, w, 100);
    } else {
      AtMostTimes(m, 101, w);
    }
  }

  lemma AtMostTimes(m: int, a: int, b: int)
    requires 0 < m && a <= b
    ensures m * a <= m * b
  {}

  /** With every channel limited the whole is the total rate. Then the weights fit if and
      only if the slow channels gain no more than rounding down loses. */
  lemma AllLimitedFit(rates: seq<nat>, speed: nat)
    requires |rates| > 0 && LimitedNum(rates) == |rates| && 100 * TotalRate(rates) < TWO_TO_THE_32
    ensures var d := MaxRate(rates, speed);
            d == TotalRate(rates) > 0
                && (Sum(PoolWeights(rates, d)) <= 100 <==> d * SlowNum(rates, d) <= Lost(rates, d))
  {
    hide PoolWeights, SlowNum, Lost, Sum, MaxRate, LimitedNum;
    MaxIsTotal(rates, speed);
    forall i | 0 <= i < |rates| ensures 100 * rates[i] < TWO_TO_THE_32 {
      RateInTotal(rates, i);
    }
    WeightsFitExactly(rates, TotalRate(rates));
  }

  // ---- A pool that cannot be split ---------------------------------------------------------

  lemma WholeQuotient(d: nat, k: nat)
    requires d > 0
    ensures DivRoundClosest(d * k, d) == k
  {
    DivAtLeast(d / 2, d, 1);
    DivShift(d / 2, d, k);
  }

  lemma FirstIs(freq: nat, rate: nat, n: nat)
    requires Searchable(freq, rate) && freq - rate == rate * n
    ensures n >= 1 && FirstSend(freq, rate) == n
  {
    hide FirstSend;
    FirstSendBounds(freq, rate, n);
    if n >= 1 {
      FirstSendBounds(freq, rate, n - 1);
      Distributes(rate, n - 1, 1);
    }
  }

  /** The first send count hits a rate that divides the bus frequency. */
  lemma FirstHits(freq: nat, rate: nat, n: nat)
    requires Searchable(freq, rate) && freq - rate == rate * n
    ensures n >= 1 && FirstSend(freq, rate) == n && Candidate(freq, rate, n) == rate
  {
    hide FirstSend, DivRoundClosest;
    FirstIs(freq, rate, n);
    WholeQuotient(rate * n, 1);
    Distributes(rate, n, 1);
    WholeQuotient(n + 1, rate);
  }

  /** Such a rate is programmed exactly as asked. */
  lemma DivisorIsExact(freq: nat, rate: nat, n: nat, best: Factors)
    requires Found(freq, rate, best) && freq - rate == rate * n && n <= MAX_RLIM_CNT
    ensures best.rate == rate
  {
    hide FirstSend, Candidate, IdleFor, RateOf;
    FirstHits(freq, rate, n);
    var path: seq<State> :| SearchPath(freq, rate, path) && Ended(freq, rate, path) && Best(freq, rate, path, best);
    assert path[0].send == FirstSend(freq, rate);
  }

  /** Eight channels on a gigabit link and a bus of 125 MHz, seven of them limited to
      1 Mbit/s and one to 1000 Mbit/s. The driver admits these rates and programs them
      exactly, but the weights that follow add up to 106. */
  lemma WeightsCanExceed()
    ensures RateAdmitted(1, 1000, 125) && RateAdmitted(1000, 1000, 125) && BusFreq(125) == 4_000_000
    ensures forall best: Factors :: Found(4_000_000, 1000, best) ==> best.rate == 1000
    ensures forall best: Factors :: Found(4_000_000, 1_000_000, best) ==> best.rate == 1_000_000
    ensures var rates := [1000, 1000, 1000, 1000, 1000, 1000, 1000, 1_000_000];
            MaxRate(rates, 1000) == 1_007_000 && Sum(PoolWeights(rates, 1_007_000)) == 106
                && !GainFits(rates, 1_007_000)
  {
    hide Found, PoolWeights, MaxRate, GainFits, Sum, InWords;
    ExampleIsExact();
    WeightsOfExample();
  }

  lemma ExampleIsExact()
    ensures forall best: Factors :: Found(4_000_000, 1000, best) ==> best.rate == 1000
    ensures forall best: Factors :: Found(4_000_000, 1_000_000, best) ==> best.rate == 1_000_000
  {
    hide Found;
    forall best: Factors | Found(4_000_000, 1000, best) ensures best.rate == 1000 {
      DivisorIsExact(4_000_000, 1000, 3999, best);
    }
    forall best: Factors | Found(4_000_000, 1_000_000, best) ensures best.rate == 1_000_000 {
      DivisorIsExact(4_000_000, 1_000_000, 3, best);
    }
  }

  lemma WeightsOfExample()
    ensures var rates := [1000, 1000, 1000, 1000, 1000, 1000, 1000, 1_000_000];
            MaxRate(rates, 1000) == 1_007_000 && Sum(PoolWeights(rates, 1_007_000)) == 106
                && !GainFits(rates, 1_007_000)
  {
    hide GainFits;
    var rates: seq<nat> := [1000, 1000, 1000, 1000, 1000, 1000, 1000, 1_000_000];
    var slow: seq<nat> := [1000, 1000, 1000, 1000, 1000, 1000, 1000];
    assert rates[..7] == slow;
    TotalEqual(slow, 1000);
    assert TotalRate(rates) == 1_007_000;
    MaxIsTotal(rates, 1000);
    var w := PoolWeights(rates, 1_007_000);
    SumEqual(w[..7], 1);
    assert w[7] == 99;
    WeightsFitExactly(rates, 1_007_000);
  }

  lemma {:induction false} TotalEqual(rates: seq<nat>, rate: nat)
    requires forall i :: 0 <= i < |rates| ==> rates[i] == rate
    ensures TotalRate(rates) == |rates| * rate
  {
    if rates != [] {
      TotalEqual(rates[..|rates| - 1], rate);
      assert |rates| * rate == (|rates| - 1) * rate + rate;
    }
  }

  /** The weights by place: the first one is for the highest transmit channel. */
  function Placed(weights: seq<nat>): (ws: Weights)
    ensures |ws| == MAX_CHANNELS
  {
    seq(MAX_CHANNELS, i requires 0 <= i < MAX_CHANNELS =>
      if LAST_TX - |weights| < i <= LAST_TX then Some(weights[LAST_TX - i]) else None)
  }

  lemma {:induction false} PlacedTotal(weights: seq<nat>, k: nat)
    requires |weights| <= LAST_TX + 1 && k <= MAX_CHANNELS
    ensures TotalWeight(Placed(weights)[..k]) ==
              if k <= LAST_TX + 1 - |weights| then 0
              else if k <= LAST_TX + 1 then Sum(weights) - Sum(weights[..LAST_TX + 1 - k])
              else Sum(weights)
  {
    hide Sum;
    var ws := Placed(weights);
    assert weights[..0] == [] && weights[..|weights|] == weights;
    EmptySum();
    if k > 0 {
      PlacedTotal(weights, k - 1);
      assert ws[..k][..k - 1] == ws[..k - 1];
      if LAST_TX + 1 - |weights| < k <= LAST_TX + 1 {
        LastSum(weights, LAST_TX + 1 - k);
      }
    }
  }

  lemma EmptySum()
    ensures Sum([]) == 0
  {}

  lemma LastSum(weights: seq<nat>, k: nat)
    requires k < |weights|
    ensures Sum(weights[..k + 1]) == Sum(weights[..k]) + weights[k]
  {
    assert weights[..k + 1][..k] == weights[..k];
  }

  /** The verdict of the pool split for these weights, the receive channels being fine. */
  lemma VerdictIs(c: Ctlr, weights: seq<nat>)
    requires InOrder(c) && c.Placed() && Numbered(c, |weights|, false) && weights != []
    requires TxWeights(c) == Placed(weights) && TotalWeight(RxWeights(c)) <= 100
    ensures SplitVerdict(c) == if Sum(weights) > 100 then -EINVAL else 0
  {
    hide InOrder, Books, Shares, Sum, TotalWeight, TxWeights, RxWeights, Placed, Present;
    OrderFacts(c);
    PresentNone(c.channels[..]);
    assert c.channels[..][LAST_TX] != null;
    PlacedTotal(weights, MAX_CHANNELS);
    assert Placed(weights)[..MAX_CHANNELS] == Placed(weights);
  }

  /** `cpdma_chan_set_weight` as a change of the weights. */
  method WeighOne(c: Ctlr, i: nat, weight: nat)
    requires InOrder(c) && c.Placed() && i < MAX_CHANNELS && c.channels[i] != null
    modifies c.Chans()`weight, c.Chans()`descNum
    ensures InOrder(c) && TxWeights(c) == old(TxWeights(c))[i := Some(weight)] && RxWeights(c) == old(RxWeights(c))
    ensures TxWeights(c) == old(TxWeights(c)) ==>
              SplitVerdict(c) == old(SplitVerdict(c)) && (old(Divided(c)) ==> Divided(c))
    ensures TxWeights(c) != old(TxWeights(c)) && SplitVerdict(c) == 0 ==> Divided(c)
  {
    hide InOrder, Sum, TotalWeight, Split, PerChannel, TxShares, RxShares;
    var ret := SetWeight(c, i, weight);
  }

  /** The calls of `cpdma_chan_set_weight`, one for each transmit channel in order. None of
      their results is looked at. A failed split in between does no harm: if the last
      weights fit, and any weight is new, the shares are those of the last weights. */
  method ApplyWeights(c: Ctlr, weights: seq<nat>)
    requires InOrder(c) && c.Placed() && Numbered(c, |weights|, false)
    modifies c.Chans()`weight, c.Chans()`descNum
    ensures InOrder(c) && TxWeights(c) == Placed(weights) && RxWeights(c) == old(RxWeights(c))
    ensures TxWeights(c) != old(TxWeights(c)) && SplitVerdict(c) == 0 ==> Divided(c)
  {
    hide InOrder, Sum, TotalWeight, Divided, SplitVerdict, TxWeights, RxWeights;
    ghost var ws := TxWeights(c);
    NoShares(c);
    for k := 0 to |weights|
      invariant InOrder(c) && |TxWeights(c)| == MAX_CHANNELS && RxWeights(c) == old(RxWeights(c))
      invariant forall i :: 0 <= i < MAX_CHANNELS ==>
                  TxWeights(c)[i] == if LAST_TX - k < i <= LAST_TX then Some(weights[LAST_TX - i]) else ws[i]
      invariant TxWeights(c) == ws || SplitVerdict(c) != 0 || Divided(c)
    {
      WeighOne(c, LAST_TX - k, weights[k]);
    }
    OnlyThese(c, |weights|);
  }

  lemma OnlyThese(c: Ctlr, n: nat)
    requires c.Placed() && Numbered(c, n, false)
    ensures |TxWeights(c)| == MAX_CHANNELS
    ensures forall i :: 0 <= i < MAX_CHANNELS ==> (TxWeights(c)[i].Some? <==> LAST_TX - n < i <= LAST_TX)
  {}

  // ---- `cpsw_split_res` on the controller ----------------------------------------------------

  /** The rates of the first `n` transmit channels, in the order of their queues. */
  function QueueRates(rs: Rates, n: nat): (rates: seq<nat>)
    requires |rs| == MAX_CHANNELS && n <= LAST_TX + 1
    ensures |rates| == n
  {
    seq(n, k requires 0 <= k < n => match rs[LAST_TX - k] case None => 0 case Some(rate) => rate)
  }

  method ReadRates(c: Ctlr, n: nat) returns (rates: seq<nat>)
    requires c.Placed() && Numbered(c, n, false)
    ensures rates == QueueRates(TxRates(c), n)
  {
    rates := [];
    for k := 0 to n
      invariant rates == QueueRates(TxRates(c), n)[..k]
    {
      rates := rates + [c.channels[LAST_TX - k].rate];
    }
  }

  /** The budgets are no part of the controller. */
  method SplitBudgets(c: Ctlr, rates: seq<nat>, speed: nat, tx: array<int>, rx: array<int>, rxNum: nat)
    returns (weights: seq<nat>)
    requires 0 < |rates| <= tx.Length && 0 < rxNum <= rx.Length && tx != rx
    requires LimitedNum(rates) != 0 ==> MaxRate(rates, speed) > 0
    requires InOrder(c) && c.Placed() && Numbered(c, |rates|, false)
    modifies tx, rx
    ensures tx[..] == TxBudgets(rates, speed) + old(tx[|rates|..])
    ensures rx[..] == RxBudgets(rxNum) + old(rx[rxNum..])
    ensures weights == PoolWeights(rates, MaxRate(rates, speed))
    ensures InOrder(c) && c.Placed() && Numbered(c, |rates|, false)
    ensures TxWeights(c) == old(TxWeights(c)) && RxWeights(c) == old(RxWeights(c))
  {
    hide TxBudgets, RxBudgets, PoolWeights, LimitedNum, MaxRate, InOrder, TxWeights, RxWeights, Numbered, Ctlr.Placed;
    assert {tx as object, rx} !! {c as object, c.pool, c.channels};
    assert forall ch: object :: ch in c.Chans() ==> ch != tx && ch != rx;
    weights := SplitRes(rates, speed, tx, rx, rxNum);
  }

  /** What the weights mean for the pool: they can be split if and only if the gain of the
      slow channels fits, `m` being the rate that stands for the whole. */
  ghost predicate Judged(c: Ctlr, rates: seq<nat>, m: nat)
    requires c.Placed()
    reads c`chanNum, c.channels, c.Chans()`weight
  {
    InWords(rates) && m > 0 && TotalWeight(RxWeights(c)) <= 100 ==>
        SplitVerdict(c) == if GainFits(rates, m) then 0 else -EINVAL
  }

  /** `cpsw_split_res`: the budgets, and the weights of the transmit channels. The pool can
      be split by these weights exactly under the stated condition. Otherwise nobody is told,
      and every later split fails as well. */
  method SplitController(c: Ctlr, n: nat, speed: nat, tx: array<int>, rx: array<int>, rxNum: nat)
    returns (rates: seq<nat>, ghost maxRate: nat)
    requires InOrder(c) && c.Placed() && Numbered(c, n, false)
    requires 0 < n <= tx.Length && 0 < rxNum <= rx.Length && tx != rx
    requires var rates := QueueRates(TxRates(c), n); LimitedNum(rates) != 0 ==> MaxRate(rates, speed) > 0
    modifies tx, rx, c.Chans()`weight, c.Chans()`descNum
    ensures InOrder(c) && c.Placed()
    ensures rates == QueueRates(old(TxRates(c)), n) && maxRate == MaxRate(rates, speed)
    ensures tx[..] == TxBudgets(rates, speed) + old(tx[n..]) && rx[..] == RxBudgets(rxNum) + old(rx[rxNum..])
    ensures TxWeights(c) == Placed(PoolWeights(rates, maxRate)) && RxWeights(c) == old(RxWeights(c))
    ensures TxWeights(c) != old(TxWeights(c)) && SplitVerdict(c) == 0 ==> Divided(c)
    ensures Judged(c, rates, maxRate)
  {
    hide InOrder, TxBudgets, RxBudgets, PoolWeights, LimitedNum, MaxRate, SplitVerdict, Divided, TxWeights, RxWeights,
      TotalWeight, Placed, QueueRates, Judged, TxRates, Books, Shares, Numbered;
    rates := ReadRates(c, n);
    maxRate := MaxRate(rates, speed);
    var weights := SplitBudgets(c, rates, speed, tx, rx, rxNum);
    ApplyWeights(c, weights);
    VerdictOf(c, rates, maxRate);
  }

  lemma VerdictOf(c: Ctlr, rates: seq<nat>, m: nat)
    requires InOrder(c) && c.Placed() && Numbered(c, |rates|, false) && rates != []
    requires forall i :: 0 <= i < |rates| && rates[i] > 0 ==> m > 0
    requires TxWeights(c) == Placed(PoolWeights(rates, m))
    ensures Judged(c, rates, m)
  {
    hide InOrder, PoolWeights, SplitVerdict, TxWeights, RxWeights, TotalWeight, Placed, GainFits, InWords, Books,
      Shares, Numbered;
    if InWords(rates) && TotalWeight(RxWeights(c)) <= 100 && m > 0 {
      WeightsFitExactly(rates, m);
      VerdictIs(c, PoolWeights(rates, m));
    }
  }
}
