/** The split of the poll budget over the channels. */
module Budget {
  import opened Kernel
  import opened PoolSplit

  const NAPI_POLL_WEIGHT: int := 64

  // ---- Shares of the transmit channels ------------------------------------------------------

  function TotalRate(rates: seq<nat>): nat {
    if rates == [] then 0 else TotalRate(rates[..|rates| - 1]) + rates[|rates| - 1]
  }

  function LimitedNum(rates: seq<nat>): (n: nat)
    ensures n <= |rates|
    ensures n == |rates| <==> forall i :: 0 <= i < |rates| ==> rates[i] > 0
    ensures n == 0 <==> forall i :: 0 <= i < |rates| ==> rates[i] == 0
  {
    if rates == [] then 0
    else LimitedNum(rates[..|rates| - 1]) + (if rates[|rates| - 1] > 0 then 1 else 0)
  }

  function Scaled(maxRate: nat, consumed: int): nat {
    if maxRate < consumed then ToU32(maxRate * 10) else maxRate
  }

  /** The rate that stands for the whole budget, in unsigned 32-bit arithmetic. */
  function MaxRate(rates: seq<nat>, speed: nat): nat {
    var consumed := ToU32(TotalRate(rates));
    if LimitedNum(rates) == |rates| || LimitedNum(rates) == 0 then consumed
    else Scaled(Scaled(ToU32(speed * 1000), consumed), consumed)
  }

  /** Division of C: towards zero. */
  function Quotient(a: int, b: int): int
    requires b > 0
  {
    if a >= 0 then a / b else -((-a) / b)
  }

  /** The share of a channel without a limit. */
  function FreeShare(rates: seq<nat>, speed: nat): int
    requires |rates| > 0 && (LimitedNum(rates) != 0 ==> MaxRate(rates, speed) > 0)
  {
    var limited := LimitedNum(rates);
    if limited == |rates| then 0
    else if limited == 0 then NAPI_POLL_WEIGHT / |rates|
    else
      var used := ToU32(ToU32(TotalRate(rates)) * NAPI_POLL_WEIGHT) / MaxRate(rates, speed);
      Quotient(NAPI_POLL_WEIGHT - used, |rates| - limited)
  }

  /** A part of `whole` in proportion to the rate, at least one. */
  function Portion(rate: nat, whole: nat, maxRate: int): (p: int)
    requires maxRate > 0
    ensures p >= 1
  {
    var p := ToU32(rate * whole) / maxRate;
    if p == 0 then 1 else p
  }

  function RawBudget(rate: nat, maxRate: int, free: int): int
    requires rate > 0 ==> maxRate > 0
  {
    if rate > 0 then Portion(rate, NAPI_POLL_WEIGHT, maxRate) else free
  }

  function RawBudgets(rates: seq<nat>, speed: nat): (raw: seq<int>)
    requires |rates| > 0 && (LimitedNum(rates) != 0 ==> MaxRate(rates, speed) > 0)
    ensures |raw| == |rates|
  {
    var maxRate, free := MaxRate(rates, speed), FreeShare(rates, speed);
    seq(|rates|, i requires 0 <= i < |rates| => RawBudget(rates[i], maxRate, free))
  }

  /** The rate a limited channel has to exceed to get the remainder. */
  function FirstBar(rates: seq<nat>, speed: nat): int {
    var limited := LimitedNum(rates);
    if limited == |rates| || limited == 0 then 0
    else ToU32(MaxRate(rates, speed) - ToU32(TotalRate(rates))) / (|rates| - limited)
  }

  /** The channel for the remainder, and its rate: the fastest limited one above the bar;
      a free channel is taken only while the choice is still channel 0. */
  function Pick(rates: seq<nat>, bar: int): (p: (int, int))
    ensures 0 <= p.0 && (rates != [] ==> p.0 < |rates|)
  {
    if rates == [] then (0, bar)
    else
      var i := |rates| - 1;
      var (ch, top) := Pick(rates[..i], bar);
      if rates[i] > 0 then (if rates[i] > top then (i, rates[i] as int) else (ch, top))
      else (if ch == 0 then i else ch, top)
  }

  function TxBudgets(rates: seq<nat>, speed: nat): (s: seq<int>)
    requires |rates| > 0 && (LimitedNum(rates) != 0 ==> MaxRate(rates, speed) > 0)
    ensures |s| == |rates|
  {
    var raw := RawBudgets(rates, speed);
    var ch := Pick(rates, FirstBar(rates, speed)).0;
    raw[ch := raw[ch] + (NAPI_POLL_WEIGHT - Sum(raw))]
  }

  /** The transmit budgets always sum to the whole budget. */
  lemma TxBudgetsSum(rates: seq<nat>, speed: nat)
    requires |rates| > 0 && (LimitedNum(rates) != 0 ==> MaxRate(rates, speed) > 0)
    ensures Sum(TxBudgets(rates, speed)) == NAPI_POLL_WEIGHT
  {
    hide RawBudgets, FirstBar, Sum, Pick, MaxRate, LimitedNum;
    var raw := RawBudgets(rates, speed);
    var ch := Pick(rates, FirstBar(rates, speed)).0;
    SumUpdate(raw, ch, raw[ch] + (NAPI_POLL_WEIGHT - Sum(raw)));
  }

  // ---- Who gets what ---------------------------------------------------------------------------------

  lemma {:induction false} TotalIs(rates: seq<nat>)
    ensures TotalRate(rates) == Sum(rates)
  {
    if rates != [] {
      TotalIs(rates[..|rates| - 1]);
    }
  }

  ghost function LimitedChannels(rates: seq<nat>): set<nat> { set i: nat | i < |rates| && rates[i] > 0 }

  lemma {:induction false} LimitedIs(rates: seq<nat>)
    ensures LimitedNum(rates) == |LimitedChannels(rates)|
  {
    if rates != [] {
      var n := |rates| - 1;
      LimitedIs(rates[..n]);
      assert LimitedChannels(rates) == LimitedChannels(rates[..n]) + (if rates[n] > 0 then {n} else {});
    }
  }

  /** Part `p` of `amount` in units of `m`: rounded down, but at least one. */
  predicate IsPortion(p: int, amount: nat, m: nat) {
    m * p <= amount < m * (p + 1) || (p == 1 && amount < m)
  }

  /** Quotient `q` of C, rounded towards zero. */
  predicate IsQuotient(q: int, a: int, b: nat) {
    if a >= 0 then b * q <= a < b * (q + 1) else b * (q - 1) < a <= b * q
  }

  /** The share of a channel without a limit: an equal part of all, or of what the limited
      channels leave; `used` is what those take of the poll budget. */
  predicate IsFreeShare(b: int, rates: seq<nat>, m: nat, used: int) {
    if LimitedNum(rates) == 0 then |rates| * b <= NAPI_POLL_WEIGHT < |rates| * (b + 1)
    else
      && m * used <= ToU32(ToU32(TotalRate(rates)) * NAPI_POLL_WEIGHT) < m * (used + 1)
      && IsQuotient(b, NAPI_POLL_WEIGHT - used, |rates| - LimitedNum(rates))
  }

  /** The rate a limited channel has to exceed: what an equal part of the free rate is worth, or
      zero where there is no such part. */
  predicate IsBar(bar: nat, rates: seq<nat>, m: nat) {
    if LimitedNum(rates) == |rates| || LimitedNum(rates) == 0 then bar == 0
    else
      var free := |rates| - LimitedNum(rates);
      free * bar <= ToU32(m - ToU32(TotalRate(rates))) < free * (bar + 1)
  }

  /** The channel that gets the remainder: the first of the fastest, if it is above the bar and
      is not channel 0; otherwise the first channel from 1 on without a limit; otherwise 0. */
  ghost predicate GetsRest(rates: seq<nat>, bar: nat, ch: nat) {
    && ch < |rates|
    && if exists i :: 0 < i < |rates| && rates[i] > bar && rates[i] > rates[0]
       then
         && rates[ch] > bar && (forall i :: 0 <= i < |rates| ==> rates[i] <= rates[ch])
         && forall i :: 0 <= i < ch ==> rates[i] < rates[ch]
       else
         && (ch > 0 ==> rates[ch] == 0)
         && forall i :: 0 < i < (if ch > 0 then ch else |rates|) ==> rates[i] > 0
  }

  /** Every channel has its share; the one that gets the remainder brings the sum to the whole
      budget. */
  ghost predicate DealtBy(rates: seq<nat>, m: nat, s: seq<int>, ch: nat, bar: nat, used: int) {
    && |s| == |rates| && Sum(s) == NAPI_POLL_WEIGHT && IsBar(bar, rates, m) && GetsRest(rates, bar, ch)
    && forall i :: 0 <= i < |rates| && i != ch ==>
         if rates[i] > 0 then IsPortion(s[i], ToU32(rates[i] * NAPI_POLL_WEIGHT), m)
         else IsFreeShare(s[i], rates, m, used)
  }

  ghost predicate Dealt(rates: seq<nat>, m: nat, s: seq<int>) {
    exists ch, bar, used :: DealtBy(rates, m, s, ch, bar, used)
  }

  lemma PortionOf(rate: nat, whole: nat, m: nat)
    requires m > 0
    ensures IsPortion(Portion(rate, whole, m), ToU32(rate * whole), m)
  {
    var x := ToU32(rate * whole);
    Bounded(x, m);
    hide ToU32;
    assert x / m == 0 ==> m * (x / m + 1) == m;
  }

  lemma Bounded(x: nat, d: nat)
    requires d > 0
    ensures d * (x / d) <= x < d * (x / d + 1)
  {
    DivAtLeast(x, d, x / d);
    DivAtLeast(x, d, x / d + 1);
  }

  lemma QuotientOf(a: int, b: nat)
    requires b > 0
    ensures IsQuotient(Quotient(a, b), a, b)
  {
    if a >= 0 {
      Bounded(a, b);
    } else {
      var k := (-a) / b;
      Bounded(-a, b);
      assert b * (-k) == -(b * k) && b * (-k - 1) == -(b * (k + 1));
    }
  }

  lemma WordRange(x: int)
    ensures 0 <= ToU32(x) < TWO_TO_THE_32
  {}

  lemma BarOf(rates: seq<nat>, speed: nat)
    ensures FirstBar(rates, speed) >= 0 && IsBar(FirstBar(rates, speed), rates, MaxRate(rates, speed))
  {
    hide LimitedNum, TotalRate, MaxRate, ToU32;
    var limited := LimitedNum(rates);
    if limited != |rates| && limited != 0 {
      var above := MaxRate(rates, speed) - ToU32(TotalRate(rates));
      WordRange(above);
      Bounded(ToU32(above), |rates| - limited);
    }
  }

  /** What the limited channels take of the poll budget. */
  function UsedOf(rates: seq<nat>, m: nat): int
    requires m > 0
  {
    ToU32(ToU32(TotalRate(rates)) * NAPI_POLL_WEIGHT) / m
  }

  lemma FreeShareOf(rates: seq<nat>, speed: nat)
    requires |rates| > LimitedNum(rates) && (LimitedNum(rates) != 0 ==> MaxRate(rates, speed) > 0)
    ensures IsFreeShare(FreeShare(rates, speed), rates, MaxRate(rates, speed),
                        if LimitedNum(rates) != 0 then UsedOf(rates, MaxRate(rates, speed)) else 0)
  {
    hide LimitedNum, TotalRate, MaxRate, Quotient, IsQuotient;
    if LimitedNum(rates) == 0 {
      Bounded(NAPI_POLL_WEIGHT, |rates|);
    } else {
      var m := MaxRate(rates, speed);
      Bounded(ToU32(ToU32(TotalRate(rates)) * NAPI_POLL_WEIGHT), m);
      QuotientOf(NAPI_POLL_WEIGHT - UsedOf(rates, m), |rates| - LimitedNum(rates));
    }
  }

  /** The choice of the loop, and its rate, after the channels `rates`. */
  ghost predicate Picked(rates: seq<nat>, bar: nat, ch: nat, top: int) {
    && top >= bar && (forall i :: 0 <= i < |rates| ==> rates[i] <= top)
    && (if exists i :: 0 < i < |rates| && rates[i] > bar && rates[i] > rates[0]
        then ch < |rates| && top == rates[ch] > bar && ch > 0 && forall i :: 0 <= i < ch ==> rates[i] < top
        else
          && (top == bar || (rates != [] && top == rates[0]))
          && (ch > 0 ==> ch < |rates| && rates[ch] == 0)
          && forall i :: 0 < i < (if ch > 0 then ch else |rates|) ==> rates[i] > 0)
  }

  lemma {:induction false} PickOf(rates: seq<nat>, bar: nat)
    ensures var (ch, top) := Pick(rates, bar); Picked(rates, bar, ch, top)
  {
    if rates != [] {
      var n := |rates| - 1;
      PickOf(rates[..n], bar);
      var (ch, top) := Pick(rates[..n], bar);
      PickedOn(rates, bar, ch, top);
    }
  }

  lemma PickedOn(rates: seq<nat>, bar: nat, ch: nat, top: int)
    requires rates != [] && Picked(rates[..|rates| - 1], bar, ch, top)
    ensures var n := |rates| - 1;
            var (ch', top') := if rates[n] > 0 then (if rates[n] > top then (n, rates[n] as int) else (ch, top))
                               else (if ch == 0 then n else ch, top);
            Picked(rates, bar, ch', top')
  {
    var n := |rates| - 1;
    assert forall i :: 0 <= i < n ==> rates[..n][i] == rates[i];
    if exists i :: 0 < i < n && rates[i] > bar && rates[i] > rates[0] {
      var i :| 0 < i < n && rates[i] > bar && rates[i] > rates[0];
      assert rates[..n][i] > bar;
    }
  }

  /** The transmit budgets are dealt out in this way, for any rates and speed. */
  lemma TxBudgetsDealt(rates: seq<nat>, speed: nat)
    requires |rates| > 0 && (LimitedNum(rates) != 0 ==> MaxRate(rates, speed) > 0)
    ensures Dealt(rates, MaxRate(rates, speed), TxBudgets(rates, speed))
    ensures LimitedNum(rates) == |rates| ==> MaxRate(rates, speed) == ToU32(TotalRate(rates))
  {
    hide MaxRate, LimitedNum, TotalRate, FirstBar, Pick, TxBudgets, Sum, RawBudget, IsPortion, IsFreeShare, IsBar,
      GetsRest, FreeShare;
    var m, s, bar := MaxRate(rates, speed), TxBudgets(rates, speed), FirstBar(rates, speed);
    var used := if LimitedNum(rates) != 0 then UsedOf(rates, m) else 0;
    BarOf(rates, speed);
    TxBudgetsSum(rates, speed);
    TxBudgetsAre(rates, speed);
    var ch := Pick(rates, bar).0;
    RestGoesTo(rates, bar);
    forall i | 0 <= i < |rates|
      ensures var b := RawBudgets(rates, speed)[i];
              if rates[i] > 0 then IsPortion(b, ToU32(rates[i] * NAPI_POLL_WEIGHT), m)
              else IsFreeShare(b, rates, m, used)
    {
      RawIs(rates, speed, i);
    }
    assert DealtBy(rates, m, s, ch, bar, used);
    WholeOf(rates, speed);
  }

  lemma WholeOf(rates: seq<nat>, speed: nat)
    ensures LimitedNum(rates) == |rates| ==> MaxRate(rates, speed) == ToU32(TotalRate(rates))
  {}

  lemma RestGoesTo(rates: seq<nat>, bar: nat)
    requires rates != []
    ensures GetsRest(rates, bar, Pick(rates, bar).0)
  {
    hide Pick;
    PickOf(rates, bar);
  }

  lemma RawIs(rates: seq<nat>, speed: nat, i: nat)
    requires i < |rates| && (LimitedNum(rates) != 0 ==> MaxRate(rates, speed) > 0)
    ensures var m, b := MaxRate(rates, speed), RawBudgets(rates, speed)[i];
            && (rates[i] > 0 ==> IsPortion(b, ToU32(rates[i] * NAPI_POLL_WEIGHT), m))
            && (rates[i] == 0 ==>
                  IsFreeShare(b, rates, m, if LimitedNum(rates) != 0 then UsedOf(rates, m) else 0))
  {
    hide MaxRate, TotalRate, FreeShare, Portion, IsPortion, IsFreeShare, ToU32, UsedOf, RawBudgets;
    SharesAt(rates, speed, i);
    AnyLimit(rates, i);
    hide LimitedNum;
    if rates[i] > 0 {
      PortionOf(rates[i], NAPI_POLL_WEIGHT, MaxRate(rates, speed));
    } else {
      FreeShareOf(rates, speed);
    }
  }

  lemma AnyLimit(rates: seq<nat>, i: nat)
    requires i < |rates|
    ensures rates[i] > 0 ==> LimitedNum(rates) != 0
    ensures rates[i] == 0 ==> LimitedNum(rates) < |rates|
  {}

  // ---- All channels limited --------------------------------------------------------------------

  /** With every channel limited the remainder goes to the fastest. */
  lemma {:induction false} PicksFastest(rates: seq<nat>)
    requires rates != [] && forall i :: 0 <= i < |rates| ==> rates[i] > 0
    ensures var (ch, top) := Pick(rates, 0);
            ch < |rates| && top == rates[ch] && forall i :: 0 <= i < |rates| ==> rates[i] <= top
  {
    var k := |rates| - 1;
    if k > 0 {
      PicksFastest(rates[..k]);
    }
  }

  lemma {:induction false} TotalAtMost(rates: seq<nat>, top: nat)
    requires forall i :: 0 <= i < |rates| ==> rates[i] <= top
    ensures TotalRate(rates) <= |rates| * top
  {
    if rates != [] {
      TotalAtMost(rates[..|rates| - 1], top);
      assert |rates| * top == (|rates| - 1) * top + top;
    }
  }

  /** The shares exceed the budget by at most one for each channel but the fastest. */
  lemma {:induction false} SharesBounded(rates: seq<nat>, raw: seq<int>, d: nat, top: nat)
    requires d > 0 && |raw| == |rates|
    requires forall i :: 0 <= i < |rates| ==> raw[i] <= NAPI_POLL_WEIGHT * rates[i] / d + (if i == top then 0 else 1)
    ensures Sum(raw) <= NAPI_POLL_WEIGHT * TotalRate(rates) / d + |rates| - (if top < |rates| then 1 else 0)
  {
    if rates != [] {
      var k := |rates| - 1;
      SharesBounded(rates[..k], raw[..k], d, top);
      DivAdds(NAPI_POLL_WEIGHT * TotalRate(rates[..k]), NAPI_POLL_WEIGHT * rates[k], d);
    }
  }

  lemma PortionIs(rate: nat, d: nat)
    requires d > 0 && 0 < NAPI_POLL_WEIGHT * rate < TWO_TO_THE_32
    ensures var p, q := Portion(rate, NAPI_POLL_WEIGHT, d), NAPI_POLL_WEIGHT * rate / d;
            p == if q == 0 then 1 else q
  {}

  lemma {:induction false} RateInTotal(rates: seq<nat>, i: nat)
    requires i < |rates|
    ensures rates[i] <= TotalRate(rates)
  {
    if i < |rates| - 1 {
      RateInTotal(rates[..|rates| - 1], i);
    }
  }

  /** The share of one channel of many, and its bounds. */
  lemma ShareBounds(rates: seq<nat>, i: nat)
    requires i < |rates| <= 8 && rates[i] > 0 && NAPI_POLL_WEIGHT * TotalRate(rates) < TWO_TO_THE_32
    ensures TotalRate(rates) > 0
    ensures var d := TotalRate(rates);
            var p := Portion(rates[i], NAPI_POLL_WEIGHT, d);
            && p <= NAPI_POLL_WEIGHT * rates[i] / d + 1
            && ((forall j :: 0 <= j < |rates| ==> rates[j] <= rates[i]) ==> p == NAPI_POLL_WEIGHT * rates[i] / d >= 8)
  {
    RateInTotal(rates, i);
    PortionIs(rates[i], TotalRate(rates));
    if forall j :: 0 <= j < |rates| ==> rates[j] <= rates[i] {
      TotalAtMost(rates, rates[i]);
      MulMono(rates[i], |rates|, 8);
      DivAtLeast(NAPI_POLL_WEIGHT * rates[i], TotalRate(rates), 8);
    }
  }

  lemma MaxIsTotal(rates: seq<nat>, speed: nat)
    requires 0 < |rates| && LimitedNum(rates) == |rates| && TotalRate(rates) < TWO_TO_THE_32
    ensures MaxRate(rates, speed) == TotalRate(rates) > 0 && FirstBar(rates, speed) == 0
  {
    hide LimitedNum;
    RateInTotal(rates, 0);
  }

  lemma AllLimitedShares(rates: seq<nat>, speed: nat)
    requires 0 < |rates| && LimitedNum(rates) == |rates| && TotalRate(rates) < TWO_TO_THE_32
    ensures MaxRate(rates, speed) == TotalRate(rates) > 0
    ensures forall i :: 0 <= i < |rates| ==>
              RawBudgets(rates, speed)[i] == Portion(rates[i], NAPI_POLL_WEIGHT, TotalRate(rates))
    ensures FirstBar(rates, speed) == 0
  {
    hide Portion, MaxRate, FreeShare, FirstBar, LimitedNum;
    MaxIsTotal(rates, speed);
  }

  /** Every share is positive, the one of the fastest channel at least eight, and together
      they exceed the budget by less than one for each channel. */
  lemma RawBounds(rates: seq<nat>, speed: nat, ch: nat)
    requires 0 < |rates| <= 8 && LimitedNum(rates) == |rates| && NAPI_POLL_WEIGHT * TotalRate(rates) < TWO_TO_THE_32
    requires ch < |rates| && forall i :: 0 <= i < |rates| ==> rates[i] <= rates[ch]
    ensures MaxRate(rates, speed) > 0
    ensures var raw := RawBudgets(rates, speed);
            raw[ch] >= 8 && Sum(raw) < NAPI_POLL_WEIGHT + |rates| && forall i :: 0 <= i < |rates| ==> raw[i] >= 1
  {
    hide Portion, MaxRate, RawBudgets, Sum, LimitedNum;
    AllLimitedShares(rates, speed);
    var d, raw := TotalRate(rates), RawBudgets(rates, speed);
    forall i | 0 <= i < |rates|
      ensures 1 <= raw[i] <= NAPI_POLL_WEIGHT * rates[i] / d + (if i == ch then 0 else 1)
    {
      Limits(rates, i);
      ShareBounds(rates, i);
    }
    Limits(rates, ch);
    ShareBounds(rates, ch);
    SharesBounded(rates, raw, d, ch);
    DivAtLeast(NAPI_POLL_WEIGHT * d, d, NAPI_POLL_WEIGHT + 1);
  }

  lemma Limits(rates: seq<nat>, i: nat)
    requires i < |rates| && LimitedNum(rates) == |rates|
    ensures rates[i] > 0
  {}

  lemma AllLimitedPositive(rates: seq<nat>, speed: nat)
    requires 0 < |rates| <= 8 && LimitedNum(rates) == |rates| && NAPI_POLL_WEIGHT * TotalRate(rates) < TWO_TO_THE_32
    ensures MaxRate(rates, speed) > 0
    ensures forall i :: 0 <= i < |rates| ==> TxBudgets(rates, speed)[i] >= 1
  {
    hide Portion, MaxRate, RawBudgets, FirstBar, Pick, Sum, TotalRate, TxBudgets;
    AllLimitedShares(rates, speed);
    PicksFastest(rates);
    RawBounds(rates, speed, Pick(rates, 0).0);
    TxBudgetsAre(rates, speed);
  }

  // ---- No channel limited -------------------------------------------------------------------------

  lemma {:induction false} PicksSecond(rates: seq<nat>)
    requires forall i :: 0 <= i < |rates| ==> rates[i] == 0
    ensures Pick(rates, 0) == (if |rates| >= 2 then 1 else 0, 0)
  {
    if rates != [] {
      PicksSecond(rates[..|rates| - 1]);
    }
  }

  lemma {:induction false} SumEqual(s: seq<int>, v: int)
    requires forall i :: 0 <= i < |s| ==> s[i] == v
    ensures Sum(s) == |s| * v
  {
    if s != [] {
      SumEqual(s[..|s| - 1], v);
      assert |s| * v == (|s| - 1) * v + v;
    }
  }

  /** Without limits the shares are equal, and the remainder goes to the second channel. */
  lemma NoneLimited(rates: seq<nat>, speed: nat)
    requires 0 < |rates| && LimitedNum(rates) == 0
    ensures var n, s := |rates|, TxBudgets(rates, speed);
            forall i :: 0 <= i < n ==>
              s[i] == NAPI_POLL_WEIGHT / n + (if i == (if n >= 2 then 1 else 0) then NAPI_POLL_WEIGHT % n else 0)
  {
    hide Sum, Pick, Portion, Scaled, MaxRate;
    var n, raw := |rates|, RawBudgets(rates, speed);
    assert forall i :: 0 <= i < n ==> raw[i] == NAPI_POLL_WEIGHT / n;
    PicksSecond(rates);
    SumEqual(raw, NAPI_POLL_WEIGHT / n);
    DivMod(NAPI_POLL_WEIGHT, n);
  }

  lemma DivMod(a: nat, n: nat)
    requires n > 0
    ensures a - n * (a / n) == a % n
  {}

  /** When all or none of at most eight channels are limited each gets at least one. */
  lemma TxBudgetsPositive(rates: seq<nat>, speed: nat)
    requires 0 < |rates| <= 8 && (LimitedNum(rates) == |rates| || LimitedNum(rates) == 0)
    requires NAPI_POLL_WEIGHT * TotalRate(rates) < TWO_TO_THE_32
    ensures LimitedNum(rates) != 0 ==> MaxRate(rates, speed) > 0
    ensures forall i :: 0 <= i < |rates| ==> TxBudgets(rates, speed)[i] >= 1
  {
    hide TxBudgets, MaxRate, LimitedNum;
    if LimitedNum(rates) == 0 {
      NoneLimited(rates, speed);
      DivAtLeast(NAPI_POLL_WEIGHT, |rates|, 1);
    } else {
      AllLimitedPositive(rates, speed);
    }
  }

  // ---- Some channels limited -----------------------------------------------------------------------

  /** With limited and free channels the whole is the speed of the link, or ten or a hundred
      times that: the least of the three that covers the limits, if any does. */
  lemma MaxRateCovers(rates: seq<nat>, speed: nat)
    requires 0 < LimitedNum(rates) < |rates|
    requires 100_000 * speed < TWO_TO_THE_32 && TotalRate(rates) < TWO_TO_THE_32
    ensures var m, t := MaxRate(rates, speed), TotalRate(rates);
            && (m >= t <==> 100_000 * speed >= t)
            && (m == 1000 * speed || (m == 10_000 * speed && 1000 * speed < t) ||
                 (m == 100_000 * speed && 10_000 * speed < t))
  {
    hide LimitedNum, TotalRate;
    var t := TotalRate(rates);
    Scales(1000 * speed, t);
    Scales(Scaled(1000 * speed, t), t);
    SmallWords(t, 1000 * speed);
  }

  lemma Scales(m: nat, t: nat)
    ensures 10 * m < TWO_TO_THE_32 ==> Scaled(m, t) == if m < t then 10 * m else m
  {}

  lemma SmallWords(a: nat, b: nat)
    ensures a < TWO_TO_THE_32 ==> ToU32(a) == a
    ensures b < TWO_TO_THE_32 ==> ToU32(b) == b
  {}

  lemma QuotientSign(a: int, b: nat)
    requires b > 0
    ensures Quotient(a, b) >= 0 <==> a + b > 0
  {
    if a < 0 {
      DivAtLeast(-a, b, 1);
    } else {
      DivAtLeast(a, b, 0);
    }
  }

  lemma FreeShareIs(rates: seq<nat>, speed: nat)
    requires 0 < LimitedNum(rates) < |rates| && MaxRate(rates, speed) > 0
    requires NAPI_POLL_WEIGHT * TotalRate(rates) < TWO_TO_THE_32
    ensures FreeShare(rates, speed) ==
              Quotient(NAPI_POLL_WEIGHT - NAPI_POLL_WEIGHT * TotalRate(rates) / MaxRate(rates, speed),
                  |rates| - LimitedNum(rates))
  {
    hide LimitedNum, TotalRate, MaxRate, Quotient, ToU32;
    SmallWords(TotalRate(rates), NAPI_POLL_WEIGHT * TotalRate(rates));
  }

  /** A free channel gets no negative share exactly as long as the limits take less of the
      budget than all of it and one more for each free channel; so in particular when the
      whole covers the limits. */
  lemma FreeShareExactly(rates: seq<nat>, speed: nat)
    requires 0 < LimitedNum(rates) < |rates| && MaxRate(rates, speed) > 0
    requires NAPI_POLL_WEIGHT * TotalRate(rates) < TWO_TO_THE_32
    ensures var m, t, free := MaxRate(rates, speed), TotalRate(rates), |rates| - LimitedNum(rates);
            && (FreeShare(rates, speed) >= 0 <==> NAPI_POLL_WEIGHT * t < m * (NAPI_POLL_WEIGHT + free))
            && (t <= m ==> FreeShare(rates, speed) >= 0)
  {
    hide LimitedNum, TotalRate, MaxRate, FreeShare, Quotient;
    var m, t, free := MaxRate(rates, speed), TotalRate(rates), |rates| - LimitedNum(rates);
    FreeShareIs(rates, speed);
    QuotientSign(NAPI_POLL_WEIGHT - NAPI_POLL_WEIGHT * t / m, free);
    DivAtLeast(NAPI_POLL_WEIGHT * t, m, NAPI_POLL_WEIGHT + free);
    DivAtLeast(NAPI_POLL_WEIGHT * t, m, NAPI_POLL_WEIGHT + 1);
  }

  // ---- Receive, and the pool weights ---------------------------------------------------------------

  function RxBudgets(n: nat): (s: seq<int>)
    requires n > 0
    ensures |s| == n
  {
    var each := NAPI_POLL_WEIGHT / n;
    seq(n, _ => each)[0 := each + NAPI_POLL_WEIGHT % n]
  }

  /** All but the first budget are equal parts. */
  lemma RxBudgetIs(n: nat, i: nat)
    requires 1 <= i < n
    ensures n * RxBudgets(n)[i] <= NAPI_POLL_WEIGHT < n * (RxBudgets(n)[i] + 1)
  {
    Bounded(NAPI_POLL_WEIGHT, n);
  }

  /** The receive budgets sum to the whole budget, and each is at least one for up to 64
      channels. */
  lemma RxBudgetsSum(n: nat)
    requires n > 0
    ensures Sum(RxBudgets(n)) == NAPI_POLL_WEIGHT
    ensures n <= NAPI_POLL_WEIGHT <==> forall i :: 0 <= i < n ==> RxBudgets(n)[i] >= 1
  {
    hide Sum;
    var each := NAPI_POLL_WEIGHT / n;
    var s := seq(n, _ => each);
    SumEqual(s, each);
    SumUpdate(s, 0, each + NAPI_POLL_WEIGHT % n);
    DivMod(NAPI_POLL_WEIGHT, n);
    DivAtLeast(NAPI_POLL_WEIGHT, n, 1);
    if n > NAPI_POLL_WEIGHT {
      assert RxBudgets(n)[1] == 0;
    }
  }

  function PoolWeight(rate: nat, maxRate: int): nat
    requires rate > 0 ==> maxRate > 0
  {
    if rate > 0 then Portion(rate, 100, maxRate) else 0
  }

  function PoolWeights(rates: seq<nat>, maxRate: int): (w: seq<nat>)
    requires forall i :: 0 <= i < |rates| && rates[i] > 0 ==> maxRate > 0
    ensures |w| == |rates|
  {
    seq(|rates|, i requires 0 <= i < |rates| => PoolWeight(rates[i], maxRate))
  }

  /** A limited channel weighs its percentage of the whole, but at least one, a free one nothing. */
  lemma WeightIs(rates: seq<nat>, maxRate: int, i: nat)
    requires i < |rates| && forall j :: 0 <= j < |rates| && rates[j] > 0 ==> maxRate > 0
    ensures var w := PoolWeights(rates, maxRate)[i];
            if rates[i] > 0 then IsPortion(w, ToU32(rates[i] * 100), maxRate) else w == 0
  {
    hide Portion, IsPortion, ToU32;
    if rates[i] > 0 {
      PortionOf(rates[i], 100, maxRate);
    }
  }

  // ---- The method --------------------------------------------------------------------------------------

  lemma WrapAdds(a: int, b: int)
    ensures ToU32(ToU32(a) + b) == ToU32(a + b)
  {}

  lemma RatePrefix(rates: seq<nat>, i: nat)
    requires i < |rates|
    ensures TotalRate(rates[..i + 1]) == TotalRate(rates[..i]) + rates[i]
    ensures LimitedNum(rates[..i + 1]) == LimitedNum(rates[..i]) + (if rates[i] > 0 then 1 else 0)
  {
    assert rates[..i + 1][..i] == rates[..i];
  }

  lemma PickPrefix(rates: seq<nat>, i: nat, bar: int)
    requires i < |rates|
    ensures var (ch, top) := Pick(rates[..i], bar);
            Pick(rates[..i + 1], bar) ==
              if rates[i] > 0 then (if rates[i] > top then (i, rates[i] as int) else (ch, top))
                  else (if ch == 0 then i else ch, top)
  {
    assert rates[..i + 1][..i] == rates[..i];
  }

  /** The consumed rate and the number of limited channels. */
  method CountRates(rates: seq<nat>) returns (consumedRate: int, rlimChNum: nat)
    ensures consumedRate == ToU32(TotalRate(rates)) && rlimChNum == LimitedNum(rates)
  {
    hide TotalRate, LimitedNum, ToU32;
    consumedRate, rlimChNum := 0, 0;
    NoRates();
    for i := 0 to |rates|
      invariant consumedRate == ToU32(TotalRate(rates[..i])) && rlimChNum == LimitedNum(rates[..i])
    {
      RatePrefix(rates, i);
      WrapAdds(TotalRate(rates[..i]), rates[i]);
      if rates[i] == 0 {
        continue;
      }
      rlimChNum := rlimChNum + 1;
      consumedRate := ToU32(consumedRate + rates[i]);
    }
    assert rates[..|rates|] == rates;
  }

  lemma NoRates()
    ensures TotalRate([]) == 0 && LimitedNum([]) == 0 && ToU32(0) == 0
  {}

  /** The three cases of the split, before the budgets are written. */
  method Bounds(rates: seq<nat>, speed: nat) returns (maxRate: int, chBudget: int, bar: int)
    requires |rates| > 0 && (LimitedNum(rates) != 0 ==> MaxRate(rates, speed) > 0)
    ensures maxRate == MaxRate(rates, speed) && chBudget == FreeShare(rates, speed) && bar == FirstBar(rates, speed)
  {
    hide TotalRate, LimitedNum, ToU32;
    var consumedRate, rlimChNum := CountRates(rates);
    chBudget, bar := 0, 0;
    if |rates| == rlimChNum {
      maxRate := consumedRate;
    } else if rlimChNum == 0 {
      chBudget := NAPI_POLL_WEIGHT / |rates|;
      maxRate := consumedRate;
    } else {
      maxRate := ToU32(speed * 1000);
      if maxRate < consumedRate {
        maxRate := ToU32(maxRate * 10);
      }
      if maxRate < consumedRate {
        maxRate := ToU32(maxRate * 10);
      }
      chBudget := ToU32(consumedRate * NAPI_POLL_WEIGHT) / maxRate;
      chBudget := Quotient(NAPI_POLL_WEIGHT - chBudget, |rates| - rlimChNum);
      bar := ToU32(maxRate - consumedRate) / (|rates| - rlimChNum);
    }
  }

  /** `cpsw_split_res` for the rates of the transmit channels and `rxNum` receive channels.
      The weights go to the channels of the pool. */
  method SplitRes(rates: seq<nat>, speed: nat, tx: array<int>, rx: array<int>, rxNum: nat) returns (weights: seq<nat>)
    requires 0 < |rates| <= tx.Length && 0 < rxNum <= rx.Length && tx != rx
    requires LimitedNum(rates) != 0 ==> MaxRate(rates, speed) > 0
    modifies tx, rx
    ensures tx[..] == TxBudgets(rates, speed) + old(tx[|rates|..])
    ensures rx[..] == RxBudgets(rxNum) + old(rx[rxNum..])
    ensures weights == PoolWeights(rates, MaxRate(rates, speed))
  {
    hide Sum, Pick, Portion, MaxRate, FreeShare, FirstBar, LimitedNum;
    var maxRate, chBudget, bigestRate := Bounds(rates, speed);
    weights := SplitTx(rates, speed, tx, maxRate, chBudget, bigestRate);
    SplitRx(rx, rxNum);
  }

  method SplitTx(rates: seq<nat>, speed: nat, tx: array<int>, maxRate: int, chBudget: int, bar: int)
    returns (weights: seq<nat>)
    requires 0 < |rates| <= tx.Length && (LimitedNum(rates) != 0 ==> MaxRate(rates, speed) > 0)
    requires maxRate == MaxRate(rates, speed) && chBudget == FreeShare(rates, speed) && bar == FirstBar(rates, speed)
    modifies tx
    ensures tx[..] == TxBudgets(rates, speed) + old(tx[|rates|..])
    ensures weights == PoolWeights(rates, MaxRate(rates, speed))
  {
    hide Sum, Pick, Portion, MaxRate, FreeShare, FirstBar, LimitedNum, TotalRate, ToU32, RawBudgets, PoolWeights,
      TxBudgets;
    ghost var raw, ws := RawBudgets(rates, speed), PoolWeights(rates, maxRate);
    var budget, bigestRateCh, bigestRate := NAPI_POLL_WEIGHT, 0, bar;
    weights := [];
    NothingPicked(bar);
    for i := 0 to |rates|
      invariant forall j :: 0 <= j < i ==> tx[j] == raw[j]
      invariant forall j :: |rates| <= j < tx.Length ==> tx[j] == old(tx[j])
      invariant budget == NAPI_POLL_WEIGHT - Sum(raw[..i])
      invariant (bigestRateCh, bigestRate) == Pick(rates[..i], bar)
      invariant weights == ws[..i]
    {
      PickPrefix(rates, i, bar);
      NextSum(raw, i);
      SharesAt(rates, speed, i);
      WeightsAt(rates, maxRate, i);
      var chRate := rates[i];
      if chRate != 0 {
        tx[i] := Portion(chRate, NAPI_POLL_WEIGHT, maxRate);
        if chRate > bigestRate {
          bigestRateCh := i;
          bigestRate := chRate;
        }
        weights := weights + [Portion(chRate, 100, maxRate)];
      } else {
        tx[i] := chBudget;
        if bigestRateCh == 0 {
          bigestRateCh := i;
        }
        weights := weights + [0];
      }
      budget := budget - tx[i];
    }
    assert rates[..|rates|] == rates && raw[..|rates|] == raw && ws[..|rates|] == ws;
    if budget != 0 {
      tx[bigestRateCh] := tx[bigestRateCh] + budget;
    }
    WithRemainder(raw, bigestRateCh, budget, tx[..], old(tx[|rates|..]));
    TxBudgetsAre(rates, speed);
  }

  lemma SharesAt(rates: seq<nat>, speed: nat, i: nat)
    requires i < |rates| && (LimitedNum(rates) != 0 ==> MaxRate(rates, speed) > 0)
    ensures rates[i] != 0 ==> MaxRate(rates, speed) > 0
    ensures RawBudgets(rates, speed)[i] == RawBudget(rates[i], MaxRate(rates, speed), FreeShare(rates, speed))
  {
    hide MaxRate, FreeShare, Portion, LimitedNum, RawBudget;
  }

  lemma WeightsAt(rates: seq<nat>, maxRate: int, i: nat)
    requires i < |rates| && forall j :: 0 <= j < |rates| && rates[j] > 0 ==> maxRate > 0
    ensures var w := PoolWeights(rates, maxRate);
            w[i] == PoolWeight(rates[i], maxRate) && w[..i + 1] == w[..i] + [PoolWeight(rates[i], maxRate)]
  {
    hide PoolWeight;
  }

  lemma TxBudgetsAre(rates: seq<nat>, speed: nat)
    requires |rates| > 0 && (LimitedNum(rates) != 0 ==> MaxRate(rates, speed) > 0)
    ensures var raw, ch := RawBudgets(rates, speed), Pick(rates, FirstBar(rates, speed)).0;
            TxBudgets(rates, speed) == raw[ch := raw[ch] + (NAPI_POLL_WEIGHT - Sum(raw))]
  {
    hide RawBudgets, FirstBar, Sum, Pick, MaxRate, LimitedNum, TotalRate, FreeShare;
    var raw, ch := RawBudgets(rates, speed), Pick(rates, FirstBar(rates, speed)).0;
    var topped := raw[ch := raw[ch] + (NAPI_POLL_WEIGHT - Sum(raw))];
    assert TxBudgets(rates, speed) == topped;
  }

  lemma WithRemainder(raw: seq<int>, ch: nat, extra: int, s: seq<int>, rest: seq<int>)
    requires ch < |raw| <= |s| && s[|raw|..] == rest
    requires forall j :: 0 <= j < |raw| ==> s[j] == raw[j] + (if j == ch then extra else 0)
    ensures s == raw[ch := raw[ch] + extra] + rest
  {}

  lemma NothingPicked(bar: int)
    ensures Pick([], bar) == (0, bar) && Sum([]) == 0
  {}

  method SplitRx(rx: array<int>, rxNum: nat)
    requires 0 < rxNum <= rx.Length
    modifies rx
    ensures rx[..] == RxBudgets(rxNum) + old(rx[rxNum..])
  {
    var budget := NAPI_POLL_WEIGHT;
    var chBudget := budget / rxNum;
    for i := 0 to rxNum
      invariant forall j :: 0 <= j < i ==> rx[j] == chBudget
      invariant forall j :: rxNum <= j < rx.Length ==> rx[j] == old(rx[j])
      invariant budget == NAPI_POLL_WEIGHT - i * chBudget
    {
      rx[i] := chBudget;
      budget := budget - chBudget;
      assert (i + 1) * chBudget == i * chBudget + chBudget;
    }
    DivMod(NAPI_POLL_WEIGHT, rxNum);
    if budget != 0 {
      rx[0] := rx[0] + budget;
    }
    assert rx[..] == RxBudgets(rxNum) + old(rx[rxNum..]);
  }
}
