/** The search for the factors of a rate limit.

  A limited channel sends for `send` and idles for `idle` clocks in turn, so its rate is
  `freq * idle / (idle + send)` in Kb/s. The search looks for the smallest such rate that
  is not below the one asked for.
 */
module RateSearch {
  import opened Kernel

  const MAX_RLIM_CNT: int := 16384
  const UINT_MAX: int := 0xffff_ffff

  // ---- Rounding ----------------------------------------------------------------------

  function DivRoundUp(x: nat, d: nat): nat
    requires d > 0
  {
    (x + d - 1) / d
  }

  function DivRoundClosest(x: nat, d: nat): nat
    requires d > 0
  {
    (x + d / 2) / d
  }

  // ---- Candidates ----------------------------------------------------------------------

  /** The bounds under which the search is used: `2 * rate <= freq`. */
  predicate Searchable(freq: nat, rate: nat) {
    0 < rate && 2 * rate <= freq <= UINT_MAX
  }

  function FirstSend(freq: nat, rate: nat): nat
    requires Searchable(freq, rate)
  {
    DivRoundUp(freq - rate, rate)
  }

  /** The idle count that fits `send` best. */
  function IdleFor(freq: nat, rate: nat, send: nat): nat
    requires Searchable(freq, rate)
  {
    DivRoundClosest(rate * send, freq - rate)
  }

  function RateOf(freq: nat, idle: nat, send: nat): nat
    requires idle + send > 0
  {
    DivRoundClosest(freq * idle, idle + send)
  }

  /** The rate reached with the send count `send`. */
  function Candidate(freq: nat, rate: nat, send: nat): nat
    requires Searchable(freq, rate) && send > 0
  {
    RateOf(freq, IdleFor(freq, rate, send), send)
  }

  /** The send count that fits `idle` best. */
  function SendFor(freq: nat, rate: nat, idle: nat): int
    requires Searchable(freq, rate)
  {
    DivRoundClosest(freq * idle, rate) - idle
  }

  /** The send count that fits the next larger idle count. */
  function Jump(freq: nat, rate: nat, send: nat): int
    requires Searchable(freq, rate)
  {
    SendFor(freq, rate, IdleFor(freq, rate, send) + 1)
  }

  lemma FirstSendBounds(freq: nat, rate: nat, n: nat)
    requires Searchable(freq, rate)
    ensures FirstSend(freq, rate) >= 1
    ensures FirstSend(freq, rate) <= n <==> freq <= rate * (n + 1)
    ensures FirstSend(freq, rate) <= n <==> freq - rate <= rate * n
  {
    DivAtLeast(freq - 1, rate, 1);
    DivAtLeast(freq - 1, rate, n + 1);
    assert rate * (n + 1) == rate * n + rate;
  }

  /** The idle count is never zero and never exceeds the send count. */
  lemma IdleBounds(freq: nat, rate: nat, send: nat)
    requires Searchable(freq, rate) && send >= FirstSend(freq, rate)
    ensures 1 <= IdleFor(freq, rate, send) <= send
  {
    hide FirstSend;
    var m := freq - rate;
    FirstSendBounds(freq, rate, send);
    DivAtLeast(rate * send + m / 2, m, 1);
    MulMono(send, rate, m);
    DivAtLeast(rate * send + m / 2, m, send + 1);
    assert m * (send + 1) == m * send + m;
  }

  /** No candidate is above the bus frequency. */
  lemma RateAtMost(freq: nat, idle: nat, send: nat)
    requires idle + send > 0
    ensures RateOf(freq, idle, send) <= freq
  {
    var d := idle + send;
    DivAtLeast(freq * idle + d / 2, d, freq + 1);
    MulMono(freq, idle, d);
    assert d * (freq + 1) == freq * d + d;
  }

  /** The jump to the next idle count always goes forward. */
  lemma JumpAdvances(freq: nat, rate: nat, send: nat)
    requires Searchable(freq, rate)
    ensures Jump(freq, rate, send) > send
  {
    var m := freq - rate;
    var idle := IdleFor(freq, rate, send) + 1;
    DivAtLeast(rate * send + m / 2, m, idle);
    assert m * idle >= rate * send + m / 2 + 1;
    assert freq * idle == m * idle + rate * idle;
    DivShift(m * idle + rate / 2, rate, idle);
    assert Jump(freq, rate, send) == (m * idle + rate / 2) / rate;
    DivAtLeast(m * idle + rate / 2, rate, send + 1);
    assert rate * (send + 1) == rate * send + rate;
  }

  // ---- The path of the search --------------------------------------------------------------

  /** The loop variables at the loop head: `delta` keeps its value when a candidate is too
      low, and `prevDelta` is reset by a jump. */
  datatype State = State(send: int, delta: int, prevDelta: int)

  function Overshoot(freq: nat, rate: nat, st: State): int
    requires Searchable(freq, rate) && st.send > 0
  {
    var found := Candidate(freq, rate, st.send);
    if found >= rate then found - rate else st.delta
  }

  function NextState(freq: nat, rate: nat, st: State): State
    requires Searchable(freq, rate) && st.send > 0
  {
    var delta := Overshoot(freq, rate, st);
    if st.prevDelta >= delta then State(st.send + 1, delta, delta)
    else State(Jump(freq, rate, st.send), delta, UINT_MAX)
  }

  /** Every round moves the send count forward. */
  lemma NextAdvances(freq: nat, rate: nat, st: State)
    requires Searchable(freq, rate) && st.send > 0
    ensures NextState(freq, rate, st).send > st.send
  {
    JumpAdvances(freq, rate, st.send);
  }

  /** `path` holds the states of all rounds of the search, in order. */
  ghost predicate SearchPath(freq: nat, rate: nat, path: seq<State>)
    requires Searchable(freq, rate)
  {
    && (forall i :: 0 <= i < |path| ==> 0 < path[i].send <= MAX_RLIM_CNT)
    && (path != [] ==> path[0] == State(FirstSend(freq, rate), UINT_MAX, UINT_MAX))
    && (forall i :: 0 <= i < |path| - 1 ==> path[i + 1] == NextState(freq, rate, path[i]))
  }

  /** The search ends at an exact hit or when the send count leaves its range. */
  ghost predicate Ended(freq: nat, rate: nat, path: seq<State>)
    requires Searchable(freq, rate) && SearchPath(freq, rate, path)
  {
    if path == [] then FirstSend(freq, rate) > MAX_RLIM_CNT
    else
      var st := path[|path| - 1];
      Candidate(freq, rate, st.send) == rate || NextState(freq, rate, st).send > MAX_RLIM_CNT
  }

  /** What the driver writes into the channel. */
  datatype Factors = Factors(rate: nat, send: nat, idle: nat)

  /** `best` is the first candidate on the path with the least overshoot; without any
      candidate at or above the rate asked for, the channel ends up unlimited. */
  ghost predicate Best(freq: nat, rate: nat, path: seq<State>, best: Factors)
    requires Searchable(freq, rate) && SearchPath(freq, rate, path)
  {
    if best.rate == 0 then
      && best == Factors(0, 0, 0)
      && forall i :: 0 <= i < |path| ==> Candidate(freq, rate, path[i].send) < rate
    else
      && rate <= best.rate
      && 1 <= best.idle <= best.send <= MAX_RLIM_CNT
      && best.rate == RateOf(freq, best.idle, best.send)
      && (exists i :: 0 <= i < |path| && path[i].send == best.send)
      && best.idle == IdleFor(freq, rate, best.send)
      && (forall i :: 0 <= i < |path| && Candidate(freq, rate, path[i].send) >= rate ==>
                        best.rate <= Candidate(freq, rate, path[i].send))
      && forall i :: 0 <= i < |path| && path[i].send < best.send && Candidate(freq, rate, path[i].send) >= rate ==>
                       best.rate < Candidate(freq, rate, path[i].send)
  }

  lemma BestGrows(freq: nat, rate: nat, path: seq<State>, st: State, best: Factors)
    requires Searchable(freq, rate) && SearchPath(freq, rate, path) && SearchPath(freq, rate, path + [st])
    requires Best(freq, rate, path, best) && FirstSend(freq, rate) <= st.send <= MAX_RLIM_CNT
    requires forall i :: 0 <= i < |path| ==> path[i].send < st.send
    ensures var found := Candidate(freq, rate, st.send);
            && (found < rate || (best.rate != 0 && best.rate <= found) ==> Best(freq, rate, path + [st], best))
            && (rate <= found && (best.rate == 0 || found < best.rate) ==>
                  Best(freq, rate, path + [st], Factors(found, st.send, IdleFor(freq, rate, st.send))))
  {
    hide IdleFor, RateOf, FirstSend;
    IdleBounds(freq, rate, st.send);
    var path' := path + [st];
    assert forall i :: 0 <= i < |path| ==> path'[i] == path[i];
    assert path'[|path|] == st;
  }

  lemma PathGrows(freq: nat, rate: nat, path: seq<State>, st: State)
    requires Searchable(freq, rate) && SearchPath(freq, rate, path) && 0 < st.send <= MAX_RLIM_CNT
    requires st == if path == [] then State(FirstSend(freq, rate), UINT_MAX, UINT_MAX)
                   else NextState(freq, rate, path[|path| - 1])
    ensures SearchPath(freq, rate, path + [st])
  {}

  /** One round of the loop is one step of the path. */
  lemma RoundForms(freq: nat, rate: nat, st: State)
    requires Searchable(freq, rate) && FirstSend(freq, rate) <= st.send && st.send > 0
    ensures var idle := IdleFor(freq, rate, st.send);
            var found := RateOf(freq, idle, st.send);
            var delta := if found >= rate then found - rate else st.delta;
            && found == Candidate(freq, rate, st.send) <= freq
            && NextState(freq, rate, st).send > st.send
            && NextState(freq, rate, st) ==
                 if st.prevDelta >= delta then State(st.send + 1, delta, delta)
                 else State(SendFor(freq, rate, idle + 1), delta, UINT_MAX)
  {
    hide RateOf, SendFor, IdleFor, FirstSend;
    NextAdvances(freq, rate, st);
    RateAtMost(freq, IdleFor(freq, rate, st.send), st.send);
  }

  /** The search loop of `cpdma_chan_set_factors`. */
  method SearchLoop(freq: nat, rate: nat) returns (best: Factors, ghost path: seq<State>)
    requires Searchable(freq, rate)
    ensures SearchPath(freq, rate, path) && Ended(freq, rate, path) && Best(freq, rate, path, best)
    ensures |path| <= MAX_RLIM_CNT
  {
    hide IdleFor, RateOf, SendFor, Candidate, NextState, DivRoundUp, SearchPath, Best, Jump, Overshoot;
    var delta, prevDelta, bestDelta := UINT_MAX, UINT_MAX, UINT_MAX;
    best := Factors(0, 0, 0);
    path := [];
    var sendCnt := DivRoundUp(freq - rate, rate);
    FirstSendBounds(freq, rate, 0);
    EmptyPath(freq, rate);
    while sendCnt <= MAX_RLIM_CNT
      invariant sendCnt >= FirstSend(freq, rate) && sendCnt > |path|
      invariant SearchPath(freq, rate, path) && |path| <= MAX_RLIM_CNT
      invariant path != [] ==> path[|path| - 1].send > 0
      invariant forall i :: 0 <= i < |path| ==> path[i].send < sendCnt
      invariant State(sendCnt, delta, prevDelta) ==
                  if path == [] then State(FirstSend(freq, rate), UINT_MAX, UINT_MAX)
                      else NextState(freq, rate, path[|path| - 1])
      invariant bestDelta <= delta
      invariant bestDelta == if best.rate == 0 then UINT_MAX else best.rate - rate
      invariant Best(freq, rate, path, best)
      decreases MAX_RLIM_CNT + 1 - sendCnt
    {
      ghost var st := State(sendCnt, delta, prevDelta);
      RoundForms(freq, rate, st);
      PathGrows(freq, rate, path, st);
      BestGrows(freq, rate, path, st, best);
      var idleCnt := IdleFor(freq, rate, sendCnt);
      var newRate := RateOf(freq, idleCnt, sendCnt);
      path := path + [st];
      delta := if newRate >= rate then newRate - rate else delta;
      if delta < bestDelta {
        bestDelta := delta;
        best := Factors(newRate, sendCnt, idleCnt);
        if delta == 0 {
          break;
        }
      }
      if prevDelta >= delta {
        prevDelta := delta;
        sendCnt := sendCnt + 1;
        continue;
      }
      idleCnt := idleCnt + 1;
      sendCnt := SendFor(freq, rate, idleCnt);
      prevDelta := UINT_MAX;
    }
  }

  lemma EmptyPath(freq: nat, rate: nat)
    requires Searchable(freq, rate)
    ensures SearchPath(freq, rate, []) && Best(freq, rate, [], Factors(0, 0, 0))
  {}

  // ---- Exactly when the search finds a rate ------------------------------------------------

  /** Send counts on the path only grow. */
  lemma {:induction false} PathFrom(freq: nat, rate: nat, path: seq<State>, i: nat)
    requires Searchable(freq, rate) && SearchPath(freq, rate, path) && i < |path|
    ensures path[i].send >= FirstSend(freq, rate) + i
  {
    hide FirstSend, NextState;
    if i > 0 {
      PathFrom(freq, rate, path, i - 1);
      NextAdvances(freq, rate, path[i - 1]);
    }
  }

  /** As long as every candidate is too low, no send count is skipped. */
  lemma {:induction false} UnhitPath(freq: nat, rate: nat, path: seq<State>, i: nat)
    requires Searchable(freq, rate) && SearchPath(freq, rate, path) && i < |path|
    requires forall j :: 0 <= j < i ==> Candidate(freq, rate, path[j].send) < rate
    ensures path[i] == State(FirstSend(freq, rate) + i, UINT_MAX, UINT_MAX)
  {
    hide FirstSend, Candidate;
    if i > 0 {
      UnhitPath(freq, rate, path, i - 1);
      assert path[i - 1 + 1] == NextState(freq, rate, path[i - 1]);
    }
  }

  /** Some send count in the range of the register reaches the rate. */
  ghost predicate Attainable(freq: nat, rate: nat)
    requires Searchable(freq, rate)
  {
    exists send: nat :: 0 < send && FirstSend(freq, rate) <= send <= MAX_RLIM_CNT && Candidate(freq, rate, send) >= rate
  }

  /** The search misses no rate in the range. */
  lemma FindsAttainable(freq: nat, rate: nat, path: seq<State>, best: Factors)
    requires Searchable(freq, rate) && SearchPath(freq, rate, path)
    requires Ended(freq, rate, path) && Best(freq, rate, path, best)
    ensures best.rate != 0 <==> Attainable(freq, rate)
  {
    hide FirstSend, RateOf, IdleFor;
    if best.rate != 0 {
      var i: nat :| i < |path| && path[i].send == best.send;
      PathFrom(freq, rate, path, i);
      assert Candidate(freq, rate, best.send) >= rate;
    } else if Attainable(freq, rate) {
      NothingFound(freq, rate, path);
    }
  }

  lemma NothingFound(freq: nat, rate: nat, path: seq<State>)
    requires Searchable(freq, rate) && SearchPath(freq, rate, path) && Ended(freq, rate, path)
    requires forall i :: 0 <= i < |path| ==> Candidate(freq, rate, path[i].send) < rate
    ensures !Attainable(freq, rate)
  {
    hide FirstSend, Candidate;
    FirstSendBounds(freq, rate, 0);
    if path != [] {
      UnhitPath(freq, rate, path, |path| - 1);
      forall send: nat | 0 < send && FirstSend(freq, rate) <= send <= MAX_RLIM_CNT
        ensures Candidate(freq, rate, send) < rate
      {
        var i: nat := send - FirstSend(freq, rate);
        UnhitPath(freq, rate, path, i);
        assert path[i].send == send;
      }
    }
  }

  /** A send count reaches the rate when its idle count was rounded up. */
  lemma Hits(freq: nat, rate: nat, send: nat, idle: nat)
    requires Searchable(freq, rate) && send > 0
    requires var m := freq - rate; m * idle <= rate * send + m / 2 && rate * send <= m * idle
    ensures Candidate(freq, rate, send) >= rate
  {
    var m := freq - rate;
    var k := IdleFor(freq, rate, send);
    DivAtLeast(rate * send + m / 2, m, idle);
    MulMono(m, idle, k);
    RoundedUp(freq, rate, k, send);
  }

  lemma RoundedUp(freq: nat, rate: nat, idle: nat, send: nat)
    requires Searchable(freq, rate) && send > 0 && rate * send <= (freq - rate) * idle
    ensures RateOf(freq, idle, send) >= rate
  {
    assert freq * idle == (freq - rate) * idle + rate * idle;
    assert (idle + send) * rate == rate * idle + rate * send;
    DivAtLeast(freq * idle + (idle + send) / 2, idle + send, rate);
  }

  /** A bus frequency, 1864 MHz, up to which the condition holds for every admitted rate. */
  const SAFE_FREQ: int := 59_652_323

  lemma FirstSendIs(freq: nat, rate: nat)
    requires Searchable(freq, rate)
    ensures freq <= rate * (FirstSend(freq, rate) + 1) <= freq + rate - 1
  {
    var s := FirstSend(freq, rate);
    FirstSendBounds(freq, rate, s);
    FirstSendBounds(freq, rate, s - 1);
    assert rate * (s + 1) == rate * s + rate;
  }

  /** Rounding to the closest rate is enough when idling for one clock. */
  lemma NearHit(freq: nat, rate: nat, send: nat)
    requires Searchable(freq, rate) && send >= FirstSend(freq, rate) && send > 0
    requires rate * (send + 1) <= freq + (send + 1) / 2
    ensures Candidate(freq, rate, send) >= rate
  {
    IdleBounds(freq, rate, send);
    NearRate(freq, rate, IdleFor(freq, rate, send), send);
  }

  lemma NearProducts(freq: nat, rate: nat, extra: nat, send: nat)
    requires rate <= freq && rate * (send + 1) <= freq + (send + 1) / 2
    ensures (extra + 1 + send) * rate <= freq * (extra + 1) + (extra + 1 + send) / 2
  {
    assert freq * (extra + 1) == freq + freq * extra;
    assert (extra + 1 + send) * rate == rate * (send + 1) + rate * extra;
    MulMono(extra, rate, freq);
  }

  lemma NearRate(freq: nat, rate: nat, idle: nat, send: nat)
    requires Searchable(freq, rate) && idle >= 1 && rate * (send + 1) <= freq + (send + 1) / 2
    ensures RateOf(freq, idle, send) >= rate
  {
    NearProducts(freq, rate, idle - 1, send);
    DivAtLeast(freq * idle + (idle + send) / 2, idle + send, rate);
  }

  lemma SlowRates(freq: nat, rate: nat)
    requires Searchable(freq, rate) && 2 * (rate * rate) <= freq
    ensures var s := FirstSend(freq, rate); rate * (s + 1) <= freq + (s + 1) / 2
  {
    hide FirstSend;
    var s := FirstSend(freq, rate);
    FirstSendIs(freq, rate);
    FirstSendBounds(freq, rate, s);
    assert rate * (2 * rate - 1) == 2 * (rate * rate) - rate;
    if s + 1 < 2 * rate {
      MulMono(rate, s + 1, 2 * rate - 1);
    }
  }

  /** The send count at which the idle count is rounded up to two. */
  function SecondSend(freq: nat, rate: nat): nat
    requires Searchable(freq, rate)
  {
    var m := freq - rate;
    DivRoundUp(2 * m - m / 2, rate)
  }

  lemma SecondSendBounds(freq: nat, rate: nat)
    requires Searchable(freq, rate)
    ensures var m := freq - rate; 2 * m - m / 2 <= rate * SecondSend(freq, rate) <= 2 * m - m / 2 + rate - 1
  {
    var m := freq - rate;
    var x := 2 * m - m / 2;
    var send := DivRoundUp(x, rate);
    DivAtLeast(x + rate - 1, rate, send);
    DivAtLeast(x + rate - 1, rate, send + 1);
    assert rate * (send + 1) == rate * send + rate;
  }

  /** Below that send count the channel idles for one clock. */
  lemma OneIdle(freq: nat, rate: nat, send: nat)
    requires Searchable(freq, rate) && FirstSend(freq, rate) <= send < SecondSend(freq, rate)
    ensures IdleFor(freq, rate, send) == 1
  {
    hide FirstSend, SecondSend;
    var m := freq - rate;
    SecondSendBounds(freq, rate);
    MulMono(rate, send, SecondSend(freq, rate) - 1);
    assert rate * (SecondSend(freq, rate) - 1) == rate * SecondSend(freq, rate) - rate;
    IdleBounds(freq, rate, send);
    IdleBelowTwo(rate * send + m / 2, m);
  }

  lemma IdleBelowTwo(x: nat, m: nat)
    requires m > 0
    ensures x < 2 * m ==> x / m < 2
  {
    DivAtLeast(x, m, 2);
  }

  /** Among the send counts with one idle clock the first is the best. */
  lemma FirstIsBest(freq: nat, rate: nat, send: nat)
    requires Searchable(freq, rate) && FirstSend(freq, rate) <= send && RateOf(freq, 1, send) >= rate
    ensures var s := FirstSend(freq, rate); rate * (s + 1) <= freq + (s + 1) / 2
  {
    hide FirstSend;
    var s := FirstSend(freq, rate);
    FirstSendBounds(freq, rate, s);
    DivAtLeast(freq + (1 + send) / 2, 1 + send, rate);
    assert (1 + send) * rate == rate * (s + 1) + rate * (send - s);
    MulMono(send - s, 1, rate);
  }

  /** The rates with factors: those whose first send count fits the register and is close
      enough, or is followed in time by one with two idle clocks. */
  predicate InReach(freq: nat, rate: nat)
    requires Searchable(freq, rate)
  {
    var s := FirstSend(freq, rate);
    && s <= MAX_RLIM_CNT
    && (freq < 3 * rate || rate * (s + 1) <= freq + (s + 1) / 2 || SecondSend(freq, rate) <= MAX_RLIM_CNT)
  }

  lemma ReachExactly(freq: nat, rate: nat)
    requires Searchable(freq, rate)
    ensures Attainable(freq, rate) <==> InReach(freq, rate)
  {
    hide FirstSend, SecondSend, Candidate;
    if InReach(freq, rate) {
      ReachSuffices(freq, rate);
    } else if Attainable(freq, rate) {
      ReachNeeded(freq, rate);
    }
  }

  lemma ReachNeeded(freq: nat, rate: nat)
    requires Searchable(freq, rate) && Attainable(freq, rate)
    ensures InReach(freq, rate)
  {
    hide FirstSend, SecondSend, RateOf, IdleFor;
    var send: nat :| 0 < send && FirstSend(freq, rate) <= send <= MAX_RLIM_CNT && Candidate(freq, rate, send) >= rate;
    if send < SecondSend(freq, rate) {
      OneIdle(freq, rate, send);
      FirstIsBest(freq, rate, send);
    }
  }

  lemma ReachSuffices(freq: nat, rate: nat)
    requires Searchable(freq, rate) && InReach(freq, rate)
    ensures Attainable(freq, rate)
  {
    hide FirstSend, SecondSend, Candidate;
    var s := FirstSend(freq, rate);
    FirstSendBounds(freq, rate, s);
    if freq < 3 * rate {
      var send := SteepRates(freq, rate);
    } else if rate * (s + 1) <= freq + (s + 1) / 2 {
      NearHit(freq, rate, s);
    } else {
      var send := SecondSend(freq, rate);
      SecondSendBounds(freq, rate);
      FirstSendBounds(freq, rate, send);
      Hits(freq, rate, send, 2);
    }
  }

  lemma SecondSendFits(freq: nat, rate: nat)
    requires Searchable(freq, rate) && freq < 2 * (rate * rate) && freq <= SAFE_FREQ
    ensures SecondSend(freq, rate) <= MAX_RLIM_CNT
  {
    var m, send := freq - rate, SecondSend(freq, rate);
    SecondSendBounds(freq, rate);
    if send > MAX_RLIM_CNT {
      MulMono(rate, 16385, send);
      TooSlow(freq, rate);
    }
  }

  lemma TooSlow(freq: nat, rate: nat)
    requires 0 < freq <= SAFE_FREQ && 32768 * rate < 3 * freq
    ensures 2 * (rate * rate) <= freq
  {
    var a, b := 32768 * rate, 3 * freq;
    MulMono(a, a, b);
    MulMono(b, a, b);
    assert a * a == 1073741824 * (rate * rate);
    assert b * b == 9 * (freq * freq);
    MulMono(freq, freq, SAFE_FREQ);
  }

  lemma SteepRates(freq: nat, rate: nat) returns (send: nat)
    requires Searchable(freq, rate) && freq < 3 * rate
    ensures 0 < send && FirstSend(freq, rate) <= send <= MAX_RLIM_CNT && Candidate(freq, rate, send) >= rate
  {
    var m := freq - rate;
    if m == rate {
      send := 1;
      Hits(freq, rate, 1, 1);
    } else if 4 * (m - rate) <= m {
      send := 2;
      Hits(freq, rate, 2, 2);
    } else if 3 * (m - rate) >= m {
      send := 3;
      Hits(freq, rate, 3, 2);
    } else {
      send := 4;
      Hits(freq, rate, 4, 3);
    }
    FirstSendBounds(freq, rate, send);
  }

  /** The search finds a rate exactly for the rates in reach. */
  lemma FindsExactly(freq: nat, rate: nat, path: seq<State>, best: Factors)
    requires Searchable(freq, rate) && SearchPath(freq, rate, path)
    requires Ended(freq, rate, path) && Best(freq, rate, path, best)
    ensures best.rate != 0 <==> InReach(freq, rate)
  {
    hide InReach, Attainable, FirstSend, RateOf, IdleFor, Candidate;
    FindsAttainable(freq, rate, path, best);
    ReachExactly(freq, rate);
  }

  /** The search, as its caller sees it: a rate in reach is found, with factors that fit the
      register, and any other leaves the channel without a limit. */
  method Search(freq: nat, rate: nat) returns (best: Factors, ghost path: seq<State>)
    requires Searchable(freq, rate)
    ensures SearchPath(freq, rate, path) && Ended(freq, rate, path) && Best(freq, rate, path, best)
    ensures |path| <= MAX_RLIM_CNT
    ensures if InReach(freq, rate)
            then rate <= best.rate == RateOf(freq, best.idle, best.send) && 1 <= best.idle <= best.send <= MAX_RLIM_CNT
            else best == Factors(0, 0, 0)
  {
    hide InReach, RateOf, SearchPath, Ended, Candidate, IdleFor;
    best, path := SearchLoop(freq, rate);
    FindsExactly(freq, rate, path, best);
  }

  // ---- Where the search goes -----------------------------------------------------------------

  /** `q` is an integer nearest to `num / den`. */
  predicate Nearest(num: nat, den: nat, q: int) {
    2 * (den * q - num) <= den && 2 * (num - den * q) <= den
  }

  lemma ClosestBounds(x: nat, d: nat)
    requires d > 0
    ensures var q := DivRoundClosest(x, d); d * q <= x + d / 2 < d * q + d && Nearest(x, d, q)
  {
    var q := DivRoundClosest(x, d);
    DivAtLeast(x + d / 2, d, q);
    DivAtLeast(x + d / 2, d, q + 1);
    assert d * (q + 1) == d * q + d;
  }

  /** The idle count of a round is the one nearest to the wanted ratio, and its rate the one
      nearest to what the two counts give. */
  lemma RoundNearest(freq: nat, rate: nat, send: nat)
    requires Searchable(freq, rate) && send > 0
    ensures var idle := IdleFor(freq, rate, send);
            && Nearest(rate * send, freq - rate, idle)
            && Nearest(freq * idle, idle + send, Candidate(freq, rate, send))
  {
    hide DivRoundClosest, Nearest;
    var idle := IdleFor(freq, rate, send);
    ClosestBounds(rate * send, freq - rate);
    ClosestBounds(freq * idle, idle + send);
  }

  lemma SendForIs(freq: nat, rate: nat, idle: nat)
    requires Searchable(freq, rate)
    ensures SendFor(freq, rate, idle) == DivRoundClosest((freq - rate) * idle, rate)
  {
    var m := freq - rate;
    assert freq * idle == m * idle + rate * idle;
    DivShift(m * idle + rate / 2, rate, idle);
  }

  /** A jump lands on the send count that fits best to one more idle clock, and there the
      channel does idle for one more. */
  lemma JumpLands(freq: nat, rate: nat, send: nat)
    requires Searchable(freq, rate)
    ensures Jump(freq, rate, send) > send && Lands(freq, rate, send, Jump(freq, rate, send))
  {
    hide DivRoundClosest, Nearest, IdleFor, SendFor;
    var m, k := freq - rate, IdleFor(freq, rate, send) + 1;
    JumpAdvances(freq, rate, send);
    SendForIs(freq, rate, k);
    ClosestBounds(m * k, rate);
    IdleAt(freq, rate, Jump(freq, rate, send), k);
  }

  lemma IdleAt(freq: nat, rate: nat, send: nat, k: nat)
    requires Searchable(freq, rate)
    requires var m := freq - rate; rate * send <= m * k + rate / 2 < rate * send + rate
    ensures IdleFor(freq, rate, send) == k
  {
    var m := freq - rate;
    if rate == m {
      SameCount(m, send, k);
    }
    QuotientIs(rate * send, m, rate, m * k, k);
  }

  lemma SameCount(m: nat, send: nat, k: nat)
    requires m > 0 && m * send <= m * k + m / 2 < m * send + m
    ensures m * send == m * k
  {
    assert m * (send + 1) == m * send + m && m * (k + 1) == m * k + m;
    if send < k {
      MulMono(m, send + 1, k);
    } else if send > k {
      MulMono(m, k + 1, send);
    }
  }

  lemma QuotientIs(x: nat, m: nat, rate: nat, y: nat, k: nat)
    requires 0 < rate <= m && y == m * k && x <= y + rate / 2 < x + rate && (rate == m ==> x == y)
    ensures (x + m / 2) / m == k
  {
    DivAtLeast(x + m / 2, m, k);
    DivAtLeast(x + m / 2, m, k + 1);
    assert m * (k + 1) == m * k + m;
  }

  /** One more send clock adds at most one idle clock. */
  lemma IdleStep(freq: nat, rate: nat, send: nat)
    requires Searchable(freq, rate)
    ensures IdleFor(freq, rate, send) <= IdleFor(freq, rate, send + 1) <= IdleFor(freq, rate, send) + 1
  {
    var m := freq - rate;
    assert rate * (send + 1) == rate * send + rate;
    QuotientStep(rate * send + m / 2, rate * (send + 1) + m / 2, m);
  }

  lemma QuotientStep(x: nat, y: nat, m: nat)
    requires m > 0 && x <= y <= x + m
    ensures x / m <= y / m <= x / m + 1
  {
    DivAtLeast(x, m, x / m);
    DivAtLeast(y, m, x / m);
    DivAtLeast(y, m, y / m);
    DivAtLeast(x + m, m, y / m);
    DivShift(x, m, 1);
  }

  /** The last round before round `i` that reached the rate, or -1. */
  function LastHit(freq: nat, rate: nat, path: seq<State>, i: nat): (j: int)
    requires Searchable(freq, rate) && SearchPath(freq, rate, path) && i <= |path|
    ensures -1 <= j < i
  {
    if i == 0 then -1
    else if Candidate(freq, rate, path[i - 1].send) >= rate then i - 1
    else LastHit(freq, rate, path, i - 1)
  }

  /** Round `i` reached the rate, but overshot it by more than the last round that did; and
      it was not a landing. */
  predicate Leaves(freq: nat, rate: nat, path: seq<State>, i: nat)
    requires Searchable(freq, rate) && SearchPath(freq, rate, path) && i < |path|
  {
    && i > 0 && !Leaves(freq, rate, path, i - 1)
    && Candidate(freq, rate, path[i].send) >= rate
    && var j := LastHit(freq, rate, path, i);
    && j >= 0 && Candidate(freq, rate, path[i].send) > Candidate(freq, rate, path[j].send)
  }

  /** `next` is the send count that fits best to one more idle clock than at `send`. */
  predicate Lands(freq: nat, rate: nat, send: nat, next: nat)
    requires Searchable(freq, rate)
  {
    var k := IdleFor(freq, rate, send) + 1;
    next > send && Nearest((freq - rate) * k, rate, next) && IdleFor(freq, rate, next) == k
  }

  /** The next send count after round `i`: one more, or where the next idle count fits. */
  predicate Follows(freq: nat, rate: nat, path: seq<State>, i: nat, next: nat)
    requires Searchable(freq, rate) && SearchPath(freq, rate, path) && i < |path|
  {
    if Leaves(freq, rate, path, i) then Lands(freq, rate, path[i].send, next) else next == path[i].send + 1
  }

  /** The loop variables in terms of the candidates seen so far. */
  predicate Remembers(freq: nat, rate: nat, path: seq<State>, i: nat)
    requires Searchable(freq, rate) && SearchPath(freq, rate, path) && i < |path|
  {
    var j := LastHit(freq, rate, path, i);
    var delta := if j < 0 then UINT_MAX else Candidate(freq, rate, path[j].send) - rate;
    && path[i].delta == delta
    && path[i].prevDelta == if i == 0 || Leaves(freq, rate, path, i - 1) then UINT_MAX else delta
  }

  lemma CandidateBelowMax(freq: nat, rate: nat, send: nat)
    requires Searchable(freq, rate) && send > 0
    ensures Candidate(freq, rate, send) - rate < UINT_MAX
  {
    RateAtMost(freq, IdleFor(freq, rate, send), send);
  }

  lemma RoundRule(freq: nat, rate: nat, path: seq<State>, i: nat)
    requires Searchable(freq, rate) && SearchPath(freq, rate, path) && i < |path| && Remembers(freq, rate, path, i)
    ensures var next := NextState(freq, rate, path[i]).send; next >= 0 && Follows(freq, rate, path, i, next)
    ensures i + 1 < |path| ==> Remembers(freq, rate, path, i + 1)
  {
    hide Candidate, Jump, IdleFor, FirstSend, Nearest;
    CandidateBelowMax(freq, rate, path[i].send);
    JumpLands(freq, rate, path[i].send);
    var j := LastHit(freq, rate, path, i);
    if j >= 0 {
      CandidateBelowMax(freq, rate, path[j].send);
    }
  }

  /** Every round follows from the candidates of the rounds before. */
  lemma {:induction false} PathRule(freq: nat, rate: nat, path: seq<State>, i: nat)
    requires Searchable(freq, rate) && SearchPath(freq, rate, path) && i < |path|
    ensures Remembers(freq, rate, path, i)
    ensures i + 1 < |path| ==> path[i + 1].send >= 0 && Follows(freq, rate, path, i, path[i + 1].send)
  {
    hide Candidate, NextState, Remembers, Follows;
    if i == 0 {
      StartRule(freq, rate, path);
    } else {
      PathRule(freq, rate, path, i - 1);
      RoundRule(freq, rate, path, i - 1);
    }
    RoundRule(freq, rate, path, i);
  }

  lemma StartRule(freq: nat, rate: nat, path: seq<State>)
    requires Searchable(freq, rate) && SearchPath(freq, rate, path) && path != []
    ensures Remembers(freq, rate, path, 0)
  {}

  /** The search ends only at the rate itself, or where the next send count is out of range. */
  lemma EndRule(freq: nat, rate: nat, path: seq<State>, i: nat)
    requires Searchable(freq, rate) && SearchPath(freq, rate, path) && Ended(freq, rate, path) && i + 1 == |path|
    ensures || Candidate(freq, rate, path[i].send) == rate
            || exists next: nat :: next > MAX_RLIM_CNT && Follows(freq, rate, path, i, next)
  {
    hide Candidate, NextState, Remembers, Follows;
    PathRule(freq, rate, path, i);
    RoundRule(freq, rate, path, i);
  }

  /** No idle count is skipped: from round to round it stays or grows by one. */
  lemma NoIdleSkipped(freq: nat, rate: nat, path: seq<State>, i: nat)
    requires Searchable(freq, rate) && SearchPath(freq, rate, path) && i + 1 < |path|
    ensures var idle := IdleFor(freq, rate, path[i].send);
            idle <= IdleFor(freq, rate, path[i + 1].send) <= idle + 1
  {
    hide IdleFor, Nearest, Leaves, NextState;
    PathRule(freq, rate, path, i);
    IdleStep(freq, rate, path[i].send);
  }

  /** Where a jump lands the rate is close: within half of `rate / (idle + send)`, and half
      for the rounding. The result is at least as close if the landing reaches the rate. */
  lemma LandsClose(freq: nat, rate: nat, path: seq<State>, best: Factors, i: nat)
    requires Searchable(freq, rate) && SearchPath(freq, rate, path) && Best(freq, rate, path, best)
    requires i + 1 < |path| && Leaves(freq, rate, path, i)
    ensures var send := path[i + 1].send;
            var d := IdleFor(freq, rate, send) + send;
            && -(rate + d) <= 2 * (d * (Candidate(freq, rate, send) - rate)) <= rate + d
            && (Candidate(freq, rate, send) >= rate ==> 2 * (d * (best.rate - rate)) <= rate + d)
  {
    hide IdleFor, Leaves, NextState, RateOf;
    PathRule(freq, rate, path, i);
    var send := path[i + 1].send;
    var found := Candidate(freq, rate, send);
    CloseAt(freq, rate, send);
    if found >= rate {
      var d := IdleFor(freq, rate, send) + send;
      MulMono(d, best.rate - rate, found - rate);
    }
  }

  lemma CloseAt(freq: nat, rate: nat, send: nat)
    requires Searchable(freq, rate) && send > 0
    requires Nearest((freq - rate) * IdleFor(freq, rate, send), rate, send)
    ensures var d := IdleFor(freq, rate, send) + send;
            -(rate + d) <= 2 * (d * (Candidate(freq, rate, send) - rate)) <= rate + d
  {
    hide IdleFor, RateOf, Candidate;
    var k := IdleFor(freq, rate, send);
    var d, found := k + send, Candidate(freq, rate, send);
    RoundNearest(freq, rate, send);
    CloseProducts(freq - rate, rate, k, send, found);
  }

  lemma CloseProducts(m: nat, rate: nat, k: nat, send: nat, found: nat)
    requires Nearest(m * k, rate, send) && Nearest((m + rate) * k, k + send, found)
    ensures var d := k + send; -(rate + d) <= 2 * (d * (found - rate)) <= rate + d
  {
    var d := k + send;
    Differences(d, found, rate);
    Differences(rate, d, k);
    assert d * rate == rate * k + rate * send;
    assert (m + rate) * k == m * k + rate * k;
  }

  lemma Differences(d: int, a: int, b: int)
    ensures d * (a - b) == d * a - d * b
  {}

  // ---- The smallest rate ---------------------------------------------------------------------

  /** `cpdma_chan_get_min_rate`, in unsigned 32-bit arithmetic. */
  function MinRate(freq: nat): nat {
    ToU32(freq + MAX_RLIM_CNT) / (MAX_RLIM_CNT + 1)
  }

  /** The loop body is entered exactly for the rates the driver admits. The frequencies at
      the very end of the 32-bit range are the exception: there the bound wraps to zero. */
  lemma LoopEntered(freq: nat, rate: nat)
    requires Searchable(freq, rate)
    ensures freq <= UINT_MAX - MAX_RLIM_CNT ==> (FirstSend(freq, rate) <= MAX_RLIM_CNT <==> rate >= MinRate(freq))
    ensures freq > UINT_MAX - MAX_RLIM_CNT ==> MinRate(freq) == 0
  {
    FirstSendBounds(freq, rate, MAX_RLIM_CNT);
    if freq <= UINT_MAX - MAX_RLIM_CNT {
      DivAtLeast(freq + MAX_RLIM_CNT, 16385, rate + 1);
    }
  }

  /** Every rate the driver admits has factors up to 1864 MHz. */
  lemma AdmittedInReach(freq: nat, rate: nat)
    requires Searchable(freq, rate) && freq <= SAFE_FREQ && rate >= MinRate(freq)
    ensures InReach(freq, rate)
  {
    hide FirstSend, SecondSend, MinRate;
    LoopEntered(freq, rate);
    if 2 * (rate * rate) <= freq {
      SlowRates(freq, rate);
    } else {
      SecondSendFits(freq, rate);
    }
  }

  /** On a faster bus an admitted rate may have none: here 7 Mbit/s at 2396 MHz. */
  lemma AdmittedButLost()
    ensures var freq, rate := 2396 * 32000, 7000;
            Searchable(freq, rate) && rate >= MinRate(freq) && !InReach(freq, rate)
  {
    var freq, rate := 2396 * 32000, 7000;
    assert FirstSend(freq, rate) == 10953;
    assert SecondSend(freq, rate) == 16429;
  }

  // ---- The factor register ----------------------------------------------------------------------

  function Pack(send: bv32, idle: bv32): bv32 {
    send | (idle << 16)
  }

  /** Both counts of a found rate can be read back from the register. */
  lemma PackLossless(send: bv32, idle: bv32)
    requires 1 <= idle as int <= send as int <= MAX_RLIM_CNT
    ensures Pack(send, idle) & 0xffff == send && Pack(send, idle) >> 16 == idle
  {
    PackFields(send, idle);
  }

  lemma PackFields(send: bv32, idle: bv32)
    ensures send < 0x1_0000 && idle < 0x1_0000 ==> Pack(send, idle) & 0xffff == send && Pack(send, idle) >> 16 == idle
  {}
}
