/** The poll loops over the channels with pending interrupts. */
module Poll {
  import opened Kernel
  import opened CpdmaMemory
  import opened CpdmaProtocol
  import opened CpdmaCtlr
  import opened PoolSplit
  import opened RateLimit
  import opened Budget

  const VECTORS := 8

  // ---- Pending bits ------------------------------------------------------------------------

  /** Transmit vector 0 is bit 7 of the status, and so on downwards. */
  function TxPending(bits: bv32): (p: seq<bool>)
    ensures |p| == VECTORS
  {
    [bits & 0x80 != 0, bits & 0x40 != 0, bits & 0x20 != 0, bits & 0x10 != 0,
     bits & 0x08 != 0, bits & 0x04 != 0, bits & 0x02 != 0, bits & 0x01 != 0]
  }

  /** Receive vector 0 is bit 0, and so on upwards. */
  function RxPending(bits: bv32): (p: seq<bool>)
    ensures |p| == VECTORS
  {
    [bits & 0x01 != 0, bits & 0x02 != 0, bits & 0x04 != 0, bits & 0x08 != 0,
     bits & 0x10 != 0, bits & 0x20 != 0, bits & 0x40 != 0, bits & 0x80 != 0]
  }

  lemma TxShift(bits: bv32)
    ensures TxPending(bits << 1) == TxPending(bits)[1..] + [false]
    ensures bits & 0x80 != 0 <==> TxPending(bits)[0]
  {}

  lemma TxNone(bits: bv32)
    ensures bits & 0xff == 0 <==> forall ch :: 0 <= ch < VECTORS ==> !TxPending(bits)[ch]
  {
    var p := TxPending(bits);
    if bits & 0xff != 0 {
      assert p[0] || p[1] || p[2] || p[3] || p[4] || p[5] || p[6] || p[7];
    }
  }

  lemma RxShift(bits: bv32)
    ensures bits <= 0xff ==> bits >> 1 <= 0xff && RxPending(bits >> 1) == RxPending(bits)[1..] + [false]
    ensures bits & 0x01 != 0 <==> RxPending(bits)[0]
  {}

  lemma RxNone(bits: bv32)
    ensures bits <= 0xff ==> (bits == 0 <==> forall ch :: 0 <= ch < VECTORS ==> !RxPending(bits)[ch])
  {
    var p := RxPending(bits);
    if bits <= 0xff && bits != 0 {
      assert p[0] || p[1] || p[2] || p[3] || p[4] || p[5] || p[6] || p[7];
    }
  }

  /** The status after `ch` shifts. */
  function Rest(pending: seq<bool>, ch: nat): seq<bool>
    requires ch <= |pending|
  {
    pending[ch..] + seq(ch, _ => false)
  }

  lemma RestShift(pending: seq<bool>, ch: nat)
    requires ch < |pending|
    ensures Rest(pending, ch + 1) == Rest(pending, ch)[1..] + [false] && Rest(pending, ch)[0] == pending[ch]
    ensures Rest(pending, 0) == pending
  {}

  lemma RestEmpty(pending: seq<bool>, ch: nat)
    requires ch <= |pending|
    ensures (forall k :: 0 <= k < |Rest(pending, ch)| ==> !Rest(pending, ch)[k]) <==>
              forall k :: ch <= k < |pending| ==> !pending[k]
  {
    forall k | ch <= k < |pending| ensures Rest(pending, ch)[k - ch] == pending[k] {}
  }

  // ---- A poll as a sequence of calls ----------------------------------------------------------

  /** One call of `cpdma_chan_process` for vector `ch`. */
  datatype Call = Call(ch: int, quota: int, used: int)

  function Used(calls: seq<Call>): int {
    if calls == [] then 0 else Used(calls[..|calls| - 1]) + calls[|calls| - 1].used
  }

  function Min(a: int, b: int): (m: int)
    ensures m <= a && m <= b && (m == a || m == b)
  {
    if a > b then b else a
  }

  /** A call gets its share or what is left, and uses no more. */
  predicate Proper(calls: seq<Call>, i: nat, budgets: seq<int>, budget: int)
    requires i < |calls|
  {
    && 0 <= calls[i].ch < |budgets|
    && calls[i].quota == Min(budgets[calls[i].ch], budget - Used(calls[..i]))
    && (calls[i].used <= calls[i].quota || calls[i].used <= 0)
  }

  /** The pending vectors below `upTo` are served in order, each once. */
  ghost predicate Polled(calls: seq<Call>, pending: seq<bool>, budgets: seq<int>, budget: int, upTo: int) {
    && (forall i :: 0 <= i < |calls| ==> Proper(calls, i, budgets, budget))
    && (forall i :: 0 <= i < |calls| ==> 0 <= calls[i].ch < upTo <= |pending| && pending[calls[i].ch])
    && (forall i, j :: 0 <= i < j < |calls| ==> calls[i].ch < calls[j].ch)
    && (forall ch :: 0 <= ch < upTo <= |pending| && pending[ch] ==> exists i :: 0 <= i < |calls| && calls[i].ch == ch)
  }

  lemma CallAdded(calls: seq<Call>, call: Call, pending: seq<bool>, budgets: seq<int>, budget: int)
    requires Polled(calls, pending, budgets, budget, call.ch)
    requires 0 <= call.ch < |budgets| && call.ch < |pending| && pending[call.ch]
    requires call.quota == Min(budgets[call.ch], budget - Used(calls)) && (call.used <= call.quota || call.used <= 0)
    ensures Polled(calls + [call], pending, budgets, budget, call.ch + 1)
    ensures Used(calls + [call]) == Used(calls) + call.used
  {
    hide Used, Min, Proper;
    var calls' := calls + [call];
    UsedAdds(calls, call);
    forall i | 0 <= i < |calls'| ensures Proper(calls', i, budgets, budget) {
      ProperKept(calls, call, i, budgets, budget);
    }
    forall ch | 0 <= ch < call.ch + 1 && pending[ch] ensures exists i :: 0 <= i < |calls'| && calls'[i].ch == ch {
      if ch == call.ch {
        assert calls'[|calls|].ch == ch;
      } else {
        var i :| 0 <= i < |calls| && calls[i].ch == ch;
        assert calls'[i].ch == ch;
      }
    }
  }

  lemma UsedAdds(calls: seq<Call>, call: Call)
    ensures Used(calls + [call]) == Used(calls) + call.used
  {
    assert (calls + [call])[..|calls|] == calls;
  }

  lemma ProperKept(calls: seq<Call>, call: Call, i: nat, budgets: seq<int>, budget: int)
    requires i <= |calls| && (i < |calls| ==> Proper(calls, i, budgets, budget))
    requires 0 <= call.ch < |budgets|
    requires call.quota == Min(budgets[call.ch], budget - Used(calls)) && (call.used <= call.quota || call.used <= 0)
    ensures Proper(calls + [call], i, budgets, budget)
  {
    hide Min, Used;
    assert (calls + [call])[..i] == calls[..i];
    assert calls[..|calls|] == calls;
    assert (calls + [call])[i] == if i < |calls| then calls[i] else call;
  }

  lemma Skipped(calls: seq<Call>, pending: seq<bool>, budgets: seq<int>, budget: int, ch: int, upTo: int)
    requires Polled(calls, pending, budgets, budget, ch) && 0 <= ch <= upTo <= |pending|
    requires forall k :: ch <= k < upTo ==> !pending[k]
    ensures Polled(calls, pending, budgets, budget, upTo)
  {
    hide Proper;
  }

  // ---- What a split of the budget guarantees ------------------------------------------------------

  lemma {:induction false} SumGrows(s: seq<int>, a: nat, b: nat)
    requires a <= b <= |s| && forall i :: 0 <= i < |s| ==> s[i] >= 0
    ensures Sum(s[..a]) <= Sum(s[..b])
    decreases b
  {
    if a < b {
      SumGrows(s, a, b - 1);
      assert s[..b][..b - 1] == s[..b - 1];
    }
  }

  function UpTo(calls: seq<Call>): int {
    if calls == [] then 0 else calls[|calls| - 1].ch + 1
  }

  /** One more call that stays within the prefix of budgets up to its vector. */
  lemma OneMore(budgets: seq<int>, from: nat, ch: nat, used: int, budget: int)
    requires from <= ch < |budgets| && used <= Sum(budgets[..from])
    requires Sum(budgets) <= budget && forall i :: 0 <= i < |budgets| ==> budgets[i] >= 0
    ensures Min(budgets[ch], budget - used) == budgets[ch] && used + budgets[ch] <= Sum(budgets[..ch + 1])
  {
    assert budgets[..ch + 1][..ch] == budgets[..ch];
    assert budgets[..|budgets|] == budgets;
    SumGrows(budgets, from, ch);
    SumGrows(budgets, ch + 1, |budgets|);
  }

  /** What the first calls use lies within the budgets of their vectors, so no share is ever
      cut. */
  lemma {:induction false} NeverCut(calls: seq<Call>, budgets: seq<int>, budget: int, k: nat)
    requires k <= |calls| && forall i :: 0 <= i < |calls| ==> Proper(calls, i, budgets, budget)
    requires forall i, j :: 0 <= i < j < |calls| ==> calls[i].ch < calls[j].ch
    requires Sum(budgets) <= budget && forall i :: 0 <= i < |budgets| ==> budgets[i] >= 0
    ensures forall i :: 0 <= i < k ==> 0 <= calls[i].ch < |budgets| && calls[i].quota == budgets[calls[i].ch]
    ensures 0 <= UpTo(calls[..k]) <= |budgets| && Used(calls[..k]) <= Sum(budgets[..UpTo(calls[..k])])
  {
    hide Min, Sum;
    if k > 0 {
      NeverCut(calls, budgets, budget, k - 1);
      assert calls[..k][..k - 1] == calls[..k - 1];
      assert Proper(calls, k - 1, budgets, budget);
      OneMore(budgets, UpTo(calls[..k - 1]), calls[k - 1].ch, Used(calls[..k - 1]), budget);
    } else {
      NoSum(budgets);
    }
  }

  lemma NoSum(s: seq<int>)
    ensures Sum(s[..0]) == 0
  {}

  /** With budgets that sum to the poll budget, as `cpsw_split_res` leaves them, every vector
      that is served gets its whole share, and the poll returns at most the budget. When all
      shares are positive the budget is used up only by serving the last vector: then every
      pending vector was served. */
  lemma FullShares(calls: seq<Call>, pending: seq<bool>, budgets: seq<int>, budget: int, upTo: int)
    requires Polled(calls, pending, budgets, budget, upTo)
    requires Sum(budgets) == budget && forall i :: 0 <= i < |budgets| ==> budgets[i] >= 0
    ensures forall i :: 0 <= i < |calls| ==> 0 <= calls[i].ch < |budgets| && calls[i].quota == budgets[calls[i].ch]
    ensures Used(calls) <= budget
    ensures (forall i :: 0 <= i < |budgets| ==> budgets[i] >= 1) && Used(calls) >= budget ==> UpTo(calls) == |budgets|
  {
    hide Used, Sum, Proper, UpTo;
    NeverCut(calls, budgets, budget, |calls|);
    assert calls[..|calls|] == calls;
    PrefixSum(budgets, UpTo(calls));
  }

  /** A prefix sums to no more than the whole, and to less where a positive share follows. */
  lemma PrefixSum(s: seq<int>, u: nat)
    requires u <= |s| && forall i :: 0 <= i < |s| ==> s[i] >= 0
    ensures Sum(s[..u]) <= Sum(s)
    ensures u < |s| && s[u] >= 1 ==> Sum(s[..u]) < Sum(s)
  {
    hide Sum;
    assert s[..|s|] == s;
    SumGrows(s, u, |s|);
    if u < |s| {
      SumGrows(s, u + 1, |s|);
      NextSum(s, u);
    }
  }

  /** After `cpsw_split_res` with all or no channels limited, one poll with the whole budget
      serves every pending transmit vector with its whole share. */
  lemma SplitServesAll(rates: seq<nat>, speed: nat, calls: seq<Call>, pending: seq<bool>, upTo: int)
    requires 0 < |rates| <= VECTORS && (LimitedNum(rates) == |rates| || LimitedNum(rates) == 0)
    requires NAPI_POLL_WEIGHT * TotalRate(rates) < TWO_TO_THE_32
               && (LimitedNum(rates) != 0 ==> MaxRate(rates, speed) > 0)
    requires forall ch :: |rates| <= ch < |pending| ==> !pending[ch]
    requires Polled(calls, pending, TxBudgets(rates, speed), NAPI_POLL_WEIGHT, upTo)
    requires upTo == |pending| || (calls != [] && upTo == UpTo(calls) && Used(calls) >= NAPI_POLL_WEIGHT)
    ensures Used(calls) <= NAPI_POLL_WEIGHT
    ensures forall ch :: 0 <= ch < |pending| && pending[ch] ==>
              && ch < |rates|
              && exists i :: 0 <= i < |calls| && calls[i].ch == ch && calls[i].quota == TxBudgets(rates, speed)[ch]
  {
    hide TxBudgets, MaxRate, LimitedNum, Used, Sum, Proper;
    TxBudgetsSum(rates, speed);
    TxBudgetsPositive(rates, speed);
    FullShares(calls, pending, TxBudgets(rates, speed), NAPI_POLL_WEIGHT, upTo);
  }

  /** After any split of the receive budget one poll with the whole budget serves every
      pending receive vector with its whole share. */
  lemma RxSplitServesAll(n: nat, calls: seq<Call>, pending: seq<bool>, upTo: int)
    requires 0 < n <= VECTORS && forall ch :: n <= ch < |pending| ==> !pending[ch]
    requires Polled(calls, pending, RxBudgets(n), NAPI_POLL_WEIGHT, upTo)
    requires upTo == |pending| || (calls != [] && upTo == UpTo(calls) && Used(calls) >= NAPI_POLL_WEIGHT)
    ensures Used(calls) <= NAPI_POLL_WEIGHT
    ensures forall ch :: 0 <= ch < |pending| && pending[ch] ==>
              ch < n && exists i :: 0 <= i < |calls| && calls[i].ch == ch && calls[i].quota == RxBudgets(n)[ch]
  {
    hide RxBudgets, Used, Sum, Proper;
    RxBudgetsSum(n);
    FullShares(calls, pending, RxBudgets(n), NAPI_POLL_WEIGHT, upTo);
  }

  // ---- What the calls do to the channels ------------------------------------------------------------

  /** What a poll sees of a place: nothing where there is no channel. */
  datatype Line = Line(handed: seq<int>, q: Option<Queue>, active: bool)

  ghost function LineOf(ch: Chan?): Line
    reads if ch == null then {} else {ch}`state, if ch == null then {} else {ch}`q, if ch == null then {}
            else {ch}`handed
  {
    if ch == null then Line([], None, false) else Line(ch.handed, Some(ch.q), ch.state == ACTIVE)
  }

  ghost function LinesOf(chs: seq<Chan?>): (lines: seq<Line>)
    reads Objects(chs)`state, Objects(chs)`q, Objects(chs)`handed
    ensures |lines| == |chs| && forall i :: 0 <= i < |chs| ==> lines[i] == LineOf(chs[i])
  {
    if chs == [] then [] else LinesOf(chs[..|chs| - 1]) + [LineOf(chs[|chs| - 1])]
  }

  /** One call on a channel: an ACTIVE one hands over `used` packets, and less than the quota
      only if its head cannot be taken; any other refuses and stays as it is. */
  ghost predicate Processed(was: Line, now: Line, quota: int, used: int) {
    && now.active == was.active && now.q.Some? && was.handed <= now.handed
    && if was.active
       then 0 <= used == |now.handed| - |was.handed| && (used < quota ==> !CanTake(now.q.value))
       else used == -EINVAL && now == was
  }

  /** A call on place `at` and on no other. */
  ghost predicate Called(was: seq<Line>, now: seq<Line>, at: nat, quota: int, used: int) {
    && |now| == |was| && at < |was| && Processed(was[at], now[at], quota, used)
    && forall j :: 0 <= j < |was| && j != at ==> now[j] == was[j]
  }

  /** Transmit vector `ch` is served by channel 7 - `ch`, receive vector `ch` by channel `ch`. */
  function VectorPlace(ch: int, rx: bool): int { if rx then MAX_CHANNELS + ch else 7 - ch }

  /** Every call processed the channel of its own vector, and no other place changed. */
  ghost predicate Delivered(was: seq<Line>, now: seq<Line>, calls: seq<Call>, rx: bool) {
    && |now| == |was|
    && (forall i :: 0 <= i < |calls| ==>
          && 0 <= VectorPlace(calls[i].ch, rx) < |was|
          && Processed(was[VectorPlace(calls[i].ch, rx)], now[VectorPlace(calls[i].ch, rx)], calls[i].quota,
               calls[i].used))
    && (forall j :: 0 <= j < |was| && (forall i :: 0 <= i < |calls| ==> VectorPlace(calls[i].ch, rx) != j) ==>
          now[j] == was[j])
  }

  /** The calls that were refused. */
  function Refused(calls: seq<Call>): nat {
    if calls == [] then 0 else Refused(calls[..|calls| - 1]) + (if calls[|calls| - 1].used < 0 then 1 else 0)
  }

  /** All packets handed over so far. */
  ghost function Packets(lines: seq<Line>): nat {
    if lines == [] then 0 else Packets(lines[..|lines| - 1]) + |lines[|lines| - 1].handed|
  }

  lemma {:induction false} PacketsGrow(was: seq<Line>, now: seq<Line>, at: nat)
    requires |now| == |was| && at < |was| && forall j :: 0 <= j < |was| && j != at ==> now[j] == was[j]
    ensures Packets(now) - Packets(was) == |now[at].handed| - |was[at].handed|
  {
    var n := |was| - 1;
    if at < n {
      PacketsGrow(was[..n], now[..n], at);
    } else {
      assert now[..n] == was[..n];
    }
  }

  /** What a poll returns is the number of packets it handed over, less one -EINVAL for each
      refusal. */
  ghost predicate Counted(was: seq<Line>, now: seq<Line>, calls: seq<Call>) {
    Used(calls) == Packets(now) - Packets(was) - EINVAL * Refused(calls)
  }

  lemma CallDelivered(was: seq<Line>, mid: seq<Line>, now: seq<Line>, calls: seq<Call>, call: Call, rx: bool)
    requires Delivered(was, mid, calls, rx) && Counted(was, mid, calls)
    requires 0 <= VectorPlace(call.ch, rx) && Called(mid, now, VectorPlace(call.ch, rx), call.quota, call.used)
    requires forall i :: 0 <= i < |calls| ==> calls[i].ch < call.ch
    ensures Delivered(was, now, calls + [call], rx) && Counted(was, now, calls + [call])
  {
    hide Used, Processed;
    var calls', at := calls + [call], VectorPlace(call.ch, rx);
    UsedAdds(calls, call);
    RefusedAdds(calls, call);
    GrowthIs(mid, now, at, call);
    assert mid[at] == was[at];
    forall i | 0 <= i < |calls'|
      ensures 0 <= VectorPlace(calls'[i].ch, rx) < |was|
      ensures Processed(was[VectorPlace(calls'[i].ch, rx)], now[VectorPlace(calls'[i].ch, rx)], calls'[i].quota,
                calls'[i].used)
    {
      assert i < |calls| ==> calls'[i] == calls[i];
    }
    forall j | 0 <= j < |was| && forall i :: 0 <= i < |calls'| ==> VectorPlace(calls'[i].ch, rx) != j
      ensures now[j] == was[j]
    {
      assert VectorPlace(calls'[|calls|].ch, rx) != j;
      forall i | 0 <= i < |calls| ensures VectorPlace(calls[i].ch, rx) != j {
        assert calls'[i] == calls[i];
      }
    }
  }

  lemma CallDone(was: seq<Line>, mid: seq<Line>, now: seq<Line>, calls: seq<Call>, call: Call, rx: bool,
                 pending: seq<bool>, budgets: seq<int>, budget: int)
    requires Polled(calls, pending, budgets, budget, call.ch)
    requires 0 <= call.ch < |budgets| && call.ch < |pending| && pending[call.ch]
    requires call.quota == Min(budgets[call.ch], budget - Used(calls)) && (call.used <= call.quota || call.used <= 0)
    requires Delivered(was, mid, calls, rx) && Counted(was, mid, calls) && 0 <= VectorPlace(call.ch, rx)
    requires Called(mid, now, VectorPlace(call.ch, rx), call.quota, call.used)
    ensures Polled(calls + [call], pending, budgets, budget, call.ch + 1)
    ensures Used(calls + [call]) == Used(calls) + call.used
    ensures Delivered(was, now, calls + [call], rx) && Counted(was, now, calls + [call])
  {
    CallAdded(calls, call, pending, budgets, budget);
    CallDelivered(was, mid, now, calls, call, rx);
    hide Used, Min, Proper, Processed, Called, Delivered, Counted, VectorPlace;
  }

  lemma RefusedAdds(calls: seq<Call>, call: Call)
    ensures Refused(calls + [call]) == Refused(calls) + (if call.used < 0 then 1 else 0)
  {
    assert (calls + [call])[..|calls|] == calls;
  }

  lemma GrowthIs(mid: seq<Line>, now: seq<Line>, at: nat, call: Call)
    requires Called(mid, now, at, call.quota, call.used)
    ensures call.used == Packets(now) - Packets(mid) - EINVAL * (if call.used < 0 then 1 else 0)
  {
    PacketsGrow(mid, now, at);
  }

  // ---- The loops ------------------------------------------------------------------------------------

  /** Every pending vector has a channel and a budget. */
  ghost predicate Backed(c: Ctlr, pending: seq<bool>, rx: bool, budgets: seq<int>)
    requires c.Placed()
    reads c.channels
  {
    forall ch :: 0 <= ch < |pending| && pending[ch] ==>
        ch < |budgets| && ch <= LAST_TX && c.channels[PlaceOf(ch, rx)] != null
  }

  lemma BooksPlaced(c: Ctlr)
    requires Books(c) == Balanced
    ensures c.Placed()
  {}

  lemma LineIs(ch: Chan?)
    ensures ch != null ==> LineOf(ch) == Line(ch.handed, Some(ch.q), ch.state == ACTIVE)
  {}

  lemma ProcessedIs(was: Line, now: Line, quota: int, used: int)
    requires now.active == was.active && now.q.Some? && was.handed <= now.handed
    requires if was.active
             then 0 <= used == |now.handed| - |was.handed| && (used < quota ==> !CanTake(now.q.value))
             else used == -EINVAL && now == was
    ensures Processed(was, now, quota, used)
  {}

  lemma CalledIs(was: seq<Line>, now: seq<Line>, at: nat, quota: int, used: int)
    requires |now| == |was| && at < |was| && Processed(was[at], now[at], quota, used)
    requires forall j :: 0 <= j < |was| && j != at ==> now[j] == was[j]
    ensures Called(was, now, at, quota, used)
  {}

  /** One vector of a poll loop. */
  method Serve(c: Ctlr, ch: nat, rx: bool, share: int, left: int, minLen: bv32) returns (used: int, ghost call: Call)
    requires Books(c) == Balanced && c.Placed() && Quiet(c) && ch <= LAST_TX && c.channels[PlaceOf(ch, rx)] != null
    modifies c.Chans()`head, c.Chans()`tail, c.Chans()`count, c.Chans()`engineAt, c.Chans()`fetched, c.Chans()`q
    modifies c.Chans()`submitted, c.Chans()`handed, c.pool
    ensures Books(c) == Balanced && c.Placed() && Quiet(c) && (old(InOrder(c)) ==> InOrder(c))
    ensures call == Call(ch, Min(share, left), used) && (used <= call.quota || used <= 0)
    ensures 0 <= VectorPlace(ch, rx)
    ensures Called(old(LinesOf(c.channels[..])), LinesOf(c.channels[..]), VectorPlace(ch, rx), call.quota, used)
  {
    hide Books, InOrder, LinesOf, LineOf, CanTake, Called, Processed;
    ghost var was, at := LinesOf(c.channels[..]), PlaceOf(ch, rx);
    LineIs(c.channels[at]);
    var curBudget := if share > left then left else share;
    used := ProcessOn(c, PlaceOf(ch, rx), c.channels[PlaceOf(ch, rx)], curBudget, minLen);
    BooksPlaced(c);
    LineIs(c.channels[at]);
    ProcessedIs(was[at], LineOf(c.channels[at]), curBudget, used);
    forall j | 0 <= j < c.channels.Length && j != at ensures LineOf(c.channels[j]) == was[j] {}
    CalledIs(was, LinesOf(c.channels[..]), at, curBudget, used);
    call := Call(ch, curBudget, used);
  }

  /** `cpsw_tx_mq_poll` for the interrupt status `status`. */
  method TxMqPoll(c: Ctlr, status: bv32, budgets: seq<int>, budget: int, minLen: bv32)
    returns (numTx: int, complete: bool, ghost calls: seq<Call>, ghost upTo: int)
    requires Books(c) == Balanced && c.Placed() && Quiet(c) && Backed(c, TxPending(status), false, budgets)
    modifies c.Chans()`head, c.Chans()`tail, c.Chans()`count, c.Chans()`engineAt, c.Chans()`fetched, c.Chans()`q
    modifies c.Chans()`submitted, c.Chans()`handed, c.pool
    ensures Books(c) == Balanced && Quiet(c) && (old(InOrder(c)) ==> InOrder(c))
    ensures numTx == Used(calls) && (complete <==> numTx < budget)
    ensures Polled(calls, TxPending(status), budgets, budget, upTo)
    ensures Delivered(old(LinesOf(c.channels[..])), LinesOf(c.channels[..]), calls, false)
    ensures numTx == Packets(LinesOf(c.channels[..])) - Packets(old(LinesOf(c.channels[..]))) - EINVAL * Refused(calls)
    ensures upTo == VECTORS || (calls != [] && upTo == UpTo(calls) && numTx >= budget)
  {
    hide Books, InOrder, Quiet, Polled, TxPending, Ctlr.Placed, Rest, Used, Min, LinesOf, Delivered, Called, Packets,
      Refused, VectorPlace;
    ghost var pending, was := TxPending(status), LinesOf(c.channels[..]);
    NoneCalled(was, false);
    var chMap, ch: nat := status, 0;
    numTx, calls := 0, [];
    NoCalls(pending, budgets, budget);
    RestShift(pending, 0);
    while chMap & 0xff != 0
      invariant 0 <= ch <= VECTORS && Books(c) == Balanced && c.Placed() && Quiet(c)
      invariant Backed(c, pending, false, budgets) && (old(InOrder(c)) ==> InOrder(c))
      invariant TxPending(chMap) == Rest(pending, ch)
      invariant numTx == Used(calls) && Polled(calls, pending, budgets, budget, ch)
      invariant Delivered(was, LinesOf(c.channels[..]), calls, false) && Counted(was, LinesOf(c.channels[..]), calls)
      decreases VECTORS - ch
    {
      TxNone(chMap);
      RestEmpty(pending, ch);
      TxShift(chMap);
      RestShift(pending, ch);
      if chMap & 0x80 == 0 {
        Skipped(calls, pending, budgets, budget, ch, ch + 1);
        chMap, ch := chMap << 1, ch + 1;
        continue;
      }
      var used;
      ghost var call, mid := Call(ch, 0, 0), LinesOf(c.channels[..]);
      used, call := Serve(c, ch, false, budgets[ch], budget - numTx, minLen);
      CallDone(was, mid, LinesOf(c.channels[..]), calls, call, false, pending, budgets, budget);
      numTx := numTx + used;
      calls := calls + [call];
      if numTx >= budget {
        return numTx, false, calls, ch + 1;
      }
      chMap, ch := chMap << 1, ch + 1;
    }
    TxNone(chMap);
    RestEmpty(pending, ch);
    Skipped(calls, pending, budgets, budget, ch, VECTORS);
    complete, upTo := numTx < budget, VECTORS;
  }

  /** `cpsw_rx_mq_poll`; interrupts exist for eight vectors. */
  method RxMqPoll(c: Ctlr, status: bv32, budgets: seq<int>, budget: int, minLen: bv32)
    returns (numRx: int, complete: bool, ghost calls: seq<Call>, ghost upTo: int)
    requires status <= 0xff
    requires Books(c) == Balanced && c.Placed() && Quiet(c) && Backed(c, RxPending(status), true, budgets)
    modifies c.Chans()`head, c.Chans()`tail, c.Chans()`count, c.Chans()`engineAt, c.Chans()`fetched, c.Chans()`q
    modifies c.Chans()`submitted, c.Chans()`handed, c.pool
    ensures Books(c) == Balanced && Quiet(c) && (old(InOrder(c)) ==> InOrder(c))
    ensures numRx == Used(calls) && (complete <==> numRx < budget)
    ensures Polled(calls, RxPending(status), budgets, budget, upTo)
    ensures Delivered(old(LinesOf(c.channels[..])), LinesOf(c.channels[..]), calls, true)
    ensures numRx == Packets(LinesOf(c.channels[..])) - Packets(old(LinesOf(c.channels[..]))) - EINVAL * Refused(calls)
    ensures upTo == VECTORS || (calls != [] && upTo == UpTo(calls) && numRx >= budget)
  {
    hide Books, InOrder, Quiet, Polled, RxPending, Ctlr.Placed, Rest, Used, Min, LinesOf, Delivered, Called, Packets,
      Refused, VectorPlace;
    ghost var pending, was := RxPending(status), LinesOf(c.channels[..]);
    NoneCalled(was, true);
    var chMap, ch: nat := status, 0;
    numRx, calls := 0, [];
    NoCalls(pending, budgets, budget);
    RestShift(pending, 0);
    while chMap != 0
      invariant 0 <= ch <= VECTORS && Books(c) == Balanced && c.Placed() && Quiet(c)
      invariant Backed(c, pending, true, budgets) && (old(InOrder(c)) ==> InOrder(c))
      invariant chMap <= 0xff && RxPending(chMap) == Rest(pending, ch)
      invariant numRx == Used(calls) && Polled(calls, pending, budgets, budget, ch)
      invariant Delivered(was, LinesOf(c.channels[..]), calls, true) && Counted(was, LinesOf(c.channels[..]), calls)
      decreases VECTORS - ch
    {
      RxNone(chMap);
      RestEmpty(pending, ch);
      RxShift(chMap);
      RestShift(pending, ch);
      if chMap & 0x01 == 0 {
        Skipped(calls, pending, budgets, budget, ch, ch + 1);
        chMap, ch := chMap >> 1, ch + 1;
        continue;
      }
      var used;
      ghost var call, mid := Call(ch, 0, 0), LinesOf(c.channels[..]);
      used, call := Serve(c, ch, true, budgets[ch], budget - numRx, minLen);
      CallDone(was, mid, LinesOf(c.channels[..]), calls, call, true, pending, budgets, budget);
      numRx := numRx + used;
      calls := calls + [call];
      if numRx >= budget {
        return numRx, false, calls, ch + 1;
      }
      chMap, ch := chMap >> 1, ch + 1;
    }
    RxNone(chMap);
    RestEmpty(pending, ch);
    Skipped(calls, pending, budgets, budget, ch, VECTORS);
    complete, upTo := numRx < budget, VECTORS;
  }

  lemma NoneCalled(was: seq<Line>, rx: bool)
    ensures Delivered(was, was, [], rx) && Counted(was, was, [])
  {}

  lemma NoCalls(pending: seq<bool>, budgets: seq<int>, budget: int)
    ensures Polled([], pending, budgets, budget, 0) && Used([]) == 0
  {}
}
