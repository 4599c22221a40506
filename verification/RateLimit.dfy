/** The rate limits of the transmit channels.

  The hardware shapes channels from the highest number downwards, so the driver admits a
  set of limited channels only if it is upward closed among the existing channels.
 */
module RateLimit {
  import opened Kernel
  import opened CpdmaMode
  import opened CpdmaProtocol
  import opened CpdmaMemory
  import opened PoolSplit
  import opened CpdmaCtlr
  import opened RateSearch

  // ---- Rates as values --------------------------------------------------------------------

  /** The rate of each transmit channel, 0 without a limit; None where there is no channel. */
  type Rates = seq<Option<nat>>

  predicate Limited(rs: Rates, i: nat)
    requires i < |rs|
  {
    rs[i].Some? && rs[i].value > 0
  }

  /** No existing channel above a limited one is unlimited. */
  ghost predicate UpClosed(rs: Rates) {
    forall i, j :: 0 <= i < j < |rs| && Limited(rs, i) && rs[j].Some? ==> Limited(rs, j)
  }

  ghost function LimitedSet(rs: Rates): set<nat> {
    set i | 0 <= i < |rs| && Limited(rs, i)
  }

  const LAST_TX := 7

  /** `n` channels exist, from the highest number downwards. */
  ghost predicate Stacked(rs: Rates, n: nat) {
    && |rs| == MAX_CHANNELS && n <= LAST_TX + 1
    && forall i :: 0 <= i < |rs| ==> (rs[i].Some? <==> LAST_TX - n < i <= LAST_TX)
  }

  // ---- The rates in memory --------------------------------------------------------------------

  ghost function RateIn(ch: Chan?): Option<nat>
    reads if ch == null then {} else {ch}`rate
  {
    if ch == null then None else Some(ch.rate)
  }

  ghost function RatesOf(chs: seq<Chan?>): (rs: Rates)
    reads Objects(chs)`rate
    ensures |rs| == |chs| && forall i :: 0 <= i < |chs| ==> rs[i] == RateIn(chs[i])
  {
    if chs == [] then [] else RatesOf(chs[..|chs| - 1]) + [RateIn(chs[|chs| - 1])]
  }

  ghost function TxRates(c: Ctlr): (rs: Rates)
    requires c.Placed()
    reads c.channels, c.Chans()`rate
    ensures |rs| == MAX_CHANNELS && forall i :: 0 <= i < MAX_CHANNELS ==> rs[i] == RateIn(c.channels[i])
  {
    RatesOf(c.channels[..MAX_CHANNELS])
  }

  /** The registers of the shaper: the factors by channel number, and the two controls. */
  class Shaper {
    var factor: map<nat, (nat, nat)>
    var rlim: set<nat>
    var prioFixed: bool

    constructor ()
      ensures factor == map[] && rlim == {} && !prioFixed
    {
      factor, rlim, prioFixed := map[], {}, false;
    }
  }

  /** The control field for limited channels has 16 bits. */
  const RLIM_BITS := 16

  function InRegister(mask: set<nat>): set<nat> {
    set b | b in mask && b < RLIM_BITS
  }

  /** The field has a bit for every limited channel of the driver's eight. */
  lemma MaskHoldsAll(rs: Rates, n: nat)
    requires Stacked(rs, n)
    ensures InRegister(LimitedSet(rs)) == LimitedSet(rs)
  {
    forall b | b in LimitedSet(rs) ensures b in InRegister(LimitedSet(rs)) {
      assert rs[b].Some? && b <= LAST_TX;
    }
  }

  /** The field has exactly the bits of the limited channels, of the first sixteen. */
  ghost predicate FieldNames(field: set<nat>, rs: Rates) {
    forall b: nat :: b in field <==> b < 16 && b < |rs| && rs[b].Some? && rs[b].value > 0
  }

  lemma FieldIs(rs: Rates)
    ensures FieldNames(InRegister(LimitedSet(rs)), rs)
  {}

  /** `cpdma_chan_fit_rate`: the rate is kept exactly if the limited channels stay upward
      closed, and the mask then names exactly these. */
  method FitRate(c: Ctlr, ch: Chan, rate: nat) returns (ret: int, rmask: set<nat>, prioMode: bool)
    requires c.Placed() && !ch.IsRx() && c.channels[ch.chanNum] == ch
    modifies ch`rate
    ensures var wanted := old(TxRates(c))[ch.chanNum := Some(rate)];
            && ret == (if UpClosed(wanted) then 0 else -EINVAL)
            && (ret == 0 ==> ch.rate == rate && rmask == LimitedSet(wanted))
            && (ret == 0 ==> (prioMode <==> exists i :: 0 <= i < |wanted| && Limited(wanted, i)))
            && (ret != 0 ==> ch.rate == old(ch.rate))
  {
    var oldRate := ch.rate;
    ghost var wanted := TxRates(c)[ch.chanNum := Some(rate)];
    rmask := {};
    prioMode := false;
    for i := 0 to MAX_CHANNELS
      invariant ch.rate == if i <= ch.chanNum then oldRate else rate
      invariant rmask == set j | 0 <= j < i && Limited(wanted, j)
      invariant prioMode <==> exists j :: 0 <= j < i && Limited(wanted, j)
      invariant forall j, k :: 0 <= j < k < i && Limited(wanted, j) && wanted[k].Some? ==> Limited(wanted, k)
    {
      var chan := c.channels[i];
      if chan == null {
        continue;
      }
      if chan == ch {
        chan.rate := rate;
      }
      assert wanted[i] == Some(chan.rate);
      if chan.rate > 0 {
        prioMode := true;
        rmask := rmask + {i};
        continue;
      }
      if prioMode {
        ch.rate := oldRate;
        return -EINVAL, {}, false;
      }
    }
    ret := 0;
  }

  /** What a search for `rate` may come up with. */
  ghost predicate Found(freq: nat, rate: nat, best: Factors) {
    && Searchable(freq, rate)
    && exists path :: SearchPath(freq, rate, path) && Ended(freq, rate, path) && Best(freq, rate, path, best)
  }

  /** A found rate is the requested one or above; without one the limit is dropped. */
  lemma FoundIs(freq: nat, rate: nat, best: Factors)
    requires Found(freq, rate, best)
    ensures if InReach(freq, rate) then best.rate >= rate && 1 <= best.idle <= best.send <= MAX_RLIM_CNT
            else best == Factors(0, 0, 0)
  {
    var path :| SearchPath(freq, rate, path) && Ended(freq, rate, path) && Best(freq, rate, path, best);
    FindsExactly(freq, rate, path, best);
  }

  function BusFreq(busMhz: nat): nat { ToU32(busMhz * 1000 * 32) }

  /** `cpdma_chan_set_factors`. */
  method SetFactors(ch: Chan, regs: Shaper, busMhz: nat) returns (ret: int, ghost best: Factors)
    requires var freq := BusFreq(busMhz); ch.rate == 0 || freq == 0 || Searchable(freq, ch.rate)
    modifies ch`rate, ch`rateFactor, regs`factor
    ensures ret == if old(ch.rate) != 0 && BusFreq(busMhz) == 0 then -EINVAL else 0
    ensures ret != 0 ==> ch.rate == old(ch.rate) && ch.rateFactor == old(ch.rateFactor)
    ensures ret != 0 ==> regs.factor == old(regs.factor)
    ensures ret == 0 ==> ch.rate == best.rate && ch.rateFactor == (best.send, best.idle)
    ensures ret == 0 ==> regs.factor == old(regs.factor)[ch.chanNum := (best.send, best.idle)]
    ensures ret == 0 ==> if old(ch.rate) == 0 then best == Factors(0, 0, 0)
              else Found(BusFreq(busMhz), old(ch.rate), best)
  {
    hide SearchPath, Ended, Best, Searchable, BusFreq;
    best := Factors(0, 0, 0);
    var send: nat, idle: nat := 0, 0;
    if ch.rate != 0 {
      var freq := BusFreq(busMhz);
      if freq == 0 {
        return -EINVAL, best;
      }
      var found;
      ghost var path;
      found, path := Search(freq, ch.rate);
      ch.rate := found.rate;
      send, idle := found.send, found.idle;
      best := found;
    }
    ch.rateFactor := (send, idle);
    regs.factor := regs.factor[ch.chanNum := ch.rateFactor];
    ret := 0;
  }

  /** What `cpdma_chan_set_rate` does to the rates. */
  datatype Outcome = Unchanged(ret: int) | Accepted(best: Factors) | Stranded

  /** `Stranded`: the call failed, but the new rate stays. */
  ghost predicate Explains(o: Outcome, rs: Rates, i: nat, rate: nat, freq: nat)
    requires i < |rs| && rs[i].Some?
  {
    var wanted := rs[i := Some(rate)];
    if rs[i] == Some(rate) then o == Unchanged(rate)
    else if !UpClosed(wanted) then o == Unchanged(-EINVAL)
    else if rate != 0 && freq == 0 then o == Stranded
    else o.Accepted? && if rate == 0 then o.best == Factors(0, 0, 0) else Found(freq, rate, o.best)
  }

  function RatesAfter(rs: Rates, i: nat, rate: nat, o: Outcome): Rates
    requires i < |rs|
  {
    match o
    case Unchanged(_) => rs
    case Accepted(best) => rs[i := Some(best.rate)]
    case Stranded => rs[i := Some(rate)]
  }

  /** `cpdma_chan_set_rate` on channel `i`. */
  method SetRate(c: Ctlr, i: nat, rate: nat, regs: Shaper, busMhz: nat) returns (ret: int, ghost o: Outcome)
    requires c.Placed() && i < c.channels.Length
    requires var freq := BusFreq(busMhz); rate == 0 || freq == 0 || Searchable(freq, rate)
    modifies c.Chans()`rate, c.Chans()`rateFactor, regs
    ensures c.channels[i] == null || i >= MAX_CHANNELS ==> ret == -EINVAL && o == Unchanged(ret)
    ensures c.channels[i] != null && i < MAX_CHANNELS ==> Explains(o, old(TxRates(c)), i, rate, BusFreq(busMhz))
    ensures ret == match o case Unchanged(r) => r case Accepted(_) => 0 case Stranded => -EINVAL
    ensures TxRates(c) == if i < MAX_CHANNELS then RatesAfter(old(TxRates(c)), i, rate, o) else old(TxRates(c))
    ensures !o.Accepted? ==>
              regs.factor == old(regs.factor) && regs.rlim == old(regs.rlim) && regs.prioFixed == old(regs.prioFixed)
    ensures o.Accepted? ==> regs.factor == old(regs.factor)[i := (o.best.send, o.best.idle)]
    ensures o.Accepted? && c.state == ACTIVE ==>
              var wanted := old(TxRates(c))[i := Some(rate)];
              && regs.rlim == InRegister(LimitedSet(wanted))
              && FieldNames(regs.rlim, wanted)
              && (regs.prioFixed <==> exists j :: 0 <= j < |wanted| && Limited(wanted, j))
  {
    hide Found, Searchable, BusFreq, UpClosed, Limited, RatesOf, FieldNames;
    var ch := c.channels[i];
    if ch == null || ch.IsRx() {
      return -EINVAL, Unchanged(-EINVAL);
    }
    ghost var rs := TxRates(c);
    if ch.rate == rate {
      return rate, Unchanged(rate);
    }
    var rmask, prioMode;
    ret, rmask, prioMode := FitRate(c, ch, rate);
    if ret != 0 {
      assert TxRates(c) == rs;
      return ret, Unchanged(ret);
    }
    ghost var best;
    ret, best := SetFactors(ch, regs, busMhz);
    if ret != 0 {
      assert TxRates(c) == rs[i := Some(rate)];
      return ret, Stranded;
    }
    assert TxRates(c) == rs[i := Some(best.rate)];
    if c.state == ACTIVE {
      FieldIs(rs[i := Some(rate)]);
      regs.rlim := InRegister(rmask);
      regs.prioFixed := prioMode;
    }
    o := Accepted(best);
  }

  // ---- After a restart --------------------------------------------------------------------------

  /** No receive channel ever has a rate: `cpdma_chan_set_rate` refuses them. */
  ghost predicate RxFree(c: Ctlr)
    reads c.channels, c.Chans()`rate
  {
    forall i :: MAX_CHANNELS <= i < c.channels.Length && c.channels[i] != null ==> c.channels[i].rate == 0
  }

  /** `cpdma_chan_set_chan_shaper`: a limited channel gets its factors and its mask bit. */
  method SetChanShaper(ch: Chan, regs: Shaper)
    modifies regs`factor, regs`rlim
    ensures regs.factor == if ch.rate == 0 then old(regs.factor) else old(regs.factor)[ch.chanNum := ch.rateFactor]
    ensures regs.rlim == if ch.rate == 0 then old(regs.rlim) else old(regs.rlim) + InRegister({ch.chanNum})
  {
    if ch.rate != 0 {
      regs.factor := regs.factor[ch.chanNum := ch.rateFactor];
      regs.rlim := regs.rlim + InRegister({ch.chanNum});
    }
  }

  /** The factors of the limited channels below `n` written over the others. */
  ghost function Restored(factor: map<nat, (nat, nat)>, chs: seq<Chan?>, n: nat): map<nat, (nat, nat)>
    requires n <= |chs|
    reads Objects(chs)`rate, Objects(chs)`rateFactor
  {
    if n == 0 then factor
    else if chs[n - 1] == null || chs[n - 1].rate == 0 then Restored(factor, chs, n - 1)
    else Restored(factor, chs, n - 1)[n - 1 := chs[n - 1].rateFactor]
  }

  /** The register writes of `cpdma_ctlr_start` for the channels: the factors and the mask
      bits of the limited ones, and fixed priorities if a transmit channel has no limit. */
  method RestoreShaper(c: Ctlr, regs: Shaper)
    requires c.Placed() && RxFree(c)
    modifies regs
    ensures regs.rlim == old(regs.rlim) + InRegister(LimitedSet(TxRates(c)))
    ensures regs.factor == old(Restored(regs.factor, c.channels[..], c.channels.Length))
    ensures regs.prioFixed <==> exists i :: 0 <= i < MAX_CHANNELS && TxRates(c)[i] == Some(0)
  {
    hide RatesOf, Objects, InRegister;
    ghost var rs, rlim := TxRates(c), regs.rlim;
    var prioMode := false;
    MaskStarts(rs);
    for i := 0 to c.channels.Length
      invariant regs.rlim == rlim + InRegister(LimitedBelow(rs, i))
      invariant regs.factor == old(Restored(regs.factor, c.channels[..], i))
      invariant prioMode <==> exists j :: 0 <= j < |rs| && j < i && rs[j] == Some(0)
    {
      MaskGrows(rs, i);
      var chan := c.channels[i];
      if chan != null {
        SetChanShaper(chan, regs);
        if !chan.IsRx() && chan.rate == 0 {
          prioMode := true;
        }
      }
    }
    assert LimitedBelow(rs, c.channels.Length) == LimitedSet(rs) && TxRates(c) == rs;
    regs.prioFixed := prioMode;
  }

  ghost function LimitedBelow(rs: Rates, n: nat): set<nat> {
    set i | i in LimitedSet(rs) && i < n
  }

  lemma MaskStarts(rs: Rates)
    ensures InRegister(LimitedBelow(rs, 0)) == {}
  {}

  lemma MaskGrows(rs: Rates, n: nat)
    ensures InRegister(LimitedBelow(rs, n + 1)) ==
              InRegister(LimitedBelow(rs, n)) + (if n < |rs| && Limited(rs, n) then InRegister({n}) else {})
  {}

  /** Exactly the limited channels have their own factors in the registers afterwards. */
  lemma {:induction false} RestoredIs(factor: map<nat, (nat, nat)>, chs: seq<Chan?>, n: nat, i: nat)
    requires n <= |chs|
    ensures var restored := Restored(factor, chs, n);
            if i < n && chs[i] != null && chs[i].rate != 0 then i in restored && restored[i] == chs[i].rateFactor
            else (i in restored <==> i in factor) && (i in restored ==> restored[i] == factor[i])
  {
    hide Objects;
    if n > 0 {
      RestoredIs(factor, chs, n - 1, i);
    }
  }

  /** A start fixes the priorities if some transmit channel has no limit, a new rate if some
      has one: the two agree exactly if there are channels of both kinds, or none at all. */
  lemma RestartAgrees(rs: Rates)
    ensures ((exists i :: 0 <= i < |rs| && rs[i] == Some(0)) <==> (exists i :: 0 <= i < |rs| && Limited(rs, i))) <==>
              || (forall i :: 0 <= i < |rs| ==> rs[i].None?)
              || ((exists i :: 0 <= i < |rs| && rs[i] == Some(0)) && exists i :: 0 <= i < |rs| && Limited(rs, i))
  {
    if i :| 0 <= i < |rs| && rs[i].Some? {
      assert rs[i] == Some(0) || Limited(rs, i);
    }
  }

  // ---- What a change of one rate comes to ----------------------------------------------------

  /** A failing call gives the old rate back unless the bus frequency is not set: then a
      new limit stays although nothing was programmed. */
  lemma RollbackExactly(rs: Rates, i: nat, rate: nat, freq: nat, o: Outcome)
    requires i < |rs| && rs[i].Some? && Explains(o, rs, i, rate, freq) && !o.Accepted?
    ensures RatesAfter(rs, i, rate, o) == rs <==>
              rs[i] == Some(rate) || !UpClosed(rs[i := Some(rate)]) || rate == 0 || freq != 0
  {
    if o.Stranded? {
      assert rs[i := Some(rate)][i] == Some(rate);
    }
  }

  /** After an accepted change the mask names the limited channels exactly if the search
      found a rate. */
  lemma MaskExactly(rs: Rates, i: nat, rate: nat, freq: nat, o: Outcome)
    requires i < |rs| && rs[i].Some? && Explains(o, rs, i, rate, freq) && o.Accepted?
    ensures LimitedSet(rs[i := Some(rate)]) == LimitedSet(RatesAfter(rs, i, rate, o)) <==>
              rate == 0 || InReach(freq, rate)
  {
    hide InReach;
    var wanted, rs' := rs[i := Some(rate)], RatesAfter(rs, i, rate, o);
    if rate != 0 {
      FoundIs(freq, rate, o.best);
    }
    assert forall j :: 0 <= j < |rs| && j != i ==> (Limited(wanted, j) <==> Limited(rs', j));
    assert i in LimitedSet(wanted) <==> rate > 0;
    assert i in LimitedSet(rs') <==> o.best.rate > 0;
  }

  /** The limited channels stay upward closed unless no factors exist for the new limit of
      a channel that has a limited one below it. */
  lemma ClosedExactly(rs: Rates, i: nat, rate: nat, freq: nat, o: Outcome)
    requires i < |rs| && rs[i].Some? && UpClosed(rs) && Explains(o, rs, i, rate, freq)
    ensures UpClosed(RatesAfter(rs, i, rate, o)) <==>
              !(&& rate != 0 && freq != 0 && rs[i] != Some(rate) && UpClosed(rs[i := Some(rate)])
                && !InReach(freq, rate) && exists j :: 0 <= j < i && Limited(rs, j))
  {
    hide InReach, Found;
    if o.Accepted? && rate != 0 {
      FoundIs(freq, rate, o.best);
      SameLimits(rs, i, rate, o.best.rate);
    }
  }

  lemma SameLimits(rs: Rates, i: nat, rate: nat, got: nat)
    requires i < |rs| && rs[i].Some? && rate != 0 && UpClosed(rs[i := Some(rate)])
    ensures UpClosed(rs[i := Some(got)]) <==> got != 0 || !exists j :: 0 <= j < i && Limited(rs, j)
  {
    var wanted, rs' := rs[i := Some(rate)], rs[i := Some(got)];
    assert forall j :: 0 <= j < |rs| && j != i ==> rs'[j] == wanted[j] == rs[j];
    if j :| 0 <= j < i && Limited(rs, j) && got == 0 {
      assert Limited(rs', j) && rs'[i].Some?;
    } else {
      forall j, k | 0 <= j < k < |rs'| && Limited(rs', j) && rs'[k].Some? ensures Limited(rs', k) {
        assert Limited(wanted, j) && Limited(wanted, k);
        assert k == i ==> Limited(rs, j);
      }
    }
  }

  // ---- Runs of changes ------------------------------------------------------------------------

  /** A call of `cpdma_chan_set_rate` with its outcome, or a channel more or less. */
  datatype Change = Rate(i: nat, rate: nat, freq: nat, o: Outcome) | Grow | Shrink

  /** The outcome is one the driver's code produces. */
  ghost predicate Possible(rs: Rates, n: nat, ch: Change) {
    match ch
    case Rate(i, rate, freq, o) => i < |rs| && rs[i].Some? && Explains(o, rs, i, rate, freq)
    case Grow => n <= LAST_TX
    case Shrink => n > 0
  }

  /** If the call searched for factors, it found some. */
  predicate SearchSucceeds(ch: Change) {
    ch.Rate? && ch.o.Accepted? && ch.rate != 0 ==> Searchable(ch.freq, ch.rate) && InReach(ch.freq, ch.rate)
  }

  function After(rs: Rates, n: nat, ch: Change): (Rates, nat)
    requires |rs| == MAX_CHANNELS && n <= LAST_TX + 1
    requires match ch case Rate(i, _, _, _) => i < |rs| case Grow => n <= LAST_TX case Shrink => n > 0
  {
    match ch
    case Rate(i, rate, _, o) => (RatesAfter(rs, i, rate, o), n)
    case Grow => (rs[LAST_TX - n := Some(0)], n + 1)
    case Shrink => (rs[LAST_TX - (n - 1) := None], (n - 1) as nat)
  }

  /** New channels are created below all existing ones, and the lowest goes first. */
  lemma CountKeepsClosed(rs: Rates, n: nat, ch: Change)
    requires Stacked(rs, n) && UpClosed(rs) && Possible(rs, n, ch) && !ch.Rate?
    ensures var (rs', n') := After(rs, n, ch); Stacked(rs', n') && UpClosed(rs')
  {
    var (rs', n') := After(rs, n, ch);
    forall i, j | 0 <= i < j < |rs'| && Limited(rs', i) && rs'[j].Some? ensures Limited(rs', j) {
      assert Limited(rs, i) && rs[j].Some?;
    }
  }

  lemma ChangeKeepsClosed(rs: Rates, n: nat, ch: Change)
    requires Stacked(rs, n) && UpClosed(rs) && Possible(rs, n, ch) && SearchSucceeds(ch)
    ensures var (rs', n') := After(rs, n, ch); Stacked(rs', n') && UpClosed(rs')
  {
    hide UpClosed, Explains, InReach;
    if ch.Rate? {
      ClosedExactly(rs, ch.i, ch.rate, ch.freq, ch.o);
    } else {
      CountKeepsClosed(rs, n, ch);
    }
  }

  ghost predicate ValidChanges(rs: Rates, n: nat, changes: seq<Change>)
    requires |rs| == MAX_CHANNELS && n <= LAST_TX + 1
    decreases |changes|
  {
    changes != [] ==>
      && Possible(rs, n, changes[0])
      && var (rs', n') := After(rs, n, changes[0]);
         ValidChanges(rs', n', changes[1..])
  }

  ghost function RatesRun(rs: Rates, n: nat, changes: seq<Change>): (Rates, nat)
    requires |rs| == MAX_CHANNELS && n <= LAST_TX + 1 && ValidChanges(rs, n, changes)
    decreases |changes|
  {
    if changes == [] then (rs, n)
    else
      var (rs', n') := After(rs, n, changes[0]);
      RatesRun(rs', n', changes[1..])
  }

  /** Over every run of rate changes, refused, failed and rounded ones included, and of channel
      count changes, the limited channels stay upward closed if every search succeeds. */
  lemma {:induction false} RunKeepsClosed(rs: Rates, n: nat, changes: seq<Change>)
    requires Stacked(rs, n) && UpClosed(rs) && ValidChanges(rs, n, changes)
    requires forall k :: 0 <= k < |changes| ==> SearchSucceeds(changes[k])
    ensures var (rs', n') := RatesRun(rs, n, changes); Stacked(rs', n') && UpClosed(rs')
    decreases |changes|
  {
    hide UpClosed, Explains, SearchSucceeds;
    if changes != [] {
      ChangeKeepsClosed(rs, n, changes[0]);
      var (rs', n') := After(rs, n, changes[0]);
      RunKeepsClosed(rs', n', changes[1..]);
    }
  }

  // ---- The callers ----------------------------------------------------------------------------------

  /** The place of the channel with ordinal `k` of one direction. */
  function PlaceOf(k: nat, rx: bool): nat
    requires k <= LAST_TX
  {
    if rx then k + MAX_CHANNELS else LAST_TX - k
  }

  /** The first `n` channels of one direction exist. */
  ghost predicate Numbered(c: Ctlr, n: nat, rx: bool)
    requires c.Placed()
    reads c.channels
  {
    && n <= LAST_TX + 1
    && if rx then forall i :: MAX_CHANNELS <= i < c.channels.Length ==>
         (c.channels[i] != null <==> i < MAX_CHANNELS + n)
       else forall i :: 0 <= i < MAX_CHANNELS ==> (c.channels[i] != null <==> LAST_TX - n < i <= LAST_TX)
  }

  /** The rates when the number of transmit channels goes from `n` to `m`: those that stay
      keep their rate, new ones have none. */
  function Resized(rs: Rates, n: nat, m: nat): (rs': Rates)
    ensures |rs'| == |rs|
  {
    seq(|rs|, i requires 0 <= i < |rs| =>
      if LAST_TX - m < i <= LAST_TX then (if LAST_TX - n < i then rs[i] else Some(0)) else None)
  }

  /** A new channel count is a run of single changes. */
  lemma {:induction false} ResizedIsRun(rs: Rates, n: nat, m: nat, at: nat) returns (changes: seq<Change>)
    requires Stacked(rs, n) && m <= LAST_TX + 1 && (n <= at <= m || m <= at <= n)
    ensures |Resized(rs, n, at)| == MAX_CHANNELS && at <= LAST_TX + 1 && ValidChanges(Resized(rs, n, at), at, changes)
    ensures RatesRun(Resized(rs, n, at), at, changes) == (Resized(rs, n, m), m)
    decreases if at < m then m - at else at - m
  {
    var rs' := Resized(rs, n, at);
    if at == m {
      changes := [];
    } else if at < m {
      assert Resized(rs, n, at + 1) == rs'[LAST_TX - at := Some(0)];
      changes := ResizedIsRun(rs, n, m, at + 1);
      changes := [Grow] + changes;
    } else {
      assert Resized(rs, n, at - 1) == rs'[LAST_TX - (at - 1) := None];
      changes := ResizedIsRun(rs, n, m, at - 1);
      changes := [Shrink] + changes;
    }
  }

  lemma SameSize(c: Ctlr, n: nat, rx: bool)
    requires c.Placed() && Numbered(c, n, rx)
    ensures n <= LAST_TX + 1
    ensures !rx ==> Resized(TxRates(c), n, n) == TxRates(c)
  {}

  lemma ResizedSteps(rs: Rates, n: nat)
    requires |rs| == MAX_CHANNELS
    ensures forall m :: n <= m <= LAST_TX ==> Resized(rs, n, m + 1) == Resized(rs, n, m)[LAST_TX - m := Some(0)]
    ensures forall m :: 0 <= m < n <= LAST_TX + 1 ==> Resized(rs, n, m) == Resized(rs, n, m + 1)[LAST_TX - m := None]
  {}

  /** One round of the first loop. */
  method AddChan(c: Ctlr, n: nat, rx: bool, reply: int -> Option<Packet>, room: bool) returns (ret: int)
    requires InOrder(c) && Quiet(c) && Numbered(c, n, rx) && n <= LAST_TX
    modifies c`chanNum, c.channels, c.Chans()`descNum
    ensures InOrder(c) && Quiet(c) && c.Placed() && Numbered(c, if ret == 0 then n + 1 else n, rx)
    ensures ret == if (if rx then n else LAST_TX - n) >= c.numChan then -EINVAL else if !room then -ENOMEM else 0
    ensures forall i :: 0 <= i < c.channels.Length && c.channels[i] != null ==>
              c.channels[i] in old(c.Chans()) || fresh(c.channels[i])
    ensures TxRates(c) == if rx || ret != 0 then old(TxRates(c)) else old(TxRates(c))[LAST_TX - n := Some(0)]
  {
    hide InOrder, Books, Shares, Present, QueuesOf, RatesOf, SpaceOk, Pool.Valid, SplitVerdict, Divided;
    OrderFacts(c);
    ghost var rs, chs := TxRates(c), c.channels[..];
    var vch := if rx then n else LAST_TX - n;
    ret := CreateChan(c, vch, rx, reply, room);
    OrderFacts(c);
    assert c.channels[..] == if ret == 0 then chs[PlaceOf(n, rx) := c.channels[PlaceOf(n, rx)]] else chs;
  }

  /** One round of the second loop. */
  method DropChan(c: Ctlr, n: nat, rx: bool, last: Option<Mode>, minLen: bv32) returns (ret: int)
    requires InOrder(c) && Quiet(c) && Numbered(c, n + 1, rx) && n <= LAST_TX
    modifies c`chanNum, c`lost, c.channels, c.pool, c.Chans()`descNum
    modifies c.Chans()`head, c.Chans()`tail, c.Chans()`count, c.Chans()`state, c.Chans()`engineAt, c.Chans()`fetched
    modifies c.Chans()`q, c.Chans()`submitted, c.Chans()`handed
    ensures InOrder(c) && Quiet(c) && c.Placed() && Numbered(c, n, rx) && ret == 0
    ensures forall i :: 0 <= i < c.channels.Length && c.channels[i] != null ==> c.channels[i] in old(c.Chans())
    ensures TxRates(c) == if rx then old(TxRates(c)) else old(TxRates(c))[LAST_TX - n := None]
  {
    hide InOrder, Books, Shares, Present, QueuesOf, RatesOf, SpaceOk, Pool.Valid, SplitVerdict, Divided;
    OrderFacts(c);
    ghost var rs, chs := TxRates(c), c.channels[..];
    ret := DestroyChan(c, PlaceOf(n, rx), last, minLen);
    OrderFacts(c);
    assert c.channels[..] == chs[PlaceOf(n, rx) := null];
  }

  /** The record of a queue is no part of the controller. */
  method WriteRecord(c: Ctlr, records: array<nat>, k: nat, rate: nat)
    requires k < records.Length
    modifies records
    ensures records[..] == old(records[..])[k := rate] && (old(InOrder(c)) ==> InOrder(c))
              && (old(Quiet(c)) ==> Quiet(c))
    ensures c.Placed() ==> old(c.Placed()) && TxRates(c) == old(TxRates(c))
  {
    records[k] := rate;
  }

  /** `cpsw_update_channels_res`: channels are created and destroyed at the end of the
      numbering; `last` is what the engine writes while a channel is torn down, and `room`
      tells for which ordinals there is memory. Every attempt to create a channel, of either
      direction, clears the record of the transmit queue with the same number. */
  method UpdateChannelsRes(c: Ctlr, ch: nat, chNum: nat, rx: bool, records: array<nat>, reply: int -> Option<Packet>,
                           room: nat -> bool, last: Option<Mode>, minLen: bv32)
    returns (ret: int, n: nat)
    requires InOrder(c) && Quiet(c) && Numbered(c, ch, rx) && chNum <= LAST_TX + 1 == records.Length
    modifies c`chanNum, c`lost, c.channels, c.pool, c.Chans()`descNum, records
    modifies c.Chans()`head, c.Chans()`tail, c.Chans()`count, c.Chans()`state, c.Chans()`engineAt, c.Chans()`fetched
    modifies c.Chans()`q, c.Chans()`submitted, c.Chans()`handed
    ensures InOrder(c) && Quiet(c) && c.Placed() && Numbered(c, n, rx)
    ensures if ret == 0 then n == chNum else (ret == -EINVAL || (ret == -ENOMEM && !room(n))) && ch <= n < chNum
    ensures TxRates(c) == if rx then old(TxRates(c)) else Resized(old(TxRates(c)), ch, n)
    ensures records[..] == Cleared(old(records[..]), ch, if ret == 0 then n else n + 1)
  {
    hide InOrder, Quiet, Numbered, TxRates, Resized, Cleared, Books, Shares, Present;
    OrderFacts(c);
    ghost var rs, all := TxRates(c), c.Chans();
    n := ch;
    SameSize(c, ch, rx);
    ResizedSteps(rs, ch);
    ClearedSteps(records[..], ch);
    while n < chNum
      invariant InOrder(c) && Quiet(c) && c.Placed() && Numbered(c, n, rx) && ch <= n && (n <= chNum || n == ch)
      invariant forall i :: 0 <= i < c.channels.Length && c.channels[i] != null ==>
                  c.channels[i] in all || fresh(c.channels[i])
      invariant TxRates(c) == if rx then rs else Resized(rs, ch, n)
      invariant records[..] == Cleared(old(records[..]), ch, n)
    {
      ret := AddChan(c, n, rx, reply, room(n));
      WriteRecord(c, records, n, 0);
      if ret != 0 {
        return;
      }
      n := n + 1;
    }
    while n > chNum
      invariant InOrder(c) && Quiet(c) && c.Placed() && Numbered(c, n, rx) && n >= chNum && (n <= ch || n == chNum)
      invariant forall i :: 0 <= i < c.channels.Length && c.channels[i] != null ==>
                  c.channels[i] in all || fresh(c.channels[i])
      invariant TxRates(c) == if rx then rs else Resized(rs, ch, n)
      invariant records[..] == Cleared(old(records[..]), ch, n)
    {
      n := n - 1;
      ret := DropChan(c, n, rx, last, minLen);
      if ret != 0 {
        return;
      }
    }
    ret := 0;
  }

  // ---- The records of the queues ----------------------------------------------------------------------

  /** The records of the queues from `lo` up to `hi` set to zero. */
  function Cleared(records: seq<nat>, lo: nat, hi: nat): (cleared: seq<nat>)
    ensures |cleared| == |records|
  {
    seq(|records|, k requires 0 <= k < |records| => if lo <= k < hi then 0 else records[k])
  }

  lemma ClearedSteps(records: seq<nat>, lo: nat)
    ensures forall hi: nat :: hi <= lo ==> Cleared(records, lo, hi) == records
    ensures forall hi: nat :: lo <= hi < |records| ==>
              Cleared(records, lo, hi)[hi := 0] == Cleared(records, lo, hi + 1)
  {
    forall hi: nat | lo <= hi < |records| ensures Cleared(records, lo, hi)[hi := 0] == Cleared(records, lo, hi + 1) {
      assert Cleared(records, lo, hi)[hi := 0] == Cleared(records, lo, hi + 1);
    }
  }

  /** The channel of queue `k` exists and is limited. */
  predicate LimitedQueue(rs: Rates, k: nat)
    requires |rs| == MAX_CHANNELS && k <= LAST_TX
  {
    Limited(rs, LAST_TX - k)
  }

  /** A queue with a channel has a record exactly if the channel is limited. */
  ghost predicate Recorded(rs: Rates, records: seq<nat>)
    requires |rs| == MAX_CHANNELS && |records| == LAST_TX + 1
  {
    forall k :: 0 <= k < |records| && rs[LAST_TX - k].Some? ==> (records[k] != 0 <==> LimitedQueue(rs, k))
  }

  /** A new number of transmit channels keeps the records right. A new number of receive
      channels does if and only if no transmit channel whose number it creates is limited:
      otherwise the limit stays, but its record is gone, and the next call that asks for no
      limit returns at once. */
  lemma ClearedExactly(rs: Rates, records: seq<nat>, n: nat, m: nat, hi: nat)
    requires Stacked(rs, n) && m <= LAST_TX + 1 && |records| == LAST_TX + 1 && Recorded(rs, records)
    requires m <= hi <= m + 1
    ensures Recorded(Resized(rs, n, m), Cleared(records, n, hi))
    ensures forall from: nat, to: nat ::
              Recorded(rs, Cleared(records, from, to)) <==>
                  forall k :: from <= k < to && k <= LAST_TX ==> !LimitedQueue(rs, k)
  {
    forall from: nat, to: nat
      ensures Recorded(rs, Cleared(records, from, to)) <==>
                forall k :: from <= k < to && k <= LAST_TX ==> !LimitedQueue(rs, k)
    {
      var cleared := Cleared(records, from, to);
      if Recorded(rs, cleared) {
        forall k | from <= k < to && k <= LAST_TX ensures !LimitedQueue(rs, k) {
          assert cleared[k] == 0;
        }
      }
    }
  }

  /** Two transmit queues limited to 100 Mbit/s, and a second receive channel: the record of
      the second queue is gone although its channel is still limited. */
  lemma ClearedLoses()
    ensures var rs: Rates := seq(MAX_CHANNELS, i => if i == 6 || i == 7 then Some(100_000) else None);
            var records: seq<nat> := [100, 100, 0, 0, 0, 0, 0, 0];
            && Stacked(rs, 2) && UpClosed(rs) && Recorded(rs, records)
            && Cleared(records, 1, 2)[1] == 0 && LimitedQueue(rs, 1) && !Recorded(rs, Cleared(records, 1, 2))
  {
    var rs: Rates := seq(MAX_CHANNELS, i => if i == 6 || i == 7 then Some(100_000) else None);
    var records: seq<nat> := [100, 100, 0, 0, 0, 0, 0, 0];
    assert LimitedQueue(rs, 1);
    ClearedExactly(rs, records, 2, 2, 2);
  }

  /** The checks of `cpsw_ndo_set_tx_maxrate`, in unsigned 32-bit arithmetic; `rate` and
      `speed` are in Mbit/s. */
  predicate RateAdmitted(rate: nat, speed: nat, busMhz: nat) {
    var chRate := ToU32(rate * 1000);
    !(chRate < MinRate(BusFreq(busMhz)) && chRate != 0) && !(rate > speed)
  }

  /** A rate is admitted exactly if it is no more than the link's and, unless it is zero, at
      least one part in 16385 of the bus frequency; for the frequencies at the very end of the
      32-bit range that bound is lost. */
  lemma AdmittedExactly(rate: nat, speed: nat, busMhz: nat)
    requires 1000 * rate < TWO_TO_THE_32 && 32_000 * busMhz < TWO_TO_THE_32
    ensures BusFreq(busMhz) == 32_000 * busMhz && KbitRate(rate) == 1000 * rate
    ensures RateAdmitted(rate, speed, busMhz) <==>
              rate <= speed
              && (rate == 0 || 16385 * (1000 * rate) >= 32_000 * busMhz || 32_000 * busMhz > UINT_MAX - MAX_RLIM_CNT)
  {
    MinRateIs(32_000 * busMhz, 1000 * rate);
    hide MinRate;
  }

  lemma MinRateIs(freq: nat, rate: nat)
    requires freq < TWO_TO_THE_32
    ensures rate >= MinRate(freq) <==> 16385 * rate >= freq || freq > UINT_MAX - MAX_RLIM_CNT
  {
    if freq <= UINT_MAX - MAX_RLIM_CNT {
      DivAtLeast(freq + MAX_RLIM_CNT, 16385, rate + 1);
    }
  }

  /** On a bus at least twice as fast as the link the checks make the search safe, and up
      to 1864 MHz they make it succeed. */
  lemma AdmittedIsSearchable(rate: nat, speed: nat, busMhz: nat)
    requires RateAdmitted(rate, speed, busMhz) && 2 * (1000 * speed) <= BusFreq(busMhz)
    ensures ToU32(rate * 1000) == rate * 1000
    ensures rate != 0 ==> Searchable(BusFreq(busMhz), rate * 1000)
    ensures rate != 0 && BusFreq(busMhz) <= SAFE_FREQ ==> InReach(BusFreq(busMhz), rate * 1000)
  {
    hide InReach;
    if rate != 0 && BusFreq(busMhz) <= SAFE_FREQ {
      AdmittedInReach(BusFreq(busMhz), rate * 1000);
    }
  }

  lemma AdmittedOutcome(rs: Rates, i: nat, rate: nat, freq: nat, o: Outcome)
    requires i < |rs| && rs[i].Some? && Explains(o, rs, i, rate, freq)
    requires rate == 0 || freq == 0 || Searchable(freq, rate)
    ensures o.Stranded? ==> rate != 0 && freq == 0
    ensures o == Unchanged(0) ==> rate == 0 && rs == rs[i := Some(0)]
    ensures o.Accepted? ==> if rate == 0 then o.best.rate == 0
                            else Searchable(freq, rate)
                                 && (o.best.rate >= rate || (o.best.rate == 0 && !InReach(freq, rate)))
    ensures UpClosed(rs) && (rate == 0 || freq == 0 || InReach(freq, rate)) ==> UpClosed(RatesAfter(rs, i, rate, o))
  {
    hide InReach, Found;
    if UpClosed(rs) {
      ClosedExactly(rs, i, rate, freq, o);
    }
    if o.Accepted? && rate != 0 {
      FoundIs(freq, rate, o.best);
    }
  }

  /** The rate in Kb/s as the driver computes it. */
  function KbitRate(rate: nat): nat { ToU32(rate * 1000) }

  /** `cpdma_chan_set_rate` touches nothing but rates and registers. */
  method SetRateOn(c: Ctlr, i: nat, rate: nat, regs: Shaper, busMhz: nat) returns (ret: int, ghost o: Outcome)
    requires c.Placed() && i < MAX_CHANNELS && c.channels[i] != null
    requires var freq := BusFreq(busMhz); rate == 0 || freq == 0 || Searchable(freq, rate)
    modifies c.Chans()`rate, c.Chans()`rateFactor, regs
    ensures Explains(o, old(TxRates(c)), i, rate, BusFreq(busMhz))
    ensures ret == match o case Unchanged(r) => r case Accepted(_) => 0 case Stranded => -EINVAL
    ensures TxRates(c) == RatesAfter(old(TxRates(c)), i, rate, o)
    ensures !o.Accepted? ==> regs.factor == old(regs.factor)
    ensures old(InOrder(c)) ==> InOrder(c)
  {
    hide Found, InReach, Searchable, BusFreq, UpClosed, InOrder, Books, Shares, Present, Explains;
    ghost var order := InOrder(c);
    if order {
      OrderFacts(c);
    }
    ret, o := SetRate(c, i, rate, regs, busMhz);
    if order {
      StillInOrder(c);
    }
  }

  /** The result of a new limit: it has to be admitted and to keep the limited channels upward
      closed, and the bus frequency has to be known. The rate the channel has already is given
      back instead of zero. */
  ghost function MaxrateVerdict(rs: Rates, i: nat, rate: nat, speed: nat, busMhz: nat): int
    requires i < |rs|
  {
    if !RateAdmitted(rate, speed, busMhz) then -EINVAL
    else if rs[i] == Some(KbitRate(rate)) then KbitRate(rate)
    else if !UpClosed(rs[i := Some(KbitRate(rate))]) || (KbitRate(rate) != 0 && BusFreq(busMhz) == 0) then -EINVAL
    else 0
  }

  /** `cpsw_ndo_set_tx_maxrate` up to the result of `cpdma_chan_set_rate`, for channel `i`. */
  method CheckAndSet(c: Ctlr, i: nat, rate: nat, speed: nat, regs: Shaper, busMhz: nat) returns (ret: int)
    requires c.Placed() && i < MAX_CHANNELS && c.channels[i] != null
    requires BusFreq(busMhz) == 0 || 2 * (1000 * speed) <= BusFreq(busMhz)
    modifies c.Chans()`rate, c.Chans()`rateFactor, regs
    ensures ret != 0 ==> regs.factor == old(regs.factor)
    ensures ret == MaxrateVerdict(old(TxRates(c)), i, rate, speed, busMhz)
    ensures !RateAdmitted(rate, speed, busMhz) ==> ret == -EINVAL && TxRates(c) == old(TxRates(c))
    ensures ret != 0 && BusFreq(busMhz) != 0 ==> TxRates(c) == old(TxRates(c))
    ensures BusFreq(busMhz) == 0 && rate <= speed && KbitRate(rate) != 0 ==>
              var rs, wanted := old(TxRates(c)), old(TxRates(c))[i := Some(KbitRate(rate))];
              rs != wanted && UpClosed(wanted) ==> ret == -EINVAL && TxRates(c) == wanted
    ensures ret == 0 ==>
              exists got: nat ::
                && TxRates(c) == old(TxRates(c))[i := Some(got)]
                && if KbitRate(rate) == 0 then got == 0
                   else Searchable(BusFreq(busMhz), KbitRate(rate))
                        && (got >= KbitRate(rate) || (got == 0 && !InReach(BusFreq(busMhz), KbitRate(rate))))
    ensures BusFreq(busMhz) <= SAFE_FREQ && old(UpClosed(TxRates(c))) ==> UpClosed(TxRates(c))
    ensures ret == 0 && 0 < BusFreq(busMhz) <= SAFE_FREQ ==> (rate != 0 <==> Limited(TxRates(c), i))
    ensures old(InOrder(c)) ==> InOrder(c)
  {
    hide Found, InReach, Searchable, BusFreq, UpClosed, KbitRate, MinRate, InOrder;
    AdmittedBounds(rate, speed, busMhz);
    if !RateAdmitted(rate, speed, busMhz) {
      return -EINVAL;
    }
    ghost var rs := TxRates(c);
    ghost var o;
    ret, o := SetRateOn(c, i, KbitRate(rate), regs, busMhz);
    AdmittedOutcome(rs, i, KbitRate(rate), BusFreq(busMhz), o);
  }

  /** `cpsw_ndo_set_tx_maxrate` for a queue and the records of the queues. On a bus of at
      most 1864 MHz it keeps the limited channels upward closed whatever it returns, and the
      records right. While the bus frequency is not set a new limit is refused, but stays
      with the channel. */
  method SetTxMaxrate(c: Ctlr, queue: nat, rate: nat, speed: nat, records: array<nat>, regs: Shaper, busMhz: nat)
    returns (ret: int)
    requires c.Placed() && queue <= LAST_TX && c.channels[LAST_TX - queue] != null && records.Length == LAST_TX + 1
    requires BusFreq(busMhz) == 0 || 2 * (1000 * speed) <= BusFreq(busMhz)
    modifies c.Chans()`rate, c.Chans()`rateFactor, regs, records
    ensures records[..] == if ret == 0 then old(records[..])[queue := rate] else old(records[..])
    ensures rate == old(records[queue]) ==> ret == 0 && TxRates(c) == old(TxRates(c))
    ensures ret != 0 || rate == old(records[queue]) ==> regs.factor == old(regs.factor)
    ensures rate != old(records[queue]) ==>
              ret == MaxrateVerdict(old(TxRates(c)), LAST_TX - queue, rate, speed, busMhz)
    ensures !RateAdmitted(rate, speed, busMhz) && rate != old(records[queue]) ==>
              ret == -EINVAL && TxRates(c) == old(TxRates(c))
    ensures ret != 0 && BusFreq(busMhz) != 0 ==> TxRates(c) == old(TxRates(c))
    ensures BusFreq(busMhz) == 0 && rate != old(records[queue]) && rate <= speed && KbitRate(rate) != 0 ==>
              var rs, wanted := old(TxRates(c)), old(TxRates(c))[LAST_TX - queue := Some(KbitRate(rate))];
              rs != wanted && UpClosed(wanted) ==> ret == -EINVAL && TxRates(c) == wanted
    ensures ret == 0 && rate != old(records[queue]) ==>
              exists got: nat ::
                && TxRates(c) == old(TxRates(c))[LAST_TX - queue := Some(got)]
                && if KbitRate(rate) == 0 then got == 0
                   else Searchable(BusFreq(busMhz), KbitRate(rate))
                        && (got >= KbitRate(rate) || (got == 0 && !InReach(BusFreq(busMhz), KbitRate(rate))))
    ensures BusFreq(busMhz) <= SAFE_FREQ && old(UpClosed(TxRates(c))) ==> UpClosed(TxRates(c))
    ensures 0 < BusFreq(busMhz) <= SAFE_FREQ && old(Recorded(TxRates(c), records[..])) ==>
              Recorded(TxRates(c), records[..])
    ensures old(InOrder(c)) ==> InOrder(c)
  {
    hide Found, InReach, Searchable, BusFreq, UpClosed, KbitRate, RateAdmitted, InOrder, Recorded, RatesOf;
    if records[queue] == rate {
      assert old(records[..])[queue := rate] == old(records[..]);
      return 0;
    }
    ghost var rs := TxRates(c);
    ret := CheckAndSet(c, LAST_TX - queue, rate, speed, regs, busMhz);
    if ret != 0 {
      return;
    }
    RecordKept(rs, records[..], queue, rate, TxRates(c));
    WriteRecord(c, records, queue, rate);
  }

  /** A record stays right if it is zero exactly for no limit. */
  lemma RecordKept(rs: Rates, records: seq<nat>, queue: nat, rate: nat, rs': Rates)
    requires |rs| == |rs'| == MAX_CHANNELS && |records| == LAST_TX + 1 && queue <= LAST_TX
    requires forall i :: 0 <= i < |rs| && i != LAST_TX - queue ==> rs'[i] == rs[i]
    ensures Recorded(rs, records) && (rate != 0 <==> LimitedQueue(rs', queue)) ==> Recorded(rs', records[queue := rate])
  {}

  /** What the checks ensure for a bus that is not set, or fast enough. */
  lemma AdmittedBounds(rate: nat, speed: nat, busMhz: nat)
    requires BusFreq(busMhz) == 0 || 2 * (1000 * speed) <= BusFreq(busMhz)
    ensures BusFreq(busMhz) == 0 ==> (RateAdmitted(rate, speed, busMhz) <==> rate <= speed)
    ensures RateAdmitted(rate, speed, busMhz) && BusFreq(busMhz) != 0 ==> KbitRate(rate) == rate * 1000
    ensures RateAdmitted(rate, speed, busMhz) && KbitRate(rate) != 0 && BusFreq(busMhz) != 0 ==>
              Searchable(BusFreq(busMhz), KbitRate(rate))
    ensures RateAdmitted(rate, speed, busMhz) && KbitRate(rate) != 0 && 0 < BusFreq(busMhz) <= SAFE_FREQ ==>
              InReach(BusFreq(busMhz), KbitRate(rate))
  {
    hide InReach;
    if RateAdmitted(rate, speed, busMhz) && BusFreq(busMhz) != 0 {
      AdmittedIsSearchable(rate, speed, busMhz);
    }
  }
}
