/** The split of the descriptor pool over the channels of a controller.

  Transmit and receive channels are split separately. A channel with weight `w > 0` gets
  `w` percent; those with weight 0 share the rest; the remainder goes to the first channel
  with the largest share.
 */
module PoolSplit {
  import opened Kernel
  import opened CpdmaProtocol
  import opened CpdmaMemory

  // ---- The split on values ---------------------------------------------------------

  /** The weights of the channels of one direction; None where there is no channel. */
  type Weights = seq<Option<nat>>

  function TotalWeight(ws: Weights): nat {
    if ws == [] then 0
    else TotalWeight(ws[..|ws| - 1]) + (match ws[|ws| - 1] case None => 0 case Some(w) => w)
  }

  /** The number of channels without a weight. */
  function FreeNum(ws: Weights): nat {
    if ws == [] then 0
    else FreeNum(ws[..|ws| - 1]) + (if ws[|ws| - 1] == Some(0) then 1 else 0)
  }

  function PerChannel(ws: Weights, descs: nat): int {
    var rest := descs - TotalWeight(ws) * descs / 100;
    if FreeNum(ws) == 0 then 0 else rest / FreeNum(ws)
  }

  function Share(w: Option<nat>, descs: nat, perCh: int): int {
    match w
    case None => 0
    case Some(w) => if w > 0 then w * descs / 100 else perCh
  }

  /** The shares before the remainder is given out. */
  function PreShares(ws: Weights, descs: nat, perCh: int): seq<int> {
    seq(|ws|, i requires 0 <= i < |ws| => Share(ws[i], descs, perCh))
  }

  function Sum(s: seq<int>): int {
    if s == [] then 0 else Sum(s[..|s| - 1]) + s[|s| - 1]
  }

  /** The first position of the largest positive share, or -1. */
  function FirstMax(s: seq<int>): (m: int)
    ensures -1 <= m < |s|
    ensures m >= 0 ==> s[m] > 0 && forall i :: 0 <= i < |s| ==> s[i] <= s[m]
    ensures m >= 0 ==> forall i :: 0 <= i < m ==> s[i] < s[m]
    ensures m < 0 ==> forall i :: 0 <= i < |s| ==> s[i] <= 0
  {
    if s == [] then -1
    else
      var n := |s| - 1;
      var p := FirstMax(s[..n]);
      if (if p < 0 then 0 else s[p]) < s[n] then n else p
  }

  function Largest(s: seq<int>): int {
    if FirstMax(s) < 0 then 0 else s[FirstMax(s)]
  }

  /** The shares with the rest given to the largest one. */
  function Topped(pre: seq<int>, rest: int): seq<int> {
    var m := FirstMax(pre);
    if m < 0 then pre else pre[m := pre[m] + rest]
  }

  /** The shares as the driver leaves them. */
  function Split(ws: Weights, descs: nat, perCh: int): seq<int> {
    var pre := PreShares(ws, descs, perCh);
    Topped(pre, descs - Sum(pre))
  }

  lemma FloorsAdd(a: nat, b: nat)
    ensures a / 100 + b / 100 <= (a + b) / 100
  {}

  lemma WeightStep(total: nat, w: nat, descs: nat)
    ensures total * descs / 100 + w * descs / 100 <= (total + w) * descs / 100
  {
    FloorsAdd(total * descs, w * descs);
    assert (total + w) * descs == total * descs + w * descs;
  }

  /** Weighted channels never take more than the sum of their weights allows. */
  lemma {:induction false} PreSharesSum(ws: Weights, descs: nat, perCh: int)
    requires perCh >= 0
    ensures Sum(PreShares(ws, descs, perCh)) <= TotalWeight(ws) * descs / 100 + FreeNum(ws) * perCh
  {
    if ws != [] {
      var n := |ws| - 1;
      var pre := PreShares(ws, descs, perCh);
      assert pre[..n] == PreShares(ws[..n], descs, perCh);
      PreSharesSum(ws[..n], descs, perCh);
      match ws[n] {
        case None =>
        case Some(w) =>
          WeightStep(TotalWeight(ws[..n]), w, descs);
          if w == 0 {
            assert (FreeNum(ws[..n]) + 1) * perCh == FreeNum(ws[..n]) * perCh + perCh;
          }
      }
    }
  }

  lemma RestFits(total: nat, descs: nat, free: nat)
    requires total <= 100
    ensures total * descs / 100 <= descs
    ensures free > 0 ==> 0 <= (descs - total * descs / 100) / free
    ensures free > 0 ==> free * ((descs - total * descs / 100) / free) <= descs - total * descs / 100
  {
    assert total * descs <= 100 * descs;
  }

  /** Before the remainder is given out nobody has too much. */
  lemma PreSharesFit(ws: Weights, descs: nat)
    requires TotalWeight(ws) <= 100
    ensures PerChannel(ws, descs) >= 0
    ensures Sum(PreShares(ws, descs, PerChannel(ws, descs))) <= descs
    ensures forall i :: 0 <= i < |ws| ==> 0 <= PreShares(ws, descs, PerChannel(ws, descs))[i]
  {
    PerChannelFits(ws, descs);
    PreSharesSum(ws, descs, PerChannel(ws, descs));
    hide PerChannel, TotalWeight, FreeNum, Sum;
  }

  lemma PerChannelFits(ws: Weights, descs: nat)
    requires TotalWeight(ws) <= 100
    ensures PerChannel(ws, descs) >= 0
    ensures TotalWeight(ws) * descs / 100 + FreeNum(ws) * PerChannel(ws, descs) <= descs
  {
    hide TotalWeight, FreeNum;
    RestFits(TotalWeight(ws), descs, FreeNum(ws));
  }

  lemma {:induction false} SumUpdate(s: seq<int>, i: nat, v: int)
    requires i < |s|
    ensures Sum(s[i := v]) == Sum(s) - s[i] + v
  {
    var n := |s| - 1;
    if i < n {
      assert s[i := v][..n] == s[..n][i := v];
      SumUpdate(s[..n], i, v);
    } else {
      assert s[i := v][..n] == s[..n];
    }
  }

  lemma {:induction false} SumOfZeros(s: seq<int>)
    requires forall i :: 0 <= i < |s| ==> s[i] == 0
    ensures Sum(s) == 0
  {
    if s != [] {
      SumOfZeros(s[..|s| - 1]);
    }
  }

  /** The shares use up the descriptors exactly, unless every share was zero. No share
      is negative and no channel gets less than before the remainder was given out. */
  lemma SplitIsExact(ws: Weights, descs: nat)
    requires TotalWeight(ws) <= 100
    ensures var per := PerChannel(ws, descs);
            var pre, fin := PreShares(ws, descs, per), Split(ws, descs, per);
            && |fin| == |ws|
            && (forall i :: 0 <= i < |ws| ==> 0 <= pre[i] <= fin[i])
            && Sum(fin) == if exists i :: 0 <= i < |ws| && pre[i] != 0 then descs else 0
  {
    hide PerChannel, TotalWeight;
    var per := PerChannel(ws, descs);
    var pre := PreShares(ws, descs, per);
    PreSharesFit(ws, descs);
    var m := FirstMax(pre);
    if m >= 0 {
      SumUpdate(pre, m, pre[m] + (descs - Sum(pre)));
    } else {
      SumOfZeros(pre);
    }
  }

  // ---- The two counts of a direction -------------------------------------------------------

  /** A place without a channel weighs nothing. */
  lemma {:induction false} TotalIs(ws: Weights)
    ensures TotalWeight(ws) == Sum(seq(|ws|, i requires 0 <= i < |ws| => if ws[i].Some? then ws[i].value else 0))
  {
    if ws != [] {
      var n := |ws| - 1;
      var weights := seq(|ws|, i requires 0 <= i < |ws| => if ws[i].Some? then ws[i].value else 0);
      TotalIs(ws[..n]);
      assert weights[..n] == seq(n, i requires 0 <= i < n => if ws[..n][i].Some? then ws[..n][i].value else 0);
    }
  }

  ghost function FreePlaces(ws: Weights): set<nat> { set i: nat | i < |ws| && ws[i] == Some(0) }

  lemma {:induction false} FreeIs(ws: Weights)
    ensures FreeNum(ws) == |FreePlaces(ws)|
  {
    if ws != [] {
      var n := |ws| - 1;
      FreeIs(ws[..n]);
      assert FreePlaces(ws) == FreePlaces(ws[..n]) + (if ws[n] == Some(0) then {n} else {});
    }
  }

  // ---- Who gets what --------------------------------------------------------------------

  /** The part of one channel: its percentage of the descriptors, an equal part of what the
      weights leave, or nothing where there is no channel; always rounded down. */
  predicate IsPart(w: Option<nat>, part: int, descs: nat, total: nat, free: nat) {
    match w
    case None => part == 0
    case Some(w) =>
      if w > 0 then 100 * part <= w * descs < 100 * (part + 1)
      else free * part <= descs - total * descs / 100 < free * (part + 1)
  }

  /** Every channel has its part, except channel `m`: that has the largest part, `part`, and no
      channel before it has as much; it gets all that the others leave. Without such an `m` all
      parts are zero. */
  ghost predicate DealtAround(ws: Weights, descs: nat, shares: seq<int>, m: int, part: int) {
    && |shares| == |ws|
    && (forall i :: 0 <= i < |ws| && i != m ==> IsPart(ws[i], shares[i], descs, TotalWeight(ws), FreeNum(ws)))
    && (m < 0 ==> forall i :: 0 <= i < |ws| ==> shares[i] == 0)
    && (m >= 0 ==>
          && m < |ws| && IsPart(ws[m], part, descs, TotalWeight(ws), FreeNum(ws))
          && 0 < part <= shares[m] && Sum(shares) == descs
          && (forall i :: 0 <= i < |ws| && i != m ==> shares[i] <= part)
          && (forall i :: 0 <= i < m ==> shares[i] < part))
  }

  ghost predicate DealtOut(ws: Weights, descs: nat, shares: seq<int>) {
    exists m, part :: DealtAround(ws, descs, shares, m, part)
  }

  lemma PercentOf(x: nat)
    ensures 100 * (x / 100) <= x < 100 * (x / 100 + 1)
  {}

  lemma QuotientIs(x: nat, d: nat)
    requires d > 0
    ensures d * (x / d) <= x < d * (x / d + 1)
  {
    DivAtLeast(x, d, x / d);
    DivAtLeast(x, d, x / d + 1);
  }

  lemma PartIs(ws: Weights, descs: nat, i: nat)
    requires TotalWeight(ws) <= 100 && i < |ws|
    ensures IsPart(ws[i], PreShares(ws, descs, PerChannel(ws, descs))[i], descs, TotalWeight(ws), FreeNum(ws))
  {
    hide TotalWeight, FreeNum;
    FreeIs(ws);
    match ws[i] {
      case None =>
      case Some(w) =>
        PercentOf(w * descs);
        RestFits(TotalWeight(ws), descs, FreeNum(ws));
        if w == 0 {
          assert i in FreePlaces(ws);
          QuotientIs(descs - TotalWeight(ws) * descs / 100, FreeNum(ws));
        }
    }
  }

  /** The split deals the descriptors out: each channel gets its part and the first with the
      largest part the rest. */
  lemma SplitDeals(ws: Weights, descs: nat)
    requires TotalWeight(ws) <= 100
    ensures DealtOut(ws, descs, Split(ws, descs, PerChannel(ws, descs)))
  {
    hide PerChannel, TotalWeight, FreeNum, Sum, IsPart;
    var per := PerChannel(ws, descs);
    var pre, fin := PreShares(ws, descs, per), Split(ws, descs, per);
    forall i | 0 <= i < |ws| ensures IsPart(ws[i], pre[i], descs, TotalWeight(ws), FreeNum(ws)) {
      PartIs(ws, descs, i);
    }
    PreSharesFit(ws, descs);
    SplitIsExact(ws, descs);
    var m := FirstMax(pre);
    if m >= 0 {
      assert pre[m] != 0;
    }
    assert DealtAround(ws, descs, fin, m, if m < 0 then 0 else pre[m]);
  }

  lemma NextSum(s: seq<int>, u: nat)
    requires u < |s|
    ensures Sum(s[..u + 1]) == Sum(s[..u]) + s[u]
  {
    assert s[..u + 1][..u] == s[..u];
  }

  lemma PrefixStep(s: seq<int>, k: nat)
    requires k < |s|
    ensures Sum(s[..k + 1]) == Sum(s[..k]) + s[k]
    ensures FirstMax(s[..k + 1]) == if Largest(s[..k]) < s[k] then k else FirstMax(s[..k])
    ensures Largest(s[..k + 1]) == if Largest(s[..k]) < s[k] then s[k] else Largest(s[..k])
    ensures s[k] == 0 ==> s[k] <= Largest(s[..k])
  {
    assert s[..k + 1][..k] == s[..k];
  }

  // ---- The driver's loops ------------------------------------------------------------

  ghost function Objects(chs: seq<Chan?>): set<Chan> {
    set i | 0 <= i < |chs| && chs[i] != null :: chs[i]
  }

  ghost function WeightOf(ch: Chan?): Option<nat>
    reads if ch == null then {} else {ch}`weight
  {
    if ch == null then None else Some(ch.weight)
  }

  ghost function WeightsOf(chs: seq<Chan?>): (ws: Weights)
    reads Objects(chs)`weight
    ensures |ws| == |chs| && forall i :: 0 <= i < |chs| ==> ws[i] == WeightOf(chs[i])
  {
    if chs == [] then [] else WeightsOf(chs[..|chs| - 1]) + [WeightOf(chs[|chs| - 1])]
  }

  ghost function ShareOf(ch: Chan?): int
    reads if ch == null then {} else {ch}`descNum
  {
    if ch == null then 0 else ch.descNum
  }

  ghost function SharesOf(chs: seq<Chan?>): (shares: seq<int>)
    reads Objects(chs)`descNum
    ensures |shares| == |chs| && forall i :: 0 <= i < |chs| ==> shares[i] == ShareOf(chs[i])
  {
    if chs == [] then [] else SharesOf(chs[..|chs| - 1]) + [ShareOf(chs[|chs| - 1])]
  }

  /** Every channel stands at its own number, so all are different objects. */
  ghost predicate InPlace(chs: seq<Chan?>, lo: nat) {
    forall i :: 0 <= i < |chs| && chs[i] != null ==> chs[i].chanNum == lo + i
  }

  /** `cpdma_chan_set_descs` on the channels `chs` of one direction. */
  method SetDescs(chs: seq<Chan?>, ghost lo: nat, descs: int, perCh: int)
    requires InPlace(chs, lo) && descs >= 0
    modifies Objects(chs)`descNum
    ensures SharesOf(chs) == if descs == 0 then old(SharesOf(chs)) else Split(WeightsOf(chs), descs, perCh)
    ensures descs > 0 && TotalWeight(WeightsOf(chs)) <= 100 && perCh == PerChannel(WeightsOf(chs), descs) ==>
              DealtOut(WeightsOf(chs), descs, SharesOf(chs))
  {
    hide Split, DealtOut, TotalWeight, PerChannel, WeightsOf, SharesOf;
    if descs == 0 {
      return;
    }
    SetShares(chs, lo, descs, perCh);
    if TotalWeight(WeightsOf(chs)) <= 100 {
      SplitDeals(WeightsOf(chs), descs);
    }
  }

  method SetShares(chs: seq<Chan?>, ghost lo: nat, descs: int, perCh: int)
    requires InPlace(chs, lo) && descs > 0
    modifies Objects(chs)`descNum
    ensures SharesOf(chs) == Split(WeightsOf(chs), descs, perCh)
  {
    hide Split, Topped, Sum, FirstMax, SharesOf, WeightsOf, PreShares, Share, ShareOf, Largest;
    var mostChan: Chan? := null;
    var descCnt, mostDnum := descs, 0;
    ghost var ws := WeightsOf(chs);
    ghost var pre := PreShares(ws, descs, perCh);
    ghost var most := -1;
    PreShareAt(ws, descs, perCh);
    Empties(pre);
    for i := 0 to |chs|
      invariant forall j :: 0 <= j < i && chs[j] != null ==> chs[j].descNum == pre[j]
      invariant descCnt == descs - Sum(pre[..i])
      invariant mostDnum == Largest(pre[..i])
      invariant most == FirstMax(pre[..i]) && -1 <= most < i
      invariant mostChan == if most < 0 then null else chs[most]
    {
      var chan := chs[i];
      PrefixStep(pre, i);
      most := FirstMax(pre[..i + 1]);
      if chan != null {
        SetShare(chan, descs, perCh);
        descCnt := descCnt - chan.descNum;
        if mostDnum < chan.descNum {
          mostDnum := chan.descNum;
          mostChan := chan;
        }
      }
    }
    assert pre[..|chs|] == pre;
    SharesAre(chs, pre);
    GiveRest(chs, lo, mostChan, descCnt, pre);
    SplitForm(ws, descs, perCh);
  }

  lemma SplitForm(ws: Weights, descs: int, perCh: int)
    requires descs >= 0
    ensures var pre := PreShares(ws, descs, perCh);
            Split(ws, descs, perCh) == Topped(pre, descs - Sum(pre))
  {}

  /** "use remains": the rest goes to the channel with the largest share. */
  method GiveRest(chs: seq<Chan?>, ghost lo: nat, mostChan: Chan?, rest: int, ghost pre: seq<int>)
    requires InPlace(chs, lo) && SharesOf(chs) == pre
    requires mostChan == if FirstMax(pre) < 0 then null else chs[FirstMax(pre)]
    modifies Objects(chs)`descNum
    ensures SharesOf(chs) == Topped(pre, rest)
  {
    hide Sum, FirstMax, SharesOf;
    if mostChan != null {
      mostChan.descNum := mostChan.descNum + rest;
      SharesAre(chs, pre[FirstMax(pre) := mostChan.descNum]);
    }
  }

  /** The share of one channel. */
  method SetShare(chan: Chan, descs: nat, perCh: int)
    modifies chan`descNum
    ensures chan.descNum == Share(Some(chan.weight), descs, perCh)
  {
    if chan.weight > 0 {
      chan.descNum := chan.weight * descs / 100;
    } else {
      chan.descNum := perCh;
    }
  }

  lemma PreShareAt(ws: Weights, descs: nat, perCh: int)
    ensures var pre := PreShares(ws, descs, perCh);
            && |pre| == |ws|
            && (forall i :: 0 <= i < |ws| ==> pre[i] == Share(ws[i], descs, perCh))
            && (forall i :: 0 <= i < |ws| && ws[i].None? ==> pre[i] == 0)
  {}

  lemma SharesAre(chs: seq<Chan?>, shares: seq<int>)
    requires |shares| == |chs|
    requires forall i :: 0 <= i < |chs| ==> shares[i] == if chs[i] == null then 0 else chs[i].descNum
    ensures SharesOf(chs) == shares
  {}

  lemma Empties(s: seq<int>)
    ensures Sum(s[..0]) == 0 && FirstMax(s[..0]) == -1 && Largest(s[..0]) == 0
  {}

  ghost function TxWeights(c: Ctlr): Weights
    requires c.Placed()
    reads c.channels, c.Chans()`weight
  {
    WeightsOf(c.channels[..MAX_CHANNELS])
  }

  ghost function RxWeights(c: Ctlr): Weights
    requires c.Placed()
    reads c.channels, c.Chans()`weight
  {
    WeightsOf(c.channels[MAX_CHANNELS..])
  }

  ghost function TxShares(c: Ctlr): seq<int>
    requires c.Placed()
    reads c.channels, c.Chans()`descNum
  {
    SharesOf(c.channels[..MAX_CHANNELS])
  }

  ghost function RxShares(c: Ctlr): seq<int>
    requires c.Placed()
    reads c.channels, c.Chans()`descNum
  {
    SharesOf(c.channels[MAX_CHANNELS..])
  }

  lemma WeightPrefix(ws: Weights, k: nat)
    requires k < |ws|
    ensures TotalWeight(ws[..k + 1]) == TotalWeight(ws[..k]) + (match ws[k] case None => 0 case Some(w) => w)
    ensures FreeNum(ws[..k + 1]) == FreeNum(ws[..k]) + (if ws[k] == Some(0) then 1 else 0)
  {
    assert ws[..k + 1][..k] == ws[..k];
  }

  /** The counting loop of `cpdma_chan_split_pool`, for the channels of one direction. */
  method CountWeights(chs: seq<Chan?>, ghost ws: Weights) returns (weight: nat, freeNum: nat)
    requires ws == WeightsOf(chs)
    ensures weight == TotalWeight(ws) && freeNum == FreeNum(ws)
  {
    weight, freeNum := 0, 0;
    for i := 0 to |chs|
      invariant weight == TotalWeight(ws[..i]) && freeNum == FreeNum(ws[..i])
    {
      WeightPrefix(ws, i);
      if chs[i] != null {
        if chs[i].weight == 0 {
          freeNum := freeNum + 1;
        }
        weight := weight + chs[i].weight;
      }
    }
    assert ws[..|chs|] == ws;
  }

  /** The share of each channel without a weight. */
  method PerShare(ghost ws: Weights, weight: nat, freeNum: nat, descs: nat) returns (per: int)
    requires weight == TotalWeight(ws) <= 100 && freeNum == FreeNum(ws)
    ensures per == PerChannel(ws, descs) >= 0
  {
    RestFits(weight, descs, freeNum);
    per := 0;
    if freeNum > 0 {
      per := descs - weight * descs / 100;
      per := per / freeNum;
    }
  }

  lemma HalvesApart(c: Ctlr)
    requires c.Placed()
    ensures InPlace(c.channels[..MAX_CHANNELS], 0) && InPlace(c.channels[MAX_CHANNELS..], MAX_CHANNELS)
    ensures Objects(c.channels[..MAX_CHANNELS]) !! Objects(c.channels[MAX_CHANNELS..])
    ensures Objects(c.channels[..MAX_CHANNELS]) <= c.Chans() && Objects(c.channels[MAX_CHANNELS..]) <= c.Chans()
  {}

  /** The shares `cpdma_chan_set_descs` leaves; it does nothing without descriptors. */
  ghost function Resplit(ws: Weights, shares: seq<int>, descs: nat): seq<int> {
    if descs == 0 then shares else Split(ws, descs, PerChannel(ws, descs))
  }

  ghost predicate TooHeavy(c: Ctlr)
    requires c.Placed()
    reads c.channels, c.Chans()`weight
  {
    TotalWeight(RxWeights(c)) > 100 || TotalWeight(TxWeights(c)) > 100
  }

  /** The split fails when the weights of one direction exceed 100. */
  ghost function SplitVerdict(c: Ctlr): int
    requires c.Placed()
    reads c`chanNum, c.channels, c.Chans()`weight
  {
    if c.chanNum != 0 && TooHeavy(c) then -EINVAL else 0
  }

  /** `cpdma_chan_split_pool`. */
  method SplitPool(c: Ctlr) returns (ret: int)
    requires c.Placed() && 0 <= c.numTx && 0 <= c.numRx
    modifies c.Chans()`descNum
    ensures ret == old(SplitVerdict(c))
    ensures ret == 0 || (ret == -EINVAL && c.chanNum != 0)
    ensures c.chanNum != 0 ==>
              (ret == 0 <==> TotalWeight(old(TxWeights(c))) <= 100 && TotalWeight(old(RxWeights(c))) <= 100)
    ensures ret != 0 || c.chanNum == 0 ==> TxShares(c) == old(TxShares(c)) && RxShares(c) == old(RxShares(c))
    ensures ret == 0 && c.chanNum != 0 ==>
              && TxShares(c) == Resplit(old(TxWeights(c)), old(TxShares(c)), c.numTx)
              && RxShares(c) == Resplit(old(RxWeights(c)), old(RxShares(c)), c.numRx)
    ensures ret == 0 && c.chanNum != 0 ==>
              && (c.numTx > 0 ==> DealtOut(old(TxWeights(c)), c.numTx, TxShares(c)))
              && (c.numRx > 0 ==> DealtOut(old(RxWeights(c)), c.numRx, RxShares(c)))
  {
    hide SplitVerdict, TooHeavy, Resplit, PerChannel, TotalWeight, FreeNum, SharesOf, WeightsOf, Objects, TxWeights,
      RxWeights, TxShares, RxShares, DealtOut, Ctlr.Placed;
    ghost var txWs, rxWs := TxWeights(c), RxWeights(c);
    VerdictForm(c);
    if c.chanNum == 0 {
      return 0;
    }
    var txWeight, freeTx, rxWeight, freeRx := CountBoth(c);
    if rxWeight > 100 || txWeight > 100 {
      return -EINVAL;
    }
    var txPer := PerShare(txWs, txWeight, freeTx, c.numTx);
    var rxPer := PerShare(rxWs, rxWeight, freeRx, c.numRx);
    SplitBoth(c, txPer, rxPer);
    ret := 0;
  }

  method CountBoth(c: Ctlr) returns (txWeight: nat, freeTx: nat, rxWeight: nat, freeRx: nat)
    requires c.Placed()
    ensures txWeight == TotalWeight(TxWeights(c)) && freeTx == FreeNum(TxWeights(c))
    ensures rxWeight == TotalWeight(RxWeights(c)) && freeRx == FreeNum(RxWeights(c))
  {
    hide TotalWeight, FreeNum, WeightsOf;
    ghost var tx, rx := TxWeights(c), RxWeights(c);
    txWeight, freeTx := CountWeights(c.channels[..MAX_CHANNELS], tx);
    rxWeight, freeRx := CountWeights(c.channels[MAX_CHANNELS..], rx);
    assert TxWeights(c) == tx && RxWeights(c) == rx;
  }

  lemma VerdictForm(c: Ctlr)
    requires c.Placed()
    ensures SplitVerdict(c) ==
            if c.chanNum != 0 && (TotalWeight(RxWeights(c)) > 100 || TotalWeight(TxWeights(c)) > 100) then -EINVAL
                else 0
  {}

  method SplitBoth(c: Ctlr, txPer: int, rxPer: int)
    requires c.Placed() && 0 <= c.numTx && 0 <= c.numRx
    requires txPer == PerChannel(TxWeights(c), c.numTx) && rxPer == PerChannel(RxWeights(c), c.numRx)
    modifies c.Chans()`descNum
    ensures TxShares(c) == Resplit(old(TxWeights(c)), old(TxShares(c)), c.numTx)
    ensures RxShares(c) == Resplit(old(RxWeights(c)), old(RxShares(c)), c.numRx)
    ensures TotalWeight(old(TxWeights(c))) <= 100 && c.numTx > 0 ==>
              DealtOut(old(TxWeights(c)), c.numTx, TxShares(c))
    ensures TotalWeight(old(RxWeights(c))) <= 100 && c.numRx > 0 ==>
              DealtOut(old(RxWeights(c)), c.numRx, RxShares(c))
  {
    hide Split, DealtOut, PerChannel, TotalWeight, FreeNum, SharesOf, WeightsOf, InPlace, Objects;
    HalvesApart(c);
    SetDescs(c.channels[..MAX_CHANNELS], 0, c.numTx, txPer);
    SetDescs(c.channels[MAX_CHANNELS..], MAX_CHANNELS, c.numRx, rxPer);
  }
}
