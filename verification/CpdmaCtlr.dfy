/** The controller: many channels that share one pool of descriptors. */
module CpdmaCtlr {
  import opened Kernel
  import opened CpdmaMode
  import opened CpdmaProtocol
  import opened CpdmaMemory
  import opened CpdmaChannel
  import opened PoolSplit

  // ---- Where the descriptors are ------------------------------------------------------

  ghost function HeldOf(o: Option<Queue>): set<int> {
    if o.None? then {} else Held(o.value)
  }

  ghost function HeldUpTo(qs: seq<Option<Queue>>, k: nat): set<int>
    requires k <= |qs|
  {
    if k == 0 then {} else HeldUpTo(qs, k - 1) + HeldOf(qs[k - 1])
  }

  /** Every descriptor is free, or with exactly one channel, or lost. */
  ghost predicate Partition(addrs: set<int>, free: set<int>, lost: set<int>, qs: seq<Option<Queue>>) {
    && (forall i :: 0 <= i < |qs| ==> HeldOf(qs[i]) !! free && HeldOf(qs[i]) !! lost)
    && (forall i, j :: 0 <= i < j < |qs| ==> HeldOf(qs[i]) !! HeldOf(qs[j]))
    && free !! lost
    && addrs == free + lost + HeldUpTo(qs, |qs|)
  }

  lemma {:induction false} HeldUpToIs(qs: seq<Option<Queue>>, k: nat, a: int)
    requires k <= |qs|
    ensures a in HeldUpTo(qs, k) <==> exists i :: 0 <= i < k && a in HeldOf(qs[i])
  {
    hide HeldOf;
    if k > 0 {
      HeldUpToIs(qs, k - 1, a);
    }
  }

  /** A step of channel `i` that moves descriptors only between it and the pool. */
  lemma PartitionStep(addrs: set<int>, free: set<int>, lost: set<int>, qs: seq<Option<Queue>>, i: nat,
                      o: Option<Queue>, free': set<int>, lost': set<int>)
    requires Partition(addrs, free, lost, qs) && i < |qs|
    requires HeldOf(o) !! free' && HeldOf(o) !! lost' && free' !! lost' && lost <= lost'
    requires HeldOf(o) + free' + (lost' - lost) == HeldOf(qs[i]) + free
    ensures Partition(addrs, free', lost', qs[i := o])
  {
    var qs' := qs[i := o];
    forall a
      ensures a in addrs <==> a in free' + lost' + HeldUpTo(qs', |qs'|)
    {
      HeldUpToIs(qs, |qs|, a);
      HeldUpToIs(qs', |qs'|, a);
      if j :| 0 <= j < |qs| && a in HeldOf(qs[j]) && j != i {
        assert a in HeldOf(qs'[j]);
      }
      if j :| 0 <= j < |qs| && a in HeldOf(qs'[j]) && j != i {
        assert a in HeldOf(qs[j]);
      }
      assert a in HeldOf(o) ==> a in HeldOf(qs'[i]);
      assert a in HeldOf(o) + free' + (lost' - lost) <==> a in HeldOf(qs[i]) + free;
    }
  }

  // ---- Counting ------------------------------------------------------------------------

  ghost function CountUpTo(qs: seq<Option<Queue>>, k: nat): nat
    requires k <= |qs|
  {
    if k == 0 then 0 else CountUpTo(qs, k - 1) + |HeldOf(qs[k - 1])|
  }

  lemma UnionCount(a: set<int>, b: set<int>)
    requires a !! b
    ensures |a + b| == |a| + |b|
  {}

  lemma EarlierApart(qs: seq<Option<Queue>>, k: nat, n: nat)
    requires k <= n < |qs|
    requires forall i, j :: 0 <= i < j < |qs| ==> HeldOf(qs[i]) !! HeldOf(qs[j])
    ensures HeldUpTo(qs, k) !! HeldOf(qs[n])
  {
    var before := HeldUpTo(qs, k);
    forall a | a in before
      ensures a !in HeldOf(qs[n])
    {
      HeldUpToIs(qs, k, a);
    }
  }

  lemma {:induction false} HeldCount(qs: seq<Option<Queue>>, k: nat)
    requires k <= |qs|
    requires forall i, j :: 0 <= i < j < |qs| ==> HeldOf(qs[i]) !! HeldOf(qs[j])
    ensures |HeldUpTo(qs, k)| == CountUpTo(qs, k)
  {
    hide HeldOf;
    if k > 0 {
      HeldCount(qs, k - 1);
      EarlierApart(qs, k - 1, k - 1);
      UnionCount(HeldUpTo(qs, k - 1), HeldOf(qs[k - 1]));
    }
  }

  /** Free, lost and held descriptors add up to the size of the pool. */
  lemma Conservation(addrs: set<int>, free: set<int>, lost: set<int>, qs: seq<Option<Queue>>)
    requires Partition(addrs, free, lost, qs)
    ensures |free| + |lost| + CountUpTo(qs, |qs|) == |addrs|
  {
    HeldCount(qs, |qs|);
    var held := HeldUpTo(qs, |qs|);
    forall a | a in held
      ensures a !in free + lost
    {
      HeldUpToIs(qs, |qs|, a);
    }
    assert (free + lost) !! held;
  }

  /** A channel at rest holds as many descriptors as its counter says. */
  lemma {:induction false} AddrsCount(items: seq<Item>)
    requires Distinct(items)
    ensures |Addrs(items)| == |items|
  {
    if items != [] {
      var n := |items| - 1;
      AddrsCount(items[..n]);
      assert Addrs(items) == Addrs(items[..n]) + {items[n].addr};
      assert items[n].addr !in Addrs(items[..n]);
    }
  }

  // ---- The controller at rest ------------------------------------------------------------

  ghost function QueueOf(ch: Chan?): Option<Queue>
    reads if ch == null then {} else {ch}`q
  {
    if ch == null then None else Some(ch.q)
  }

  ghost function QueuesOf(chs: seq<Chan?>): (qs: seq<Option<Queue>>)
    reads Objects(chs)`q
    ensures |qs| == |chs| && forall i :: 0 <= i < |chs| ==> qs[i] == QueueOf(chs[i])
  {
    if chs == [] then [] else QueuesOf(chs[..|chs| - 1]) + [QueueOf(chs[|chs| - 1])]
  }

  /** A channel while its lock is free, judged against the pool `s`: `Sound` or not. A
      descriptor may be in flight between the dequeue and the handler. */
  ghost function RestIn(s: Space, up: ChanState, ch: Chan): Health
    reads ch`head, ch`tail, ch`count, ch`state, ch`engineAt, ch`fetched, ch`q, ch`submitted, ch`handed
  {
    if && Represents(s, ch.q, ch.Fields()) && Inv(ch.q)
       && ch.count == |ch.q.items| && ch.state == ch.q.state
       && ch.handed + Pending(ch.q) == ch.submitted
       && ch.state != TEARDOWN && (up == IDLE ==> ch.state == IDLE)
    then Sound else Broken
  }

  lemma RestFacts(c: Ctlr, ch: Chan)
    requires ch.pool == c.pool
    ensures RestIn(c.pool.View(), c.state, ch) == Sound <==>
              ch.Health() == Sound && ch.state != TEARDOWN && (c.state == IDLE ==> ch.state == IDLE)
    ensures ch.Health() == Sound ==> ch.state == ch.q.state && ch.count == |ch.q.items|
    ensures ch.Health() == Sound ==> |Held(ch.q)| == ch.count + InFlightNum(ch.q)
  {
    if ch.Health() == Sound {
      HeldNum(ch.pool.View(), ch.q, ch.Fields());
    }
  }

  /** Descriptors between the dequeue and the return to the pool. */
  function InFlightNum(q: Queue): nat {
    if q.inFlight.Some? then 1 else 0
  }

  lemma HeldNum(s: Space, q: Queue, r: Regs)
    requires Represents(s, q, r)
    ensures |Held(q)| == |q.items| + InFlightNum(q)
  {
    AddrsCount(q.items);
    if q.inFlight.None? {
      assert Held(q) == Addrs(q.items);
    } else {
      UnionCount(Addrs(q.items), {q.inFlight.value.addr});
    }
  }

  ghost predicate Resting(c: Ctlr)
    reads c`state, c`lost, c.channels, c.pool
    reads c.Chans()`head, c.Chans()`tail, c.Chans()`count, c.Chans()`state, c.Chans()`engineAt, c.Chans()`fetched
    reads c.Chans()`q, c.Chans()`submitted, c.Chans()`handed
  {
    && c.Placed()
    && c.pool.Valid()
    && (forall i :: 0 <= i < c.channels.Length && c.channels[i] != null ==>
          RestIn(c.pool.View(), c.state, c.channels[i]) == Sound)
    && Partition(c.pool.addrs, c.pool.free, c.lost, QueuesOf(c.channels[..]))
  }

  datatype Ledger = Balanced | Unbalanced

  ghost function Books(c: Ctlr): Ledger
    reads c`state, c`lost, c.channels, c.pool
    reads c.Chans()`head, c.Chans()`tail, c.Chans()`count, c.Chans()`state, c.Chans()`engineAt, c.Chans()`fetched
    reads c.Chans()`q, c.Chans()`submitted, c.Chans()`handed
  {
    if Resting(c) then Balanced else Unbalanced
  }

  lemma BooksFacts(c: Ctlr)
    requires Books(c) == Balanced
    ensures c.Placed() && c.pool.Valid() && Partition(c.pool.addrs, c.pool.free, c.lost, QueuesOf(c.channels[..]))
    ensures forall i :: 0 <= i < c.channels.Length && c.channels[i] != null ==>
              RestIn(c.pool.View(), c.state, c.channels[i]) == Sound && c.channels[i].pool == c.pool
  {}

  lemma StillRests(s: Space, s': Space, up: ChanState, ch: Chan)
    requires RestIn(s, up, ch) == Sound && SpaceOk(s') && s'.geo == s.geo && s'.addrs == s.addrs
    requires s'.free <= s'.addrs && Held(ch.q) !! s'.free && Kept(Held(ch.q), s.mem, s'.mem)
    ensures RestIn(s', up, ch) == Sound
  {
    OthersKept(s, s', ch.q, ch.Fields());
  }

  /** What channel `i` did with the pool leaves the others as they were. Here `s` is the
      pool before, and `qs` what the channels held then. */
  lemma OthersStay(c: Ctlr, i: nat, s: Space, qs: seq<Option<Queue>>)
    requires c.Placed() && i < c.channels.Length && c.channels[i] != null && |qs| == c.channels.Length
    requires Partition(s.addrs, s.free, c.lost, qs) && s.addrs == c.pool.addrs && s.geo == c.pool.geo
    requires forall j :: 0 <= j < c.channels.Length && j != i ==> qs[j] == QueueOf(c.channels[j])
    requires forall j :: 0 <= j < c.channels.Length && j != i && c.channels[j] != null ==>
               RestIn(s, c.state, c.channels[j]) == Sound
    requires RestIn(c.pool.View(), c.state, c.channels[i]) == Sound
    requires c.channels[i].Reach() == HeldOf(qs[i]) + s.free
    requires Kept(s.addrs - c.channels[i].Reach(), s.mem, c.pool.mem)
    ensures Books(c) == Balanced
  {
    var ch := c.channels[i];
    assert QueuesOf(c.channels[..]) == qs[i := Some(ch.q)];
    PartitionStep(s.addrs, s.free, c.lost, qs, i, Some(ch.q), c.pool.free, c.lost);
    forall j | 0 <= j < c.channels.Length && c.channels[j] != null && j != i
      ensures RestIn(c.pool.View(), c.state, c.channels[j]) == Sound
    {
      HeldApart(qs, i, j);
      StillRests(s, c.pool.View(), c.state, c.channels[j]);
    }
  }

  lemma HeldApart(qs: seq<Option<Queue>>, i: nat, j: nat)
    requires i < |qs| && j < |qs| && i != j
    requires forall i, j :: 0 <= i < j < |qs| ==> HeldOf(qs[i]) !! HeldOf(qs[j])
    ensures HeldOf(qs[i]) !! HeldOf(qs[j])
  {}

  /** No descriptor is in flight: no processing of a channel is under way. */
  ghost predicate Quiet(c: Ctlr)
    reads c.channels, c.Chans()`q
  {
    forall i :: 0 <= i < c.channels.Length && c.channels[i] != null ==> c.channels[i].q.inFlight.None?
  }

  // ---- Operations on one channel, seen from the controller -----------------------------------

  /** A submit on channel `i`. While every channel is within its share and the shares fit
      the pool, it never runs out of descriptors. */
  method SubmitOn(c: Ctlr, ghost i: nat, ch: Chan, p: Packet, minLen: bv32, idle: bool)
    returns (ret: int, ghost item: Item)
    requires Books(c) == Balanced && i < c.channels.Length && c.channels[i] == ch
    modifies ch`head, ch`tail, ch`count, ch`engineAt, ch`fetched, ch`q, ch`submitted, c.pool
    ensures Books(c) == Balanced && (old(InOrder(c)) ==> InOrder(c))
    ensures ret != 0 ==> ch.q == old(ch.q) && ch.submitted == old(ch.submitted)
    ensures ret == 0 ==> ch.q == SubmitItem(old(ch.q), item).q && ch.submitted == old(ch.submitted) + [p.token]
    ensures ret == 0 ==> item.token == p.token && item.mode == PacketMode(p, minLen, ch.IsRx())
    ensures ret == 0 ==>
              item.addr in c.pool.mem && Carries(item, c.pool.mem[item.addr].hwLen, p, minLen, ch.IsRx())
    ensures old(RoomFor(c, ch)) == Enough && (idle || ch.state == ACTIVE) ==> ret == if p.mapOk then 0 else -EINVAL
  {
    hide SharesOf, FitOf, Present, QueuesOf, InOrder, Resting, RestIn, Partition, Represents, Inv, Held, Pending,
      SubmitItem, CanTake, Chan.Health, RoomFor, Books, PacketMode, Carries, SpaceOk, Pool.Valid;
    ghost var s, qs, order := c.pool.View(), QueuesOf(c.channels[..]), InOrder(c);
    KeptOrder(c);
    ghost var tx, rx := TxShares(c), RxShares(c);
    BooksFacts(c);
    RestFacts(c, ch);
    if RoomFor(c, ch) == Enough {
      SomeFree(c, i);
    }
    ret, item := CpdmaChannel.Submit(ch, p, minLen, idle);
    if ret == 0 {
      SubmitHolds(qs[i].value, item);
    }
    assert TxShares(c) == tx && RxShares(c) == rx;
    RestFacts(c, ch);
    OthersStay(c, i, s, qs);
    if order {
      StillInOrder(c);
    }
  }

  /** The locked part of `__cpdma_chan_process` on channel `i` of an ACTIVE channel. Until
      `FreeOn` the descriptor is in flight, and other channels may go on. */
  method DequeueOn(c: Ctlr, ghost i: nat, ch: Chan) returns (ret: int, desc: int)
    requires Books(c) == Balanced && i < c.channels.Length && c.channels[i] == ch
    requires ch.state == ACTIVE && ch.q.inFlight.None?
    modifies ch`head, ch`count, ch`engineAt, ch`fetched, ch`q
    ensures Books(c) == Balanced && (old(InOrder(c)) ==> InOrder(c))
    ensures ch.q == ProcessHead(old(ch.q)).q
    ensures ret == if old(ch.q.items) == [] then -ENOENT else if !CanTake(old(ch.q)) then -EBUSY else 0
    ensures ret == 0 ==> ch.q.inFlight == Some(old(ch.q.items[0])) && desc == old(ch.q.items[0].addr)
    ensures ret != 0 ==> ch.q == old(ch.q)
  {
    hide SharesOf, FitOf, Present, QueuesOf, InOrder, Resting, RestIn, Partition, Represents, Inv, Held, Pending,
      CanTake, ProcessHead, Chan.Health, SpaceOk, Pool.Valid, Books;
    ghost var s, qs, order := c.pool.View(), QueuesOf(c.channels[..]), InOrder(c);
    KeptOrder(c);
    ghost var tx, rx := TxShares(c), RxShares(c);
    BooksFacts(c);
    RestFacts(c, ch);
    var mode;
    ret, desc, mode := Dequeue(ch);
    assert TxShares(c) == tx && RxShares(c) == rx;
    RestFacts(c, ch);
    OthersStay(c, i, s, qs);
    if order {
      StillInOrder(c);
    }
  }

  /** The descriptor in flight on channel `i` goes back to the pool, its token to the
      handler, which may then submit on any channel. */
  method FreeOn(c: Ctlr, ghost i: nat, ch: Chan, desc: int) returns (token: int)
    requires Books(c) == Balanced && i < c.channels.Length && c.channels[i] == ch
    requires ch.q.inFlight.Some? && ch.q.inFlight.value.addr == desc
    modifies ch`q, ch`handed, c.pool`free
    ensures Books(c) == Balanced && (old(InOrder(c)) ==> InOrder(c))
    ensures ch.q == CallHandler(old(ch.q)).q && c.pool.free == old(c.pool.free) + {desc}
    ensures token == old(ch.q).inFlight.value.token && ch.handed == old(ch.handed) + [token]
  {
    hide SharesOf, FitOf, Present, QueuesOf, InOrder, Resting, RestIn, Represents, Inv, Held, Pending, CallHandler,
      Partition, Chan.Health, SpaceOk, Pool.Valid, Books;
    ghost var s, qs, order := c.pool.View(), QueuesOf(c.channels[..]), InOrder(c);
    KeptOrder(c);
    ghost var tx, rx := TxShares(c), RxShares(c);
    BooksFacts(c);
    RestFacts(c, ch);
    token := FreeDesc(ch, desc);
    assert TxShares(c) == tx && RxShares(c) == rx;
    RestFacts(c, ch);
    OthersStay(c, i, s, qs);
    if order {
      StillInOrder(c);
    }
  }

  /** `cpdma_chan_process` on channel `i`, its handlers submitting on the same channel. */
  method ProcessOn(c: Ctlr, ghost i: nat, ch: Chan, quota: int, minLen: bv32) returns (used: int)
    requires Books(c) == Balanced && i < c.channels.Length && c.channels[i] == ch && ch.q.inFlight.None?
    modifies ch`head, ch`tail, ch`count, ch`engineAt, ch`fetched, ch`q, ch`submitted, ch`handed, c.pool
    ensures Books(c) == Balanced && (old(InOrder(c)) ==> InOrder(c))
    ensures if ch.state == ACTIVE then 0 <= used && (used <= quota || used == 0) else used == -EINVAL
    ensures |ch.handed| == |old(ch.handed)| + (if ch.state == ACTIVE then used else 0) && ch.q.inFlight.None?
    ensures old(ch.handed) <= ch.handed && old(ch.submitted) <= ch.submitted
    ensures ch.state == ACTIVE && used < quota ==> !CanTake(ch.q)
    ensures ch.state != ACTIVE ==> ch.q == old(ch.q) && ch.handed == old(ch.handed)
  {
    hide SharesOf, FitOf, Present, QueuesOf, InOrder, Resting, RestIn, Partition, Represents, Inv, Held, Pending,
      SubmitItem, CanTake, Chan.Health, RoomFor, Books;
    ghost var s, qs, order := c.pool.View(), QueuesOf(c.channels[..]), InOrder(c);
    KeptOrder(c);
    ghost var tx, rx := TxShares(c), RxShares(c);
    BooksFacts(c);
    RestFacts(c, ch);
    used := CpdmaChannel.Process(ch, quota, minLen);
    assert TxShares(c) == tx && RxShares(c) == rx;
    RestFacts(c, ch);
    OthersStay(c, i, s, qs);
    if order {
      StillInOrder(c);
    }
  }

  /** One step of the engine on channel `i`: read the link, or write back `mode`. */
  method EngineOn(c: Ctlr, ghost i: nat, ch: Chan, mode: Mode)
    requires Books(c) == Balanced && i < c.channels.Length && c.channels[i] == ch && ch.engineAt != 0
    requires !mode.owner && (mode.eoq <==> ch.fetched == Some(0))
    modifies ch`engineAt, ch`fetched, ch`q, c.pool`mem
    ensures Books(c) == Balanced && (old(InOrder(c)) ==> InOrder(c))
    ensures if old(ch.fetched).None? then old(ch.q).engine.Busy? && ch.q == FetchLink(old(ch.q)).q
            else Enabled(old(ch.q), Complete(mode)) && ch.q == Release(old(ch.q), mode).q
  {
    hide SharesOf, FitOf, Present, QueuesOf, InOrder, Resting, RestIn, Partition, Represents, Inv, Held, Pending,
      FetchLink, Release, Enabled, Chan.Health, Books, SpaceOk, Pool.Valid;
    ghost var s, qs, q0, order := c.pool.View(), QueuesOf(c.channels[..]), ch.q, InOrder(c);
    KeptOrder(c);
    ghost var tx, rx := TxShares(c), RxShares(c);
    BooksFacts(c);
    RestFacts(c, ch);
    HeadFacts(ch);
    EngineFacts(ch);
    if ch.fetched.None? {
      EngineFetch(ch);
      FetchFrame(q0);
    } else {
      EngineComplete(ch, mode);
      ReleaseFrame(q0, mode);
    }
    assert TxShares(c) == tx && RxShares(c) == rx;
    RestFacts(c, ch);
    OthersStay(c, i, s, qs);
    if order {
      StillInOrder(c);
    }
  }

  lemma FetchFrame(q: Queue)
    ensures q.engine.Busy? ==> FetchLink(q).q.inFlight == q.inFlight && FetchLink(q).q.state == q.state
  {}

  lemma ReleaseFrame(q: Queue, mode: Mode)
    ensures Enabled(q, Complete(mode)) ==>
              Release(q, mode).q.inFlight == q.inFlight && Release(q, mode).q.state == q.state
  {}

  // ---- Enough descriptors -----------------------------------------------------------------------

  datatype Fitness = Fits | Exceeds

  /** The shares of each direction fit its number of descriptors, and these the pool. */
  ghost function FitOf(tx: seq<int>, rx: seq<int>, numTx: int, numRx: int, size: nat): Fitness {
    if && 0 < numTx && 0 < numRx && numTx + numRx == size
       && Sum(tx) <= numTx && Sum(rx) <= numRx
       && (forall i :: 0 <= i < |tx| ==> 0 <= tx[i]) && (forall i :: 0 <= i < |rx| ==> 0 <= rx[i])
    then Fits else Exceeds
  }

  ghost function Shares(c: Ctlr): Fitness
    requires c.Placed()
    reads c`numTx, c`numRx, c.channels, c.Chans()`descNum
  {
    FitOf(TxShares(c), RxShares(c), c.numTx, c.numRx, |c.pool.addrs|)
  }

  ghost predicate WithinShares(c: Ctlr)
    reads c, c.channels, c.Chans()
  {
    forall i :: 0 <= i < c.channels.Length && c.channels[i] != null ==>
      c.channels[i].count + InFlightNum(c.channels[i].q) <= c.channels[i].descNum
  }

  /** Every channel is within its share, descriptors in flight included, the shares fit the
      pool, nothing was lost, and channel `ch` is below its share. */
  ghost predicate HasRoom(c: Ctlr, ch: Chan)
    requires c.Placed()
    reads c, c.channels, c.Chans(), ch
  {
    WithinShares(c) && Shares(c) == Fits && c.lost == {} && ch.count + InFlightNum(ch.q) < ch.descNum
  }

  datatype Room = Enough | Short

  ghost function RoomFor(c: Ctlr, ch: Chan): Room
    requires c.Placed()
    reads c, c.channels, c.Chans(), ch
  {
    if HasRoom(c, ch) then Enough else Short
  }

  lemma {:induction false} SumConcat(a: seq<int>, b: seq<int>)
    ensures Sum(a + b) == Sum(a) + Sum(b)
  {
    if b == [] {
      assert a + b == a;
    } else {
      assert (a + b)[..|a + b| - 1] == a + b[..|b| - 1];
      SumConcat(a, b[..|b| - 1]);
    }
  }

  /** The channels together hold at most the sum of their shares, and less if one of them
      is below its share. */
  lemma {:induction false} HeldWithin(qs: seq<Option<Queue>>, shares: seq<int>, k: nat, i: nat)
    requires k <= |qs| == |shares|
    requires forall j :: 0 <= j < |qs| ==> |HeldOf(qs[j])| <= shares[j]
    requires i < |qs| && |HeldOf(qs[i])| < shares[i]
    ensures CountUpTo(qs, k) + (if i < k then 1 else 0) <= Sum(shares[..k])
  {
    hide HeldOf;
    if k > 0 {
      HeldWithin(qs, shares, k - 1, i);
      assert shares[..k][..k - 1] == shares[..k - 1];
    }
  }

  lemma FreeLeft(addrs: set<int>, free: set<int>, qs: seq<Option<Queue>>, shares: seq<int>, i: nat)
    requires Partition(addrs, free, {}, qs) && |shares| == |qs| && i < |qs|
    requires forall j :: 0 <= j < |qs| ==> |HeldOf(qs[j])| <= shares[j]
    requires |HeldOf(qs[i])| < shares[i] && Sum(shares) <= |addrs|
    ensures free != {}
  {
    hide HeldOf;
    Conservation(addrs, free, {}, qs);
    HeldWithin(qs, shares, |qs|, i);
    assert shares[..|qs|] == shares;
  }

  lemma SharesSum(c: Ctlr)
    requires c.Placed() && Shares(c) == Fits
    ensures Sum(TxShares(c) + RxShares(c)) <= |c.pool.addrs|
    ensures |TxShares(c) + RxShares(c)| == c.channels.Length
    ensures forall j :: 0 <= j < c.channels.Length ==>
              (TxShares(c) + RxShares(c))[j] == ShareOf(c.channels[j])
    ensures forall j :: 0 <= j < c.channels.Length ==> 0 <= (TxShares(c) + RxShares(c))[j]
  {
    SumConcat(TxShares(c), RxShares(c));
    forall j | 0 <= j < c.channels.Length
      ensures 0 <= (TxShares(c) + RxShares(c))[j] == ShareOf(c.channels[j])
    {
      if j < MAX_CHANNELS {
        assert 0 <= TxShares(c)[j];
      } else {
        assert 0 <= RxShares(c)[j - MAX_CHANNELS];
      }
    }
  }

  /** A channel below its share always finds a free descriptor. */
  lemma SomeFree(c: Ctlr, i: nat)
    requires Books(c) == Balanced && i < c.channels.Length && c.channels[i] != null
    requires RoomFor(c, c.channels[i]) == Enough
    ensures c.pool.free != {} && c.channels[i].count < c.channels[i].descNum
  {
    hide Sum, Partition, RestIn, TxShares, RxShares, Held, HeldUpTo;
    var qs := QueuesOf(c.channels[..]);
    SharesSum(c);
    var shares := TxShares(c) + RxShares(c);
    forall j | 0 <= j < |qs|
      ensures |HeldOf(qs[j])| <= shares[j]
      ensures j == i ==> |HeldOf(qs[j])| < shares[j]
    {
      if c.channels[j] != null {
        RestFacts(c, c.channels[j]);
      }
    }
    FreeLeft(c.pool.addrs, c.pool.free, qs, shares, i);
  }

  // ---- Starting and stopping ------------------------------------------------------------------------

  /** `cpdma_chan_stop` on channel `i`. */
  method StopOn(c: Ctlr, ghost i: nat, ch: Chan, last: Option<Mode>, minLen: bv32)
    requires Books(c) == Balanced && i < c.channels.Length && c.channels[i] == ch && ch.q.inFlight.None?
    modifies ch`head, ch`tail, ch`count, ch`state, ch`engineAt, ch`fetched, ch`q, ch`submitted, ch`handed, c.pool
    ensures Books(c) == Balanced
    ensures ch.state == IDLE && ch.q.inFlight.None? && HeldOf(QueueOf(ch)) == {}
  {
    hide Resting, RestIn, Partition, Represents, Inv, Held, Pending, CanTake, Chan.Health, Books;
    ghost var s, qs := c.pool.View(), QueuesOf(c.channels[..]);
    BooksFacts(c);
    RestFacts(c, ch);
    var ret := CpdmaChannel.Stop(ch, last, minLen);
    RestFacts(c, ch);
    NothingHeld(ch);
    OthersStay(c, i, s, qs);
  }

  lemma NothingHeld(ch: Chan)
    requires ch.q.items == [] && ch.q.inFlight.None?
    ensures Held(ch.q) == {}
  {}

  /** A change of the controller's own state. */
  lemma NewState(c: Ctlr, up: ChanState)
    requires Books(c) == Balanced
    requires up == IDLE ==> forall i :: 0 <= i < c.channels.Length && c.channels[i] != null ==>
               c.channels[i].state == IDLE
    ensures forall i :: 0 <= i < c.channels.Length && c.channels[i] != null ==>
              RestIn(c.pool.View(), up, c.channels[i]) == Sound
  {}

  /** The loop of `cpdma_ctlr_stop` over the channels. */
  method StopChannels(c: Ctlr, last: seq<Option<Mode>>, minLen: bv32)
    requires Books(c) == Balanced && Quiet(c) && |last| == c.channels.Length && c.state == TEARDOWN
    modifies c.Chans()`head, c.Chans()`tail, c.Chans()`count, c.Chans()`state, c.Chans()`engineAt, c.Chans()`fetched
    modifies c.Chans()`q, c.Chans()`submitted, c.Chans()`handed, c.pool
    ensures Books(c) == Balanced && Quiet(c)
    ensures forall i :: 0 <= i < c.channels.Length ==> HeldOf(QueueOf(c.channels[i])) == {}
    ensures forall i :: 0 <= i < c.channels.Length && c.channels[i] != null ==> c.channels[i].state == IDLE
  {
    hide Resting, RestIn, Partition, Represents, Inv, Held, Pending, Chan.Health, Chan.Shape, HeldOf, Books, QueuesOf;
    var i := 0;
    while i < c.channels.Length
      invariant 0 <= i <= c.channels.Length
      invariant Books(c) == Balanced && Quiet(c)
      invariant forall j :: 0 <= j < i ==> HeldOf(QueueOf(c.channels[j])) == {}
      invariant forall j :: 0 <= j < i && c.channels[j] != null ==> c.channels[j].state == IDLE
    {
      BooksFacts(c);
      if c.channels[i] != null {
        StopOn(c, i, c.channels[i], last[i], minLen);
      } else {
        NullHolds();
      }
      i := i + 1;
    }
  }

  /** The change of state around the loop. */
  method StopRunning(c: Ctlr, last: seq<Option<Mode>>, minLen: bv32)
    requires Books(c) == Balanced && Quiet(c) && |last| == c.channels.Length
    modifies c`state
    modifies c.Chans()`head, c.Chans()`tail, c.Chans()`count, c.Chans()`state, c.Chans()`engineAt, c.Chans()`fetched
    modifies c.Chans()`q, c.Chans()`submitted, c.Chans()`handed, c.pool
    ensures Books(c) == Balanced && Quiet(c) && c.state == IDLE
    ensures forall i :: 0 <= i < c.channels.Length ==> HeldOf(QueueOf(c.channels[i])) == {}
  {
    hide Resting, RestIn, Partition, Represents, Inv, Held, Pending, Chan.Health, Chan.Shape, HeldOf, Books, QueuesOf;
    BooksFacts(c);
    NewState(c, TEARDOWN);
    c.state := TEARDOWN;
    BooksAgain(c);
    StopChannels(c, last, minLen);
    BooksFacts(c);
    NewState(c, IDLE);
    c.state := IDLE;
    BooksAgain(c);
  }

  /** `cpdma_ctlr_stop`: afterwards no channel holds a descriptor. */
  method StopCtlr(c: Ctlr, last: seq<Option<Mode>>, minLen: bv32) returns (ret: int)
    requires Books(c) == Balanced && Quiet(c) && |last| == c.channels.Length
    modifies c`state
    modifies c.Chans()`head, c.Chans()`tail, c.Chans()`count, c.Chans()`state, c.Chans()`engineAt, c.Chans()`fetched
    modifies c.Chans()`q, c.Chans()`submitted, c.Chans()`handed, c.pool
    ensures Books(c) == Balanced && (old(InOrder(c)) ==> InOrder(c))
    ensures Quiet(c) && ret == if old(c.state) == ACTIVE then 0 else -EINVAL
    ensures ret == 0 ==> c.state == IDLE
    ensures ret == 0 ==> forall i :: 0 <= i < c.channels.Length ==> HeldOf(QueueOf(c.channels[i])) == {}
    ensures ret != 0 ==> c.state == old(c.state) && QueuesOf(c.channels[..]) == old(QueuesOf(c.channels[..]))
  {
    hide InOrder, SharesOf, FitOf, Present, HeldOf, Books, QueuesOf;
    if c.state != ACTIVE {
      return -EINVAL;
    }
    ghost var order := InOrder(c);
    KeptOrder(c);
    ghost var tx, rx := TxShares(c), RxShares(c);
    StopRunning(c, last, minLen);
    BooksFacts(c);
    assert TxShares(c) == tx && RxShares(c) == rx;
    if order {
      StillInOrder(c);
    }
    ret := 0;
  }

  lemma NullHolds()
    ensures HeldOf(None) == {}
  {}

  lemma BooksAgain(c: Ctlr)
    requires c.Placed() && c.pool.Valid() && Partition(c.pool.addrs, c.pool.free, c.lost, QueuesOf(c.channels[..]))
    requires forall i :: 0 <= i < c.channels.Length && c.channels[i] != null ==>
               RestIn(c.pool.View(), c.state, c.channels[i]) == Sound
    ensures Books(c) == Balanced
  {}

  /** `cpdma_chan_on` on channel `i`. */
  method SwitchOnOn(c: Ctlr, ghost i: nat, ch: Chan) returns (ret: int)
    requires Books(c) == Balanced && i < c.channels.Length && c.channels[i] == ch
    modifies ch`state, ch`engineAt, ch`fetched, ch`q
    ensures Books(c) == Balanced && c.Placed() && (old(InOrder(c)) ==> InOrder(c))
    ensures ret == if old(ch.state) != IDLE then -EBUSY else if c.state != ACTIVE then -EINVAL else 0
    ensures ret == 0 ==> ch.state == ACTIVE && ch.q == SwitchOn(old(ch.q)).q
    ensures ret != 0 ==> ch.state == old(ch.state) && ch.q == old(ch.q)
  {
    hide SharesOf, FitOf, Present, QueuesOf, InOrder, Resting, RestIn, Partition, Represents, Inv, Held, Pending,
      CanTake, Chan.Health, Books, SwitchOn, SpaceOk, Pool.Valid;
    ghost var s, qs, order := c.pool.View(), QueuesOf(c.channels[..]), InOrder(c);
    KeptOrder(c);
    ghost var tx, rx := TxShares(c), RxShares(c);
    BooksFacts(c);
    RestFacts(c, ch);
    SwitchFrame(ch.q);
    ret := SwitchChanOn(ch, c.state == ACTIVE);
    RestFacts(c, ch);
    OthersStay(c, i, s, qs);
    BooksFacts(c);
    assert TxShares(c) == tx && RxShares(c) == rx;
    if order {
      StillInOrder(c);
    }
  }

  lemma SwitchFrame(q: Queue)
    ensures SwitchOn(q).q.inFlight == q.inFlight && SwitchOn(q).q.state == ACTIVE
  {}

  /** The loop of `cpdma_ctlr_start` over the channels. */
  method StartChannels(c: Ctlr)
    requires Books(c) == Balanced && c.state == ACTIVE
    requires forall i :: 0 <= i < c.channels.Length && c.channels[i] != null ==> c.channels[i].state == IDLE
    modifies c.Chans()`state, c.Chans()`engineAt, c.Chans()`fetched, c.Chans()`q
    ensures Books(c) == Balanced && c.Placed()
    ensures forall i :: 0 <= i < c.channels.Length && c.channels[i] != null ==>
              c.channels[i].state == ACTIVE && c.channels[i].q == SwitchOn(old(c.channels[i].q)).q
  {
    hide InOrder, RestIn, HeldOf, Books, SwitchOn, QueuesOf, SpaceOk, Pool.Valid, Resting, Partition;
    BooksFacts(c);
    var i := 0;
    while i < c.channels.Length
      invariant 0 <= i <= c.channels.Length
      invariant Books(c) == Balanced && c.Placed()
      invariant forall j :: 0 <= j < i && c.channels[j] != null ==>
                  c.channels[j].state == ACTIVE && c.channels[j].q == SwitchOn(old(c.channels[j].q)).q
      invariant forall j :: i <= j < c.channels.Length && c.channels[j] != null ==>
                  c.channels[j].state == IDLE && c.channels[j].q == old(c.channels[j].q)
    {
      if c.channels[i] != null {
        var ret := SwitchOnOn(c, i, c.channels[i]);
      }
      i := i + 1;
    }
  }

  /** `cpdma_ctlr_start`. */
  method StartCtlr(c: Ctlr) returns (ret: int)
    requires Books(c) == Balanced
    modifies c`state, c.Chans()`state, c.Chans()`engineAt, c.Chans()`fetched, c.Chans()`q
    ensures Books(c) == Balanced && (old(InOrder(c)) ==> InOrder(c))
    ensures ret == if old(c.state) != IDLE then -EBUSY else 0
    ensures ret == 0 ==> c.state == ACTIVE
    ensures ret == 0 ==> forall i :: 0 <= i < c.channels.Length && c.channels[i] != null ==>
              c.channels[i].state == ACTIVE && c.channels[i].q == SwitchOn(old(c.channels[i].q)).q
    ensures ret != 0 ==> c.state == old(c.state) && QueuesOf(c.channels[..]) == old(QueuesOf(c.channels[..]))
  {
    hide InOrder, RestIn, SharesOf, FitOf, Present, HeldOf, Books, SwitchOn, QueuesOf, SpaceOk, Pool.Valid;
    if c.state != IDLE {
      return -EBUSY;
    }
    ghost var order := InOrder(c);
    KeptOrder(c);
    AllIdle(c);
    BooksFacts(c);
    NewState(c, ACTIVE);
    c.state := ACTIVE;
    BooksAgain(c);
    StartChannels(c);
    if order {
      StillInOrder(c);
    }
    ret := 0;
  }

  // ---- Creating and destroying channels ----------------------------------------------------------------

  ghost function Present(chs: seq<Chan?>): nat {
    if chs == [] then 0 else Present(chs[..|chs| - 1]) + (if chs[|chs| - 1] == null then 0 else 1)
  }

  lemma {:induction false} PresentUpdate(chs: seq<Chan?>, i: nat, ch: Chan?)
    requires i < |chs|
    ensures Present(chs[i := ch]) == Present(chs) - (if chs[i] == null then 0 else 1) + (if ch == null then 0 else 1)
  {
    var n := |chs| - 1;
    if i < n {
      assert chs[i := ch][..n] == chs[..n][i := ch];
      PresentUpdate(chs[..n], i, ch);
    } else {
      assert chs[i := ch][..n] == chs[..n];
    }
  }

  lemma {:induction false} PresentNone(chs: seq<Chan?>)
    ensures Present(chs) == 0 <==> forall i :: 0 <= i < |chs| ==> chs[i] == null
  {
    if chs != [] {
      var n := |chs| - 1;
      PresentNone(chs[..n]);
      assert Present(chs) == 0 ==> forall i :: 0 <= i < n ==> chs[..n][i] == chs[i];
    }
  }

  /** The books, the count of channels and the shares are all in order. */
  ghost predicate InOrder(c: Ctlr)
    reads c, c.channels, c.Chans(), c.pool
  {
    Books(c) == Balanced && c.chanNum == Present(c.channels[..]) && c.numDesc == |c.pool.addrs| && Shares(c) == Fits
  }

  lemma OrderFacts(c: Ctlr)
    requires InOrder(c)
    ensures c.Placed() && Books(c) == Balanced && Shares(c) == Fits && c.chanNum == Present(c.channels[..])
    ensures c.numDesc == |c.pool.addrs|
  {
    BooksFacts(c);
  }

  lemma StillInOrder(c: Ctlr)
    requires Books(c) == Balanced && c.chanNum == Present(c.channels[..]) && c.numDesc == |c.pool.addrs|
    requires c.Placed() && Shares(c) == Fits
    ensures InOrder(c)
  {}

  /** A controller fresh from its constructor is in order. */
  lemma NewInOrder(c: Ctlr)
    requires c.channels.Length == 2 * MAX_CHANNELS && forall i :: 0 <= i < c.channels.Length ==> c.channels[i] == null
    requires c.pool.Valid() && c.pool.free == c.pool.addrs && c.numDesc == |c.pool.addrs| && c.lost == {}
    requires c.chanNum == 0 && c.numRx + c.numTx == c.numDesc && c.numTx <= c.numRx <= c.numTx + 1
    ensures InOrder(c) <==> c.numDesc >= 2
  {
    hide Partition, RestIn;
    PresentNone(c.channels[..]);
    NoShares(c);
    NullHolds();
    HeldEmpty(QueuesOf(c.channels[..]), c.channels.Length);
    NoneHeld(c.pool.addrs, QueuesOf(c.channels[..]));
  }

  lemma NoneHeld(addrs: set<int>, qs: seq<Option<Queue>>)
    requires HeldUpTo(qs, |qs|) == {} && forall i :: 0 <= i < |qs| ==> HeldOf(qs[i]) == {}
    ensures Partition(addrs, addrs, {}, qs)
  {}

  lemma KeptOrder(c: Ctlr)
    requires Books(c) == Balanced
    ensures c.Placed()
    ensures InOrder(c) ==> Shares(c) == Fits && c.chanNum == Present(c.channels[..]) && c.numDesc == |c.pool.addrs|
  {
    BooksFacts(c);
  }

  lemma ResplitFits(ws: Weights, shares: seq<int>, descs: nat)
    requires descs > 0 && TotalWeight(ws) <= 100
    ensures var fin := Resplit(ws, shares, descs);
            |fin| == |ws| && Sum(fin) <= descs && forall i :: 0 <= i < |fin| ==> 0 <= fin[i]
  {
    SplitIsExact(ws, descs);
  }

  /** The shares are those of the present weights and numbers. */
  ghost predicate Divided(c: Ctlr)
    requires c.Placed()
    reads c`numTx, c`numRx, c.channels, c.Chans()`weight, c.Chans()`descNum
  {
    && 0 <= c.numTx && 0 <= c.numRx
    && TxShares(c) == Split(TxWeights(c), c.numTx, PerChannel(TxWeights(c), c.numTx))
    && RxShares(c) == Split(RxWeights(c), c.numRx, PerChannel(RxWeights(c), c.numRx))
  }

  /** Divided shares are dealt out by the weights, in both directions. */
  lemma DividedDeals(c: Ctlr)
    requires c.Placed() && Divided(c)
    requires TotalWeight(TxWeights(c)) <= 100 && TotalWeight(RxWeights(c)) <= 100
    ensures DealtOut(TxWeights(c), c.numTx, TxShares(c)) && DealtOut(RxWeights(c), c.numRx, RxShares(c))
  {
    hide TxShares, RxShares, TxWeights, RxWeights, Split, PerChannel, DealtOut, TotalWeight;
    SplitDeals(TxWeights(c), c.numTx);
    SplitDeals(RxWeights(c), c.numRx);
  }

  lemma DividedIs(c: Ctlr, tx: seq<int>, rx: seq<int>)
    requires c.Placed() && 0 < c.numTx && 0 < c.numRx
    requires TxShares(c) == Resplit(TxWeights(c), tx, c.numTx) && RxShares(c) == Resplit(RxWeights(c), rx, c.numRx)
    ensures Divided(c)
  {
    hide TxShares, RxShares, TxWeights, RxWeights, Split, PerChannel;
  }

  /** Splitting anew makes the shares fit, whatever they were before. */
  method SplitAnew(c: Ctlr) returns (ret: int)
    requires c.Placed() && 0 < c.numTx && 0 < c.numRx && c.numTx + c.numRx == |c.pool.addrs|
    requires c.chanNum == Present(c.channels[..])
    modifies c.Chans()`descNum
    ensures ret == old(SplitVerdict(c))
    ensures ret == 0 ==> Shares(c) == Fits && (c.chanNum != 0 ==> Divided(c))
    ensures ret != 0 ==> TxShares(c) == old(TxShares(c)) && RxShares(c) == old(RxShares(c))
    ensures old(Shares(c)) == Fits ==> Shares(c) == Fits
    ensures SplitVerdict(c) == old(SplitVerdict(c))
  {
    hide Resplit, Sum, WeightsOf, Objects, TxShares, RxShares, TxWeights, RxWeights, TotalWeight, Present, Divided;
    ghost var txWs, rxWs := TxWeights(c), RxWeights(c);
    PresentNone(c.channels[..]);
    NoShares(c);
    ret := SplitPool(c);
    if ret == 0 && c.chanNum != 0 {
      ResplitFits(txWs, old(TxShares(c)), c.numTx);
      ResplitFits(rxWs, old(RxShares(c)), c.numRx);
    }
    assert TxWeights(c) == txWs && RxWeights(c) == rxWs;
    if ret == 0 && c.chanNum != 0 {
      DividedIs(c, old(TxShares(c)), old(RxShares(c)));
    }
  }

  lemma NoShares(c: Ctlr)
    requires c.Placed()
    ensures |TxShares(c)| == |RxShares(c)| == |TxWeights(c)| == |RxWeights(c)| == MAX_CHANNELS
    ensures (forall i :: 0 <= i < c.channels.Length ==> c.channels[i] == null) ==>
              Sum(TxShares(c)) == 0 && Sum(RxShares(c)) == 0
    ensures (forall i :: 0 <= i < c.channels.Length ==> c.channels[i] == null) ==>
              forall i :: 0 <= i < MAX_CHANNELS ==> TxShares(c)[i] == 0 && RxShares(c)[i] == 0
  {
    if forall i :: 0 <= i < c.channels.Length ==> c.channels[i] == null {
      SumOfZeros(TxShares(c));
      SumOfZeros(RxShares(c));
    }
  }

  /** `cpdma_chan_set_weight`. A weight that makes the total exceed 100 is kept although
      the call fails; the shares then stay as they were. */
  method SetWeight(c: Ctlr, i: nat, weight: nat) returns (ret: int)
    requires InOrder(c) && i < c.channels.Length && c.channels[i] != null
    modifies c.Chans()`weight, c.Chans()`descNum
    ensures c.channels[i].weight == weight
    ensures forall j :: 0 <= j < c.channels.Length && j != i && c.channels[j] != null ==>
              c.channels[j].weight == old(c.channels[j].weight)
    ensures old(c.channels[i].weight) == weight ==>
              ret == 0 && TxShares(c) == old(TxShares(c)) && RxShares(c) == old(RxShares(c))
    ensures old(c.channels[i].weight) != weight ==> ret == SplitVerdict(c) && (ret == 0 ==> Divided(c))
    ensures ret != 0 ==> TxShares(c) == old(TxShares(c)) && RxShares(c) == old(RxShares(c))
    ensures InOrder(c)
  {
    hide InOrder, Books, Present, Divided, TxShares, RxShares, Sum, FitOf, SplitVerdict, Resting;
    OrderFacts(c);
    FitFacts(c);
    var ch := c.channels[i];
    if ch.weight == weight {
      return 0;
    }
    ghost var tx, rx := TxShares(c), RxShares(c);
    ch.weight := weight;
    assert TxShares(c) == tx && RxShares(c) == rx;
    PresentNone(c.channels[..]);
    ret := SplitAnew(c);
    StillInOrder(c);
  }

  /** `cpdma_set_num_rx_descs`: the numbers are rolled back when the split fails. */
  method SetNumRx(c: Ctlr, numRx: int) returns (ret: int)
    requires InOrder(c) && 0 < numRx < c.numDesc
    modifies c`numRx, c`numTx, c.Chans()`descNum
    ensures InOrder(c)
    ensures ret == old(SplitVerdict(c))
    ensures ret == 0 ==> c.numRx == numRx && c.numTx == c.numDesc - numRx && (c.chanNum != 0 ==> Divided(c))
    ensures ret != 0 ==> c.numRx == old(c.numRx) && c.numTx == old(c.numTx)
    ensures ret != 0 ==> TxShares(c) == old(TxShares(c)) && RxShares(c) == old(RxShares(c))
  {
    hide InOrder, Books, Present, Divided, TxShares, RxShares, Sum, FitOf, SplitVerdict, Resting;
    OrderFacts(c);
    FitFacts(c);
    var temp := c.numRx;
    WriteNumbers(c, numRx);
    ret := SplitAnew(c);
    if ret != 0 {
      WriteNumbers(c, temp);
    }
    StillInOrder(c);
  }

  /** What receive does not get goes to transmit. */
  method WriteNumbers(c: Ctlr, numRx: int)
    requires c.Placed()
    modifies c`numRx, c`numTx
    ensures c.numRx == numRx && c.numTx == c.numDesc - numRx
    ensures TxShares(c) == old(TxShares(c)) && RxShares(c) == old(RxShares(c))
              && SplitVerdict(c) == old(SplitVerdict(c))
  {
    hide TxShares, RxShares, SplitVerdict;
    c.numRx := numRx;
    c.numTx := c.numDesc - c.numRx;
  }

  const MAX_QUEUES: int := 8

  /** The range check of `cpsw_set_ringparam`, in unsigned 32-bit arithmetic. */
  predicate RingInRange(rxPending: int, poolSize: int) {
    !(rxPending < MAX_QUEUES || rxPending > ToU32(poolSize - MAX_QUEUES))
  }

  /** Both directions keep eight descriptors if the pool has at least eight; below that the
      bound wraps around, and then the check does not even keep one for each. */
  lemma RingRangeSound(poolSize: nat)
    requires poolSize < TWO_TO_THE_32
    ensures (forall rx :: 0 <= rx < TWO_TO_THE_32 && RingInRange(rx, poolSize) ==> 0 < rx < poolSize) <==>
              poolSize >= MAX_QUEUES
    ensures forall rx: nat :: RingInRange(rx, poolSize) <==>
              8 <= rx <= poolSize - 8 + (if poolSize < 8 then TWO_TO_THE_32 else 0)
  {
    if poolSize < MAX_QUEUES {
      assert RingInRange(8, poolSize);
    }
  }

  /** `cpsw_set_ringparam` without suspending the data path. */
  method SetRingparam(c: Ctlr, rxPending: nat) returns (ret: int)
    requires InOrder(c) && MAX_QUEUES <= c.numDesc < TWO_TO_THE_32 && rxPending < TWO_TO_THE_32
    modifies c`numRx, c`numTx, c.Chans()`descNum
    ensures InOrder(c)
    ensures ret == if !RingInRange(rxPending, c.numDesc) then -EINVAL
                   else if rxPending == old(c.numRx) then 0 else old(SplitVerdict(c))
    ensures ret == 0 ==> c.numRx == rxPending && c.numTx == c.numDesc - rxPending
    ensures ret != 0 ==> c.numRx == old(c.numRx) && c.numTx == old(c.numTx)
  {
    hide InOrder, Books, Present, TxShares, RxShares, Sum, FitOf, SplitVerdict, Resting;
    OrderFacts(c);
    FitFacts(c);
    RingRangeSound(c.numDesc);
    if !RingInRange(rxPending, c.numDesc) {
      return -EINVAL;
    }
    if rxPending == c.numRx {
      return 0;
    }
    ret := SetNumRx(c, rxPending);
  }

  /** Put a new channel at its place. */
  method Install(c: Ctlr, at: nat, ch: Chan)
    requires InOrder(c) && at < c.channels.Length && c.channels[at] == null
    requires ch.pool == c.pool && ch.chanNum == at && ch.descNum == 0
    requires ch.Health() == Sound && ch.q == CREATED
    modifies c`chanNum, c.channels
    ensures c.Placed() && Books(c) == Balanced && Shares(c) == Fits
    ensures c.channels[..] == old(c.channels[..])[at := ch] && c.chanNum == Present(c.channels[..])
    ensures QueuesOf(c.channels[..]) == old(QueuesOf(c.channels[..]))[at := Some(CREATED)]
  {
    hide RestIn, Partition, Present, Chan.Health, FitOf, Books, QueuesOf, SharesOf, Resting, Held, HeldOf, Inv,
      Represents;
    BooksFacts(c);
    ghost var chs', tx, rx := c.channels[..][at := ch], TxShares(c), RxShares(c);
    RestFacts(c, ch);
    InstallForms(c, at, ch);
    c.channels[at] := ch;
    c.chanNum := c.chanNum + 1;
    assert c.channels[..] == chs';
    assert c.channels[..MAX_CHANNELS] == chs'[..MAX_CHANNELS] && c.channels[MAX_CHANNELS..] == chs'[MAX_CHANNELS..];
    assert TxShares(c) == tx && RxShares(c) == rx;
    BooksAgain(c);
  }

  lemma InstallForms(c: Ctlr, at: nat, ch: Chan)
    requires InOrder(c) && at < c.channels.Length && c.channels[at] == null
    requires ch.q == CREATED && ch.descNum == 0
    ensures var chs' := c.channels[..][at := ch];
            && c.chanNum + 1 == Present(chs')
            && QueuesOf(chs') == QueuesOf(c.channels[..])[at := Some(CREATED)]
            && Partition(c.pool.addrs, c.pool.free, c.lost, QueuesOf(chs'))
            && SharesOf(chs'[..MAX_CHANNELS]) == TxShares(c)
            && SharesOf(chs'[MAX_CHANNELS..]) == RxShares(c)
  {
    hide InOrder, Held, HeldOf, RestIn, FitOf, Sum, Partition, Present, Books, Resting, SpaceOk, Pool.Valid;
    OrderFacts(c);
    BooksFacts(c);
    var chs := c.channels[..];
    NewHolds();
    PresentUpdate(chs, at, ch);
    PartitionStep(c.pool.addrs, c.pool.free, c.lost, QueuesOf(chs), at, Some(CREATED), c.pool.free, c.lost);
  }

  lemma NewHolds()
    ensures HeldOf(Some(CREATED)) == HeldOf(None) == {}
  {}

  /** `cpdma_chan_create`; `num` counts from 0 in each direction, `room` tells whether there
      is memory for a channel. The outcome of the new split is ignored. */
  method CreateChan(c: Ctlr, num: nat, rx: bool, reply: int -> Option<Packet>, room: bool) returns (ret: int)
    requires InOrder(c) && num < MAX_CHANNELS
    modifies c`chanNum, c.channels, c.Chans()`descNum
    ensures InOrder(c) && c.Placed()
    ensures ret == 0 && SplitVerdict(c) == 0 ==> Divided(c)
    ensures ret == if num >= c.numChan then -EINVAL
                   else if !room then -ENOMEM
                   else if old(c.channels[if rx then num + MAX_CHANNELS else num]) != null then -EBUSY else 0
    ensures ret == 0 ==>
              var at := if rx then num + MAX_CHANNELS else num;
              && c.channels[at] != null && fresh(c.channels[at]) && c.channels[at].rate == 0
              && c.channels[..] == old(c.channels[..])[at := c.channels[at]]
              && QueuesOf(c.channels[..]) == old(QueuesOf(c.channels[..]))[at := Some(CREATED)]
    ensures ret != 0 ==> c.channels[..] == old(c.channels[..])
  {
    hide Resting, Present, TxShares, RxShares, Sum, RestIn, Partition, QueuesOf, Chan.Health, FitOf, SplitVerdict,
      Books, SpaceOk, Pool.Valid, Divided;
    BooksFacts(c);
    var at := if rx then num + MAX_CHANNELS else num;
    if num >= c.numChan {
      return -EINVAL;
    }
    if !room {
      return -ENOMEM;
    }
    if c.channels[at] != null {
      return -EBUSY;
    }
    var ch := new Chan(c.pool, at, reply);
    Install(c, at, ch);
    FitFacts(c);
    PresentNone(c.channels[..]);
    assert c.channels[..][at] != null;
    var split := SplitAnew(c);
    ret := 0;
  }

  lemma FitFacts(c: Ctlr)
    requires c.Placed() && Shares(c) == Fits
    ensures 0 < c.numTx && 0 < c.numRx && c.numTx + c.numRx == |c.pool.addrs|
  {}

  /** Take channel `at` out. Whatever it still holds is lost. */
  method Uninstall(c: Ctlr, at: nat)
    requires InOrder(c) && at < c.channels.Length && c.channels[at] != null
    modifies c`chanNum, c`lost, c.channels
    ensures c.Placed() && Books(c) == Balanced && Shares(c) == Fits
    ensures c.channels[..] == old(c.channels[..])[at := null] && c.chanNum == Present(c.channels[..])
    ensures c.lost == old(c.lost) + old(HeldOf(QueueOf(c.channels[at])))
  {
    hide RestIn, Partition, Present, Chan.Health, FitOf, Books, QueuesOf, SharesOf, Resting, Held, HeldOf, Inv,
      Represents;
    BooksFacts(c);
    ghost var chs', tx, rx := c.channels[..][at := null], TxShares(c), RxShares(c);
    UninstallForms(c, at);
    c.lost := c.lost + HeldOf(QueueOf(c.channels[at]));
    c.channels[at] := null;
    c.chanNum := c.chanNum - 1;
    assert c.channels[..] == chs';
    assert c.channels[..MAX_CHANNELS] == chs'[..MAX_CHANNELS] && c.channels[MAX_CHANNELS..] == chs'[MAX_CHANNELS..];
    BooksAgain(c);
  }

  lemma UninstallForms(c: Ctlr, at: nat)
    requires InOrder(c) && at < c.channels.Length && c.channels[at] != null
    ensures var chs' := c.channels[..][at := null];
            && c.chanNum - 1 == Present(chs')
            && Partition(c.pool.addrs, c.pool.free, c.lost + HeldOf(QueueOf(c.channels[at])), QueuesOf(chs'))
            && FitOf(SharesOf(chs'[..MAX_CHANNELS]), SharesOf(chs'[MAX_CHANNELS..]), c.numTx, c.numRx,
                 |c.pool.addrs|) == Fits
  {
    hide InOrder, Held, HeldOf, RestIn, FitOf, SharesOf, Sum, Partition, Present, Books, Resting, SpaceOk, Pool.Valid;
    OrderFacts(c);
    BooksFacts(c);
    var chs := c.channels[..];
    var chs' := chs[at := null];
    UninstallShares(c, at);
    var held := HeldOf(QueueOf(chs[at]));
    NewHolds();
    PresentUpdate(chs, at, null);
    assert QueuesOf(chs') == QueuesOf(chs)[at := None];
    PartitionStep(c.pool.addrs, c.pool.free, c.lost, QueuesOf(chs), at, None, c.pool.free, c.lost + held);
  }

  lemma UninstallShares(c: Ctlr, at: nat)
    requires c.Placed() && Shares(c) == Fits && at < c.channels.Length
    ensures var chs' := c.channels[..][at := null];
            FitOf(SharesOf(chs'[..MAX_CHANNELS]), SharesOf(chs'[MAX_CHANNELS..]), c.numTx, c.numRx, |c.pool.addrs|) ==
                Fits
  {
    var chs' := c.channels[..][at := null];
    if at < MAX_CHANNELS {
      SumUpdate(TxShares(c), at, 0);
      assert SharesOf(chs'[..MAX_CHANNELS]) == TxShares(c)[at := 0];
      assert chs'[MAX_CHANNELS..] == c.channels[MAX_CHANNELS..];
    } else {
      SumUpdate(RxShares(c), at - MAX_CHANNELS, 0);
      assert SharesOf(chs'[MAX_CHANNELS..]) == RxShares(c)[at - MAX_CHANNELS := 0];
      assert chs'[..MAX_CHANNELS] == c.channels[..MAX_CHANNELS];
    }
  }

  /** The rest of `cpdma_chan_destroy`, after the channel was stopped. */
  method Remove(c: Ctlr, i: nat)
    requires InOrder(c) && i < c.channels.Length && c.channels[i] != null
    modifies c`chanNum, c`lost, c.channels, c.Chans()`descNum
    ensures InOrder(c) && c.Placed()
    ensures c.chanNum != 0 && SplitVerdict(c) == 0 ==> Divided(c)
    ensures c.channels[..] == old(c.channels[..])[i := null]
    ensures c.lost == old(c.lost) + old(HeldOf(QueueOf(c.channels[i])))
  {
    hide RestIn, Partition, Present, Chan.Health, FitOf, Books, QueuesOf, Resting, Held, HeldOf, Inv, Represents,
      TxShares, RxShares, SplitVerdict, Divided;
    Uninstall(c, i);
    FitFacts(c);
    var split := SplitAnew(c);
  }

  /** Stop channel `i` unless it is IDLE. */
  method StopFirst(c: Ctlr, ghost i: nat, ch: Chan, last: Option<Mode>, minLen: bv32)
    requires InOrder(c) && i < c.channels.Length && c.channels[i] == ch && (ch.state != IDLE ==> ch.q.inFlight.None?)
    modifies ch`head, ch`tail, ch`count, ch`state, ch`engineAt, ch`fetched, ch`q, ch`submitted, ch`handed, c.pool
    ensures InOrder(c)
    ensures HeldOf(QueueOf(ch)) == if old(ch.state) != IDLE then {} else old(HeldOf(QueueOf(ch)))
  {
    hide InOrder, RestIn, Partition, Present, Chan.Health, FitOf, Books, QueuesOf, Resting, Held, HeldOf, Inv,
      Represents, SharesOf;
    OrderFacts(c);
    ghost var tx, rx := TxShares(c), RxShares(c);
    if ch.state != IDLE {
      StopOn(c, i, ch, last, minLen);
      assert TxShares(c) == tx && RxShares(c) == rx;
    }
    BooksFacts(c);
    StillInOrder(c);
  }

  /** `cpdma_chan_destroy`: a channel that is not IDLE is stopped first. */
  method DestroyChan(c: Ctlr, i: nat, last: Option<Mode>, minLen: bv32) returns (ret: int)
    requires InOrder(c) && i < c.channels.Length
    requires c.channels[i] != null && c.channels[i].state != IDLE ==> c.channels[i].q.inFlight.None?
    modifies c`chanNum, c`lost, c.channels, c.pool, c.Chans()`descNum
    modifies c.Chans()`head, c.Chans()`tail, c.Chans()`count, c.Chans()`state, c.Chans()`engineAt, c.Chans()`fetched
    modifies c.Chans()`q, c.Chans()`submitted, c.Chans()`handed
    ensures InOrder(c) && c.Placed()
    ensures ret == 0 && c.chanNum != 0 && SplitVerdict(c) == 0 ==> Divided(c)
    ensures ret == if old(c.channels[i]) == null then -EINVAL else 0
    ensures c.channels[..] == old(c.channels[..])[i := null]
    ensures c.lost == old(c.lost) +
              if old(c.channels[i] == null || c.channels[i].state != IDLE) then {}
                  else old(HeldOf(QueueOf(c.channels[i])))
    ensures forall j :: 0 <= j < c.channels.Length && j != i && c.channels[j] != null ==>
              && c.channels[j] == old(c.channels[j])
              && c.channels[j].state == old(c.channels[j].state) && c.channels[j].q == old(c.channels[j].q)
  {
    hide InOrder, RestIn, Partition, Present, Chan.Health, FitOf, Books, QueuesOf, Resting, Held, HeldOf, Inv,
      Represents, TxShares, RxShares, SplitVerdict, Divided;
    OrderFacts(c);
    var ch := c.channels[i];
    if ch == null {
      return -EINVAL;
    }
    StopFirst(c, i, ch, last, minLen);
    Remove(c, i);
    ret := 0;
  }

  // ---- The end -----------------------------------------------------------------------------------------------

  lemma {:induction false} HeldEmpty(qs: seq<Option<Queue>>, k: nat)
    requires k <= |qs|
    ensures HeldUpTo(qs, k) == {} <==> forall i :: 0 <= i < k ==> HeldOf(qs[i]) == {}
  {
    hide HeldOf;
    if k > 0 {
      HeldEmpty(qs, k - 1);
      UnionEmpty(HeldUpTo(qs, k - 1), HeldOf(qs[k - 1]));
    }
  }

  lemma UnionEmpty(a: set<int>, b: set<int>)
    ensures a + b == {} <==> a == {} && b == {}
  {
    if a + b == {} {
      assert forall x :: x in a ==> x in a + b;
      assert forall x :: x in b ==> x in a + b;
    }
  }

  /** No channel holds a descriptor. */
  ghost predicate NothingHeldBy(qs: seq<Option<Queue>>) {
    forall i :: 0 <= i < |qs| ==> HeldOf(qs[i]) == {}
  }

  /** The loop of `cpdma_ctlr_destroy` over the channels of a stopped controller. */
  method DestroyAll(c: Ctlr, last: seq<Option<Mode>>, minLen: bv32)
    requires InOrder(c) && |last| == c.channels.Length && c.state == IDLE
    modifies c`chanNum, c`lost, c.channels, c.Chans(), c.pool
    ensures InOrder(c) && forall i :: 0 <= i < c.channels.Length ==> c.channels[i] == null
    ensures var qs := old(QueuesOf(c.channels[..]));
            c.lost == old(c.lost) + HeldUpTo(qs, |qs|)
  {
    hide InOrder, HeldOf, HeldUpTo, Books, Resting, QueuesOf, Shares, TxShares, RxShares, FitOf, Present, Chan.Health,
      SpaceOk, Pool.Valid, SplitVerdict, Divided;
    OrderFacts(c);
    AllIdle(c);
    NoneHeldYet(QueuesOf(c.channels[..]));
    ghost var qs, lost := QueuesOf(c.channels[..]), c.lost;
    NullHolds();
    var i := 0;
    while i < c.channels.Length
      invariant 0 <= i <= c.channels.Length && InOrder(c)
      invariant forall j :: 0 <= j < i ==> c.channels[j] == null
      invariant forall j :: i <= j < c.channels.Length ==> QueueOf(c.channels[j]) == qs[j]
      invariant forall j :: i <= j < c.channels.Length && c.channels[j] != null ==> c.channels[j].state == IDLE
      invariant forall j :: 0 <= j < c.channels.Length && c.channels[j] != null ==> c.channels[j] in old(c.Chans())
      invariant c.lost == lost + HeldUpTo(qs, i)
    {
      HeldNext(qs, i);
      var ret := DestroyChan(c, i, last[i], minLen);
      i := i + 1;
    }
  }

  lemma NoneHeldYet(qs: seq<Option<Queue>>)
    ensures HeldUpTo(qs, 0) == {}
  {}

  lemma HeldNext(qs: seq<Option<Queue>>, i: nat)
    requires i < |qs|
    ensures HeldUpTo(qs, i + 1) == HeldUpTo(qs, i) + HeldOf(qs[i])
  {}

  lemma AllIdle(c: Ctlr)
    requires Books(c) == Balanced && c.state == IDLE
    ensures forall i :: 0 <= i < c.channels.Length && c.channels[i] != null ==> c.channels[i].state == IDLE
  {}

  /** `cpdma_ctlr_destroy` up to the check of `cpdma_desc_pool_destroy`: the result says
      whether the free space equals the size of the pool. It does if and only if nothing
      was lost before and the controller was ACTIVE or its channels held nothing. */
  method DestroyCtlr(c: Ctlr, last: seq<Option<Mode>>, minLen: bv32) returns (clean: bool)
    requires InOrder(c) && Quiet(c) && |last| == c.channels.Length && c.state != TEARDOWN
    modifies c`state, c`chanNum, c`lost, c.channels, c.Chans(), c.pool
    ensures clean <==> c.pool.free == c.pool.addrs
    ensures clean <==> old(c.lost) == {} && (old(c.state) == ACTIVE || old(NothingHeldBy(QueuesOf(c.channels[..]))))
  {
    hide RestIn, Partition, Present, Chan.Health, FitOf, Books, Resting, Held, HeldOf, Inv, Represents, TxShares,
      RxShares;
    if c.state != IDLE {
      var ret := StopCtlr(c, last, minLen);
    }
    ghost var qs, lost := QueuesOf(c.channels[..]), c.lost;
    HeldEmpty(qs, |qs|);
    DestroyAll(c, last, minLen);
    LastBalance(c);
    UnionEmpty(lost, HeldUpTo(qs, |qs|));
    clean := |c.pool.free| == |c.pool.addrs|;
  }

  lemma LastBalance(c: Ctlr)
    requires Books(c) == Balanced && forall i :: 0 <= i < c.channels.Length ==> c.channels[i] == null
    ensures c.pool.free == c.pool.addrs <==> c.lost == {}
    ensures |c.pool.free| == |c.pool.addrs| <==> c.lost == {}
  {
    var qs := QueuesOf(c.channels[..]);
    NullHolds();
    HeldEmpty(qs, |qs|);
    UnionCount(c.pool.free, c.lost);
    assert c.pool.addrs == c.pool.free + c.lost;
    if c.lost == {} {
      assert c.pool.free + c.lost == c.pool.free;
    }
  }
}
