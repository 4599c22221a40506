/** The descriptor memory shared by all channels, and the objects of the driver. */
module CpdmaMemory {
  import opened Kernel
  import opened CpdmaMode
  import opened CpdmaProtocol

  // ---- Addresses -------------------------------------------------------------

  /** Where the pool lies: `iomap` as the driver sees it, `hwAddr` as the engine does. */
  datatype Geo = Geo(iomap: int, hwAddr: int, memSize: int)

  function DescPhys(g: Geo, desc: int): int {
    if desc == 0 then 0 else g.hwAddr + desc - g.iomap
  }

  function DescFromPhys(g: Geo, dma: int): int {
    if dma == 0 then 0 else g.iomap + dma - g.hwAddr
  }

  /** A link is a 32-bit word holding an engine address, which has the offset of the
      descriptor in the pool. Reading it back gives the descriptor exactly when that address
      is not zero and fits the word. */
  lemma LinkRoundTrip(g: Geo, desc: int)
    requires 0 < g.iomap <= desc < g.iomap + g.memSize
    ensures DescFromPhys(g, ToU32(DescPhys(g, desc))) == desc <==> 0 < DescPhys(g, desc) < TWO_TO_THE_32
    ensures DescPhys(g, desc) - g.hwAddr == desc - g.iomap && DescPhys(g, 0) == 0
    ensures DescFromPhys(g, ToU32(DescPhys(g, 0))) == 0
  {}

  /** A pool base that is neither zero nor so high that the pool wraps. */
  predicate GeoOk(g: Geo) {
    0 < g.iomap && 0 < g.hwAddr && 0 <= g.memSize && g.hwAddr + g.memSize <= TWO_TO_THE_32
  }

  lemma SomeMember(s: set<int>)
    ensures s == {} || exists a :: a in s
  {
    if !exists a :: a in s {
      assert s == {};
    }
  }

  // ---- Objects ---------------------------------------------------------------

  datatype Desc = Desc(hwNext: int, hwLen: bv32, hwMode: Mode, swToken: int)

  /** The pool as a value. */
  datatype Space = Space(geo: Geo, addrs: set<int>, mem: map<int, Desc>, free: set<int>)

  ghost predicate SpaceOk(s: Space) {
    && GeoOk(s.geo)
    && s.mem.Keys == s.addrs
    && forall a :: a in s.addrs ==> s.geo.iomap <= a < s.geo.iomap + s.geo.memSize
  }

  /** The fields of a channel, and its engine registers, that lead into the pool. */
  datatype Regs = Regs(head: int, tail: int, engineAt: int, fetched: Option<int>)

  /** The addresses of `numDesc` descriptors side by side. */
  method Carved(iomap: int, descSize: nat, numDesc: nat) returns (all: set<int>)
    requires descSize > 0
    ensures |all| == numDesc && forall a :: a in all ==> iomap <= a < iomap + descSize * numDesc
  {
    all := {};
    var next := iomap;
    for i := 0 to numDesc
      invariant next == iomap + descSize * i && |all| == i
      invariant forall a :: a in all ==> iomap <= a < next
    {
      OneMore(descSize, i);
      all := all + {next};
      next := next + descSize;
    }
  }

  lemma OneMore(size: nat, n: nat)
    ensures size * (n + 1) == size * n + size
  {}

  /** `struct cpdma_desc_pool` with the memory it maps and its allocator. */
  class Pool {
    const geo: Geo
    const addrs: set<int>
    var mem: map<int, Desc>
    var free: set<int>

    ghost predicate Valid()
      reads this
    {
      && SpaceOk(View())
      && free <= addrs
    }

    ghost function View(): Space
      reads this
    {
      Space(geo, addrs, mem, free)
    }

    /** `cpdma_desc_pool_create`: `numDesc` descriptors of `descSize` bytes. */
    constructor (iomap: int, hwAddr: int, descSize: nat, numDesc: nat)
      requires descSize > 0
      requires GeoOk(Geo(iomap, hwAddr, descSize * numDesc))
      ensures Valid() && free == addrs && |addrs| == numDesc
      ensures geo == Geo(iomap, hwAddr, descSize * numDesc)
    {
      var all := Carved(iomap, descSize, numDesc);
      geo := Geo(iomap, hwAddr, descSize * numDesc);
      addrs := all;
      free := all;
      mem := map a | a in all :: Desc(0, 0, Mode(false, false, false, false, 0, 0), 0);
    }

    /** `cpdma_desc_alloc`: a free descriptor, or 0 when there is none. */
    method Alloc() returns (desc: int)
      requires 0 !in free
      modifies `free
      ensures old(free) == {} ==> desc == 0 && free == old(free)
      ensures old(free) != {} ==> desc in old(free) && desc != 0 && free == old(free) - {desc}
    {
      if free == {} {
        return 0;
      }
      SomeMember(free);
      desc :| desc in free;
      free := free - {desc};
    }

    /** `cpdma_desc_free`. */
    method Free(desc: int)
      modifies `free
      ensures free == old(free) + {desc}
    {
      free := free + {desc};
    }
  }

  /** `struct submit_info`; `mapOk` tells whether the buffer can be mapped. */
  datatype Packet = Packet(token: int, len: bv32, directed: bv32, mapOk: bool)

  const MAX_CHANNELS: nat := 32

  datatype Health = Broken | Chained | Sound

  /** `struct cpdma_chan` with the engine registers of that channel.

      `engineAt` and `fetched` are the hardware's: the engine address of the descriptor
      it works on (0 when idle) and the link it has read from there. The three ghost
      fields are the protocol state and the tokens submitted and handed over so far. */
  class Chan {
    const pool: Pool
    const chanNum: nat
    const reply: int -> Option<Packet> // what the handler submits in turn, if anything
    var head: int
    var tail: int
    var count: int
    var state: ChanState
    var descNum: int
    var weight: nat
    var rate: nat
    var rateFactor: (nat, nat) // the send and the idle count of the rate
    var engineAt: int
    var fetched: Option<int>
    ghost var q: Queue
    ghost var submitted: seq<int>
    ghost var handed: seq<int>

    constructor (pool: Pool, chanNum: nat, reply: int -> Option<Packet>)
      requires pool.Valid()
      ensures this.pool == pool && this.chanNum == chanNum && this.reply == reply
      ensures Health() == Sound && q == CREATED && submitted == [] && handed == []
      ensures descNum == 0 && weight == 0 && rate == 0 && rateFactor == (0, 0)
    {
      this.pool, this.chanNum, this.reply := pool, chanNum, reply;
      head, tail, count, state := 0, 0, 0, IDLE;
      descNum, weight, rate, rateFactor := 0, 0, 0, (0, 0);
      engineAt, fetched := 0, None;
      q, submitted, handed := CREATED, [], [];
    }

    predicate IsRx() { chanNum >= MAX_CHANNELS }

    /** The descriptors this channel holds or may still get. */
    ghost function Reach(): set<int>
      reads `q, pool
    {
      Held(q) + pool.free
    }

    ghost function Fields(): Regs
      reads `head, `tail, `engineAt, `fetched
    {
      Regs(head, tail, engineAt, fetched)
    }

    /** Memory and registers agree with the protocol state, and no token is lost. */
    ghost predicate Shape()
      reads `head, `tail, `state, `engineAt, `fetched, `q, `submitted, `handed, pool
    {
      && state == q.state
      && Represents(pool.View(), q, Fields())
      && handed + Pending(q) == submitted
    }

    /** `Sound` at every point where the channel lock is free. Within an operation the
        counter may lag and a missed append may not be repaired yet: `Chained`. */
    ghost function Health(): Health
      reads `head, `tail, `count, `state, `engineAt, `fetched, `q, `submitted, `handed, pool
    {
      if !Shape() then Broken
      else if Inv(q) && count == |q.items| then Sound
      else Chained
    }
  }

  /** `struct cpdma_ctlr`: transmit channels at 0, receive channels at MAX_CHANNELS. */
  class Ctlr {
    const pool: Pool
    const numDesc: nat
    const numChan: nat
    const channels: array<Chan?>
    var state: ChanState
    var chanNum: int
    var numRx: int
    var numTx: int
    ghost var lost: set<int> // descriptors of channels that were destroyed with a chain

    /** `cpdma_ctlr_create` after the pool was created. The pool is split in half. */
    constructor (pool: Pool, numChan: nat)
      requires pool.Valid() && pool.free == pool.addrs
      ensures fresh(channels) && channels.Length == 2 * MAX_CHANNELS
      ensures forall i :: 0 <= i < channels.Length ==> channels[i] == null
      ensures this.pool == pool && numDesc == |pool.addrs| && state == IDLE && chanNum == 0 && lost == {}
      ensures numRx + numTx == numDesc && numTx <= numRx <= numTx + 1
      ensures this.numChan <= MAX_CHANNELS && (numChan <= MAX_CHANNELS ==> this.numChan == numChan)
    {
      this.pool, numDesc := pool, |pool.addrs|;
      this.numChan := if numChan > MAX_CHANNELS then MAX_CHANNELS else numChan;
      channels := new Chan?[2 * MAX_CHANNELS](_ => null);
      state, chanNum, lost := IDLE, 0, {};
      numTx := |pool.addrs| / 2;
      numRx := |pool.addrs| - |pool.addrs| / 2;
    }

    /** Every channel stands at its own number. */
    ghost predicate Placed()
      reads channels
    {
      && channels.Length == 2 * MAX_CHANNELS
      && forall i :: 0 <= i < channels.Length && channels[i] != null ==>
           channels[i].chanNum == i && channels[i].pool == pool
    }

    ghost function Chans(): set<Chan>
      reads channels
    {
      set i | 0 <= i < channels.Length && channels[i] != null :: channels[i]
    }
  }

  // ---- How the memory represents the protocol state ---------------------------

  ghost function Addrs(items: seq<Item>): set<int> {
    set i | 0 <= i < |items| :: items[i].addr
  }

  /** The descriptors that are neither free nor with another channel. */
  ghost function Held(q: Queue): set<int> {
    Addrs(q.items) + (if q.inFlight.Some? then {q.inFlight.value.addr} else {})
  }

  function LinkAfter(g: Geo, items: seq<Item>, i: nat): int
    requires i < |items|
  {
    if i + 1 < |items| then DescPhys(g, items[i + 1].addr) else 0
  }

  /** The descriptor in memory at the place of item `i`. */
  ghost predicate NodeAt(g: Geo, mem: map<int, Desc>, items: seq<Item>, i: nat)
    requires i < |items|
  {
    && items[i].addr in mem
    && mem[items[i].addr].hwMode == items[i].mode
    && mem[items[i].addr].swToken == items[i].token
    && mem[items[i].addr].hwNext == LinkAfter(g, items, i)
  }

  ghost predicate Distinct(items: seq<Item>) {
    forall i, j :: 0 <= i < j < |items| ==> items[i].addr != items[j].addr
  }

  /** An acyclic chain from `head` to `tail` through the links. */
  ghost predicate Linked(g: Geo, mem: map<int, Desc>, items: seq<Item>, head: int, tail: int) {
    && Distinct(items)
    && (forall i :: 0 <= i < |items| ==> NodeAt(g, mem, items, i))
    && (items == [] ==> head == 0)
    && (items != [] ==> head == items[0].addr && tail == items[|items| - 1].addr)
  }

  ghost predicate EngineLinked(g: Geo, q: Queue, engineAt: int, fetched: Option<int>) {
    match q.engine
    case Idle => engineAt == 0
    case Busy(cur, latch) =>
      && q.taken <= cur < q.Next()
      && engineAt == DescPhys(g, q.items[cur - q.taken].addr)
      && match latch
         case NotFetched => fetched.None?
         case SawEnd => fetched == Some(0)
         case SawNext => cur + 1 < q.Next() && fetched == Some(DescPhys(g, q.items[cur + 1 - q.taken].addr))
  }

  /** A descriptor that was dequeued keeps its token until it is freed. */
  ghost predicate InFlightOk(s: Space, items: seq<Item>, item: Item) {
    item.addr !in Addrs(items) && item.addr in s.mem && s.mem[item.addr].swToken == item.token
  }

  /** The memory and the registers hold exactly the protocol state `q`. */
  ghost predicate Represents(s: Space, q: Queue, r: Regs) {
    && SpaceOk(s)
    && Linked(s.geo, s.mem, q.items, r.head, r.tail)
    && EngineLinked(s.geo, q, r.engineAt, r.fetched)
    && s.free <= s.addrs
    && Held(q) <= s.addrs - s.free
    && (q.inFlight.Some? ==> InFlightOk(s, q.items, q.inFlight.value))
  }
}
