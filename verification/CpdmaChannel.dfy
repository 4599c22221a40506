/** The driver's operations on one channel and the engine's steps, on real memory.

  Every method is proved against the protocol step of the same meaning.
 */
module CpdmaChannel {
  import opened Kernel
  import opened CpdmaMode
  import opened CpdmaProtocol
  import opened CpdmaMemory
  import opened CpdmaRace

  const EMPTY_MODE: Mode := Mode(false, false, false, false, 0, 0)

  // ---- Facts about the memory -------------------------------------------------

  lemma PhysOfDesc(g: Geo, desc: int)
    requires GeoOk(g) && g.iomap <= desc < g.iomap + g.memSize
    ensures ToU32(DescPhys(g, desc)) == DescPhys(g, desc) != 0
    ensures DescFromPhys(g, DescPhys(g, desc)) == desc
  {}

  /** The descriptors `keep` are the same in both memories. */
  ghost predicate Kept(keep: set<int>, mem: map<int, Desc>, mem': map<int, Desc>) {
    forall a :: a in keep && a in mem ==> a in mem' && mem'[a] == mem[a]
  }

  lemma HeadIsNull(s: Space, q: Queue, r: Regs)
    requires Represents(s, q, r)
    ensures r.head == 0 <==> q.items == []
  {
    if q.items != [] {
      assert NodeAt(s.geo, s.mem, q.items, 0);
    }
  }

  /** A descriptor that was allocated and filled, but not linked yet. */
  ghost predicate Filled(s: Space, q: Queue, item: Item) {
    && item.addr in s.addrs - s.free - Held(q)
    && item.addr in s.mem && s.mem[item.addr].hwNext == 0
    && s.mem[item.addr].hwMode == item.mode && s.mem[item.addr].swToken == item.token
    && item.mode.owner
  }

  lemma AppendHeld(q: Queue, item: Item)
    ensures Addrs(Append(q, item).items) == Addrs(q.items) + {item.addr}
  {
    var items := Append(q, item).items;
    assert forall i :: 0 <= i < |q.items| ==> items[i] == q.items[i];
    assert items[|q.items|] == item;
  }

  lemma AppendPending(handed: seq<int>, submitted: seq<int>, q: Queue, item: Item)
    requires handed + Pending(q) == submitted
    ensures handed + Pending(Append(q, item)) == submitted + [item.token]
  {
    assert Tokens(Append(q, item).items) == Tokens(q.items) + [item.token];
    assert Pending(Append(q, item)) == Pending(q) + [item.token];
    assert handed + (Pending(q) + [item.token]) == (handed + Pending(q)) + [item.token];
  }

  /** Linking into an empty chain. */
  lemma LinkedFirst(s: Space, q: Queue, r: Regs, item: Item)
    requires Represents(s, q, r) && Filled(s, q, item) && r.head == 0
    ensures Represents(s, Append(q, item), r.(head := item.addr, tail := item.addr))
  {
    HeadIsNull(s, q, r);
    AppendHeld(q, item);
  }

  lemma AppendNodes(s: Space, q: Queue, r: Regs, item: Item, mem: map<int, Desc>)
    requires Represents(s, q, r) && Filled(s, q, item) && q.items != []
    requires r.tail in s.mem && mem == s.mem[r.tail := s.mem[r.tail].(hwNext := DescPhys(s.geo, item.addr))]
    ensures forall i :: 0 <= i <= |q.items| ==> NodeAt(s.geo, mem, Append(q, item).items, i)
  {
    var items := Append(q, item).items;
    forall i | 0 <= i < |items|
      ensures NodeAt(s.geo, mem, items, i)
    {
      if i < |q.items| {
        assert NodeAt(s.geo, s.mem, q.items, i);
        assert q.items[i].addr in Addrs(q.items);
      }
    }
  }

  lemma AppendDistinct(q: Queue, item: Item)
    requires Distinct(q.items) && item.addr !in Addrs(q.items)
    ensures Distinct(Append(q, item).items)
  {
    assert forall i :: 0 <= i < |q.items| ==> q.items[i].addr in Addrs(q.items);
  }

  /** Linking at the tail. */
  lemma LinkedBehind(s: Space, q: Queue, r: Regs, item: Item)
    requires Represents(s, q, r) && Filled(s, q, item) && r.head != 0
    ensures r.tail in s.mem && r.tail in Held(q)
    ensures var mem := s.mem[r.tail := s.mem[r.tail].(hwNext := DescPhys(s.geo, item.addr))];
            Represents(s.(mem := mem), Append(q, item), r.(tail := item.addr))
  {
    HeadIsNull(s, q, r);
    var n := |q.items| - 1;
    assert NodeAt(s.geo, s.mem, q.items, n);
    assert q.items[n].addr in Addrs(q.items);
    var mem := s.mem[r.tail := s.mem[r.tail].(hwNext := DescPhys(s.geo, item.addr))];
    AppendHeld(q, item);
    AppendDistinct(q, item);
    AppendNodes(s, q, r, item, mem);
    assert mem.Keys == s.addrs;
  }

  /** The chain after the mode word of item `i` was rewritten. */
  function WithMode(q: Queue, i: nat, mode: Mode): Queue
    requires i < |q.items|
  {
    q.(items := q.items[i := q.items[i].(mode := mode)])
  }

  lemma ModeKeeps(q: Queue, i: nat, mode: Mode)
    requires i < |q.items|
    ensures Addrs(WithMode(q, i, mode).items) == Addrs(q.items)
    ensures Pending(WithMode(q, i, mode)) == Pending(q)
    ensures Distinct(q.items) ==> Distinct(WithMode(q, i, mode).items)
  {
    var items := WithMode(q, i, mode).items;
    assert forall j :: 0 <= j < |items| ==> items[j].addr == q.items[j].addr && items[j].token == q.items[j].token;
    assert Tokens(items) == Tokens(q.items);
  }

  lemma ModeNodes(s: Space, q: Queue, r: Regs, i: nat, mode: Mode)
    requires Represents(s, q, r) && i < |q.items|
    ensures q.items[i].addr in s.mem
    ensures var a := q.items[i].addr;
            var mem := s.mem[a := s.mem[a].(hwMode := mode)];
            forall j :: 0 <= j < |q.items| ==> NodeAt(s.geo, mem, WithMode(q, i, mode).items, j)
  {
    assert NodeAt(s.geo, s.mem, q.items, i);
    var a := q.items[i].addr;
    var mem := s.mem[a := s.mem[a].(hwMode := mode)];
    forall j | 0 <= j < |q.items|
      ensures NodeAt(s.geo, mem, WithMode(q, i, mode).items, j)
    {
      assert NodeAt(s.geo, s.mem, q.items, j);
    }
  }

  lemma ModeRewritten(s: Space, q: Queue, r: Regs, i: nat, mode: Mode)
    requires Represents(s, q, r) && i < |q.items|
    ensures var a := q.items[i].addr;
            && a in s.mem && a in Held(q) && s.mem[a].hwMode == q.items[i].mode
            && Represents(s.(mem := s.mem[a := s.mem[a].(hwMode := mode)]), WithMode(q, i, mode), r)
    ensures Held(WithMode(q, i, mode)) == Held(q) && Pending(WithMode(q, i, mode)) == Pending(q)
  {
    var a := q.items[i].addr;
    assert NodeAt(s.geo, s.mem, q.items, i);
    assert a in Addrs(q.items);
    ModeKeeps(q, i, mode);
    ModeNodes(s, q, r, i, mode);
    assert s.mem[a := s.mem[a].(hwMode := mode)].Keys == s.addrs;
  }

  /** What is done elsewhere in the pool does not disturb a channel. */
  lemma OthersKept(s: Space, s': Space, q: Queue, r: Regs)
    requires Represents(s, q, r) && SpaceOk(s') && s'.geo == s.geo && s'.addrs == s.addrs
    requires s'.free <= s'.addrs && Held(q) !! s'.free
    requires forall a :: a in Held(q) ==> s'.mem[a] == s.mem[a]
    ensures Represents(s', q, r)
  {
    forall i | 0 <= i < |q.items|
      ensures NodeAt(s'.geo, s'.mem, q.items, i)
    {
      assert NodeAt(s.geo, s.mem, q.items, i);
      assert q.items[i].addr in Held(q);
    }
  }

  // ---- Submitting ----------------------------------------------------------------

  /** A write to the head descriptor pointer. The engine ignores it unless the channel
      is ACTIVE. */
  method WriteHdp(ch: Chan, dma: int)
    modifies ch`engineAt, ch`fetched
    ensures ch.engineAt == if ch.state == ACTIVE then dma else old(ch.engineAt)
    ensures ch.fetched == if ch.state == ACTIVE then None else old(ch.fetched)
  {
    if ch.state == ACTIVE {
      ch.engineAt := dma;
      ch.fetched := None;
    }
  }

  /** The item that descriptor `desc` becomes when it is linked. */
  ghost function ItemAt(pool: Pool, desc: int): (item: Item)
    requires desc in pool.mem
    reads pool
    ensures item.addr == desc
  {
    Item(desc, pool.mem[desc].swToken, pool.mem[desc].hwMode)
  }

  /** The first half of `__cpdma_chan_submit`: set `head` or chain at the tail. */
  method Chain(ch: Chan, desc: int) returns (wasEmpty: bool)
    requires ch.Health() != Broken && desc in ch.pool.mem && Filled(ch.pool.View(), ch.q, ItemAt(ch.pool, desc))
    modifies ch`head, ch`tail, ch`q, ch`submitted, ch.pool`mem
    ensures ch.Health() != Broken && ch.q == Append(old(ch.q), old(ItemAt(ch.pool, desc)))
    ensures wasEmpty <==> old(ch.q).items == []
    ensures ch.submitted == old(ch.submitted) + [old(ItemAt(ch.pool, desc)).token]
    ensures Kept(ch.pool.addrs - old(Held(ch.q)), old(ch.pool.mem), ch.pool.mem)
  {
    var pool := ch.pool;
    ghost var item, s := ItemAt(pool, desc), pool.View();
    ghost var r := ch.Fields();
    HeadIsNull(s, ch.q, r);
    wasEmpty := ch.head == 0;
    if wasEmpty {
      LinkedFirst(s, ch.q, r, item);
      ch.head := desc;
    } else {
      LinkedBehind(s, ch.q, r, item);
      PhysOfDesc(pool.geo, desc);
      pool.mem := pool.mem[ch.tail := pool.mem[ch.tail].(hwNext := ToU32(DescPhys(pool.geo, desc)))];
    }
    ch.tail := desc;
    AppendPending(ch.handed, ch.submitted, ch.q, item);
    ch.q := Append(ch.q, item);
    ch.submitted := ch.submitted + [item.token];
  }

  /** The engine was started at item `i`. */
  lemma EngineStarted(s: Space, q: Queue, r: Regs, i: nat)
    requires Represents(s, q, r) && i < |q.items|
    ensures Represents(s, q.(engine := Busy(q.taken + i, NotFetched)),
                       r.(engineAt := DescPhys(s.geo, q.items[i].addr), fetched := None))
  {}

  /** The effect of writing HDP. */
  ghost function Started(q: Queue, id: nat): Queue {
    if q.state == ACTIVE then q.(engine := Busy(id, NotFetched)) else q
  }

  /** The repair of a missed append of item `n`. */
  ghost function Repaired(q: Queue, n: nat): Queue
    requires 0 < n < |q.items|
  {
    if q.items[n - 1].mode.Stalled() && q.state == ACTIVE then
      Started(WithMode(q, n - 1, q.items[n - 1].mode.ClearEoq()), q.taken + n)
    else
      q
  }

  /** The protocol step in the order in which the code writes. */
  lemma SubmitForms(q: Queue, item: Item)
    ensures var n := |q.items|;
            var q1 := Append(q, item);
            SubmitItem(q, item).q ==
              if n > 0 then Repaired(q1, n) else if q.state == ACTIVE then Started(q1, q.taken) else q1
  {
    var n := |q.items|;
    if n > 0 {
      var mode := q.items[n - 1].mode.ClearEoq();
      assert q.items[n - 1 := q.items[n - 1].(mode := mode)] + [item] == WithMode(Append(q, item), n - 1, mode).items;
    }
  }

  lemma TailIsLast(ch: Chan)
    requires ch.Health() != Broken
    ensures ch.q.items != [] ==> ch.tail == ch.q.items[|ch.q.items| - 1].addr && ch.tail in Held(ch.q)
    ensures ch.state == ch.q.state
  {}

  lemma AppendItems(q: Queue, item: Item)
    ensures var q1 := Append(q, item);
            && |q1.items| == |q.items| + 1 && q1.items[|q.items|].addr == item.addr
            && (q.items != [] ==> q1.items[|q.items| - 1].addr == q.items[|q.items| - 1].addr)
            && q1.taken == q.taken && q1.state == q.state
  {}

  /** `__cpdma_chan_submit`. */
  method LinkDesc(ch: Chan, desc: int)
    requires ch.Health() != Broken && desc in ch.pool.mem && Filled(ch.pool.View(), ch.q, ItemAt(ch.pool, desc))
    modifies ch`head, ch`tail, ch`engineAt, ch`fetched, ch`q, ch`submitted, ch.pool`mem
    ensures ch.Health() != Broken
    ensures ch.q == SubmitItem(old(ch.q), old(ItemAt(ch.pool, desc))).q
    ensures ch.submitted == old(ch.submitted) + [old(ItemAt(ch.pool, desc)).token]
    ensures Kept(ch.pool.addrs - old(Held(ch.q)), old(ch.pool.mem), ch.pool.mem)
  {
    hide Represents, Inv, Pending, Filled, Held, SubmitItem, Append, Repaired, Started, WithMode, Chan.Health,
      Chan.Shape;
    ghost var q0, n := ch.q, |ch.q.items|;
    SubmitForms(q0, ItemAt(ch.pool, desc));
    TailIsLast(ch);
    AppendItems(q0, ItemAt(ch.pool, desc));
    var prev := ch.tail;
    var wasEmpty := Chain(ch, desc);
    if !wasEmpty {
      RepairMissed(ch, prev, desc, n);
    } else if ch.state == ACTIVE {
      StartAt(ch, desc, n);
    }
  }

  /** Write HDP with descriptor `desc`, which is item `i`. */
  method StartAt(ch: Chan, desc: int, ghost i: nat)
    requires ch.Health() != Broken
    requires i < |ch.q.items| && ch.q.items[i].addr == desc
    modifies ch`engineAt, ch`fetched, ch`q
    ensures ch.Health() != Broken && ch.q == Started(old(ch.q), old(ch.q).taken + i)
    ensures Held(ch.q) == old(Held(ch.q))
  {
    EngineStarted(ch.pool.View(), ch.q, ch.Fields(), i);
    WriteHdp(ch, DescPhys(ch.pool.geo, desc));
    ch.q := Started(ch.q, ch.q.taken + i);
  }

  /** Write the mode word of item `i`. */
  method WriteMode(ch: Chan, desc: int, mode: Mode, ghost i: nat)
    requires ch.Health() != Broken && i < |ch.q.items| && ch.q.items[i].addr == desc
    modifies ch`q, ch.pool`mem
    ensures ch.Health() != Broken && ch.q == WithMode(old(ch.q), i, mode)
    ensures Held(ch.q) == old(Held(ch.q)) && desc in Held(ch.q)
    ensures Kept(ch.pool.addrs - {desc}, old(ch.pool.mem), ch.pool.mem)
  {
    var pool := ch.pool;
    ghost var s := pool.View();
    ModeRewritten(s, ch.q, ch.Fields(), i, mode);
    pool.mem := pool.mem[desc := pool.mem[desc].(hwMode := mode)];
    ch.q := WithMode(ch.q, i, mode);
    assert pool.View() == s.(mem := pool.mem);
  }

  lemma NodeOf(ch: Chan, i: nat)
    requires ch.Health() != Broken && i < |ch.q.items|
    ensures var a := ch.q.items[i].addr;
            && a in ch.pool.mem && a in Held(ch.q)
            && ch.pool.mem[a].hwMode == ch.q.items[i].mode
            && ch.pool.mem[a].swToken == ch.q.items[i].token
            && DescFromPhys(ch.pool.geo, ch.pool.mem[a].hwNext) == if i + 1 < |ch.q.items| then ch.q.items[i + 1].addr
                 else 0
    ensures ch.state == ch.q.state
  {
    assert NodeAt(ch.pool.geo, ch.pool.mem, ch.q.items, i);
    if i + 1 < |ch.q.items| {
      assert NodeAt(ch.pool.geo, ch.pool.mem, ch.q.items, i + 1);
      PhysOfDesc(ch.pool.geo, ch.q.items[i + 1].addr);
    }
  }

  lemma RepairedForms(q: Queue, n: nat)
    requires 0 < n < |q.items|
    ensures var mode := q.items[n - 1].mode;
            var q1 := WithMode(q, n - 1, mode.ClearEoq());
            Repaired(q, n) == if mode.Stalled() && q.state == ACTIVE then Started(q1, q1.taken + n) else q
    ensures var q1 := WithMode(q, n - 1, q.items[n - 1].mode.ClearEoq());
            |q1.items| == |q.items| && q1.items[n].addr == q.items[n].addr && q1.taken == q.taken
  {}

  /** The end of `__cpdma_chan_submit`: if the engine has stopped at the old tail already,
      take its mark away and start the engine at the new descriptor. */
  method RepairMissed(ch: Chan, prev: int, desc: int, ghost n: nat)
    requires ch.Health() != Broken && 0 < n < |ch.q.items|
    requires ch.q.items[n - 1].addr == prev && ch.q.items[n].addr == desc
    modifies ch`engineAt, ch`fetched, ch`q, ch.pool`mem
    ensures ch.Health() != Broken && ch.q == Repaired(old(ch.q), n)
    ensures Kept(ch.pool.addrs - {prev}, old(ch.pool.mem), ch.pool.mem)
  {
    hide Represents, Inv, Pending, Filled, Held, SubmitItem, Append, Repaired, Started, WithMode, Chan.Health,
      Chan.Shape;
    NodeOf(ch, n - 1);
    RepairedForms(ch.q, n);
    var mode := ch.pool.mem[prev].hwMode;
    if mode.Stalled() && ch.state == ACTIVE {
      WriteMode(ch, prev, mode.ClearEoq(), n - 1);
      StartAt(ch, desc, n);
    }
  }

  /** Allocating and filling a descriptor keeps the chain as it is. */
  lemma FilledNew(s: Space, q: Queue, r: Regs, desc: int, node: Desc)
    requires Represents(s, q, r) && desc in s.free && node.hwNext == 0 && node.hwMode.owner
    ensures Represents(s.(mem := s.mem[desc := node], free := s.free - {desc}), q, r)
    ensures Filled(s.(mem := s.mem[desc := node], free := s.free - {desc}), q, Item(desc, node.swToken, node.hwMode))
  {
    var s' := s.(mem := s.mem[desc := node], free := s.free - {desc});
    assert s'.mem.Keys == s.addrs;
    OthersKept(s, s', q, r);
  }

  /** Short packets are padded. */
  function Padded(p: Packet, minLen: bv32): bv32 { AtLeast(p.len, minLen) }

  function AtLeast(len: bv32, minLen: bv32): bv32 { if len < minLen then minLen else len }

  /** The mode word of a new descriptor; only transmit channels name a target port. */
  function PacketMode(p: Packet, minLen: bv32, rx: bool): Mode {
    Decode(SubmitWord(Padded(p, minLen), !rx, p.directed))
  }

  /** The mode word of a packet of length `len`. */
  predicate ModeFor(mode: Mode, len: bv32, directed: bv32, rx: bool) {
    && mode.owner
    && (len < 0x800 ==>
          && mode.len == len
          && mode.port == (if !rx && (directed == 1 || directed == 2) then directed else 0)
          && !mode.eoq && !mode.tdComplete && !mode.passCrc)
  }

  /** The larger of the packet's length and the minimum. */
  predicate LengthFor(len: bv32, given: bv32, minLen: bv32) {
    given <= len && minLen <= len && (len == given || len == minLen)
  }

  /** Descriptor `item` of length `len` carries the packet: its token, its padded length, and
      the target port on a directed transmit only. The length field of the mode word has 11
      bits. */
  predicate Carries(item: Item, len: bv32, p: Packet, minLen: bv32, rx: bool) {
    item.token == p.token && LengthFor(len, p.len, minLen) && ModeFor(item.mode, len, p.directed, rx)
  }

  lemma LengthIsFor(len: bv32, minLen: bv32)
    ensures LengthFor(AtLeast(len, minLen), len, minLen)
  {}

  lemma ModeIsFor(len: bv32, directed: bv32, rx: bool)
    ensures ModeFor(Decode(SubmitWord(len, !rx, directed)), len, directed, rx)
  {
    hide SubmitWord, Decode;
    SubmittedIsOwned(len, !rx, directed);
    if len < 0x800 {
      SubmittedLen(len, !rx, directed);
      SubmittedPort(len, !rx, directed);
      SubmittedFlags(len, !rx, directed);
    }
  }

  lemma PacketCarried(item: Item, p: Packet, minLen: bv32, rx: bool)
    requires item.token == p.token && item.mode == PacketMode(p, minLen, rx)
    ensures Carries(item, Padded(p, minLen), p, minLen, rx)
  {
    hide SubmitWord, Decode, AtLeast, LengthFor, ModeFor;
    LengthIsFor(p.len, minLen);
    ModeIsFor(Padded(p, minLen), p.directed, rx);
  }

  /** The first part of `cpdma_chan_submit_si`: allocate, map and fill a descriptor. */
  method NewDesc(ch: Chan, p: Packet, minLen: bv32) returns (ret: int, desc: int)
    requires ch.Health() == Sound
    modifies ch.pool
    ensures ch.Health() == Sound
    ensures ret == if old(ch.pool.free) == {} then -ENOMEM else if !p.mapOk then -EINVAL else 0
    ensures ret != 0 ==> ch.pool.free == old(ch.pool.free) && ch.pool.mem == old(ch.pool.mem)
    ensures ret == 0 ==> desc in old(ch.pool.free) && desc in ch.pool.mem && ch.pool.free == old(ch.pool.free) - {desc}
    ensures ret == 0 ==> Filled(ch.pool.View(), ch.q, ItemAt(ch.pool, desc)) && ItemAt(ch.pool, desc).token == p.token
    ensures ret == 0 ==> ItemAt(ch.pool, desc).mode == PacketMode(p, minLen, ch.IsRx())
    ensures ret == 0 ==> ch.pool.mem[desc].hwLen == Padded(p, minLen)
    ensures ret == 0 ==> Carries(ItemAt(ch.pool, desc), ch.pool.mem[desc].hwLen, p, minLen, ch.IsRx())
    ensures Kept(ch.pool.addrs - old(ch.pool.free), old(ch.pool.mem), ch.pool.mem)
  {
    hide SubmitWord, Decode;
    var pool := ch.pool;
    ghost var s := pool.View();
    desc := pool.Alloc();
    if desc == 0 {
      return -ENOMEM, 0;
    }
    if !p.mapOk {
      pool.Free(desc);
      assert pool.View() == s;
      return -EINVAL, 0;
    }
    var node := Desc(0, Padded(p, minLen), PacketMode(p, minLen, ch.IsRx()), p.token);
    SubmittedIsOwned(Padded(p, minLen), !ch.IsRx(), p.directed);
    hide PacketMode, Padded, Carries;
    FilledNew(s, ch.q, ch.Fields(), desc, node);
    pool.mem := pool.mem[desc := node];
    assert pool.View() == s.(mem := pool.mem, free := pool.free);
    PacketCarried(ItemAt(pool, desc), p, minLen, ch.IsRx());
    ret := 0;
  }

  /** `cpdma_chan_submit_si`. */
  method SubmitSi(ch: Chan, p: Packet, minLen: bv32) returns (ret: int, ghost item: Item)
    requires ch.Health() == Sound && ch.state != TEARDOWN
    modifies ch`head, ch`tail, ch`count, ch`engineAt, ch`fetched, ch`q, ch`submitted, ch.pool
    ensures ch.Health() == Sound
    ensures ret == if old(ch.count) >= ch.descNum || old(ch.pool.free) == {} then -ENOMEM
                   else if !p.mapOk then -EINVAL else 0
    ensures ret != 0 ==> ch.q == old(ch.q) && ch.submitted == old(ch.submitted) && ch.pool.free == old(ch.pool.free)
    ensures ret == 0 ==> ch.q == SubmitItem(old(ch.q), item).q && ch.submitted == old(ch.submitted) + [p.token]
    ensures ret == 0 ==> item.token == p.token && item.mode.owner && item.addr in old(ch.pool.free)
    ensures ret == 0 ==> item.mode == PacketMode(p, minLen, ch.IsRx())
    ensures ret == 0 ==>
              item.addr in ch.pool.mem && Carries(item, ch.pool.mem[item.addr].hwLen, p, minLen, ch.IsRx())
    ensures ret == 0 ==> ch.pool.free == old(ch.pool.free) - {item.addr}
    ensures ch.Reach() == old(ch.Reach())
    ensures Kept(ch.pool.addrs - old(ch.Reach()), old(ch.pool.mem), ch.pool.mem)
  {
    hide Represents, Inv, Pending, Filled, Held, SubmitItem, PacketMode, Carries;
    if ch.count >= ch.descNum {
      return -ENOMEM, Item(0, 0, EMPTY_MODE);
    }
    var desc;
    item := Item(0, 0, EMPTY_MODE);
    ret, desc := NewDesc(ch, p, minLen);
    if ret == 0 {
      item := ItemAt(ch.pool, desc);
      FilledIsOwned(ch.pool.View(), ch.q, item);
      FilledApart(ch.pool.View(), ch.q, item);
      SubmitKeepsInv(ch.q, item);
      SubmitHolds(ch.q, item);
      LinkDesc(ch, desc);
      ch.count := ch.count + 1;
    }
  }

  lemma FilledApart(s: Space, q: Queue, item: Item)
    requires Filled(s, q, item)
    ensures item.addr in s.addrs && item.addr in s.mem && item.addr !in Held(q)
  {}

  lemma FilledIsOwned(s: Space, q: Queue, item: Item)
    requires Filled(s, q, item)
    ensures item.mode.owner
  {}

  lemma SubmitHolds(q: Queue, item: Item)
    ensures Held(SubmitItem(q, item).q) == Held(q) + {item.addr}
    ensures |SubmitItem(q, item).q.items| == |q.items| + 1
    ensures SubmitItem(q, item).q.state == q.state && SubmitItem(q, item).q.inFlight == q.inFlight
  {
    var r := SubmitItem(q, item).q;
    assert forall i :: 0 <= i < |q.items| ==> r.items[i].addr == q.items[i].addr;
    assert r.items[|q.items|].addr == item.addr;
    assert Addrs(r.items) == Addrs(q.items) + {item.addr};
  }

  /** `cpdma_chan_submit` and `cpdma_chan_submit_mapped`; with `idle`, the two
      `cpdma_chan_idle_submit` variants. */
  method Submit(ch: Chan, p: Packet, minLen: bv32, idle: bool) returns (ret: int, ghost item: Item)
    requires ch.Health() == Sound
    modifies ch`head, ch`tail, ch`count, ch`engineAt, ch`fetched, ch`q, ch`submitted, ch.pool
    ensures ch.Health() == Sound
    ensures ret == if (if idle then old(ch.state) == TEARDOWN else old(ch.state) != ACTIVE) then -EINVAL
                   else if old(ch.count) >= ch.descNum || old(ch.pool.free) == {} then -ENOMEM
                   else if !p.mapOk then -EINVAL else 0
    ensures ret != 0 ==> ch.q == old(ch.q) && ch.submitted == old(ch.submitted) && ch.pool.free == old(ch.pool.free)
    ensures ret == 0 ==> ch.q == SubmitItem(old(ch.q), item).q && ch.submitted == old(ch.submitted) + [p.token]
    ensures ret == 0 ==> item.token == p.token && item.mode.owner && item.addr in old(ch.pool.free)
    ensures ret == 0 ==> item.mode == PacketMode(p, minLen, ch.IsRx())
    ensures ret == 0 ==>
              item.addr in ch.pool.mem && Carries(item, ch.pool.mem[item.addr].hwLen, p, minLen, ch.IsRx())
    ensures ret == 0 ==> ch.pool.free == old(ch.pool.free) - {item.addr}
    ensures ch.Reach() == old(ch.Reach())
    ensures Kept(ch.pool.addrs - old(ch.Reach()), old(ch.pool.mem), ch.pool.mem)
  {
    hide Represents, Inv, Pending, Held, SubmitItem, PacketMode, Carries;
    if (if idle then ch.state == TEARDOWN else ch.state != ACTIVE) {
      return -EINVAL, Item(0, 0, EMPTY_MODE);
    }
    ret, item := SubmitSi(ch, p, minLen);
  }

  // ---- Taking descriptors back -------------------------------------------------

  /** The engine is past the head of the chain. */
  predicate HeadIsFree(q: Queue) { q.engine.Idle? || q.engine.cur > q.taken }

  lemma TakenNodes(s: Space, q: Queue, r: Regs)
    requires Represents(s, q, r) && q.items != []
    ensures forall i :: 0 <= i < |q.items| - 1 ==> NodeAt(s.geo, s.mem, q.items[1..], i)
  {
    forall i | 0 <= i < |q.items| - 1
      ensures NodeAt(s.geo, s.mem, q.items[1..], i)
    {
      assert NodeAt(s.geo, s.mem, q.items, i + 1);
    }
  }

  lemma TakenHeld(q: Queue)
    requires q.items != [] && q.inFlight.None? && Distinct(q.items)
    ensures Addrs(q.items) == {q.items[0].addr} + Addrs(q.items[1..])
    ensures q.items[0].addr !in Addrs(q.items[1..])
    ensures Held(TakeHead(q)) == Held(q)
  {
    assert forall i :: 0 < i < |q.items| ==> q.items[i] == q.items[1..][i - 1];
  }

  /** Following the link of the head descriptor takes it off the chain. */
  lemma Taken(ch: Chan)
    requires ch.Health() != Broken && ch.q.items != [] && ch.q.inFlight.None? && HeadIsFree(ch.q)
    ensures ch.head in ch.pool.mem && ch.head == ch.q.items[0].addr
    ensures var next := DescFromPhys(ch.pool.geo, ch.pool.mem[ch.head].hwNext);
            && Represents(ch.pool.View(), TakeHead(ch.q), ch.Fields().(head := next))
            && next == if |ch.q.items| > 1 then ch.q.items[1].addr else 0
    ensures Pending(TakeHead(ch.q)) == Pending(ch.q) && Held(TakeHead(ch.q)) == Held(ch.q)
    ensures TakeHead(ch.q).state == ch.q.state
  {
    var s, q := ch.pool.View(), ch.q;
    NodeOf(ch, 0);
    TakenNodes(s, q, ch.Fields());
    TakenHeld(q);
    TakeFifo(q);
    if |q.items| > 1 {
      NodeOf(ch, 1);
    }
  }

  /** Take the head descriptor off the chain. */
  method TakeOff(ch: Chan) returns (desc: int)
    requires ch.Health() != Broken && ch.q.items != [] && ch.q.inFlight.None? && HeadIsFree(ch.q)
    modifies ch`head, ch`count, ch`q
    ensures ch.Health() != Broken && ch.q == TakeHead(old(ch.q)) && ch.count == old(ch.count) - 1
    ensures desc == old(ch.head) == old(ch.q.items[0].addr)
    ensures Held(ch.q) == old(Held(ch.q))
  {
    hide Represents, Inv, Pending, Held, TakeHead;
    Taken(ch);
    desc := ch.head;
    ch.head := DescFromPhys(ch.pool.geo, ch.pool.mem[desc].hwNext);
    ch.count := ch.count - 1;
    ch.q := TakeHead(ch.q);
  }

  /** What the invariant says about the head of the chain. */
  lemma HeadFacts(ch: Chan)
    requires ch.Health() == Sound
    ensures ch.state == ch.q.state && ch.count == |ch.q.items| && Inv(ch.q)
    ensures ch.head == 0 <==> ch.q.items == []
    ensures ch.q.items != [] ==>
              && ch.head == ch.q.items[0].addr && ch.head in ch.pool.mem
              && ch.pool.mem[ch.head].hwMode == ch.q.items[0].mode
              && ch.pool.mem[ch.head].swToken == ch.q.items[0].token
              && (ch.state != IDLE && !ch.q.items[0].mode.owner ==> HeadIsFree(ch.q))
    ensures ch.state == TEARDOWN ==> HeadIsFree(ch.q)
  {
    HeadIsNull(ch.pool.View(), ch.q, ch.Fields());
    if ch.q.items != [] {
      NodeOf(ch, 0);
    }
  }

  lemma ProcessForms(q: Queue)
    requires q.items != []
    ensures CanTake(q) <==> !q.items[0].mode.owner
    ensures var q1 := TakeHead(q);
            && |q1.items| == |q.items| - 1 && q1.state == q.state && q1.inFlight == Some(q.items[0])
            && (q1.items != [] ==> q1.items[0] == q.items[1])
            && Started(q1, q1.taken + 0).inFlight == q1.inFlight && Started(q1, q1.taken + 0).items == q1.items
    ensures CanTake(q) ==>
              var q1 := TakeHead(q);
              ProcessHead(q).q == if q.items[0].mode.eoq && q1.items != [] then Started(q1, q1.taken + 0) else q1
  {}

  /** The locked part of `__cpdma_chan_process`. */
  method Dequeue(ch: Chan) returns (ret: int, desc: int, mode: Mode)
    requires ch.Health() == Sound && ch.state != IDLE && ch.q.inFlight.None?
    modifies ch`head, ch`count, ch`engineAt, ch`fetched, ch`q
    ensures ch.Health() == Sound && ch.q == ProcessHead(old(ch.q)).q
    ensures ret == if old(ch.q.items) == [] then -ENOENT else if !CanTake(old(ch.q)) then -EBUSY else 0
    ensures ret != 0 ==> ch.q == old(ch.q)
    ensures ret == 0 ==> ch.q.inFlight == Some(old(ch.q.items[0])) && desc == old(ch.q.items[0].addr)
    ensures ret == 0 ==> mode == old(ch.q.items[0].mode)
    ensures Held(ch.q) == old(Held(ch.q))
  {
    hide Represents, Inv, Pending, Held, TakeHead, CanTake, ProcessHead, HeadIsFree, Started;
    HeadFacts(ch);
    desc, mode := ch.head, EMPTY_MODE;
    if desc == 0 {
      BlockedForms(ch.q);
      return -ENOENT, desc, mode;
    }
    mode := ch.pool.mem[desc].hwMode;
    ProcessForms(ch.q);
    ProcessKeepsInv(ch.q);
    if mode.owner {
      BlockedForms(ch.q);
      return -EBUSY, desc, mode;
    }
    desc := TakeOff(ch);
    NextOf(ch);
    if mode.eoq && ch.head != 0 {
      StartAt(ch, ch.head, 0);
    }
    ret := 0;
  }

  lemma BlockedForms(q: Queue)
    ensures !CanTake(q) ==> ProcessHead(q).q == q
    ensures CanTake(q) <==> q.items != [] && !q.items[0].mode.owner
  {}

  lemma NextOf(ch: Chan)
    requires ch.Health() != Broken
    ensures ch.state == ch.q.state && (ch.head == 0 <==> ch.q.items == [])
    ensures ch.q.items != [] ==> ch.q.items[0].addr == ch.head
  {
    HeadIsNull(ch.pool.View(), ch.q, ch.Fields());
  }

  // ---- Handing tokens over --------------------------------------------------------

  lemma FreedKept(s: Space, q: Queue, r: Regs)
    requires Represents(s, q, r) && q.inFlight.Some?
    ensures q.inFlight.value.addr in s.mem && s.mem[q.inFlight.value.addr].swToken == q.inFlight.value.token
    ensures var a := q.inFlight.value.addr;
            && Represents(s.(free := s.free + {a}), CallHandler(q).q, r)
            && Held(q) == Held(CallHandler(q).q) + {a}
  {
    var q' := CallHandler(q).q;
    assert Represents(s, q', r);
    OthersKept(s, s.(free := s.free + {q.inFlight.value.addr}), q', r);
  }

  lemma HandedTokens(q: Queue, handed: seq<int>, submitted: seq<int>)
    requires q.inFlight.Some? && handed + Pending(q) == submitted
    ensures (handed + [q.inFlight.value.token]) + Pending(CallHandler(q).q) == submitted
  {
    var q' := CallHandler(q).q;
    assert Pending(q') == Tokens(q.items);
    assert handed + ([q.inFlight.value.token] + Tokens(q.items)) ==
      (handed + [q.inFlight.value.token]) + Tokens(q.items);
  }

  lemma CallbackFrame(q: Queue)
    requires q.inFlight.Some? && Inv(q)
    ensures var q' := CallHandler(q).q;
            Inv(q') && q'.items == q.items && q'.state == q.state && q'.inFlight.None? && q'.taken == q.taken
  {
    StepKeepsInv(q, Callback);
  }

  /** `__cpdma_chan_free` up to the call of the handler. */
  method FreeDesc(ch: Chan, desc: int) returns (token: int)
    requires ch.Health() == Sound && ch.q.inFlight.Some? && ch.q.inFlight.value.addr == desc
    modifies ch`q, ch`handed, ch.pool`free
    ensures ch.Health() == Sound && ch.q == CallHandler(old(ch.q)).q
    ensures token == old(ch.q).inFlight.value.token && ch.handed == old(ch.handed) + [token]
    ensures ch.pool.free == old(ch.pool.free) + {desc} && ch.Reach() == old(ch.Reach())
  {
    hide Represents, Inv, Pending, Held, CallHandler;
    ghost var s := ch.pool.View();
    FreedKept(s, ch.q, ch.Fields());
    HandedTokens(ch.q, ch.handed, ch.submitted);
    CallbackFrame(ch.q);
    token := ch.pool.mem[desc].swToken;
    ch.pool.Free(desc);
    assert ch.pool.View() == s.(free := s.free + {desc});
    ch.handed := ch.handed + [token];
    ch.q := CallHandler(ch.q).q;
  }

  /** The handler runs: it may submit a packet in turn, in the ACTIVE state only. */
  method RunHandler(ch: Chan, token: int, minLen: bv32) returns (ghost resubmitted: bool, ghost item: Item)
    requires ch.Health() == Sound
    modifies ch`head, ch`tail, ch`count, ch`engineAt, ch`fetched, ch`q, ch`submitted, ch.pool
    ensures ch.Health() == Sound
    ensures resubmitted ==> ch.state == ACTIVE && ch.reply(token).Some? && item.token == ch.reply(token).value.token
    ensures resubmitted ==> ch.q == SubmitItem(old(ch.q), item).q && item.mode.owner
    ensures resubmitted ==> ch.submitted == old(ch.submitted) + [item.token]
    ensures !resubmitted ==> ch.q == old(ch.q) && ch.submitted == old(ch.submitted) && ch.pool.free == old(ch.pool.free)
    ensures ch.Reach() == old(ch.Reach())
    ensures Kept(ch.pool.addrs - old(ch.Reach()), old(ch.pool.mem), ch.pool.mem)
  {
    hide Represents, Inv, Pending, Held, SubmitItem;
    resubmitted, item := false, Item(0, 0, EMPTY_MODE);
    var answer := ch.reply(token);
    if answer.Some? {
      var ret;
      ret, item := Submit(ch, answer.value, minLen, false);
      resubmitted := ret == 0;
    }
  }

  /** `__cpdma_chan_process`: take one descriptor, free it and call the handler. */
  method ProcessOne(ch: Chan, minLen: bv32) returns (ret: int, mode: Mode, ghost resubmitted: bool, ghost item: Item)
    requires ch.Health() == Sound && ch.state != IDLE && ch.q.inFlight.None?
    modifies ch`head, ch`tail, ch`count, ch`engineAt, ch`fetched, ch`q, ch`submitted, ch`handed, ch.pool
    ensures ch.Health() == Sound && ch.q.inFlight.None? && ch.state == old(ch.state)
    ensures ret == if old(ch.q.items) == [] then -ENOENT else if !CanTake(old(ch.q)) then -EBUSY else 0
    ensures ret != 0 ==> ch.q == old(ch.q) && ch.handed == old(ch.handed)
    ensures ret != 0 ==> ch.submitted == old(ch.submitted) && ch.pool.free == old(ch.pool.free)
    ensures ret == 0 ==> mode == old(ch.q.items[0].mode) && ch.handed == old(ch.handed) + [old(ch.q.items[0].token)]
    ensures ret == 0 ==> ch.q == var q1 := CallHandler(ProcessHead(old(ch.q)).q).q;
                                 if resubmitted then SubmitItem(q1, item).q else q1
    ensures resubmitted ==> ret == 0 && ch.state == ACTIVE && item.mode.owner
    ensures ch.submitted == old(ch.submitted) + (if resubmitted then [item.token] else [])
    ensures ch.Reach() == old(ch.Reach())
    ensures Kept(ch.pool.addrs - old(ch.Reach()), old(ch.pool.mem), ch.pool.mem)
  {
    hide Represents, Inv, Pending, Held, SubmitItem, ProcessHead, CanTake;
    resubmitted, item := false, Item(0, 0, EMPTY_MODE);
    var desc;
    ret, desc, mode := Dequeue(ch);
    if ret == 0 {
      var token := FreeDesc(ch, desc);
      ghost var q1 := ch.q;
      resubmitted, item := RunHandler(ch, token, minLen);
      SubmitHolds(q1, item);
    }
  }

  /** `cpdma_chan_process`. It hands over `used` tokens, the oldest ones first, and stops
      early only at an empty chain or at a descriptor the engine still owns. */
  method Process(ch: Chan, quota: int, minLen: bv32) returns (used: int)
    requires ch.Health() == Sound && ch.q.inFlight.None?
    modifies ch`head, ch`tail, ch`count, ch`engineAt, ch`fetched, ch`q, ch`submitted, ch`handed, ch.pool
    ensures ch.Health() == Sound && ch.q.inFlight.None? && ch.state == old(ch.state)
    ensures old(ch.state) != ACTIVE ==> used == -EINVAL && ch.q == old(ch.q) && ch.handed == old(ch.handed)
    ensures old(ch.state) == ACTIVE ==> 0 <= used && (used <= quota || used == 0)
    ensures old(ch.state) == ACTIVE ==> |ch.handed| == |old(ch.handed)| + used && ch.q.taken == old(ch.q).taken + used
    ensures old(ch.handed) <= ch.handed && old(ch.submitted) <= ch.submitted
    ensures old(ch.state) == ACTIVE && used < quota ==> !CanTake(ch.q)
    ensures ch.Reach() == old(ch.Reach())
    ensures Kept(ch.pool.addrs - old(ch.Reach()), old(ch.pool.mem), ch.pool.mem)
  {
    hide Represents, Inv, Pending, Held, SubmitItem, CanTake, ProcessHead;
    if ch.state != ACTIVE {
      return -EINVAL;
    }
    used := 0;
    while used < quota
      invariant ch.Health() == Sound && ch.q.inFlight.None? && ch.state == ACTIVE
      invariant 0 <= used && (used <= quota || used == 0)
      invariant |ch.handed| == |old(ch.handed)| + used && ch.q.taken == old(ch.q).taken + used
      invariant old(ch.handed) <= ch.handed && old(ch.submitted) <= ch.submitted
      invariant ch.Reach() == old(ch.Reach())
      invariant Kept(ch.pool.addrs - old(ch.Reach()), old(ch.pool.mem), ch.pool.mem)
    {
      ghost var q0 := ch.q;
      BlockedForms(q0);
      var ret, mode, resubmitted, item := ProcessOne(ch, minLen);
      if ret < 0 {
        break;
      }
      ProcessedOne(q0, item);
      used := used + 1;
    }
  }

  lemma ProcessedOne(q: Queue, item: Item)
    requires CanTake(q)
    ensures var q1 := CallHandler(ProcessHead(q).q).q;
            && q1.taken == q.taken + 1 && q1.items == q.items[1..]
            && SubmitItem(q1, item).q.taken == q.taken + 1
  {}

  // ---- Switching on and off ---------------------------------------------------------

  /** `cpdma_chan_on`; `up` tells whether the controller is ACTIVE. */
  method SwitchChanOn(ch: Chan, up: bool) returns (ret: int)
    requires ch.Health() == Sound
    modifies ch`state, ch`engineAt, ch`fetched, ch`q
    ensures ch.Health() == Sound
    ensures ret == if old(ch.state) != IDLE then -EBUSY else if !up then -EINVAL else 0
    ensures ch.q == if ret == 0 then SwitchOn(old(ch.q)).q else old(ch.q)
    ensures ret != 0 ==> ch.state == old(ch.state)
    ensures Held(ch.q) == old(Held(ch.q))
  {
    hide Represents, Pending, Inv, Held, Started, SwitchOn;
    if ch.state != IDLE {
      return -EBUSY;
    }
    if !up {
      return -EINVAL;
    }
    SwitchForms(ch);
    ch.state := ACTIVE;
    ch.q := ch.q.(state := ACTIVE);
    NextOf(ch);
    if ch.head != 0 {
      StartAt(ch, ch.head, 0);
    }
    ret := 0;
  }

  lemma SwitchForms(ch: Chan)
    requires ch.Health() == Sound && ch.state == IDLE
    ensures var q1 := ch.q.(state := ACTIVE);
            && Represents(ch.pool.View(), q1, ch.Fields()) && Pending(q1) == Pending(ch.q) && Held(q1) == Held(ch.q)
            && Inv(SwitchOn(ch.q).q) && |SwitchOn(ch.q).q.items| == |ch.q.items|
            && SwitchOn(ch.q).q == if q1.items == [] then q1 else Started(q1, q1.taken + 0)
  {
    StepKeepsInv(ch.q, TurnOnStep);
  }

  lemma StopForms(ch: Chan)
    requires ch.Health() == Sound && ch.state != TEARDOWN
    ensures var q1 := ch.q.(engine := Idle, state := TEARDOWN);
            && Represents(ch.pool.View(), q1, ch.Fields().(engineAt := 0, fetched := None))
            && Pending(q1) == Pending(ch.q) && Held(q1) == Held(ch.q) && Inv(q1)
  {}

  /** What the engine is working on, if anything. */
  lemma EngineFacts(ch: Chan)
    requires ch.Health() != Broken && Inv(ch.q)
    ensures ch.q.engine.Busy? ==> ch.q.taken <= ch.q.engine.cur < ch.q.Next() && ch.state == ACTIVE
    ensures ch.q.engine.Idle? <==> ch.engineAt == 0
    ensures ch.q.engine.Busy? ==>
              var desc := ch.q.items[ch.q.engine.cur - ch.q.taken].addr;
              DescFromPhys(ch.pool.geo, ch.engineAt) == desc && desc in ch.pool.mem && desc in Held(ch.q)
  {
    if ch.q.engine.Busy? {
      var desc := ch.q.items[ch.q.engine.cur - ch.q.taken].addr;
      NodeOf(ch, ch.q.engine.cur - ch.q.taken);
      PhysOfDesc(ch.pool.geo, desc);
    }
  }

  /** The start of `cpdma_chan_stop`, up to the acknowledged teardown. Before the engine
      goes quiet it may write the mode word of its descriptor once more. */
  method Teardown(ch: Chan, last: Option<Mode>)
    requires ch.Health() == Sound && ch.state != TEARDOWN
    modifies ch`state, ch`engineAt, ch`fetched, ch`q, ch.pool`mem
    ensures ch.Health() == Sound && ch.state == TEARDOWN && ch.q == BeginStop(old(ch.q), last).q
    ensures Held(ch.q) == old(Held(ch.q)) && Kept(ch.pool.addrs - old(ch.Reach()), old(ch.pool.mem), ch.pool.mem)
  {
    hide Represents, Pending, Inv, Held;
    ghost var q0 := ch.q;
    EngineFacts(ch);
    StopForms(ch);
    var desc := DescFromPhys(ch.pool.geo, ch.engineAt);
    var busy := ch.engineAt != 0;
    ch.state := TEARDOWN;
    ch.engineAt := 0;
    ch.fetched := None;
    ch.q := ch.q.(engine := Idle, state := TEARDOWN);
    if busy && last.Some? {
      TeardownInv(q0, last);
      WriteMode(ch, desc, last.value, q0.engine.cur - q0.taken);
    }
  }

  lemma TeardownInv(q: Queue, last: Option<Mode>)
    ensures Inv(BeginStop(q, last).q)
  {}

  /** `cpdma_chan_stop`. Whatever was in the chain is handed over, in order, and the
      descriptors go back to the pool. */
  method Stop(ch: Chan, last: Option<Mode>, minLen: bv32) returns (ret: int)
    requires ch.Health() == Sound && ch.q.inFlight.None?
    modifies ch`head, ch`tail, ch`count, ch`state, ch`engineAt, ch`fetched, ch`q, ch`submitted, ch`handed, ch.pool
    ensures ch.Health() == Sound && ch.q.inFlight.None?
    ensures ret == if old(ch.state) == TEARDOWN then -EINVAL else 0
    ensures ret == 0 ==> ch.state == IDLE && ch.q.items == [] && ch.count == 0
    ensures ret == 0 ==> ch.handed == ch.submitted == old(ch.submitted)
    ensures ret == 0 ==> ch.pool.free == old(ch.Reach())
    ensures ret != 0 ==> ch.q == old(ch.q) && ch.handed == old(ch.handed) && ch.pool.free == old(ch.pool.free)
    ensures ch.Reach() == old(ch.Reach())
    ensures Kept(ch.pool.addrs - old(ch.Reach()), old(ch.pool.mem), ch.pool.mem)
  {
    hide Represents, Inv, Pending, Held, SubmitItem, CanTake, ProcessHead, TakeHead;
    if ch.state == TEARDOWN {
      return -EINVAL;
    }
    Teardown(ch, last);
    DrainDone(ch, minLen);
    CleanUp(ch, minLen);
    StoppedForms(ch);
    ch.state := IDLE;
    ch.q := ch.q.(state := IDLE);
    ret := 0;
  }

  lemma StoppedForms(ch: Chan)
    requires ch.Health() == Sound && ch.state == TEARDOWN && ch.q.items == [] && ch.q.inFlight.None?
    ensures Represents(ch.pool.View(), ch.q.(state := IDLE), ch.Fields()) && Inv(ch.q.(state := IDLE))
    ensures Pending(ch.q) == Pending(ch.q.(state := IDLE)) == []
    ensures Held(ch.q.(state := IDLE)) == Held(ch.q) == {}
    ensures ch.handed + [] == ch.handed
  {}

  /** The first `d` descriptors are done, and none of them carries the teardown mark. */
  ghost predicate Unmarked(items: seq<Item>, d: nat) {
    d <= |items| && forall i :: 0 <= i < d ==> !items[i].mode.owner && !items[i].mode.tdComplete
  }

  /** What a drain leaves: it ends before the first descriptor the engine still owns, or
      behind the first one with the teardown mark. */
  ghost predicate DrainedUpTo(items: seq<Item>, rest: seq<Item>) {
    exists d: nat :: DrainedAt(items, d, rest)
  }

  ghost predicate DrainedAt(items: seq<Item>, d: nat, rest: seq<Item>) {
    && Unmarked(items, d)
    && if d == |items| || items[d].mode.owner then rest == items[d..]
       else items[d].mode.tdComplete && rest == items[d + 1..]
  }

  lemma DrainEnds(items: seq<Item>, d: nat)
    requires Unmarked(items, d)
    ensures d == |items| || items[d].mode.owner ==> DrainedUpTo(items, items[d..])
    ensures d < |items| ==> items[d..][0] == items[d] && items[d..][1..] == items[d + 1..]
    ensures d < |items| && !items[d].mode.owner && items[d].mode.tdComplete ==> DrainedUpTo(items, items[d + 1..])
  {
    if d == |items| || items[d].mode.owner {
      assert DrainedAt(items, d, items[d..]);
    } else if items[d].mode.tdComplete {
      assert DrainedAt(items, d, items[d + 1..]);
    }
  }

  /** "handle completed packets": process until one is owned by the engine, none is left
      or one carries the teardown mark. */
  method DrainDone(ch: Chan, minLen: bv32)
    requires ch.Health() == Sound && ch.q.inFlight.None? && ch.state == TEARDOWN
    modifies ch`head, ch`tail, ch`count, ch`engineAt, ch`fetched, ch`q, ch`submitted, ch`handed, ch.pool
    ensures ch.Health() == Sound && ch.q.inFlight.None? && ch.state == TEARDOWN
    ensures ch.submitted == old(ch.submitted)
    ensures DrainedUpTo(old(ch.q).items, ch.q.items)
    ensures ch.Reach() == old(ch.Reach())
    ensures Kept(ch.pool.addrs - old(ch.Reach()), old(ch.pool.mem), ch.pool.mem)
  {
    hide Represents, Inv, Pending, Held, SubmitItem, CanTake, ProcessHead, DrainedUpTo;
    ghost var d := 0;
    while true
      invariant ch.Health() == Sound && ch.q.inFlight.None? && ch.state == TEARDOWN
      invariant ch.submitted == old(ch.submitted)
      invariant d <= |old(ch.q).items| && ch.q.items == old(ch.q).items[d..]
      invariant Unmarked(old(ch.q).items, d)
      invariant ch.Reach() == old(ch.Reach())
      invariant Kept(ch.pool.addrs - old(ch.Reach()), old(ch.pool.mem), ch.pool.mem)
      decreases |ch.q.items|
    {
      ghost var q0 := ch.q;
      BlockedForms(q0);
      DrainEnds(old(ch.q).items, d);
      var ret, mode, resubmitted, item := ProcessOne(ch, minLen);
      if ret < 0 {
        break;
      }
      ProcessedOne(q0, item);
      if mode.tdComplete {
        break;
      }
      d := d + 1;
    }
  }

  /** "remaining packets haven't been tx/rx'ed": take them off unconditionally. */
  method CleanUp(ch: Chan, minLen: bv32)
    requires ch.Health() == Sound && ch.q.inFlight.None? && ch.state == TEARDOWN
    modifies ch`head, ch`tail, ch`count, ch`engineAt, ch`fetched, ch`q, ch`submitted, ch`handed, ch.pool
    ensures ch.Health() == Sound && ch.q.inFlight.None? && ch.state == TEARDOWN
    ensures ch.q.items == [] && ch.submitted == old(ch.submitted)
    ensures ch.Reach() == old(ch.Reach())
    ensures Kept(ch.pool.addrs - old(ch.Reach()), old(ch.pool.mem), ch.pool.mem)
  {
    hide Represents, Inv, Pending, Held, SubmitItem, CanTake, ProcessHead, TakeHead;
    HeadFacts(ch);
    while ch.head != 0
      invariant ch.Health() == Sound && ch.q.inFlight.None? && ch.state == TEARDOWN
      invariant ch.head == 0 <==> ch.q.items == []
      invariant ch.submitted == old(ch.submitted)
      invariant ch.Reach() == old(ch.Reach())
      invariant Kept(ch.pool.addrs - old(ch.Reach()), old(ch.pool.mem), ch.pool.mem)
      decreases |ch.q.items|
    {
      HeadFacts(ch);
      CleanupForms(ch.q);
      var desc := TakeOff(ch);
      var token := FreeDesc(ch, desc);
      var resubmitted, item := RunHandler(ch, token, minLen);
      HeadFacts(ch);
    }
  }

  lemma CleanupForms(q: Queue)
    requires q.items != [] && q.state == TEARDOWN && Inv(q)
    ensures var q1 := TakeHead(q);
            Inv(q1) && |q1.items| == |q.items| - 1 && q1.inFlight == Some(q.items[0]) && q1.state == TEARDOWN
  {}

  // ---- The engine ---------------------------------------------------------------------

  /** The engine reads the link of the descriptor it works on. */
  method EngineFetch(ch: Chan)
    requires ch.Health() != Broken && Inv(ch.q) && ch.engineAt != 0 && ch.fetched.None?
    modifies ch`fetched, ch`q
    ensures ch.Health() == old(ch.Health()) && Inv(ch.q)
    ensures ch.q.engine.Busy? && Enabled(old(ch.q), Fetch) && ch.q == FetchLink(old(ch.q)).q
    ensures Held(ch.q) == old(Held(ch.q))
  {
    EngineFacts(ch);
    FetchForms(ch);
    hide Represents, Inv, Pending, Held, Enabled;
    ch.fetched := Some(ch.pool.mem[DescFromPhys(ch.pool.geo, ch.engineAt)].hwNext);
    ch.q := FetchLink(ch.q).q;
  }

  lemma FetchForms(ch: Chan)
    requires ch.Health() != Broken && Inv(ch.q) && ch.q.engine.Busy? && ch.fetched.None?
    ensures var desc := DescFromPhys(ch.pool.geo, ch.engineAt);
            var q1 := FetchLink(ch.q).q;
            && desc in ch.pool.mem && Enabled(ch.q, Fetch) && |q1.items| == |ch.q.items|
            && Represents(ch.pool.View(), q1, ch.Fields().(fetched := Some(ch.pool.mem[desc].hwNext)))
            && Inv(q1) && Pending(q1) == Pending(ch.q) && Held(q1) == Held(ch.q)
  {
    hide Distinct, SpaceOk;
    EngineFacts(ch);
    StepKeepsInv(ch.q, Fetch);
    assert NodeAt(ch.pool.geo, ch.pool.mem, ch.q.items, ch.q.engine.cur - ch.q.taken);
  }

  function EngineNext(q: Queue): Queue
    requires q.engine.Busy?
  {
    q.(engine := if q.engine.latch == SawEnd then Idle else Busy(q.engine.cur + 1, NotFetched))
  }

  lemma ReleaseForms(q: Queue, mode: Mode)
    requires q.engine.Busy? && q.taken <= q.engine.cur < q.Next()
    ensures Release(q, mode).q == EngineNext(WithMode(q, q.engine.cur - q.taken, mode))
    ensures WithMode(q, q.engine.cur - q.taken, mode).engine == q.engine
    ensures |Release(q, mode).q.items| == |q.items| && Release(q, mode).q.state == q.state
  {}

  lemma MoveOn(ch: Chan)
    requires ch.Health() != Broken && ch.q.engine.Busy? && ch.fetched.Some?
    ensures var q1 := EngineNext(ch.q);
            && Represents(ch.pool.View(), q1, ch.Fields().(engineAt := ch.fetched.value, fetched := None))
            && Pending(q1) == Pending(ch.q) && Held(q1) == Held(ch.q)
  {
    assert Tokens(EngineNext(ch.q).items) == Tokens(ch.q.items);
  }

  /** What the engine saw decides whether it stops. */
  lemma LatchFacts(ch: Chan)
    requires ch.Health() != Broken && Inv(ch.q) && ch.q.engine.Busy? && ch.fetched.Some?
    ensures ch.q.engine.latch != NotFetched
    ensures ch.q.engine.latch == SawEnd <==> ch.fetched == Some(0)
  {
    if ch.q.engine.latch == SawNext {
      NodeOf(ch, ch.q.engine.cur + 1 - ch.q.taken);
      PhysOfDesc(ch.pool.geo, ch.q.items[ch.q.engine.cur + 1 - ch.q.taken].addr);
    }
  }

  /** The engine writes back the mode word and goes on to the link it read before. */
  method EngineComplete(ch: Chan, mode: Mode)
    requires ch.Health() != Broken && Inv(ch.q) && ch.engineAt != 0 && ch.fetched.Some?
    requires !mode.owner && (mode.eoq <==> ch.fetched == Some(0))
    modifies ch`engineAt, ch`fetched, ch`q, ch.pool`mem
    ensures ch.Health() == old(ch.Health()) && Inv(ch.q)
    ensures Enabled(old(ch.q), Complete(mode)) && ch.q == Release(old(ch.q), mode).q
    ensures Held(ch.q) == old(Held(ch.q)) && Kept(ch.pool.addrs - old(Held(ch.q)), old(ch.pool.mem), ch.pool.mem)
  {
    hide Represents, Inv, Pending, Held, Release, EngineNext, WithMode;
    ghost var q0 := ch.q;
    EngineFacts(ch);
    LatchFacts(ch);
    ReleaseForms(q0, mode);
    StepKeepsInv(q0, Complete(mode));
    WriteMode(ch, DescFromPhys(ch.pool.geo, ch.engineAt), mode, q0.engine.cur - q0.taken);
    MoveOn(ch);
    ch.engineAt := ch.fetched.value;
    ch.fetched := None;
    ch.q := EngineNext(ch.q);
  }

  // ---- A submit with the engine at work ---------------------------------------------------

  /** What one step of the engine does to the chain. */
  ghost predicate EngineMoved(q: Queue, step: Option<Step>, q': Queue) {
    && |q'.items| == |q.items| && (forall i :: 0 <= i < |q.items| ==> q'.items[i].addr == q.items[i].addr)
    && match step
       case None => q' == q
       case Some(s) => (s.Fetch? || s.Complete?) && Enabled(q, s) && q' == Apply(q, s).q
  }

  lemma EngineMoves(q: Queue, s: Step)
    requires (s.Fetch? || s.Complete?) && Enabled(q, s)
    ensures EngineMoved(q, Some(s), Apply(q, s).q)
    ensures s.Fetch? ==> Apply(q, s).q == FetchLink(q).q
    ensures s.Complete? ==> Apply(q, s).q == Release(q, s.mode).q
  {}

  /** One step of the engine, if it is working: read the link, or release its descriptor. */
  method EngineStep(ch: Chan, mode: Mode) returns (ghost step: Option<Step>)
    requires ch.Health() != Broken && Inv(ch.q)
    modifies ch`engineAt, ch`fetched, ch`q, ch.pool`mem
    ensures ch.Health() == old(ch.Health()) && Inv(ch.q) && Held(ch.q) == old(Held(ch.q))
    ensures Kept(ch.pool.addrs - old(Held(ch.q)), old(ch.pool.mem), ch.pool.mem)
    ensures EngineMoved(old(ch.q), step, ch.q)
  {
    hide Inv, Held, Represents, Pending, Enabled, Apply, FetchLink, Release;
    step := None;
    if ch.engineAt != 0 {
      if ch.fetched.None? {
        EngineFetch(ch);
        step := Some(Fetch);
        EngineMoves(old(ch.q), Fetch);
      } else {
        var last := mode.(owner := false, eoq := ch.fetched == Some(0));
        EngineComplete(ch, last);
        step := Some(Complete(last));
        EngineMoves(old(ch.q), Complete(last));
      }
    }
  }

  lemma RunMoved(f: Fine, steps: seq<FineStep>, q: Queue, step: Option<Step>, q': Queue)
    requires Shaped(f) && FineValid(f, steps) && FineRun(f, steps).f == Fine(q, true) && EngineMoved(q, step, q')
    ensures var steps' := if step.Some? then steps + [Other(step.value)] else steps;
            FineValid(f, steps') && FineRun(f, steps').f == Fine(q', true)
  {
    if step.Some? {
      FineThen(f, steps, Other(step.value));
    }
  }

  /** The look at the descriptor before ends the submit. */
  lemma RunChecked(f: Fine, steps: seq<FineStep>, q: Queue, n: nat)
    requires Shaped(f) && FineValid(f, steps) && FineRun(f, steps).f == Fine(q, true) && |q.items| == n + 1
    ensures n >= 1 && FineValid(f, steps + [Check]) && FineRun(f, steps + [Check]).f == Fine(Repaired(q, n), false)
  {
    hide FineRun, FineValid;
    FineThen(f, steps, Check);
  }

  lemma RunLinked(q: Queue, item: Item)
    requires Inv(q) && q.state != TEARDOWN && item.mode.owner
    ensures var steps := [Link(item)];
            && FineValid(Fine(q, false), steps)
            && FineRun(Fine(q, false), steps).f ==
               if q.items == [] then Fine(SubmitItem(q, item).q, false) else Fine(Append(q, item), true)
    ensures q.items != [] ==> Inv(Append(q, item))
  {
    assert [Link(item)][1..] == [];
    if q.items != [] {
      LinkKeepsInv(q, item);
    }
  }

  lemma HeldAppended(q: Queue, item: Item)
    ensures Held(Append(q, item)) == Held(q) + {item.addr}
  {
    AppendHeld(q, item);
  }

  lemma MovedForms(q: Queue, step: Option<Step>, q': Queue)
    requires EngineMoved(q, step, q')
    ensures |q'.items| == |q.items| && forall i :: 0 <= i < |q.items| ==> q'.items[i].addr == q.items[i].addr
    ensures step.Some? ==> !step.value.Submit?
  {}

  /** `__cpdma_chan_submit` while the engine takes up to `|modes|` steps between the write of
      the link and the look at the mode word before it: a run of the finer protocol. */
  method LinkRaced(ch: Chan, desc: int, modes: seq<Mode>) returns (ghost steps: seq<FineStep>)
    requires ch.Health() != Broken && Inv(ch.q) && ch.state != TEARDOWN
    requires desc in ch.pool.mem && Filled(ch.pool.View(), ch.q, ItemAt(ch.pool, desc))
    modifies ch`head, ch`tail, ch`engineAt, ch`fetched, ch`q, ch`submitted, ch.pool`mem
    ensures ch.Health() != Broken
    ensures FineValid(Fine(old(ch.q), false), steps) && FineRun(Fine(old(ch.q), false), steps).f == Fine(ch.q, false)
    ensures FineSubmitted(steps) == [old(ItemAt(ch.pool, desc)).token]
    ensures ch.submitted == old(ch.submitted) + FineSubmitted(steps)
    ensures Kept(ch.pool.addrs - old(Held(ch.q)) - {desc}, old(ch.pool.mem), ch.pool.mem)
  {
    hide Represents, Inv, Pending, Filled, Held, SubmitItem, Append, Repaired, Started, WithMode, Chan.Health,
      Chan.Shape, FineRun, FineValid, FineSubmitted, EngineMoved;
    ghost var q0, n, item := ch.q, |ch.q.items|, ItemAt(ch.pool, desc);
    ghost var f0 := Fine(q0, false);
    SubmitForms(q0, item);
    TailIsLast(ch);
    AppendItems(q0, item);
    FilledIsOwned(ch.pool.View(), q0, item);
    RunLinked(q0, item);
    SubmittedOne(Link(item));
    HeldAppended(q0, item);
    var prev := ch.tail;
    var wasEmpty := Chain(ch, desc);
    steps := [Link(item)];
    if !wasEmpty {
      for k := 0 to |modes|
        invariant ch.Health() != Broken && Inv(ch.q) && |ch.q.items| == n + 1
        invariant ch.q.items[n - 1].addr == prev && ch.q.items[n].addr == desc
        invariant FineValid(f0, steps) && FineRun(f0, steps).f == Fine(ch.q, true)
        invariant FineSubmitted(steps) == [item.token] && ch.submitted == old(ch.submitted) + [item.token]
        invariant Held(ch.q) == old(Held(ch.q)) + {desc}
        invariant Kept(ch.pool.addrs - old(Held(ch.q)) - {desc}, old(ch.pool.mem), ch.pool.mem)
      {
        ghost var q := ch.q;
        ghost var step := EngineStep(ch, modes[k]);
        RunMoved(f0, steps, q, step, ch.q);
        MovedForms(q, step, ch.q);
        if step.Some? {
          SubmittedThen(steps, Other(step.value));
          steps := steps + [Other(step.value)];
        }
      }
      RunChecked(f0, steps, ch.q, n);
      SubmittedThen(steps, Check);
      RepairMissed(ch, prev, desc, n);
      steps := steps + [Check];
    } else if ch.state == ACTIVE {
      StartAt(ch, desc, n);
    }
  }
}
