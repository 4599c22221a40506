/** The bit-packed entries of the ALE lookup table.

  An entry has 96 bits in three words; word 0 holds the highest bits. Every field lies
  within one word. The layout of VLAN entries is the one of the "cpsw" switch with three
  ports.
 */
module AleCodec {
  import opened WordField

  datatype Entry = Entry(w0: bv32, w1: bv32, w2: bv32) {
    /** Bit 0 of the entry is bit 0 of the last word. */
    function Word(idx: bv8): bv32 {
      if idx == 0 then w0 else if idx == 1 then w1 else w2
    }

    function WithWord(idx: bv8, w: bv32): Entry {
      if idx == 0 then this.(w0 := w) else if idx == 1 then this.(w1 := w) else this.(w2 := w)
    }
  }

  const BLANK := Entry(0, 0, 0)

  // ---- Fields by position -------------------------------------------------------------

  function Flip(start: bv8): bv8 { 2 - start / 32 }

  function Shift(start: bv8): (s: bv6)
    ensures s < 32
  {
    (start % 32) as bv6
  }

  /** `cpsw_ale_get_field`. */
  function GetField(e: Entry, start: bv8, bits: bv6): bv32
    requires bits < 32
  {
    Extract(e.Word(Flip(start)), Shift(start), bits)
  }

  /** `cpsw_ale_set_field`. */
  function SetField(e: Entry, start: bv8, bits: bv6, value: bv32): Entry
    requires bits < 32
  {
    e.WithWord(Flip(start), Insert(e.Word(Flip(start)), Shift(start), bits, value))
  }

  /** A field within the entry and within one of its words. */
  predicate Field(start: bv8, bits: bv6) {
    start < 96 && InWord(Shift(start), bits)
  }

  predicate Disjoint(start: bv8, bits: bv6, start': bv8, bits': bv6) {
    start + (bits as bv8) <= start' || start' + (bits' as bv8) <= start
  }

  lemma DisjointInWord(start: bv8, bits: bv6, start': bv8, bits': bv6)
    requires Field(start, bits) && Field(start', bits') && Disjoint(start, bits, start', bits')
               && Flip(start) == Flip(start')
    ensures Beside(Shift(start), bits, Shift(start'), bits')
  {}

  /** What is written is read back, cut to the width of the field. */
  lemma SetThenGet(e: Entry, start: bv8, bits: bv6, value: bv32)
    requires Field(start, bits)
    ensures GetField(SetField(e, start, bits, value), start, bits) == value & Mask(bits)
  {
    hide Insert, Extract, Mask, Shift;
    InsertExtracts(e.Word(Flip(start)), Shift(start), bits, value);
  }

  /** Every disjoint field stays as it is. */
  lemma SetKeepsOthers(e: Entry, start: bv8, bits: bv6, value: bv32, start': bv8, bits': bv6)
    requires Field(start, bits) && Field(start', bits') && Disjoint(start, bits, start', bits')
    ensures GetField(SetField(e, start, bits, value), start', bits') == GetField(e, start', bits')
  {
    hide Insert, Extract, Mask, Shift, Disjoint, Beside, InWord;
    if Flip(start) == Flip(start') {
      DisjointInWord(start, bits, start', bits');
      InsertKeeps(e.Word(Flip(start)), Shift(start), bits, value, Shift(start'), bits');
    }
  }

  // ---- Fields by name -------------------------------------------------------------------

  datatype Fld =
    | TYPE | VID | STATE | SECURE | SUPER | PORT_MASK | PORT_NUM | GROUP
    | BYTE0 | BYTE1 | BYTE2 | BYTE3 | BYTE4 | BYTE5
    | MEMBERS | UNREG | REG | UNTAG

  function Start(f: Fld): bv8 {
    match f
    case TYPE => 60
    case VID => 48
    case STATE => 62
    case SECURE => 64
    case SUPER => 65
    case PORT_MASK => 66
    case PORT_NUM => 66
    case GROUP => 40
    case BYTE0 => 40
    case BYTE1 => 32
    case BYTE2 => 24
    case BYTE3 => 16
    case BYTE4 => 8
    case BYTE5 => 0
    case MEMBERS => 0
    case UNREG => 8
    case REG => 16
    case UNTAG => 24
  }

  function Bits(f: Fld): (bits: bv6)
    ensures 0 < bits < 32
  {
    match f
    case TYPE | STATE | PORT_NUM => 2
    case VID => 12
    case SECURE | SUPER | GROUP => 1
    case PORT_MASK | MEMBERS | UNREG | REG | UNTAG => 3
    case BYTE0 | BYTE1 | BYTE2 | BYTE3 | BYTE4 | BYTE5 => 8
  }

  function Get(e: Entry, f: Fld): bv32 { GetField(e, Start(f), Bits(f)) }

  function Set(e: Entry, f: Fld, value: bv32): Entry { SetField(e, Start(f), Bits(f), value) }

  predicate Apart(f: Fld, g: Fld) {
    Disjoint(Start(f), Bits(f), Start(g), Bits(g))
  }

  lemma AllFields(f: Fld)
    ensures Field(Start(f), Bits(f))
  {}

  function Places(f: Fld): bv32 { InPlace(Shift(Start(f)), Bits(f)) }

  /** The layout once more, as the bits of the words: address entries use all three words,
      VLAN entries the last one for their masks. */
  lemma UpperLayout()
    ensures Flip(Start(SECURE)) == Flip(Start(SUPER)) == Flip(Start(PORT_MASK)) == Flip(Start(PORT_NUM)) == 0
    ensures Places(SECURE) == 0x1 && Places(SUPER) == 0x2 && Places(PORT_MASK) == 0x1c && Places(PORT_NUM) == 0xc
    ensures Flip(Start(TYPE)) == Flip(Start(VID)) == Flip(Start(STATE)) == Flip(Start(GROUP)) == 1
    ensures Places(TYPE) == 0x3000_0000 && Places(VID) == 0x0fff_0000 && Places(STATE) == 0xc000_0000
              && Places(GROUP) == 0x100
  {}

  lemma AddrLayout()
    ensures Flip(Start(BYTE0)) == Flip(Start(BYTE1)) == 1 && Places(BYTE0) == 0xff00 && Places(BYTE1) == 0xff
    ensures Flip(Start(BYTE2)) == Flip(Start(BYTE3)) == Flip(Start(BYTE4)) == Flip(Start(BYTE5)) == 2
    ensures Places(BYTE2) == 0xff00_0000 && Places(BYTE3) == 0xff_0000 && Places(BYTE4) == 0xff00
              && Places(BYTE5) == 0xff
  {}

  lemma VlanLayout()
    ensures Flip(Start(MEMBERS)) == Flip(Start(UNREG)) == Flip(Start(REG)) == Flip(Start(UNTAG)) == 2
    ensures Places(MEMBERS) == 0x7 && Places(UNREG) == 0x700 && Places(REG) == 0x7_0000 && Places(UNTAG) == 0x700_0000
  {}

  lemma SetFrame(e: Entry, f: Fld, value: bv32)
    ensures Get(Set(e, f, value), f) == value & Mask(Bits(f))
    ensures forall g :: Apart(f, g) ==> Get(Set(e, f, value), g) == Get(e, g)
  {
    hide GetField, SetField, Field, Disjoint, Start, Mask, Bits;
    AllFields(f);
    SetThenGet(e, Start(f), Bits(f), value);
    forall g | Apart(f, g) ensures Get(Set(e, f, value), g) == Get(e, g) {
      AllFields(g);
      SetKeepsOthers(e, Start(f), Bits(f), value, Start(g), Bits(g));
    }
  }

  // ---- Entries as rows ---------------------------------------------------------------------

  const FREE: bv32 := 0
  const ADDR: bv32 := 1
  const VLAN: bv32 := 2
  const VLAN_ADDR: bv32 := 3

  /** A set of the three ports; port 0 is the host. */
  datatype Ports = Ports(p0: bool, p1: bool, p2: bool) {
    predicate Has(port: int) { (port == 0 && p0) || (port == 1 && p1) || (port == 2 && p2) }
    predicate Empty() { !p0 && !p1 && !p2 }
    function Union(o: Ports): Ports { Ports(p0 || o.p0, p1 || o.p1, p2 || o.p2) }
    function Minus(o: Ports): Ports { Ports(p0 && !o.p0, p1 && !o.p1, p2 && !o.p2) }
    function Meet(o: Ports): Ports { Ports(p0 && o.p0, p1 && o.p1, p2 && o.p2) }
    predicate Within(o: Ports) { (p0 ==> o.p0) && (p1 ==> o.p1) && (p2 ==> o.p2) }
  }

  const NONE := Ports(false, false, false)
  const HOST := Ports(true, false, false)

  /** The ports of a mask; other bits have no port. */
  function PortsOf(mask: bv32): Ports {
    Ports(mask & 1 != 0, mask & 2 != 0, mask & 4 != 0)
  }

  function Or(a: bv32, b: bv32): bv32 { a | b }
  function And(a: bv32, b: bv32): bv32 { a & b }
  function AndNot(a: bv32, b: bv32): bv32 { a & !b }

  lemma PortsAlgebra(a: bv32, b: bv32)
    ensures PortsOf(Or(a, b)) == PortsOf(a).Union(PortsOf(b))
    ensures PortsOf(And(a, b)) == PortsOf(a).Meet(PortsOf(b))
    ensures PortsOf(AndNot(a, b)) == PortsOf(a).Minus(PortsOf(b))
  {}

  /** Port `n` is bit `n` of a mask. */
  lemma SinglePorts(mask: bv32)
    ensures PortsOf(mask).Has(0) <==> mask & 1 == 1
    ensures PortsOf(mask).Has(1) <==> (mask >> 1) & 1 == 1
    ensures PortsOf(mask).Has(2) <==> (mask >> 2) & 1 == 1
  {}

  /** A mask of three bits is zero exactly if it has no ports. */
  predicate Narrow(mask: bv32) { mask & !7 == 0 }

  lemma NarrowPorts(a: bv32, b: bv32)
    ensures Narrow(a) ==> (a == 0 <==> PortsOf(a).Empty())
    ensures Narrow(a) ==> Narrow(And(a, b)) && Narrow(AndNot(a, b))
    ensures PortsOf(0) == NONE && (PortsOf(a).p0 <==> a & 1 != 0)
  {}

  datatype Mac = Mac(b0: bv8, b1: bv8, b2: bv8, b3: bv8, b4: bv8, b5: bv8) {
    predicate Group() { b0 & 1 == 1 }
  }

  const BROADCAST := Mac(0xff, 0xff, 0xff, 0xff, 0xff, 0xff)

  function Byte(v: bv32): bv8 { (v & 0xff) as bv8 }

  function GetAddr(e: Entry): Mac {
    Mac(Byte(Get(e, BYTE0)), Byte(Get(e, BYTE1)), Byte(Get(e, BYTE2)),
        Byte(Get(e, BYTE3)), Byte(Get(e, BYTE4)), Byte(Get(e, BYTE5)))
  }

  /** Three address bytes, from the first to the last. */
  function SetBytes(e: Entry, f: Fld, g: Fld, h: Fld, b: bv8, c: bv8, d: bv8): Entry {
    Set(Set(Set(e, f, b as bv32), g, c as bv32), h, d as bv32)
  }

  function SetAddr(e: Entry, mac: Mac): Entry {
    SetBytes(SetBytes(e, BYTE0, BYTE1, BYTE2, mac.b0, mac.b1, mac.b2), BYTE3, BYTE4, BYTE5, mac.b3, mac.b4, mac.b5)
  }

  /** A VLAN identifier as the kernel passes it, in 16 bits. */
  datatype Vid = Vid(n: bv16)

  function Wide(vid: Vid): bv32 { vid.n as bv32 }

  function VidOf(v: bv32): Vid { Vid((v & 0xffff) as bv16) }

  /** What an entry means. A unicast row keeps its port number in the lower two ports. */
  datatype Row =
    | Free
    | Addr(tagged: bool, vid: Vid, mac: Mac, state: bv32, secure: bool, super: bool, ports: Ports)
    | Vlan(vid: Vid, members: Ports, untag: Ports, reg: Ports, unreg: Ports)

  function Decode(e: Entry): Row {
    var t := Get(e, TYPE);
    if t == FREE then Free
    else if t == VLAN then
      Vlan(VidOf(Get(e, VID)), PortsOf(Get(e, MEMBERS)), PortsOf(Get(e, UNTAG)), PortsOf(Get(e, REG)),
          PortsOf(Get(e, UNREG)))
    else
      Addr(t == VLAN_ADDR, VidOf(Get(e, VID)), GetAddr(e), Get(e, STATE), Get(e, SECURE) == 1, Get(e, SUPER) == 1,
           PortsOf(Get(e, PORT_MASK)))
  }

  // ---- Where a row stands in the words ---------------------------------------------------------------

  /** The bits of a word from bit `s` on. */
  function Part(w: bv32, s: bv6, mask: bv32): bv32
    requires s < 32
  {
    Down(w, s) & mask
  }

  lemma Masks()
    ensures Mask(1) == 1 && Mask(2) == 3 && Mask(3) == 7 && Mask(8) == 0xff && Mask(12) == 0xfff
  {}

  lemma KindParts(e: Entry)
    ensures Get(e, TYPE) == Part(e.w1, 28, 3) && Get(e, VID) == Part(e.w1, 16, 0xfff)
  {
    hide Mask, Down;
    Masks();
  }

  lemma MaskParts(e: Entry)
    ensures Get(e, MEMBERS) == Part(e.w2, 0, 7) && Get(e, UNREG) == Part(e.w2, 8, 7)
    ensures Get(e, REG) == Part(e.w2, 16, 7) && Get(e, UNTAG) == Part(e.w2, 24, 7)
  {
    hide Mask, Down;
    Masks();
  }

  lemma AddrParts(e: Entry)
    ensures Get(e, STATE) == Part(e.w1, 30, 3) && Get(e, SECURE) == Part(e.w0, 0, 1)
    ensures Get(e, SUPER) == Part(e.w0, 1, 1) && Get(e, PORT_MASK) == Part(e.w0, 2, 7)
  {
    hide Mask, Down;
    Masks();
  }

  lemma FirstBytes(e: Entry)
    ensures Get(e, BYTE0) == Part(e.w1, 8, 0xff) && Get(e, BYTE1) == Part(e.w1, 0, 0xff)
    ensures Get(e, BYTE2) == Part(e.w2, 24, 0xff)
  {
    hide Mask, Down;
    Masks();
  }

  lemma LastBytes(e: Entry)
    ensures Get(e, BYTE3) == Part(e.w2, 16, 0xff)
    ensures Get(e, BYTE4) == Part(e.w2, 8, 0xff) && Get(e, BYTE5) == Part(e.w2, 0, 0xff)
  {
    hide Mask, Down;
    Masks();
  }

  /** The kinds of rows, and the VID and the masks of a VLAN row. */
  lemma VlanBits(e: Entry)
    ensures Decode(e).Vlan? <==> Part(e.w1, 28, 3) == 2
    ensures Decode(e).Free? <==> Part(e.w1, 28, 3) == 0
    ensures Decode(e).Vlan? ==>
              && Decode(e).vid == VidOf(Part(e.w1, 16, 0xfff))
              && Decode(e).members == PortsOf(Part(e.w2, 0, 7)) && Decode(e).unreg == PortsOf(Part(e.w2, 8, 7))
              && Decode(e).reg == PortsOf(Part(e.w2, 16, 7)) && Decode(e).untag == PortsOf(Part(e.w2, 24, 7))
  {
    hide PortsOf, VidOf, Get, Part, GetAddr;
    KindParts(e);
    MaskParts(e);
  }

  /** The fields of an address row; its last address byte is the lowest byte. */
  lemma AddrBits(e: Entry)
    ensures Decode(e).Addr? ==>
              && (Decode(e).tagged <==> Part(e.w1, 28, 3) == 3)
              && Decode(e).vid == VidOf(Part(e.w1, 16, 0xfff)) && Decode(e).state == Part(e.w1, 30, 3)
              && (Decode(e).secure <==> Part(e.w0, 0, 1) == 1) && (Decode(e).super <==> Part(e.w0, 1, 1) == 1)
              && Decode(e).ports == PortsOf(Part(e.w0, 2, 7))
              && Decode(e).mac == Mac(Byte(Part(e.w1, 8, 0xff)), Byte(Part(e.w1, 0, 0xff)), Byte(Part(e.w2, 24, 0xff)),
                                      Byte(Part(e.w2, 16, 0xff)), Byte(Part(e.w2, 8, 0xff)), Byte(Part(e.w2, 0, 0xff)))
  {
    hide PortsOf, VidOf, Get, Part, Byte;
    KindParts(e);
    AddrParts(e);
    FirstBytes(e);
    LastBytes(e);
  }

  /** The lowest bit of the first address byte is the group bit. */
  lemma GroupBit(e: Entry)
    ensures Get(e, GROUP) == 1 <==> GetAddr(e).Group()
    ensures Get(e, GROUP) != 0 <==> Get(e, GROUP) == 1
  {}

  lemma ByteFrame(e: Entry, f: Fld, b: bv8)
    requires Bits(f) == 8
    ensures Byte(Get(Set(e, f, b as bv32), f)) == b
    ensures forall g :: Apart(f, g) ==> Get(Set(e, f, b as bv32), g) == Get(e, g)
  {
    hide Get, Set, Apart, Bits, Mask;
    SetFrame(e, f, b as bv32);
    ByteMask(b);
  }

  lemma ByteMask(b: bv8)
    ensures Byte((b as bv32) & Mask(8)) == b
  {}

  /** The fields above the address. */
  predicate Upper(g: Fld) {
    g.TYPE? || g.VID? || g.STATE? || g.SECURE? || g.SUPER? || g.PORT_MASK? || g.PORT_NUM?
  }

  predicate AddrByte(f: Fld) {
    f.BYTE0? || f.BYTE1? || f.BYTE2? || f.BYTE3? || f.BYTE4? || f.BYTE5?
  }

  lemma BytesApart(f: Fld, g: Fld)
    ensures AddrByte(f) && AddrByte(g) && f != g ==> Apart(f, g)
    ensures AddrByte(f) && Upper(g) ==> Apart(f, g)
  {}

  lemma BytesFrame(e: Entry, f: Fld, g: Fld, h: Fld, b: bv8, c: bv8, d: bv8)
    requires AddrByte(f) && AddrByte(g) && AddrByte(h) && f != g && g != h && f != h
    ensures var e' := SetBytes(e, f, g, h, b, c, d);
            && Byte(Get(e', f)) == b && Byte(Get(e', g)) == c && Byte(Get(e', h)) == d
            && forall i :: Apart(f, i) && Apart(g, i) && Apart(h, i) ==> Get(e', i) == Get(e, i)
  {
    hide Get, Set, Byte, Apart, AddrByte;
    ByteBits(f);
    ByteBits(g);
    ByteBits(h);
    BytesApart(g, f);
    BytesApart(h, f);
    BytesApart(h, g);
    ByteFrame(e, f, b);
    ByteFrame(Set(e, f, b as bv32), g, c);
    ByteFrame(Set(Set(e, f, b as bv32), g, c as bv32), h, d);
  }

  lemma ByteBits(f: Fld)
    requires AddrByte(f)
    ensures Bits(f) == 8
  {}

  lemma AddrRoundTrip(e: Entry, mac: Mac)
    ensures GetAddr(SetAddr(e, mac)) == mac
    ensures forall g :: Upper(g) ==> Get(SetAddr(e, mac), g) == Get(e, g)
  {
    hide Get, SetBytes, Byte, Apart, Upper;
    BytesFrame(e, BYTE0, BYTE1, BYTE2, mac.b0, mac.b1, mac.b2);
    BytesFrame(SetBytes(e, BYTE0, BYTE1, BYTE2, mac.b0, mac.b1, mac.b2), BYTE3, BYTE4, BYTE5, mac.b3, mac.b4, mac.b5);
    forall f, g ensures AddrByte(f) && AddrByte(g) && f != g ==> Apart(f, g) {
      BytesApart(f, g);
    }
    forall f, g ensures AddrByte(f) && Upper(g) ==> Apart(f, g) {
      BytesApart(f, g);
    }
  }

  // ---- What the driver writes ---------------------------------------------------------------

  /** The fields of an address entry. */
  datatype View = View(kind: bv32, vid: bv32, state: bv32, secure: bv32, super: bv32, ports: bv32, addr: Mac)

  function ViewOf(e: Entry): View {
    View(Get(e, TYPE), Get(e, VID), Get(e, STATE), Get(e, SECURE), Get(e, SUPER), Get(e, PORT_MASK), GetAddr(e))
  }

  /** A value cut to the width of its field. */
  function Cutoff(f: Fld, value: bv32): bv32 { value & Full(f) }

  /** The largest value of a field. */
  function Full(f: Fld): bv32 {
    match f
    case TYPE | STATE | PORT_NUM => 3
    case VID => 0xfff
    case SECURE | SUPER | GROUP => 1
    case PORT_MASK | MEMBERS | UNREG | REG | UNTAG => 7
    case BYTE0 | BYTE1 | BYTE2 | BYTE3 | BYTE4 | BYTE5 => 0xff
  }

  lemma CutoffIs(f: Fld, value: bv32)
    ensures value & Mask(Bits(f)) == Cutoff(f, value)
  {
    hide Mask, Full, Bits;
    MaskIs(f);
  }

  lemma MaskIs(f: Fld)
    ensures Mask(Bits(f)) == Full(f)
  {
    hide Mask;
    MaskValues();
  }

  lemma MaskValues()
    ensures Mask(1) == 1 && Mask(2) == 3 && Mask(3) == 7 && Mask(8) == 0xff && Mask(12) == 0xfff
  {}

  function WithField(v: View, f: Fld, value: bv32): View
    requires Upper(f)
  {
    match f
    case TYPE => v.(kind := value)
    case VID => v.(vid := value)
    case STATE => v.(state := value)
    case SECURE => v.(secure := value)
    case SUPER => v.(super := value)
    case PORT_MASK => v.(ports := value)
    case PORT_NUM => v.(ports := (v.ports & 4) | value)
  }

  lemma SetView(e: Entry, f: Fld, value: bv32)
    requires Upper(f) && !f.PORT_NUM?
    ensures ViewOf(Set(e, f, value)) == WithField(ViewOf(e), f, Cutoff(f, value))
  {
    hide Get, Set, Apart, Start, Mask, Byte, AddrByte, Cutoff, Bits;
    SetFrame(e, f, value);
    CutoffIs(f, value);
    OthersApart(f);
  }

  lemma OthersApart(f: Fld)
    requires Upper(f)
    ensures !f.TYPE? ==> Apart(f, TYPE)
    ensures !f.VID? ==> Apart(f, VID)
    ensures !f.STATE? ==> Apart(f, STATE)
    ensures !f.SECURE? ==> Apart(f, SECURE)
    ensures !f.SUPER? ==> Apart(f, SUPER)
    ensures !f.PORT_MASK? && !f.PORT_NUM? ==> Apart(f, PORT_MASK)
    ensures Apart(f, BYTE0) && Apart(f, BYTE1) && Apart(f, BYTE2) && Apart(f, BYTE3) && Apart(f, BYTE4)
              && Apart(f, BYTE5)
  {}

  /** The port number takes the lower two bits of the port mask. */
  lemma SetPortNumView(e: Entry, value: bv32)
    ensures ViewOf(Set(e, PORT_NUM, value)) == WithField(ViewOf(e), PORT_NUM, value & 3)
  {
    hide Get, Set, Apart, Start, Mask, Byte;
    SetFrame(e, PORT_NUM, value);
    OthersApart(PORT_NUM);
    PortNumMask(e, value);
  }

  lemma PortNumMask(e: Entry, value: bv32)
    ensures Get(Set(e, PORT_NUM, value), PORT_MASK) == (Get(e, PORT_MASK) & 4) | (value & 3)
  {}

  lemma SetAddrView(e: Entry, mac: Mac)
    ensures ViewOf(SetAddr(e, mac)) == ViewOf(e).(addr := mac)
  {
    hide Get, SetAddr, GetAddr;
    AddrRoundTrip(e, mac);
  }

  function Bit(b: bool): bv32 { if b then 1 else 0 }

  /** The 12-bit VID of an entry. */
  function Cut(vid: Vid): Vid { Vid(vid.n & 0xfff) }

  function SetVlanEntryType(e: Entry, tagged: bool, vid: Vid): Entry {
    if tagged then Set(Set(e, TYPE, VLAN_ADDR), VID, Wide(vid)) else Set(e, TYPE, ADDR)
  }

  function UcastEntry(mac: Mac, port: bv32, tagged: bool, secure: bool, blocked: bool, vid: Vid): Entry {
    var e0 := SetVlanEntryType(BLANK, tagged, vid);
    var e1 := SetAddr(e0, mac);
    var e2 := Set(e1, STATE, 0);
    var e3 := Set(e2, SECURE, Bit(secure));
    var e4 := Set(e3, SUPER, Bit(blocked));
    Set(e4, PORT_NUM, port)
  }

  function McastEntry(e: Entry, mac: Mac, portMask: bv32, tagged: bool, super: bool, vid: Vid, state: bv32): Entry {
    var e0 := SetVlanEntryType(e, tagged, vid);
    var e1 := SetAddr(e0, mac);
    var e2 := Set(e1, SUPER, Bit(super));
    var e3 := Set(e2, STATE, state);
    Set(e3, PORT_MASK, Or(portMask, Get(e3, PORT_MASK)))
  }

  lemma BlankView()
    ensures ViewOf(BLANK) == View(0, 0, 0, 0, 0, 0, Mac(0, 0, 0, 0, 0, 0))
  {
    hide Get;
    forall f ensures Get(BLANK, f) == 0 {
      BlankFields(f);
    }
  }

  lemma BlankFields(f: Fld)
    ensures Get(BLANK, f) == 0
  {
    hide Mask, Start, Bits;
    NoBitsLeft(Shift(Start(f)), Mask(Bits(f)));
  }

  lemma NoBitsLeft(s: bv6, m: bv32)
    requires s < 32
    ensures Down(0, s) & m == 0
  {}

  lemma TypeCuts()
    ensures Cutoff(TYPE, ADDR) == ADDR && Cutoff(TYPE, VLAN) == VLAN && Cutoff(TYPE, VLAN_ADDR) == VLAN_ADDR
  {}

  lemma TypeView(e: Entry, tagged: bool, vid: Vid)
    ensures ViewOf(SetVlanEntryType(e, tagged, vid)) ==
              if tagged then ViewOf(e).(kind := VLAN_ADDR, vid := Cutoff(VID, Wide(vid))) else ViewOf(e).(kind := ADDR)
  {
    hide Get, Set, ViewOf, GetAddr, Cutoff, Wide;
    TypeCuts();
    SetView(e, TYPE, if tagged then VLAN_ADDR else ADDR);
    SetView(Set(e, TYPE, VLAN_ADDR), VID, Wide(vid));
  }

  function RowOf(v: View): Row {
    Addr(v.kind == VLAN_ADDR, VidOf(v.vid), v.addr, v.state, v.secure == 1, v.super == 1, PortsOf(v.ports))
  }

  lemma AddrView(e: Entry)
    ensures Get(e, TYPE) == ADDR || Get(e, TYPE) == VLAN_ADDR ==> Decode(e) == RowOf(ViewOf(e))
    ensures Decode(e).Addr? <==> Get(e, TYPE) == ADDR || Get(e, TYPE) == VLAN_ADDR
    ensures ViewOf(e).kind == Get(e, TYPE)
  {
    TypeRange(e);
    hide Get, GetAddr, PortsOf, VidOf;
  }

  lemma TypeRange(e: Entry)
    ensures Get(e, TYPE) == FREE || Get(e, TYPE) == ADDR || Get(e, TYPE) == VLAN || Get(e, TYPE) == VLAN_ADDR
  {}

  /** The first two edits of an address entry. */
  lemma KeyView(e: Entry, mac: Mac, tagged: bool, vid: Vid)
    ensures ViewOf(SetAddr(SetVlanEntryType(e, tagged, vid), mac)) ==
              ViewOf(e).(kind := if tagged then VLAN_ADDR else ADDR,
                         vid := if tagged then Cutoff(VID, Wide(vid)) else ViewOf(e).vid, addr := mac)
  {
    hide Get, Set, ViewOf, GetAddr, SetAddr, SetVlanEntryType, Wide, Cutoff;
    TypeView(e, tagged, vid);
    SetAddrView(SetVlanEntryType(e, tagged, vid), mac);
  }

  lemma UcastView(mac: Mac, port: bv32, tagged: bool, secure: bool, blocked: bool, vid: Vid)
    ensures ViewOf(UcastEntry(mac, port, tagged, secure, blocked, vid)) ==
              View(if tagged then VLAN_ADDR else ADDR, if tagged then Cutoff(VID, Wide(vid)) else 0, Cutoff(STATE, 0),
                   Cutoff(SECURE, Bit(secure)), Cutoff(SUPER, Bit(blocked)), port & 3, mac)
  {
    var e0 := SetVlanEntryType(BLANK, tagged, vid);
    var e1 := SetAddr(e0, mac);
    var e2 := Set(e1, STATE, 0);
    var e3 := Set(e2, SECURE, Bit(secure));
    var e4 := Set(e3, SUPER, Bit(blocked));
    hide Get, Set, ViewOf, GetAddr, SetAddr, SetVlanEntryType, Bit, Wide, Cutoff;
    BlankView();
    KeyView(BLANK, mac, tagged, vid);
    SetView(e1, STATE, 0);
    SetView(e2, SECURE, Bit(secure));
    SetView(e3, SUPER, Bit(blocked));
    SetPortNumView(e4, port);
    NoHighPort(port);
  }

  lemma NoHighPort(port: bv32)
    ensures (0 & 4) | (port & 3) == port & 3
  {}

  lemma UcastRow(mac: Mac, port: bv32, tagged: bool, secure: bool, blocked: bool, vid: Vid)
    ensures Decode(UcastEntry(mac, port, tagged, secure, blocked, vid)) ==
              Addr(tagged, if tagged then Cut(vid) else Vid(0), mac, 0, secure, blocked, PortsOf(port & 3))
  {
    hide Get, ViewOf, UcastEntry, Decode, PortsOf, VidOf, Cut, Bit, Wide, Cutoff;
    BitCut(secure);
    BitCut(blocked);
    NoState();
    UcastView(mac, port, tagged, secure, blocked, vid);
    AddrView(UcastEntry(mac, port, tagged, secure, blocked, vid));
    VidCut(vid);
  }

  lemma NoState()
    ensures Cutoff(STATE, 0) == 0
  {}

  lemma BitCut(b: bool)
    ensures Cutoff(SECURE, Bit(b)) == Cutoff(SUPER, Bit(b)) == Bit(b) && (Bit(b) == 1 <==> b)
  {}

  lemma VidCut(vid: Vid)
    ensures VidOf(Cutoff(VID, Wide(vid))) == Cut(vid) && VidOf(0) == Vid(0)
  {}

  /** A multicast row after `add_mcast`; the row before is Free when there was none. */
  function Joined(row: Row, mac: Mac, portMask: bv32, tagged: bool, super: bool, vid: Vid, state: bv32): Row {
    var was := if row.Addr? then row else Addr(false, Vid(0), mac, 0, false, false, NONE);
    Addr(tagged, if tagged then Cut(vid) else was.vid, mac, state & 3, was.secure, super,
         PortsOf(portMask).Union(was.ports))
  }

  lemma McastView(e: Entry, mac: Mac, portMask: bv32, tagged: bool, super: bool, vid: Vid, state: bv32)
    ensures var v := ViewOf(e);
            ViewOf(McastEntry(e, mac, portMask, tagged, super, vid, state)) ==
              View(if tagged then VLAN_ADDR else ADDR, if tagged then Cutoff(VID, Wide(vid)) else v.vid,
                   Cutoff(STATE, state), v.secure, Bit(super), Cutoff(PORT_MASK, Or(portMask, v.ports)), mac)
  {
    var e0 := SetVlanEntryType(e, tagged, vid);
    var e1 := SetAddr(e0, mac);
    var e2 := Set(e1, SUPER, Bit(super));
    var e3 := Set(e2, STATE, state);
    hide Get, Set, GetAddr, SetAddr, SetVlanEntryType, Bit, Cutoff, Or, Wide;
    BitCut(super);
    KeyView(e, mac, tagged, vid);
    SetView(e1, SUPER, Bit(super));
    SetView(e2, STATE, state);
    SetView(e3, PORT_MASK, Or(portMask, Get(e3, PORT_MASK)));
  }

  lemma McastRow(e: Entry, mac: Mac, portMask: bv32, tagged: bool, super: bool, vid: Vid, state: bv32)
    requires e == BLANK || Decode(e).Addr?
    ensures Decode(McastEntry(e, mac, portMask, tagged, super, vid, state)) ==
              Joined(if e == BLANK then Free else Decode(e), mac, portMask, tagged, super, vid, state)
  {
    hide Get, McastEntry, GetAddr, Decode, PortsOf, VidOf, Cut, Bit, ViewOf, Or, Wide;
    BitCut(super);
    BlankView();
    McastView(e, mac, portMask, tagged, super, vid, state);
    AddrView(e);
    AddrView(McastEntry(e, mac, portMask, tagged, super, vid, state));
    VidCut(vid);
    UnionCut(portMask, ViewOf(e).ports);
    NoPorts();
  }

  lemma UnionCut(a: bv32, b: bv32)
    ensures PortsOf(Cutoff(PORT_MASK, Or(a, b))) == PortsOf(a).Union(PortsOf(b))
  {}

  lemma NoPorts()
    ensures PortsOf(0) == NONE && VidOf(0) == Vid(0)
  {}

  /** A new port mask of an address entry. */
  lemma PortMaskRow(e: Entry, mask: bv32)
    requires Decode(e).Addr?
    ensures Decode(Set(e, PORT_MASK, mask)) == Decode(e).(ports := PortsOf(mask))
    ensures PortsOf(Get(e, PORT_MASK)) == Decode(e).ports && Narrow(Get(e, PORT_MASK))
  {
    hide Get, Set, GetAddr, Decode, PortsOf, VidOf, Cutoff, Narrow;
    SetView(e, PORT_MASK, mask);
    AddrView(e);
    AddrView(Set(e, PORT_MASK, mask));
    PortsCut(mask);
    PortMaskRange(e);
  }

  lemma PortsCut(mask: bv32)
    ensures PortsOf(Cutoff(PORT_MASK, mask)) == PortsOf(mask)
    ensures Cutoff(MEMBERS, mask) == Cutoff(UNTAG, mask) == Cutoff(REG, mask) == Cutoff(UNREG, mask) ==
              Cutoff(PORT_MASK, mask)
  {
    hide PortsOf, Cutoff;
    ThreePorts(mask);
    PortCutoff(MEMBERS, mask);
    PortCutoff(UNTAG, mask);
    PortCutoff(REG, mask);
    PortCutoff(UNREG, mask);
    PortCutoff(PORT_MASK, mask);
  }

  lemma PortCutoff(f: Fld, mask: bv32)
    requires Full(f) == 7
    ensures Cutoff(f, mask) == mask & 7
  {}

  lemma ThreePorts(mask: bv32)
    ensures PortsOf(mask & 7) == PortsOf(mask)
  {}

  lemma PortMaskRange(e: Entry)
    ensures Narrow(Get(e, PORT_MASK)) && Narrow(Get(e, MEMBERS))
  {}

  lemma FreeRow(e: Entry)
    ensures Decode(Set(e, TYPE, FREE)) == Free
  {
    hide Get, Set, Mask, Bits;
    SetFrame(e, TYPE, FREE);
    CutoffIs(TYPE, FREE);
  }

  // ---- VLAN entries ------------------------------------------------------------------------------

  predicate VlanFld(f: Fld) {
    f.TYPE? || f.VID? || f.MEMBERS? || f.UNTAG? || f.REG? || f.UNREG?
  }

  datatype VlanView = VlanView(kind: bv32, vid: bv32, members: bv32, untag: bv32, reg: bv32, unreg: bv32)

  function VlanViewOf(e: Entry): VlanView {
    VlanView(Get(e, TYPE), Get(e, VID), Get(e, MEMBERS), Get(e, UNTAG), Get(e, REG), Get(e, UNREG))
  }

  function WithVlanField(v: VlanView, f: Fld, value: bv32): VlanView
    requires VlanFld(f)
  {
    match f
    case TYPE => v.(kind := value)
    case VID => v.(vid := value)
    case MEMBERS => v.(members := value)
    case UNTAG => v.(untag := value)
    case REG => v.(reg := value)
    case UNREG => v.(unreg := value)
  }

  lemma SetVlanView(e: Entry, f: Fld, value: bv32)
    requires VlanFld(f)
    ensures VlanViewOf(Set(e, f, value)) == WithVlanField(VlanViewOf(e), f, Cutoff(f, value))
  {
    hide Get, Set, Apart, Start, Mask, Cutoff, Bits;
    SetFrame(e, f, value);
    CutoffIs(f, value);
    VlanApart(f);
  }

  lemma VlanApart(f: Fld)
    requires VlanFld(f)
    ensures !f.TYPE? ==> Apart(f, TYPE)
    ensures !f.VID? ==> Apart(f, VID)
    ensures !f.MEMBERS? ==> Apart(f, MEMBERS)
    ensures !f.UNTAG? ==> Apart(f, UNTAG)
    ensures !f.REG? ==> Apart(f, REG)
    ensures !f.UNREG? ==> Apart(f, UNREG)
  {}

  function SetVlanMasks(e: Entry, members: bv32, untag: bv32, reg: bv32, unreg: bv32): Entry {
    Set(Set(Set(Set(e, UNTAG, untag), REG, reg), UNREG, unreg), MEMBERS, members)
  }

  function VlanEntry(e: Entry, vid: Vid, members: bv32, untag: bv32, reg: bv32, unreg: bv32): Entry {
    SetVlanMasks(Set(Set(e, TYPE, VLAN), VID, Wide(vid)), members, untag, reg, unreg)
  }

  lemma VlanMasksView(e: Entry, members: bv32, untag: bv32, reg: bv32, unreg: bv32)
    ensures VlanViewOf(SetVlanMasks(e, members, untag, reg, unreg)) ==
              VlanView(Get(e, TYPE), Get(e, VID), Cutoff(MEMBERS, members), Cutoff(UNTAG, untag), Cutoff(REG, reg),
                  Cutoff(UNREG, unreg))
  {
    hide Get, Set, Cutoff;
    SetVlanView(e, UNTAG, untag);
    SetVlanView(Set(e, UNTAG, untag), REG, reg);
    SetVlanView(Set(Set(e, UNTAG, untag), REG, reg), UNREG, unreg);
    SetVlanView(Set(Set(Set(e, UNTAG, untag), REG, reg), UNREG, unreg), MEMBERS, members);
  }

  lemma VlanMasksRow(e: Entry, members: bv32, untag: bv32, reg: bv32, unreg: bv32)
    requires Get(e, TYPE) == VLAN
    ensures Decode(SetVlanMasks(e, members, untag, reg, unreg)) ==
              Vlan(VidOf(Get(e, VID)), PortsOf(members), PortsOf(untag), PortsOf(reg), PortsOf(unreg))
  {
    hide Get, SetVlanMasks, VidOf, PortsOf, Cutoff;
    VlanMasksView(e, members, untag, reg, unreg);
    PortsCut(members);
    PortsCut(untag);
    PortsCut(reg);
    PortsCut(unreg);
  }

  lemma VlanRow(e: Entry, vid: Vid, members: bv32, untag: bv32, reg: bv32, unreg: bv32)
    ensures Decode(VlanEntry(e, vid, members, untag, reg, unreg)) ==
              Vlan(Cut(vid), PortsOf(members), PortsOf(untag), PortsOf(reg), PortsOf(unreg))
  {
    hide Get, Set, SetVlanMasks, Decode, PortsOf, VidOf, Cut, Wide;
    hide Cutoff;
    TypeCuts();
    SetVlanView(e, TYPE, VLAN);
    SetVlanView(Set(e, TYPE, VLAN), VID, Wide(vid));
    VidCut(vid);
    VlanMasksRow(Set(Set(e, TYPE, VLAN), VID, Wide(vid)), members, untag, reg, unreg);
  }
}
