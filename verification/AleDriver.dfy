/** The callers of the lookup table: VLANs of bridge ports, and the three entries of a VLAN
  interface, which are installed together or not at all.
 */
module AleDriver {
  import opened Kernel
  import opened AleCodec
  import opened AleMaps
  import opened AleOps
  import opened AleVlan
  import opened AleRun
  import opened AleTable

  /** `struct cpsw_priv` with the port VLAN register; `emac` is 1 or 2. */
  class Port {
    const emac: int
    const mac: Mac
    var pvid: Vid

    constructor (emac: int, mac: Mac)
      requires 1 <= emac <= 2
      ensures this.emac == emac && this.mac == mac && pvid == Vid(0)
    {
      this.emac, this.mac, pvid := emac, mac, Vid(0);
    }
  }

  function PortBit(emac: int): bv32 { if emac == 1 then 2 else 4 }

  const HOST_BIT: bv32 := 1

  lemma PortBits(emac: int)
    ensures PortsOf(HOST_BIT) == HOST && PortsOf(0) == NONE
    ensures PortsOf(PortBit(emac)) == (if emac == 1 then Ports(false, true, false) else Ports(false, false, true))
    ensures PortBit(emac) != 0
  {}

  // ---- Bridge ports ----------------------------------------------------------------------------

  function MaskFor(cpuPort: bool, emac: int): bv32 {
    if cpuPort then HOST_BIT else PortBit(emac)
  }

  function OnlyIf(b: bool, ports: Ports): Ports { if b then ports else NONE }

  function PortAdd(t: Table, mac: Mac, emac: int, cpuPort: bool, multicast: bool, untag: bool, vid: Vid): Result {
    var ports := PortsOf(MaskFor(cpuPort, emac));
    var r := VlanAddModify(t, vid, ports, OnlyIf(untag, ports), OnlyIf(multicast, ports), OnlyIf(cpuPort, ports));
    if r.ret == 0 && cpuPort then Result(0, AddUcast(r.t, mac, 0, true, false, false, vid).t) else r
  }

  function PortDel(t: Table, mac: Mac, emac: int, cpuPort: bool, vid: Vid): Result {
    var mask := MaskFor(cpuPort, emac);
    var r := VlanDelModify(t, vid, PortsOf(mask));
    if r.ret != 0 then r
    else
      var t' := if cpuPort then DelUcast(r.t, mac, true, vid).t else r.t;
      Result(0, DelMcast(t', BROADCAST, mask, true, vid).t)
  }

  /** `cpsw_port_vlan_add`. */
  method PortVlanAdd(ale: Ale, port: Port, cpuPort: bool, multicast: bool, untag: bool, pvid: bool, vid: Vid)
    returns (ret: int)
    modifies ale`untagged, ale.hw, port`pvid
    ensures Result(ret, ale.State()) == PortAdd(old(ale.State()), port.mac, port.emac, cpuPort, multicast, untag, vid)
    ensures port.pvid == if ret == 0 && pvid then vid else old(port.pvid)
  {
    hide Ale.State, VlanAddModify, AddUcast, PortsOf, PortBit;
    var unregMcastMask, regMcastMask, untagMask, portMask := 0, 0, 0, 0;
    PortBits(port.emac);
    if cpuPort {
      portMask := HOST_BIT;
      unregMcastMask := portMask;
    } else {
      portMask := PortBit(port.emac);
    }
    if multicast {
      regMcastMask := portMask;
    }
    if untag {
      untagMask := portMask;
    }
    ret := ale.VlanAddModify(vid, portMask, untagMask, regMcastMask, unregMcastMask);
    if ret != 0 {
      return;
    }
    if cpuPort {
      var ignored := ale.AddUcast(port.mac, 0, true, false, false, vid);
    }
    if !pvid {
      return;
    }
    port.pvid := vid;
  }

  /** `cpsw_port_vlan_del`. */
  method PortVlanDel(ale: Ale, port: Port, cpuPort: bool, vid: Vid) returns (ret: int)
    modifies ale`untagged, ale.hw, port`pvid
    ensures Result(ret, ale.State()) == PortDel(old(ale.State()), port.mac, port.emac, cpuPort, vid)
    ensures port.pvid == if ret == 0 && old(port.pvid) == vid then Vid(0) else old(port.pvid)
  {
    hide Ale.State, VlanDelModify, DelUcast, DelMcast, PortsOf, PortBit;
    var portMask := if cpuPort then HOST_BIT else PortBit(port.emac);
    ret := ale.VlanDelModify(vid, portMask);
    if ret != 0 {
      return;
    }
    if cpuPort {
      var ignored := ale.DelUcast(port.mac, true, vid);
    }
    if vid == port.pvid {
      port.pvid := Vid(0);
    }
    var ignored := ale.DelMcast(BROADCAST, portMask, true, vid);
  }

  // ---- What the calls of a bridge port mean, port by port ---------------------------------------

  /** The port a call is about: the host for a bridge, otherwise the port of the interface. */
  function PortNum(cpuPort: bool, emac: int): int { if cpuPort then 0 else emac }

  lemma OnePort(cpuPort: bool, emac: int)
    requires 1 <= emac <= 2
    ensures forall p :: PortsOf(MaskFor(cpuPort, emac)).Has(p) <==> p == PortNum(cpuPort, emac)
    ensures MaskFor(cpuPort, emac) != 0
  {
    hide PortsOf;
    PortBits(emac);
  }

  /** The row of a VLAN after a port joined it: the port is a member and stands in each mask as
      asked, and no other port changes. */
  ghost predicate JoinedBy(vlans: map<Vid, Row>, vid: Vid, port: int, untag: bool, reg: bool, unreg: bool, r: Row) {
    && r.Vlan? && r.vid == vid && (vid in vlans ==> vlans[vid].Vlan?)
    && r.members.Has(port) && (r.untag.Has(port) <==> untag) && (r.reg.Has(port) <==> reg)
    && (r.unreg.Has(port) <==> unreg)
    && forall m, p :: 0 <= m <= 3 && p != port ==> (InMask(r, m, p) <==> vid in vlans && InMask(vlans[vid], m, p))
  }

  lemma JoinIs(vlans: map<Vid, Row>, vid: Vid, port: int, untag: bool, reg: bool, unreg: bool, ports: Ports, r: Row)
    requires 0 <= port <= 2 && (vid in vlans ==> vlans[vid].Vlan?)
    requires forall p :: ports.Has(p) <==> p == port
    requires var row := if vid in vlans then vlans[vid] else Vlan(vid, NONE, NONE, NONE, NONE);
             GrowsTo(row, vid, ports, OnlyIf(untag, ports), OnlyIf(reg, ports), OnlyIf(unreg, ports), r)
    ensures JoinedBy(vlans, vid, port, untag, reg, unreg, r)
  {
    NoneHas();
    hide Ports.Has;
    assert ports.Has(port);
  }

  lemma NoneHas()
    ensures forall p :: !NONE.Has(p)
  {}

  /** `cpsw_port_vlan_add`: one port joins the VLAN, and for a bridge the host's address is
      entered in it. That address is left out exactly if then there is no row for it. */
  lemma PortAddMeans(t: Table, mac: Mac, emac: int, cpuPort: bool, multicast: bool, untag: bool, vid: Vid)
    requires Clean(t) && InRange(vid) && 1 <= emac <= 2
    ensures var res := PortAdd(t, mac, emac, cpuPort, multicast, untag, vid);
            var v, v', key := VlanMap(t.rows), VlanMap(res.t.rows), Key(mac, vid);
            var fixed, fixed' := Fixed(AddrMap(t.rows)), Fixed(AddrMap(res.t.rows));
            && (res.ret == 0 ==>
                  && vid in v' && v' == v[vid := v'[vid]]
                  && JoinedBy(v, vid, PortNum(cpuPort, emac), untag, multicast, cpuPort, v'[vid])
                  && if cpuPort && !NoRoom(res.t.rows, key)
                     then
                       && key in fixed' && fixed' == fixed[key := fixed'[key]]
                       && UcastFields(fixed'[key], mac, 0, true, false, false, vid)
                     else fixed' == fixed)
            && (res.ret != 0 ==> res.ret == -ENOMEM && res.t.rows == t.rows && vid !in v)
  {
    hide Clean, VlanMap, AddrMap, Fixed, Agree, Grown, GrowsTo, VlanAddModify, AddUcast, PortsOf, Victim, UcastOf,
      UcastFields, JoinedBy, Slot, NoRoom, MaskFor, OnlyIf;
    var ports := PortsOf(MaskFor(cpuPort, emac));
    OnePort(cpuPort, emac);
    VlanAddModifySets(t, vid, ports, OnlyIf(untag, ports), OnlyIf(multicast, ports), OnlyIf(cpuPort, ports));
    var r := VlanAddModify(t, vid, ports, OnlyIf(untag, ports), OnlyIf(multicast, ports), OnlyIf(cpuPort, ports));
    if r.ret == 0 {
      JoinIs(VlanMap(t.rows), vid, PortNum(cpuPort, emac), untag, multicast, cpuPort, ports, VlanMap(r.t.rows)[vid]);
      if cpuPort {
        AddUcastUpdates(r.t, mac, 0, true, false, false, vid);
        RoomForUcast(r.t, mac, vid);
      }
    }
  }

  /** The table has no row of the key, no free row and no learned one. */
  ghost predicate NoRoom(rows: seq<Row>, key: Key) {
    forall j :: 0 <= j < |rows| ==> !Matches(rows[j], ByAddr(key)) && !rows[j].Free? && !Ageable(rows[j])
  }

  lemma RoomForUcast(t: Table, mac: Mac, vid: Vid)
    requires InRange(vid)
    ensures var res := AddUcast(t, mac, 0, true, false, false, vid);
            NoRoom(res.t.rows, Key(mac, vid)) <==> res.ret != 0
  {
    hide Find, Slot, Cut;
    var q, r := AddrQuery(mac, true, vid), UcastOf(mac, 0, true, false, false, vid);
    CutIs(vid);
    SlotIsSafe(t.rows, q);
    var i := Slot(t.rows, q);
    if i >= 0 {
      assert Matches(t.rows[i := r][i], ByAddr(Key(mac, vid)));
    }
  }

  /** `cpsw_port_vlan_del`: one port leaves the VLAN and its broadcast entry, which go with their
      last port; for a bridge the host's address is taken out of the VLAN. */
  lemma PortDelMeans(t: Table, mac: Mac, emac: int, cpuPort: bool, vid: Vid)
    requires Clean(t) && 1 <= emac <= 2
    ensures var res := PortDel(t, mac, emac, cpuPort, vid);
            var n, group := PortNum(cpuPort, emac), Key(BROADCAST, vid);
            var v, v' := VlanMap(t.rows), VlanMap(res.t.rows);
            var a := if cpuPort then AddrMap(t.rows) - {Key(mac, vid)} else AddrMap(t.rows);
            var a' := AddrMap(res.t.rows);
            && (res.ret == 0 <==> vid in v) && (res.ret != 0 ==> res == Result(-ENOENT, t))
            && (res.ret == 0 ==>
                  && v[vid].Vlan? && v' - {vid} == v - {vid}
                  && LeftBy(v[vid], n, At(v', vid, Free))
                  && a' - {group} == a - {group}
                  && (group in a ==> a[group].Addr?)
                  && (group in a' <==> group in a && exists p :: a[group].ports.Has(p) && p != n)
                  && (group in a' ==>
                        && a'[group].Addr? && a'[group] == a[group].(ports := a'[group].ports)
                        && forall p :: a'[group].ports.Has(p) <==> a[group].ports.Has(p) && p != n))
  {
    hide Clean, VlanMap, AddrMap, Fixed, Agree, Shrunk, ShrinksTo, VlanDelModify, DelUcast, DelMcast, PortsOf, MaskFor,
      Find, LeftBy;
    var mask := MaskFor(cpuPort, emac);
    var r := VlanDelModify(t, vid, PortsOf(mask));
    OnePort(cpuPort, emac);
    VlanDelModifyShrinks(t, vid, PortsOf(mask));
    if r.ret == 0 {
      LeaveIs(VlanMap(t.rows)[vid], PortsOf(mask), PortNum(cpuPort, emac), Shrunk(VlanMap(t.rows)[vid], PortsOf(mask)));
      ShrunkIs(VlanMap(t.rows)[vid], PortsOf(mask));
      DelUcastRemoves(r.t, mac, true, vid);
      var t1 := if cpuPort then DelUcast(r.t, mac, true, vid).t else r.t;
      DelMcastLeaves(t1, BROADCAST, mask, true, vid);
      InAddrMap(t1.rows, Key(BROADCAST, vid));
      if Key(BROADCAST, vid) in AddrMap(t1.rows) {
        PortLeaves(AddrMap(t1.rows)[Key(BROADCAST, vid)].ports, PortsOf(mask), PortNum(cpuPort, emac));
      }
    }
  }

  lemma PortLeaves(was: Ports, ports: Ports, port: int)
    requires forall p :: ports.Has(p) <==> p == port
    ensures was.Within(ports) <==> !exists p :: was.Has(p) && p != port
    ensures forall p :: was.Minus(ports).Has(p) <==> was.Has(p) && p != port
  {
    assert was.p0 == was.Has(0) && was.p1 == was.Has(1) && was.p2 == was.Has(2);
    assert ports.p0 == ports.Has(0) && ports.p1 == ports.Has(1) && ports.p2 == ports.Has(2);
  }

  /** The row of a VLAN after a port left it: the other members stay, each mask keeps what it
      has of them, and the row goes with its last member. */
  ghost predicate LeftBy(row: Row, port: int, r: Row)
    requires row.Vlan?
  {
    && (r.Free? <==> forall p :: row.members.Has(p) ==> p == port)
    && (r.Free? ||
        (r.Vlan? && r.vid == row.vid
         && forall m, p :: 0 <= m <= 3 ==> (InMask(r, m, p) <==> InMask(row, m, p) && row.members.Has(p) && p != port)))
  }

  lemma LeaveIs(row: Row, ports: Ports, port: int, r: Row)
    requires row.Vlan? && ShrinksTo(row, ports, r) && forall p :: ports.Has(p) <==> p == port
    ensures LeftBy(row, port, r)
  {
    hide Ports.Has, InMask;
  }

  datatype PortOp =
    | Add(mac: Mac, emac: int, cpuPort: bool, multicast: bool, untag: bool, vid: Vid)
    | Del(mac: Mac, emac: int, cpuPort: bool, vid: Vid)
    | Switch(at: nat, row: Row) // the switch learns or ages a row meanwhile

  ghost predicate PortAllowed(t: Table, op: PortOp) {
    match op
    case Add(_, _, _, _, _, vid) => InRange(vid)
    case Del(_, _, _, _) => true
    case Switch(at, row) => Allowed(t, Hardware(at, row))
  }

  function PortStep(t: Table, op: PortOp): Table
    requires op.Switch? ==> op.at < |t.rows|
  {
    match op
    case Add(mac, emac, cpuPort, multicast, untag, vid) => PortAdd(t, mac, emac, cpuPort, multicast, untag, vid).t
    case Del(mac, emac, cpuPort, vid) => PortDel(t, mac, emac, cpuPort, vid).t
    case Switch(at, row) => Apply(t, Hardware(at, row)).t
  }

  lemma GrownIsProper(vlans: map<Vid, Row>, vid: Vid, ports: Ports, untag: bool, reg: bool, unreg: bool)
    requires AllProper(vlans) && (vid in vlans ==> vlans[vid].Vlan?)
    ensures var row := if vid in vlans then vlans[vid] else Vlan(vid, NONE, NONE, NONE, NONE);
            AllProper(vlans[vid := Grown(row, vid, ports, OnlyIf(untag, ports), OnlyIf(reg, ports),
                OnlyIf(unreg, ports))])
  {
    hide Grown, Proper;
    var row := if vid in vlans then vlans[vid] else Vlan(vid, NONE, NONE, NONE, NONE);
    EmptyIsProper(vid);
    ProperRows(row, vid, ports, OnlyIf(untag, ports), OnlyIf(reg, ports), OnlyIf(unreg, ports));
  }

  lemma EmptyIsProper(vid: Vid)
    ensures Proper(Vlan(vid, NONE, NONE, NONE, NONE))
  {}

  lemma ShrunkIsProper(vlans: map<Vid, Row>, vid: Vid, ports: Ports)
    requires AllProper(vlans) && vid in vlans && vlans[vid].Vlan?
    ensures AllProper(WithRow(vlans, vid, Shrunk(vlans[vid], ports)))
  {
    hide Shrunk, Proper;
    ProperRows(vlans[vid], vid, ports, NONE, NONE, NONE);
  }

  lemma PortAddKeeps(t: Table, mac: Mac, emac: int, cpuPort: bool, multicast: bool, untag: bool, vid: Vid)
    requires Clean(t) && AllProper(VlanMap(t.rows)) && InRange(vid)
    ensures var t' := PortAdd(t, mac, emac, cpuPort, multicast, untag, vid).t;
            Clean(t') && AllProper(VlanMap(t'.rows))
  {
    hide Clean, VlanMap, AddrMap, Fixed, Agree, AllProper, Grown, VlanAddModify, AddUcast, PortsOf, Victim, UcastOf;
    var ports := PortsOf(MaskFor(cpuPort, emac));
    VlanAddModifySets(t, vid, ports, OnlyIf(untag, ports), OnlyIf(multicast, ports), OnlyIf(cpuPort, ports));
    var r := VlanAddModify(t, vid, ports, OnlyIf(untag, ports), OnlyIf(multicast, ports), OnlyIf(cpuPort, ports));
    if r.ret == 0 {
      GrownIsProper(VlanMap(t.rows), vid, ports, untag, multicast, cpuPort);
      AddUcastUpdates(r.t, mac, 0, true, false, false, vid);
    }
  }

  lemma PortDelKeeps(t: Table, mac: Mac, emac: int, cpuPort: bool, vid: Vid)
    requires Clean(t) && AllProper(VlanMap(t.rows))
    ensures var t' := PortDel(t, mac, emac, cpuPort, vid).t;
            Clean(t') && AllProper(VlanMap(t'.rows))
  {
    hide Clean, VlanMap, AddrMap, Fixed, Agree, AllProper, Shrunk, VlanDelModify, DelUcast, DelMcast, PortsOf;
    var mask := MaskFor(cpuPort, emac);
    var r := VlanDelModify(t, vid, PortsOf(mask));
    VlanDelModifyShrinks(t, vid, PortsOf(mask));
    if r.ret == 0 {
      ShrunkIsProper(VlanMap(t.rows), vid, PortsOf(mask));
      DelUcastRemoves(r.t, mac, true, vid);
      DelMcastLeaves(if cpuPort then DelUcast(r.t, mac, true, vid).t else r.t, BROADCAST, mask, true, vid);
    }
  }

  /** Adding a VLAN to a port that is not in it and taking it out again restores the VLANs
      under the condition of `AddThenRemove`. */
  lemma PortRoundTrip(t: Table, mac: Mac, emac: int, cpuPort: bool, multicast: bool, untag: bool, vid: Vid)
    requires Clean(t) && InRange(vid) && PortAdd(t, mac, emac, cpuPort, multicast, untag, vid).ret == 0
    requires VlanBefore(t, vid).members.Meet(PortsOf(MaskFor(cpuPort, emac))).Empty()
    ensures var res := PortDel(PortAdd(t, mac, emac, cpuPort, multicast, untag, vid).t, mac, emac, cpuPort, vid);
            var v := VlanMap(t.rows);
            && res.ret == 0
            && (VlanMap(res.t.rows) == v <==> vid !in v || (!v[vid].members.Empty() && Proper(v[vid])))
  {
    hide Clean, VlanMap, AddrMap, Fixed, Agree, Shrunk, VlanAddModify, VlanDelModify, VlanBefore, AddUcast, DelUcast,
      DelMcast, PortsOf, Victim, UcastOf, MaskFor;
    var ports := PortsOf(MaskFor(cpuPort, emac));
    OnlyIfWithin(ports);
    var r := VlanAddModify(t, vid, ports, OnlyIf(untag, ports), OnlyIf(multicast, ports), OnlyIf(cpuPort, ports));
    AddThenRemove(t, vid, ports, OnlyIf(untag, ports), OnlyIf(multicast, ports), OnlyIf(cpuPort, ports));
    VlanAddModifySets(t, vid, ports, OnlyIf(untag, ports), OnlyIf(multicast, ports), OnlyIf(cpuPort, ports));
    VlanDelModifyShrinks(r.t, vid, ports);
    AddUcastUpdates(r.t, mac, 0, true, false, false, vid);
    var t1 := PortAdd(t, mac, emac, cpuPort, multicast, untag, vid).t;
    VlanDelModifyShrinks(t1, vid, ports);
    PortDelVlans(t1, mac, emac, cpuPort, vid);
  }

  lemma OnlyIfWithin(ports: Ports)
    ensures forall b :: OnlyIf(b, ports).Within(ports)
  {}

  lemma PortDelVlans(t: Table, mac: Mac, emac: int, cpuPort: bool, vid: Vid)
    requires Clean(t)
    ensures var r := VlanDelModify(t, vid, PortsOf(MaskFor(cpuPort, emac)));
            var res := PortDel(t, mac, emac, cpuPort, vid);
            res.ret == r.ret && VlanMap(res.t.rows) == VlanMap(r.t.rows)
  {
    hide Clean, VlanMap, AddrMap, Fixed, Agree, Shrunk, VlanDelModify, DelUcast, DelMcast, PortsOf, MaskFor;
    var mask := MaskFor(cpuPort, emac);
    var r := VlanDelModify(t, vid, PortsOf(mask));
    VlanDelModifyShrinks(t, vid, PortsOf(mask));
    if r.ret == 0 {
      DelUcastRemoves(r.t, mac, true, vid);
      DelMcastLeaves(if cpuPort then DelUcast(r.t, mac, true, vid).t else r.t, BROADCAST, mask, true, vid);
    }
  }

  ghost predicate ValidPortRun(t: Table, ops: seq<PortOp>)
    decreases |ops|
  {
    ops != [] ==> PortAllowed(t, ops[0]) && ValidPortRun(PortStep(t, ops[0]), ops[1..])
  }

  ghost function PortRun(t: Table, ops: seq<PortOp>): Table
    requires ValidPortRun(t, ops)
    decreases |ops|
  {
    if ops == [] then t else PortRun(PortStep(t, ops[0]), ops[1..])
  }

  /** Over every run of port VLAN calls, with the switch learning and ageing meanwhile, the
      masks of every VLAN name members only. */
  lemma {:induction false} MasksStayProper(t: Table, ops: seq<PortOp>)
    requires Clean(t) && AllProper(VlanMap(t.rows)) && ValidPortRun(t, ops)
    ensures var t' := PortRun(t, ops); Clean(t') && AllProper(VlanMap(t'.rows))
    decreases |ops|
  {
    hide Clean, VlanMap, AllProper, PortAdd, PortDel, Apply, Fixed;
    if ops != [] {
      match ops[0] {
        case Add(mac, emac, cpuPort, multicast, untag, vid) =>
          PortAddKeeps(t, mac, emac, cpuPort, multicast, untag, vid);
        case Del(mac, emac, cpuPort, vid) => PortDelKeeps(t, mac, emac, cpuPort, vid);
        case Switch(at, row) => HardwareStep(t, at, row);
      }
      MasksStayProper(PortStep(t, ops[0]), ops[1..]);
    }
  }

  // ---- The three entries of a VLAN interface ------------------------------------------------------

  function VlanOf(emac: int, allMulti: bool, vid: Vid): Row {
    var ports := PortsOf(Or(PortBit(emac), HOST_BIT));
    Vlan(vid, ports, NONE, ports, OnlyIf(allMulti, HOST))
  }

  /** The VLAN, the host's own address and the broadcast address, one after the other. */
  function FirstStep(t: Table, emac: int, allMulti: bool, vid: Vid): Result {
    var row := VlanOf(emac, allMulti, vid);
    AddVlan(t, vid, row.members, row.untag, row.reg, row.unreg)
  }

  function SecondStep(t: Table, mac: Mac, vid: Vid): Result {
    AddUcast(t, mac, 0, true, false, false, vid)
  }

  function ThirdStep(t: Table, vid: Vid): Result {
    AddMcast(t, BROADCAST, HOST_BIT, true, false, vid, 0)
  }

  function EntryAdd(t: Table, mac: Mac, emac: int, allMulti: bool, vid: Vid): Result {
    var r1 := FirstStep(t, emac, allMulti, vid);
    if r1.ret != 0 then r1
    else
      var r2 := SecondStep(r1.t, mac, vid);
      if r2.ret != 0 then Result(r2.ret, DelVlan(r2.t, vid, 0).t)
      else
        var r3 := ThirdStep(r2.t, vid);
        if r3.ret != 0 then Result(r3.ret, DelVlan(DelUcast(r3.t, mac, true, vid).t, vid, 0).t) else r3
  }

  /** `cpsw_add_vlan_ale_entry`. */
  method AddVlanAleEntry(ale: Ale, port: Port, allMulti: bool, vid: Vid) returns (ret: int)
    modifies ale`untagged, ale.hw
    ensures Result(ret, ale.State()) == EntryAdd(old(ale.State()), port.mac, port.emac, allMulti, vid)
  {
    hide Ale.State, AddVlan, AddUcast, AddMcast, DelUcast, DelVlan, PortsOf, Or, PortBit;
    PortBits(port.emac);
    var unregMcastMask := 0;
    var portMask := Or(PortBit(port.emac), HOST_BIT);
    var mcastMask := HOST_BIT;
    if allMulti {
      unregMcastMask := mcastMask;
    }
    ret := ale.AddVlan(vid, portMask, 0, portMask, unregMcastMask);
    if ret != 0 {
      return;
    }
    ret := ale.AddUcast(port.mac, 0, true, false, false, vid);
    if ret == 0 {
      ret := ale.AddMcast(BROADCAST, mcastMask, true, false, vid, 0);
      if ret == 0 {
        return;
      }
      var ignored := ale.DelUcast(port.mac, true, vid);
    }
    var ignored := ale.DelVlan(vid, 0);
  }

  /** One step of the driver, in terms of the maps. */
  lemma Step(t: Table, op: Op)
    requires Clean(t) && Allowed(t, op) && ForGroups(op)
    ensures var res := Apply(t, op);
            && Clean(res.t) && (Agree(t) && KeepsCache(t, op) ==> Agree(res.t))
            && MapsOf(res.t) == if res.ret == 0 then Meaning(MapsOf(t), op) else MapsOf(t)
  {
    hide Clean, MapsOf, Apply, Agree, Meaning, KeepsCache, Allowed, ForGroups;
    StepRefines(t, op);
    StepKeeps(t, op);
  }

  lemma FirstMeans(t: Table, emac: int, allMulti: bool, vid: Vid)
    requires Clean(t) && InRange(vid)
    ensures var res := FirstStep(t, emac, allMulti, vid);
            && Clean(res.t) && (Agree(t) ==> Agree(res.t)) && (res.ret == 0 || res.ret == -ENOMEM)
            && MapsOf(res.t) == (if res.ret == 0
                                 then MapsOf(t).(vlans := MapsOf(t).vlans[vid := VlanOf(emac, allMulti, vid)])
                                 else MapsOf(t))
            && (res.ret != 0 ==> vid !in MapsOf(t).vlans)
            && (res.ret == 0 <==> Slot(t.rows, ByVlan(vid)) >= 0)
  {
    hide Clean, VlanMap, AddrMap, Fixed, Agree, PortsOf, Victim, Slot;
    var row := VlanOf(emac, allMulti, vid);
    Step(t, VlanAdd(vid, row.members, row.untag, row.reg, row.unreg));
    AddVlanUpdates(t, vid, row.members, row.untag, row.reg, row.unreg);
  }

  lemma SecondMeans(t: Table, mac: Mac, vid: Vid)
    requires Clean(t) && InRange(vid)
    ensures var res := SecondStep(t, mac, vid);
            && Clean(res.t) && (Agree(t) ==> Agree(res.t)) && (res.ret == 0 || res.ret == -ENOMEM)
            && MapsOf(res.t) == (var host := UcastOf(mac, 0, true, false, false, vid);
                                 if res.ret == 0
                                 then MapsOf(t).(addrs := MapsOf(t).addrs[Key(mac, vid) := host])
                                 else MapsOf(t))
            && (res.ret != 0 ==> Key(mac, vid) !in MapsOf(t).addrs)
  {
    hide Clean, VlanMap, AddrMap, Agree, UcastOf, Find;
    Step(t, UcastAdd(mac, 0, true, false, false, vid));
    InAddrMap(t.rows, Key(mac, vid));
  }

  lemma ThirdMeans(t: Table, vid: Vid)
    requires Clean(t) && InRange(vid)
    ensures var res := ThirdStep(t, vid);
            var addrs, key := MapsOf(t).addrs, Key(BROADCAST, vid);
            var joined := Joined(At(addrs, key, Free), BROADCAST, HOST_BIT, true, false, vid, 0);
            && Clean(res.t) && (Agree(t) ==> Agree(res.t)) && (res.ret == 0 || res.ret == -ENOMEM)
            && MapsOf(res.t) == if res.ret == 0 then MapsOf(t).(addrs := addrs[key := joined]) else MapsOf(t)
  {
    hide Clean, VlanMap, AddrMap, Fixed, Agree, Joined, MapsOf, Find;
    GroupBroadcast();
    Step(t, McastAdd(BROADCAST, HOST_BIT, true, false, vid, 0));
  }

  lemma GroupBroadcast()
    ensures BROADCAST.Group()
  {}

  lemma UndoUcast(t: Table, mac: Mac, vid: Vid)
    requires Clean(t)
    ensures var t' := DelUcast(t, mac, true, vid).t;
            Clean(t') && (Agree(t) ==> Agree(t'))
                && MapsOf(t') == MapsOf(t).(addrs := MapsOf(t).addrs - {Key(mac, vid)})
  {
    hide Clean, VlanMap, AddrMap, Agree, Find;
    Step(t, UcastDel(mac, true, vid));
    DelUcastRemoves(t, mac, true, vid);
    assert Key(mac, vid) !in AddrMap(t.rows) ==> Fixed(AddrMap(t.rows)) - {Key(mac, vid)} == Fixed(AddrMap(t.rows));
  }

  lemma UndoVlan(t: Table, vid: Vid)
    requires Clean(t)
    ensures var t' := DelVlan(t, vid, 0).t;
            Clean(t') && (Agree(t) ==> Agree(t')) && MapsOf(t') == MapsOf(t).(vlans := MapsOf(t).vlans - {vid})
  {
    hide Clean, VlanMap, AddrMap, Fixed, Agree, Find, PortsOf, Shrunk;
    DelVlanRemoves(t, vid, 0);
    assert vid !in VlanMap(t.rows) ==> VlanMap(t.rows) - {vid} == VlanMap(t.rows);
  }

  /** What each outcome does to the maps of what the software has installed. */
  lemma EntryAddMeans(t: Table, mac: Mac, emac: int, allMulti: bool, vid: Vid)
    requires Clean(t) && InRange(vid)
    ensures var res := EntryAdd(t, mac, emac, allMulti, vid);
            var r1 := FirstStep(t, emac, allMulti, vid);
            var m, key, group := MapsOf(t), Key(mac, vid), Key(BROADCAST, vid);
            var addrs := m.addrs[key := UcastOf(mac, 0, true, false, false, vid)];
            var joined := Joined(At(addrs, group, Free), BROADCAST, HOST_BIT, true, false, vid, 0);
            && Clean(res.t) && (Agree(t) ==> Agree(res.t))
            && (res.ret == 0 ==>
                  MapsOf(res.t) == Maps(addrs[group := joined], m.vlans[vid := VlanOf(emac, allMulti, vid)]))
            && (res.ret != 0 ==>
                  && res.ret == -ENOMEM
                  && MapsOf(res.t) == if r1.ret != 0 then m
                                      else if SecondStep(r1.t, mac, vid).ret != 0 then Maps(m.addrs, m.vlans - {vid})
                                      else Maps(m.addrs - {key}, m.vlans - {vid}))
  {
    hide Clean, Agree, MapsOf, FirstStep, SecondStep, ThirdStep, DelUcast, DelVlan, UcastOf, VlanOf, Joined;
    var r1 := FirstStep(t, emac, allMulti, vid);
    FirstMeans(t, emac, allMulti, vid);
    if r1.ret == 0 {
      var r2 := SecondStep(r1.t, mac, vid);
      SecondMeans(r1.t, mac, vid);
      if r2.ret != 0 {
        UndoVlan(r2.t, vid);
      } else {
        var r3 := ThirdStep(r2.t, vid);
        ThirdMeans(r2.t, vid);
        if r3.ret != 0 {
          UndoUcast(r3.t, mac, vid);
          UndoVlan(DelUcast(r3.t, mac, true, vid).t, vid);
        }
      }
    }
  }

  /** The VLAN of an interface: the host and the port of the interface are members, neither is
      untagged, both get the registered groups, and the host the others in all-multicast mode. */
  ghost predicate InterfaceRow(r: Row, emac: int, allMulti: bool, vid: Vid) {
    && r.Vlan? && r.vid == vid && r.untag.Empty()
    && (forall p :: r.members.Has(p) <==> p == 0 || p == emac)
    && (forall p :: r.reg.Has(p) <==> p == 0 || p == emac)
    && (forall p :: r.unreg.Has(p) <==> p == 0 && allMulti)
  }

  lemma InterfaceIs(emac: int, allMulti: bool, vid: Vid)
    requires 1 <= emac <= 2
    ensures InterfaceRow(VlanOf(emac, allMulti, vid), emac, allMulti, vid)
  {
    hide PortsOf, PortBit, Or;
    PortsAlgebra(PortBit(emac), HOST_BIT);
    PortBits(emac);
  }

  /** The broadcast entry of a VLAN: the host joins the ports `was`. */
  ghost predicate BroadcastRow(r: Row, vid: Vid, was: Ports) {
    && r.Addr? && r.mac == BROADCAST && r.vid == vid && r.tagged && r.state == 0 && !r.super
    && forall p :: r.ports.Has(p) <==> p == 0 || was.Has(p)
  }

  lemma BroadcastIs(row: Row, vid: Vid)
    requires InRange(vid)
    ensures BroadcastRow(Joined(row, BROADCAST, HOST_BIT, true, false, vid, 0), vid,
                         if row.Addr? then row.ports else NONE)
  {
    hide PortsOf, Cut;
    CutIs(vid);
    NoStateBits();
    PortBits(1);
  }

  lemma NoStateBits()
    ensures 0 as bv32 & 3 == 0
  {}

  lemma HostHasNoPorts(mac: Mac, vid: Vid)
    ensures var r := UcastOf(mac, 0, true, false, false, vid); r.Addr? && r.ports == NONE
  {}

  /** A successful call leaves the three entries with these fields, and all others as they
      were. With the broadcast address as its own the interface gets one entry for both. */
  lemma EntryAddInstalls(t: Table, mac: Mac, emac: int, allMulti: bool, vid: Vid)
    requires Clean(t) && InRange(vid) && 1 <= emac <= 2
    requires EntryAdd(t, mac, emac, allMulti, vid).ret == 0
    ensures var m, m' := MapsOf(t), MapsOf(EntryAdd(t, mac, emac, allMulti, vid).t);
            var key, group := Key(mac, vid), Key(BROADCAST, vid);
            && vid in m'.vlans && InterfaceRow(m'.vlans[vid], emac, allMulti, vid)
            && key in m'.addrs && group in m'.addrs
            && (mac != BROADCAST ==> UcastFields(m'.addrs[key], mac, 0, true, false, false, vid))
            && BroadcastRow(m'.addrs[group], vid,
                            if mac != BROADCAST && group in m.addrs && m.addrs[group].Addr? then m.addrs[group].ports
                            else NONE)
            && m'.vlans - {vid} == m.vlans - {vid} && m'.addrs - {key, group} == m.addrs - {key, group}
  {
    hide Clean, Agree, MapsOf, EntryAdd, FirstStep, SecondStep, UcastOf, VlanOf, Joined, UcastFields, InterfaceRow,
      BroadcastRow;
    EntryAddMeans(t, mac, emac, allMulti, vid);
    InterfaceIs(emac, allMulti, vid);
    UcastIs(mac, 0, true, false, false, vid);
    BroadcastIs(At(MapsOf(t).addrs, Key(BROADCAST, vid), Free), vid);
    BroadcastIs(UcastOf(mac, 0, true, false, false, vid), vid);
    HostHasNoPorts(mac, vid);
  }

  /** All or nothing: a failing call leaves what the software had installed as it was if and
      only if the VLAN was not there before, and neither was the host's address in it unless
      there is no row for the VLAN. */
  lemma RollbackExactly(t: Table, mac: Mac, emac: int, allMulti: bool, vid: Vid)
    requires Clean(t) && InRange(vid) && EntryAdd(t, mac, emac, allMulti, vid).ret != 0
    ensures MapsOf(EntryAdd(t, mac, emac, allMulti, vid).t) == MapsOf(t) <==>
              vid !in MapsOf(t).vlans && (Key(mac, vid) !in MapsOf(t).addrs || Slot(t.rows, ByVlan(vid)) < 0)
  {
    hide Clean, Agree, MapsOf, FirstStep, SecondStep, ThirdStep, EntryAdd, UcastOf, VlanOf, Joined;
    var r1, m, key := FirstStep(t, emac, allMulti, vid), MapsOf(t), Key(mac, vid);
    EntryAddMeans(t, mac, emac, allMulti, vid);
    FirstMeans(t, emac, allMulti, vid);
    if r1.ret == 0 {
      SecondMeans(r1.t, mac, vid);
    }
    assert m.vlans - {vid} == m.vlans <==> vid !in m.vlans by {
      assert vid !in m.vlans - {vid};
    }
    assert m.addrs - {key} == m.addrs <==> key !in m.addrs by {
      assert key !in m.addrs - {key};
    }
  }

  // ---- Full tables ------------------------------------------------------------------------------------

  /** No row is free or learned, so nothing can be written but over a row of the same key. */
  ghost predicate Full(rows: seq<Row>) {
    forall i :: 0 <= i < |rows| ==> !rows[i].Free? && !Ageable(rows[i])
  }

  lemma FullInstall(t: Table, q: Query, r: Row, untagged: set<Vid>)
    requires Full(t.rows) && !r.Free? && !Ageable(r)
    ensures var res := Install(t, q, r, untagged);
            (res.ret == 0 <==> Find(t.rows, q) >= 0) && Full(res.t.rows) && Victim(t.rows, q).Free?
  {
    hide Find;
    SlotIsSafe(t.rows, q);
    if Find(t.rows, q) < 0 {
      forall j | 0 <= j < |t.rows| ensures !Matches(t.rows[j], q) {
        NotFound(t.rows, q, j);
      }
    }
  }

  lemma NotFound(rows: seq<Row>, q: Query, j: nat)
    requires j < |rows| && Find(rows, q) < 0
    ensures !Matches(rows[j], q)
  {}

  lemma FullFixed(rows: seq<Row>, key: Key)
    requires Full(rows)
    ensures key in Fixed(AddrMap(rows)) <==> key in AddrMap(rows)
  {
    hide Find;
    InAddrMap(rows, key);
  }

  lemma FullFirst(t: Table, emac: int, allMulti: bool, vid: Vid)
    requires Clean(t) && InRange(vid) && Full(t.rows) && vid in VlanMap(t.rows)
    ensures var res := FirstStep(t, emac, allMulti, vid);
            res.ret == 0 && Clean(res.t) && Full(res.t.rows) && AddrMap(res.t.rows) == AddrMap(t.rows)
  {
    hide Clean, Full, AddrMap, VlanMap, Fixed, Find, Victim, Install, PortsOf, Slot;
    var row := VlanOf(emac, allMulti, vid);
    CutIs(vid);
    InVlanMap(t.rows, vid);
    FullInstall(t, ByVlan(vid), row, Cache(t.untagged, vid, row.untag));
    AddVlanUpdates(t, vid, row.members, row.untag, row.reg, row.unreg);
  }

  lemma FullSecond(t: Table, mac: Mac, vid: Vid)
    requires Clean(t) && InRange(vid) && Full(t.rows)
    ensures var res := SecondStep(t, mac, vid);
            && (res.ret == 0 <==> Key(mac, vid) in AddrMap(t.rows))
            && (res.ret == 0 ==>
                  Clean(res.t) && Full(res.t.rows) &&
                  forall k :: k in AddrMap(res.t.rows) <==> k in AddrMap(t.rows))
  {
    hide Clean, Full, AddrMap, VlanMap, Fixed, Find, Victim, Install, PortsOf, Cut;
    InAddrMap(t.rows, Key(mac, vid));
    FullInstall(t, ByAddr(Key(mac, vid)), UcastOf(mac, 0, true, false, false, vid), t.untagged);
    AddUcastUpdates(t, mac, 0, true, false, false, vid);
  }

  lemma FullThird(t: Table, vid: Vid)
    requires Clean(t) && InRange(vid) && Full(t.rows)
    ensures ThirdStep(t, vid).ret == 0 <==> Key(BROADCAST, vid) in AddrMap(t.rows)
  {
    hide Clean, Full, AddrMap, VlanMap, Fixed, Find, Victim, Install, PortsOf, Cut;
    var q := ByAddr(Key(BROADCAST, vid));
    GroupBroadcast();
    InAddrMap(t.rows, q.key);
    FullInstall(t, q, Joined(RowAt(t.rows, q), BROADCAST, HOST_BIT, true, false, vid, 0), t.untagged);
  }

  /** Adding the entries of a VLAN that a full table already has fails if and only if the
      host's address or the broadcast address is missing there. The rollback then takes out
      the VLAN that was there before. */
  lemma FullRollback(t: Table, mac: Mac, emac: int, allMulti: bool, vid: Vid)
    requires Clean(t) && InRange(vid) && Full(t.rows) && vid in MapsOf(t).vlans
    ensures var res, addrs := EntryAdd(t, mac, emac, allMulti, vid), MapsOf(t).addrs;
            && (res.ret != 0 <==> Key(mac, vid) !in addrs || Key(BROADCAST, vid) !in addrs)
            && (res.ret != 0 ==> res.ret == -ENOMEM && vid !in MapsOf(res.t).vlans)
  {
    hide Clean, Full, AddrMap, VlanMap, Fixed, Find, FirstStep, SecondStep, ThirdStep, VlanOf, UcastOf, Joined,
      DelUcast, DelVlan, Agree;
    var r1 := FirstStep(t, emac, allMulti, vid);
    FullFirst(t, emac, allMulti, vid);
    FullSecond(r1.t, mac, vid);
    FullFixed(t.rows, Key(mac, vid));
    FullFixed(t.rows, Key(BROADCAST, vid));
    if SecondStep(r1.t, mac, vid).ret == 0 {
      FullThird(SecondStep(r1.t, mac, vid).t, vid);
    }
    EntryAddMeans(t, mac, emac, allMulti, vid);
  }

  /** A table of one row, the VLAN itself: the call fails and the VLAN is gone. */
  lemma RollbackRemoves(mac: Mac, emac: int, allMulti: bool, vid: Vid)
    requires InRange(vid)
    ensures var t := Table([Vlan(vid, PortsOf(3), NONE, PortsOf(3), NONE)], {});
            var res := EntryAdd(t, mac, emac, allMulti, vid);
            && Clean(t) && Agree(t) && vid in MapsOf(t).vlans
            && res.ret == -ENOMEM && vid !in MapsOf(res.t).vlans
  {
    hide PortsOf, EntryAdd;
    var row := Vlan(vid, PortsOf(3), NONE, PortsOf(3), NONE);
    var t := Table([row], {});
    OneRow(row);
    assert MapsOf(t).addrs == map[];
    FullRollback(t, mac, emac, allMulti, vid);
  }

  lemma OneRow(row: Row)
    requires row.Vlan?
    ensures VlanMap([row]) == map[row.vid := row] && AddrMap([row]) == map[]
  {
    assert Find([row], ByVlan(row.vid)) >= 0;
    forall vid | vid != row.vid ensures Find([row], ByVlan(vid)) < 0 {}
    forall key ensures Find([row], ByAddr(key)) < 0 {}
  }
}
