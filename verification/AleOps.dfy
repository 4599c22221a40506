/** The operations on the lookup table as functions on its rows, and what they do to the
  two maps and to the bitmap that caches one bit of each VLAN row.
 */
module AleOps {
  import opened Kernel
  import opened AleCodec
  import opened AleMaps

  /** `untagged` is `p0_untag_vid_mask`. */
  datatype Table = Table(rows: seq<Row>, untagged: set<Vid>)

  datatype Result = Result(ret: int, t: Table)

  // ---- The operations --------------------------------------------------------------------

  function Install(t: Table, q: Query, r: Row, untagged: set<Vid>): Result {
    var i := Slot(t.rows, q);
    if i < 0 then Result(-ENOMEM, Table(t.rows, untagged)) else Result(0, Table(t.rows[i := r], untagged))
  }

  function AddrQuery(mac: Mac, tagged: bool, vid: Vid): Query {
    ByAddr(Key(mac, if tagged then vid else Vid(0)))
  }

  function UcastOf(mac: Mac, port: bv32, tagged: bool, secure: bool, blocked: bool, vid: Vid): Row {
    Addr(tagged, if tagged then Cut(vid) else Vid(0), mac, 0, secure, blocked, PortsOf(port & 3))
  }

  function AddUcast(t: Table, mac: Mac, port: bv32, tagged: bool, secure: bool, blocked: bool, vid: Vid): Result {
    Install(t, AddrQuery(mac, tagged, vid), UcastOf(mac, port, tagged, secure, blocked, vid), t.untagged)
  }

  function DelUcast(t: Table, mac: Mac, tagged: bool, vid: Vid): Result {
    var i := Find(t.rows, AddrQuery(mac, tagged, vid));
    if i < 0 then Result(-ENOENT, t) else Result(0, t.(rows := t.rows[i := Free]))
  }

  function RowAt(rows: seq<Row>, q: Query): Row {
    var i := Find(rows, q);
    if i < 0 then Free else rows[i]
  }

  function AddMcast(t: Table, mac: Mac, mask: bv32, tagged: bool, super: bool, vid: Vid, state: bv32): Result {
    var q := AddrQuery(mac, tagged, vid);
    Install(t, q, Joined(RowAt(t.rows, q), mac, mask, tagged, super, vid, state), t.untagged)
  }

  /** A mask of zero removes every port. */
  function Left(row: Row, mask: bv32): Row
    requires row.Addr?
  {
    var members := if mask == 0 then NONE else row.ports.Minus(PortsOf(mask));
    if members.Empty() then Free else row.(ports := members)
  }

  function DelMcast(t: Table, mac: Mac, mask: bv32, tagged: bool, vid: Vid): Result {
    var i := Find(t.rows, AddrQuery(mac, tagged, vid));
    if i < 0 then Result(-ENOENT, t) else Result(0, t.(rows := t.rows[i := Left(t.rows[i], mask)]))
  }

  /** Which rows a flush looks at: one VLAN or all. */
  datatype Scope = One(vid: Vid) | All

  function FlushRow(row: Row, mask: bv32, scope: Scope): Row {
    if !row.Addr? || !row.mac.Group() || (scope.One? && row.vid != scope.vid) then row
    else if row.super || row.mac == BROADCAST || row.ports.Meet(PortsOf(mask)).Empty() then row
    else if row.ports.Minus(PortsOf(mask)).Empty() then Free
    else row.(ports := row.ports.Minus(PortsOf(mask)))
  }

  function FlushMulticast(t: Table, mask: bv32, scope: Scope): Table {
    t.(rows := seq(|t.rows|, i requires 0 <= i < |t.rows| => FlushRow(t.rows[i], mask, scope)))
  }

  function Cache(untagged: set<Vid>, vid: Vid, untag: Ports): set<Vid> {
    if untag.p0 then untagged + {vid} else untagged - {vid}
  }

  function AddVlan(t: Table, vid: Vid, members: Ports, untag: Ports, reg: Ports, unreg: Ports): Result {
    Install(t, ByVlan(vid), Vlan(Cut(vid), members, untag, reg, unreg), Cache(t.untagged, vid, untag))
  }

  /** A VLAN row without the ports `ports`; the row goes with its last member. */
  function Shrunk(row: Row, ports: Ports): Row
    requires row.Vlan?
  {
    var members := row.members.Minus(ports);
    if members.Empty() then Free
    else Vlan(row.vid, members, row.untag.Meet(members), row.reg.Meet(members), row.unreg.Meet(members))
  }

  function UntagOf(row: Row): Ports {
    if row.Vlan? then row.untag else NONE
  }

  function PutShrunk(t: Table, i: nat, vid: Vid, r: Row): Table
    requires i < |t.rows|
  {
    Table(t.rows[i := r], Cache(t.untagged, vid, UntagOf(r)))
  }

  function VlanDelModify(t: Table, vid: Vid, ports: Ports): Result {
    var i := Find(t.rows, ByVlan(vid));
    if i < 0 then Result(-ENOENT, t) else Result(0, PutShrunk(t, i, vid, Shrunk(t.rows[i], ports)))
  }

  /** Without a mask, or with all members in it, the row is removed; otherwise the host port
      stays. */
  function DelVlan(t: Table, vid: Vid, mask: bv32): Result {
    var i := Find(t.rows, ByVlan(vid));
    if i < 0 then Result(-ENOENT, t)
    else
      var all := mask == 0 || t.rows[i].members.Minus(PortsOf(mask)).Empty();
      Result(0, PutShrunk(t, i, vid, if all then Free else Shrunk(t.rows[i], PortsOf(mask).Minus(HOST))))
  }

  function VlanBefore(t: Table, vid: Vid): Row {
    var row := RowAt(t.rows, ByVlan(vid));
    if row.Vlan? then row else Vlan(vid, NONE, NONE, NONE, NONE)
  }

  function VlanAddModify(t: Table, vid: Vid, ports: Ports, untag: Ports, reg: Ports, unreg: Ports): Result {
    var row := VlanBefore(t, vid);
    AddVlan(t, vid, row.members.Union(ports), row.untag.Minus(ports).Union(untag), row.reg.Minus(ports).Union(reg),
            row.unreg.Minus(ports).Union(unreg))
  }

  // ---- Installing one row ---------------------------------------------------------------------

  /** The 12 bits of a VID, section 9.6 of IEEE Std 802.1Q-2014. */
  predicate InRange(vid: Vid) { vid.n < 4096 }

  lemma CutIs(vid: Vid)
    ensures InRange(Cut(vid)) && (InRange(vid) <==> Cut(vid) == vid)
  {}

  /** Unique keys and 12-bit VIDs. */
  ghost predicate Clean(t: Table) {
    && Unique(t.rows)
    && forall i :: 0 <= i < |t.rows| && !t.rows[i].Free? ==> InRange(t.rows[i].vid)
  }

  /** The learned row an allocation gives up, or Free. */
  function Victim(rows: seq<Row>, q: Query): Row {
    var i := Slot(rows, q);
    if i < 0 || Find(rows, q) >= 0 then Free else rows[i]
  }

  /** An allocation fails exactly if there is no row of the same key, no free row and no
      learned one; otherwise the row it takes is one of these, in this order. */
  lemma SlotIsSafe(rows: seq<Row>, q: Query)
    ensures Slot(rows, q) < 0 <==>
              forall j :: 0 <= j < |rows| ==> !Matches(rows[j], q) && !rows[j].Free? && !Ageable(rows[j])
    ensures Slot(rows, q) >= 0 ==>
              var row := rows[Slot(rows, q)];
              Matches(row, q) || row == Victim(rows, q)
    ensures Victim(rows, q).Free? ||
              (Ageable(Victim(rows, q)) && forall j :: 0 <= j < |rows| ==> !Matches(rows[j], q) && !rows[j].Free?)
  {
    if !forall j :: 0 <= j < |rows| ==> !Matches(rows[j], q) && !rows[j].Free? && !Ageable(rows[j]) {
      var j :| 0 <= j < |rows| && (Matches(rows[j], q) || rows[j].Free? || Ageable(rows[j]));
      assert Matches(rows[j], q) || Matches(rows[j], ByFree) || Matches(rows[j], ByAge);
    }
    if Find(rows, q) < 0 && Find(rows, ByFree) < 0 {
      forall j | 0 <= j < |rows| ensures !Matches(rows[j], q) && !rows[j].Free? {
        assert !Matches(rows[j], ByFree);
      }
    }
  }

  /** Eviction safety: an allocation overwrites nothing but a row of the same key, a free
      row or a learned row, which is unicast and neither persistent nor an OUI row; without
      one of these the table stays as it is. */
  lemma EvictionSafe(t: Table, q: Query, r: Row, untagged: set<Vid>, j: nat)
    requires j < |t.rows|
    ensures var res := Install(t, q, r, untagged);
            && |res.t.rows| == |t.rows|
            && (res.t.rows[j] != t.rows[j] ==>
                  || Matches(t.rows[j], q) || t.rows[j].Free?
                  || (t.rows[j].Addr? && t.rows[j].mac.b0 & 1 == 0 && t.rows[j].state != 0 && t.rows[j].state != 2))
            && (res.ret != 0 ==> res.t.rows == t.rows)
  {
    hide Find, Slot;
    SlotIsSafe(t.rows, q);
  }

  lemma SlotFits(rows: seq<Row>, q: Query, r: Row)
    requires Unique(rows) && (q.ByAddr? || q.ByVlan?) && Matches(r, q) && Slot(rows, q) >= 0
    ensures Fits(rows, Slot(rows, q), r)
  {
    var i := Slot(rows, q);
    forall j | 0 <= j < |rows| && j != i
      ensures r.Addr? && rows[j].Addr? ==> KeyOf(rows[j]) != KeyOf(r)
      ensures r.Vlan? && rows[j].Vlan? ==> rows[j].vid != r.vid
    {
      if Find(rows, q) >= 0 {
        assert i == Find(rows, q);
        if Matches(rows[j], q) {
          FindIs(rows, q, j);
        }
      }
      assert !Matches(rows[j], q);
    }
  }

  /** A successful allocation is one update of a map; at most one other key goes, that of a
      learned row, and only if the table was full. */
  lemma InstallRefines(t: Table, q: Query, r: Row, untagged: set<Vid>)
    requires Clean(t) && (q.ByAddr? || q.ByVlan?) && Matches(r, q) && InRange(r.vid)
    ensures var res := Install(t, q, r, untagged);
            var victim := Victim(t.rows, q);
            && Clean(res.t) && res.t.untagged == untagged
            && (res.ret == 0 ==>
                  && AddrMap(res.t.rows) == PutAddr(DropAddr(AddrMap(t.rows), victim), r)
                  && VlanMap(res.t.rows) == PutVlan(VlanMap(t.rows), r)
                  && Fixed(AddrMap(res.t.rows)) ==
                       if r.Vlan? then Fixed(AddrMap(t.rows))
                       else if Ageable(r) then Fixed(AddrMap(t.rows)) - {KeyOf(r)}
                       else Fixed(AddrMap(t.rows))[KeyOf(r) := r])
  {
    hide Find, Unique, AddrMap, VlanMap, Fits, Fixed;
    SlotIsSafe(t.rows, q);
    var i := Slot(t.rows, q);
    if i >= 0 {
      SlotFits(t.rows, q, r);
      WriteMaps(t.rows, i, r);
      Overwritten(t.rows, q, r);
      InMap(t.rows, i);
      FixedUpdate(AddrMap(t.rows), Victim(t.rows, q), r);
    }
  }

  /** Writing over a row of the same key is the same as updating the map. */
  lemma Overwritten(rows: seq<Row>, q: Query, r: Row)
    requires (q.ByAddr? || q.ByVlan?) && Matches(r, q) && Slot(rows, q) >= 0
    ensures var row := rows[Slot(rows, q)];
            && PutAddr(DropAddr(AddrMap(rows), row), r) == PutAddr(DropAddr(AddrMap(rows), Victim(rows, q)), r)
            && PutVlan(DropVlan(VlanMap(rows), row), r) == PutVlan(VlanMap(rows), r)
  {
    hide AddrMap, VlanMap, Find;
    SlotIsSafe(rows, q);
    var row, a, v := rows[Slot(rows, q)], AddrMap(rows), VlanMap(rows);
    if Matches(row, q) && Victim(rows, q).Free? {
      assert q.ByAddr? ==> (a - {q.key})[q.key := r] == a[q.key := r];
      assert q.ByVlan? ==> (v - {q.vid})[q.vid := r] == v[q.vid := r];
    }
  }

  lemma InMap(rows: seq<Row>, i: nat)
    requires Unique(rows) && i < |rows|
    ensures rows[i].Addr? ==> KeyOf(rows[i]) in AddrMap(rows) && AddrMap(rows)[KeyOf(rows[i])] == rows[i]
    ensures rows[i].Vlan? ==> rows[i].vid in VlanMap(rows) && VlanMap(rows)[rows[i].vid] == rows[i]
  {
    hide AddrMap, VlanMap, Find;
    if rows[i].Addr? {
      InAddrMap(rows, KeyOf(rows[i]));
      FindIs(rows, ByAddr(KeyOf(rows[i])), i);
    }
    if rows[i].Vlan? {
      InVlanMap(rows, rows[i].vid);
      FindIs(rows, ByVlan(rows[i].vid), i);
    }
  }

  lemma FixedUpdate(addrs: map<Key, Row>, victim: Row, r: Row)
    requires victim.Free? || (Ageable(victim) && KeyOf(victim) in addrs && addrs[KeyOf(victim)] == victim)
    ensures Fixed(PutAddr(DropAddr(addrs, victim), r)) ==
              if !r.Addr? then Fixed(addrs)
              else if Ageable(r) then Fixed(addrs) - {KeyOf(r)}
              else Fixed(addrs)[KeyOf(r) := r]
  {
    hide Ageable;
  }

  /** Replacing or freeing a row that was found is an update or a removal in its map. */
  lemma RewriteRefines(t: Table, q: Query, r: Row)
    requires Clean(t) && (q.ByAddr? || q.ByVlan?) && Find(t.rows, q) >= 0
    requires r.Free? || (Matches(r, q) && InRange(r.vid))
    ensures var rows' := t.rows[Find(t.rows, q) := r];
            && Clean(t.(rows := rows'))
            && AddrMap(rows') == (if q.ByVlan? then AddrMap(t.rows)
                                  else if r.Free? then AddrMap(t.rows) - {q.key} else AddrMap(t.rows)[q.key := r])
            && VlanMap(rows') == (if q.ByAddr? then VlanMap(t.rows)
                                  else if r.Free? then VlanMap(t.rows) - {q.vid} else VlanMap(t.rows)[q.vid := r])
  {
    hide AddrMap, VlanMap, Find, Unique, Fits, PutAddr, DropAddr, PutVlan, DropVlan;
    var i := Find(t.rows, q);
    RewriteFits(t, q, r);
    WriteMaps(t.rows, i, r);
    MapRewritten(t.rows, q, i, r);
  }

  lemma RewriteFits(t: Table, q: Query, r: Row)
    requires Clean(t) && (q.ByAddr? || q.ByVlan?) && Find(t.rows, q) >= 0 && (r.Free? || Matches(r, q))
    ensures Fits(t.rows, Find(t.rows, q), r)
  {
    if !r.Free? {
      SlotFits(t.rows, q, r);
    }
  }

  lemma MapRewritten(rows: seq<Row>, q: Query, i: nat, r: Row)
    requires (q.ByAddr? || q.ByVlan?) && i < |rows| && Matches(rows[i], q) && (r.Free? || Matches(r, q))
    ensures var a := AddrMap(rows);
            PutAddr(DropAddr(a, rows[i]), r) == if q.ByVlan? then a else if r.Free? then a - {q.key} else a[q.key := r]
    ensures var v := VlanMap(rows);
            PutVlan(DropVlan(v, rows[i]), r) == if q.ByAddr? then v else if r.Free? then v - {q.vid} else v[q.vid := r]
  {
    hide AddrMap, VlanMap;
  }

  // ---- Address rows ---------------------------------------------------------------------------------

  function SearchKey(mac: Mac, tagged: bool, vid: Vid): Key {
    Key(mac, if tagged then vid else Vid(0))
  }

  predicate VidOk(tagged: bool, vid: Vid) { tagged ==> InRange(vid) }

  /** The fields of a unicast entry: its port number lies in the lower two ports, and it is
      persistent. */
  predicate UcastFields(r: Row, mac: Mac, port: bv32, tagged: bool, secure: bool, blocked: bool, vid: Vid) {
    && r.Addr? && r.mac == mac && r.vid.n == (if tagged then vid.n & 0xfff else 0)
    && (r.ports.Has(0) <==> port & 1 == 1) && (r.ports.Has(1) <==> (port >> 1) & 1 == 1) && !r.ports.Has(2)
    && r.state == 0 && r.secure == secure && r.super == blocked && r.tagged == tagged
  }

  lemma NumberedPorts(port: bv32)
    ensures PortsOf(port & 3).Has(0) <==> port & 1 == 1
    ensures PortsOf(port & 3).Has(1) <==> (port >> 1) & 1 == 1
    ensures !PortsOf(port & 3).Has(2)
  {}

  lemma UcastIs(mac: Mac, port: bv32, tagged: bool, secure: bool, blocked: bool, vid: Vid)
    ensures UcastFields(UcastOf(mac, port, tagged, secure, blocked, vid), mac, port, tagged, secure, blocked, vid)
  {
    hide PortsOf;
    NumberedPorts(port);
  }

  /** `add_ucast` is a map update, with the fields as asked. */
  lemma AddUcastUpdates(t: Table, mac: Mac, port: bv32, tagged: bool, secure: bool, blocked: bool, vid: Vid)
    requires Clean(t) && VidOk(tagged, vid)
    ensures var res := AddUcast(t, mac, port, tagged, secure, blocked, vid);
            var key, q := Key(mac, if tagged then vid else Vid(0)), AddrQuery(mac, tagged, vid);
            && Clean(res.t)
            && (res.ret == 0 ==>
                  && key in AddrMap(res.t.rows)
                  && var r := AddrMap(res.t.rows)[key];
                  && UcastFields(r, mac, port, tagged, secure, blocked, vid)
                  && r == UcastOf(mac, port, tagged, secure, blocked, vid)
                  && AddrMap(res.t.rows) == DropAddr(AddrMap(t.rows), Victim(t.rows, q))[key := r]
                  && Fixed(AddrMap(res.t.rows)) == Fixed(AddrMap(t.rows))[key := r]
                  && VlanMap(res.t.rows) == VlanMap(t.rows))
            && (res.ret != 0 ==> res == Result(-ENOMEM, t))
  {
    hide Clean, AddrMap, VlanMap, Fixed, Find, Victim, Slot, Cut, UcastFields, PortsOf;
    CutIs(vid);
    CutIs(Vid(0));
    UcastIs(mac, port, tagged, secure, blocked, vid);
    InstallRefines(t, AddrQuery(mac, tagged, vid), UcastOf(mac, port, tagged, secure, blocked, vid), t.untagged);
  }

  /** `del_ucast` is a map removal, and fails exactly if the key is absent. */
  lemma DelUcastRemoves(t: Table, mac: Mac, tagged: bool, vid: Vid)
    requires Clean(t)
    ensures var res := DelUcast(t, mac, tagged, vid);
            var key := Key(mac, if tagged then vid else Vid(0));
            && Clean(res.t)
            && (res.ret == 0 <==> key in AddrMap(t.rows)) && (res.ret != 0 ==> res == Result(-ENOENT, t))
            && AddrMap(res.t.rows) == AddrMap(t.rows) - {key} && VlanMap(res.t.rows) == VlanMap(t.rows)
  {
    hide Clean, AddrMap, VlanMap, Find;
    InAddrMap(t.rows, SearchKey(mac, tagged, vid));
    if Find(t.rows, AddrQuery(mac, tagged, vid)) >= 0 {
      RewriteRefines(t, AddrQuery(mac, tagged, vid), Free);
    }
  }

  /** `add_mcast` adds the ports of the mask to those of the group. */
  lemma AddMcastJoins(t: Table, mac: Mac, mask: bv32, tagged: bool, super: bool, vid: Vid, state: bv32)
    requires Clean(t) && VidOk(tagged, vid)
    ensures var res := AddMcast(t, mac, mask, tagged, super, vid, state);
            var key, q := Key(mac, if tagged then vid else Vid(0)), AddrQuery(mac, tagged, vid);
            var a := AddrMap(t.rows);
            && Clean(res.t)
            && (res.ret == 0 ==>
                  && key in AddrMap(res.t.rows)
                  && var r := AddrMap(res.t.rows)[key];
                  && AddrMap(res.t.rows) == DropAddr(a, Victim(t.rows, q))[key := r]
                  && r.Addr? && r.mac == mac && r.vid == key.vid
                  && r.ports == PortsOf(mask).Union(if key in a then a[key].ports else NONE)
                  && r.super == super && r.tagged == tagged && r.state == state & 3
                  && r.secure == (key in a && a[key].secure)
                  && Fixed(AddrMap(res.t.rows)) == (if Ageable(r) then Fixed(a) - {key} else Fixed(a)[key := r])
                  && VlanMap(res.t.rows) == VlanMap(t.rows))
            && (res.ret != 0 ==> res == Result(-ENOMEM, t))
  {
    hide Clean, AddrMap, VlanMap, Fixed, Find, Victim, Slot, Cut, Ageable;
    CutIs(vid);
    var q := AddrQuery(mac, tagged, vid);
    var r := Joined(RowAt(t.rows, q), mac, mask, tagged, super, vid, state);
    InAddrMap(t.rows, q.key);
    KeyOfJoined(t, q, mac, mask, tagged, super, vid, state);
    InstallRefines(t, q, r, t.untagged);
  }

  lemma KeyOfJoined(t: Table, q: Query, mac: Mac, mask: bv32, tagged: bool, super: bool, vid: Vid, state: bv32)
    requires Clean(t) && VidOk(tagged, vid) && q == AddrQuery(mac, tagged, vid)
    ensures var r := Joined(RowAt(t.rows, q), mac, mask, tagged, super, vid, state);
            r.Addr? && Matches(r, q) && InRange(r.vid)
  {
    CutIs(vid);
    CutIs(Vid(0));
    hide Cut;
  }

  /** `del_mcast` takes the ports of the mask away; the entry goes with its last port, or at
      once for a mask of zero. */
  lemma DelMcastLeaves(t: Table, mac: Mac, mask: bv32, tagged: bool, vid: Vid)
    requires Clean(t)
    ensures var res := DelMcast(t, mac, mask, tagged, vid);
            var key := Key(mac, if tagged then vid else Vid(0));
            var a := AddrMap(t.rows);
            && Clean(res.t)
            && (res.ret == 0 <==> key in a) && (res.ret != 0 ==> res == Result(-ENOENT, t))
            && (res.ret == 0 ==>
                  AddrMap(res.t.rows) ==
                    if mask == 0 || a[key].ports.Within(PortsOf(mask)) then a - {key}
                    else a[key := a[key].(ports := a[key].ports.Minus(PortsOf(mask)))])
            && VlanMap(res.t.rows) == VlanMap(t.rows)
  {
    hide Clean, AddrMap, VlanMap, Find, PortsOf;
    var q := AddrQuery(mac, tagged, vid);
    InAddrMap(t.rows, q.key);
    var i := Find(t.rows, q);
    if i >= 0 {
      VidInRange(t, i);
      RewriteRefines(t, q, Left(t.rows[i], mask));
    }
  }

  lemma VidInRange(t: Table, i: nat)
    requires Clean(t) && i < |t.rows|
    ensures !t.rows[i].Free? ==> InRange(t.rows[i].vid)
  {}
}
