/** The VLAN rows of the lookup table and the bitmap that caches one of their bits. */
module AleVlan {
  import opened Kernel
  import opened AleCodec
  import opened AleMaps
  import opened AleOps

  // ---- The cache ------------------------------------------------------------------------------

  /** The host port is untagged in the VLAN. */
  predicate HostUntagged(vlans: map<Vid, Row>, vid: Vid) {
    vid in vlans && UntagOf(vlans[vid]).p0
  }

  /** The bitmap holds exactly the VLANs with an untagged host port. */
  ghost predicate Agree(t: Table) {
    forall vid :: vid in t.untagged <==> HostUntagged(VlanMap(t.rows), vid)
  }

  lemma CacheFollows(untagged: set<Vid>, vlans: map<Vid, Row>, vid: Vid, r: Row)
    requires forall v :: v in untagged <==> HostUntagged(vlans, v)
    ensures var vlans' := if r.Vlan? then vlans[vid := r] else vlans - {vid};
            forall v :: v in Cache(untagged, vid, UntagOf(r)) <==> HostUntagged(vlans', v)
  {}

  // ---- Adding and removing VLANs ----------------------------------------------------------------

  /** `add_vlan` is a map update. When it fails the table stays, but the bitmap already has
      the new bit: it then agrees with the table exactly if that bit was not to be set. */
  lemma AddVlanUpdates(t: Table, vid: Vid, members: Ports, untag: Ports, reg: Ports, unreg: Ports)
    requires Clean(t) && InRange(vid)
    ensures var res := AddVlan(t, vid, members, untag, reg, unreg);
            && Clean(res.t) && (res.ret == 0 <==> Slot(t.rows, ByVlan(vid)) >= 0)
            && (res.ret == 0 ==>
                  && VlanMap(res.t.rows) == VlanMap(t.rows)[vid := Vlan(vid, members, untag, reg, unreg)]
                  && AddrMap(res.t.rows) == DropAddr(AddrMap(t.rows), Victim(t.rows, ByVlan(vid)))
                  && Fixed(AddrMap(res.t.rows)) == Fixed(AddrMap(t.rows))
                  && (Agree(t) ==> Agree(res.t)))
            && (res.ret != 0 ==>
                  && res.ret == -ENOMEM && res.t.rows == t.rows && vid !in VlanMap(t.rows)
                  && (Agree(t) ==> (Agree(res.t) <==> !untag.p0)))
  {
    hide Clean, AddrMap, VlanMap, Fixed, Find, Victim, Cut;
    CutIs(vid);
    var r := Vlan(vid, members, untag, reg, unreg);
    var res := AddVlan(t, vid, members, untag, reg, unreg);
    InstallRefines(t, ByVlan(vid), r, Cache(t.untagged, vid, untag));
    InVlanMap(t.rows, vid);
    if Agree(t) && res.ret == 0 {
      CacheFollows(t.untagged, VlanMap(t.rows), vid, r);
    }
    if Agree(t) && res.ret != 0 {
      assert vid in res.t.untagged <==> untag.p0;
      assert !HostUntagged(VlanMap(t.rows), vid);
    }
  }

  /** The row of a VLAN becomes `r`, or goes with it. */
  function WithRow(vlans: map<Vid, Row>, vid: Vid, r: Row): map<Vid, Row> {
    if r.Vlan? then vlans[vid := r] else vlans - {vid}
  }

  /** The masks of a row, by number: members, untag, reg and unreg. */
  predicate InMask(row: Row, mask: int, port: int)
    requires row.Vlan?
  {
    || (mask == 0 && row.members.Has(port)) || (mask == 1 && row.untag.Has(port))
    || (mask == 2 && row.reg.Has(port)) || (mask == 3 && row.unreg.Has(port))
  }

  /** Row `r` is `row` without `ports`: every mask loses what is no member afterwards, and the
      row is free when no member is left. */
  ghost predicate ShrinksTo(row: Row, ports: Ports, r: Row)
    requires row.Vlan?
  {
    && (r.Free? <==> forall p :: row.members.Has(p) ==> ports.Has(p))
    && (r.Free? ||
        (r.Vlan? && r.vid == row.vid
         && forall m, p :: 0 <= m <= 3 ==>
              (InMask(r, m, p) <==> InMask(row, m, p) && row.members.Has(p) && !ports.Has(p))))
  }

  lemma ShrinkIs(row: Row, ports: Ports)
    requires row.Vlan?
    ensures ShrinksTo(row, ports, Shrunk(row, ports))
  {
    assert row.members.p0 == row.members.Has(0) && row.members.p1 == row.members.Has(1)
           && row.members.p2 == row.members.Has(2);
  }

  lemma PutShrunkRefines(t: Table, vid: Vid, r: Row)
    requires Clean(t) && Find(t.rows, ByVlan(vid)) >= 0
    requires r.Free? || (r.Vlan? && r.vid == vid)
    ensures var t' := PutShrunk(t, Find(t.rows, ByVlan(vid)), vid, r);
            && Clean(t') && VlanMap(t'.rows) == WithRow(VlanMap(t.rows), vid, r) && AddrMap(t'.rows) == AddrMap(t.rows)
            && (Agree(t) ==> Agree(t'))
  {
    hide AddrMap, VlanMap, Find, Unique;
    VidInRange(t, Find(t.rows, ByVlan(vid)));
    RewriteRefines(t, ByVlan(vid), r);
    if Agree(t) {
      CacheFollows(t.untagged, VlanMap(t.rows), vid, r);
    }
  }

  /** `vlan_del_modify` takes ports out of a VLAN and out of its three masks; the VLAN goes
      with its last member. `Shrunk` is the row by its masks, `ShrinksTo` port by port. */
  lemma VlanDelModifyShrinks(t: Table, vid: Vid, ports: Ports)
    requires Clean(t)
    ensures var res := VlanDelModify(t, vid, ports);
            var v := VlanMap(t.rows);
            && Clean(res.t) && (Agree(t) ==> Agree(res.t)) && AddrMap(res.t.rows) == AddrMap(t.rows)
            && (res.ret == 0 <==> vid in v) && (res.ret != 0 ==> res == Result(-ENOENT, t))
            && (res.ret == 0 ==>
                  && v[vid].Vlan? && v[vid].vid == vid
                  && VlanMap(res.t.rows) == WithRow(v, vid, Shrunk(v[vid], ports))
                  && ShrinksTo(v[vid], ports, Shrunk(v[vid], ports)))
  {
    hide Clean, AddrMap, VlanMap, Find, Agree, Shrunk, ShrinksTo;
    InVlanMap(t.rows, vid);
    var i := Find(t.rows, ByVlan(vid));
    if i >= 0 {
      ShrinkIs(t.rows[i], ports);
      ShrunkIs(t.rows[i], ports);
      PutShrunkRefines(t, vid, Shrunk(t.rows[i], ports));
    }
  }

  lemma ShrunkIs(row: Row, ports: Ports)
    requires row.Vlan?
    ensures var r := Shrunk(row, ports);
            && (r.Free? <==> row.members.Within(ports))
            && (r.Free? || (r.Vlan? && r.vid == row.vid && r.members == row.members.Minus(ports)))
  {}

  /** `del_vlan` without a mask, or with all members in the mask, removes the VLAN; otherwise
      it takes the ports of the mask out, but never the host port. */
  lemma DelVlanRemoves(t: Table, vid: Vid, mask: bv32)
    requires Clean(t)
    ensures var res := DelVlan(t, vid, mask);
            var v := VlanMap(t.rows);
            && Clean(res.t) && (Agree(t) ==> Agree(res.t)) && AddrMap(res.t.rows) == AddrMap(t.rows)
            && (res.ret == 0 <==> vid in v) && (res.ret != 0 ==> res == Result(-ENOENT, t))
            && (res.ret == 0 ==>
                  && v[vid].Vlan?
                  && if mask == 0 || v[vid].members.Within(PortsOf(mask)) then VlanMap(res.t.rows) == v - {vid}
                     else
                       && vid in VlanMap(res.t.rows)
                       && VlanMap(res.t.rows) == v[vid := Shrunk(v[vid], PortsOf(mask).Minus(HOST))]
                       && ShrinksTo(v[vid], PortsOf(mask).Minus(HOST), VlanMap(res.t.rows)[vid])
                       && VlanMap(res.t.rows)[vid].Vlan?
                       && VlanMap(res.t.rows)[vid].members.p0 == v[vid].members.p0)
  {
    hide Clean, AddrMap, VlanMap, Find, Agree, PortsOf, ShrinksTo;
    InVlanMap(t.rows, vid);
    var i := Find(t.rows, ByVlan(vid));
    if i >= 0 {
      ShrinkIs(t.rows[i], PortsOf(mask).Minus(HOST));
      var all := mask == 0 || t.rows[i].members.Minus(PortsOf(mask)).Empty();
      PutShrunkRefines(t, vid, if all then Free else Shrunk(t.rows[i], PortsOf(mask).Minus(HOST)));
    }
  }

  /** `vlan_add_modify` sets the ports of the mask to what is asked and leaves the others. */
  lemma VlanAddModifySets(t: Table, vid: Vid, ports: Ports, untag: Ports, reg: Ports, unreg: Ports)
    requires Clean(t) && InRange(vid)
    ensures var res := VlanAddModify(t, vid, ports, untag, reg, unreg);
            var v := VlanMap(t.rows);
            && Clean(res.t) && (res.ret == 0 <==> Slot(t.rows, ByVlan(vid)) >= 0)
            && (res.ret == 0 ==>
                  && (vid in v ==> v[vid].Vlan?)
                  && var row := if vid in v then v[vid] else Vlan(vid, NONE, NONE, NONE, NONE);
                  && VlanMap(res.t.rows) == v[vid := Grown(row, vid, ports, untag, reg, unreg)]
                  && GrowsTo(row, vid, ports, untag, reg, unreg, VlanMap(res.t.rows)[vid])
                  && Fixed(AddrMap(res.t.rows)) == Fixed(AddrMap(t.rows))
                  && (Agree(t) ==> Agree(res.t)))
            && (res.ret != 0 ==>
                  && res.ret == -ENOMEM && res.t.rows == t.rows && vid !in v
                  && (Agree(t) ==> (Agree(res.t) <==> !untag.p0)))
  {
    hide Clean, AddrMap, VlanMap, Fixed, Find, Victim, Cut, Agree, GrowsTo;
    InVlanMap(t.rows, vid);
    var row := VlanBefore(t, vid);
    GrowIs(row, vid, ports, untag, reg, unreg);
    AddVlanUpdates(t, vid, row.members.Union(ports), row.untag.Minus(ports).Union(untag),
                   row.reg.Minus(ports).Union(reg), row.unreg.Minus(ports).Union(unreg));
  }

  /** Row `r` is `row` with `ports` as members, and set anew in the other masks. */
  ghost predicate GrowsTo(row: Row, vid: Vid, ports: Ports, untag: Ports, reg: Ports, unreg: Ports, r: Row)
    requires row.Vlan?
  {
    && r.Vlan? && r.vid == vid
    && (forall p :: r.members.Has(p) <==> row.members.Has(p) || ports.Has(p))
    && SetAnew(row.untag, ports, untag, r.untag)
    && SetAnew(row.reg, ports, reg, r.reg)
    && SetAnew(row.unreg, ports, unreg, r.unreg)
  }

  ghost predicate SetAnew(was: Ports, ports: Ports, asked: Ports, now: Ports) {
    && (forall p :: ports.Has(p) ==> (now.Has(p) <==> asked.Has(p)))
    && (forall p :: !ports.Has(p) ==> (now.Has(p) <==> was.Has(p) || asked.Has(p)))
  }

  lemma GrowIs(row: Row, vid: Vid, ports: Ports, untag: Ports, reg: Ports, unreg: Ports)
    requires row.Vlan?
    ensures GrowsTo(row, vid, ports, untag, reg, unreg, Grown(row, vid, ports, untag, reg, unreg))
  {
    AnewIs(row.untag, ports, untag);
    AnewIs(row.reg, ports, reg);
    AnewIs(row.unreg, ports, unreg);
    hide SetAnew;
  }

  lemma AnewIs(was: Ports, ports: Ports, asked: Ports)
    ensures SetAnew(was, ports, asked, was.Minus(ports).Union(asked))
  {}

  /** A VLAN row with the ports `ports` set anew. */
  function Grown(row: Row, vid: Vid, ports: Ports, untag: Ports, reg: Ports, unreg: Ports): Row
    requires row.Vlan?
  {
    Vlan(vid, row.members.Union(ports), row.untag.Minus(ports).Union(untag), row.reg.Minus(ports).Union(reg),
         row.unreg.Minus(ports).Union(unreg))
  }

  // ---- Masks within the members -------------------------------------------------------------------

  /** The three masks name members only. */
  predicate Proper(row: Row) {
    row.Vlan? ==> row.untag.Within(row.members) && row.reg.Within(row.members) && row.unreg.Within(row.members)
  }

  ghost predicate AllProper(vlans: map<Vid, Row>) {
    forall vid :: vid in vlans ==> Proper(vlans[vid])
  }

  /** Shrinking always yields a proper row, growing one if it was proper before and the new
      masks lie within the new ports. */
  lemma ProperRows(row: Row, vid: Vid, ports: Ports, untag: Ports, reg: Ports, unreg: Ports)
    requires row.Vlan?
    ensures Proper(Shrunk(row, ports))
    ensures Proper(row) && untag.Within(ports) && reg.Within(ports) && unreg.Within(ports) ==>
              Proper(Grown(row, vid, ports, untag, reg, unreg))
  {}

  /** Adding ports that are not members yet and taking them out again gives the row back
      exactly if there was no row, or one with members and all masks within them. */
  lemma AddThenRemove(t: Table, vid: Vid, ports: Ports, untag: Ports, reg: Ports, unreg: Ports)
    requires Clean(t) && InRange(vid)
    requires untag.Within(ports) && reg.Within(ports) && unreg.Within(ports)
    requires VlanBefore(t, vid).members.Meet(ports).Empty()
    requires VlanAddModify(t, vid, ports, untag, reg, unreg).ret == 0
    ensures var t1 := VlanAddModify(t, vid, ports, untag, reg, unreg).t;
            var res := VlanDelModify(t1, vid, ports);
            var v := VlanMap(t.rows);
            && res.ret == 0
            && (VlanMap(res.t.rows) == v <==> vid !in v || (!v[vid].members.Empty() && Proper(v[vid])))
            && Fixed(AddrMap(res.t.rows)) == Fixed(AddrMap(t.rows))
  {
    hide Clean, AddrMap, VlanMap, Fixed, Find, Agree, VlanAddModify, VlanDelModify;
    var t1 := VlanAddModify(t, vid, ports, untag, reg, unreg).t;
    var v := VlanMap(t.rows);
    InVlanMap(t.rows, vid);
    VlanAddModifySets(t, vid, ports, untag, reg, unreg);
    VlanDelModifyShrinks(t1, vid, ports);
    var row := if vid in v then v[vid] else Vlan(vid, NONE, NONE, NONE, NONE);
    var grown := Grown(row, vid, ports, untag, reg, unreg);
    var r := Shrunk(grown, ports);
    RegrownRow(row, vid, ports, untag, reg, unreg);
    assert vid !in v && r.Free? ==> v[vid := grown] - {vid} == v;
    assert vid in v && r.Vlan? ==> (v[vid := grown][vid := r] == v <==> r == v[vid]);
  }

  lemma RegrownRow(row: Row, vid: Vid, ports: Ports, untag: Ports, reg: Ports, unreg: Ports)
    requires row.Vlan? && row.members.Meet(ports).Empty()
    requires untag.Within(ports) && reg.Within(ports) && unreg.Within(ports)
    ensures var r := Shrunk(Grown(row, vid, ports, untag, reg, unreg), ports);
            && (r.Free? <==> row.members.Empty())
            && (r.Free? || (r.Vlan? && (r == row <==> Proper(row) && row.vid == vid)))
  {}
}
