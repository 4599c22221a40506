/** The driver's code for the lookup table: index loops over the hardware table and
  field-by-field edits of entries, proved against the functions of `AleOps`.
 */
module AleTable {
  import opened Kernel
  import opened AleCodec
  import opened AleMaps
  import opened AleOps

  ghost function RowsOf(entries: seq<Entry>): (rows: seq<Row>)
    ensures |rows| == |entries| && forall i :: 0 <= i < |entries| ==> rows[i] == Decode(entries[i])
  {
    seq(|entries|, i requires 0 <= i < |entries| => Decode(entries[i]))
  }

  lemma WriteRow(entries: seq<Entry>, i: nat, e: Entry)
    requires i < |entries|
    ensures RowsOf(entries[i := e]) == RowsOf(entries)[i := Decode(e)]
  {
    hide Decode;
  }

  /** The index a search returns. */
  function Index(idx: int): int {
    if idx < 0 then -ENOENT else idx
  }

  // ---- What the comparisons of a search mean ----------------------------------------------

  lemma VidCompare(e: Entry, vid: Vid)
    ensures Get(e, VID) == Wide(vid) <==> VidOf(Get(e, VID)) == vid
  {}

  lemma AddrMatch(e: Entry, mac: Mac, vid: Vid)
    ensures Matches(Decode(e), ByAddr(Key(mac, vid))) <==>
              (Get(e, TYPE) == ADDR || Get(e, TYPE) == VLAN_ADDR) && Get(e, VID) == Wide(vid) && GetAddr(e) == mac
  {
    TypeRange(e);
    VidCompare(e, vid);
    hide Get, GetAddr, VidOf, Wide, PortsOf;
  }

  lemma VlanMatch(e: Entry, vid: Vid)
    ensures Matches(Decode(e), ByVlan(vid)) <==> Get(e, TYPE) == VLAN && Get(e, VID) == Wide(vid)
  {
    VidCompare(e, vid);
    hide Get, GetAddr, VidOf, Wide, PortsOf;
  }

  lemma FreeMatch(e: Entry)
    ensures Matches(Decode(e), ByFree) <==> Get(e, TYPE) == FREE
  {
    hide Get, GetAddr, VidOf, PortsOf;
  }

  lemma AgeMatch(e: Entry)
    ensures Matches(Decode(e), ByAge) <==>
              (Get(e, TYPE) == ADDR || Get(e, TYPE) == VLAN_ADDR) && Get(e, GROUP) == 0 && Get(e, STATE) != 0
                  && Get(e, STATE) != 2
  {
    TypeRange(e);
    GroupBit(e);
    hide Get, GetAddr, VidOf, PortsOf, Mac.Group;
  }

  lemma FoundAt(rows: seq<Row>, q: Query, idx: int)
    requires -1 <= idx < |rows|
    requires idx >= 0 ==> Matches(rows[idx], q)
    requires forall j :: 0 <= j < (if idx < 0 then |rows| else idx) ==> !Matches(rows[j], q)
    ensures Find(rows, q) == idx
  {}

  /** `struct cpsw_ale`: the hardware table, and `p0_untag_vid_mask` as a set. */
  class Ale {
    const hw: array<Entry>
    var untagged: set<Vid>

    constructor (entries: nat)
      ensures fresh(hw) && hw.Length == entries && State() == Table(seq(entries, _ => Free), {})
    {
      hw := new Entry[entries](_ => BLANK);
      untagged := {};
      new;
      BlankRow();
      assert RowsOf(hw[..]) == seq(entries, _ => Free);
    }

    ghost function State(): Table
      reads `untagged, hw
    {
      Table(RowsOf(hw[..]), untagged)
    }

    // ---- Searching --------------------------------------------------------------------------

    /** `cpsw_ale_match_addr`. */
    method MatchAddr(mac: Mac, vid: Vid) returns (idx: int)
      ensures idx == Index(Find(RowsOf(hw[..]), ByAddr(Key(mac, vid))))
    {
      hide Get, GetAddr, Decode, Wide, Matches;
      ghost var q := ByAddr(Key(mac, vid));
      for i := 0 to hw.Length
        invariant forall j :: 0 <= j < i ==> !Matches(Decode(hw[j]), q)
      {
        var e := hw[i];
        AddrMatch(e, mac, vid);
        var kind := Get(e, TYPE);
        if kind != ADDR && kind != VLAN_ADDR {
          continue;
        }
        if Get(e, VID) != Wide(vid) {
          continue;
        }
        if GetAddr(e) == mac {
          FoundAt(RowsOf(hw[..]), q, i);
          return i;
        }
      }
      FoundAt(RowsOf(hw[..]), q, -1);
      idx := -ENOENT;
    }

    /** `cpsw_ale_match_vlan`. */
    method MatchVlan(vid: Vid) returns (idx: int)
      ensures idx == Index(Find(RowsOf(hw[..]), ByVlan(vid)))
    {
      hide Get, Decode, Wide, Matches;
      for i := 0 to hw.Length
        invariant forall j :: 0 <= j < i ==> !Matches(Decode(hw[j]), ByVlan(vid))
      {
        var e := hw[i];
        VlanMatch(e, vid);
        if Get(e, TYPE) != VLAN {
          continue;
        }
        if Get(e, VID) == Wide(vid) {
          FoundAt(RowsOf(hw[..]), ByVlan(vid), i);
          return i;
        }
      }
      FoundAt(RowsOf(hw[..]), ByVlan(vid), -1);
      idx := -ENOENT;
    }

    /** `cpsw_ale_match_free`. */
    method MatchFree() returns (idx: int)
      ensures idx == Index(Find(RowsOf(hw[..]), ByFree))
    {
      hide Get, Decode, Matches;
      for i := 0 to hw.Length
        invariant forall j :: 0 <= j < i ==> !Matches(Decode(hw[j]), ByFree)
      {
        FreeMatch(hw[i]);
        if Get(hw[i], TYPE) == FREE {
          FoundAt(RowsOf(hw[..]), ByFree, i);
          return i;
        }
      }
      FoundAt(RowsOf(hw[..]), ByFree, -1);
      idx := -ENOENT;
    }

    /** `cpsw_ale_find_ageable`. */
    method FindAgeable() returns (idx: int)
      ensures idx == Index(Find(RowsOf(hw[..]), ByAge))
    {
      hide Get, Decode, Matches;
      for i := 0 to hw.Length
        invariant forall j :: 0 <= j < i ==> !Matches(Decode(hw[j]), ByAge)
      {
        var e := hw[i];
        AgeMatch(e);
        var kind := Get(e, TYPE);
        if kind != ADDR && kind != VLAN_ADDR {
          continue;
        }
        if Get(e, GROUP) != 0 {
          continue;
        }
        kind := Get(e, STATE);
        if kind != 0 && kind != 2 {
          FoundAt(RowsOf(hw[..]), ByAge, i);
          return i;
        }
      }
      FoundAt(RowsOf(hw[..]), ByAge, -1);
      idx := -ENOENT;
    }

    /** `cpsw_ale_write`. */
    method Write(idx: nat, e: Entry)
      requires idx < hw.Length
      modifies hw
      ensures RowsOf(hw[..]) == old(RowsOf(hw[..]))[idx := Decode(e)]
    {
      hide Decode;
      WriteRow(hw[..], idx, e);
      ghost var entries := hw[..];
      hw[idx] := e;
      assert hw[..] == entries[idx := e];
    }

    /** The end of every add: over `found`, into a free entry, or over a learned one. */
    method Place(ghost q: Query, found: int, e: Entry) returns (ret: int)
      requires found == Index(Find(RowsOf(hw[..]), q))
      modifies hw
      ensures Result(ret, State()) == Install(old(State()), q, Decode(e), untagged)
    {
      hide Decode, Find;
      var idx := found;
      if idx < 0 {
        idx := MatchFree();
      }
      if idx < 0 {
        idx := FindAgeable();
      }
      if idx < 0 {
        return -ENOMEM;
      }
      Write(idx, e);
      ret := 0;
    }

    // ---- Address entries ---------------------------------------------------------------------

    /** `cpsw_ale_add_ucast`. */
    method AddUcast(mac: Mac, port: bv32, tagged: bool, secure: bool, blocked: bool, vid: Vid) returns (ret: int)
      modifies hw
      ensures Result(ret, State()) == AleOps.AddUcast(old(State()), mac, port, tagged, secure, blocked, vid)
    {
      hide Decode, Set, SetAddr, SetVlanEntryType, Bit, Cut, PortsOf, Find, Install;
      var e := SetVlanEntryType(BLANK, tagged, vid);
      e := SetAddr(e, mac);
      e := Set(e, STATE, 0);
      e := Set(e, SECURE, Bit(secure));
      e := Set(e, SUPER, Bit(blocked));
      e := Set(e, PORT_NUM, port);
      UcastRow(mac, port, tagged, secure, blocked, vid);
      var idx := MatchAddr(mac, if tagged then vid else Vid(0));
      ret := Place(AddrQuery(mac, tagged, vid), idx, e);
    }

    /** `cpsw_ale_del_ucast`. */
    method DelUcast(mac: Mac, tagged: bool, vid: Vid) returns (ret: int)
      modifies hw
      ensures Result(ret, State()) == AleOps.DelUcast(old(State()), mac, tagged, vid)
    {
      hide Decode, Set, Find;
      var idx := MatchAddr(mac, if tagged then vid else Vid(0));
      if idx < 0 {
        return -ENOENT;
      }
      var e := Set(BLANK, TYPE, FREE);
      FreeRow(BLANK);
      Write(idx, e);
      ret := 0;
    }

    /** `cpsw_ale_add_mcast`. */
    method AddMcast(mac: Mac, portMask: bv32, tagged: bool, super: bool, vid: Vid, state: bv32) returns (ret: int)
      modifies hw
      ensures Result(ret, State()) == AleOps.AddMcast(old(State()), mac, portMask, tagged, super, vid, state)
    {
      hide Decode, Get, Set, SetAddr, SetVlanEntryType, Bit, Or, Find, Install, Joined;
      var e := BLANK;
      BlankRow();
      var idx := MatchAddr(mac, if tagged then vid else Vid(0));
      if idx >= 0 {
        e := hw[idx];
      }
      McastRow(e, mac, portMask, tagged, super, vid, state);
      ghost var e0 := e;
      e := SetVlanEntryType(e, tagged, vid);
      e := SetAddr(e, mac);
      e := Set(e, SUPER, Bit(super));
      e := Set(e, STATE, state);
      e := Set(e, PORT_MASK, Or(portMask, Get(e, PORT_MASK)));
      assert e == McastEntry(e0, mac, portMask, tagged, super, vid, state);
      ret := Place(AddrQuery(mac, tagged, vid), idx, e);
    }

    /** `cpsw_ale_del_mcast`. */
    method DelMcast(mac: Mac, portMask: bv32, tagged: bool, vid: Vid) returns (ret: int)
      modifies hw
      ensures Result(ret, State()) == AleOps.DelMcast(old(State()), mac, portMask, tagged, vid)
    {
      hide Decode, Get, Set, Find, AndNot, PortsOf, Narrow;
      var mcastMembers := 0;
      var idx := MatchAddr(mac, if tagged then vid else Vid(0));
      if idx < 0 {
        return -ENOENT;
      }
      var e := hw[idx];
      PortMaskRow(e, AndNot(Get(e, PORT_MASK), portMask));
      PortsAlgebra(Get(e, PORT_MASK), portMask);
      NarrowPorts(Get(e, PORT_MASK), portMask);
      NarrowPorts(AndNot(Get(e, PORT_MASK), portMask), 0);
      FreeRow(e);
      if portMask != 0 {
        mcastMembers := Get(e, PORT_MASK);
        mcastMembers := AndNot(mcastMembers, portMask);
      }
      if mcastMembers != 0 {
        e := Set(e, PORT_MASK, mcastMembers);
      } else {
        e := Set(e, TYPE, FREE);
      }
      Write(idx, e);
      ret := 0;
    }

    /** `cpsw_ale_flush_mcast`. */
    static method FlushMcast(e: Entry, portMask: bv32) returns (e': Entry)
      requires Decode(e).Addr?
      ensures var row := Decode(e);
              var ports := row.ports.Minus(PortsOf(portMask));
              Decode(e') == if row.ports.Meet(PortsOf(portMask)).Empty() then row
                            else if ports.Empty() then Free else row.(ports := ports)
    {
      hide Decode, Get, Set, And, AndNot, PortsOf, Narrow;
      var mask := Get(e, PORT_MASK);
      PortMaskRow(e, AndNot(mask, portMask));
      PortsAlgebra(mask, portMask);
      NarrowPorts(mask, portMask);
      NarrowPorts(And(mask, portMask), 0);
      NarrowPorts(AndNot(mask, portMask), 0);
      FreeRow(e);
      if And(mask, portMask) == 0 {
        return e;
      }
      mask := AndNot(mask, portMask);
      if mask != 0 {
        e' := Set(e, PORT_MASK, mask);
      } else {
        e' := Set(e, TYPE, FREE);
      }
    }

    /** `cpsw_ale_flush_multicast`; scope `All` is the VLAN number -1. */
    method FlushMulticast(portMask: bv32, scope: Scope)
      modifies hw
      ensures State() == AleOps.FlushMulticast(old(State()), portMask, scope)
    {
      hide Decode, Get, GetAddr, FlushRow, Wide;
      ghost var was := RowsOf(hw[..]);
      for i := 0 to hw.Length
        invariant RowsOf(hw[..]) ==
                    seq(|was|, j requires 0 <= j < |was| => if j < i then FlushRow(was[j], portMask, scope) else was[j])
      {
        var e := hw[i];
        assert Decode(e) == was[i];
        FlushForms(e, portMask, scope);
        var kind := Get(e, TYPE);
        if kind != ADDR && kind != VLAN_ADDR {
          continue;
        }
        if scope.One? && Get(e, VID) != Wide(scope.vid) {
          continue;
        }
        if Get(e, GROUP) != 0 {
          if Get(e, SUPER) != 0 {
            continue;
          }
          if GetAddr(e) != BROADCAST {
            e := FlushMcast(e, portMask);
          }
        }
        Write(i, e);
      }
    }

    // ---- VLAN entries ----------------------------------------------------------------------------

    /** `cpsw_ale_set_vlan_untag`: the field and the bitmap. */
    method SetVlanUntag(e: Entry, vid: Vid, untag: bv32) returns (e': Entry)
      modifies `untagged
      ensures e' == Set(e, UNTAG, untag) && untagged == Cache(old(untagged), vid, PortsOf(untag))
    {
      hide Set;
      NarrowPorts(untag, 0);
      e' := Set(e, UNTAG, untag);
      if untag & 1 != 0 {
        untagged := untagged + {vid};
      } else {
        untagged := untagged - {vid};
      }
    }

    /** `cpsw_ale_add_vlan`. */
    method AddVlan(vid: Vid, portMask: bv32, untag: bv32, regMcast: bv32, unregMcast: bv32) returns (ret: int)
      modifies `untagged, hw
      ensures Result(ret, State()) ==
                AleOps.AddVlan(old(State()), vid, PortsOf(portMask), PortsOf(untag), PortsOf(regMcast),
                    PortsOf(unregMcast))
    {
      hide Decode, Set, Wide, Cut, PortsOf, Find, Install, Cache;
      var e := BLANK;
      var idx := MatchVlan(vid);
      if idx >= 0 {
        e := hw[idx];
      }
      VlanRow(e, vid, portMask, untag, regMcast, unregMcast);
      e := Set(e, TYPE, VLAN);
      e := Set(e, VID, Wide(vid));
      e := SetVlanUntag(e, vid, untag);
      e := Set(e, REG, regMcast);
      e := Set(e, UNREG, unregMcast);
      e := Set(e, MEMBERS, portMask);
      ghost var t := State();
      ret := Place(ByVlan(vid), idx, e);
      InstallCached(old(State()), t, ByVlan(vid), Decode(e));
    }

    /** `cpsw_ale_vlan_del_modify_int`. */
    method VlanDelModifyInt(e: Entry, vid: Vid, portMask: bv32) returns (e': Entry)
      requires Decode(e).Vlan?
      modifies `untagged
      ensures var r := Shrunk(Decode(e), PortsOf(portMask));
              Decode(e') == r && untagged == Cache(old(untagged), vid, UntagOf(r))
    {
      hide Decode, Get, Set, Wide, PortsOf, And, AndNot, Cache, Narrow;
      var members := Get(e, MEMBERS);
      members := AndNot(members, portMask);
      ShrunkForms(e, portMask, members);
      if members == 0 {
        e' := SetVlanUntag(e, vid, 0);
        FreeRow(e');
        NarrowPorts(0, 0);
        e' := Set(e', TYPE, FREE);
        return;
      }
      var untag := Get(e, UNTAG);
      var regMcast := Get(e, REG);
      var unregMcast := Get(e, UNREG);
      untag := And(untag, members);
      regMcast := And(regMcast, members);
      unregMcast := And(unregMcast, members);
      e' := SetVlanUntag(e, vid, untag);
      e' := Set(e', REG, regMcast);
      e' := Set(e', UNREG, unregMcast);
      e' := Set(e', MEMBERS, members);
    }

    /** `cpsw_ale_vlan_del_modify`. */
    method VlanDelModify(vid: Vid, portMask: bv32) returns (ret: int)
      modifies `untagged, hw
      ensures Result(ret, State()) == AleOps.VlanDelModify(old(State()), vid, PortsOf(portMask))
    {
      hide Decode, Find, PortsOf, Cache, Shrunk;
      var idx := MatchVlan(vid);
      if idx < 0 {
        return -ENOENT;
      }
      var e := hw[idx];
      e := VlanDelModifyInt(e, vid, portMask);
      Write(idx, e);
      ret := 0;
    }

    /** `cpsw_ale_del_vlan`. */
    method DelVlan(vid: Vid, portMask: bv32) returns (ret: int)
      modifies `untagged, hw
      ensures Result(ret, State()) == AleOps.DelVlan(old(State()), vid, portMask)
    {
      hide Decode, Get, Set, Find, PortsOf, Cache, Shrunk, AndNot, Narrow;
      var idx := MatchVlan(vid);
      if idx < 0 {
        return -ENOENT;
      }
      var e := hw[idx];
      var members := Get(e, MEMBERS);
      members := AndNot(members, portMask);
      MembersLeft(e, portMask);
      if portMask == 0 || members == 0 {
        e := SetVlanUntag(e, vid, 0);
        FreeRow(e);
        NarrowPorts(0, 0);
        e := Set(e, TYPE, FREE);
      } else {
        HostOut(portMask);
        e := VlanDelModifyInt(e, vid, AndNot(portMask, 1));
      }
      Write(idx, e);
      ret := 0;
    }

    /** `cpsw_ale_vlan_add_modify`. */
    method VlanAddModify(vid: Vid, portMask: bv32, untagMask: bv32, regMask: bv32, unregMask: bv32) returns (ret: int)
      modifies `untagged, hw
      ensures Result(ret, State()) ==
                AleOps.VlanAddModify(old(State()), vid, PortsOf(portMask), PortsOf(untagMask), PortsOf(regMask),
                    PortsOf(unregMask))
    {
      hide Decode, Get, Find, PortsOf, Or, AndNot, AleOps.AddVlan;
      var e := BLANK;
      var idx := MatchVlan(vid);
      if idx >= 0 {
        e := hw[idx];
      }
      MasksOf(e);
      BlankMasks();
      var vlanMembers := Get(e, MEMBERS);
      var regMembers := Get(e, REG);
      var unregMembers := Get(e, UNREG);
      var untagMembers := Get(e, UNTAG);
      Merged(vlanMembers, 0, portMask);
      Merged(untagMembers, portMask, untagMask);
      Merged(regMembers, portMask, regMask);
      Merged(unregMembers, portMask, unregMask);
      vlanMembers := Or(vlanMembers, portMask);
      untagMembers := Or(AndNot(untagMembers, portMask), untagMask);
      regMembers := Or(AndNot(regMembers, portMask), regMask);
      unregMembers := Or(AndNot(unregMembers, portMask), unregMask);
      ret := AddVlan(vid, vlanMembers, untagMembers, regMembers, unregMembers);
    }
  }

  lemma BlankRow()
    ensures Decode(BLANK) == Free
  {
    BlankFields(TYPE);
  }

  /** The tests of a flush in terms of the row. */
  lemma FlushForms(e: Entry, portMask: bv32, scope: Scope)
    ensures var row := Decode(e);
            && (row.Addr? <==> Get(e, TYPE) == ADDR || Get(e, TYPE) == VLAN_ADDR)
            && (row.Addr? ==>
                  && (scope.One? ==> (Get(e, VID) == Wide(scope.vid) <==> row.vid == scope.vid))
                  && (Get(e, GROUP) != 0 <==> row.mac.Group())
                  && (Get(e, SUPER) != 0 <==> row.super)
                  && row.mac == GetAddr(e))
            && FlushRow(row, portMask, scope) ==
                 if !row.Addr? || (scope.One? && row.vid != scope.vid) || !row.mac.Group() || row.super ||
                     row.mac == BROADCAST
                    || row.ports.Meet(PortsOf(portMask)).Empty() then row
                 else if row.ports.Minus(PortsOf(portMask)).Empty() then Free
                 else row.(ports := row.ports.Minus(PortsOf(portMask)))
  {
    TypeRange(e);
    GroupBit(e);
    SuperBit(e);
    VidCompare(e, if scope.One? then scope.vid else Vid(0));
    hide Get, GetAddr, VidOf, PortsOf, Mac.Group, Wide;
  }

  lemma SuperBit(e: Entry)
    ensures Get(e, SUPER) == 0 || Get(e, SUPER) == 1
  {}

  lemma InstallCached(was: Table, t: Table, q: Query, r: Row)
    requires t.rows == was.rows
    ensures Install(was, q, r, t.untagged) == Install(t, q, r, t.untagged)
  {}

  /** The masks of a VLAN entry, and of the blank one. */
  lemma MasksOf(e: Entry)
    ensures Decode(e).Vlan? ==>
              var row := Decode(e);
              && row.members == PortsOf(Get(e, MEMBERS)) && row.untag == PortsOf(Get(e, UNTAG))
              && row.reg == PortsOf(Get(e, REG)) && row.unreg == PortsOf(Get(e, UNREG))
              && row.vid == VidOf(Get(e, VID)) && Get(e, TYPE) == VLAN
  {
    hide Get, PortsOf, VidOf, GetAddr;
  }

  lemma BlankMasks()
    ensures PortsOf(Get(BLANK, MEMBERS)) == PortsOf(Get(BLANK, UNTAG)) == NONE
    ensures PortsOf(Get(BLANK, REG)) == PortsOf(Get(BLANK, UNREG)) == NONE
  {
    hide Get;
    BlankFields(MEMBERS);
    BlankFields(UNTAG);
    BlankFields(REG);
    BlankFields(UNREG);
  }

  lemma Merged(a: bv32, b: bv32, c: bv32)
    ensures PortsOf(Or(AndNot(a, b), c)) == PortsOf(a).Minus(PortsOf(b)).Union(PortsOf(c))
    ensures PortsOf(Or(a, c)) == PortsOf(a).Union(PortsOf(c))
  {
    hide Or, AndNot, PortsOf;
    PortsAlgebra(AndNot(a, b), c);
    PortsAlgebra(a, b);
    PortsAlgebra(a, c);
  }

  lemma HostOut(mask: bv32)
    ensures PortsOf(AndNot(mask, 1)) == PortsOf(mask).Minus(HOST)
  {}

  lemma MembersLeft(e: Entry, mask: bv32)
    requires Decode(e).Vlan?
    ensures PortsOf(AndNot(Get(e, MEMBERS), mask)) == Decode(e).members.Minus(PortsOf(mask))
    ensures AndNot(Get(e, MEMBERS), mask) == 0 <==> Decode(e).members.Minus(PortsOf(mask)).Empty()
  {
    hide Get, AndNot, PortsOf, Narrow, Decode;
    MasksOf(e);
    PortMaskRange(e);
    PortsAlgebra(Get(e, MEMBERS), mask);
    NarrowPorts(Get(e, MEMBERS), mask);
    NarrowPorts(AndNot(Get(e, MEMBERS), mask), 0);
  }

  lemma ShrunkForms(e: Entry, mask: bv32, members: bv32)
    requires Decode(e).Vlan? && members == AndNot(Get(e, MEMBERS), mask)
    ensures Shrunk(Decode(e), PortsOf(mask)) ==
              if members == 0 then Free
              else Decode(SetVlanMasks(e, members, And(Get(e, UNTAG), members), And(Get(e, REG), members),
                  And(Get(e, UNREG), members)))
    ensures members != 0 ==> UntagOf(Shrunk(Decode(e), PortsOf(mask))) == PortsOf(And(Get(e, UNTAG), members))
  {
    hide Get, And, AndNot, PortsOf, Narrow, Decode, SetVlanMasks, VidOf;
    MembersLeft(e, mask);
    MasksOf(e);
    PortsAlgebra(Get(e, UNTAG), members);
    PortsAlgebra(Get(e, REG), members);
    PortsAlgebra(Get(e, UNREG), members);
    VlanMasksRow(e, members, And(Get(e, UNTAG), members), And(Get(e, REG), members), And(Get(e, UNREG), members));
  }
}
