/** Runs of operations on the lookup table, interleaved with what the hardware does to it. */
module AleRun {
  import opened AleCodec
  import opened AleMaps
  import opened AleOps
  import opened AleVlan

  // ---- VIDs out of range -----------------------------------------------------------------------

  /** A VID of more than 12 bits never matches the entry it was stored in. The keys stay
      unique exactly if the table had no entry with the lower 12 bits before. */
  lemma WideVid(t: Table, mac: Mac, port: bv32, secure: bool, blocked: bool, vid: Vid)
    requires Clean(t) && !InRange(vid)
    ensures var res := AddUcast(t, mac, port, true, secure, blocked, vid);
            && SearchKey(mac, true, vid) !in AddrMap(t.rows)
            && (res.ret == 0 ==>
                  (Unique(res.t.rows) <==>
                      Key(mac, Cut(vid)) !in DropAddr(AddrMap(t.rows), Victim(t.rows, ByAddr(Key(mac, vid))))))
  {
    hide AddrMap, VlanMap, Find, Unique, Fits, Slot, Cut, Ageable;
    var q := AddrQuery(mac, true, vid);
    var i := Slot(t.rows, q);
    NeverFound(t, mac, vid);
    InAddrMap(t.rows, q.key);
    if i >= 0 {
      var r := UcastOf(mac, port, true, secure, blocked, vid);
      WriteUnique(t.rows, i, r);
      FitsKey(t.rows, i, r);
      assert Find(t.rows, q) < 0;
      NotTwice(t.rows, q);
    }
  }

  lemma NeverFound(t: Table, mac: Mac, vid: Vid)
    requires Clean(t) && !InRange(vid)
    ensures Find(t.rows, ByAddr(Key(mac, vid))) < 0
  {}

  lemma NotTwice(rows: seq<Row>, q: Query)
    requires Slot(rows, q) >= 0 && Find(rows, q) < 0
    ensures Victim(rows, q) == rows[Slot(rows, q)]
  {}

  lemma FitsKey(rows: seq<Row>, i: nat, r: Row)
    requires Unique(rows) && i < |rows| && r.Addr?
    ensures Fits(rows, i, r) <==> KeyOf(r) !in DropAddr(AddrMap(rows), rows[i])
  {
    hide AddrMap;
    InAddrMap(rows, KeyOf(r));
    var p := Find(rows, ByAddr(KeyOf(r)));
    forall j | 0 <= j < |rows| && rows[j].Addr? && KeyOf(rows[j]) == KeyOf(r) ensures j == p {
      FindIs(rows, ByAddr(KeyOf(r)), j);
    }
  }

  // ---- Flushing ----------------------------------------------------------------------------------------

  /** The rows a flush looks at: multicast rows in its scope, neither supervisory nor the
      broadcast row. */
  predicate InFlush(row: Row, scope: Scope) {
    && row.Addr? && row.mac.b0 & 1 == 1 && row.mac != BROADCAST && !row.super
    && (scope.All? || row.vid == scope.vid)
  }

  lemma FlushIs(row: Row, mask: bv32, scope: Scope)
    requires row.Addr?
    ensures FlushRow(row, mask, scope).Free? <==>
              InFlush(row, scope) && !row.ports.Empty() && row.ports.Within(PortsOf(mask))
    ensures FlushRow(row, mask, scope).Free? ||
              FlushRow(row, mask, scope) ==
                if InFlush(row, scope) then row.(ports := row.ports.Minus(PortsOf(mask))) else row
  {
    hide PortsOf;
  }

  /** A flush takes the ports of the mask from the multicast rows in its scope, except the
      supervisory and the broadcast ones, and touches nothing else. A row goes with its last
      port. */
  lemma FlushMaps(t: Table, mask: bv32, scope: Scope)
    requires Clean(t)
    ensures var t' := FlushMulticast(t, mask, scope);
            var a, a' := AddrMap(t.rows), AddrMap(t'.rows);
            && Clean(t')
            && (forall k :: k in a' <==> k in a && !FlushRow(a[k], mask, scope).Free?)
            && (forall k :: k in a' ==> a'[k] == FlushRow(a[k], mask, scope))
            && (forall k :: k in a && k !in a' <==>
                  k in a && InFlush(a[k], scope) && !a[k].ports.Empty() && a[k].ports.Within(PortsOf(mask)))
            && (forall k :: k in a' ==>
                  a'[k] == if InFlush(a[k], scope) then a[k].(ports := a[k].ports.Minus(PortsOf(mask))) else a[k])
            && VlanMap(t'.rows) == VlanMap(t.rows)
  {
    hide AddrMap, VlanMap, Find, PortsOf;
    var t' := FlushMulticast(t, mask, scope);
    FlushClean(t, mask, scope);
    forall k ensures k in AddrMap(t'.rows) <==> k in AddrMap(t.rows) && !FlushRow(AddrMap(t.rows)[k], mask, scope).Free?
             ensures k in AddrMap(t'.rows) ==> AddrMap(t'.rows)[k] == FlushRow(AddrMap(t.rows)[k], mask, scope)
             ensures k in AddrMap(t.rows) ==> AddrMap(t.rows)[k].Addr?
    {
      InAddrMap(t.rows, k);
      InAddrMap(t'.rows, k);
      FlushFind(t, mask, scope, ByAddr(k));
    }
    forall k | k in AddrMap(t.rows)
      ensures FlushRow(AddrMap(t.rows)[k], mask, scope).Free? <==>
                InFlush(AddrMap(t.rows)[k], scope) && !AddrMap(t.rows)[k].ports.Empty()
                  && AddrMap(t.rows)[k].ports.Within(PortsOf(mask))
      ensures k in AddrMap(t'.rows) ==>
                AddrMap(t'.rows)[k] == if InFlush(AddrMap(t.rows)[k], scope)
                  then AddrMap(t.rows)[k].(ports := AddrMap(t.rows)[k].ports.Minus(PortsOf(mask)))
                  else AddrMap(t.rows)[k]
    {
      FlushIs(AddrMap(t.rows)[k], mask, scope);
    }
    assert VlanMap(t'.rows) == VlanMap(t.rows) by {
      forall v ensures v in VlanMap(t'.rows) <==> v in VlanMap(t.rows)
               ensures v in VlanMap(t.rows) ==> VlanMap(t'.rows)[v] == VlanMap(t.rows)[v]
      {
        InVlanMap(t.rows, v);
        InVlanMap(t'.rows, v);
        FlushFind(t, mask, scope, ByVlan(v));
      }
    }
  }

  lemma FlushClean(t: Table, mask: bv32, scope: Scope)
    requires Clean(t)
    ensures Clean(FlushMulticast(t, mask, scope))
  {
    hide PortsOf;
  }

  lemma FlushFind(t: Table, mask: bv32, scope: Scope, q: Query)
    requires Clean(t) && (q.ByAddr? || q.ByVlan?)
    ensures var rows' := FlushMulticast(t, mask, scope).rows;
            var i := Find(t.rows, q);
            Find(rows', q) == if i >= 0 && FlushRow(t.rows[i], mask, scope).Free? then -1 else i
  {
    hide PortsOf;
    FlushClean(t, mask, scope);
    var rows' := FlushMulticast(t, mask, scope).rows;
    var i, i' := Find(t.rows, q), Find(rows', q);
    if i' >= 0 {
      FindIs(t.rows, q, i');
    }
    if i >= 0 && !FlushRow(t.rows[i], mask, scope).Free? {
      FindIs(rows', q, i);
    }
  }

  // ---- Operations and runs --------------------------------------------------------------------------------

  datatype Op =
    | UcastAdd(mac: Mac, port: bv32, tagged: bool, secure: bool, blocked: bool, vid: Vid)
    | UcastDel(mac: Mac, tagged: bool, vid: Vid)
    | McastAdd(mac: Mac, mask: bv32, tagged: bool, super: bool, vid: Vid, state: bv32)
    | McastDel(mac: Mac, mask: bv32, tagged: bool, vid: Vid)
    | McastFlush(mask: bv32, scope: Scope)
    | VlanAdd(vid: Vid, members: Ports, untag: Ports, reg: Ports, unreg: Ports)
    | VlanDel(vid: Vid, mask: bv32)
    | VlanAddMod(vid: Vid, ports: Ports, untag: Ports, reg: Ports, unreg: Ports)
    | VlanDelMod(vid: Vid, ports: Ports)
    | Hardware(at: nat, row: Row) // the switch learns, touches or ages a unicast row
    | Clear                       // ALE_CLEAR empties the table, not the bitmap

  /** VIDs have 12 bits; the hardware works on free and learned rows only. */
  ghost predicate Allowed(t: Table, op: Op) {
    match op
    case UcastAdd(_, _, tagged, _, _, vid) => VidOk(tagged, vid)
    case McastAdd(_, _, tagged, _, vid, _) => VidOk(tagged, vid)
    case VlanAdd(vid, _, _, _, _) => InRange(vid)
    case VlanAddMod(vid, _, _, _, _) => InRange(vid)
    case Hardware(at, row) =>
      && at < |t.rows| && (t.rows[at].Free? || Ageable(t.rows[at]))
      && (row.Free? || (Ageable(row) && InRange(row.vid))) && Fits(t.rows, at, row)
    case _ => true
  }

  function Apply(t: Table, op: Op): Result
    requires op.Hardware? ==> op.at < |t.rows|
  {
    match op
    case UcastAdd(mac, port, tagged, secure, blocked, vid) => AddUcast(t, mac, port, tagged, secure, blocked, vid)
    case UcastDel(mac, tagged, vid) => DelUcast(t, mac, tagged, vid)
    case McastAdd(mac, mask, tagged, super, vid, state) => AddMcast(t, mac, mask, tagged, super, vid, state)
    case McastDel(mac, mask, tagged, vid) => DelMcast(t, mac, mask, tagged, vid)
    case McastFlush(mask, scope) => Result(0, FlushMulticast(t, mask, scope))
    case VlanAdd(vid, members, untag, reg, unreg) => AddVlan(t, vid, members, untag, reg, unreg)
    case VlanDel(vid, mask) => DelVlan(t, vid, mask)
    case VlanAddMod(vid, ports, untag, reg, unreg) => VlanAddModify(t, vid, ports, untag, reg, unreg)
    case VlanDelMod(vid, ports) => VlanDelModify(t, vid, ports)
    case Hardware(at, row) => Result(0, t.(rows := t.rows[at := row]))
    case Clear => Result(0, t.(rows := seq(|t.rows|, _ => Free)))
  }

  /** The step keeps the bitmap in agreement: an add that finds no row to write to is not to
      set its bit, and the table is cleared only when the bitmap is empty. */
  predicate KeepsCache(t: Table, op: Op)
    requires op.Hardware? ==> op.at < |t.rows|
  {
    match op
    case VlanAdd(vid, _, untag, _, _) => Slot(t.rows, ByVlan(vid)) >= 0 || !untag.p0
    case VlanAddMod(vid, _, untag, _, _) => Slot(t.rows, ByVlan(vid)) >= 0 || !untag.p0
    case Clear => t.untagged == {}
    case _ => true
  }

  lemma HardwareStep(t: Table, at: nat, row: Row)
    requires Clean(t) && Allowed(t, Hardware(at, row))
    ensures var t' := Apply(t, Hardware(at, row)).t;
            Clean(t') && VlanMap(t'.rows) == VlanMap(t.rows) && Fixed(AddrMap(t'.rows)) == Fixed(AddrMap(t.rows))
  {
    hide AddrMap, VlanMap, Find, Fits, Unique, Fixed;
    WriteMaps(t.rows, at, row);
    InMap(t.rows, at);
    FixedUpdate(AddrMap(t.rows), t.rows[at], row);
    if row.Addr? {
      NotFixed(t.rows, at, row);
    }
  }

  /** A learned row has a key that no fixed row has. */
  lemma NotFixed(rows: seq<Row>, at: nat, row: Row)
    requires Unique(rows) && at < |rows| && row.Addr? && Fits(rows, at, row) && (rows[at].Free? || Ageable(rows[at]))
    ensures KeyOf(row) !in Fixed(AddrMap(rows))
  {
    hide AddrMap, Find;
    InAddrMap(rows, KeyOf(row));
  }

  /** No lock keeps the switch from writing row `at` between the search of an add and its
      write. The keys then stay unique if and only if the switch wrote to the very row the
      add overwrites, or did not learn the key that is being added. */
  lemma LearnedBetween(t: Table, q: Query, r: Row, at: nat, row: Row)
    requires Clean(t) && (q.ByAddr? || q.ByVlan?) && Matches(r, q) && Slot(t.rows, q) >= 0
    requires Allowed(t, Hardware(at, row))
    ensures var i := Slot(t.rows, q);
            Unique(t.rows[at := row][i := r]) <==> at == i || !(row.Addr? && r.Addr? && KeyOf(row) == KeyOf(r))
  {
    hide Unique, Fits, Slot, Find, Matches;
    var i := Slot(t.rows, q);
    SlotFits(t.rows, q, r);
    WriteUnique(t.rows, at, row);
    if at == i {
      WriteUnique(t.rows, i, r);
      assert t.rows[at := row][i := r] == t.rows[i := r];
    } else {
      WriteUnique(t.rows[at := row], i, r);
      FitsBeside(t.rows, i, r, at, row);
    }
  }

  lemma FitsBeside(rows: seq<Row>, i: nat, r: Row, at: nat, row: Row)
    requires i < |rows| && at < |rows| && at != i && Fits(rows, i, r) && (row.Free? || row.Addr?)
    ensures Fits(rows[at := row], i, r) <==> !(row.Addr? && r.Addr? && KeyOf(row) == KeyOf(r))
  {
    if Fits(rows[at := row], i, r) {
      assert rows[at := row][at] == row;
    }
  }

  /** A key learned in between twice in the table: a free table of two rows. */
  lemma LearnedTwice(mac: Mac, port: bv32)
    requires !mac.Group()
    ensures var t := Table([Free, Free], {});
            var row := Addr(true, Vid(1), mac, 1, false, false, PortsOf(1));
            var r := UcastOf(mac, port, true, false, false, Vid(1));
            var i := Slot(t.rows, ByAddr(Key(mac, Vid(1))));
            && Clean(t) && Allowed(t, Hardware(1, row)) && i == 0
            && !Unique(t.rows[1 := row][i := r])
  {
    hide PortsOf;
    var t := Table([Free, Free], {});
    var row := Addr(true, Vid(1), mac, 1, false, false, PortsOf(1));
    LearnedBetween(t, ByAddr(Key(mac, Vid(1))), UcastOf(mac, port, true, false, false, Vid(1)), 1, row);
  }

  lemma ClearStep(t: Table)
    ensures var t' := Apply(t, Clear).t;
            Clean(t') && AddrMap(t'.rows) == map[] && VlanMap(t'.rows) == map[] && (Agree(t') <==> t.untagged == {})
  {
    var t' := Apply(t, Clear).t;
    assert AddrMap(t'.rows) == map[];
    assert VlanMap(t'.rows) == map[];
    if Agree(t') {
      assert forall vid :: vid !in t.untagged;
    }
  }

  // ---- The table refines a pair of maps -----------------------------------------------------------------

  /** What the software has installed. */
  datatype Maps = Maps(addrs: map<Key, Row>, vlans: map<Vid, Row>)

  ghost function MapsOf(t: Table): Maps {
    Maps(Fixed(AddrMap(t.rows)), VlanMap(t.rows))
  }

  function At<K, V>(m: map<K, V>, k: K, default: V): V {
    if k in m then m[k] else default
  }

  function Update<K>(m: map<K, Row>, k: K, r: Row): map<K, Row> {
    if r.Free? then m - {k} else m[k := r]
  }

  function VlanAt(vlans: map<Vid, Row>, vid: Vid): Row {
    if vid in vlans && vlans[vid].Vlan? then vlans[vid] else Vlan(vid, NONE, NONE, NONE, NONE)
  }

  /** What a successful operation does to the maps. Multicast operations are for group
      addresses. */
  function Meaning(m: Maps, op: Op): Maps {
    match op
    case UcastAdd(mac, port, tagged, secure, blocked, vid) =>
      m.(addrs := m.addrs[SearchKey(mac, tagged, vid) := UcastOf(mac, port, tagged, secure, blocked, vid)])
    case UcastDel(mac, tagged, vid) => m.(addrs := m.addrs - {SearchKey(mac, tagged, vid)})
    case McastAdd(mac, mask, tagged, super, vid, state) =>
      var key := SearchKey(mac, tagged, vid);
      m.(addrs := m.addrs[key := Joined(At(m.addrs, key, Free), mac, mask, tagged, super, vid, state)])
    case McastDel(mac, mask, tagged, vid) =>
      var key := SearchKey(mac, tagged, vid);
      var row := At(m.addrs, key, Free);
      m.(addrs := Update(m.addrs, key, if row.Addr? then Left(row, mask) else Free))
    case McastFlush(mask, scope) =>
      m.(addrs := map k | k in m.addrs && !FlushRow(m.addrs[k], mask, scope).Free? :: FlushRow(m.addrs[k], mask, scope))
    case VlanAdd(vid, members, untag, reg, unreg) => m.(vlans := m.vlans[vid := Vlan(vid, members, untag, reg, unreg)])
    case VlanDel(vid, mask) =>
      var row := VlanAt(m.vlans, vid);
      var all := mask == 0 || row.members.Within(PortsOf(mask));
      m.(vlans := Update(m.vlans, vid, if all then Free else Shrunk(row, PortsOf(mask).Minus(HOST))))
    case VlanAddMod(vid, ports, untag, reg, unreg) =>
      m.(vlans := m.vlans[vid := Grown(VlanAt(m.vlans, vid), vid, ports, untag, reg, unreg)])
    case VlanDelMod(vid, ports) => m.(vlans := Update(m.vlans, vid, Shrunk(VlanAt(m.vlans, vid), ports)))
    case Hardware(_, _) => m
    case Clear => Maps(map[], map[])
  }

  predicate ForGroups(op: Op) {
    match op
    case McastAdd(mac, _, _, _, _, _) => mac.Group()
    case McastDel(mac, _, _, _) => mac.Group()
    case _ => true
  }

  /** A row with a group address is never a learned one. */
  lemma GroupIsFixed(t: Table, key: Key)
    requires Clean(t) && key.mac.Group()
    ensures key in AddrMap(t.rows) <==> key in Fixed(AddrMap(t.rows))
    ensures key in AddrMap(t.rows) ==> AddrMap(t.rows)[key].Addr? && AddrMap(t.rows)[key].mac == key.mac
  {
    hide AddrMap, Find;
    InAddrMap(t.rows, key);
  }

  lemma McastAddRefines(t: Table, op: Op)
    requires Clean(t) && op.McastAdd? && Allowed(t, op) && op.mac.Group()
    ensures var res := Apply(t, op); MapsOf(res.t) == if res.ret == 0 then Meaning(MapsOf(t), op) else MapsOf(t)
  {
    hide AddrMap, VlanMap, Find, Fixed, Clean, Victim;
    var key, q := SearchKey(op.mac, op.tagged, op.vid), AddrQuery(op.mac, op.tagged, op.vid);
    AddMcastJoins(t, op.mac, op.mask, op.tagged, op.super, op.vid, op.state);
    GroupIsFixed(t, key);
    InAddrMap(t.rows, key);
    InFixed(t, key);
    var r := Joined(RowAt(t.rows, q), op.mac, op.mask, op.tagged, op.super, op.vid, op.state);
    KeyOfJoined(t, q, op.mac, op.mask, op.tagged, op.super, op.vid, op.state);
    InstallRefines(t, q, r, t.untagged);
  }

  lemma InFixed(t: Table, key: Key)
    ensures key in Fixed(AddrMap(t.rows)) ==>
              key in AddrMap(t.rows) && Fixed(AddrMap(t.rows))[key] == AddrMap(t.rows)[key]
  {}

  lemma McastDelRefines(t: Table, op: Op)
    requires Clean(t) && op.McastDel? && op.mac.Group()
    ensures var res := Apply(t, op); MapsOf(res.t) == if res.ret == 0 then Meaning(MapsOf(t), op) else MapsOf(t)
  {
    hide AddrMap, VlanMap, Find, PortsOf, Clean;
    var key := SearchKey(op.mac, op.tagged, op.vid);
    DelMcastLeaves(t, op.mac, op.mask, op.tagged, op.vid);
    GroupIsFixed(t, key);
    InFixed(t, key);
  }

  lemma UcastDelRefines(t: Table, op: Op)
    requires Clean(t) && op.UcastDel?
    ensures var res := Apply(t, op); MapsOf(res.t) == if res.ret == 0 then Meaning(MapsOf(t), op) else MapsOf(t)
  {
    hide AddrMap, VlanMap, Find, Clean;
    DelUcastRemoves(t, op.mac, op.tagged, op.vid);
  }

  lemma FlushRefines(t: Table, op: Op)
    requires Clean(t) && op.McastFlush?
    ensures var res := Apply(t, op); MapsOf(res.t) == if res.ret == 0 then Meaning(MapsOf(t), op) else MapsOf(t)
  {
    hide AddrMap, VlanMap, Find, Clean, PortsOf, FlushMulticast;
    FlushMaps(t, op.mask, op.scope);
    forall row ensures Ageable(FlushRow(row, op.mask, op.scope)) ==> Ageable(row)
               ensures Ageable(row) ==> FlushRow(row, op.mask, op.scope) == row
    {}
  }

  lemma VlanRefines(t: Table, op: Op)
    requires Clean(t) && Allowed(t, op) && (op.VlanAdd? || op.VlanDel? || op.VlanAddMod? || op.VlanDelMod?)
    ensures var res := Apply(t, op); MapsOf(res.t) == if res.ret == 0 then Meaning(MapsOf(t), op) else MapsOf(t)
  {
    hide AddrMap, VlanMap, Find, Clean, Fixed, PortsOf, Agree, Victim, Grown, AddVlan, DelVlan, VlanAddModify,
      VlanDelModify;
    match op
    case VlanAdd(vid, members, untag, reg, unreg) => AddVlanUpdates(t, vid, members, untag, reg, unreg);
    case VlanDel(vid, mask) => DelVlanRemoves(t, vid, mask);
    case VlanAddMod(vid, ports, untag, reg, unreg) => VlanAddModifySets(t, vid, ports, untag, reg, unreg);
    case VlanDelMod(vid, ports) => VlanDelModifyShrinks(t, vid, ports);
  }

  /** Every operation of the driver, and every step of the hardware, means one update of the
      two maps, or nothing when it fails. */
  lemma StepRefines(t: Table, op: Op)
    requires Clean(t) && Allowed(t, op) && ForGroups(op)
    ensures var res := Apply(t, op); MapsOf(res.t) == if res.ret == 0 then Meaning(MapsOf(t), op) else MapsOf(t)
  {
    hide AddrMap, VlanMap, Find, Clean, Fixed, PortsOf, Agree, Victim, AddUcast;
    match op
    case UcastAdd(mac, port, tagged, secure, blocked, vid) =>
      AddUcastUpdates(t, mac, port, tagged, secure, blocked, vid);
    case UcastDel(_, _, _) => UcastDelRefines(t, op);
    case McastAdd(_, _, _, _, _, _) => McastAddRefines(t, op);
    case McastDel(_, _, _, _) => McastDelRefines(t, op);
    case McastFlush(_, _) => FlushRefines(t, op);
    case Hardware(at, row) => HardwareStep(t, at, row);
    case Clear =>
      ClearStep(t);
      NothingFixed();
    case _ => VlanRefines(t, op);
  }

  lemma NothingFixed()
    ensures Fixed(map[]) == map[]
  {}

  /** Every step keeps the keys unique, and the bitmap agrees afterwards if and only if the
      step is one that keeps it. */
  lemma StepKeeps(t: Table, op: Op)
    requires Clean(t) && Allowed(t, op)
    ensures Clean(Apply(t, op).t)
    ensures Agree(t) ==> (Agree(Apply(t, op).t) <==> KeepsCache(t, op))
  {
    hide AddrMap, VlanMap, Find, Clean, Fixed, PortsOf, Victim, Agree;
    match op
    case UcastAdd(mac, port, tagged, secure, blocked, vid) =>
      AddUcastUpdates(t, mac, port, tagged, secure, blocked, vid);
      SameVlans(t, Apply(t, op).t);
    case UcastDel(mac, tagged, vid) =>
      DelUcastRemoves(t, mac, tagged, vid);
      SameVlans(t, Apply(t, op).t);
    case McastAdd(mac, mask, tagged, super, vid, state) =>
      AddMcastJoins(t, mac, mask, tagged, super, vid, state);
      SameVlans(t, Apply(t, op).t);
    case McastDel(mac, mask, tagged, vid) =>
      DelMcastLeaves(t, mac, mask, tagged, vid);
      SameVlans(t, Apply(t, op).t);
    case McastFlush(mask, scope) =>
      FlushMaps(t, mask, scope);
      SameVlans(t, Apply(t, op).t);
    case VlanAdd(vid, members, untag, reg, unreg) => AddVlanUpdates(t, vid, members, untag, reg, unreg);
    case VlanDel(vid, mask) => DelVlanRemoves(t, vid, mask);
    case VlanAddMod(vid, ports, untag, reg, unreg) => VlanAddModifySets(t, vid, ports, untag, reg, unreg);
    case VlanDelMod(vid, ports) => VlanDelModifyShrinks(t, vid, ports);
    case Hardware(at, row) =>
      HardwareStep(t, at, row);
      SameVlans(t, Apply(t, op).t);
    case Clear => ClearStep(t);
  }

  lemma SameVlans(t: Table, t': Table)
    requires t'.untagged == t.untagged && VlanMap(t'.rows) == VlanMap(t.rows)
    ensures Agree(t') <==> Agree(t)
  {}

  // ---- Runs ----------------------------------------------------------------------------------------------------

  ghost predicate ValidRun(t: Table, ops: seq<Op>)
    decreases |ops|
  {
    ops != [] ==> Allowed(t, ops[0]) && ValidRun(Apply(t, ops[0]).t, ops[1..])
  }

  ghost function Run(t: Table, ops: seq<Op>): Table
    requires ValidRun(t, ops)
    decreases |ops|
  {
    if ops == [] then t else Run(Apply(t, ops[0]).t, ops[1..])
  }

  ghost predicate RunKeepsCache(t: Table, ops: seq<Op>)
    requires ValidRun(t, ops)
    decreases |ops|
  {
    ops != [] ==> KeepsCache(t, ops[0]) && RunKeepsCache(Apply(t, ops[0]).t, ops[1..])
  }

  /** The maps after a run: every successful operation is applied in turn. */
  ghost function MapRun(m: Maps, t: Table, ops: seq<Op>): Maps
    requires ValidRun(t, ops)
    decreases |ops|
  {
    if ops == [] then m
    else
      var res := Apply(t, ops[0]);
      MapRun(if res.ret == 0 then Meaning(m, ops[0]) else m, res.t, ops[1..])
  }

  /** Over every run the table has one row for a key, and refines the pair of maps. */
  lemma {:induction false} RunRefines(t: Table, ops: seq<Op>)
    requires Clean(t) && ValidRun(t, ops) && forall i :: 0 <= i < |ops| ==> ForGroups(ops[i])
    ensures Clean(Run(t, ops)) && MapsOf(Run(t, ops)) == MapRun(MapsOf(t), t, ops)
    decreases |ops|
  {
    hide Clean, Apply, Meaning, MapsOf;
    if ops != [] {
      StepKeeps(t, ops[0]);
      StepRefines(t, ops[0]);
      RunRefines(Apply(t, ops[0]).t, ops[1..]);
    }
  }

  /** Over every run in which no step breaks it the bitmap agrees with the table. */
  lemma {:induction false} CacheAgrees(t: Table, ops: seq<Op>)
    requires Clean(t) && Agree(t) && ValidRun(t, ops) && RunKeepsCache(t, ops)
    ensures Agree(Run(t, ops))
    decreases |ops|
  {
    hide Clean, Agree, Apply, KeepsCache;
    if ops != [] {
      StepKeeps(t, ops[0]);
      CacheAgrees(Apply(t, ops[0]).t, ops[1..]);
    }
  }
}
