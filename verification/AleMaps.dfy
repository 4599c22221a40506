/** The lookup table as a pair of finite maps.

  The table is a sequence of rows. This module says what one write to it means for the map
  from (address, VLAN) to address rows and for the map from VLAN to VLAN rows, and which
  row a search or an allocation picks.
 */
module AleMaps {
  import opened AleCodec

  datatype Key = Key(mac: Mac, vid: Vid)

  function KeyOf(row: Row): Key
    requires row.Addr?
  {
    Key(row.mac, row.vid)
  }

  /** A unicast row that was learned: neither persistent (0) nor an OUI row (2). */
  predicate Ageable(row: Row) {
    row.Addr? && !row.mac.Group() && row.state != 0 && row.state != 2
  }

  // ---- Searching ------------------------------------------------------------------------

  datatype Query = ByAddr(key: Key) | ByVlan(vid: Vid) | ByFree | ByAge

  predicate Matches(row: Row, q: Query) {
    match q
    case ByAddr(key) => row.Addr? && KeyOf(row) == key
    case ByVlan(vid) => row.Vlan? && row.vid == vid
    case ByFree => row.Free?
    case ByAge => Ageable(row)
  }

  /** The first row that matches, or -1. */
  function Find(rows: seq<Row>, q: Query): (idx: int)
    ensures -1 <= idx < |rows|
    ensures idx >= 0 ==> Matches(rows[idx], q) && forall j :: 0 <= j < idx ==> !Matches(rows[j], q)
    ensures idx < 0 ==> forall j :: 0 <= j < |rows| ==> !Matches(rows[j], q)
  {
    if rows == [] then -1
    else
      var n := |rows| - 1;
      var p := Find(rows[..n], q);
      if p >= 0 then p else if Matches(rows[n], q) then n else -1
  }

  /** Where an entry goes: over its own row, into a free one, or over a learned one. */
  function Slot(rows: seq<Row>, q: Query): (idx: int)
    ensures -1 <= idx < |rows|
  {
    if Find(rows, q) >= 0 then Find(rows, q)
    else if Find(rows, ByFree) >= 0 then Find(rows, ByFree)
    else Find(rows, ByAge)
  }

  // ---- The maps --------------------------------------------------------------------------

  /** No two rows have the same key. */
  ghost predicate Unique(rows: seq<Row>) {
    && (forall i, j :: 0 <= i < j < |rows| && rows[i].Addr? && rows[j].Addr? ==> KeyOf(rows[i]) != KeyOf(rows[j]))
    && (forall i, j :: 0 <= i < j < |rows| && rows[i].Vlan? && rows[j].Vlan? ==> rows[i].vid != rows[j].vid)
  }

  ghost function AddrMap(rows: seq<Row>): map<Key, Row> {
    var keys := set i | 0 <= i < |rows| && rows[i].Addr? :: KeyOf(rows[i]);
    map k | k in keys && Find(rows, ByAddr(k)) >= 0 :: rows[Find(rows, ByAddr(k))]
  }

  ghost function VlanMap(rows: seq<Row>): map<Vid, Row> {
    var vids := set i | 0 <= i < |rows| && rows[i].Vlan? :: rows[i].vid;
    map v | v in vids && Find(rows, ByVlan(v)) >= 0 :: rows[Find(rows, ByVlan(v))]
  }

  lemma InAddrMap(rows: seq<Row>, k: Key)
    ensures k in AddrMap(rows) <==> Find(rows, ByAddr(k)) >= 0
    ensures k in AddrMap(rows) ==> AddrMap(rows)[k] == rows[Find(rows, ByAddr(k))]
  {}

  lemma InVlanMap(rows: seq<Row>, vid: Vid)
    ensures vid in VlanMap(rows) <==> Find(rows, ByVlan(vid)) >= 0
    ensures vid in VlanMap(rows) ==> VlanMap(rows)[vid] == rows[Find(rows, ByVlan(vid))]
  {}

  /** The address rows that do not age: those the software has installed. */
  ghost function Fixed(addrs: map<Key, Row>): map<Key, Row> {
    map k | k in addrs && !Ageable(addrs[k]) :: addrs[k]
  }

  function DropAddr(addrs: map<Key, Row>, row: Row): map<Key, Row> {
    if row.Addr? then addrs - {KeyOf(row)} else addrs
  }

  function PutAddr(addrs: map<Key, Row>, row: Row): map<Key, Row> {
    if row.Addr? then addrs[KeyOf(row) := row] else addrs
  }

  function DropVlan(vlans: map<Vid, Row>, row: Row): map<Vid, Row> {
    if row.Vlan? then vlans - {row.vid} else vlans
  }

  function PutVlan(vlans: map<Vid, Row>, row: Row): map<Vid, Row> {
    if row.Vlan? then vlans[row.vid := row] else vlans
  }

  /** Row `r` may replace row `i`: no other row has its key. */
  ghost predicate Fits(rows: seq<Row>, i: nat, r: Row)
    requires i < |rows|
  {
    && (r.Addr? ==> forall j :: 0 <= j < |rows| && j != i && rows[j].Addr? ==> KeyOf(rows[j]) != KeyOf(r))
    && (r.Vlan? ==> forall j :: 0 <= j < |rows| && j != i && rows[j].Vlan? ==> rows[j].vid != r.vid)
  }

  lemma WriteUnique(rows: seq<Row>, i: nat, r: Row)
    requires i < |rows| && Unique(rows)
    ensures Unique(rows[i := r]) <==> Fits(rows, i, r)
  {
    var rows' := rows[i := r];
    if Unique(rows') {
      forall j | 0 <= j < |rows| && j != i
        ensures r.Addr? && rows[j].Addr? ==> KeyOf(rows[j]) != KeyOf(r)
        ensures r.Vlan? && rows[j].Vlan? ==> rows[j].vid != r.vid
      {
        assert rows'[j] == rows[j] && rows'[i] == r;
      }
    }
  }

  /** With unique keys any match is the one that is found. */
  lemma FindIs(rows: seq<Row>, q: Query, i: nat)
    requires Unique(rows) && (q.ByAddr? || q.ByVlan?) && i < |rows| && Matches(rows[i], q)
    ensures Find(rows, q) == i
  {}

  lemma FindAfterWrite(rows: seq<Row>, i: nat, r: Row, q: Query)
    requires i < |rows| && Unique(rows) && Unique(rows[i := r]) && (q.ByAddr? || q.ByVlan?)
    ensures Find(rows[i := r], q) == if Matches(r, q) then i else if Matches(rows[i], q) then -1 else Find(rows, q)
  {
    var rows' := rows[i := r];
    if Matches(r, q) {
      FindIs(rows', q, i);
    } else {
      var p, p' := Find(rows, q), Find(rows', q);
      if p' >= 0 {
        assert p' != i && rows[p'] == rows'[p'];
        FindIs(rows, q, p');
      }
      if p >= 0 && p != i {
        assert rows[p] == rows'[p];
        FindIs(rows', q, p);
      }
    }
  }

  /** One write drops the entry that was there and puts the new one. */
  lemma WriteMaps(rows: seq<Row>, i: nat, r: Row)
    requires i < |rows| && Unique(rows) && Fits(rows, i, r)
    ensures Unique(rows[i := r])
    ensures AddrMap(rows[i := r]) == PutAddr(DropAddr(AddrMap(rows), rows[i]), r)
    ensures VlanMap(rows[i := r]) == PutVlan(DropVlan(VlanMap(rows), rows[i]), r)
  {
    WriteUnique(rows, i, r);
    WriteAddrs(rows, i, r);
    WriteVlans(rows, i, r);
  }

  lemma WriteAddrs(rows: seq<Row>, i: nat, r: Row)
    requires i < |rows| && Unique(rows) && Unique(rows[i := r])
    ensures AddrMap(rows[i := r]) == PutAddr(DropAddr(AddrMap(rows), rows[i]), r)
  {
    hide Find, Unique, AddrMap;
    var a, a' := AddrMap(rows[i := r]), PutAddr(DropAddr(AddrMap(rows), rows[i]), r);
    forall k ensures (k in a <==> k in a') && (k in a ==> a[k] == a'[k]) {
      InAddrMap(rows, k);
      InAddrMap(rows[i := r], k);
      FindAfterWrite(rows, i, r, ByAddr(k));
    }
  }

  lemma WriteVlans(rows: seq<Row>, i: nat, r: Row)
    requires i < |rows| && Unique(rows) && Unique(rows[i := r])
    ensures VlanMap(rows[i := r]) == PutVlan(DropVlan(VlanMap(rows), rows[i]), r)
  {
    hide Find, Unique, VlanMap;
    var a, a' := VlanMap(rows[i := r]), PutVlan(DropVlan(VlanMap(rows), rows[i]), r);
    forall k ensures (k in a <==> k in a') && (k in a ==> a[k] == a'[k]) {
      InVlanMap(rows, k);
      InVlanMap(rows[i := r], k);
      FindAfterWrite(rows, i, r, ByVlan(k));
    }
  }
}
