/** The in-memory peer map in front of the peer table: records are shared objects that callers keep
    while rows and map entries change under them. */
module PeerCache {
  import opened Prelude

  type PeerId = string

  const STATUS_BLOCKED: int := 0
  const STATUS_ALLOWED: int := 1

  /** A row of the peer table. */
  datatype Row = Row(guid: string, uuid: string, pk: string, info: string, status: Option<int>)

  type Table = map<PeerId, Row>

  function StatusIn(rows: Table, id: PeerId): Option<int> {
    if id in rows then rows[id].status else None
  }

  /** The decision of a peer map without a cache. */
  predicate AllowedBy(status: Option<int>, companyOnly: bool) {
    if status == Some(STATUS_BLOCKED) then false
    else if status == Some(STATUS_ALLOWED) then true
    else !companyOnly
  }

  class Peer {
    ghost const id: PeerId
    var guid: string
    var uuid: string
    var pk: string
    var ip: string
    var status: Option<int>

    /** A record as read from its row. */
    constructor FromRow(ghost owner: PeerId, row: Row)
      ensures id == owner && guid == row.guid && uuid == row.uuid && pk == row.pk && ip == row.info && status == row.status
    {
      id := owner;
      guid, uuid, pk, ip, status := row.guid, row.uuid, row.pk, row.info, row.status;
    }

    /** The default record of an id with no row. */
    constructor Empty(ghost owner: PeerId)
      ensures id == owner && guid == uuid == pk == ip == [] && status == None
    {
      id := owner;
      guid, uuid, pk, ip, status := [], [], [], [], None;
    }
  }

  datatype RegisterResult = OK | SERVER_ERROR

  class PeerMap {
    var cache: map<PeerId, Peer>
    var rows: Table
    /** Every record handed out, cached or not, and every row id ever generated. */
    ghost var issued: set<Peer>
    ghost var guids: set<string>

    ghost predicate Valid()
      reads this, issued
    {
      && (forall id <- cache :: cache[id] in issued && cache[id].id == id)
      && (forall h <- issued :: h.guid == [] || h.guid in guids)
      && (forall i <- rows :: rows[i].guid != [] && rows[i].guid in guids)
      && (forall i, j :: i in rows && j in rows && rows[i].guid == rows[j].guid ==> i == j)
      && (forall h <- issued, i <- rows :: h.guid == rows[i].guid ==> i == h.id)
    }

    /** Every cached status is the status of the row, and none where there is no row. */
    ghost predicate Coherent()
      reads this, issued
    {
      forall id <- cache :: cache[id] in issued ==> cache[id].status == StatusIn(rows, id)
    }

    constructor (loaded: Table)
      requires forall i <- loaded :: loaded[i].guid != []
      requires forall i, j :: i in loaded && j in loaded && loaded[i].guid == loaded[j].guid ==> i == j
      ensures Valid() && Coherent() && rows == loaded && issued == {} && cache == map[]
    {
      cache, rows, issued := map[], loaded, {};
      guids := set i <- loaded :: loaded[i].guid;
    }

    /** `get`, with a database that answers or fails. */
    method Get(id: PeerId, readOk: bool) returns (p: Option<Peer>)
      requires Valid()
      modifies this
      ensures Valid() && rows == old(rows) && guids == old(guids) && old(issued) <= issued
      ensures forall h <- old(issued) :: h.status == old(h.status) && h.guid == old(h.guid)
      ensures old(Coherent()) ==> Coherent()
      ensures p.None? <==> id !in old(cache) && !(readOk && id in rows)
      ensures p.Some? ==> p.value in issued && p.value.id == id && cache == old(cache)[id := p.value]
      ensures p.None? ==> cache == old(cache) && issued == old(issued)
      ensures fresh(issued - old(issued))
      ensures id in old(cache) ==> p == Some(old(cache)[id])
      ensures p.Some? && id !in old(cache) ==>
                p.value.guid == rows[id].guid && p.value.uuid == rows[id].uuid && p.value.pk == rows[id].pk && p.value.ip == rows[id].info
    {
      if id in cache { return Some(cache[id]); }
      if !readOk || id !in rows { return None; }
      var peer := InsertRead(id, rows[id]);
      p := Some(peer);
    }

    /** The second half of `get`: the row read becomes a record in the map. If the row's status was
        changed, or the row deleted, after it was read, the map disagrees with the table; only then. */
    method InsertRead(id: PeerId, row: Row) returns (p: Peer)
      requires Valid()
      requires row.guid != [] && row.guid in guids && forall i <- rows :: rows[i].guid == row.guid ==> i == id
      modifies this
      ensures Valid() && rows == old(rows) && guids == old(guids) && fresh(p) && p.id == id
      ensures issued == old(issued) + {p} && cache == old(cache)[id := p]
      ensures p.guid == row.guid && p.uuid == row.uuid && p.pk == row.pk && p.ip == row.info && p.status == row.status
      ensures forall h <- old(issued) :: h.status == old(h.status) && h.guid == old(h.guid)
      ensures old(Coherent()) ==> (Coherent() <==> row.status == StatusIn(rows, id))
    {
      p := new Peer.FromRow(id, row);
      cache := cache[id := p];
      issued := issued + {p};
    }

    /** The default record of `get_or`. */
    method InsertEmpty(id: PeerId) returns (p: Peer)
      requires Valid()
      modifies this
      ensures Valid() && rows == old(rows) && guids == old(guids) && fresh(p) && p.id == id
      ensures issued == old(issued) + {p} && cache == old(cache)[id := p]
      ensures p.guid == p.uuid == p.pk == p.ip == [] && p.status == None
      ensures forall h <- old(issued) :: h.status == old(h.status) && h.guid == old(h.guid)
      ensures old(Coherent()) ==> (Coherent() <==> StatusIn(rows, id) == None)
    {
      p := new Peer.Empty(id);
      cache := cache[id := p];
      issued := issued + {p};
    }

    /** `get_or`. A failing read is taken for a missing row, and a default record is cached: the map
        then disagrees with the table exactly if there is a row and it carries a status. */
    method GetOr(id: PeerId, readOk: bool) returns (p: Peer)
      requires Valid()
      modifies this
      ensures Valid() && rows == old(rows) && guids == old(guids)
      ensures old(issued) <= issued && fresh(issued - old(issued)) && p in issued && p.id == id && cache == old(cache)[id := p]
      ensures id in old(cache) ==> p == old(cache)[id]
      ensures id !in old(cache) && readOk && id in rows ==>
                p.guid == rows[id].guid && p.uuid == rows[id].uuid && p.pk == rows[id].pk && p.ip == rows[id].info
      ensures id !in old(cache) && !(readOk && id in rows) ==> p.guid == p.uuid == p.pk == p.ip == [] && p.status == None
      ensures old(Coherent()) ==> (Coherent() <==> readOk || id in old(cache) || StatusIn(rows, id) == None)
    {
      var found := Get(id, readOk);
      if found.Some? { return found.value; }
      p := InsertEmpty(id);
    }

    /** `insert into peer`: refused by the unique index on the id. */
    method InsertRow(id: PeerId, row: Row, writeOk: bool) returns (ok: bool)
      requires Valid() && row.guid != [] && row.guid !in guids && row.status == None
      modifies this
      ensures Valid() && cache == old(cache) && issued == old(issued)
      ensures old(Coherent()) ==> Coherent()
      ensures ok <==> writeOk && id !in old(rows)
      ensures rows == (if ok then old(rows)[id := row] else old(rows)) && guids == if ok then old(guids) + {row.guid} else old(guids)
    {
      ok := writeOk && id !in rows;
      if ok {
        rows := rows[id := row];
        guids := guids + {row.guid};
      }
    }

    /** `update peer set id = ?, pk = ?, info = ? where guid = ?`: the row with that guid, if it is
        still there, is the one of the record's id. */
    method UpdateRow(peer: Peer, id: PeerId, pk: string, info: string, writeOk: bool) returns (ok: bool)
      requires Valid() && peer in issued && peer.id == id && peer.guid != []
      modifies this
      ensures Valid() && cache == old(cache) && issued == old(issued) && guids == old(guids)
      ensures old(Coherent()) ==> Coherent()
      ensures ok == writeOk
      ensures rows == if ok && id in old(rows) && old(rows)[id].guid == peer.guid
                      then old(rows)[id := old(rows)[id].(pk := pk, info := info)] else old(rows)
    {
      ok := writeOk;
      if ok {
        if i :| i in rows && rows[i].guid == peer.guid {
          assert i == id;
          rows := (rows - {i})[id := rows[i].(pk := pk, info := info)];
        }
      }
    }

    /** The insert half of `update_pk`: a record without row id gets the new row's. */
    method RegisterNew(id: PeerId, peer: Peer, row: Row, writeOk: bool) returns (ok: bool)
      requires Valid() && peer in issued && peer.id == id && peer.guid == []
      requires row.guid != [] && row.guid !in guids && row.status == None
      modifies this, peer`guid
      ensures Valid() && cache == old(cache) && issued == old(issued) && guids <= old(guids) + {row.guid}
      ensures old(Coherent()) ==> Coherent()
      ensures ok <==> writeOk && id !in old(rows)
      ensures rows == if ok then old(rows)[id := row] else old(rows)
      ensures peer.guid == if ok then row.guid else []
    {
      ok := InsertRow(id, row, writeOk);
      if ok { peer.guid := row.guid; }
    }

    /** `update_pk` through a record the caller got earlier: the row is inserted for a record without
        row id, else updated. Through a stale record, whose row was deleted, it reports success and
        stores nothing. */
    method UpdatePk(id: PeerId, peer: Peer, uuid: string, pk: string, ip: string, newGuid: string, writeOk: bool)
        returns (r: RegisterResult)
      requires Valid() && peer in issued && peer.id == id
      requires newGuid != [] && newGuid !in guids
      modifies this, peer
      ensures Valid() && cache == old(cache) && issued == old(issued) && guids <= old(guids) + {newGuid}
      ensures old(Coherent()) ==> Coherent()
      ensures peer.uuid == uuid && peer.pk == pk && peer.ip == ip
      ensures r == OK <==> writeOk && (old(peer.guid) == [] ==> id !in old(rows))
      ensures peer.guid == if r == OK && old(peer.guid) == [] then newGuid else old(peer.guid)
      ensures rows == if r != OK then old(rows)
                      else if old(peer.guid) == [] then old(rows)[id := Row(newGuid, uuid, pk, ip, None)]
                      else if id in old(rows) && old(rows)[id].guid == old(peer.guid)
                      then old(rows)[id := old(rows)[id].(pk := pk, info := ip)]
                      else old(rows)
    {
      peer.uuid, peer.pk, peer.ip := uuid, pk, ip;
      assert Valid() && (old(Coherent()) ==> Coherent());
      var ok: bool;
      if peer.guid == [] {
        ok := RegisterNew(id, peer, Row(newGuid, uuid, pk, ip, None), writeOk);
      } else {
        ok := UpdateRow(peer, id, pk, ip, writeOk);
      }
      r := if ok then OK else SERVER_ERROR;
    }

    /** The database half of `set_peer_status`. */
    method WriteStatus(id: PeerId, status: Option<int>) returns (updated: bool)
      requires Valid()
      modifies this
      ensures Valid() && updated == (id in rows) && cache == old(cache) && issued == old(issued) && guids == old(guids)
      ensures rows == if id in old(rows) then old(rows)[id := old(rows)[id].(status := status)] else old(rows)
    {
      updated := id in rows;
      if updated { rows := rows[id := rows[id].(status := status)]; }
    }

    /** Its map half. After it the map agrees with the table exactly if this is the status of the row
        by now: two changes in flight that write in one order and store in the other leave it wrong. */
    method StoreStatus(id: PeerId, status: Option<int>)
      requires Valid()
      modifies this, issued
      ensures Valid() && rows == old(rows) && cache == old(cache) && issued == old(issued) && guids == old(guids)
      ensures (forall i <- cache :: i != id ==> cache[i].status == StatusIn(rows, i)) ==>
                (Coherent() <==> id !in cache || status == StatusIn(rows, id))
      ensures forall h <- issued :: h.guid == old(h.guid)
      ensures forall i <- cache :: cache[i].status == if i == id then status else old(cache[i].status)
    {
      if id in cache { cache[id].status := status; }
    }

    method SetPeerStatus(id: PeerId, status: Option<int>, writeOk: bool) returns (r: Result<bool, string>)
      requires Valid()
      modifies this, issued
      ensures Valid() && cache == old(cache) && issued == old(issued)
      ensures old(Coherent()) ==> Coherent()
      ensures guids == old(guids)
      ensures r == if writeOk then Ok(id in rows) else Err("database error")
      ensures rows == if writeOk && id in old(rows) then old(rows)[id := old(rows)[id].(status := status)] else old(rows)
    {
      if !writeOk { return Err("database error"); }
      var updated := WriteStatus(id, status);
      if updated { StoreStatus(id, status); }
      r := Ok(updated);
    }

    method DeleteRegistered(id: PeerId, writeOk: bool) returns (r: Result<bool, string>)
      requires Valid()
      modifies this
      ensures Valid() && issued == old(issued) && guids == old(guids)
      ensures old(Coherent()) ==> Coherent()
      ensures r == if writeOk then Ok(id in old(rows)) else Err("database error")
      ensures rows == if writeOk then old(rows) - {id} else old(rows)
      ensures cache == if writeOk && id in old(rows) then old(cache) - {id} else old(cache)
    {
      if !writeOk { return Err("database error"); }
      var deleted := id in rows;
      rows := rows - {id};
      if deleted { cache := cache - {id}; }
      r := Ok(deleted);
    }

    /** The status answered is the one in the table, whether or not the id is cached. */
    method PeerStatus(id: PeerId, readOk: bool) returns (r: Result<Option<int>, string>)
      requires Valid()
      ensures id in cache ==> r == Ok(cache[id].status)
      ensures Coherent() ==> r == if id in cache || readOk then Ok(StatusIn(rows, id)) else Err("database error")
    {
      if id in cache { return Ok(cache[id].status); }
      if !readOk { return Err("database error"); }
      r := Ok(if id in rows then rows[id].status else None);
    }

    /** While reads work, the answer is that of a map without a cache; an id that is not cached and
        cannot be read counts as not blocked. */
    method IsPeerBlocked(id: PeerId, readOk: bool) returns (blocked: bool)
      requires Valid()
      ensures id in cache ==> blocked == (cache[id].status == Some(STATUS_BLOCKED))
      ensures Coherent() ==> (blocked <==> (id in cache || readOk) && StatusIn(rows, id) == Some(STATUS_BLOCKED))
    {
      var s := PeerStatus(id, readOk);
      blocked := s == Ok(Some(STATUS_BLOCKED));
    }

    method IsPeerAllowedForControl(id: PeerId, companyOnly: bool, readOk: bool) returns (allowed: bool)
      requires Valid()
      ensures id in cache ==> allowed == AllowedBy(cache[id].status, companyOnly)
      ensures Coherent() ==>
                allowed == AllowedBy(if id in cache || readOk then StatusIn(rows, id) else None, companyOnly)
    {
      var s := PeerStatus(id, readOk);
      match s
      case Err(_) => allowed := !companyOnly;
      case Ok(status) =>
        if status == Some(STATUS_BLOCKED) { allowed := false; }
        else if status == Some(STATUS_ALLOWED) { allowed := true; }
        else { allowed := !companyOnly; }
    }
  }

  /** What a failing read costs: a blocked peer whose record is fetched while the table cannot be read
      is no longer blocked once it can, although its row still says so. */
  method FailingReadUnblocks(id: PeerId, row: Row) returns (before: bool, after: bool)
    requires row.guid != [] && row.status == Some(STATUS_BLOCKED)
    ensures before && !after
  {
    var m := new PeerMap(map[id := row]);
    before := m.IsPeerBlocked(id, true);
    var _ := m.GetOr(id, false);
    after := m.IsPeerBlocked(id, true);
  }

  /** The halves of a lookup with a status change in between: the row is read, the peer is blocked while
      it is not cached, and the row as read goes into the map. The peer is not blocked after that,
      although its row says so and every call worked. */
  method StaleReadHidesABlock(id: PeerId, row: Row) returns (changed: Result<bool, string>, blocked: bool)
    requires row.guid != [] && row.status != Some(STATUS_BLOCKED)
    ensures changed == Ok(true) && !blocked
  {
    var m := new PeerMap(map[id := row]);
    var read := m.rows[id];
    changed := m.SetPeerStatus(id, Some(STATUS_BLOCKED), true);
    var _ := m.InsertRead(id, read);
    assert m.rows[id].status == Some(STATUS_BLOCKED);
    blocked := m.IsPeerBlocked(id, true);
  }

  /** The halves of two status changes, which write in one order and store in the other: the row says
      blocked, the map that serves every decision says allowed. */
  method CrossedChangesDisagree(id: PeerId, row: Row) returns (blocked: bool, allowed: bool)
    requires row.guid != []
    ensures !blocked && allowed
  {
    var m := new PeerMap(map[id := row]);
    var _ := m.Get(id, true);
    var _ := m.WriteStatus(id, Some(STATUS_ALLOWED));
    var _ := m.WriteStatus(id, Some(STATUS_BLOCKED));
    m.StoreStatus(id, Some(STATUS_BLOCKED));
    m.StoreStatus(id, Some(STATUS_ALLOWED));
    assert m.rows[id].status == Some(STATUS_BLOCKED);
    blocked := m.IsPeerBlocked(id, true);
    allowed := m.IsPeerAllowedForControl(id, true, true);
  }

  // ---- Any sequence of operations ---------------------------------------------------------

  /** One operation; a registration acts through a record obtained by an earlier operation, which
      may be stale by now. */
  datatype Op =
    | OpGet(id: PeerId)
    | OpGetOr(id: PeerId)
    | OpUpdatePk(held: nat, uuid: string, pk: string, ip: string, newGuid: string, writeOk: bool)
    | OpSetStatus(id: PeerId, status: Option<int>, writeOk: bool)
    | OpDelete(id: PeerId, writeOk: bool)

  /** Any sequence of operations on a working database, each taken as one step, with writes that
      succeed or fail and registrations through records held since any earlier step, leaves the map
      agreeing with the table; so every decision is the one the table alone gives. */
  method RunOps(m: PeerMap, ops: seq<Op>) returns (held: seq<(PeerId, Peer)>)
    requires m.Valid() && m.Coherent()
    requires forall i :: 0 <= i < |ops| && ops[i].OpUpdatePk? ==> ops[i].newGuid != [] && ops[i].newGuid !in m.guids
    requires forall i, j :: 0 <= i < j < |ops| && ops[i].OpUpdatePk? && ops[j].OpUpdatePk? ==> ops[i].newGuid != ops[j].newGuid
    modifies m, m.issued
    ensures m.Valid() && m.Coherent()
  {
    held := [];
    for i := 0 to |ops|
      invariant m.Valid() && m.Coherent()
      invariant forall h <- m.issued :: h in old(m.issued) || fresh(h)
      invariant forall h <- held :: h.1 in m.issued && h.1.id == h.0
      invariant forall j :: i <= j < |ops| && ops[j].OpUpdatePk? ==> ops[j].newGuid !in m.guids
    {
      match ops[i]
      case OpGet(id) =>
        var p := m.Get(id, true);
        if p.Some? { held := held + [(id, p.value)]; }
      case OpGetOr(id) =>
        var p := m.GetOr(id, true);
        held := held + [(id, p)];
      case OpUpdatePk(h, uuid, pk, ip, newGuid, writeOk) =>
        if h < |held| {
          var _ := m.UpdatePk(held[h].0, held[h].1, uuid, pk, ip, newGuid, writeOk);
        }
      case OpSetStatus(id, status, writeOk) =>
        var _ := m.SetPeerStatus(id, status, writeOk);
      case OpDelete(id, writeOk) =>
        var _ := m.DeleteRegistered(id, writeOk);
    }
  }
}
