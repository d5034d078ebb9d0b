/** The device-key registry: pinned keys, their bindings, and the bounded table of pending claims
    through which a client that proved an unbound key asks the operator to bind it.

    Times are numbers; the server's ISO stamps order the same way. */
module DeviceClaims {
  import opened Prelude
  import opened Text
  import opened Seqs

  const MAX_PENDING_PER_KEY: nat := 5
  const MAX_PENDING_CLAIMS: nat := 200
  const MAX_U32: nat := 0xFFFF_FFFF

  datatype DeviceKey = DeviceKey(id: string, title: string, publicKey: string, createdAt: nat,
                                 peerId: string, claimedAt: Option<nat>)

  datatype Claim = Claim(keyId: string, publicKey: string, peerId: string, firstSeen: nat,
                         lastSeen: nat, attempts: nat, via: string, denied: bool)

  datatype Outcome = New | Repeat | Denied | Full | Rejected

  datatype Registry = Registry(keys: seq<DeviceKey>, claims: seq<Claim>)

  datatype Decision = Proven | ClaimOnProof | Refused

  // ---- Pure rules -------------------------------------------------------------------------

  /** A bound key authenticates its peer and nothing else; an unbound one asks, if asking is on. */
  function BindingDecision(bound: string, claimed: string, allowUnbound: bool, claimEnabled: bool): Decision {
    if bound != [] then (if bound == claimed then Proven else Refused)
    else if allowUnbound then Proven
    else if claimEnabled && Trim(claimed) != [] then ClaimOnProof
    else Refused
  }

  predicate IsAlnum(c: char) {
    '0' <= c <= '9' || 'a' <= c <= 'z' || 'A' <= c <= 'Z'
  }

  predicate ValidPeerId(id: string) {
    var t := Trim(id);
    6 <= |t| <= 64 && forall i :: 0 <= i < |t| ==> IsAlnum(t[i]) || t[i] == '-' || t[i] == '_'
  }

  function NormalizePeerId(raw: string): string {
    Filter(raw, c => !IsWhitespace(c))
  }

  predicate Collides(candidate: string, publicKey: string, keys: seq<DeviceKey>) {
    exists k <- keys :: k.id == candidate && k.publicKey != publicKey
  }

  /** The key's alphanumeric characters, cut at the first length, from 16 in steps of 4, that no
      other key's id has; all of them when every such length is taken. */
  function IdFrom(alnum: string, publicKey: string, keys: seq<DeviceKey>, len: nat): (id: string)
    requires 0 < len <= |alnum|
    ensures id <= alnum && (id == alnum || !Collides(id, publicKey, keys))
    decreases |alnum| - len
  {
    if !Collides(alnum[..len], publicKey, keys) || len >= |alnum| then alnum[..len]
    else IdFrom(alnum, publicKey, keys, if len + 4 < |alnum| then len + 4 else |alnum|)
  }

  function DeviceKeyIdFor(publicKey: string, keys: seq<DeviceKey>): (id: string)
    ensures id == Filter(publicKey, IsAlnum) || !Collides(id, publicKey, keys)
  {
    var alnum := Filter(publicKey, IsAlnum);
    if alnum == [] then [] else IdFrom(alnum, publicKey, keys, if |alnum| < 16 then |alnum| else 16)
  }

  lemma {:induction false} IdFromExact(alnum: string, publicKey: string, keys: seq<DeviceKey>, len: nat)
    requires 16 <= len <= |alnum| && (len % 4 == 0 || len == |alnum|)
    ensures var id := IdFrom(alnum, publicKey, keys, len);
            && len <= |id| && id <= alnum && (id != alnum ==> |id| % 4 == 0)
            && forall n :: len <= n < |id| && n % 4 == 0 ==> Collides(alnum[..n], publicKey, keys)
    decreases |alnum| - len
  {
    if Collides(alnum[..len], publicKey, keys) && len < |alnum| {
      var next := if len + 4 < |alnum| then len + 4 else |alnum|;
      IdFromExact(alnum, publicKey, keys, next);
      var id := IdFrom(alnum, publicKey, keys, len);
      forall n | len <= n < |id| && n % 4 == 0 ensures Collides(alnum[..n], publicKey, keys) {
        if len < n { assert next <= n; }
      }
    }
  }

  /** A key's id is the shortest start of its alphanumeric characters, of 16, 20, 24 and so on, that is no
      other key's id; or all of them, when there are no more than 16 or every such start is taken. */
  lemma KeyIdExact(publicKey: string, keys: seq<DeviceKey>)
    ensures var alnum, id := Filter(publicKey, IsAlnum), DeviceKeyIdFor(publicKey, keys);
            && id <= alnum && (id != alnum ==> 16 <= |id| && |id| % 4 == 0 && !Collides(id, publicKey, keys))
            && forall n :: 16 <= n < |id| && n % 4 == 0 ==> Collides(alnum[..n], publicKey, keys)
  {
    var alnum := Filter(publicKey, IsAlnum);
    if |alnum| >= 16 { IdFromExact(alnum, publicKey, keys, 16); }
  }

  // ---- The pending-claim table ------------------------------------------------------------

  predicate IsRow(c: Claim, publicKey: string, peerId: string) {
    c.publicKey == publicKey && c.peerId == peerId
  }

  /** How many rows a key has. */
  function RowsOf(claims: seq<Claim>, publicKey: string): nat {
    if claims == [] then 0 else (if claims[0].publicKey == publicKey then 1 else 0) + RowsOf(claims[1..], publicKey)
  }

  /** The first of the rows not denied that has been waiting longest. */
  function OldestWaiting(claims: seq<Claim>): (r: Option<nat>)
    ensures r.None? ==> forall c <- claims :: c.denied
    ensures r.Some? ==>
              && r.value < |claims| && !claims[r.value].denied
              && forall j :: 0 <= j < |claims| && !claims[j].denied ==>
                   claims[r.value].firstSeen < claims[j].firstSeen
                   || (claims[r.value].firstSeen == claims[j].firstSeen && r.value <= j)
  {
    if claims == [] then None
    else
      var n := |claims| - 1;
      var best := OldestWaiting(claims[..n]);
      if claims[n].denied then best
      else if best.Some? && claims[best.value].firstSeen <= claims[n].firstSeen then best
      else Some(n)
  }

  /** The eviction: drop the oldest waiting row until there is room, or none is left to drop. */
  function MakeRoom(claims: seq<Claim>): (r: (seq<Claim>, bool))
    ensures r.1 ==> |r.0| < MAX_PENDING_CLAIMS
    ensures !r.1 ==> |r.0| >= MAX_PENDING_CLAIMS && forall c <- r.0 :: c.denied
    decreases |claims|
  {
    if |claims| < MAX_PENDING_CLAIMS then (claims, true)
    else match OldestWaiting(claims)
      case None => (claims, false)
      case Some(i) => MakeRoom(RemoveAt(claims, i))
  }

  function Seen(c: Claim, keyId: string, via: string, now: nat): Claim {
    c.(lastSeen := now, attempts := if c.attempts < MAX_U32 then c.attempts + 1 else MAX_U32, via := via, keyId := keyId)
  }

  function Register(claims: seq<Claim>, keyId: string, rawKey: string, rawPeer: string, via: string, now: nat)
    : (seq<Claim>, Outcome)
  {
    var pk := Trim(rawKey);
    var peer := Trim(rawPeer);
    if !ValidPeerId(peer) then (claims, Rejected)
    else match Position(claims, (c: Claim) => IsRow(c, pk, peer))
      case Some(i) =>
        (claims[i := Seen(claims[i], keyId, via, now)], if claims[i].denied then Denied else Repeat)
      case None =>
        if RowsOf(claims, pk) >= MAX_PENDING_PER_KEY then (claims, Full)
        else
          var room := MakeRoom(claims);
          if !room.1 then (room.0, Full)
          else (room.0 + [Claim(keyId, pk, peer, now, now, 1, via, false)], New)
  }

  // ---- Registry operations ----------------------------------------------------------------

  function FindKey(keys: seq<DeviceKey>, publicKey: string): Option<nat> {
    Position(keys, (k: DeviceKey) => k.publicKey == publicKey)
  }

  /** A client's proved request: filed only for a key that is still pinned. */
  function File(r: Registry, rawKey: string, rawPeer: string, via: string, now: nat): (Registry, Outcome) {
    match FindKey(r.keys, Trim(rawKey))
    case None => (r, Rejected)
    case Some(i) =>
      var res := Register(r.claims, r.keys[i].id, Trim(rawKey), rawPeer, via, now);
      (r.(claims := res.0), res.1)
  }

  /** The keys a registration leaves in place: all but the same public key's and the same id's. */
  function Others(keys: seq<DeviceKey>, publicKey: string, id: string): seq<DeviceKey> {
    Keep(keys, (k: DeviceKey) => k.publicKey != publicKey && k.id != id)
  }

  function AddKey(r: Registry, title: string, publicKey: string, now: nat, rawPeer: string): Registry {
    var id := DeviceKeyIdFor(publicKey, r.keys);
    var dk := DeviceKey(id, title, publicKey, now, NormalizePeerId(rawPeer), None);
    r.(keys := Others(r.keys, publicKey, id) + [dk])
  }

  function DropRows(claims: seq<Claim>, publicKey: string): seq<Claim> {
    Keep(claims, (c: Claim) => c.publicKey != publicKey)
  }

  function RemoveKey(r: Registry, id: string): Registry {
    match Position(r.keys, (k: DeviceKey) => k.id == id)
    case None => r
    case Some(i) => Registry(RemoveAt(r.keys, i), DropRows(r.claims, r.keys[i].publicKey))
  }

  function SetPeerId(r: Registry, id: string, rawPeer: string): Result<Registry, ()> {
    var peer := NormalizePeerId(rawPeer);
    if peer != [] && !ValidPeerId(peer) then Err(())
    else match Position(r.keys, (k: DeviceKey) => k.id == id)
      case None => Err(())
      case Some(i) =>
        Ok(Registry(r.keys[i := r.keys[i].(peerId := peer, claimedAt := None)], DropRows(r.claims, r.keys[i].publicKey)))
  }

  /** Take an unbound key for a peer; a key already bound is refused to anyone else. */
  function ClaimKey(keys: seq<DeviceKey>, rawKey: string, rawPeer: string, now: nat): Result<seq<DeviceKey>, ()> {
    var peer := Trim(rawPeer);
    if peer == [] then Err(())
    else match FindKey(keys, Trim(rawKey))
      case None => Err(())
      case Some(i) =>
        if keys[i].peerId == peer then Ok(keys)
        else if keys[i].peerId != [] then Err(())
        else Ok(keys[i := keys[i].(peerId := peer, claimedAt := Some(now))])
  }

  predicate Named(c: Claim, keyId: string, peerId: string) {
    c.keyId == keyId && c.peerId == peerId
  }

  function Approve(r: Registry, keyId: string, peerId: string, now: nat): Result<Registry, ()> {
    match Position(r.claims, (c: Claim) => Named(c, keyId, peerId))
    case None => Err(())
    case Some(i) =>
      match ClaimKey(r.keys, r.claims[i].publicKey, peerId, now)
      case Err(_) => Err(())
      case Ok(keys) => Ok(Registry(keys, DropRows(r.claims, r.claims[i].publicKey)))
  }

  function Deny(r: Registry, keyId: string, peerId: string): Registry {
    match Position(r.claims, (c: Claim) => Named(c, keyId, peerId))
    case None => r
    case Some(i) => r.(claims := r.claims[i := r.claims[i].(denied := true)])
  }

  function Forget(r: Registry, keyId: string, peerId: string): Registry {
    r.(claims := Keep(r.claims, (c: Claim) => !Named(c, keyId, peerId)))
  }

  // ---- What every operation keeps ---------------------------------------------------------

  ghost predicate KeysOk(keys: seq<DeviceKey>) {
    forall i, j :: 0 <= i < j < |keys| ==> keys[i].id != keys[j].id && keys[i].publicKey != keys[j].publicKey
  }

  ghost predicate RowsDistinct(claims: seq<Claim>) {
    forall i, j :: 0 <= i < j < |claims| ==> !IsRow(claims[i], claims[j].publicKey, claims[j].peerId)
  }

  predicate RowOk(c: Claim) {
    Trimmed(c.publicKey) && Trimmed(c.peerId) && ValidPeerId(c.peerId)
  }

  /** Rows are distinct as (key, peer) pairs, well formed, and within both caps. */
  ghost predicate TableOk(claims: seq<Claim>) {
    && RowsDistinct(claims)
    && (forall c <- claims :: RowOk(c))
    && |claims| <= MAX_PENDING_CLAIMS
    && forall pk :: RowsOf(claims, pk) <= MAX_PENDING_PER_KEY
  }

  /** The row's key is pinned, under the id the row shows. */
  ghost predicate Pinned(keys: seq<DeviceKey>, c: Claim) {
    exists k <- keys :: k.publicKey == c.publicKey && k.id == c.keyId
  }

  ghost predicate RowsPinned(r: Registry) {
    forall c <- r.claims :: Pinned(r.keys, c)
  }

  ghost predicate Inv(r: Registry) {
    KeysOk(r.keys) && TableOk(r.claims) && RowsPinned(r)
  }

  lemma {:induction false} FewerRows(a: seq<Claim>, b: seq<Claim>, pk: string)
    requires Subseq(a, b)
    ensures RowsOf(a, pk) <= RowsOf(b, pk)
    decreases |b|
  {
    if a == [] {
    } else {
      if a[0] == b[0] && Subseq(a[1..], b[1..]) { FewerRows(a[1..], b[1..], pk); }
      else { FewerRows(a, b[1..], pk); }
    }
  }

  lemma {:induction false} FewerStayDistinct(a: seq<Claim>, b: seq<Claim>)
    requires Subseq(a, b) && RowsDistinct(b)
    ensures RowsDistinct(a)
    decreases |b|
  {
    if a == [] {
    } else {
      if a[0] == b[0] && Subseq(a[1..], b[1..]) {
        FewerStayDistinct(a[1..], b[1..]);
        SubseqMembers(a[1..], b[1..]);
        forall j | 0 < j < |a| ensures !IsRow(a[0], a[j].publicKey, a[j].peerId) {
          assert a[j] == a[1..][j - 1] && a[1..][j - 1] in b[1..];
          var k :| 0 <= k < |b[1..]| && b[1..][k] == a[j];
          assert b[k + 1] == a[j];
        }
        forall i, j | 0 < i < j < |a| ensures !IsRow(a[i], a[j].publicKey, a[j].peerId) {
          assert a[i] == a[1..][i - 1] && a[j] == a[1..][j - 1];
        }
      } else {
        FewerStayDistinct(a, b[1..]);
      }
    }
  }

  /** Dropping rows never breaks the table. */
  lemma DroppingKeepsTable(a: seq<Claim>, b: seq<Claim>)
    requires Subseq(a, b) && TableOk(b)
    ensures TableOk(a)
  {
    SubseqMembers(a, b);
    FewerStayDistinct(a, b);
    forall pk: string ensures RowsOf(a, pk) <= MAX_PENDING_PER_KEY { FewerRows(a, b, pk); }
  }

  lemma {:induction false} RowsOfAppend(claims: seq<Claim>, c: Claim, pk: string)
    ensures RowsOf(claims + [c], pk) == RowsOf(claims, pk) + if c.publicKey == pk then 1 else 0
  {
    if claims == [] {
    } else {
      assert (claims + [c])[1..] == claims[1..] + [c];
      RowsOfAppend(claims[1..], c, pk);
    }
  }

  lemma {:induction false} RowsOfUpdate(claims: seq<Claim>, i: nat, c: Claim, pk: string)
    requires i < |claims| && c.publicKey == claims[i].publicKey
    ensures RowsOf(claims[i := c], pk) == RowsOf(claims, pk)
  {
    if i > 0 {
      assert claims[i := c][1..] == claims[1..][i - 1 := c];
      RowsOfUpdate(claims[1..], i - 1, c, pk);
    } else {
      assert claims[0 := c][1..] == claims[1..];
    }
  }

  lemma UpdateKeepsTable(claims: seq<Claim>, i: nat, c: Claim)
    requires TableOk(claims) && i < |claims| && IsRow(c, claims[i].publicKey, claims[i].peerId)
    ensures TableOk(claims[i := c])
  {
    var claims' := claims[i := c];
    forall pk: string ensures RowsOf(claims', pk) <= MAX_PENDING_PER_KEY { RowsOfUpdate(claims, i, c, pk); }
    assert RowOk(claims[i]);
  }

  lemma AdditionKeepsTable(claims: seq<Claim>, c: Claim)
    requires TableOk(claims) && |claims| < MAX_PENDING_CLAIMS && RowsOf(claims, c.publicKey) < MAX_PENDING_PER_KEY
    requires RowOk(c) && forall d <- claims :: !IsRow(d, c.publicKey, c.peerId)
    ensures TableOk(claims + [c])
  {
    forall pk: string ensures RowsOf(claims + [c], pk) <= MAX_PENDING_PER_KEY { RowsOfAppend(claims, c, pk); }
  }

  lemma {:induction false} MakeRoomDropsRows(claims: seq<Claim>)
    ensures Subseq(MakeRoom(claims).0, claims)
    decreases |claims|
  {
    SubseqOfItself(claims);
    if |claims| >= MAX_PENDING_CLAIMS && OldestWaiting(claims).Some? {
      var i := OldestWaiting(claims).value;
      MakeRoomDropsRows(RemoveAt(claims, i));
      RemoveAtSubseq(claims, i);
      SubseqTransitive(MakeRoom(claims).0, RemoveAt(claims, i), claims);
    }
  }

  lemma RegisterKeepsTable(claims: seq<Claim>, keyId: string, rawKey: string, rawPeer: string, via: string, now: nat)
    requires TableOk(claims)
    ensures TableOk(Register(claims, keyId, rawKey, rawPeer, via, now).0)
  {
    var pk, peer := Trim(rawKey), Trim(rawPeer);
    TrimIsIdempotent(rawKey);
    TrimIsIdempotent(rawPeer);
    if ValidPeerId(peer) {
      match Position(claims, (c: Claim) => IsRow(c, pk, peer))
      case Some(i) => UpdateKeepsTable(claims, i, Seen(claims[i], keyId, via, now));
      case None =>
        var room := MakeRoom(claims).0;
        MakeRoomDropsRows(claims);
        DroppingKeepsTable(room, claims);
        SubseqMembers(room, claims);
        FewerRows(room, claims, pk);
        if RowsOf(claims, pk) < MAX_PENDING_PER_KEY && MakeRoom(claims).1 {
          AdditionKeepsTable(room, Claim(keyId, pk, peer, now, now, 1, via, false));
        }
    }
  }

  // ---- Registrations: eviction and denials ------------------------------------------------

  /** The table after the oldest waiting row made way, if the table was full. */
  function WithRoom(claims: seq<Claim>): seq<Claim> {
    match OldestWaiting(claims)
    case Some(i) => if |claims| == MAX_PENDING_CLAIMS then RemoveAt(claims, i) else claims
    case None => claims
  }

  /** What each answer says about the table after a registration. */
  ghost predicate Effect(claims: seq<Claim>, keyId: string, pk: string, peer: string, via: string, now: nat,
                         claims': seq<Claim>, outcome: Outcome) {
    match outcome
    case New =>
      && claims' == WithRoom(claims) + [Claim(keyId, pk, peer, now, now, 1, via, false)]
      && (forall c <- claims :: !IsRow(c, pk, peer))
    case Full =>
      && claims' == claims
      && (RowsOf(claims, pk) == MAX_PENDING_PER_KEY || (|claims| == MAX_PENDING_CLAIMS && forall c <- claims :: c.denied))
    case Rejected => claims' == claims && !ValidPeerId(peer)
    case _ =>
      exists i :: 0 <= i < |claims| && SeenAgain(claims, i, keyId, pk, peer, via, now, claims', outcome)
  }

  predicate SeenAgain(claims: seq<Claim>, i: nat, keyId: string, pk: string, peer: string, via: string, now: nat,
                      claims': seq<Claim>, outcome: Outcome)
    requires i < |claims|
  {
    var c := claims[i];
    && IsRow(c, pk, peer) && (c.denied <==> outcome == Denied)
    && claims' == claims[i := Claim(keyId, pk, peer, c.firstSeen, now, if c.attempts < 0xFFFF_FFFF then c.attempts + 1 else 0xFFFF_FFFF, via, c.denied)]
  }

  lemma SeenOnce(claims: seq<Claim>, i: nat, keyId: string, pk: string, peer: string, via: string, now: nat)
    requires i < |claims| && IsRow(claims[i], pk, peer)
    ensures SeenAgain(claims, i, keyId, pk, peer, via, now, claims[i := Seen(claims[i], keyId, via, now)],
                      if claims[i].denied then Denied else Repeat)
  {}

  lemma MakeRoomWithinCap(claims: seq<Claim>)
    requires |claims| <= MAX_PENDING_CLAIMS
    ensures MakeRoom(claims).0 == WithRoom(claims)
    ensures MakeRoom(claims).1 <==> |claims| < MAX_PENDING_CLAIMS || OldestWaiting(claims).Some?
  {}

  /** From a table within its cap, a registration either changes one row's counters, or appends
      one row, dropping the oldest waiting row if the table is full; and a Full answer, like a
      Rejected one, leaves the table as it was: the key has its share already, or every one of
      the rows is denied. */
  lemma RegisterChangesOneRow(claims: seq<Claim>, keyId: string, rawKey: string, rawPeer: string, via: string, now: nat)
    requires TableOk(claims)
    ensures var r := Register(claims, keyId, rawKey, rawPeer, via, now);
            Effect(claims, keyId, Trim(rawKey), Trim(rawPeer), via, now, r.0, r.1)
  {
    var pk, peer := Trim(rawKey), Trim(rawPeer);
    MakeRoomWithinCap(claims);
    match Position(claims, (c: Claim) => IsRow(c, pk, peer))
    case Some(i) =>
      if ValidPeerId(peer) { SeenOnce(claims, i, keyId, pk, peer, via, now); }
    case None =>
  }

  /** Above the cap, which only a table loaded from elsewhere can be, the loop drops waiting rows
      before it answers Full: the table is then unchanged exactly when the key's own share was
      the reason or no row was waiting. */
  lemma FullKeepsTableIff(claims: seq<Claim>, keyId: string, rawKey: string, rawPeer: string, via: string, now: nat)
    requires Register(claims, keyId, rawKey, rawPeer, via, now).1 == Full
    ensures Register(claims, keyId, rawKey, rawPeer, via, now).0 == claims <==>
            RowsOf(claims, Trim(rawKey)) >= MAX_PENDING_PER_KEY || forall c <- claims :: c.denied
  {
    RoomUnchangedIff(claims);
  }

  lemma RoomUnchangedIff(claims: seq<Claim>)
    ensures MakeRoom(claims).0 == claims <==> |claims| < MAX_PENDING_CLAIMS || forall c <- claims :: c.denied
    ensures !MakeRoom(claims).1 ==> |claims| >= MAX_PENDING_CLAIMS
  {}

  function DeniedPairs(claims: seq<Claim>): set<(string, string)> {
    set c | c in claims && c.denied :: (c.publicKey, c.peerId)
  }

  lemma RemovalKeepsDenied(claims: seq<Claim>, i: nat)
    requires i < |claims| && !claims[i].denied
    ensures DeniedPairs(RemoveAt(claims, i)) == DeniedPairs(claims)
  {}

  lemma {:induction false} MakeRoomKeepsDenied(claims: seq<Claim>)
    ensures DeniedPairs(MakeRoom(claims).0) == DeniedPairs(claims)
    decreases |claims|
  {
    if |claims| >= MAX_PENDING_CLAIMS && OldestWaiting(claims).Some? {
      var i := OldestWaiting(claims).value;
      RemovalKeepsDenied(claims, i);
      MakeRoomKeepsDenied(RemoveAt(claims, i));
    }
  }

  lemma AppendKeepsDenied(claims: seq<Claim>, c: Claim)
    requires !c.denied
    ensures DeniedPairs(claims + [c]) == DeniedPairs(claims)
  {}

  lemma UpdateKeepsDenied(claims: seq<Claim>, i: nat, c: Claim)
    requires i < |claims| && IsRow(c, claims[i].publicKey, claims[i].peerId) && c.denied == claims[i].denied
    ensures DeniedPairs(claims[i := c]) == DeniedPairs(claims)
  {
    var claims' := claims[i := c];
    forall p | p in DeniedPairs(claims) ensures p in DeniedPairs(claims') {
      var j :| 0 <= j < |claims| && claims[j].denied && (claims[j].publicKey, claims[j].peerId) == p;
      assert claims'[j] in claims' && claims'[j].denied;
    }
    forall p | p in DeniedPairs(claims') ensures p in DeniedPairs(claims) {
      var j :| 0 <= j < |claims'| && claims'[j].denied && (claims'[j].publicKey, claims'[j].peerId) == p;
      assert claims[j] in claims && claims[j].denied;
    }
  }

  lemma RegisterKeepsDenied(claims: seq<Claim>, keyId: string, rawKey: string, rawPeer: string, via: string, now: nat)
    ensures DeniedPairs(Register(claims, keyId, rawKey, rawPeer, via, now).0) == DeniedPairs(claims)
  {
    var pk, peer := Trim(rawKey), Trim(rawPeer);
    match Position(claims, (c: Claim) => IsRow(c, pk, peer))
    case Some(i) => UpdateKeepsDenied(claims, i, Seen(claims[i], keyId, via, now));
    case None =>
      MakeRoomKeepsDenied(claims);
      AppendKeepsDenied(MakeRoom(claims).0, Claim(keyId, pk, peer, now, now, 1, via, false));
  }

  datatype Ask = Ask(keyId: string, rawKey: string, rawPeer: string, via: string, now: nat)

  function RegisterAll(claims: seq<Claim>, asks: seq<Ask>): seq<Claim>
    decreases |asks|
  {
    if asks == [] then claims
    else
      var a := asks[0];
      RegisterAll(Register(claims, a.keyId, a.rawKey, a.rawPeer, a.via, a.now).0, asks[1..])
  }

  lemma DeniedPairIsTold(claims: seq<Claim>, a: Ask)
    requires TableOk(claims) && (Trim(a.rawKey), Trim(a.rawPeer)) in DeniedPairs(claims)
    ensures Register(claims, a.keyId, a.rawKey, a.rawPeer, a.via, a.now).1 == Denied
  {}

  /** Denials survive any flood of requests: whatever is asked, by whatever keys, the denied pairs
      stay exactly the same, and a denied pair that asks again is told Denied. */
  lemma {:induction false} DenialsAreSticky(claims: seq<Claim>, asks: seq<Ask>, again: Ask)
    requires TableOk(claims)
    ensures DeniedPairs(RegisterAll(claims, asks)) == DeniedPairs(claims)
    ensures (Trim(again.rawKey), Trim(again.rawPeer)) in DeniedPairs(claims) ==>
              Register(RegisterAll(claims, asks), again.keyId, again.rawKey, again.rawPeer, again.via, again.now).1 == Denied
    decreases |asks|
  {
    if asks == [] {
      if (Trim(again.rawKey), Trim(again.rawPeer)) in DeniedPairs(claims) { DeniedPairIsTold(claims, again); }
    } else {
      var a := asks[0];
      RegisterKeepsDenied(claims, a.keyId, a.rawKey, a.rawPeer, a.via, a.now);
      RegisterKeepsTable(claims, a.keyId, a.rawKey, a.rawPeer, a.via, a.now);
      DenialsAreSticky(Register(claims, a.keyId, a.rawKey, a.rawPeer, a.via, a.now).0, asks[1..], again);
    }
  }

  // ---- Runs of clients and operators ------------------------------------------------------

  /** The registry, its two policy switches, and the proved requests that have been decided but
      not yet filed: a decision is taken under one lock and filed under another. */
  datatype System = System(reg: Registry, allowUnbound: bool, claimEnabled: bool, decided: seq<(string, string)>)

  datatype Step =
    | Generate(title: string, publicKey: string, now: nat, rawPeer: string)
    | Delete(id: string)
    | Bind(id: string, rawPeer: string)
    | ApproveClaim(keyId: string, peerId: string, now: nat)
    | DenyClaim(keyId: string, peerId: string)
    | ForgetClaim(keyId: string, peerId: string)
    | Switch(allowUnbound: bool, claimEnabled: bool)
    | Decide(rawKey: string, peerId: string)
    | FileDecided(i: nat, via: string, now: nat)

  predicate IsClientStep(e: Step) {
    e.Decide? || e.FileDecided?
  }

  /** A generated key pair has never been seen: no key and no row carries its public half. */
  predicate Fresh(r: Registry, publicKey: string) {
    (forall k <- r.keys :: k.publicKey != publicKey) && (forall c <- r.claims :: c.publicKey != publicKey)
  }

  function Next(s: System, e: Step): System {
    match e
    case Generate(title, pk, now, peer) =>
      if Fresh(s.reg, pk) then s.(reg := AddKey(s.reg, title, pk, now, peer)) else s
    case Delete(id) => s.(reg := RemoveKey(s.reg, id))
    case Bind(id, peer) =>
      (match SetPeerId(s.reg, id, peer)
       case Ok(r) => s.(reg := r)
       case Err(_) => s)
    case ApproveClaim(keyId, peer, now) =>
      (match Approve(s.reg, keyId, peer, now)
       case Ok(r) => s.(reg := r)
       case Err(_) => s)
    case DenyClaim(keyId, peer) => s.(reg := Deny(s.reg, keyId, peer))
    case ForgetClaim(keyId, peer) => s.(reg := Forget(s.reg, keyId, peer))
    case Switch(a, c) => s.(allowUnbound := a, claimEnabled := c)
    case Decide(rawKey, peer) =>
      (match FindKey(s.reg.keys, Trim(rawKey))
       case Some(i) =>
         if BindingDecision(s.reg.keys[i].peerId, peer, s.allowUnbound, s.claimEnabled) == ClaimOnProof
         then s.(decided := s.decided + [(rawKey, peer)]) else s
       case None => s)
    case FileDecided(i, via, now) =>
      if i < |s.decided| then s.(reg := File(s.reg, s.decided[i].0, s.decided[i].1, via, now).0) else s
  }

  function Run(s: System, es: seq<Step>): System
    decreases |es|
  {
    if es == [] then s else Run(Next(s, es[0]), es[1..])
  }

  lemma {:induction false} FewerKeysOk(a: seq<DeviceKey>, b: seq<DeviceKey>)
    requires Subseq(a, b) && KeysOk(b)
    ensures KeysOk(a)
    decreases |b|
  {
    if a == [] {
    } else {
      if a[0] == b[0] && Subseq(a[1..], b[1..]) {
        FewerKeysOk(a[1..], b[1..]);
        SubseqMembers(a[1..], b[1..]);
        forall j | 0 < j < |a| ensures a[0].id != a[j].id && a[0].publicKey != a[j].publicKey {
          assert a[j] == a[1..][j - 1] && a[1..][j - 1] in b[1..];
          var k :| 0 <= k < |b[1..]| && b[1..][k] == a[j];
          assert b[k + 1] == a[j];
        }
        forall i, j | 0 < i < j < |a| ensures a[i].id != a[j].id && a[i].publicKey != a[j].publicKey {
          assert a[i] == a[1..][i - 1] && a[j] == a[1..][j - 1];
        }
      } else {
        FewerKeysOk(a, b[1..]);
      }
    }
  }

  lemma SameKey(keys: seq<DeviceKey>, a: DeviceKey, b: DeviceKey)
    requires KeysOk(keys) && a in keys && b in keys && (a.id == b.id || a.publicKey == b.publicKey)
    ensures a == b
  {}

  /** Changing a key's binding keeps it pinned. */
  lemma RebindingKeepsPinned(keys: seq<DeviceKey>, i: nat, k: DeviceKey, c: Claim)
    requires i < |keys| && k.id == keys[i].id && k.publicKey == keys[i].publicKey && Pinned(keys, c)
    ensures Pinned(keys[i := k], c)
  {
    var w :| w in keys && w.publicKey == c.publicKey && w.id == c.keyId;
    var j :| 0 <= j < |keys| && keys[j] == w;
    assert keys[i := k][j] in keys[i := k];
  }

  lemma AddKeepsKeys(r: Registry, title: string, publicKey: string, now: nat, rawPeer: string)
    requires KeysOk(r.keys)
    ensures KeysOk(AddKey(r, title, publicKey, now, rawPeer).keys)
  {
    var id := DeviceKeyIdFor(publicKey, r.keys);
    var kept := Others(r.keys, publicKey, id);
    FewerKeysOk(kept, r.keys);
    forall i | 0 <= i < |kept| ensures kept[i].id != id && kept[i].publicKey != publicKey {
      assert kept[i] in kept;
    }
  }

  lemma DeleteKeepsKeys(r: Registry, id: string)
    requires KeysOk(r.keys)
    ensures KeysOk(RemoveKey(r, id).keys)
  {}

  /** Only adding and deleting a key change which keys there are. */
  predicate SameNames(keys: seq<DeviceKey>, keys': seq<DeviceKey>) {
    |keys'| == |keys| && forall i :: 0 <= i < |keys| ==> keys'[i].id == keys[i].id && keys'[i].publicKey == keys[i].publicKey
  }

  lemma BindKeepsNames(r: Registry, id: string, peer: string)
    ensures SetPeerId(r, id, peer).Ok? ==> SameNames(r.keys, SetPeerId(r, id, peer).value.keys)
  {}

  lemma ApproveKeepsNames(r: Registry, keyId: string, peer: string, now: nat)
    ensures Approve(r, keyId, peer, now).Ok? ==> SameNames(r.keys, Approve(r, keyId, peer, now).value.keys)
  {}

  lemma SameNamesKeepKeys(keys: seq<DeviceKey>, keys': seq<DeviceKey>)
    requires KeysOk(keys) && SameNames(keys, keys')
    ensures KeysOk(keys')
  {}

  lemma KeepsKeys(s: System, e: Step)
    requires KeysOk(s.reg.keys)
    ensures KeysOk(Next(s, e).reg.keys)
  {
    match e
    case Generate(title, pk, now, peer) => AddKeepsKeys(s.reg, title, pk, now, peer);
    case Delete(id) => DeleteKeepsKeys(s.reg, id);
    case Bind(id, peer) =>
      BindKeepsNames(s.reg, id, peer);
      SameNamesKeepKeys(s.reg.keys, Next(s, e).reg.keys);
    case ApproveClaim(keyId, peer, now) =>
      ApproveKeepsNames(s.reg, keyId, peer, now);
      SameNamesKeepKeys(s.reg.keys, Next(s, e).reg.keys);
    case _ => assert Next(s, e).reg.keys == s.reg.keys;
  }

  lemma KeepsTable(s: System, e: Step)
    requires TableOk(s.reg.claims)
    ensures TableOk(Next(s, e).reg.claims)
  {
    var claims := s.reg.claims;
    match e
    case Delete(_) => DropsRows(s, e);
    case Bind(_, _) => DropsRows(s, e);
    case ApproveClaim(_, _, _) => DropsRows(s, e);
    case ForgetClaim(_, _) => DropsRows(s, e);
    case DenyClaim(keyId, peer) =>
      var i := Position(claims, (c: Claim) => Named(c, keyId, peer));
      if i.Some? { UpdateKeepsTable(claims, i.value, claims[i.value].(denied := true)); }
    case FileDecided(i, via, now) =>
      if i < |s.decided| {
        var pk := Trim(s.decided[i].0);
        var j := FindKey(s.reg.keys, pk);
        if j.Some? { RegisterKeepsTable(claims, s.reg.keys[j.value].id, pk, s.decided[i].1, via, now); }
      }
    case _ =>
  }

  lemma DropsRows(s: System, e: Step)
    requires TableOk(s.reg.claims) && (e.Delete? || e.Bind? || e.ApproveClaim? || e.ForgetClaim?)
    ensures TableOk(Next(s, e).reg.claims)
  {
    SubseqOfItself(s.reg.claims);
    DroppingKeepsTable(Next(s, e).reg.claims, s.reg.claims);
  }

  /** Over every run, whatever clients and operators do: key ids and public keys stay pairwise
      distinct, and so do the rows; no key has more than five and the table no more than 200. */
  lemma {:induction false} RunKeepsKeysAndTable(s: System, es: seq<Step>)
    requires KeysOk(s.reg.keys) && TableOk(s.reg.claims)
    ensures KeysOk(Run(s, es).reg.keys) && TableOk(Run(s, es).reg.claims)
    decreases |es|
  {
    if es == [] {
    } else {
      KeepsKeys(s, es[0]);
      KeepsTable(s, es[0]);
      RunKeepsKeysAndTable(Next(s, es[0]), es[1..]);
    }
  }

  /** Whether a registration would take over the id of a key that has rows waiting. */
  predicate TakesRowsId(r: Registry, publicKey: string) {
    exists c <- r.claims :: c.keyId == DeviceKeyIdFor(publicKey, r.keys)
  }

  /** Pinning a fresh key keeps every row's key pinned exactly when it takes over no waiting
      key's id; and it can only do that once every shorter prefix of its own is taken too. */
  lemma AddKeepsRowsPinnedIff(r: Registry, title: string, publicKey: string, now: nat, rawPeer: string)
    requires Inv(r) && Fresh(r, publicKey)
    ensures RowsPinned(AddKey(r, title, publicKey, now, rawPeer)) <==> !TakesRowsId(r, publicKey)
    ensures TakesRowsId(r, publicKey) ==> DeviceKeyIdFor(publicKey, r.keys) == Filter(publicKey, IsAlnum)
  {}

  /** Every generated key found an id no waiting key had. */
  predicate NoIdTaken(s: System, es: seq<Step>)
    decreases |es|
  {
    es == [] || ((es[0].Generate? && Fresh(s.reg, es[0].publicKey) ==> !TakesRowsId(s.reg, es[0].publicKey))
                 && NoIdTaken(Next(s, es[0]), es[1..]))
  }

  lemma RowsOfOtherKeysStay(keys: seq<DeviceKey>, claims: seq<Claim>, i: nat)
    requires i < |keys| && forall c <- claims :: Pinned(keys, c)
    ensures forall c <- DropRows(claims, keys[i].publicKey) :: Pinned(RemoveAt(keys, i), c)
  {}

  lemma RebindingKeepsAllPinned(keys: seq<DeviceKey>, claims: seq<Claim>, i: nat, k: DeviceKey)
    requires i < |keys| && k.id == keys[i].id && k.publicKey == keys[i].publicKey
    requires forall c <- claims :: Pinned(keys, c)
    ensures forall c <- claims :: Pinned(keys[i := k], c)
  {
    forall c | c in claims ensures Pinned(keys[i := k], c) { RebindingKeepsPinned(keys, i, k, c); }
  }

  lemma FilingKeepsPinned(r: Registry, rawKey: string, rawPeer: string, via: string, now: nat)
    requires Inv(r)
    ensures RowsPinned(File(r, rawKey, rawPeer, via, now).0)
  {
    var pk := Trim(rawKey);
    TrimIsIdempotent(rawKey);
    var at := FindKey(r.keys, pk);
    if at.Some? {
      var key := r.keys[at.value];
      assert key in r.keys && key.publicKey == pk;
      RegisterChangesOneRow(r.claims, key.id, pk, rawPeer, via, now);
      var claims' := File(r, rawKey, rawPeer, via, now).0.claims;
      OldestRemoved(r.claims);
      forall c | c in claims' ensures Pinned(r.keys, c) {
        if c !in r.claims { assert c.publicKey == pk && c.keyId == key.id; }
      }
    }
  }

  lemma OldestRemoved(claims: seq<Claim>)
    ensures forall c <- WithRoom(claims) :: c in claims
  {}

  lemma KeepsRowsPinned(s: System, e: Step)
    requires Inv(s.reg)
    requires e.Generate? && Fresh(s.reg, e.publicKey) ==> !TakesRowsId(s.reg, e.publicKey)
    ensures RowsPinned(Next(s, e).reg)
  {
    var r := s.reg;
    match e
    case Generate(title, pk, now, peer) => if Fresh(r, pk) { AddKeepsRowsPinnedIff(r, title, pk, now, peer); }
    case Delete(id) =>
      var i := Position(r.keys, (k: DeviceKey) => k.id == id);
      if i.Some? { RowsOfOtherKeysStay(r.keys, r.claims, i.value); }
    case Bind(id, peer) =>
      var i := Position(r.keys, (k: DeviceKey) => k.id == id);
      if i.Some? {
        RebindingKeepsAllPinned(r.keys, r.claims, i.value, r.keys[i.value].(peerId := NormalizePeerId(peer), claimedAt := None));
      }
    case ApproveClaim(keyId, peer, now) => ApprovingKeepsPinned(r, keyId, peer, now);
    case DenyClaim(keyId, peer) =>
      var i := Position(r.claims, (c: Claim) => Named(c, keyId, peer));
      if i.Some? { assert Pinned(r.keys, r.claims[i.value]); }
    case FileDecided(i, via, now) =>
      if i < |s.decided| { FilingKeepsPinned(r, s.decided[i].0, s.decided[i].1, via, now); }
    case _ =>
  }

  lemma ApprovingKeepsPinned(r: Registry, keyId: string, peer: string, now: nat)
    requires Inv(r)
    ensures Approve(r, keyId, peer, now).Ok? ==> RowsPinned(Approve(r, keyId, peer, now).value)
  {
    var i := Position(r.claims, (c: Claim) => Named(c, keyId, peer));
    if i.Some? && ClaimKey(r.keys, r.claims[i.value].publicKey, peer, now).Ok? {
      var keys' := ClaimKey(r.keys, r.claims[i.value].publicKey, peer, now).value;
      var j := FindKey(r.keys, Trim(r.claims[i.value].publicKey));
      assert Approve(r, keyId, peer, now).value.keys == keys';
      if keys' != r.keys {
        RebindingKeepsAllPinned(r.keys, r.claims, j.value, r.keys[j.value].(peerId := Trim(peer), claimedAt := Some(now)));
      }
    }
  }

  lemma NextKeepsInv(s: System, e: Step)
    requires Inv(s.reg) && (e.Generate? && Fresh(s.reg, e.publicKey) ==> !TakesRowsId(s.reg, e.publicKey))
    ensures Inv(Next(s, e).reg)
  {
    KeepsKeys(s, e);
    KeepsTable(s, e);
    KeepsRowsPinned(s, e);
  }

  /** Over every run in which no generated key takes a waiting key's id: every pending row names
      a key that is pinned, under the id the row shows. */
  lemma {:induction false} RunKeepsInv(s: System, es: seq<Step>)
    requires Inv(s.reg) && NoIdTaken(s, es)
    ensures Inv(Run(s, es).reg)
    decreases |es|
  {
    if es == [] {
    } else {
      NextKeepsInv(s, es[0]);
      RunKeepsInv(Next(s, es[0]), es[1..]);
    }
  }

  // ---- Who binds a key --------------------------------------------------------------------

  /** No sequence of client steps changes a pinned key in any way. */
  lemma {:induction false} ClientsBindNothing(s: System, es: seq<Step>)
    requires forall e <- es :: IsClientStep(e)
    ensures Run(s, es).reg.keys == s.reg.keys
    decreases |es|
  {
    if es == [] {
    } else {
      assert IsClientStep(es[0]);
      ClientsBindNothing(Next(s, es[0]), es[1..]);
    }
  }

  /** Two tables of keys that agree on everything but the binding of one key. */
  predicate BindingsDifferAt(keys: seq<DeviceKey>, keys': seq<DeviceKey>, i: nat) {
    && |keys'| == |keys| && i < |keys|
    && keys' == keys[i := keys'[i]]
    && keys'[i] == keys[i].(peerId := keys'[i].peerId, claimedAt := keys'[i].claimedAt)
  }

  /** The key a row asks for: the one pinned key with its public half. */
  lemma RowsKey(r: Registry, c: Claim) returns (j: nat)
    requires Inv(r) && c in r.claims
    ensures j < |r.keys| && r.keys[j].publicKey == c.publicKey && r.keys[j].id == c.keyId
    ensures FindKey(r.keys, Trim(c.publicKey)) == Some(j)
    ensures forall k :: 0 <= k < |r.keys| && r.keys[k].publicKey == c.publicKey ==> k == j
  {
    assert RowOk(c) && Pinned(r.keys, c);
    TrimIsIdempotent(c.publicKey);
    var key :| key in r.keys && key.publicKey == c.publicKey && key.id == c.keyId;
    j := FindKey(r.keys, c.publicKey).value;
    SameKey(r.keys, key, r.keys[j]);
  }

  /** Approval succeeds exactly when the row exists and its key is unbound or already bound to
      that peer. */
  lemma ApprovalSucceedsIff(r: Registry, keyId: string, peer: string, now: nat)
    requires Inv(r)
    ensures Approve(r, keyId, peer, now).Ok? <==>
            exists c <- r.claims, k <- r.keys ::
              Named(c, keyId, peer) && k.publicKey == c.publicKey && k.peerId in {[], peer}
  {
    var at := Position(r.claims, (c: Claim) => Named(c, keyId, peer));
    forall i | 0 <= i < |r.claims| && Named(r.claims[i], keyId, peer) ensures at.Some? && at.value == i {
      assert r.claims[i] in r.claims;
      NamedRowIsUnique(r, keyId, peer, at.value, i);
    }
    if at.Some? {
      var c := r.claims[at.value];
      var j := RowsKey(r, c);
      assert RowOk(c) && c in r.claims && r.keys[j] in r.keys;
      TrimIsIdempotent(peer);
      assert peer != [];
    }
  }

  /** A successful approval binds one key, the one the row shows, to the peer, if it was unbound;
      a key bound before keeps its binding; no other key changes; and the key's rows are gone. */
  lemma ApprovalBindsOnce(r: Registry, keyId: string, peer: string, now: nat)
    requires Inv(r) && Approve(r, keyId, peer, now).Ok?
    ensures var r' := Approve(r, keyId, peer, now).value;
            exists j: nat ::
              && j < |r.keys| && r.keys[j].id == keyId && BindingsDifferAt(r.keys, r'.keys, j)
              && r'.keys[j].peerId == peer && r.keys[j].peerId in {[], peer}
              && (r.keys[j].peerId != [] ==> r'.keys[j] == r.keys[j])
              && r'.claims == DropRows(r.claims, r.keys[j].publicKey)
  {
    var at := Position(r.claims, (c: Claim) => Named(c, keyId, peer));
    var c := r.claims[at.value];
    var j := RowsKey(r, c);
    assert RowOk(c);
    TrimIsIdempotent(peer);
    assert BindingsDifferAt(r.keys, Approve(r, keyId, peer, now).value.keys, j);
  }

  /** A key id and a peer name at most one row. */
  lemma NamedRowIsUnique(r: Registry, keyId: string, peer: string, i: nat, j: nat)
    requires Inv(r) && i < |r.claims| && j < |r.claims|
    requires Named(r.claims[i], keyId, peer) && Named(r.claims[j], keyId, peer)
    ensures i == j
  {
    assert Pinned(r.keys, r.claims[i]) && Pinned(r.keys, r.claims[j]);
    var a :| a in r.keys && a.publicKey == r.claims[i].publicKey && a.id == keyId;
    var b :| b in r.keys && b.publicKey == r.claims[j].publicKey && b.id == keyId;
    SameKey(r.keys, a, b);
  }

  // ---- Denials ----------------------------------------------------------------------------

  /** A denial marks the row named and changes nothing else: its pair joins the denied ones. */
  lemma DenialDenies(r: Registry, i: nat, keyId: string, peer: string)
    requires Inv(r) && i < |r.claims| && Named(r.claims[i], keyId, peer)
    ensures var r' := Deny(r, keyId, peer);
            && r'.keys == r.keys && |r'.claims| == |r.claims|
            && r'.claims[i] == r.claims[i].(denied := true)
            && (forall j :: 0 <= j < |r.claims| && j != i ==> r'.claims[j] == r.claims[j])
            && DeniedPairs(r'.claims) == DeniedPairs(r.claims) + {(r.claims[i].publicKey, peer)}
  {
    var at := Position(r.claims, (c: Claim) => Named(c, keyId, peer));
    assert r.claims[i] in r.claims;
    NamedRowIsUnique(r, keyId, peer, at.value, i);
    var r' := Deny(r, keyId, peer);
    forall p | p in DeniedPairs(r'.claims) ensures p in DeniedPairs(r.claims) + {(r.claims[i].publicKey, peer)} {
      var j :| 0 <= j < |r'.claims| && r'.claims[j].denied && (r'.claims[j].publicKey, r'.claims[j].peerId) == p;
      assert j != i ==> r.claims[j] in r.claims;
    }
    forall p | p in DeniedPairs(r.claims) ensures p in DeniedPairs(r'.claims) {
      var j :| 0 <= j < |r.claims| && r.claims[j].denied && (r.claims[j].publicKey, r.claims[j].peerId) == p;
      assert r'.claims[j] in r'.claims;
    }
    assert r'.claims[i] in r'.claims;
  }

  /** The pair is denied, under this key id. */
  predicate DeniedRow(r: Registry, keyId: string, publicKey: string, peer: string) {
    exists i :: 0 <= i < |r.claims| && IsRow(r.claims[i], publicKey, peer) && r.claims[i].denied && r.claims[i].keyId == keyId
  }

  /** What an operator can do to a denied pair: forget the row, or decide about its key. */
  predicate Lifts(e: Step, keyId: string, peer: string) {
    || (e.ForgetClaim? && e.keyId == keyId && e.peerId == peer)
    || (e.ApproveClaim? && e.keyId == keyId)
    || ((e.Bind? || e.Delete?) && e.id == keyId)
  }

  lemma KeptRowStays(r: Registry, claims': seq<Claim>, keyId: string, publicKey: string, peer: string)
    requires DeniedRow(r, keyId, publicKey, peer)
    requires forall c <- r.claims :: IsRow(c, publicKey, peer) && c.denied ==> c in claims'
    ensures DeniedRow(r.(claims := claims'), keyId, publicKey, peer)
  {
    var i :| 0 <= i < |r.claims| && IsRow(r.claims[i], publicKey, peer) && r.claims[i].denied && r.claims[i].keyId == keyId;
    assert r.claims[i] in claims';
    var j :| 0 <= j < |claims'| && claims'[j] == r.claims[i];
  }

  lemma {:induction false} DeniedRowsKeepTheirPlace(claims: seq<Claim>, c: Claim)
    requires c in claims && c.denied
    ensures c in MakeRoom(claims).0
    decreases |claims|
  {
    if |claims| >= MAX_PENDING_CLAIMS && OldestWaiting(claims).Some? {
      var i := OldestWaiting(claims).value;
      var j :| 0 <= j < |claims| && claims[j] == c;
      assert RemoveAt(claims, i)[if j < i then j else j - 1] == c;
      DeniedRowsKeepTheirPlace(RemoveAt(claims, i), c);
    }
  }

  lemma FilingKeepsDeniedRow(r: Registry, rawKey: string, rawPeer: string, via: string, now: nat, keyId: string, publicKey: string, peer: string)
    requires Inv(r) && DeniedRow(r, keyId, publicKey, peer)
    ensures DeniedRow(File(r, rawKey, rawPeer, via, now).0, keyId, publicKey, peer)
  {
    var pk, asked := Trim(rawKey), Trim(rawPeer);
    TrimIsIdempotent(rawKey);
    var at := FindKey(r.keys, pk);
    if at.Some? && ValidPeerId(asked) {
      var row := Position(r.claims, (c: Claim) => IsRow(c, pk, asked));
      var z := File(r, rawKey, rawPeer, via, now).0;
      if row.Some? {
        var i :| 0 <= i < |r.claims| && IsRow(r.claims[i], publicKey, peer) && r.claims[i].denied && r.claims[i].keyId == keyId;
        if i == row.value {
          var j := RowsKey(r, r.claims[i]);
          SameKey(r.keys, r.keys[j], r.keys[at.value]);
        }
        assert IsRow(z.claims[i], publicKey, peer) && z.claims[i].denied && z.claims[i].keyId == keyId;
      } else if RowsOf(r.claims, pk) < MAX_PENDING_PER_KEY {
        forall c | c in r.claims && c.denied ensures c in MakeRoom(r.claims).0 { DeniedRowsKeepTheirPlace(r.claims, c); }
        KeptRowStays(r, z.claims, keyId, publicKey, peer);
      }
    }
  }

  lemma OthersKeyDiffers(r: Registry, keyId: string, publicKey: string, peer: string, k: DeviceKey)
    requires Inv(r) && DeniedRow(r, keyId, publicKey, peer) && k in r.keys && k.id != keyId
    ensures k.publicKey != publicKey
  {
    var i :| 0 <= i < |r.claims| && IsRow(r.claims[i], publicKey, peer) && r.claims[i].denied && r.claims[i].keyId == keyId;
    var j := RowsKey(r, r.claims[i]);
    var m :| 0 <= m < |r.keys| && r.keys[m] == k;
    assert m != j;
  }

  lemma ApprovingKeepsDeniedRow(r: Registry, id: string, p: string, now: nat, keyId: string, publicKey: string, peer: string)
    requires Inv(r) && DeniedRow(r, keyId, publicKey, peer) && id != keyId && Approve(r, id, p, now).Ok?
    ensures DeniedRow(Approve(r, id, p, now).value, keyId, publicKey, peer)
  {
    var i := Position(r.claims, (c: Claim) => Named(c, id, p)).value;
    var j := RowsKey(r, r.claims[i]);
    OthersKeyDiffers(r, keyId, publicKey, peer, r.keys[j]);
    KeptRowStays(r, DropRows(r.claims, r.claims[i].publicKey), keyId, publicKey, peer);
  }

  lemma DecidingKeepsDeniedRow(s: System, e: Step, keyId: string, publicKey: string, peer: string)
    requires Inv(s.reg) && DeniedRow(s.reg, keyId, publicKey, peer) && !Lifts(e, keyId, peer)
    requires e.Delete? || e.Bind? || e.ApproveClaim?
    ensures DeniedRow(Next(s, e).reg, keyId, publicKey, peer)
  {
    var r := s.reg;
    match e
    case Delete(id) =>
      var i := Position(r.keys, (k: DeviceKey) => k.id == id);
      if i.Some? {
        OthersKeyDiffers(r, keyId, publicKey, peer, r.keys[i.value]);
        KeptRowStays(r, DropRows(r.claims, r.keys[i.value].publicKey), keyId, publicKey, peer);
      }
    case Bind(id, _) =>
      var i := Position(r.keys, (k: DeviceKey) => k.id == id);
      if i.Some? {
        OthersKeyDiffers(r, keyId, publicKey, peer, r.keys[i.value]);
        KeptRowStays(r, DropRows(r.claims, r.keys[i.value].publicKey), keyId, publicKey, peer);
      }
    case ApproveClaim(id, p, now) =>
      if Approve(r, id, p, now).Ok? { ApprovingKeepsDeniedRow(r, id, p, now, keyId, publicKey, peer); }
  }

  lemma DenyingKeepsDeniedRow(r: Registry, id: string, p: string, keyId: string, publicKey: string, peer: string)
    requires DeniedRow(r, keyId, publicKey, peer)
    ensures DeniedRow(Deny(r, id, p), keyId, publicKey, peer)
  {
    var i :| 0 <= i < |r.claims| && IsRow(r.claims[i], publicKey, peer) && r.claims[i].denied && r.claims[i].keyId == keyId;
    var c := Deny(r, id, p).claims[i];
    assert IsRow(c, publicKey, peer) && c.denied && c.keyId == keyId;
  }

  lemma DeniedRowStays(s: System, e: Step, keyId: string, publicKey: string, peer: string)
    requires Inv(s.reg) && DeniedRow(s.reg, keyId, publicKey, peer) && !Lifts(e, keyId, peer)
    ensures DeniedRow(Next(s, e).reg, keyId, publicKey, peer)
  {
    match e
    case FileDecided(i, via, now) =>
      if i < |s.decided| { FilingKeepsDeniedRow(s.reg, s.decided[i].0, s.decided[i].1, via, now, keyId, publicKey, peer); }
    case DenyClaim(id, p) => DenyingKeepsDeniedRow(s.reg, id, p, keyId, publicKey, peer);
    case ForgetClaim(id, p) => KeptRowStays(s.reg, Next(s, e).reg.claims, keyId, publicKey, peer);
    case Generate(_, _, _, _) => KeptRowStays(s.reg, s.reg.claims, keyId, publicKey, peer);
    case Switch(_, _) =>
    case Decide(_, _) =>
    case _ => DecidingKeepsDeniedRow(s, e, keyId, publicKey, peer);
  }

  predicate NeverLifted(es: seq<Step>, keyId: string, peer: string) {
    forall i :: 0 <= i < |es| ==> !Lifts(es[i], keyId, peer)
  }

  lemma {:induction false} DeniedRowStaysThroughout(s: System, es: seq<Step>, keyId: string, publicKey: string, peer: string)
    requires Inv(s.reg) && NoIdTaken(s, es) && DeniedRow(s.reg, keyId, publicKey, peer) && NeverLifted(es, keyId, peer)
    ensures Inv(Run(s, es).reg) && DeniedRow(Run(s, es).reg, keyId, publicKey, peer)
    decreases |es|
  {
    if es == [] {
    } else {
      assert !Lifts(es[0], keyId, peer);
      assert forall i :: 0 <= i < |es[1..]| ==> es[1..][i] == es[i + 1];
      DeniedRowStays(s, es[0], keyId, publicKey, peer);
      NextKeepsInv(s, es[0]);
      DeniedRowStaysThroughout(Next(s, es[0]), es[1..], keyId, publicKey, peer);
    }
  }

  lemma DeniedRowIsTold(r: Registry, keyId: string, publicKey: string, peer: string, rawKey: string, rawPeer: string, via: string, now: nat)
    requires Inv(r) && DeniedRow(r, keyId, publicKey, peer) && Trim(rawKey) == publicKey && Trim(rawPeer) == peer
    ensures File(r, rawKey, rawPeer, via, now).1 == Denied
  {
    var i :| 0 <= i < |r.claims| && IsRow(r.claims[i], publicKey, peer) && r.claims[i].denied && r.claims[i].keyId == keyId;
    var j := RowsKey(r, r.claims[i]);
    TrimIsIdempotent(rawKey);
    assert r.claims[i] in r.claims && RowOk(r.claims[i]);
    DeniedPairIsTold(r.claims, Ask(r.keys[j].id, publicKey, rawPeer, via, now));
  }

  /** Once the operator has denied a pairing it stays denied: in every later state of any run in which the
      row is not forgotten and its key not approved, bound by hand or deleted, the same pair that asks
      again is answered Denied. */
  lemma DenialHolds(s: System, i: nat, keyId: string, peer: string, es: seq<Step>, rawKey: string, rawPeer: string, via: string, now: nat)
    requires Inv(s.reg) && i < |s.reg.claims| && Named(s.reg.claims[i], keyId, peer)
    requires NoIdTaken(Next(s, DenyClaim(keyId, peer)), es) && NeverLifted(es, keyId, peer)
    requires Trim(rawKey) == s.reg.claims[i].publicKey && Trim(rawPeer) == peer
    ensures File(Run(Next(s, DenyClaim(keyId, peer)), es).reg, rawKey, rawPeer, via, now).1 == Denied
  {
    var s1, pk := Next(s, DenyClaim(keyId, peer)), s.reg.claims[i].publicKey;
    DenialDenies(s.reg, i, keyId, peer);
    NextKeepsInv(s, DenyClaim(keyId, peer));
    assert IsRow(s1.reg.claims[i], pk, peer) && s1.reg.claims[i].denied && s1.reg.claims[i].keyId == keyId;
    DeniedRowStaysThroughout(s1, es, keyId, pk, peer);
    DeniedRowIsTold(Run(s1, es).reg, keyId, pk, peer, rawKey, rawPeer, via, now);
  }

  /** Forgetting drops exactly the rows of the pair, in any state, and nothing else. */
  lemma ForgetExact(r: Registry, keyId: string, peer: string)
    ensures var r' := Forget(r, keyId, peer);
            && r'.keys == r.keys && Subseq(r'.claims, r.claims)
            && forall c :: c in r'.claims <==> c in r.claims && !(c.keyId == keyId && c.peerId == peer)
  {}

  /** So a pair that was denied may ask again once its row is forgotten. */
  lemma ForgottenMayAskAgain(r: Registry, i: nat, peer: string, via: string, now: nat)
    requires Inv(r) && i < |r.claims| && r.claims[i].peerId == peer
    ensures var c := r.claims[i];
            var z := File(Forget(r, c.keyId, peer), c.publicKey, peer, via, now);
            z.1 == New && z.0.claims != [] && z.0.claims[|z.0.claims| - 1] == Claim(c.keyId, c.publicKey, peer, now, now, 1, via, false)
  {
    var c := r.claims[i];
    var left := Forget(r, c.keyId, peer);
    var j := RowsKey(r, c);
    assert c in r.claims && RowOk(c) && left.keys == r.keys;
    TrimIsIdempotent(c.publicKey);
    TrimIsIdempotent(peer);
    PairIsForgotten(r, i, peer);
    assert Position(left.claims, (d: Claim) => IsRow(d, c.publicKey, peer)) == None;
    FewerOfItsRows(r.claims, left.claims, i, c.publicKey);
  }

  lemma PairIsForgotten(r: Registry, i: nat, peer: string)
    requires Inv(r) && i < |r.claims| && r.claims[i].peerId == peer
    ensures var left := Forget(r, r.claims[i].keyId, peer).claims;
            && (forall d <- left :: !IsRow(d, r.claims[i].publicKey, peer))
            && r.claims[i] !in left && Subseq(left, r.claims)
  {
    var left := Forget(r, r.claims[i].keyId, peer).claims;
    forall d | d in left ensures !IsRow(d, r.claims[i].publicKey, peer) {
      var k :| 0 <= k < |r.claims| && r.claims[k] == d;
      assert k != i;
    }
  }

  lemma {:induction false} FewerOfItsRows(claims: seq<Claim>, left: seq<Claim>, i: nat, pk: string)
    requires i < |claims| && claims[i].publicKey == pk && Subseq(left, claims) && claims[i] !in left
    ensures RowsOf(left, pk) < RowsOf(claims, pk) && |left| < |claims|
    decreases |claims|
  {
    if left == [] {
      RowsOfIsPositive(claims, i);
    } else if left[0] == claims[0] && Subseq(left[1..], claims[1..]) {
      FewerOfItsRows(claims[1..], left[1..], i - 1, pk);
    } else if i == 0 {
      FewerRows(left, claims[1..], pk);
      SubseqMembers(left, claims[1..]);
    } else {
      FewerOfItsRows(claims[1..], left, i - 1, pk);
    }
  }

  lemma {:induction false} RowsOfIsPositive(claims: seq<Claim>, i: nat)
    requires i < |claims|
    ensures RowsOf(claims, claims[i].publicKey) > 0
  {
    if i == 0 {
    } else {
      RowsOfIsPositive(claims[1..], i - 1);
    }
  }

  // ---- Keys bound by hand, deleted, and claimed on first use -------------------------------

  /** When a claimed id is accepted as it is: the key is bound to it, or unbound keys are let through; an
      unbound key otherwise asks if asking is on and it names an id; all else is refused. */
  lemma BindingDecisionExact(bound: string, claimed: string, allowUnbound: bool, claimEnabled: bool)
    ensures var d := BindingDecision(bound, claimed, allowUnbound, claimEnabled);
            && (d == Proven <==> if bound == [] then allowUnbound else claimed == bound)
            && (d == ClaimOnProof <==> bound == [] && !allowUnbound && claimEnabled && Trim(claimed) != [])
  {}

  predicate IdChar(c: char) {
    'a' <= c <= 'z' || 'A' <= c <= 'Z' || '0' <= c <= '9' || c == '-' || c == '_'
  }

  /** An operator's id is stripped of all white space; what is left must be 6 to 64 letters, digits, hyphens
      or underscores, or nothing. */
  lemma BindSucceedsIff(r: Registry, id: string, rawPeer: string)
    ensures var peer := Filter(rawPeer, c => !IsWhitespace(c));
            SetPeerId(r, id, rawPeer).Ok? <==>
            (peer == [] || (6 <= |peer| <= 64 && forall i :: 0 <= i < |peer| ==> IdChar(peer[i]))) && exists k <- r.keys :: k.id == id
  {
    NoWhitespaceLeft(rawPeer);
    TrimmedAlready(NormalizePeerId(rawPeer));
  }

  /** Then that key alone is bound to it, and its rows go. */
  lemma BindExact(r: Registry, id: string, rawPeer: string)
    requires Inv(r) && SetPeerId(r, id, rawPeer).Ok?
    ensures var r', peer := SetPeerId(r, id, rawPeer).value, Filter(rawPeer, c => !IsWhitespace(c));
            && |r'.keys| == |r.keys|
            && (forall i :: 0 <= i < |r.keys| ==>
                  r'.keys[i] == if r.keys[i].id == id then r.keys[i].(peerId := peer, claimedAt := None) else r.keys[i])
            && Subseq(r'.claims, r.claims)
            && forall c :: c in r'.claims <==> c in r.claims && c.keyId != id
  {
    RowsOfTheKey(r, Position(r.keys, (k: DeviceKey) => k.id == id).value);
  }

  /** A row shows the id of a key exactly if it is that key's. */
  lemma RowsOfTheKey(r: Registry, i: nat)
    requires Inv(r) && i < |r.keys|
    ensures forall c <- r.claims :: c.publicKey == r.keys[i].publicKey <==> c.keyId == r.keys[i].id
  {
    forall c | c in r.claims ensures c.publicKey == r.keys[i].publicKey <==> c.keyId == r.keys[i].id {
      var j := RowsKey(r, c);
      if r.keys[j].id == r.keys[i].id || r.keys[j].publicKey == r.keys[i].publicKey { SameKey(r.keys, r.keys[j], r.keys[i]); }
    }
  }

  lemma {:induction false} NoWhitespaceLeft(s: string)
    ensures forall c <- Filter(s, c => !IsWhitespace(c)) :: !IsWhitespace(c)
  {
    if s == [] {
    } else {
      NoWhitespaceLeft(s[1..]);
    }
  }

  lemma TrimmedAlready(s: string)
    requires forall c <- s :: !IsWhitespace(c)
    ensures Trim(s) == s
  {}

  /** Deleting takes the key of that id and its rows, and nothing else. */
  lemma DeleteExact(r: Registry, id: string)
    requires Inv(r)
    ensures var r' := RemoveKey(r, id);
            && (forall k :: k in r'.keys <==> k in r.keys && k.id != id)
            && Subseq(r'.claims, r.claims)
            && forall c :: c in r'.claims <==> c in r.claims && c.keyId != id
  {
    var at := Position(r.keys, (k: DeviceKey) => k.id == id);
    if at.Some? {
      RowsOfTheKey(r, at.value);
      var left := RemoveAt(r.keys, at.value);
      forall k | k in r.keys && k.id != id ensures k in left {
        var j :| 0 <= j < |r.keys| && r.keys[j] == k;
        assert left[if j < at.value then j else j - 1] == k;
      }
    } else {
      SubseqOfItself(r.claims);
      forall c | c in r.claims ensures c.keyId != id { var j := RowsKey(r, c); assert r.keys[j] in r.keys; }
    }
  }

  /** First use, from end to end: a machine that proves an unbound key while asking is on gets a row, the
      operator's approval binds the key to it, and from then on the key lets in that machine and no other,
      whatever the switches. */
  lemma FirstUseBinds(s: System, j: nat, peer: string, via: string, now: nat, later: nat)
    requires Inv(s.reg) && j < |s.reg.keys| && s.reg.keys[j].peerId == [] && Trim(s.reg.keys[j].publicKey) == s.reg.keys[j].publicKey
    requires !s.allowUnbound && s.claimEnabled && Trimmed(peer) && ValidPeerId(peer)
    requires forall c <- s.reg.claims :: c.publicKey != s.reg.keys[j].publicKey
    requires |s.reg.claims| < MAX_PENDING_CLAIMS
    ensures var key := s.reg.keys[j];
            var z := Run(s, [Decide(key.publicKey, peer), FileDecided(|s.decided|, via, now), ApproveClaim(key.id, peer, later)]);
            && z.reg.keys == s.reg.keys[j := key.(peerId := peer, claimedAt := Some(later))]
            && (forall c :: c in z.reg.claims <==> c in s.reg.claims)
            && forall claimed, a, b :: BindingDecision(z.reg.keys[j].peerId, claimed, a, b) == if claimed == peer then Proven else Refused
  {
    var key := s.reg.keys[j];
    var row := Claim(key.id, key.publicKey, peer, now, now, 1, via, false);
    RunThree(s, [Decide(key.publicKey, peer), FileDecided(|s.decided|, via, now), ApproveClaim(key.id, peer, later)]);
    ClaimIsFiled(s, j, peer, via, now);
    ClaimIsApproved(s.reg, j, row, later);
    var t := s.(decided := s.decided + [(key.publicKey, peer)], reg := s.reg.(claims := s.reg.claims + [row]));
    assert Next(t, ApproveClaim(key.id, peer, later)).reg == Approve(t.reg, key.id, peer, later).value;
  }

  lemma ClaimIsFiled(s: System, j: nat, peer: string, via: string, now: nat)
    requires Inv(s.reg) && j < |s.reg.keys| && s.reg.keys[j].peerId == [] && Trim(s.reg.keys[j].publicKey) == s.reg.keys[j].publicKey
    requires !s.allowUnbound && s.claimEnabled && Trimmed(peer) && ValidPeerId(peer)
    requires forall c <- s.reg.claims :: c.publicKey != s.reg.keys[j].publicKey
    requires |s.reg.claims| < MAX_PENDING_CLAIMS
    ensures var key := s.reg.keys[j];
            Next(Next(s, Decide(key.publicKey, peer)), FileDecided(|s.decided|, via, now)) ==
            s.(decided := s.decided + [(key.publicKey, peer)],
               reg := s.reg.(claims := s.reg.claims + [Claim(key.id, key.publicKey, peer, now, now, 1, via, false)]))
  {
    var key := s.reg.keys[j];
    FindsKey(s.reg.keys, j);
    TrimIsIdempotent(peer);
    assert Next(s, Decide(key.publicKey, peer)) == s.(decided := s.decided + [(key.publicKey, peer)]);
    NoRows(s.reg.claims, key.publicKey);
  }

  lemma ClaimIsApproved(r: Registry, j: nat, row: Claim, later: nat)
    requires Inv(r) && j < |r.keys| && r.keys[j].peerId == [] && Trim(row.publicKey) == row.publicKey
    requires row.keyId == r.keys[j].id && row.publicKey == r.keys[j].publicKey && Trimmed(row.peerId) && row.peerId != []
    requires forall c <- r.claims :: c.publicKey != row.publicKey
    ensures var z := Approve(r.(claims := r.claims + [row]), row.keyId, row.peerId, later);
            && z.Ok? && z.value.keys == r.keys[j := r.keys[j].(peerId := row.peerId, claimedAt := Some(later))]
            && forall c :: c in z.value.claims <==> c in r.claims
  {
    FindsKey(r.keys, j);
    FindsRow(r, j, row);
    TrimIsIdempotent(row.peerId);
  }

  lemma FindsKey(keys: seq<DeviceKey>, j: nat)
    requires KeysOk(keys) && j < |keys|
    ensures FindKey(keys, keys[j].publicKey) == Some(j)
  {
    assert keys[j] in keys;
  }

  lemma FindsRow(r: Registry, j: nat, row: Claim)
    requires Inv(r) && j < |r.keys| && row.keyId == r.keys[j].id && row.publicKey == r.keys[j].publicKey
    requires forall c <- r.claims :: c.publicKey != row.publicKey
    ensures Position(r.claims + [row], (c: Claim) => Named(c, row.keyId, row.peerId)) == Some(|r.claims|)
  {
    RowsOfTheKey(r, j);
    assert (r.claims + [row])[|r.claims|] in r.claims + [row];
    forall i | 0 <= i < |r.claims| ensures !Named(r.claims[i], row.keyId, row.peerId) { assert r.claims[i] in r.claims; }
  }

  lemma RunThree(s: System, es: seq<Step>)
    requires |es| == 3
    ensures Run(s, es) == Next(Next(Next(s, es[0]), es[1]), es[2])
  {
    var a, b := Next(s, es[0]), Next(Next(s, es[0]), es[1]);
    assert Run(s, es) == Run(a, es[1..]);
    assert Run(a, es[1..]) == Run(b, es[1..][1..]);
    assert Run(b, es[1..][1..]) == Run(Next(b, es[2]), es[1..][1..][1..]) && es[1..][1..][1..] == [];
  }

  // ---- Rows of unbound keys ---------------------------------------------------------------

  /** Every row waits for a key that is still unbound. */
  ghost predicate RowsUnbound(r: Registry) {
    forall c <- r.claims, k <- r.keys :: k.publicKey == c.publicKey ==> k.peerId == []
  }

  lemma FilingKeepsUnboundUnlessNew(r: Registry, rawKey: string, rawPeer: string, via: string, now: nat)
    requires Inv(r) && RowsUnbound(r)
    ensures RowsUnbound(File(r, rawKey, rawPeer, via, now).0) <==>
            !(File(r, rawKey, rawPeer, via, now).1 == New && r.keys[FindKey(r.keys, Trim(rawKey)).value].peerId != [])
  {
    var pk := Trim(rawKey);
    TrimIsIdempotent(rawKey);
    var at := FindKey(r.keys, pk);
    if at.Some? {
      var key := r.keys[at.value];
      RegisterChangesOneRow(r.claims, key.id, pk, rawPeer, via, now);
      OldestRemoved(r.claims);
      var claims' := File(r, rawKey, rawPeer, via, now).0.claims;
      forall c, k | c in claims' && k in r.keys && k.publicKey == c.publicKey
        ensures k.peerId == [] || (k == key && File(r, rawKey, rawPeer, via, now).1 == New)
      {
        if c !in r.claims {
          assert c.publicKey == pk;
          SameKey(r.keys, k, key);
        }
      }
      if File(r, rawKey, rawPeer, via, now).1 == New {
        assert claims'[|claims'| - 1] in claims' && key in r.keys;
      }
    }
  }

  /** A request for a key bound by now, with a usable id and room in the table: something to look at
      before it is filed. */
  predicate AsksForBound(r: Registry, rawKey: string, rawPeer: string) {
    var at := FindKey(r.keys, Trim(rawKey));
    && at.Some? && r.keys[at.value].peerId != [] && ValidPeerId(Trim(rawPeer))
    && (|r.claims| < MAX_PENDING_CLAIMS || OldestWaiting(r.claims).Some?)
  }

  lemma {:induction false} NoRows(claims: seq<Claim>, publicKey: string)
    requires forall c <- claims :: c.publicKey != publicKey
    ensures RowsOf(claims, publicKey) == 0
  {
    if claims == [] {
    } else {
      NoRows(claims[1..], publicKey);
    }
  }

  lemma NewWithoutRows(claims: seq<Claim>, keyId: string, pk: string, rawPeer: string, via: string, now: nat)
    requires |claims| <= MAX_PENDING_CLAIMS && Trim(pk) == pk && forall c <- claims :: c.publicKey != pk
    ensures Register(claims, keyId, pk, rawPeer, via, now).1 == New <==>
            ValidPeerId(Trim(rawPeer)) && (|claims| < MAX_PENDING_CLAIMS || OldestWaiting(claims).Some?)
  {
    var peer := Trim(rawPeer);
    var at := Position(claims, (c: Claim) => IsRow(c, pk, peer));
    assert at.None?;
    NoRows(claims, pk);
    if |claims| == MAX_PENDING_CLAIMS && OldestWaiting(claims).Some? {
      assert MakeRoom(claims) == MakeRoom(RemoveAt(claims, OldestWaiting(claims).value));
    }
  }

  lemma FiledForBoundIff(r: Registry, rawKey: string, rawPeer: string, via: string, now: nat)
    requires Inv(r) && RowsUnbound(r) && FindKey(r.keys, Trim(rawKey)).Some?
    requires r.keys[FindKey(r.keys, Trim(rawKey)).value].peerId != []
    ensures File(r, rawKey, rawPeer, via, now).1 == New <==> AsksForBound(r, rawKey, rawPeer)
  {
    var pk := Trim(rawKey);
    TrimIsIdempotent(rawKey);
    var key := r.keys[FindKey(r.keys, pk).value];
    assert key in r.keys && key.publicKey == pk;
    NewWithoutRows(r.claims, key.id, pk, rawPeer, via, now);
  }

  /** A decided request is filed without looking at the binding again, so filing keeps the rows
      unbound exactly when it does not ask for a key bound since, with a usable id and room. */
  lemma FilingKeepsUnboundIff(r: Registry, rawKey: string, rawPeer: string, via: string, now: nat)
    requires Inv(r) && RowsUnbound(r)
    ensures RowsUnbound(File(r, rawKey, rawPeer, via, now).0) <==> !AsksForBound(r, rawKey, rawPeer)
  {
    FilingKeepsUnboundUnlessNew(r, rawKey, rawPeer, via, now);
    var at := FindKey(r.keys, Trim(rawKey));
    if at.Some? && r.keys[at.value].peerId != [] { FiledForBoundIff(r, rawKey, rawPeer, via, now); }
  }

  /** Every other step keeps the rows unbound: binding a key, by approval or by hand, takes its
      rows away. */
  lemma OtherStepsKeepUnbound(s: System, e: Step)
    requires Inv(s.reg) && RowsUnbound(s.reg) && !e.FileDecided?
    ensures RowsUnbound(Next(s, e).reg)
  {
    var r := s.reg;
    match e
    case Generate(_, pk, _, _) =>
    case Delete(id) => DeletingKeepsUnbound(r, id);
    case Bind(id, _) =>
      var i := Position(r.keys, (k: DeviceKey) => k.id == id);
      if i.Some? { RebindingKeepsUnbound(r, i.value, Next(s, e).reg.keys); }
    case ApproveClaim(keyId, peer, now) =>
      if Approve(r, keyId, peer, now).Ok? { ApprovingKeepsUnbound(r, keyId, peer, now); }
    case DenyClaim(keyId, peer) => DenyingKeepsUnbound(r, keyId, peer);
    case _ =>
  }

  /** A decided request is filed for a key that is bound by now, and makes a row. */
  predicate FilesForBound(s: System, e: Step) {
    e.FileDecided? && e.i < |s.decided| && AsksForBound(s.reg, s.decided[e.i].0, s.decided[e.i].1)
  }

  predicate NoneFiledForBound(s: System, es: seq<Step>)
    decreases |es|
  {
    es == [] || (!FilesForBound(s, es[0]) && NoneFiledForBound(Next(s, es[0]), es[1..]))
  }

  ghost predicate AlwaysUnbound(s: System, es: seq<Step>)
    decreases |es|
  {
    RowsUnbound(s.reg) && (es == [] || AlwaysUnbound(Next(s, es[0]), es[1..]))
  }

  lemma UnboundStep(s: System, e: Step)
    requires Inv(s.reg) && RowsUnbound(s.reg)
    ensures RowsUnbound(Next(s, e).reg) <==> !FilesForBound(s, e)
  {
    if e.FileDecided? {
      if e.i < |s.decided| { FilingKeepsUnboundIff(s.reg, s.decided[e.i].0, s.decided[e.i].1, e.via, e.now); }
    } else {
      OtherStepsKeepUnbound(s, e);
    }
  }

  /** Over every run: every row waits for an unbound key in every state, if and only if no decided request
      is filed for a key bound by then, with a usable id and room. */
  lemma {:induction false} AlwaysUnboundIff(s: System, es: seq<Step>)
    requires Inv(s.reg) && NoIdTaken(s, es) && RowsUnbound(s.reg)
    ensures AlwaysUnbound(s, es) <==> NoneFiledForBound(s, es)
    decreases |es|
  {
    if es == [] {
    } else {
      UnboundStep(s, es[0]);
      if !FilesForBound(s, es[0]) {
        NextKeepsInv(s, es[0]);
        AlwaysUnboundIff(Next(s, es[0]), es[1..]);
      }
    }
  }

  lemma DenyingKeepsUnbound(r: Registry, keyId: string, peer: string)
    requires RowsUnbound(r)
    ensures RowsUnbound(Deny(r, keyId, peer))
  {}

  lemma ApprovingKeepsUnbound(r: Registry, keyId: string, peer: string, now: nat)
    requires Inv(r) && RowsUnbound(r) && Approve(r, keyId, peer, now).Ok?
    ensures RowsUnbound(Approve(r, keyId, peer, now).value)
  {
    ApprovalBindsOnce(r, keyId, peer, now);
    var r' := Approve(r, keyId, peer, now).value;
    var j: nat :| j < |r.keys| && BindingsDifferAt(r.keys, r'.keys, j) && r'.claims == DropRows(r.claims, r.keys[j].publicKey);
    RebindingKeepsUnbound(r, j, r'.keys);
  }

  lemma DeletingKeepsUnbound(r: Registry, id: string)
    requires RowsUnbound(r)
    ensures RowsUnbound(RemoveKey(r, id))
  {}

  lemma RebindingKeepsUnbound(r: Registry, j: nat, keys': seq<DeviceKey>)
    requires RowsUnbound(r) && j < |r.keys| && |keys'| == |r.keys| && BindingsDifferAt(r.keys, keys', j)
    ensures RowsUnbound(Registry(keys', DropRows(r.claims, r.keys[j].publicKey)))
  {}

  /** The states two machines proving one unbound key pass through when the first is approved
      between the decision and the filing of the second. */
  lemma RaceSteps(k: DeviceKey, a: string, b: string, s: System, rowA: Claim, rowB: Claim, bound: DeviceKey)
    requires k.peerId == [] && Trimmed(k.publicKey)
    requires Trimmed(a) && Trimmed(b) && ValidPeerId(a) && ValidPeerId(b) && a != b
    requires s == System(Registry([k], []), false, true, [])
    requires rowA == Claim(k.id, k.publicKey, a, 0, 0, 1, [], false) && rowB == rowA.(peerId := b)
    requires bound == k.(peerId := a, claimedAt := Some(0))
    ensures Next(s, Decide(k.publicKey, a)) == s.(decided := [(k.publicKey, a)])
    ensures var s2 := s.(decided := [(k.publicKey, a), (k.publicKey, b)]);
            && Next(s.(decided := [(k.publicKey, a)]), Decide(k.publicKey, b)) == s2
            && Next(s2, FileDecided(0, [], 0)) == s2.(reg := Registry([k], [rowA]))
            && Next(s2.(reg := Registry([k], [rowA])), ApproveClaim(k.id, a, 0)) == s2.(reg := Registry([bound], []))
            && Next(s2.(reg := Registry([bound], [])), FileDecided(1, [], 0)) == s2.(reg := Registry([bound], [rowB]))
  {
    TrimIsIdempotent(k.publicKey);
  }

  /** The case filing can meet: two machines prove the same unbound key, one is approved, and the
      other's decided request is filed after that. Its row asks for a key that is already bound. */
  lemma DecidedRequestOutlivesBinding(k: DeviceKey, a: string, b: string)
    requires k.peerId == [] && Trimmed(k.publicKey)
    requires Trimmed(a) && Trimmed(b) && ValidPeerId(a) && ValidPeerId(b) && a != b
    ensures var s := System(Registry([k], []), false, true, []);
            !RowsUnbound(Run(s, [Decide(k.publicKey, a), Decide(k.publicKey, b), FileDecided(0, [], 0),
                                 ApproveClaim(k.id, a, 0), FileDecided(1, [], 0)]).reg)
  {
    var s := System(Registry([k], []), false, true, []);
    var rowA := Claim(k.id, k.publicKey, a, 0, 0, 1, [], false);
    var rowB := rowA.(peerId := b);
    var bound := k.(peerId := a, claimedAt := Some(0));
    RaceSteps(k, a, b, s, rowA, rowB, bound);
    var s1 := s.(decided := [(k.publicKey, a)]);
    var s2 := s.(decided := [(k.publicKey, a), (k.publicKey, b)]);
    var s5 := s2.(reg := Registry([bound], [rowB]));
    var e4 := [FileDecided(1, [], 0)];
    var e3 := [ApproveClaim(k.id, a, 0)] + e4;
    var e2 := [FileDecided(0, [], 0)] + e3;
    var e1 := [Decide(k.publicKey, b)] + e2;
    RunCons(s, Decide(k.publicKey, a), e1);
    RunCons(s1, Decide(k.publicKey, b), e2);
    RunCons(s2, FileDecided(0, [], 0), e3);
    RunCons(s2.(reg := Registry([k], [rowA])), ApproveClaim(k.id, a, 0), e4);
    RunCons(s2.(reg := Registry([bound], [])), FileDecided(1, [], 0), []);
    assert e4 == [FileDecided(1, [], 0)] + [];
    assert [Decide(k.publicKey, a)] + e1 == [Decide(k.publicKey, a), Decide(k.publicKey, b), FileDecided(0, [], 0),
                                             ApproveClaim(k.id, a, 0), FileDecided(1, [], 0)];
    assert rowB in s5.reg.claims && bound in s5.reg.keys;
  }

  lemma RunCons(s: System, e: Step, es: seq<Step>)
    ensures Run(s, [e] + es) == Run(Next(s, e), es)
  {}

  // ---- The registry object ----------------------------------------------------------------

  /** The id loop of device_key_id_for. */
  method ComputeKeyId(publicKey: string, keys: seq<DeviceKey>) returns (id: string)
    ensures id == DeviceKeyIdFor(publicKey, keys)
  {
    var alnum := Filter(publicKey, IsAlnum);
    if alnum == [] { return []; }
    var len := if |alnum| < 16 then |alnum| else 16;
    while Collides(alnum[..len], publicKey, keys) && len < |alnum|
      invariant 0 < len <= |alnum|
      invariant IdFrom(alnum, publicKey, keys, len) == DeviceKeyIdFor(publicKey, keys)
      decreases |alnum| - len
    {
      len := if len + 4 < |alnum| then len + 4 else |alnum|;
    }
    id := alnum[..len];
  }

  /** The eviction candidate, found in one pass. */
  method FindOldestWaiting(claims: seq<Claim>) returns (oldest: Option<nat>)
    ensures oldest == OldestWaiting(claims)
  {
    oldest := None;
    var i := 0;
    while i < |claims|
      invariant 0 <= i <= |claims|
      invariant oldest == OldestWaiting(claims[..i])
    {
      assert claims[..i + 1][..i] == claims[..i];
      if !claims[i].denied && (oldest.None? || claims[i].firstSeen < claims[oldest.value].firstSeen) {
        oldest := Some(i);
      }
      i := i + 1;
    }
    assert claims[..i] == claims;
  }

  class DeviceRegistry {
    var keys: seq<DeviceKey>
    var claims: seq<Claim>

    function View(): Registry
      reads this
    {
      Registry(keys, claims)
    }

    constructor ()
      ensures View() == Registry([], [])
    {
      keys, claims := [], [];
    }

    /** File or refresh a proved request: find its row, else make room and append one. */
    method RegisterPendingClaim(rawKey: string, rawPeer: string, via: string, now: nat) returns (outcome: Outcome)
      modifies this`claims
      ensures (View(), outcome) == File(old(View()), rawKey, rawPeer, via, now)
    {
      var pk, peer := Trim(rawKey), Trim(rawPeer);
      TrimIsIdempotent(rawKey);
      var key := FindKey(keys, pk);
      if key.None? || !ValidPeerId(peer) { return Rejected; }
      var keyId := keys[key.value].id;
      var row := Position(claims, (c: Claim) => IsRow(c, pk, peer));
      if row.Some? {
        var i := row.value;
        outcome := if claims[i].denied then Denied else Repeat;
        claims := claims[i := Seen(claims[i], keyId, via, now)];
        return;
      }
      if RowsOf(claims, pk) >= MAX_PENDING_PER_KEY { return Full; }
      while |claims| >= MAX_PENDING_CLAIMS
        invariant MakeRoom(claims) == MakeRoom(old(claims))
        decreases |claims|
      {
        var oldest := FindOldestWaiting(claims);
        if oldest.None? { return Full; }
        claims := RemoveAt(claims, oldest.value);
      }
      claims := claims + [Claim(keyId, pk, peer, now, now, 1, via, false)];
      outcome := New;
    }

    /** Pin a key: re-adding a public key replaces it, another key is never displaced unless its
        id is all that the new key's characters can give. */
    method AddDeviceKey(title: string, publicKey: string, now: nat, rawPeer: string) returns (dk: DeviceKey)
      modifies this`keys
      ensures View() == AddKey(old(View()), title, publicKey, now, rawPeer)
      ensures dk == keys[|keys| - 1] && dk.publicKey == publicKey
      ensures dk.title == title && dk.createdAt == now && dk.claimedAt == None && dk.peerId == Filter(rawPeer, c => !IsWhitespace(c))
      ensures forall k :: k in keys <==> k == dk || (k in old(keys) && k.publicKey != publicKey && k.id != dk.id)
      ensures forall k <- old(keys) :: k.publicKey != publicKey && k !in keys ==> k.id == Filter(publicKey, IsAlnum)
    {
      var id := ComputeKeyId(publicKey, keys);
      dk := DeviceKey(id, title, publicKey, now, NormalizePeerId(rawPeer), None);
      keys := Others(keys, publicKey, id);
      keys := keys + [dk];
    }

    /** The operator confirms a pairing. */
    method ApproveClaim(keyId: string, peerId: string, now: nat) returns (ok: bool)
      modifies this
      ensures ok <==> Approve(old(View()), keyId, peerId, now).Ok?
      ensures View() == if ok then Approve(old(View()), keyId, peerId, now).value else old(View())
    {
      var row := Position(claims, (c: Claim) => Named(c, keyId, peerId));
      if row.None? { return false; }
      var publicKey := claims[row.value].publicKey;
      var claimed := ClaimKey(keys, publicKey, peerId, now);
      if claimed.Err? { return false; }
      keys := claimed.value;
      claims := DropRows(claims, publicKey);
      ok := true;
    }
  }
}
