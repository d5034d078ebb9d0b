/** Rendezvous connections, the identities they proved, and the registry through which the server
    pushes messages to a peer over its live connection. */
module PushRegistry {
  import opened Prelude

  type PeerId = string
  type DeviceKey = string
  type ConnId = nat

  /** The identity a device-key handshake proved. */
  datatype Proof = Proof(peerId: PeerId, key: DeviceKey)

  /** A connection: its push channel holds push numbers, of which the read loop has taken some. */
  datatype Conn = Conn(proof: Option<Proof>, live: bool, channel: seq<nat>, taken: nat)

  datatype Frame = RegisterPeer(id: PeerId, blocked: bool) | RegisterPk(id: PeerId) | Other(keep: bool)

  datatype Place = Udp | Channel(conn: ConnId)

  /** History: where the push of each number went, and the frames handed to the handler, with whether
      the proven key was pinned at that moment. */
  datatype Dispatch = Dispatch(id: PeerId, place: Place)

  datatype Handled = Handled(conn: ConnId, proof: Option<Proof>, pinned: bool, frame: Frame)

  datatype State = State(
    conns: map<ConnId, Conn>, registry: map<PeerId, ConnId>, pinned: set<DeviceKey>,
    pushes: seq<Dispatch>, handled: seq<Handled>)

  const INIT := State(map[], map[], {}, [], [])

  datatype Step =
    | Accept(conn: ConnId, proof: Option<Proof>, requireKey: bool)
    | Receive(conn: ConnId, frame: Frame)
    | TakePush(conn: ConnId)
    | Close(conn: ConnId)
    | Push(id: PeerId)
    | Pin(key: DeviceKey)
    | Revoke(key: DeviceKey)

  /** What a connection may claim to be: the id it proved, or anything if it proved nothing. */
  predicate MayBe(c: Conn, id: PeerId) {
    c.proof.Some? ==> c.proof.value.peerId == id
  }

  predicate Pinned(pinned: set<DeviceKey>, c: Conn) {
    c.proof.Some? ==> c.proof.value.key in pinned
  }

  /** What the handler does with a frame: keep the connection or not, and register an id or not. */
  datatype Verdict = Verdict(keep: bool, registers: Option<PeerId>)

  function Handle(c: Conn, f: Frame): Verdict {
    match f
    case RegisterPeer(id, blocked) =>
      if id == [] then Verdict(true, None)
      else if blocked || !MayBe(c, id) then Verdict(false, None)
      else Verdict(true, Some(id))
    case RegisterPk(id) =>
      if !MayBe(c, id) then Verdict(false, None)
      else Verdict(true, if id == [] then None else Some(id))
    case Other(keep) => Verdict(keep, None)
  }

  /** Entries of closed connections go, then the id's entry is set. */
  function Registered(registry: map<PeerId, ConnId>, conns: map<ConnId, Conn>, id: PeerId, c: ConnId): map<PeerId, ConnId> {
    (map i | i in registry && registry[i] in conns && conns[registry[i]].live :: registry[i])[id := c]
  }

  function Closed(s: State, c: ConnId): State
    requires c in s.conns
  {
    s.(conns := s.conns[c := s.conns[c].(live := false)])
  }

  predicate Up(s: State, c: ConnId) {
    c in s.conns && s.conns[c].live
  }

  function Received(s: State, c: ConnId, f: Frame): State
    requires Up(s, c)
  {
    var conn := s.conns[c];
    if !Pinned(s.pinned, conn) then Closed(s, c)
    else
      var v := Handle(conn, f);
      var s1 := s.(handled := s.handled + [Handled(c, conn.proof, Pinned(s.pinned, conn), f)],
                   registry := if v.registers.Some? then Registered(s.registry, s.conns, v.registers.value, c) else s.registry);
      if v.keep then s1 else Closed(s1, c)
  }

  function Pushed(s: State, id: PeerId): State {
    if id != [] && id in s.registry && Up(s, s.registry[id]) then
      var c := s.registry[id];
      var conn := s.conns[c];
      s.(conns := s.conns[c := conn.(channel := conn.channel + [|s.pushes|])],
         pushes := s.pushes + [Dispatch(id, Channel(c))])
    else
      s.(registry := if id == [] then s.registry else s.registry - {id}, pushes := s.pushes + [Dispatch(id, Udp)])
  }

  function Next(s: State, e: Step): State {
    match e
    case Accept(c, proof, requireKey) =>
      var conn := Conn(proof, true, [], 0);
      if c in s.conns || !Pinned(s.pinned, conn) || (proof.None? && requireKey) then s
      else s.(conns := s.conns[c := conn])
    case Receive(c, f) => if Up(s, c) then Received(s, c, f) else s
    case TakePush(c) =>
      if Up(s, c) && s.conns[c].taken < |s.conns[c].channel| then
        s.(conns := s.conns[c := s.conns[c].(taken := s.conns[c].taken + 1)])
      else s
    case Close(c) => if Up(s, c) then Closed(s, c) else s
    case Push(id) => Pushed(s, id)
    case Pin(key) => s.(pinned := s.pinned + {key})
    case Revoke(key) => s.(pinned := s.pinned - {key})
  }

  function Run(s: State, es: seq<Step>): State
    decreases |es|
  {
    if es == [] then s else Run(Next(s, es[0]), es[1..])
  }

  /** The key that was proven is still on the list. */
  predicate Handles(pinned: set<DeviceKey>, c: Conn) {
    c.proof.None? || c.proof.value.key in pinned
  }

  /** A frame that keeps its connection: a registration of the id proven, or of any if none was, by a peer
      that is not blocked; an empty heartbeat; or another frame that its handler accepts. */
  predicate Welcome(proof: Option<Proof>, f: Frame) {
    match f
    case RegisterPeer(id, blocked) => id == [] || (!blocked && (proof.Some? ==> proof.value.peerId == id))
    case RegisterPk(id) => proof.Some? ==> proof.value.peerId == id
    case Other(keep) => keep
  }

  // ---- The registry as it runs ------------------------------------------------------------

  class Server {
    var conns: map<ConnId, Conn>
    var registry: map<PeerId, ConnId>
    var pinned: set<DeviceKey>
    ghost var pushes: seq<Dispatch>
    ghost var handled: seq<Handled>

    ghost function View(): State
      reads this
    {
      State(conns, registry, pinned, pushes, handled)
    }

    constructor ()
      ensures View() == INIT
    {
      conns, registry, pinned := map[], map[], {};
      pushes, handled := [], [];
    }

    method RegisterPeerPush(id: PeerId, c: ConnId)
      modifies this`registry
      ensures registry == if id == [] then old(registry) else Registered(old(registry), conns, id, c)
      ensures id != [] ==> id in registry && registry[id] == c
      ensures id != [] ==> forall i :: i != id ==> (i in registry <==> i in old(registry) && Up(View(), old(registry)[i]))
                                                   && (i in registry ==> registry[i] == old(registry)[i])
    {
      if id == [] { return; }
      var rest := registry.Keys;
      var left := registry;
      while rest != {}
        invariant rest <= registry.Keys && registry == old(registry)
        invariant left == map i | i in registry && (i in rest || (registry[i] in conns && conns[registry[i]].live)) :: registry[i]
        decreases rest
      {
        var i :| i in rest;
        rest := rest - {i};
        if registry[i] !in conns || !conns[registry[i]].live { left := left - {i}; }
      }
      registry := left[id := c];
    }

    /** A message for a peer: into the channel of its registered connection if that is live, else out
        over UDP, dropping the stale entry. `number` is the push's number. */
    method PushToPeer(id: PeerId, number: nat) returns (place: Place)
      requires number == |pushes|
      modifies this
      ensures View() == Next(old(View()), Push(id)) && pushes == old(pushes) + [Dispatch(id, place)]
      ensures place == if id != [] && id in old(registry) && Up(old(View()), old(registry)[id]) then Channel(old(registry)[id]) else Udp
      ensures place.Channel? ==>
                && registry == old(registry) && place.conn in old(conns)
                && conns == old(conns)[place.conn := old(conns)[place.conn].(channel := old(conns)[place.conn].channel + [number])]
      ensures place.Udp? ==> conns == old(conns) && forall i :: i in registry <==> i in old(registry) && (i != id || id == [])
      ensures forall i <- registry :: i in old(registry) && registry[i] == old(registry)[i]
      ensures pinned == old(pinned) && handled == old(handled)
    {
      if id != [] {
        if id in registry {
          var c := registry[id];
          if c in conns && conns[c].live {
            conns := conns[c := conns[c].(channel := conns[c].channel + [number])];
            pushes := pushes + [Dispatch(id, Channel(c))];
            return Channel(c);
          }
        }
        registry := registry - {id};
      }
      pushes := pushes + [Dispatch(id, Udp)];
      return Udp;
    }

    /** One frame of a connection's read loop: the key is looked up again before the frame is handled. */
    method ReadFrame(c: ConnId, f: Frame) returns (keep: bool)
      requires c in conns && conns[c].live
      modifies this
      ensures View() == Next(old(View()), Receive(c, f))
      ensures conns == old(conns)[c := old(conns)[c].(live := keep)] && pinned == old(pinned) && pushes == old(pushes)
      ensures Handles(old(pinned), old(conns)[c]) <==> handled == old(handled) + [Handled(c, old(conns)[c].proof, true, f)]
      ensures !Handles(old(pinned), old(conns)[c]) ==> !keep && handled == old(handled) && registry == old(registry)
      ensures Handles(old(pinned), old(conns)[c]) ==> (keep <==> Welcome(old(conns)[c].proof, f))
      ensures Handles(old(pinned), old(conns)[c]) && Welcome(old(conns)[c].proof, f) && !f.Other? && f.id != [] ==>
                && f.id in registry && registry[f.id] == c
                && forall i :: i != f.id ==> (i in registry <==> i in old(registry) && Up(old(View()), old(registry)[i]))
                                             && (i in registry ==> registry[i] == old(registry)[i])
      ensures !Welcome(old(conns)[c].proof, f) || f.Other? || f.id == [] ==> registry == old(registry)
    {
      var conn := conns[c];
      if conn.proof.Some? && conn.proof.value.key !in pinned {
        conns := conns[c := conn.(live := false)];
        return false;
      }
      handled := handled + [Handled(c, conn.proof, true, f)];
      keep := true;
      match f {
        case RegisterPeer(id, blocked) =>
          if id != [] {
            if blocked || (conn.proof.Some? && conn.proof.value.peerId != id) { keep := false; }
            else { RegisterPeerPush(id, c); }
          }
        case RegisterPk(id) =>
          if conn.proof.Some? && conn.proof.value.peerId != id { keep := false; }
          else { RegisterPeerPush(id, c); }
        case Other(k) => keep := k;
      }
      if !keep { conns := conns[c := conn.(live := false)]; }
    }
  }

  // ---- Invariants -------------------------------------------------------------------------

  predicate RegistryOk(conns: map<ConnId, Conn>, registry: map<PeerId, ConnId>) {
    forall id <- registry :: registry[id] in conns && MayBe(conns[registry[id]], id)
  }

  /** Every push through a channel went to a connection that proved exactly that id, or nothing. */
  predicate PushesOk(conns: map<ConnId, Conn>, pushes: seq<Dispatch>) {
    forall i :: 0 <= i < |pushes| && pushes[i].place.Channel? ==>
                  pushes[i].place.conn in conns && MayBe(conns[pushes[i].place.conn], pushes[i].id)
  }

  /** The numbers of the pushes that went to a connection, in order. */
  function NumbersTo(pushes: seq<Dispatch>, c: ConnId): seq<nat> {
    if pushes == [] then []
    else
      var n := |pushes| - 1;
      if pushes[n].place == Channel(c) then NumbersTo(pushes[..n], c) + [n] else NumbersTo(pushes[..n], c)
  }

  ghost predicate ChannelsOk(conns: map<ConnId, Conn>, pushes: seq<Dispatch>) {
    && (forall c <- conns :: conns[c].channel == NumbersTo(pushes, c) && conns[c].taken <= |conns[c].channel|)
    && (forall c :: c !in conns ==> NumbersTo(pushes, c) == [])
  }

  predicate HandledOk(handled: seq<Handled>) {
    forall i :: 0 <= i < |handled| ==> handled[i].proof.Some? ==> handled[i].pinned
  }

  ghost predicate Inv(s: State) {
    RegistryOk(s.conns, s.registry) && PushesOk(s.conns, s.pushes) && ChannelsOk(s.conns, s.pushes) && HandledOk(s.handled)
  }

  lemma NumbersPushed(pushes: seq<Dispatch>, d: Dispatch, c: ConnId)
    ensures NumbersTo(pushes + [d], c) == if d.place == Channel(c) then NumbersTo(pushes, c) + [|pushes|] else NumbersTo(pushes, c)
  {
    assert (pushes + [d])[..|pushes|] == pushes;
  }

  lemma PushKeepsInv(s: State, id: PeerId)
    requires Inv(s)
    ensures Inv(Pushed(s, id))
  {
    var z := Pushed(s, id);
    var d := z.pushes[|s.pushes|];
    assert z.pushes == s.pushes + [d];
    forall c | c in z.conns ensures z.conns[c].channel == NumbersTo(z.pushes, c) && z.conns[c].taken <= |z.conns[c].channel| {
      NumbersPushed(s.pushes, d, c);
    }
    forall c | c !in z.conns ensures NumbersTo(z.pushes, c) == [] { NumbersPushed(s.pushes, d, c); }
    assert PushesOk(z.conns, z.pushes);
  }

  lemma ClosedKeepsInv(s: State, c: ConnId)
    requires Inv(s) && c in s.conns
    ensures Inv(Closed(s, c))
  {}

  lemma ReceivedKeepsInv(s: State, c: ConnId, f: Frame)
    requires Inv(s) && Up(s, c)
    ensures Inv(Received(s, c, f))
  {
    var conn := s.conns[c];
    var v := Handle(conn, f);
    if Pinned(s.pinned, conn) {
      var s1 := s.(handled := s.handled + [Handled(c, conn.proof, Pinned(s.pinned, conn), f)],
                   registry := if v.registers.Some? then Registered(s.registry, s.conns, v.registers.value, c) else s.registry);
      assert Inv(s1);
      ClosedKeepsInv(s1, c);
    } else {
      ClosedKeepsInv(s, c);
    }
  }

  lemma NextKeepsInv(s: State, e: Step)
    requires Inv(s)
    ensures Inv(Next(s, e))
  {
    match e
    case Accept(_, _, _) =>
    case Receive(c, f) => if Up(s, c) { ReceivedKeepsInv(s, c, f); }
    case TakePush(_) =>
    case Close(c) => if Up(s, c) { ClosedKeepsInv(s, c); }
    case Push(id) => PushKeepsInv(s, id);
    case Pin(_) =>
    case Revoke(_) =>
  }

  lemma {:induction false} RunKeepsInv(s: State, es: seq<Step>)
    requires Inv(s)
    ensures Inv(Run(s, es))
    decreases |es|
  {
    if es == [] {
    } else {
      NextKeepsInv(s, es[0]);
      RunKeepsInv(Next(s, es[0]), es[1..]);
    }
  }

  // ---- Main results -----------------------------------------------------------------------

  /** A peer that registered and is not taken over gets every push through its own connection, in order,
      for as long as that lives, whatever else happens in between. */
  lemma RegisteredPeerIsPushed(s: State, es: seq<Step>, id: PeerId, c: ConnId)
    requires id != [] && id in s.registry && s.registry[id] == c && c in s.conns
    requires NeverTakenOver(s, es, id, c) && Up(Run(s, es), c)
    ensures var z := Run(s, es);
            var z' := Next(z, Push(id));
            && z'.pushes == z.pushes + [Dispatch(id, Channel(c))]
            && c in z'.conns && z'.conns[c].channel == z.conns[c].channel + [|z.pushes|] && z'.conns[c].taken == z.conns[c].taken
  {
    LiveEntryStays(s, es, id, c);
  }

  /** And takes them out of its channel one by one. */
  lemma TakesInTurn(s: State, c: ConnId)
    requires Up(s, c)
    ensures var z, conn := Next(s, TakePush(c)), s.conns[c];
            z == s.(conns := s.conns[c := conn.(taken := if conn.taken < |conn.channel| then conn.taken + 1 else conn.taken)])
  {
    assert s.conns[c := s.conns[c]] == s.conns;
  }

  /** A connection is accepted with the identity it proved, if its key is on the list, or with none where no key
      is required. */
  lemma AcceptedIff(s: State, c: ConnId, proof: Option<Proof>, requireKey: bool)
    requires c !in s.conns
    ensures var z := Next(s, Accept(c, proof, requireKey));
            && (c in z.conns <==> if proof.Some? then proof.value.key in s.pinned else !requireKey)
            && z == s.(conns := if c in z.conns then s.conns[c := Conn(proof, true, [], 0)] else s.conns)
  {}

  /** Over every run of connections, frames, pushes, closings and revocations: each registry entry
      points to a connection that proved exactly that id or proved nothing, and so does every push
      that left through a channel. A frame handled under a proven identity is recorded with the test of
      its key; that a revoked key is handled no more is RevokedKeyIsSilent. */
  lemma IdentitiesHold(es: seq<Step>)
    ensures var z := Run(INIT, es);
            && (forall id <- z.registry :: z.registry[id] in z.conns && MayBe(z.conns[z.registry[id]], id))
            && PushesOk(z.conns, z.pushes) && HandledOk(z.handled)
  {
    RunKeepsInv(INIT, es);
  }

  /** Each push is dispatched exactly once: push n is in the channel of the connection it was
      dispatched to, there once and in no other channel; one sent over UDP is in none. */
  lemma PushesGoOnce(es: seq<Step>, n: nat, c: ConnId)
    requires n < |Run(INIT, es).pushes| && c in Run(INIT, es).conns
    ensures var z := Run(INIT, es);
            && (n in z.conns[c].channel <==> z.pushes[n].place == Channel(c))
            && (forall i, j :: 0 <= i < j < |z.conns[c].channel| ==> z.conns[c].channel[i] < z.conns[c].channel[j])
  {
    RunKeepsInv(INIT, es);
    NumbersExact(Run(INIT, es).pushes, c, n);
  }

  lemma {:induction false} NumbersExact(pushes: seq<Dispatch>, c: ConnId, n: nat)
    ensures n in NumbersTo(pushes, c) <==> n < |pushes| && pushes[n].place == Channel(c)
    ensures forall i :: 0 <= i < |NumbersTo(pushes, c)| ==> NumbersTo(pushes, c)[i] < |pushes|
    ensures forall i, j :: 0 <= i < j < |NumbersTo(pushes, c)| ==> NumbersTo(pushes, c)[i] < NumbersTo(pushes, c)[j]
  {
    if pushes == [] {
    } else {
      var init := pushes[..|pushes| - 1];
      NumbersExact(init, c, n);
      var before := NumbersTo(init, c);
      if pushes[|init|].place == Channel(c) {
        assert NumbersTo(pushes, c) == before + [|init|];
        assert n in NumbersTo(pushes, c) <==> n in before || n == |init|;
      }
    }
  }

  /** The step registers id for some other connection. */
  predicate TakesOver(s: State, e: Step, id: PeerId, c: ConnId) {
    && e.Receive? && e.conn != c && Up(s, e.conn) && Pinned(s.pinned, s.conns[e.conn])
    && Handle(s.conns[e.conn], e.frame).registers == Some(id)
  }

  predicate NeverTakenOver(s: State, es: seq<Step>, id: PeerId, c: ConnId)
    decreases |es|
  {
    es == [] || (!TakesOver(s, es[0], id, c) && NeverTakenOver(Next(s, es[0]), es[1..], id, c))
  }

  lemma {:induction false} StaysDown(s: State, es: seq<Step>, c: ConnId)
    requires c in s.conns && !s.conns[c].live
    ensures c in Run(s, es).conns && !Run(s, es).conns[c].live
    decreases |es|
  {
    if es == [] {
    } else {
      StaysDown(Next(s, es[0]), es[1..], c);
    }
  }

  /** A live connection's entry survives everything but a registration of the same id by another
      connection: in particular the closing of connections that held the id before. */
  lemma {:induction false} LiveEntryStays(s: State, es: seq<Step>, id: PeerId, c: ConnId)
    requires id in s.registry && s.registry[id] == c && id != []
    requires c in s.conns && Up(Run(s, es), c) && NeverTakenOver(s, es, id, c)
    ensures id in Run(s, es).registry && Run(s, es).registry[id] == c
    decreases |es|
  {
    if es == [] {
    } else {
      if !s.conns[c].live { StaysDown(s, es, c); }
      EntryStaysOneStep(s, es[0], id, c);
      LiveEntryStays(Next(s, es[0]), es[1..], id, c);
    }
  }

  lemma EntryStaysOneStep(s: State, e: Step, id: PeerId, c: ConnId)
    requires id in s.registry && s.registry[id] == c && id != [] && Up(s, c) && !TakesOver(s, e, id, c)
    ensures c in Next(s, e).conns && id in Next(s, e).registry && Next(s, e).registry[id] == c
  {}

  predicate NeverPins(es: seq<Step>, key: DeviceKey) {
    forall i :: 0 <= i < |es| ==> es[i] != Pin(key)
  }

  /** Once a key is revoked, no frame is handled under it, on any connection, until it is pinned again. */
  lemma {:induction false} RevokedKeyIsSilent(s: State, es: seq<Step>, key: DeviceKey)
    requires key !in s.pinned && NeverPins(es, key)
    ensures s.handled <= Run(s, es).handled && key !in Run(s, es).pinned
    ensures forall i :: |s.handled| <= i < |Run(s, es).handled| ==>
                          Run(s, es).handled[i].proof.Some? ==> Run(s, es).handled[i].proof.value.key != key
    decreases |es|
  {
    if es == [] {
    } else {
      assert es[0] != Pin(key);
      var s1 := Next(s, es[0]);
      RevokedKeyIsSilent(s1, es[1..], key);
      var z := Run(s1, es[1..]);
      forall i | |s.handled| <= i < |z.handled| && z.handled[i].proof.Some? ensures z.handled[i].proof.value.key != key {
        if i < |s1.handled| { assert z.handled[i] == s1.handled[i]; }
      }
    }
  }
}
