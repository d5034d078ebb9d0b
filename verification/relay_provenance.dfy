/** hbbs and hbbr together: any interleaving of their steps under one clock, with connections
    presenting arbitrary grants to hbbr. Every relayed session traces back to one request that
    passed every gate. */
module RelayProvenance {
  import opened Prelude
  import opened RelayGrant
  import opened ControllerGates
  import Text
  import B = RelayBroker
  import T = RelayTable

  datatype System = System(hbbs: B.State, hbbr: T.State)

  datatype Step =
    | Tick(to: nat)
    | Hbbs(b: B.Step)
    | Present(grant: Grant, licenceOk: bool)
    | Hbbr(t: T.Step)

  /** Ideal signatures: hbbs's signature is on exactly the grants it minted. */
  predicate Signed(s: B.State, g: Grant) {
    g.nonce < |s.mints| && s.mints[g.nonce].grant == g
  }

  function Start(gates: B.Gates, policy: Policy): System {
    System(B.Init(gates, true, policy), T.INIT)
  }

  function Init(key: string, policy: Policy): System {
    Start(B.ServerGates(key), policy)
  }

  function Next(s: System, e: Step): System {
    match e
    case Tick(to) => System(B.Next(s.hbbs, B.Tick(to)), T.Next(s.hbbr, T.Tick(to)))
    case Hbbs(b) => if b.Tick? then s else s.(hbbs := B.Next(s.hbbs, b))
    case Present(g, licenceOk) =>
      s.(hbbr := T.Next(s.hbbr, T.Present(g, licenceOk && Verify(g, Signed(s.hbbs, g), s.hbbr.now))))
    case Hbbr(t) => if t.Tick? || t.Present? then s else s.(hbbr := T.Next(s.hbbr, t))
  }

  function Run(s: System, es: seq<Step>): System
    decreases |es|
  {
    if es == [] then s else Run(Next(s, es[0]), es[1..])
  }

  /** An admitted connection presented a grant hbbs had minted, before it expired. */
  predicate Admitted(s: B.State, c: T.Conn) {
    c.place != T.Refused ==>
      && Signed(s, c.grant) && s.mints[c.grant.nonce].at <= c.presentedAt < c.grant.exp
  }

  ghost predicate Inv(s: System) {
    && B.Inv(s.hbbs) && T.Inv(s.hbbr) && s.hbbs.now == s.hbbr.now
    && forall c :: 0 <= c < |s.hbbr.conns| ==> Admitted(s.hbbs, s.hbbr.conns[c])
  }

  lemma MintsOnlyGrow(s: B.State, e: B.Step)
    ensures s.mints <= B.Next(s, e).mints && (!e.Tick? ==> B.Next(s, e).now == s.now)
  {}

  /** No table step changes what a connection presented, or admits a refused one. */
  lemma TableKeepsConns(s: T.State, e: T.Step)
    requires T.Inv(s) && !e.Present?
    ensures var s' := T.Next(s, e);
            && |s'.conns| == |s.conns|
            && forall c :: 0 <= c < |s.conns| ==>
                 && s'.conns[c].grant == s.conns[c].grant && s'.conns[c].presentedAt == s.conns[c].presentedAt
                 && (s.conns[c].place == T.Refused ==> s'.conns[c].place == T.Refused)
  {}

  lemma PresentKeepsInv(s: System, g: Grant, licenceOk: bool)
    requires Inv(s)
    ensures Inv(Next(s, Present(g, licenceOk)))
  {
    var verified := licenceOk && Verify(g, Signed(s.hbbs, g), s.hbbr.now);
    T.NextKeepsInv(s.hbbr, T.Present(g, verified));
    if verified {
      MintedInThePast(s.hbbs, g.nonce);
    }
  }

  lemma MintedInThePast(s: B.State, m: nat)
    requires B.Inv(s) && m < |s.mints|
    ensures s.mints[m].at <= s.now
  {}

  lemma TickKeepsInv(s: System, to: nat)
    requires Inv(s)
    ensures Inv(Next(s, Tick(to)))
  {
    B.NextKeepsInv(s.hbbs, B.Tick(to));
    T.NextKeepsInv(s.hbbr, T.Tick(to));
    TableKeepsConns(s.hbbr, T.Tick(to));
  }

  lemma HbbsKeepsInv(s: System, b: B.Step)
    requires Inv(s)
    ensures Inv(Next(s, Hbbs(b)))
  {
    B.NextKeepsInv(s.hbbs, b);
    MintsOnlyGrow(s.hbbs, b);
  }

  lemma HbbrKeepsInv(s: System, t: T.Step)
    requires Inv(s)
    ensures Inv(Next(s, Hbbr(t)))
  {
    T.NextKeepsInv(s.hbbr, t);
    if !t.Present? { TableKeepsConns(s.hbbr, t); }
  }

  lemma NextKeepsInv(s: System, e: Step)
    requires Inv(s)
    ensures Inv(Next(s, e))
  {
    match e
    case Tick(to) => TickKeepsInv(s, to);
    case Hbbs(b) => HbbsKeepsInv(s, b);
    case Present(g, licenceOk) => PresentKeepsInv(s, g, licenceOk);
    case Hbbr(t) => HbbrKeepsInv(s, t);
  }

  lemma GatesFixed(s: System, e: Step)
    ensures Next(s, e).hbbs.gates == s.hbbs.gates
  {}

  lemma {:induction false} RunKeepsInv(s: System, es: seq<Step>)
    requires Inv(s)
    ensures Inv(Run(s, es)) && Run(s, es).hbbs.gates == s.hbbs.gates
    decreases |es|
  {
    if es == [] {
    } else {
      GatesFixed(s, es[0]);
      NextKeepsInv(s, es[0]);
      RunKeepsInv(Next(s, es[0]), es[1..]);
    }
  }

  /** One grant, the answer that earned it and the request behind it: no other grant is this
      grant, no other grant used this request, the request passed all three gates, an answer
      that proved a device key came from the machine the request was for, and the session's
      attribution is the proved identity when the controller proved one. */
  ghost predicate Brokered(s: B.State, key: string, grant: Grant, m: nat) {
    && m < |s.mints| && s.mints[m].grant == grant
    && (forall i :: 0 <= i < |s.mints| && i != m ==> s.mints[i].grant != grant && s.mints[i].record != s.mints[m].record)
    && s.mints[m].record < |s.records|
    && var r := s.records[s.mints[m].record];
       && (forall j :: 0 <= j < |s.records| && j != s.mints[m].record ==> s.records[j].task != r.task)
       && r.task < |s.tasks|
       && var t := s.tasks[r.task];
          && r.key == B.TryIntoV4(t.req.addr) && r.target == t.req.target
          && B.TargetGate(t.atTarget, key, t.req)
          && B.ControllerPasses(t.atController, t.req)
          && B.UserPasses(t.atUser, t.userTime, t.req)
          && (s.mints[m].responder.Some? ==> s.mints[m].responder.value.peerId == t.req.target)
          && (t.req.proof.Some? && t.req.proof.value.peerId != [] ==> r.source == t.req.proof.value.peerId)
          && r.at <= s.mints[m].at && grant.exp == s.mints[m].at + RELAY_GRANT_TTL_SECS
  }

  lemma MintIsBrokered(s: B.State, key: string, m: nat)
    requires B.Inv(s) && s.gates == B.ServerGates(key) && m < |s.mints|
    ensures Brokered(s, key, s.mints[m].grant, m)
  {}

  /** The two ends of pair i, and where their grant came from. */
  ghost predicate PairBrokered(s: System, key: string, i: nat)
    requires i < |s.hbbr.pairs|
  {
    var p := s.hbbr.pairs[i];
    && p.waiting < |s.hbbr.conns| && p.joiner < |s.hbbr.conns| && p.waiting != p.joiner
    && (forall c <- {p.waiting, p.joiner} ::
          s.hbbr.conns[c].grant == p.grant && s.hbbr.conns[c].presentedAt < p.grant.exp)
    && Brokered(s.hbbs, key, p.grant, p.grant.nonce)
  }

  lemma PairIsBrokered(s: System, key: string, i: nat)
    requires Inv(s) && s.hbbs.gates == B.ServerGates(key) && i < |s.hbbr.pairs|
    ensures PairBrokered(s, key, i)
  {
    var p := s.hbbr.pairs[i];
    assert T.PairOk(s.hbbr.conns, s.hbbr.parks, p, i);
    assert Admitted(s.hbbs, s.hbbr.conns[p.waiting]) && Admitted(s.hbbs, s.hbbr.conns[p.joiner]);
    MintIsBrokered(s.hbbs, key, p.grant.nonce);
  }

  lemma Reachable(key: string, policy: Policy, es: seq<Step>)
    ensures Inv(Run(Init(key, policy), es)) && Run(Init(key, policy), es).hbbs.gates == B.ServerGates(key)
  {
    StartInv(B.ServerGates(key), policy);
    RunKeepsInv(Init(key, policy), es);
  }

  lemma StartInv(gates: B.Gates, policy: Policy)
    ensures Inv(Start(gates, policy)) && Start(gates, policy).hbbs.gates == gates
  {
    B.InitInv(gates, true, policy);
    TableStartInv();
    assert Start(gates, policy).hbbr.conns == [];
  }

  lemma TableStartInv()
    ensures T.Inv(T.INIT)
  {}

  /** Relay provenance, over every run of the two servers: each pair hbbr forms joins two
      distinct connections, each of which presented the same unexpired grant, and that grant was
      brokered. */
  lemma RelayedSessionsAreBrokered(key: string, policy: Policy, es: seq<Step>, i: nat)
    requires i < |Run(Init(key, policy), es).hbbr.pairs|
    ensures PairBrokered(Run(Init(key, policy), es), key, i)
  {
    Reachable(key, policy, es);
    PairIsBrokered(Run(Init(key, policy), es), key, i);
  }

  /** The request behind the grant of pair i. */
  function RequestOf(s: System, i: nat): B.Task
    requires i < |s.hbbr.pairs|
    requires var m := s.hbbr.pairs[i].grant.nonce;
             m < |s.hbbs.mints| && s.hbbs.mints[m].record < |s.hbbs.records|
             && s.hbbs.records[s.hbbs.mints[m].record].task < |s.hbbs.tasks|
  {
    s.hbbs.tasks[s.hbbs.records[s.hbbs.mints[s.hbbr.pairs[i].grant.nonce].record].task]
  }

  /** hbbr admits a connection exactly if it presents the server's licence and a grant that hbbs minted and
      that has not expired. */
  lemma PresentAdmitsIff(s: System, g: Grant, licenceOk: bool)
    ensures var z := Next(s, Present(g, licenceOk));
            && z.hbbs == s.hbbs && |z.hbbr.conns| == |s.hbbr.conns| + 1 && s.hbbr.conns <= z.hbbr.conns
            && var c := z.hbbr.conns[|s.hbbr.conns|];
            c.grant == g && c.presentedAt == s.hbbr.now
            && c.place == if licenceOk && (exists m :: 0 <= m < |s.hbbs.mints| && m == g.nonce && s.hbbs.mints[m].grant == g) && s.hbbr.now < g.exp
                          then T.Verified else T.Refused
  {}

  /** And two connections that present one such grant, with no stream parked under it, are paired. */
  lemma GrantConnectsItsEnds(s: System, g: Grant)
    requires Signed(s.hbbs, g) && s.hbbr.now < g.exp && g !in s.hbbr.peers
    ensures var n := |s.hbbr.conns|;
            var z := Run(s, [Present(g, true), Hbbr(T.TakePeer(n)), Hbbr(T.ParkPeer(n)), Present(g, true), Hbbr(T.TakePeer(n + 1))]);
            && z.hbbs == s.hbbs && |z.hbbr.pairs| == |s.hbbr.pairs| + 1
            && var p := z.hbbr.pairs[|s.hbbr.pairs|];
            p.waiting == n && p.joiner == n + 1 && p.grant == g
  {
    var n := |s.hbbr.conns|;
    var a := Next(s, Present(g, true));
    assert a.hbbs == s.hbbs && a.hbbr == T.Next(s.hbbr, T.Present(g, true));
    var b := Next(a, Hbbr(T.TakePeer(n)));
    assert b.hbbr.conns[n].place == T.Missing && b.hbbr.peers == s.hbbr.peers && b.hbbr.pairs == s.hbbr.pairs;
    var c := Next(b, Hbbr(T.ParkPeer(n)));
    assert c.hbbr.peers == s.hbbr.peers[g := n] && |c.hbbr.conns| == n + 1;
    var d := Next(c, Present(g, true));
    assert d.hbbr.conns[n + 1].place == T.Verified && d.hbbr.conns[n + 1].grant == g && d.hbbr.pairs == s.hbbr.pairs;
    RunFive(s, [Present(g, true), Hbbr(T.TakePeer(n)), Hbbr(T.ParkPeer(n)), Present(g, true), Hbbr(T.TakePeer(n + 1))]);
  }

  lemma RunFive(s: System, es: seq<Step>)
    requires |es| == 5
    ensures Run(s, es) == Next(Next(Next(Next(Next(s, es[0]), es[1]), es[2]), es[3]), es[4])
  {
    var a := Next(s, es[0]);
    var b := Next(a, es[1]);
    var c := Next(b, es[2]);
    var d := Next(c, es[3]);
    assert Run(s, es) == Run(a, es[1..]) && Run(a, es[1..]) == Run(b, es[1..][1..]);
    assert Run(b, es[1..][1..]) == Run(c, es[1..][1..][1..]) && Run(c, es[1..][1..][1..]) == Run(d, es[1..][1..][1..][1..]);
    assert Run(d, es[1..][1..][1..][1..]) == Run(Next(d, es[4]), es[1..][1..][1..][1..][1..]);
    assert es[1..][1..][1..][1..][1..] == [];
  }

  /** What that says about the controller of the very request behind a pair's grant: it was registered
      and not blocked, with outbound connections on and the target on its list, when its gate was
      read; and if it proved a device key, it is the machine that key is bound to. */
  lemma RelayedSessionsHaveAController(key: string, policy: Policy, es: seq<Step>, i: nat)
    requires i < |Run(Init(key, policy), es).hbbr.pairs|
    ensures var s := Run(Init(key, policy), es);
            && var m := s.hbbr.pairs[i].grant.nonce;
            && m < |s.hbbs.mints| && s.hbbs.mints[m].record < |s.hbbs.records|
            && s.hbbs.records[s.hbbs.mints[m].record].task < |s.hbbs.tasks|
            && HasController(RequestOf(s, i))
  {
    var s := Run(Init(key, policy), es);
    RelayedSessionsAreBrokered(key, policy, es, i);
    var t := RequestOf(s, i);
    ControllerGateExact(t.atController, t.req.claim, t.req.proof, t.req.target);
  }

  ghost predicate HasController(t: B.Task) {
    exists id: PeerId, r: Registered ::
      && id in t.atController.registered && t.atController.registered[id] == Answer(r)
      && id != [] && r.status != Some(0) && r.outboundEnabled != Some("N")
      && TargetListAllows(r.outboundTargets, t.req.target)
      && (t.req.proof.Some? || t.req.claim.Some?)
      && (t.req.proof.Some? ==> id == Text.Trim(t.req.proof.value.peerId))
  }

  /** The target was not blocked, and allowed outright on a server for company devices only; a punch named the
      server's own key. A relay request may leave the target open. */
  predicate TargetWasOpen(t: B.Task, key: string) {
    var p, id := t.atTarget, t.req.target;
    && (t.req.kind == B.Punch ==> key == [] || t.req.licence == key)
    && (!(t.req.kind == B.Relay && id == []) ==>
          && !(id in p.status && p.status[id] == Answer(Some(0)))
          && (p.companyOnly ==> id in p.status && p.status[id] == Answer(Some(1))))
  }

  /** Whoever was signed in was allowed this target, on the connection that proved the session's key; with
      login required, somebody was. */
  ghost predicate UserWasAllowed(t: B.Task) {
    var p := t.atUser;
    var token := if t.req.claim.Some? then t.req.claim.value.token else None;
    if s, user :| SignedIn(p, t.userTime, token, s, user) then
      && (p.sessions[s].deviceKey != [] ==> t.req.proof.Some? && t.req.proof.value.deviceKey == p.sessions[s].deviceKey)
      && (p.users[user].isAdmin || "*" in p.users[user].allowedTargets || t.req.target in p.users[user].allowedTargets)
    else !p.requireLogin
  }

  /** What it says about the target and the user of that request, each when its gate was read. */
  lemma RelayedSessionsWereAllowed(key: string, policy: Policy, es: seq<Step>, i: nat)
    requires i < |Run(Init(key, policy), es).hbbr.pairs|
    ensures var s := Run(Init(key, policy), es);
            && var m := s.hbbr.pairs[i].grant.nonce;
            && m < |s.hbbs.mints| && s.hbbs.mints[m].record < |s.hbbs.records|
            && s.hbbs.records[s.hbbs.mints[m].record].task < |s.hbbs.tasks|
            && TargetWasOpen(RequestOf(s, i), key) && UserWasAllowed(RequestOf(s, i))
  {
    var s := Run(Init(key, policy), es);
    RelayedSessionsAreBrokered(key, policy, es, i);
    var t := RequestOf(s, i);
    GatesWereOpen(t, key);
  }

  lemma GatesWereOpen(t: B.Task, key: string)
    requires B.TargetGate(t.atTarget, key, t.req) && B.UserPasses(t.atUser, t.userTime, t.req)
    ensures TargetWasOpen(t, key) && UserWasAllowed(t)
  {
    var token := if t.req.claim.Some? then t.req.claim.value.token else None;
    var deviceKey := if t.req.proof.Some? then Some(t.req.proof.value.deviceKey) else None;
    TargetAllowedExact(t.atTarget, t.req.target);
    UserGateExact(t.atUser, t.userTime, token, deviceKey, t.req.target);
  }
}
