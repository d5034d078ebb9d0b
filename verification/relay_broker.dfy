/** hbbs's half of the relay protocol: gated requests, the single-use `pending_relay` entries
    they leave behind, and the signed grants a target's RelayResponse turns them into.

    The state is a value and every atomic step a total function on it (a step that is not
    enabled changes nothing), so a run is any sequence of steps: any number of requests in
    flight, interleaved anywhere between two lock acquisitions. `records`, `mints` and `pushed`
    are histories; nothing reads them to decide a step. */
module RelayBroker {
  import opened Prelude
  import opened ControllerGates
  import opened RelayGrant

  const PENDING_RELAY_TTL: nat := RELAY_GRANT_TTL_SECS

  /** A socket address as a dual-stack listener reports it. */
  datatype SockAddr = V4(ip: bv32, port: bv16) | V4Mapped(ip: bv32, port: bv16) | V6(segments: seq<bv16>, port: bv16)

  /** The v4 form of a v4-mapped address: the form a target echoes back, and the table's key. */
  function TryIntoV4(a: SockAddr): SockAddr {
    if a.V4Mapped? then V4(a.ip, a.port) else a
  }

  datatype Kind = Relay | Punch

  datatype Request = Request(kind: Kind, addr: SockAddr, target: PeerId, licence: string,
                             claim: Option<Claim>, proof: Option<Proof>)

  datatype Phase =
    | Arrived | TargetOk | ControllerOk | UserOk
    | Forwarded   // relay: pushed to the target, not yet recorded
    | Recorded    // punch: recorded, not yet pushed
    | LocalPunch  // punch inside one intranet: pushed without a pending entry
    | Done | Closed

  /** A request being served, with the policy and time each passed gate was read at. */
  datatype Task = Task(req: Request, phase: Phase, atTarget: Policy, atController: Policy,
                       atUser: Policy, userTime: nat)

  /** An entry of `pending_relay`; `record` is its place in the history. */
  datatype Pending = Pending(target: PeerId, source: PeerId, expires: nat, record: nat)

  datatype Record = Record(task: nat, key: SockAddr, target: PeerId, source: PeerId, at: nat)

  datatype Mint = Mint(grant: Grant, record: nat, responder: Option<Proof>, at: nat)

  /** The gates in the order they are read. The protocol's own guarantees hold whatever they
      decide; ServerGates is what hbbs decides. */
  datatype Gates = Gates(target: (Policy, Request) -> bool, controller: (Policy, Request) -> bool,
                         user: (Policy, nat, Request) -> bool)

  datatype State = State(gates: Gates, hasSecret: bool, now: nat, policy: Policy, tasks: seq<Task>,
                         pending: map<SockAddr, Pending>,
                         records: seq<Record>, mints: seq<Mint>, pushed: set<nat>)

  datatype Step =
    | Tick(to: nat)
    | SetPolicy(policy: Policy)
    | Arrive(req: Request)
    | CheckTarget(task: nat)
    | CheckController(task: nat)
    | CheckUser(task: nat)
    | PushRelay(task: nat, inMemory: bool)
    | RecordRelay(task: nat)
    | RecordPunch(task: nat, reachable: bool, sameIntranet: bool)
    | PushPunch(task: nat)
    | Respond(addr: SockAddr, responder: Option<Proof>)

  function Init(gates: Gates, hasSecret: bool, policy: Policy): State {
    State(gates, hasSecret, 0, policy, [], map[], [], [], {})
  }

  predicate TargetGate(p: Policy, key: string, r: Request) {
    match r.kind
    case Relay => r.target == [] || TargetAllowed(p, r.target)
    case Punch => (key == [] || r.licence == key) && TargetAllowed(p, r.target)
  }

  predicate ControllerPasses(p: Policy, r: Request) {
    ControllerGate(p, r.claim, r.proof, r.target) == None
  }

  predicate UserPasses(p: Policy, now: nat, r: Request) {
    var token := if r.claim.Some? then r.claim.value.token else None;
    var deviceKey := if r.proof.Some? then Some(r.proof.value.deviceKey) else None;
    UserGate(p, now, token, deviceKey, r.target) == None
  }

  function ServerGates(key: string): Gates {
    Gates((p: Policy, r: Request) => TargetGate(p, key, r), ControllerPasses, UserPasses)
  }

  /** The controller id carried to the byte counters: the proved one; a relay request without
      proof falls back to the one it claims, a punch does not. */
  function SourceOf(r: Request): PeerId {
    if r.proof.Some? && r.proof.value.peerId != [] then r.proof.value.peerId
    else if r.kind == Relay && r.claim.Some? then r.claim.value.id
    else []
  }

  /** The sweep that precedes every insertion: `retain(expires > now)`. */
  function Sweep(pending: map<SockAddr, Pending>, now: nat): map<SockAddr, Pending> {
    map a | a in pending && pending[a].expires > now :: pending[a]
  }

  function InPhase(s: State, t: nat, phase: Phase, kind: Kind): bool {
    t < |s.tasks| && s.tasks[t].phase == phase && s.tasks[t].req.kind == kind
  }

  function Move(s: State, t: nat, phase: Phase): State
    requires t < |s.tasks|
  {
    s.(tasks := s.tasks[t := s.tasks[t].(phase := phase)])
  }

  /** Sweep, then insert the entry under the controller's v4 address. */
  function AddPending(s: State, t: nat): State
    requires t < |s.tasks|
  {
    var r := s.tasks[t].req;
    var key := TryIntoV4(r.addr);
    var entry := Pending(r.target, SourceOf(r), s.now + PENDING_RELAY_TTL, |s.records|);
    s.(pending := Sweep(s.pending, s.now)[key := entry],
       records := s.records + [Record(t, key, r.target, SourceOf(r), s.now)])
  }

  /** Remove the entry first; a proved responder that is not its target, or a server without a
      secret key, then gets nothing for it. */
  function OnResponse(s: State, addr: SockAddr, responder: Option<Proof>): State {
    if addr !in s.pending then s
    else
      var p := s.pending[addr];
      var taken := s.(pending := s.pending - {addr});
      if (responder.Some? && responder.value.peerId != p.target) || !s.hasSecret then taken
      else
        var grant := Grant(|s.mints|, s.now + RELAY_GRANT_TTL_SECS);
        taken.(mints := s.mints + [Mint(grant, p.record, responder, s.now)])
  }

  function Next(s: State, e: Step): State {
    match e
    case Tick(to) => if s.now <= to then s.(now := to) else s
    case SetPolicy(p) => s.(policy := p)
    case Arrive(r) => s.(tasks := s.tasks + [Task(r, Arrived, s.policy, s.policy, s.policy, s.now)])
    case CheckTarget(t) =>
      if t >= |s.tasks| || s.tasks[t].phase != Arrived then s
      else if !s.gates.target(s.policy, s.tasks[t].req) then Move(s, t, Closed)
      else s.(tasks := s.tasks[t := s.tasks[t].(phase := TargetOk, atTarget := s.policy)])
    case CheckController(t) =>
      if t >= |s.tasks| || s.tasks[t].phase != TargetOk then s
      else if !s.gates.controller(s.policy, s.tasks[t].req) then Move(s, t, Closed)
      else s.(tasks := s.tasks[t := s.tasks[t].(phase := ControllerOk, atController := s.policy)])
    case CheckUser(t) =>
      if t >= |s.tasks| || s.tasks[t].phase != ControllerOk then s
      else if !s.gates.user(s.policy, s.now, s.tasks[t].req) then Move(s, t, Closed)
      else s.(tasks := s.tasks[t := s.tasks[t].(phase := UserOk, atUser := s.policy, userTime := s.now)])
    case PushRelay(t, inMemory) =>
      if !InPhase(s, t, UserOk, Relay) then s
      else if !inMemory then Move(s, t, Closed)
      else Move(s, t, Forwarded).(pushed := s.pushed + {t})
    case RecordRelay(t) =>
      if !InPhase(s, t, Forwarded, Relay) then s else Move(AddPending(s, t), t, Done)
    case RecordPunch(t, reachable, sameIntranet) =>
      if !InPhase(s, t, UserOk, Punch) then s
      else if !reachable then Move(s, t, Closed)
      else if sameIntranet then Move(s, t, LocalPunch)
      else Move(AddPending(s, t), t, Recorded)
    case PushPunch(t) =>
      if InPhase(s, t, Recorded, Punch) || InPhase(s, t, LocalPunch, Punch)
      then Move(s, t, Done).(pushed := s.pushed + {t})
      else s
    case Respond(addr, responder) => OnResponse(s, addr, responder)
  }

  function Run(s: State, es: seq<Step>): State
    decreases |es|
  {
    if es == [] then s else Run(Next(s, es[0]), es[1..])
  }

  /** All three gates passed, each on the policy in force when it was read. */
  predicate GatesPassed(g: Gates, t: Task) {
    && g.target(t.atTarget, t.req)
    && g.controller(t.atController, t.req)
    && g.user(t.atUser, t.userTime, t.req)
  }

  predicate Evidence(g: Gates, t: Task) {
    match t.phase
    case Arrived => true
    case Closed => true
    case TargetOk => g.target(t.atTarget, t.req)
    case ControllerOk => g.target(t.atTarget, t.req) && g.controller(t.atController, t.req)
    case _ => GatesPassed(g, t)
  }

  /** A record comes from a request that passed every gate, and was pushed to its target: before
      the record for a relay request, after it for a punch. */
  predicate RecordOk(g: Gates, t: Task, pushed: bool, now: nat, r: Record) {
    && r.key == TryIntoV4(t.req.addr) && r.target == t.req.target && r.source == SourceOf(t.req) && r.at <= now
    && GatesPassed(g, t)
    && (t.phase == Done || (t.phase == Recorded && t.req.kind == Punch))
    && (t.phase == Done ==> pushed)
  }

  ghost predicate TasksOk(g: Gates, tasks: seq<Task>, pushed: set<nat>) {
    && (forall t :: 0 <= t < |tasks| ==> Evidence(g, tasks[t]))
    && (forall t :: 0 <= t < |tasks| && tasks[t].phase == Forwarded ==> t in pushed)
    && (forall t <- pushed :: t < |tasks|)
  }

  ghost predicate RecordsOk(g: Gates, tasks: seq<Task>, pushed: set<nat>, now: nat, records: seq<Record>) {
    && (forall i :: 0 <= i < |records| ==>
          records[i].task < |tasks| && RecordOk(g, tasks[records[i].task], records[i].task in pushed, now, records[i]))
    && (forall i, j :: 0 <= i < j < |records| ==> records[i].task != records[j].task)
    && (forall i, j :: 0 <= i < j < |records| ==> records[i].at <= records[j].at)
  }

  ghost predicate Unconsumed(mints: seq<Mint>, record: nat) {
    forall i :: 0 <= i < |mints| ==> mints[i].record != record
  }

  /** Entries mirror their records, no grant was minted for them, and they had not expired when
      the table was last swept, which is when the last record was made. */
  ghost predicate PendingOk(pending: map<SockAddr, Pending>, records: seq<Record>, mints: seq<Mint>) {
    forall a <- pending :: var p := pending[a];
      && p.record < |records|
      && var r := records[p.record];
         && a == r.key && p.target == r.target && p.source == r.source && p.expires == r.at + PENDING_RELAY_TTL
         && p.expires > records[|records| - 1].at
         && Unconsumed(mints, p.record)
  }

  ghost predicate MintsOk(records: seq<Record>, mints: seq<Mint>, now: nat) {
    && (forall i :: 0 <= i < |mints| ==> var m := mints[i];
          && m.grant.nonce == i && m.grant.exp == m.at + RELAY_GRANT_TTL_SECS && m.at <= now
          && m.record < |records| && records[m.record].at <= m.at
          && (m.responder.Some? ==> m.responder.value.peerId == records[m.record].target))
    && (forall i, j :: 0 <= i < j < |mints| ==> mints[i].record != mints[j].record)
  }

  ghost predicate Inv(s: State) {
    && TasksOk(s.gates, s.tasks, s.pushed)
    && RecordsOk(s.gates, s.tasks, s.pushed, s.now, s.records)
    && PendingOk(s.pending, s.records, s.mints)
    && MintsOk(s.records, s.mints, s.now)
  }

  /** A task no record names may change, and further tasks be pushed; the records stand. */
  lemma TaskChangeKeepsInv(s: State, t: nat, task: Task, pushed': set<nat>)
    requires Inv(s) && t < |s.tasks|
    requires task.req == s.tasks[t].req && Evidence(s.gates, task)
    requires s.pushed <= pushed' <= s.pushed + {t} && (task.phase in {Forwarded, Done} ==> t in pushed')
    requires s.tasks[t].phase in {Done, Recorded} ==> task == s.tasks[t].(phase := Done)
    ensures Inv(s.(tasks := s.tasks[t := task], pushed := pushed'))
  {}

  lemma RecordingKeepsRecords(g: Gates, tasks: seq<Task>, pushed: set<nat>, now: nat, records: seq<Record>,
                              t: nat, task: Task, r: Record)
    requires TasksOk(g, tasks, pushed) && RecordsOk(g, tasks, pushed, now, records) && t < |tasks|
    requires task.req == tasks[t].req && Evidence(g, task) && r.task == t && r.at == now
    requires tasks[t].phase !in {Done, Recorded} && RecordOk(g, task, t in pushed, now, r)
    ensures TasksOk(g, tasks[t := task], pushed) && RecordsOk(g, tasks[t := task], pushed, now, records + [r])
  {}

  lemma RecordingKeepsPending(pending: map<SockAddr, Pending>, records: seq<Record>, mints: seq<Mint>, now: nat, r: Record)
    requires PendingOk(pending, records, mints) && MintsOk(records, mints, now) && r.at == now
    ensures var pending' := Sweep(pending, now)[r.key := Pending(r.target, r.source, now + PENDING_RELAY_TTL, |records|)];
            PendingOk(pending', records + [r], mints) && MintsOk(records + [r], mints, now)
  {}

  lemma RecordingKeepsInv(s: State, t: nat, phase: Phase)
    requires Inv(s) && t < |s.tasks|
    requires (InPhase(s, t, Forwarded, Relay) && phase == Done) || (InPhase(s, t, UserOk, Punch) && phase == Recorded)
    ensures Inv(Move(AddPending(s, t), t, phase))
  {
    var r := AddPending(s, t).records[|s.records|];
    assert Evidence(s.gates, s.tasks[t]) && Evidence(s.gates, s.tasks[t].(phase := phase));
    assert RecordOk(s.gates, s.tasks[t].(phase := phase), t in s.pushed, s.now, r);
    RecordingKeepsRecords(s.gates, s.tasks, s.pushed, s.now, s.records, t, s.tasks[t].(phase := phase), r);
    RecordingKeepsPending(s.pending, s.records, s.mints, s.now, r);
  }

  lemma MintingKeepsTables(pending: map<SockAddr, Pending>, records: seq<Record>, mints: seq<Mint>, now: nat,
                           addr: SockAddr, m: Mint)
    requires PendingOk(pending, records, mints) && MintsOk(records, mints, now)
    requires addr in pending && m.record == pending[addr].record && m.at == now
    requires forall i :: 0 <= i < |records| ==> records[i].at <= now
    requires m.grant == Grant(|mints|, now + RELAY_GRANT_TTL_SECS)
    requires m.responder.Some? ==> m.responder.value.peerId == pending[addr].target
    ensures PendingOk(pending - {addr}, records, mints + [m]) && MintsOk(records, mints + [m], now)
  {
    assert Unconsumed(mints, m.record);
    forall a | a in pending && a != addr ensures Unconsumed(mints + [m], pending[a].record) {
      assert records[pending[a].record].key == a && Unconsumed(mints, pending[a].record);
    }
  }

  lemma RecordedInThePast(g: Gates, tasks: seq<Task>, pushed: set<nat>, now: nat, records: seq<Record>)
    requires RecordsOk(g, tasks, pushed, now, records)
    ensures forall i :: 0 <= i < |records| ==> records[i].at <= now
  {
    forall i | 0 <= i < |records| ensures records[i].at <= now {
      assert RecordOk(g, tasks[records[i].task], records[i].task in pushed, now, records[i]);
    }
  }

  lemma MintKeepsInv(s: State, addr: SockAddr, m: Mint)
    requires Inv(s) && addr in s.pending && m.record == s.pending[addr].record && m.at == s.now
    requires m.grant == Grant(|s.mints|, s.now + RELAY_GRANT_TTL_SECS)
    requires m.responder.Some? ==> m.responder.value.peerId == s.pending[addr].target
    ensures Inv(s.(pending := s.pending - {addr}, mints := s.mints + [m]))
  {
    RecordedInThePast(s.gates, s.tasks, s.pushed, s.now, s.records);
    MintingKeepsTables(s.pending, s.records, s.mints, s.now, addr, m);
  }

  lemma ConsumingKeepsInv(s: State, addr: SockAddr)
    requires Inv(s)
    ensures Inv(s.(pending := s.pending - {addr}))
  {}

  predicate Refused(s: State, addr: SockAddr, responder: Option<Proof>)
    requires addr in s.pending
  {
    (responder.Some? && responder.value.peerId != s.pending[addr].target) || !s.hasSecret
  }

  function MintFor(s: State, addr: SockAddr, responder: Option<Proof>): Mint
    requires addr in s.pending
  {
    Mint(Grant(|s.mints|, s.now + RELAY_GRANT_TTL_SECS), s.pending[addr].record, responder, s.now)
  }

  lemma OnResponseCases(s: State, addr: SockAddr, responder: Option<Proof>)
    requires addr in s.pending
    ensures OnResponse(s, addr, responder) ==
            if Refused(s, addr, responder) then s.(pending := s.pending - {addr})
            else s.(pending := s.pending - {addr}, mints := s.mints + [MintFor(s, addr, responder)])
  {}

  lemma ResponseKeepsInv(s: State, addr: SockAddr, responder: Option<Proof>)
    requires Inv(s)
    ensures Inv(OnResponse(s, addr, responder))
  {
    if addr in s.pending {
      OnResponseCases(s, addr, responder);
      if Refused(s, addr, responder) {
        ConsumingKeepsInv(s, addr);
      } else {
        MintKeepsInv(s, addr, MintFor(s, addr, responder));
      }
    }
  }

  lemma WaitingKeepsInv(s: State, to: nat)
    requires Inv(s) && s.now <= to
    ensures Inv(s.(now := to))
  {}

  lemma ArrivalKeepsInv(s: State, r: Request)
    requires Inv(s)
    ensures Inv(Next(s, Arrive(r)))
  {}

  /** A gate either lets the task one phase further, on the policy just read, or closes it. */
  lemma GateKeepsInv(s: State, t: nat, task: Task)
    requires Inv(s) && t < |s.tasks| && task.req == s.tasks[t].req
    requires s.tasks[t].phase in {Arrived, TargetOk, ControllerOk}
    requires task.phase == Closed || (Evidence(s.gates, task) && task.phase in {TargetOk, ControllerOk, UserOk})
    ensures Inv(s.(tasks := s.tasks[t := task]))
  {}

  lemma CheckKeepsInv(s: State, e: Step)
    requires Inv(s) && (e.CheckTarget? || e.CheckController? || e.CheckUser?)
    requires e.task < |s.tasks| && s.tasks[e.task].phase in {Arrived, TargetOk, ControllerOk}
    ensures Inv(Next(s, e))
  {
    var t := e.task;
    var task := s.tasks[t];
    assert Evidence(s.gates, task);
    GateKeepsInv(s, t, task.(phase := Closed));
    if e.CheckTarget? && task.phase == Arrived && s.gates.target(s.policy, task.req) {
      GateKeepsInv(s, t, task.(phase := TargetOk, atTarget := s.policy));
    } else if e.CheckController? && task.phase == TargetOk && s.gates.controller(s.policy, task.req) {
      GateKeepsInv(s, t, task.(phase := ControllerOk, atController := s.policy));
    } else if e.CheckUser? && task.phase == ControllerOk && s.gates.user(s.policy, s.now, task.req) {
      GateKeepsInv(s, t, task.(phase := UserOk, atUser := s.policy, userTime := s.now));
    }
  }

  lemma PushKeepsInv(s: State, e: Step)
    requires Inv(s) && (e.PushRelay? || e.PushPunch?)
    ensures Inv(Next(s, e))
  {
    var t := e.task;
    if t < |s.tasks| {
      var task := s.tasks[t];
      assert Evidence(s.gates, task);
      if e.PushPunch? && task.phase in {Recorded, LocalPunch} && task.req.kind == Punch {
        TaskChangeKeepsInv(s, t, task.(phase := Done), s.pushed + {t});
      } else if e.PushRelay? && task.phase == UserOk && task.req.kind == Relay {
        if e.inMemory {
          TaskChangeKeepsInv(s, t, task.(phase := Forwarded), s.pushed + {t});
        } else {
          TaskChangeKeepsInv(s, t, task.(phase := Closed), s.pushed);
        }
      }
    }
  }

  lemma RecordKeepsInv(s: State, e: Step)
    requires Inv(s) && (e.RecordRelay? || e.RecordPunch?)
    ensures Inv(Next(s, e))
  {
    match e
    case RecordRelay(t) =>
      if InPhase(s, t, Forwarded, Relay) { RecordingKeepsInv(s, t, Done); }
    case RecordPunch(t, reachable, sameIntranet) =>
      if InPhase(s, t, UserOk, Punch) {
        if reachable && !sameIntranet {
          RecordingKeepsInv(s, t, Recorded);
        } else {
          assert Evidence(s.gates, s.tasks[t]);
          TaskChangeKeepsInv(s, t, s.tasks[t].(phase := if reachable then LocalPunch else Closed), s.pushed);
        }
      }
  }

  /** Every step, from every state that satisfies the invariant, keeps it. */
  lemma NextKeepsInv(s: State, e: Step)
    requires Inv(s)
    ensures Inv(Next(s, e))
  {
    match e
    case Tick(to) => if s.now <= to { WaitingKeepsInv(s, to); }
    case SetPolicy(_) =>
    case Arrive(r) => ArrivalKeepsInv(s, r);
    case Respond(addr, responder) => ResponseKeepsInv(s, addr, responder);
    case PushRelay(_, _) => PushKeepsInv(s, e);
    case PushPunch(_) => PushKeepsInv(s, e);
    case RecordRelay(_) => RecordKeepsInv(s, e);
    case RecordPunch(_, _, _) => RecordKeepsInv(s, e);
    case _ =>
      if e.task < |s.tasks| && s.tasks[e.task].phase in {Arrived, TargetOk, ControllerOk} { CheckKeepsInv(s, e); }
  }

  lemma InitInv(gates: Gates, hasSecret: bool, policy: Policy)
    ensures Inv(Init(gates, hasSecret, policy))
  {}

  lemma StepOnlyGrows(s: State, e: Step)
    ensures Next(s, e).gates == s.gates && s.records <= Next(s, e).records && s.mints <= Next(s, e).mints
  {}

  lemma {:induction false} HistoryOnlyGrows(s: State, es: seq<Step>)
    ensures Run(s, es).gates == s.gates && s.records <= Run(s, es).records && s.mints <= Run(s, es).mints
    decreases |es|
  {
    if es == [] {
    } else {
      StepOnlyGrows(s, es[0]);
      HistoryOnlyGrows(Next(s, es[0]), es[1..]);
    }
  }

  lemma {:induction false} InvHolds(s: State, es: seq<Step>)
    requires Inv(s)
    ensures Inv(Run(s, es))
    decreases |es|
  {
    if es == [] {
    } else {
      NextKeepsInv(s, es[0]);
      InvHolds(Next(s, es[0]), es[1..]);
    }
  }

  /** The invariant holds over every run, the gates are never exchanged, and no record or mint is ever
      taken back. */
  lemma RunKeepsInv(s: State, es: seq<Step>)
    requires Inv(s)
    ensures Inv(Run(s, es))
    ensures Run(s, es).gates == s.gates && s.records <= Run(s, es).records && s.mints <= Run(s, es).mints
  {
    InvHolds(s, es);
    HistoryOnlyGrows(s, es);
  }

  // ---- How many grants --------------------------------------------------------------------

  /** Punches that are recorded and not yet pushed. */
  function BetweenRecordAndPush(tasks: seq<Task>): set<nat> {
    set t: nat | t < |tasks| && tasks[t].phase == Recorded
  }

  ghost function MintTasks(records: seq<Record>, mints: seq<Mint>): set<nat>
    requires forall i :: 0 <= i < |mints| ==> mints[i].record < |records|
  {
    set i | 0 <= i < |mints| :: records[mints[i].record].task
  }

  /** Grants, their records and the requests behind them correspond one to one. */
  lemma {:induction false} MintTasksDistinct(records: seq<Record>, mints: seq<Mint>, now: nat)
    requires MintsOk(records, mints, now)
    requires forall i, j :: 0 <= i < j < |records| ==> records[i].task != records[j].task
    ensures |MintTasks(records, mints)| == |mints|
  {
    if mints == [] {
    } else {
      var n := |mints| - 1;
      var rest := mints[..n];
      MintTasksDistinct(records, rest, now);
      var last := records[mints[n].record].task;
      assert last !in MintTasks(records, rest);
      assert MintTasks(records, mints) == MintTasks(records, rest) + {last};
    }
  }

  lemma CoveredSize(a: set<nat>, b: set<nat>, c: set<nat>)
    requires a <= b + c
    ensures |a| <= |b| + |c|
  {
    SubsetSize(a, b + c);
    assert |b + c| <= |b| + |c| by { assert b + c == b + (c - b) && c == (c - b) + (c * b); }
  }

  /** Over every run: no more grants than requests pushed, except for the punches that are
      between their record and their push; a punch is recorded first, so at that moment its
      grant can already exist. */
  lemma GrantsNeverExceedPushes(s0: State, es: seq<Step>)
    requires Inv(s0)
    ensures var s := Run(s0, es);
            |s.mints| <= |s.pushed| + |BetweenRecordAndPush(s.tasks)|
  {
    RunKeepsInv(s0, es);
    var s := Run(s0, es);
    forall i | 0 <= i < |s.mints|
      ensures s.records[s.mints[i].record].task in s.pushed + BetweenRecordAndPush(s.tasks)
    {
      var r := s.records[s.mints[i].record];
      assert RecordOk(s.gates, s.tasks[r.task], r.task in s.pushed, s.now, r);
    }
    MintTasksDistinct(s.records, s.mints, s.now);
    CoveredSize(MintTasks(s.records, s.mints), s.pushed, BetweenRecordAndPush(s.tasks));
  }

  predicate PastPush(tasks: seq<Task>, t: nat) {
    t < |tasks| && tasks[t].phase in {Forwarded, Done}
  }

  /** A request is pushed exactly while it is past its push: a relay request from Forwarded on, a
      punch once Done. */
  ghost predicate PushedExactly(tasks: seq<Task>, pushed: set<nat>) {
    forall t: nat :: t in pushed <==> PastPush(tasks, t)
  }

  lemma NextKeepsPushedExactly(s: State, e: Step)
    requires PushedExactly(s.tasks, s.pushed)
    ensures PushedExactly(Next(s, e).tasks, Next(s, e).pushed)
  {
    if e.PushRelay? || e.PushPunch? {
      PushKeepsPushedExactly(s, e);
    } else {
      OtherStepsKeepPushedExactly(s, e);
    }
  }

  lemma PushKeepsPushedExactly(s: State, e: Step)
    requires PushedExactly(s.tasks, s.pushed) && (e.PushRelay? || e.PushPunch?)
    ensures PushedExactly(Next(s, e).tasks, Next(s, e).pushed)
  {}

  lemma OtherStepsPushNone(s: State, e: Step, t: nat)
    requires !e.PushRelay? && !e.PushPunch?
    ensures PastPush(Next(s, e).tasks, t) <==> PastPush(s.tasks, t)
  {}

  lemma OtherStepsKeepPushedExactly(s: State, e: Step)
    requires PushedExactly(s.tasks, s.pushed) && !e.PushRelay? && !e.PushPunch?
    ensures PushedExactly(Next(s, e).tasks, Next(s, e).pushed)
  {
    var s' := Next(s, e);
    forall t: nat ensures t in s'.pushed <==> PastPush(s'.tasks, t) {
      OtherStepsPushNone(s, e, t);
    }
  }

  /** Every grant's request has been pushed to its target. */
  ghost predicate GrantsPushed(s: State) {
    forall i :: 0 <= i < |s.mints| ==> s.mints[i].record < |s.records| && s.records[s.mints[i].record].task in s.pushed
  }

  /** An answer that earns a grant meets the entry of a punch that is recorded but not yet pushed. */
  predicate AnswersUnpushed(s: State, e: Step) {
    && e.Respond? && e.addr in s.pending && !Refused(s, e.addr, e.responder)
    && var record := s.pending[e.addr].record;
       record < |s.records| && s.records[record].task < |s.tasks| && s.tasks[s.records[record].task].phase == Recorded
  }

  lemma PushedOnlyGrows(s: State, e: Step)
    ensures s.pushed <= Next(s, e).pushed && s.records <= Next(s, e).records
    ensures !e.Respond? ==> Next(s, e).mints == s.mints
  {}

  lemma AnsweredTask(s: State, addr: SockAddr)
    requires Inv(s) && PushedExactly(s.tasks, s.pushed) && addr in s.pending
    ensures var record := s.pending[addr].record;
            && record < |s.records| && s.records[record].task < |s.tasks|
            && (s.records[record].task in s.pushed <==> s.tasks[s.records[record].task].phase != Recorded)
  {
    var r := s.records[s.pending[addr].record];
    assert RecordOk(s.gates, s.tasks[r.task], r.task in s.pushed, s.now, r);
  }

  lemma AnswerPushedIff(s: State, addr: SockAddr, responder: Option<Proof>)
    requires Inv(s) && PushedExactly(s.tasks, s.pushed) && GrantsPushed(s) && addr in s.pending
    ensures GrantsPushed(Next(s, Respond(addr, responder))) <==> !AnswersUnpushed(s, Respond(addr, responder))
  {
    PushedOnlyGrows(s, Respond(addr, responder));
    AnsweredTask(s, addr);
    OnResponseCases(s, addr, responder);
    var s' := Next(s, Respond(addr, responder));
    if !Refused(s, addr, responder) { assert s'.mints[|s.mints|] == MintFor(s, addr, responder); }
  }

  /** One step: the grants' requests all stay pushed exactly if the step is no such answer. */
  lemma GrantsPushedStep(s: State, e: Step)
    requires Inv(s) && PushedExactly(s.tasks, s.pushed) && GrantsPushed(s)
    ensures GrantsPushed(Next(s, e)) <==> !AnswersUnpushed(s, e)
  {
    PushedOnlyGrows(s, e);
    if e.Respond? && e.addr in s.pending {
      AnswerPushedIff(s, e.addr, e.responder);
    }
  }

  predicate NoneAnsweredUnpushed(s: State, es: seq<Step>)
    decreases |es|
  {
    es == [] || (!AnswersUnpushed(s, es[0]) && NoneAnsweredUnpushed(Next(s, es[0]), es[1..]))
  }

  ghost predicate AlwaysGrantsPushed(s: State, es: seq<Step>)
    decreases |es|
  {
    GrantsPushed(s) && (es == [] || AlwaysGrantsPushed(Next(s, es[0]), es[1..]))
  }

  lemma {:induction false} AlwaysPushedIff(s: State, es: seq<Step>)
    requires Inv(s) && PushedExactly(s.tasks, s.pushed) && GrantsPushed(s)
    ensures AlwaysGrantsPushed(s, es) <==> NoneAnsweredUnpushed(s, es)
    decreases |es|
  {
    if es == [] {
    } else {
      var s1 := Next(s, es[0]);
      GrantsPushedStep(s, es[0]);
      if GrantsPushed(s1) {
        NextKeepsInv(s, es[0]);
        NextKeepsPushedExactly(s, es[0]);
        AlwaysPushedIff(s1, es[1..]);
      } else {
        assert !AlwaysGrantsPushed(s1, es[1..]);
      }
    }
  }

  /** In every state of a run every grant's request has been pushed if and only if no answer that earns
      a grant meets a punch between its record and its push. */
  lemma GrantsFollowPushesIff(gates: Gates, hasSecret: bool, policy: Policy, es: seq<Step>)
    ensures AlwaysGrantsPushed(Init(gates, hasSecret, policy), es) <==> NoneAnsweredUnpushed(Init(gates, hasSecret, policy), es)
  {
    InitInv(gates, hasSecret, policy);
    AlwaysPushedIff(Init(gates, hasSecret, policy), es);
  }

  /** And where every grant's request has been pushed, grants never exceed pushes. */
  lemma PushedGrantsAreFew(s: State)
    requires Inv(s) && GrantsPushed(s)
    ensures |s.mints| <= |s.pushed|
  {
    MintTasksDistinct(s.records, s.mints, s.now);
    SubsetSize(MintTasks(s.records, s.mints), s.pushed);
  }

  /** For every punch whose gates pass, the run that answers it between its record and its push
      holds a grant for a request nothing was pushed for yet. */
  lemma GrantCanPrecedePush(g: Gates, policy: Policy, r: Request)
    requires r.kind == Punch && g.target(policy, r) && g.controller(policy, r) && g.user(policy, 0, r)
    ensures var s := Run(Init(g, true, policy), [Arrive(r), CheckTarget(0), CheckController(0), CheckUser(0),
                                                 RecordPunch(0, true, false), Respond(TryIntoV4(r.addr), None)]);
            |s.mints| == 1 && s.pushed == {} && BetweenRecordAndPush(s.tasks) == {0}
  {
    var s4 := AdmittedPunch(g, policy, r);
    var s5 := Next(s4, RecordPunch(0, true, false));
    var s6 := Next(s5, Respond(TryIntoV4(r.addr), None));
    RunSix(Init(g, true, policy), Arrive(r), CheckTarget(0), CheckController(0), CheckUser(0),
           RecordPunch(0, true, false), Respond(TryIntoV4(r.addr), None));
    assert BetweenRecordAndPush(s6.tasks) == {0};
  }

  lemma AdmittedPunch(g: Gates, policy: Policy, r: Request) returns (s: State)
    requires r.kind == Punch && g.target(policy, r) && g.controller(policy, r) && g.user(policy, 0, r)
    ensures s == Next(Next(Next(Next(Init(g, true, policy), Arrive(r)), CheckTarget(0)), CheckController(0)), CheckUser(0))
    ensures s == State(g, true, 0, policy, [Task(r, UserOk, policy, policy, policy, 0)], map[], [], [], {})
  {
    var s1 := Next(Init(g, true, policy), Arrive(r));
    assert s1.tasks == [Task(r, Arrived, policy, policy, policy, 0)];
    var s2 := Next(s1, CheckTarget(0));
    assert s2.tasks == [Task(r, TargetOk, policy, policy, policy, 0)];
    var s3 := Next(s2, CheckController(0));
    assert s3.tasks == [Task(r, ControllerOk, policy, policy, policy, 0)];
    s := Next(s3, CheckUser(0));
    assert s.tasks == [Task(r, UserOk, policy, policy, policy, 0)];
  }

  lemma RunSix(s: State, e1: Step, e2: Step, e3: Step, e4: Step, e5: Step, e6: Step)
    ensures Run(s, [e1, e2, e3, e4, e5, e6]) == Next(Next(Next(Next(Next(Next(s, e1), e2), e3), e4), e5), e6)
  {
    RunCons(s, e1, [e2, e3, e4, e5, e6]);
    RunCons(Next(s, e1), e2, [e3, e4, e5, e6]);
    var s2 := Next(Next(s, e1), e2);
    RunCons(s2, e3, [e4, e5, e6]);
    RunCons(Next(s2, e3), e4, [e5, e6]);
    var s4 := Next(Next(s2, e3), e4);
    RunCons(s4, e5, [e6]);
    RunCons(Next(s4, e5), e6, []);
    assert [e1] + [e2, e3, e4, e5, e6] == [e1, e2, e3, e4, e5, e6] && [e2] + [e3, e4, e5, e6] == [e2, e3, e4, e5, e6];
    assert [e3] + [e4, e5, e6] == [e3, e4, e5, e6] && [e4] + [e5, e6] == [e4, e5, e6] && [e5] + [e6] == [e5, e6] && [e6] + [] == [e6];
  }

  lemma RunCons(s: State, e: Step, es: seq<Step>)
    ensures Run(s, [e] + es) == Run(Next(s, e), es)
  {}

  // ---- How long an entry lives ------------------------------------------------------------

  /** No response names the key, and no request is recorded under it. */
  ghost predicate Untouched(s: State, es: seq<Step>, key: SockAddr) {
    && (forall i, r :: 0 <= i < |es| ==> es[i] != Respond(key, r))
    && var records := Run(s, es).records;
       forall i :: |s.records| <= i < |records| ==> records[i].key != key
  }

  /** Whether every request recorded from now on comes before a time. */
  ghost predicate NoneRecordedFrom(s: State, es: seq<Step>, time: nat) {
    var records := Run(s, es).records;
    forall i :: |s.records| <= i < |records| ==> records[i].at < time
  }

  lemma {:induction false} AbsentStaysAbsent(s: State, es: seq<Step>, key: SockAddr)
    requires key !in s.pending && Untouched(s, es, key)
    ensures key !in Run(s, es).pending
    decreases |es|
  {
    if es == [] {
    } else {
      OneStepUntouched(s, es, key);
      AbsentOneStep(s, es[0], key);
      AbsentStaysAbsent(Next(s, es[0]), es[1..], key);
    }
  }

  lemma AbsentOneStep(s: State, e: Step, key: SockAddr)
    requires key !in s.pending && !TouchedBy(s, e, key)
    ensures key !in Next(s, e).pending
  {}

  lemma StepOnEntry(s: State, e: Step, key: SockAddr)
    requires key in s.pending && !TouchedBy(s, e, key)
    ensures var s' := Next(s, e);
            && |s.records| <= |s'.records| <= |s.records| + 1
            && (key in s'.pending ==> s'.pending[key] == s.pending[key])
            && (key in s'.pending <==>
                (|s'.records| > |s.records| ==> s'.records[|s.records|].at < s.pending[key].expires))
  {}

  /** An entry nobody answers or overwrites lives exactly until the first request of any
      controller recorded at or after its expiry: the clock alone never ends it. */
  lemma {:induction false} EntryLifetime(s: State, es: seq<Step>, key: SockAddr)
    requires key in s.pending && Untouched(s, es, key)
    ensures var s' := Run(s, es);
            && (key in s'.pending <==> NoneRecordedFrom(s, es, s.pending[key].expires))
            && (key in s'.pending ==> s'.pending[key] == s.pending[key])
    decreases |es|
  {
    if es == [] {
    } else {
      var s1 := Next(s, es[0]);
      OneStepUntouched(s, es, key);
      OneStepUnswept(s, es, s.pending[key].expires);
      StepOnEntry(s, es[0], key);
      if key in s1.pending {
        EntryLifetime(s1, es[1..], key);
      } else {
        AbsentStaysAbsent(s1, es[1..], key);
      }
    }
  }

  /** The documented rule is that only an unexpired entry yields a grant. The lookup does not
      read the expiry, so the rule holds exactly when some request was recorded since: an
      admissible answer, however late, mints a grant if and only if none was. */
  lemma LateAnswerMintsIffUnswept(s: State, es: seq<Step>, key: SockAddr, responder: Option<Proof>)
    requires key in s.pending && Untouched(s, es, key) && s.hasSecret
    requires responder.Some? ==> responder.value.peerId == s.pending[key].target
    ensures var s' := Run(s, es);
            |Next(s', Respond(key, responder)).mints| == |s'.mints| + 1 <==> NoneRecordedFrom(s, es, s.pending[key].expires)
  {
    EntryLifetime(s, es, key);
    SecretIsFixed(s, es);
  }

  /** The entry that record n made is still there. */
  predicate Waits(s: State, key: SockAddr, n: nat) {
    key in s.pending && s.pending[key].record == n
  }

  lemma {:induction false} GoneStaysGone(s: State, es: seq<Step>, key: SockAddr, n: nat)
    requires n < |s.records| && !Waits(s, key, n)
    ensures !Waits(Run(s, es), key, n)
    decreases |es|
  {
    if es == [] {
    } else {
      GoneOneStep(s, es[0], key, n);
      GoneStaysGone(Next(s, es[0]), es[1..], key, n);
    }
  }

  lemma GoneOneStep(s: State, e: Step, key: SockAddr, n: nat)
    requires n < |s.records| && !Waits(s, key, n)
    ensures n < |Next(s, e).records| && !Waits(Next(s, e), key, n)
  {}

  predicate TouchedBy(s: State, e: Step, key: SockAddr) {
    || (e.Respond? && e.addr == key)
    || (|Next(s, e).records| > |s.records| && Next(s, e).records[|s.records|].key == key)
  }

  lemma TouchedIsGone(s: State, e: Step, key: SockAddr, n: nat)
    requires n < |s.records| && Waits(s, key, n) && TouchedBy(s, e, key)
    ensures !Waits(Next(s, e), key, n)
  {}

  lemma OneStepUntouched(s: State, es: seq<Step>, key: SockAddr)
    requires es != []
    ensures Untouched(s, es, key) <==> !TouchedBy(s, es[0], key) && Untouched(Next(s, es[0]), es[1..], key)
  {
    var s1, all := Next(s, es[0]), Run(s, es).records;
    HistoryOnlyGrows(s1, es[1..]);
    OneRecordAtMost(s, es[0]);
    if |s1.records| > |s.records| { assert all[|s.records|] == s1.records[|s.records|]; }
    if es[0].Respond? && es[0].addr == key { assert es[0] == Respond(key, es[0].responder); }
    if !TouchedBy(s, es[0], key) && Untouched(s1, es[1..], key) {
      forall i, r | 0 <= i < |es| ensures es[i] != Respond(key, r) {
        if i > 0 { assert es[1..][i - 1] == es[i]; }
      }
    }
    if Untouched(s, es, key) {
      forall i, r | 0 <= i < |es[1..]| ensures es[1..][i] != Respond(key, r) { assert es[1..][i] == es[i + 1]; }
    }
  }

  lemma OneRecordAtMost(s: State, e: Step)
    ensures |s.records| <= |Next(s, e).records| <= |s.records| + 1
  {}

  lemma OneStepUnswept(s: State, es: seq<Step>, time: nat)
    requires es != []
    ensures NoneRecordedFrom(s, es, time) <==>
            (|Next(s, es[0]).records| > |s.records| ==> Next(s, es[0]).records[|s.records|].at < time)
            && NoneRecordedFrom(Next(s, es[0]), es[1..], time)
  {
    var s1, all := Next(s, es[0]), Run(s, es).records;
    HistoryOnlyGrows(s1, es[1..]);
    OneRecordAtMost(s, es[0]);
    if |s1.records| > |s.records| { assert all[|s.records|] == s1.records[|s.records|]; }
  }

  /** The entry of a recorded request waits exactly until it is answered by anyone, overwritten by
      another request under its address, or swept by one recorded at or after its expiry. */
  lemma {:induction false} WaitsIff(s: State, es: seq<Step>, key: SockAddr, n: nat)
    requires n < |s.records| && Waits(s, key, n)
    ensures Waits(Run(s, es), key, n) <==> Untouched(s, es, key) && NoneRecordedFrom(s, es, s.pending[key].expires)
    decreases |es|
  {
    if es == [] {
    } else {
      var s1 := Next(s, es[0]);
      OneStepUntouched(s, es, key);
      OneStepUnswept(s, es, s.pending[key].expires);
      OneRecordAtMost(s, es[0]);
      if TouchedBy(s, es[0], key) {
        TouchedIsGone(s, es[0], key, n);
        GoneStaysGone(s1, es[1..], key, n);
      } else {
        StepOnEntry(s, es[0], key);
        if Waits(s1, key, n) {
          WaitsIff(s1, es[1..], key, n);
        } else {
          GoneStaysGone(s1, es[1..], key, n);
        }
      }
    }
  }

  /** The answer mints a grant for the request that record n is of. */
  predicate EarnsGrant(s: State, key: SockAddr, responder: Option<Proof>, n: nat) {
    var mints := Next(s, Respond(key, responder)).mints;
    |mints| == |s.mints| + 1 && mints[|s.mints|].record == n
  }

  /** The right target's answer, after any run: it earns the recorded request its grant if and only if
      in between nobody answered under that address, not even a machine that is refused, no request
      was recorded under it, and none anywhere at or after the expiry. */
  lemma AnswerEarnsGrantIff(s: State, es: seq<Step>, key: SockAddr, responder: Option<Proof>)
    requires Inv(s) && key in s.pending && s.hasSecret
    requires responder.Some? ==> responder.value.peerId == s.pending[key].target
    ensures EarnsGrant(Run(s, es), key, responder, s.pending[key].record)
       <==> Untouched(s, es, key) && NoneRecordedFrom(s, es, s.pending[key].expires)
  {
    var n, s' := s.pending[key].record, Run(s, es);
    WaitsIff(s, es, key, n);
    SecretIsFixed(s, es);
    if Waits(s', key, n) { SameTarget(s, es, key, n); }
    EarnsIffWaits(s', key, responder, n);
  }

  lemma EarnsIffWaits(s: State, key: SockAddr, responder: Option<Proof>, n: nat)
    requires s.hasSecret
    requires Waits(s, key, n) && responder.Some? ==> responder.value.peerId == s.pending[key].target
    ensures EarnsGrant(s, key, responder, n) <==> Waits(s, key, n)
  {}

  lemma SameTarget(s: State, es: seq<Step>, key: SockAddr, n: nat)
    requires Inv(s) && Waits(s, key, n) && Waits(Run(s, es), key, n)
    ensures Run(s, es).pending[key].target == s.pending[key].target
  {
    RunKeepsInv(s, es);
    assert s.records[n].target == s.pending[key].target && Run(s, es).records[n] == s.records[n];
  }

  lemma AnswerIsForAnother(s: State, t: nat, key: SockAddr, responder: Option<Proof>)
    requires Inv(s) && InPhase(s, t, Forwarded, Relay)
    ensures var z := Next(s, Respond(key, responder));
            t in s.pushed && InPhase(z, t, Forwarded, Relay)
            && forall i :: 0 <= i < |z.mints| ==> z.mints[i].record < |z.records| && z.records[z.mints[i].record].task != t
  {
    assert Evidence(s.gates, s.tasks[t]);
    ResponseKeepsInv(s, key, responder);
    NothingMintedFor(Next(s, Respond(key, responder)), t);
  }

  /** A relay request is pushed before it is recorded: no answer in between is for it, and in no later
      state is a grant minted by then its grant. */
  lemma AnswerBeforeRecordIsLost(s: State, t: nat, key: SockAddr, responder: Option<Proof>, es: seq<Step>)
    requires Inv(s) && InPhase(s, t, Forwarded, Relay)
    ensures t in s.pushed
    ensures var s' := Next(s, Respond(key, responder));
            var z := Run(s', es);
            && InPhase(s', t, Forwarded, Relay) && s'.mints <= z.mints
            && forall i :: 0 <= i < |s'.mints| ==> z.mints[i].record < |z.records| && z.records[z.mints[i].record].task != t
  {
    AnswerIsForAnother(s, t, key, responder);
    HistoryOnlyGrows(Next(s, Respond(key, responder)), es);
  }

  lemma NothingMintedFor(s: State, t: nat)
    requires Inv(s) && t < |s.tasks| && s.tasks[t].phase == Forwarded
    ensures forall i :: 0 <= i < |s.mints| ==> s.mints[i].record < |s.records| && s.records[s.mints[i].record].task != t
  {
    forall i | 0 <= i < |s.mints| ensures s.mints[i].record < |s.records| && s.records[s.mints[i].record].task != t {
      var r := s.records[s.mints[i].record];
      assert RecordOk(s.gates, s.tasks[r.task], r.task in s.pushed, s.now, r);
    }
  }

  lemma {:induction false} SecretIsFixed(s: State, es: seq<Step>)
    ensures Run(s, es).hasSecret == s.hasSecret && Run(s, es).gates == s.gates
    decreases |es|
  {
    if es == [] {
    } else {
      SecretIsFixed(Next(s, es[0]), es[1..]);
    }
  }

  // ---- Requests that get their grant, and those that never do ------------------------------

  /** The form of a controller's address that its target sends back. */
  predicate Echoes(addr: SockAddr, key: SockAddr) {
    match addr
    case V4Mapped(ip, port) => key == V4(ip, port)
    case _ => key == addr
  }

  /** The machine a session is attributed to: the one proven; else, for a relay request, the one claimed. */
  predicate Attributed(r: Request, source: PeerId) {
    && (r.proof.Some? && r.proof.value.peerId != [] ==> source == r.proof.value.peerId)
    && (!(r.proof.Some? && r.proof.value.peerId != []) ==>
          source == if r.kind == Relay && r.claim.Some? then r.claim.value.id else [])
  }

  predicate PassesNow(s: State, r: Request) {
    s.gates.target(s.policy, r) && s.gates.controller(s.policy, r) && s.gates.user(s.policy, s.now, r)
  }

  function Admission(to: nat, p: Policy, r: Request, t: nat): seq<Step> {
    [Tick(to), SetPolicy(p), Arrive(r)] + [CheckTarget(t), CheckController(t), CheckUser(t)]
  }

  lemma ArrivesNow(s: State, to: nat, p: Policy, r: Request)
    requires s.now <= to
    ensures Run(s, [Tick(to), SetPolicy(p), Arrive(r)])
         == s.(now := to, policy := p, tasks := s.tasks + [Task(r, Arrived, p, p, p, to)])
  {
    RunThree(s, [Tick(to), SetPolicy(p), Arrive(r)]);
  }

  lemma PassesGates(s: State, r: Request, t: nat)
    requires t < |s.tasks| && s.tasks[t] == Task(r, Arrived, s.policy, s.policy, s.policy, s.now) && PassesNow(s, r)
    ensures Run(s, [CheckTarget(t), CheckController(t), CheckUser(t)])
         == s.(tasks := s.tasks[t := Task(r, UserOk, s.policy, s.policy, s.policy, s.now)])
  {
    RunThree(s, [CheckTarget(t), CheckController(t), CheckUser(t)]);
    var a := Next(s, CheckTarget(t));
    assert a == s.(tasks := s.tasks[t := s.tasks[t].(phase := TargetOk)]);
    var b := Next(a, CheckController(t));
    assert b == s.(tasks := s.tasks[t := s.tasks[t].(phase := ControllerOk)]);
  }

  /** Whatever happened before, at whatever later time and under whatever new policy: a request that
      passes its gates is admitted. */
  lemma IsAdmitted(s: State, to: nat, p: Policy, r: Request)
    requires s.now <= to && PassesNow(s.(now := to, policy := p), r)
    ensures Run(s, Admission(to, p, r, |s.tasks|))
         == s.(now := to, policy := p, tasks := s.tasks + [Task(r, UserOk, p, p, p, to)])
  {
    var t := |s.tasks|;
    ArrivesNow(s, to, p, r);
    RunConcat(s, [Tick(to), SetPolicy(p), Arrive(r)], [CheckTarget(t), CheckController(t), CheckUser(t)]);
    PassesGates(Run(s, [Tick(to), SetPolicy(p), Arrive(r)]), r, t);
  }

  predicate RecordsIt(record: Record, r: Request, t: nat, key: SockAddr, now: nat) {
    record.task == t && record.key == key && record.target == r.target && record.at == now && Attributed(r, record.source)
  }

  /** The push, the record and the grant of one request that was just served. */
  ghost predicate Earned(s: State, z: State, r: Request, t: nat, key: SockAddr, responder: Option<Proof>) {
    && t in z.pushed && key !in z.pending
    && |z.records| == |s.records| + 1 && s.records <= z.records && RecordsIt(z.records[|s.records|], r, t, key, z.now)
    && z.mints == s.mints + [Mint(Grant(|s.mints|, z.now + 60), |s.records|, responder, z.now)]
  }

  /** From any state of a server with a key: a relay request whose gates pass and whose target is in
      memory is pushed to it, recorded, and its target's answer earns it its own grant. */
  lemma RelayEarnsItsGrant(s: State, to: nat, p: Policy, r: Request, key: SockAddr, responder: Option<Proof>)
    requires r.kind == Relay && s.hasSecret && s.now <= to && PassesNow(s.(now := to, policy := p), r)
    requires Echoes(r.addr, key) && (responder.Some? ==> responder.value.peerId == r.target)
    ensures var t := |s.tasks|;
            var z := Run(s, Admission(to, p, r, t) + [PushRelay(t, true), RecordRelay(t), Respond(key, responder)]);
            z.now == to && Earned(s, z, r, t, key, responder)
  {
    var t := |s.tasks|;
    IsAdmitted(s, to, p, r);
    var a := Run(s, Admission(to, p, r, t));
    RunConcat(s, Admission(to, p, r, t), [PushRelay(t, true), RecordRelay(t), Respond(key, responder)]);
    RunThree(a, [PushRelay(t, true), RecordRelay(t), Respond(key, responder)]);
    RelayServed(a, r, t, key, responder);
  }

  lemma RelayServed(s: State, r: Request, t: nat, key: SockAddr, responder: Option<Proof>)
    requires InPhase(s, t, UserOk, Relay) && s.tasks[t].req == r && s.hasSecret
    requires Echoes(r.addr, key) && (responder.Some? ==> responder.value.peerId == r.target)
    ensures var z := Next(Next(Next(s, PushRelay(t, true)), RecordRelay(t)), Respond(key, responder));
            z.now == s.now && Earned(s, z, r, t, key, responder)
  {
    var a := Next(s, PushRelay(t, true));
    assert InPhase(a, t, Forwarded, Relay) && a.tasks[t].req == r && t in a.pushed && a.records == s.records && a.mints == s.mints;
    var b := Next(a, RecordRelay(t));
    EntryMade(a, t, key);
    assert b.pending == AddPending(a, t).pending && b.records == AddPending(a, t).records && b.mints == s.mints && t in b.pushed;
    OnResponseCases(b, key, responder);
  }

  lemma EntryMade(s: State, t: nat, key: SockAddr)
    requires t < |s.tasks| && Echoes(s.tasks[t].req.addr, key)
    ensures var z, r := AddPending(s, t), s.tasks[t].req;
            && key in z.pending && z.pending[key].target == r.target && z.pending[key].record == |s.records|
            && |z.records| == |s.records| + 1 && s.records <= z.records && RecordsIt(z.records[|s.records|], r, t, key, s.now)
  {}

  /** The same for a punch to a target that can be reached, which is recorded first and then pushed. */
  lemma PunchEarnsItsGrant(s: State, to: nat, p: Policy, r: Request, key: SockAddr, responder: Option<Proof>)
    requires r.kind == Punch && s.hasSecret && s.now <= to && PassesNow(s.(now := to, policy := p), r)
    requires Echoes(r.addr, key) && (responder.Some? ==> responder.value.peerId == r.target)
    ensures var t := |s.tasks|;
            var z := Run(s, Admission(to, p, r, t) + [RecordPunch(t, true, false), PushPunch(t), Respond(key, responder)]);
            z.now == to && Earned(s, z, r, t, key, responder)
  {
    var t := |s.tasks|;
    IsAdmitted(s, to, p, r);
    var a := Run(s, Admission(to, p, r, t));
    RunConcat(s, Admission(to, p, r, t), [RecordPunch(t, true, false), PushPunch(t), Respond(key, responder)]);
    RunThree(a, [RecordPunch(t, true, false), PushPunch(t), Respond(key, responder)]);
    PunchServed(a, r, t, key, responder);
  }

  lemma PunchServed(s: State, r: Request, t: nat, key: SockAddr, responder: Option<Proof>)
    requires InPhase(s, t, UserOk, Punch) && s.tasks[t].req == r && s.hasSecret
    requires Echoes(r.addr, key) && (responder.Some? ==> responder.value.peerId == r.target)
    ensures var z := Next(Next(Next(s, RecordPunch(t, true, false)), PushPunch(t)), Respond(key, responder));
            z.now == s.now && Earned(s, z, r, t, key, responder)
  {
    var a := Next(s, RecordPunch(t, true, false));
    EntryMade(s, t, key);
    assert InPhase(a, t, Recorded, Punch) && a.pending == AddPending(s, t).pending && a.records == AddPending(s, t).records;
    var b := Next(a, PushPunch(t));
    assert b.pending == a.pending && b.records == a.records && b.mints == s.mints && t in b.pushed;
    OnResponseCases(b, key, responder);
  }

  /** A punch inside one intranet is pushed and leaves nothing that could earn a grant. */
  lemma LocalPunchIsOnlyPushed(s: State, t: nat)
    requires InPhase(s, t, UserOk, Punch)
    ensures var z := Next(Next(s, RecordPunch(t, true, true)), PushPunch(t));
            t in z.pushed && z.pending == s.pending && z.records == s.records && z.mints == s.mints && z.tasks[t].phase == Done
  {
    var a := Next(s, RecordPunch(t, true, true));
    assert InPhase(a, t, LocalPunch, Punch);
  }

  /** The step refuses the request: one of its gates says no, or its target cannot be reached. */
  predicate Refuses(s: State, e: Step, t: nat) {
    && t < |s.tasks|
    && var r := s.tasks[t].req;
    match e
    case CheckTarget(u) => u == t && s.tasks[t].phase == Arrived && !s.gates.target(s.policy, r)
    case CheckController(u) => u == t && s.tasks[t].phase == TargetOk && !s.gates.controller(s.policy, r)
    case CheckUser(u) => u == t && s.tasks[t].phase == ControllerOk && !s.gates.user(s.policy, s.now, r)
    case PushRelay(u, inMemory) => u == t && InPhase(s, t, UserOk, Relay) && !inMemory
    case RecordPunch(u, reachable, _) => u == t && InPhase(s, t, UserOk, Punch) && !reachable
    case _ => false
  }

  /** Nothing was pushed or recorded for a request, and it goes no further. */
  predicate Ended(s: State, t: nat) {
    && t < |s.tasks| && s.tasks[t].phase == Closed && t !in s.pushed
    && forall i :: 0 <= i < |s.records| ==> s.records[i].task != t
  }

  lemma EndedOneStep(s: State, e: Step, t: nat)
    requires Ended(s, t)
    ensures Ended(Next(s, e), t)
  {}

  lemma {:induction false} EndedStays(s: State, es: seq<Step>, t: nat)
    requires Ended(s, t)
    ensures Ended(Run(s, es), t)
    decreases |es|
  {
    if es == [] {
    } else {
      EndedOneStep(s, es[0], t);
      EndedStays(Next(s, es[0]), es[1..], t);
    }
  }

  lemma NotBefore(s: State, t: nat)
    requires Inv(s) && PushedExactly(s.tasks, s.pushed) && t < |s.tasks|
    requires s.tasks[t].phase in {Arrived, TargetOk, ControllerOk, UserOk}
    ensures t !in s.pushed && forall i :: 0 <= i < |s.records| ==> s.records[i].task != t
  {
    forall i | 0 <= i < |s.records| ensures s.records[i].task != t {
      var r := s.records[i];
      assert RecordOk(s.gates, s.tasks[r.task], r.task in s.pushed, s.now, r);
    }
  }

  /** A refusal is final: in no run after it is the request pushed or recorded, whatever the policy
      becomes. */
  lemma RefusedIsNeverServed(s: State, e: Step, t: nat, es: seq<Step>)
    requires Inv(s) && PushedExactly(s.tasks, s.pushed) && Refuses(s, e, t)
    ensures Ended(Run(Next(s, e), es), t)
  {
    NotBefore(s, t);
    assert Ended(Next(s, e), t);
    EndedStays(Next(s, e), es, t);
  }

  lemma {:induction false} RunConcat(s: State, es: seq<Step>, fs: seq<Step>)
    ensures Run(s, es + fs) == Run(Run(s, es), fs)
    decreases |es|
  {
    if es == [] {
      assert es + fs == fs;
    } else {
      assert (es + fs)[1..] == es[1..] + fs;
      RunConcat(Next(s, es[0]), es[1..], fs);
    }
  }

  lemma RunThree(s: State, es: seq<Step>)
    requires |es| == 3
    ensures Run(s, es) == Next(Next(Next(s, es[0]), es[1]), es[2])
  {
    var a, b := Next(s, es[0]), Next(Next(s, es[0]), es[1]);
    assert Run(s, es) == Run(a, es[1..]);
    assert Run(a, es[1..]) == Run(b, es[1..][1..]);
    assert Run(b, es[1..][1..]) == Run(Next(b, es[2]), es[1..][1..][1..]) && es[1..][1..][1..] == [];
  }

  // ---- The server object ------------------------------------------------------------------

  /** The fields the handlers share. `records`, `mints` and `pushed` are what has happened so
      far, kept for the specification only; `nonces` stands for the source of fresh nonces. */
  class RendezvousServer {
    const gates: Gates
    const hasSecret: bool
    var now: nat
    var policy: Policy
    var tasks: seq<Task>
    var pendingRelay: map<SockAddr, Pending>
    var nonces: nat
    var recordCount: nat
    ghost var records: seq<Record>
    ghost var mints: seq<Mint>
    ghost var pushed: set<nat>

    ghost function View(): State
      reads this
    {
      State(gates, hasSecret, now, policy, tasks, pendingRelay, records, mints, pushed)
    }

    ghost predicate Valid()
      reads this
    {
      nonces == |mints| && recordCount == |records|
    }

    constructor (gates: Gates, hasSecret: bool, policy: Policy)
      ensures Valid() && View() == Init(gates, hasSecret, policy)
    {
      this.gates, this.hasSecret, this.policy := gates, hasSecret, policy;
      now, tasks, pendingRelay, nonces, recordCount := 0, [], map[], 0, 0;
      records, mints, pushed := [], [], {};
    }

    /** The end of the RequestRelay arm: the target has been sent the request; remember it. */
    method RecordRelayRequest(t: nat)
      requires Valid() && InPhase(View(), t, Forwarded, Relay)
      modifies this
      ensures Valid() && View() == Next(old(View()), RecordRelay(t))
      ensures tasks == old(tasks)[t := old(tasks)[t].(phase := Done)]
      ensures now == old(now) && policy == old(policy) && mints == old(mints) && pushed == old(pushed)
      ensures forall key :: Echoes(old(tasks)[t].req.addr, key) ==>
                && key in pendingRelay && pendingRelay[key].target == old(tasks)[t].req.target
                && Attributed(old(tasks)[t].req, pendingRelay[key].source)
                && pendingRelay[key].expires == now + 60 && pendingRelay[key].record == |old(records)|
                && records == old(records) + [Record(t, key, old(tasks)[t].req.target, pendingRelay[key].source, now)]
      ensures forall a :: !Echoes(old(tasks)[t].req.addr, a) ==>
                && (a in pendingRelay <==> a in old(pendingRelay) && old(pendingRelay)[a].expires > now)
                && (a in pendingRelay ==> pendingRelay[a] == old(pendingRelay)[a])
    {
      ghost var before := View();
      ghost var after := Next(before, RecordRelay(t));
      assert after == Move(AddPending(before, t), t, Done);
      var req := tasks[t].req;
      var key := TryIntoV4(req.addr);
      pendingRelay := Sweep(pendingRelay, now);
      pendingRelay := pendingRelay[key := Pending(req.target, SourceOf(req), now + PENDING_RELAY_TTL, recordCount)];
      assert pendingRelay == after.pending;
      recordCount := recordCount + 1;
      records := records + [Record(t, key, req.target, SourceOf(req), now)];
      tasks := tasks[t := tasks[t].(phase := Done)];
      assert View() == after;
    }

    /** The RelayResponse arm. A grant is returned exactly when one was minted, and an entry
        that was there is gone afterwards whether or not the answer earned a grant. */
    method RelayResponse(addr: SockAddr, responder: Option<Proof>) returns (grant: Option<Grant>)
      requires Valid()
      modifies this
      ensures Valid() && View() == Next(old(View()), Respond(addr, responder))
      ensures pendingRelay == old(pendingRelay) - {addr}
      ensures tasks == old(tasks) && now == old(now) && policy == old(policy) && records == old(records) && pushed == old(pushed)
      ensures grant.Some? <==> addr in old(pendingRelay) && hasSecret
                               && (responder.Some? ==> responder.value.peerId == old(pendingRelay)[addr].target)
      ensures grant.None? ==> mints == old(mints)
      ensures grant.Some? ==> grant.value == Grant(|old(mints)|, now + 60)
                              && mints == old(mints) + [Mint(grant.value, old(pendingRelay)[addr].record, responder, now)]
    {
      ghost var before := View();
      ghost var after := OnResponse(before, addr, responder);
      assert after == Next(before, Respond(addr, responder));
      grant := None;
      if addr in pendingRelay {
        var pending := pendingRelay[addr];
        pendingRelay := pendingRelay - {addr};
        assert after.pending == pendingRelay;
        if responder.Some? && responder.value.peerId != pending.target {
          assert View() == after;
          return;
        }
        if hasSecret {
          var g := Grant(nonces, now + RELAY_GRANT_TTL_SECS);
          nonces := nonces + 1;
          mints := mints + [Mint(g, pending.record, responder, now)];
          grant := Some(g);
        }
      }
      assert View() == after;
    }
  }
}
