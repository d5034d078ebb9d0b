/** hbbr's pairing table under every interleaving of its three lock acquisitions: the first
    party to present a grant parks its stream, the next one takes it, and a parked stream is
    dropped by a timer. The remove, the insert and the timed remove are separate steps, so
    any number of connections can be between any two of them. */
module RelayTable {
  import opened Prelude
  import opened RelayGrant

  const PARK_SECS: nat := 30

  /** Where a connection's stream is. Verified and Missing are held by its own task: before
      the remove, and between a remove that found nothing and the insert. */
  datatype Place = Refused | Verified | Missing | Parked | Paired(pair: nat) | Dropped

  /** The timer of the task that parked a stream. */
  datatype Timer = Idle | Sleeping(due: nat) | Fired

  datatype Conn = Conn(grant: Grant, presentedAt: nat, place: Place, timer: Timer)

  datatype Pair = Pair(waiting: nat, joiner: nat, grant: Grant, parksBefore: nat)

  datatype Park = Park(grant: Grant, conn: nat)

  /** `peers` is the PEERS map; `parks` and `pairs` list every insert and every pairing so far. */
  datatype State = State(now: nat, conns: seq<Conn>, peers: map<Grant, nat>, parks: seq<Park>, pairs: seq<Pair>)

  datatype Step =
    | Tick(to: nat)
    | Present(grant: Grant, verified: bool)
    | TakePeer(conn: nat)
    | ParkPeer(conn: nat)
    | ExpirePark(conn: nat)

  const INIT: State := State(0, [], map[], [], [])

  /** The streams after the one parked under a grant, if there is one, is dropped. */
  function DropParked(conns: seq<Conn>, peers: map<Grant, nat>, g: Grant): (r: seq<Conn>)
    ensures |r| == |conns|
  {
    if g in peers && peers[g] < |conns| then conns[peers[g] := conns[peers[g]].(place := Dropped)] else conns
  }

  function Next(s: State, e: Step): State {
    match e
    case Tick(to) => if s.now <= to then s.(now := to) else s
    case Present(g, verified) =>
      s.(conns := s.conns + [Conn(g, s.now, if verified then Verified else Refused, Idle)])
    case TakePeer(c) =>
      if c >= |s.conns| || s.conns[c].place != Verified then s
      else
        var g := s.conns[c].grant;
        if g in s.peers && s.peers[g] < |s.conns| then
          var p := s.peers[g];
          var n := |s.pairs|;
          s.(conns := s.conns[p := s.conns[p].(place := Paired(n))][c := s.conns[c].(place := Paired(n))],
             peers := s.peers - {g}, pairs := s.pairs + [Pair(p, c, g, |s.parks|)])
        else s.(conns := s.conns[c := s.conns[c].(place := Missing)])
    case ParkPeer(c) =>
      if c >= |s.conns| || s.conns[c].place != Missing then s
      else
        var g := s.conns[c].grant;
        var conns := DropParked(s.conns, s.peers, g);
        s.(conns := conns[c := conns[c].(place := Parked, timer := Sleeping(s.now + PARK_SECS))],
           peers := s.peers[g := c], parks := s.parks + [Park(g, c)])
    case ExpirePark(c) =>
      if c >= |s.conns| || !s.conns[c].timer.Sleeping? || s.now < s.conns[c].timer.due then s
      else
        var g := s.conns[c].grant;
        var conns := DropParked(s.conns, s.peers, g);
        s.(conns := conns[c := conns[c].(timer := Fired)], peers := s.peers - {g})
  }

  function Run(s: State, es: seq<Step>): State
    decreases |es|
  {
    if es == [] then s else Run(Next(s, es[0]), es[1..])
  }

  /** The stream most recently parked under a grant. */
  function LastPark(parks: seq<Park>, g: Grant): Option<nat> {
    if parks == [] then None
    else if parks[|parks| - 1].grant == g then Some(parks[|parks| - 1].conn)
    else LastPark(parks[..|parks| - 1], g)
  }

  /** The table holds, under each grant, exactly the stream that is parked under it, and that
      is the one parked last. */
  ghost predicate PeersOk(conns: seq<Conn>, peers: map<Grant, nat>, parks: seq<Park>) {
    && (forall g <- peers ::
          && peers[g] < |conns| && conns[peers[g]].grant == g && conns[peers[g]].place == Parked
          && LastPark(parks, g) == Some(peers[g]))
    && (forall c :: 0 <= c < |conns| && conns[c].place == Parked ==> conns[c].grant in peers && peers[conns[c].grant] == c)
  }

  predicate PairOk(conns: seq<Conn>, parks: seq<Park>, p: Pair, i: nat) {
    && p.waiting < |conns| && p.joiner < |conns| && p.waiting != p.joiner
    && conns[p.waiting].grant == p.grant == conns[p.joiner].grant
    && conns[p.waiting].place == Paired(i) && conns[p.joiner].place == Paired(i)
    && p.parksBefore <= |parks| && LastPark(parks[..p.parksBefore], p.grant) == Some(p.waiting)
  }

  /** A paired stream is one of the two ends of the pair it says it is in. */
  predicate InItsPair(conns: seq<Conn>, pairs: seq<Pair>, c: nat)
    requires c < |conns|
  {
    conns[c].place.Paired? ==>
      var i := conns[c].place.pair; i < |pairs| && (c == pairs[i].waiting || c == pairs[i].joiner)
  }

  ghost predicate PairsOk(conns: seq<Conn>, parks: seq<Park>, pairs: seq<Pair>) {
    && (forall i {:trigger PairOk(conns, parks, pairs[i], i)} :: 0 <= i < |pairs| ==> PairOk(conns, parks, pairs[i], i))
    && (forall c {:trigger InItsPair(conns, pairs, c)} :: 0 <= c < |conns| ==> InItsPair(conns, pairs, c))
  }

  /** A parked stream's own timer is still running. */
  ghost predicate TimersOk(conns: seq<Conn>) {
    forall c :: 0 <= c < |conns| && conns[c].place == Parked ==> conns[c].timer.Sleeping?
  }

  ghost predicate Inv(s: State) {
    PeersOk(s.conns, s.peers, s.parks) && PairsOk(s.conns, s.parks, s.pairs) && TimersOk(s.conns)
  }

  lemma MovingKeepsPairs(conns: seq<Conn>, parks: seq<Park>, pairs: seq<Pair>, c: nat, conn: Conn)
    requires PairsOk(conns, parks, pairs) && c < |conns| && conn.grant == conns[c].grant
    requires conn.place == conns[c].place || (!conn.place.Paired? && !conns[c].place.Paired?)
    ensures PairsOk(conns[c := conn], parks, pairs)
  {
    var conns' := conns[c := conn];
    forall i | 0 <= i < |pairs| ensures PairOk(conns', parks, pairs[i], i) {
      assert PairOk(conns, parks, pairs[i], i);
    }
    forall d | 0 <= d < |conns| ensures InItsPair(conns', pairs, d) {
      assert InItsPair(conns, pairs, d);
    }
  }

  lemma ParkingKeepsPairs(conns: seq<Conn>, parks: seq<Park>, pairs: seq<Pair>, p: Park)
    requires PairsOk(conns, parks, pairs)
    ensures PairsOk(conns, parks + [p], pairs)
  {
    forall i | 0 <= i < |pairs| ensures PairOk(conns, parks + [p], pairs[i], i) {
      assert PairOk(conns, parks, pairs[i], i);
      assert (parks + [p])[..pairs[i].parksBefore] == parks[..pairs[i].parksBefore];
    }
  }

  lemma DroppingKeepsInv(conns: seq<Conn>, peers: map<Grant, nat>, parks: seq<Park>, pairs: seq<Pair>, g: Grant)
    requires PeersOk(conns, peers, parks) && PairsOk(conns, parks, pairs)
    ensures var conns' := DropParked(conns, peers, g);
            PeersOk(conns', peers - {g}, parks) && PairsOk(conns', parks, pairs)
  {
    if g in peers {
      MovingKeepsPairs(conns, parks, pairs, peers[g], conns[peers[g]].(place := Dropped));
    }
  }

  lemma PairingKeepsPairs(conns: seq<Conn>, parks: seq<Park>, pairs: seq<Pair>, p: nat, c: nat)
    requires PairsOk(conns, parks, pairs) && p < |conns| && c < |conns| && p != c
    requires !conns[p].place.Paired? && !conns[c].place.Paired? && conns[p].grant == conns[c].grant
    requires LastPark(parks, conns[c].grant) == Some(p)
    ensures var at := Paired(|pairs|);
            PairsOk(conns[p := conns[p].(place := at)][c := conns[c].(place := at)], parks,
                    pairs + [Pair(p, c, conns[c].grant, |parks|)])
  {
    var at := Paired(|pairs|);
    var conns' := conns[p := conns[p].(place := at)][c := conns[c].(place := at)];
    assert parks[..|parks|] == parks;
    var pairs' := pairs + [Pair(p, c, conns[c].grant, |parks|)];
    forall i | 0 <= i < |pairs'| ensures PairOk(conns', parks, pairs'[i], i) {
      if i < |pairs| { assert PairOk(conns, parks, pairs[i], i); }
    }
    forall d | 0 <= d < |conns| ensures InItsPair(conns', pairs', d) {
      assert InItsPair(conns, pairs, d);
    }
  }

  lemma TakeKeepsInv(s: State, c: nat)
    requires Inv(s) && c < |s.conns| && s.conns[c].place == Verified
    ensures Inv(Next(s, TakePeer(c)))
  {
    var g := s.conns[c].grant;
    if g in s.peers {
      PairingKeepsPairs(s.conns, s.parks, s.pairs, s.peers[g], c);
    } else {
      MovingKeepsPairs(s.conns, s.parks, s.pairs, c, s.conns[c].(place := Missing));
    }
  }

  lemma ParkKeepsInv(s: State, c: nat)
    requires Inv(s) && c < |s.conns| && s.conns[c].place == Missing
    ensures Inv(Next(s, ParkPeer(c)))
  {
    var g := s.conns[c].grant;
    DroppingKeepsInv(s.conns, s.peers, s.parks, s.pairs, g);
    var conns := DropParked(s.conns, s.peers, g);
    var conn := conns[c].(place := Parked, timer := Sleeping(s.now + PARK_SECS));
    MovingKeepsPairs(conns, s.parks, s.pairs, c, conn);
    ParkingKeepsPairs(conns[c := conn], s.parks, s.pairs, Park(g, c));
    ParkingKeepsPeers(conns, s.peers - {g}, s.parks, c, conn);
    assert (s.peers - {g})[g := c] == s.peers[g := c];
  }

  lemma ParkingKeepsPeers(conns: seq<Conn>, peers: map<Grant, nat>, parks: seq<Park>, c: nat, conn: Conn)
    requires PeersOk(conns, peers, parks) && c < |conns| && conn.grant !in peers
    requires conn.grant == conns[c].grant && conn.place == Parked
    ensures PeersOk(conns[c := conn], peers[conn.grant := c], parks + [Park(conn.grant, c)])
  {
    var parks' := parks + [Park(conn.grant, c)];
    assert parks'[..|parks|] == parks;
  }

  lemma ExpireKeepsInv(s: State, c: nat)
    requires Inv(s) && c < |s.conns| && s.conns[c].timer.Sleeping? && s.conns[c].timer.due <= s.now
    ensures Inv(Next(s, ExpirePark(c)))
  {
    var g := s.conns[c].grant;
    DroppingKeepsInv(s.conns, s.peers, s.parks, s.pairs, g);
    var conns := DropParked(s.conns, s.peers, g);
    MovingKeepsPairs(conns, s.parks, s.pairs, c, conns[c].(timer := Fired));
    assert PeersOk(conns[c := conns[c].(timer := Fired)], s.peers - {g}, s.parks);
  }

  lemma PresentKeepsInv(s: State, g: Grant, verified: bool)
    requires Inv(s)
    ensures Inv(Next(s, Present(g, verified)))
  {
    var s' := Next(s, Present(g, verified));
    forall i | 0 <= i < |s.pairs| ensures PairOk(s'.conns, s.parks, s.pairs[i], i) {
      assert PairOk(s.conns, s.parks, s.pairs[i], i);
    }
    forall c | 0 <= c < |s'.conns| ensures InItsPair(s'.conns, s.pairs, c) {
      if c < |s.conns| { assert InItsPair(s.conns, s.pairs, c); }
    }
  }

  /** Every step keeps the invariant, whatever the other connections' tasks have done. */
  lemma NextKeepsInv(s: State, e: Step)
    requires Inv(s)
    ensures Inv(Next(s, e))
  {
    match e
    case Tick(_) =>
    case Present(g, verified) => PresentKeepsInv(s, g, verified);
    case TakePeer(c) => if c < |s.conns| && s.conns[c].place == Verified { TakeKeepsInv(s, c); }
    case ParkPeer(c) => if c < |s.conns| && s.conns[c].place == Missing { ParkKeepsInv(s, c); }
    case ExpirePark(c) =>
      if c < |s.conns| && s.conns[c].timer.Sleeping? && s.conns[c].timer.due <= s.now { ExpireKeepsInv(s, c); }
  }

  /** The invariant holds over every run, and a pair once formed stays as it is. */
  lemma {:induction false} RunKeepsInv(s: State, es: seq<Step>)
    requires Inv(s)
    ensures Inv(Run(s, es)) && s.pairs <= Run(s, es).pairs
    decreases |es|
  {
    if es == [] {
    } else {
      NextKeepsInv(s, es[0]);
      RunKeepsInv(Next(s, es[0]), es[1..]);
    }
  }

  predicate InPair(p: Pair, c: nat) {
    c == p.waiting || c == p.joiner
  }

  /** Over every run: the two ends of a pair are distinct connections that presented the same
      grant, the joiner got the stream parked last under it, and no connection is ever in two
      pairs. */
  lemma PairingIsExclusive(es: seq<Step>)
    ensures var s := Run(INIT, es);
            && (forall i :: 0 <= i < |s.pairs| ==>
                  var p := s.pairs[i];
                  && p.waiting < |s.conns| && p.joiner < |s.conns| && p.waiting != p.joiner
                  && s.conns[p.waiting].grant == p.grant == s.conns[p.joiner].grant
                  && p.parksBefore <= |s.parks|
                  && LastPark(s.parks[..p.parksBefore], p.grant) == Some(p.waiting))
            && (forall i, j, c :: 0 <= i < j < |s.pairs| && InPair(s.pairs[i], c) ==> !InPair(s.pairs[j], c))
  {
    RunKeepsInv(INIT, es);
    var s := Run(INIT, es);
    forall i | 0 <= i < |s.pairs| ensures PairOk(s.conns, s.parks, s.pairs[i], i) {}
  }

  ghost predicate IsParked(s: State, c: nat) {
    exists g <- s.peers :: s.peers[g] == c
  }

  ghost predicate IsPaired(s: State, c: nat) {
    exists i :: 0 <= i < |s.pairs| && InPair(s.pairs[i], c)
  }

  /** Over every run: a verified connection whose task is past its table steps is in exactly one
      place, parked in the table, in a pair, or dropped; and no other connection is in the table
      or in a pair. */
  lemma EveryStreamInOnePlace(es: seq<Step>, c: nat)
    requires c < |Run(INIT, es).conns|
    ensures var s := Run(INIT, es);
            var place := s.conns[c].place;
            && (IsParked(s, c) <==> place == Parked)
            && (IsPaired(s, c) <==> place.Paired?)
            && (place !in {Refused, Verified, Missing} ==>
                  || (IsParked(s, c) && !IsPaired(s, c) && place != Dropped)
                  || (!IsParked(s, c) && IsPaired(s, c) && place != Dropped)
                  || (!IsParked(s, c) && !IsPaired(s, c) && place == Dropped))
  {
    RunKeepsInv(INIT, es);
    var s := Run(INIT, es);
    assert InItsPair(s.conns, s.pairs, c);
    if IsPaired(s, c) {
      var i :| 0 <= i < |s.pairs| && InPair(s.pairs[i], c);
      assert PairOk(s.conns, s.parks, s.pairs[i], i);
    }
    if s.conns[c].place.Paired? { assert InPair(s.pairs[s.conns[c].place.pair], c); }
    if s.conns[c].place == Parked { assert s.peers[s.conns[c].grant] == c; }
  }

  /** Over every run: when no timer is overdue, no stream has been parked for PARK_SECS. */
  lemma NothingStaysParked(es: seq<Step>)
    ensures var s := Run(INIT, es);
            (forall c :: 0 <= c < |s.conns| && s.conns[c].timer.Sleeping? ==> s.now < s.conns[c].timer.due) ==>
            forall g <- s.peers ::
              && s.peers[g] < |s.conns|
              && s.conns[s.peers[g]].timer.Sleeping? && s.now < s.conns[s.peers[g]].timer.due
  {
    RunKeepsInv(INIT, es);
  }

  // ---- Streams dropped early --------------------------------------------------------------

  predicate ParkedUnder(s: State, g: Grant, c: nat) {
    g in s.peers && s.peers[g] == c && c < |s.conns| && s.conns[c].grant == g && s.conns[c].timer.Sleeping?
  }

  /** The step takes from or parks under this grant. */
  predicate ActsUnder(s: State, e: Step, g: Grant) {
    || (e.TakePeer? && e.conn < |s.conns| && s.conns[e.conn].place == Verified && s.conns[e.conn].grant == g)
    || (e.ParkPeer? && e.conn < |s.conns| && s.conns[e.conn].place == Missing && s.conns[e.conn].grant == g)
  }

  predicate Quiet(s: State, es: seq<Step>, g: Grant)
    decreases |es|
  {
    es == [] || (!ActsUnder(s, es[0], g) && Quiet(Next(s, es[0]), es[1..], g))
  }

  /** Another connection's timer, left from a stream it parked under the same grant before, that is due
      first. */
  predicate EarlierTimer(s: State, g: Grant, c: nat, other: nat)
    requires c < |s.conns| && s.conns[c].timer.Sleeping?
  {
    && other < |s.conns| && other != c && s.conns[other].grant == g
    && s.conns[other].timer.Sleeping? && s.conns[other].timer.due < s.conns[c].timer.due
  }

  /** A quiet step leaves the stream parked with its timer, or is a timer of the grant that is due. */
  lemma QuietStep(s: State, e: Step, g: Grant, c: nat)
    requires ParkedUnder(s, g, c) && !ActsUnder(s, e, g)
    ensures var s' := Next(s, e);
            || (ParkedUnder(s', g, c) && s'.conns[c].timer == s.conns[c].timer)
            || (e.ExpirePark? && e.conn < |s.conns| && s.conns[e.conn].grant == g
                && s.conns[e.conn].timer.Sleeping? && s.conns[e.conn].timer.due <= s.now)
  {}

  /** Timers under the grant are only ever used up. */
  lemma QuietTimers(s: State, e: Step, g: Grant, c: nat)
    requires !ActsUnder(s, e, g) && c < |Next(s, e).conns|
    requires Next(s, e).conns[c].grant == g && Next(s, e).conns[c].timer.Sleeping?
    ensures c < |s.conns| && s.conns[c].grant == g && s.conns[c].timer == Next(s, e).conns[c].timer
  {}

  lemma {:induction false} ClockOnlyMovesOn(s: State, es: seq<Step>)
    ensures s.now <= Run(s, es).now
    decreases |es|
  {
    if es == [] {
    } else {
      ClockOnlyMovesOn(Next(s, es[0]), es[1..]);
    }
  }

  /** The stream under g is no longer in the table, before its own timer is due. */
  predicate DroppedEarly(s: State, es: seq<Step>, g: Grant, due: nat) {
    g !in Run(s, es).peers && Run(s, es).now < due
  }

  lemma {:induction false} EarlyDropNeedsTimer(s: State, es: seq<Step>, g: Grant, c: nat) returns (other: nat)
    requires ParkedUnder(s, g, c) && Quiet(s, es, g) && DroppedEarly(s, es, g, s.conns[c].timer.due)
    ensures s.now < s.conns[c].timer.due && EarlierTimer(s, g, c, other)
    decreases |es|
  {
    var s1 := Next(s, es[0]);
    ClockOnlyMovesOn(s, es);
    QuietStep(s, es[0], g, c);
    if ParkedUnder(s1, g, c) && s1.conns[c].timer == s.conns[c].timer {
      other := EarlyDropNeedsTimer(s1, es[1..], g, c);
      QuietTimers(s, es[0], g, other);
    } else {
      other := es[0].conn;
    }
  }

  /** Apart from being taken or replaced, a parked stream can be dropped before its own time if and only
      if an earlier stream under the same grant left a timer that is due first. */
  lemma EarlyDropIff(s: State, g: Grant, c: nat)
    requires ParkedUnder(s, g, c)
    ensures (exists es :: Quiet(s, es, g) && DroppedEarly(s, es, g, s.conns[c].timer.due))
       <==> s.now < s.conns[c].timer.due && exists other: nat :: EarlierTimer(s, g, c, other)
  {
    if es :| Quiet(s, es, g) && DroppedEarly(s, es, g, s.conns[c].timer.due) {
      var other := EarlyDropNeedsTimer(s, es, g, c);
    }
    if other: nat :| s.now < s.conns[c].timer.due && EarlierTimer(s, g, c, other) {
      var due := s.conns[other].timer.due;
      var tick, expire := Tick(if due < s.now then s.now else due), ExpirePark(other);
      var s1 := Next(s, tick);
      RunTwo(s, tick, expire);
      assert g !in Next(s1, expire).peers;
      assert [tick, expire][1..] == [expire] && [expire][1..] == [];
      assert Quiet(s1, [expire], g) && Quiet(s, [tick, expire], g);
      assert DroppedEarly(s, [tick, expire], g, s.conns[c].timer.due);
    }
  }

  lemma RunTwo(s: State, a: Step, b: Step)
    ensures Run(s, [a, b]) == Next(Next(s, a), b)
  {
    RunCons(s, a, [b]);
    RunCons(Next(s, a), b, []);
    assert [a] + [b] == [a, b] && [b] + [] == [b];
  }

  // ---- Several pairs under one grant ------------------------------------------------------

  /** One connection parks a stream, a second one takes it. */
  function PairUp(g: Grant, n: nat): seq<Step> {
    [Present(g, true), TakePeer(n), ParkPeer(n), Present(g, true), TakePeer(n + 1)]
  }

  lemma PairUpOnce(s: State, g: Grant)
    requires g !in s.peers
    ensures var z := Run(s, PairUp(g, |s.conns|));
            g !in z.peers && z.now == s.now && |z.pairs| == |s.pairs| + 1 && s.pairs <= z.pairs && z.pairs[|s.pairs|].grant == g
  {
    var n := |s.conns|;
    var s1 := Next(s, Present(g, true));
    var s2 := Next(s1, TakePeer(n));
    assert s2.conns[n].place == Missing && s2.peers == s.peers;
    var s3 := Next(s2, ParkPeer(n));
    assert s3.peers == s.peers[g := n] && |s3.conns| == n + 1;
    var s4 := Next(s3, Present(g, true));
    assert s4.conns[n + 1].place == Verified && s4.conns[n + 1].grant == g;
    var s5 := Next(s4, TakePeer(n + 1));
    assert s5.pairs == s.pairs + [Pair(n, n + 1, g, |s4.parks|)];
    RunFive(s, Present(g, true), TakePeer(n), ParkPeer(n), Present(g, true), TakePeer(n + 1));
  }

  lemma RunFive(s: State, a: Step, b: Step, c: Step, d: Step, e: Step)
    ensures Run(s, [a, b, c, d, e]) == Next(Next(Next(Next(Next(s, a), b), c), d), e)
  {
    RunCons(s, a, [b, c, d, e]);
    RunCons(Next(s, a), b, [c, d, e]);
    RunCons(Next(Next(s, a), b), c, [d, e]);
    RunCons(Next(Next(Next(s, a), b), c), d, [e]);
    RunCons(Next(Next(Next(Next(s, a), b), c), d), e, []);
    assert [a] + [b, c, d, e] == [a, b, c, d, e] && [b] + [c, d, e] == [b, c, d, e] && [c] + [d, e] == [c, d, e];
    assert [d] + [e] == [d, e] && [e] + [] == [e];
  }

  lemma RunCons(s: State, e: Step, es: seq<Step>)
    ensures Run(s, [e] + es) == Run(Next(s, e), es)
  {
    assert ([e] + es)[1..] == es;
  }

  lemma {:induction false} RunConcat(s: State, es: seq<Step>, fs: seq<Step>)
    ensures Run(s, es + fs) == Run(Run(s, es), fs)
    decreases |es|
  {
    if es == [] {
      assert es + fs == fs;
    } else {
      assert (es + fs)[1..] == es[1..] + fs;
      RunConcat(Next(s, es[0]), es[1..], fs);
    }
  }

  /** A grant is not used up by a pair: while it verifies, any number of pairs can be formed under it,
      all at one instant. */
  lemma {:induction false} ManyPairsUnderOneGrant(g: Grant, k: nat) returns (es: seq<Step>)
    ensures var z := Run(INIT, es);
            |z.pairs| == k && g !in z.peers && z.now == 0 && forall i :: 0 <= i < k ==> z.pairs[i].grant == g
  {
    if k == 0 {
      es := [];
    } else {
      var before := ManyPairsUnderOneGrant(g, k - 1);
      var s := Run(INIT, before);
      es := before + PairUp(g, |s.conns|);
      PairUpOnce(s, g);
      RunConcat(INIT, before, PairUp(g, |s.conns|));
    }
  }

  /** Two streams pair, and ten seconds later a third is parked under the same grant. */
  function ParkAgain(g: Grant): seq<Step> {
    [Tick(10), Present(g, true), TakePeer(2), ParkPeer(2)]
  }

  lemma PairUpLeavesTimer(g: Grant)
    ensures var z := Run(INIT, PairUp(g, 0));
            && z.now == 0 && z.peers == map[] && |z.conns| == 2
            && z.conns[0].grant == g && z.conns[0].timer == Sleeping(PARK_SECS)
  {
    var s1 := Next(INIT, Present(g, true));
    var s2 := Next(s1, TakePeer(0));
    assert s2.conns[0].place == Missing && s2.peers == map[] && |s2.conns| == 1;
    var s3 := Next(s2, ParkPeer(0));
    assert s3.peers == map[g := 0] && s3.conns[0].timer == Sleeping(PARK_SECS) && s3.conns[0].place == Parked && |s3.conns| == 1;
    var s4 := Next(s3, Present(g, true));
    assert s4.conns[1].place == Verified && s4.conns[1].grant == g && s4.conns[0] == s3.conns[0];
    var s5 := Next(s4, TakePeer(1));
    assert s5.peers == map[] && |s5.conns| == 2;
    RunFive(INIT, Present(g, true), TakePeer(0), ParkPeer(0), Present(g, true), TakePeer(1));
  }

  /** So a stream really can lose its place early: from the start, the first stream's timer is still running
      when the third is parked under the grant. */
  lemma EarlyDropHappens(g: Grant)
    ensures var s := Run(INIT, PairUp(g, 0) + ParkAgain(g));
            && ParkedUnder(s, g, 2) && EarlierTimer(s, g, 2, 0)
            && exists es :: Quiet(s, es, g) && DroppedEarly(s, es, g, s.conns[2].timer.due)
  {
    var s := Run(INIT, PairUp(g, 0));
    PairUpLeavesTimer(g);
    RunConcat(INIT, PairUp(g, 0), ParkAgain(g));
    var s2 := Next(Next(s, Tick(10)), Present(g, true));
    assert s2.now == 10 && s2.peers == map[] && s2.conns == s.conns + [s2.conns[2]] && s2.conns[2].grant == g && s2.conns[2].place == Verified;
    var s3 := Next(s2, TakePeer(2));
    assert s3.conns[2].place == Missing && s3.conns[0] == s.conns[0] && s3.peers == map[];
    var s4 := Next(s3, ParkPeer(2));
    assert s4.conns[0] == s.conns[0] && s4.conns[2].timer == Sleeping(10 + PARK_SECS) && s4.peers == map[g := 2];
    assert ParkAgain(g) == [Tick(10)] + ([Present(g, true)] + ([TakePeer(2), ParkPeer(2)]));
    RunCons(s, Tick(10), [Present(g, true)] + [TakePeer(2), ParkPeer(2)]);
    RunCons(Next(s, Tick(10)), Present(g, true), [TakePeer(2), ParkPeer(2)]);
    RunTwo(s2, TakePeer(2), ParkPeer(2));
    assert EarlierTimer(s4, g, 2, 0);
    EarlyDropIff(s4, g, 2);
  }

  /** hbbr's shared table, one method per lock acquisition of make_pair_. The calls of different
      connections may come in any order. */
  class PairingTable {
    var now: nat
    var conns: seq<Conn>
    var peers: map<Grant, nat>
    ghost var parks: seq<Park>
    ghost var pairs: seq<Pair>
    var pairCount: nat

    ghost function View(): State
      reads this
    {
      State(now, conns, peers, parks, pairs)
    }

    ghost predicate Valid()
      reads this
    {
      Inv(View()) && pairCount == |pairs|
    }

    constructor ()
      ensures Valid() && View() == INIT
    {
      now, conns, peers, pairCount := 0, [], map[], 0;
      parks, pairs := [], [];
    }

    /** `PEERS.remove(uuid)`: the stream that was waiting, now paired with this one. */
    method TakePeer(c: nat) returns (peer: Option<nat>)
      requires Valid() && c < |conns| && conns[c].place == Verified
      modifies this
      ensures Valid() && View() == Next(old(View()), Step.TakePeer(c))
      ensures peer == old(if conns[c].grant in peers then Some(peers[conns[c].grant]) else None) && peer != Some(c)
      ensures peers == old(peers) - {old(conns)[c].grant} && now == old(now) && parks == old(parks) && |conns| == |old(conns)|
      ensures peer.None? ==> pairs == old(pairs) && conns == old(conns)[c := old(conns)[c].(place := Missing)]
      ensures peer.Some? ==>
                && pairs == old(pairs) + [Pair(peer.value, c, old(conns)[c].grant, |parks|)]
                && forall i :: 0 <= i < |conns| ==>
                     conns[i] == if i == c || i == peer.value then old(conns)[i].(place := Paired(|old(pairs)|)) else old(conns)[i]
    {
      TakeKeepsInv(View(), c);
      var g := conns[c].grant;
      if g in peers {
        var p := peers[g];
        peer := Some(p);
        peers := peers - {g};
        conns := conns[p := conns[p].(place := Paired(pairCount))][c := conns[c].(place := Paired(pairCount))];
        pairs := pairs + [Pair(p, c, g, |parks|)];
        pairCount := pairCount + 1;
      } else {
        peer := None;
        conns := conns[c := conns[c].(place := Missing)];
      }
    }

    /** `PEERS.insert(uuid, stream)`: a stream already there under the grant is dropped. */
    method ParkPeer(c: nat)
      requires Valid() && c < |conns| && conns[c].place == Missing
      modifies this
      ensures Valid() && View() == Next(old(View()), Step.ParkPeer(c))
      ensures var g := old(conns)[c].grant;
              && peers == old(peers)[g := c] && parks == old(parks) + [Park(g, c)] && pairs == old(pairs) && now == old(now)
              && |conns| == |old(conns)|
              && forall i :: 0 <= i < |conns| ==>
                   conns[i] == if i == c then old(conns)[i].(place := Parked, timer := Sleeping(now + 30))
                               else if g in old(peers) && i == old(peers)[g] then old(conns)[i].(place := Dropped)
                               else old(conns)[i]
    {
      ParkKeepsInv(View(), c);
      var g := conns[c].grant;
      if g in peers {
        conns := conns[peers[g] := conns[peers[g]].(place := Dropped)];
      }
      conns := conns[c := conns[c].(place := Parked, timer := Sleeping(now + PARK_SECS))];
      peers := peers[g := c];
      parks := parks + [Park(g, c)];
    }

    /** The second `PEERS.remove(uuid)`, when the timer fires: whatever is parked under the
        grant by then is dropped. */
    method ExpirePark(c: nat)
      requires Valid() && c < |conns| && conns[c].timer.Sleeping? && conns[c].timer.due <= now
      modifies this
      ensures Valid() && View() == Next(old(View()), Step.ExpirePark(c))
      ensures var g := old(conns)[c].grant;
              && peers == old(peers) - {g} && parks == old(parks) && pairs == old(pairs) && now == old(now)
              && |conns| == |old(conns)|
              && forall i :: 0 <= i < |conns| ==>
                   && conns[i].place == (if g in old(peers) && i == old(peers)[g] then Dropped else old(conns)[i].place)
                   && conns[i].timer == (if i == c then Fired else old(conns)[i].timer)
                   && conns[i].grant == old(conns)[i].grant && conns[i].presentedAt == old(conns)[i].presentedAt
    {
      ExpireKeepsInv(View(), c);
      var g := conns[c].grant;
      if g in peers {
        conns := conns[peers[g] := conns[peers[g]].(place := Dropped)];
        peers := peers - {g};
      }
      conns := conns[c := conns[c].(timer := Fired)];
    }
  }
}
