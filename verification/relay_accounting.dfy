/** Relayed bytes, from the relay's forwarding loop to the dashboard: what one session's loop reports,
    and how the reports are folded into per-session, per-peer and fleet totals. */
module RelayAccounting {
  import opened Prelude
  import opened Seqs

  // ---- The forwarding loop of one session -------------------------------------------------

  /** downgrade threshold in bit/ms, and the time in ms before it is looked at. */
  datatype Limits = Limits(threshold: nat, startCheck: nat)

  /** What woke the loop: bytes from either side (and whether sending them on worked), the end of
      either stream, or the timer with the seconds since the last bytes. */
  datatype Wake = FromPeer(len: nat, sendOk: bool) | FromStream(len: nat, sendOk: bool) | Closed | Timer(idle: nat)

  /** One turn of the loop: what woke it, the ms since the last sample, and whether the address is on the
      block list at that time. */
  datatype Turn = Turn(wake: Wake, ms: nat, blocked: bool)

  /** A sample in the usage table. */
  datatype Usage = Usage(elapsed: nat, total: nat, highest: nat, speed: nat)

  datatype Loop = Loop(total: nat, totalS: nat, elapsed: nat, highest: nat, downgrade: bool, usage: seq<Usage>, open: bool)

  const FRESH := Loop(0, 0, 0, 0, false, [], true)

  const TIMEOUT_SECS: nat := 30
  const SAMPLE_MS: nat := 1_000

  function Carry(s: Loop, len: nat, sendOk: bool): Loop {
    s.(total := s.total + len * 8, totalS := s.totalS + len * 8, open := len == 0 || sendOk)
  }

  function Woken(s: Loop, w: Wake): Loop {
    match w
    case FromPeer(len, ok) => Carry(s, len, ok)
    case FromStream(len, ok) => Carry(s, len, ok)
    case Closed => s.(open := false)
    case Timer(idle) => if idle > TIMEOUT_SECS then s.(open := false) else s
  }

  function Sampled(c: Limits, s: Loop, ms: nat): Loop
    requires ms > 0
  {
    var speed := s.totalS / ms;
    var highest := if speed > s.highest then speed else s.highest;
    var u := Usage(s.elapsed + ms, s.total, highest, speed);
    s.(highest := highest, elapsed := u.elapsed, totalS := 0, usage := s.usage + [u], downgrade := s.downgrade || Over(c, u))
  }

  /** A sample at which the session is over the threshold. */
  predicate Over(c: Limits, u: Usage) {
    u.elapsed > c.startCheck && u.total > u.elapsed * c.threshold
  }

  function Turned(c: Limits, s: Loop, t: Turn): Loop {
    if !s.open then s
    else
      var woken := Woken(s, t.wake);
      if !woken.open || t.ms < SAMPLE_MS then woken
      else if t.blocked then woken.(open := false)
      else Sampled(c, woken, t.ms)
  }

  /** The loop after its first n turns. */
  function AfterTurns(c: Limits, ts: seq<Turn>, n: nat): Loop
    requires n <= |ts|
  {
    if n == 0 then FRESH else Turned(c, AfterTurns(c, ts, n - 1), ts[n - 1])
  }

  function RunLoop(c: Limits, ts: seq<Turn>): Loop {
    AfterTurns(c, ts, |ts|)
  }

  // ---- What the turns alone say -----------------------------------------------------------

  /** The turn ends the session: a failed send, a closed stream, more than 30 seconds of silence, or a
      block found when a second is over. */
  predicate Ends(t: Turn) {
    || (t.ms >= 1000 && t.blocked)
    || match t.wake
       case FromPeer(len, ok) => len > 0 && !ok
       case FromStream(len, ok) => len > 0 && !ok
       case Closed => true
       case Timer(idle) => idle > 30
  }

  /** The session is still on after its first n turns. */
  predicate GoesOn(ts: seq<Turn>, n: nat)
    requires n <= |ts|
  {
    forall k :: 0 <= k < n ==> !Ends(ts[k])
  }

  /** The bytes a turn sends on, from either side to the other. */
  function SentBy(t: Turn): nat {
    match t.wake
    case FromPeer(len, true) => len
    case FromStream(len, true) => len
    case _ => 0
  }

  /** The bytes sent on in the first n turns, up to the end of the session. */
  function Forwarded(ts: seq<Turn>, n: nat): nat
    requires n <= |ts|
  {
    if n == 0 then 0 else Forwarded(ts, n - 1) + if GoesOn(ts, n - 1) then SentBy(ts[n - 1]) else 0
  }

  predicate SampledAt(ts: seq<Turn>, k: nat)
    requires k < |ts|
  {
    GoesOn(ts, k + 1) && ts[k].ms >= 1000
  }

  /** The turns, of the first n, at which a sample is taken. */
  function SampleTurns(ts: seq<Turn>, n: nat): (at: seq<nat>)
    requires n <= |ts|
    ensures forall i :: 0 <= i < |at| ==> at[i] < n
  {
    if n == 0 then [] else SampleTurns(ts, n - 1) + if SampledAt(ts, n - 1) then [n - 1] else []
  }

  /** The ms that the samples of the first n turns cover. */
  function Elapsed(ts: seq<Turn>, n: nat): nat
    requires n <= |ts|
  {
    if n == 0 then 0 else Elapsed(ts, n - 1) + if SampledAt(ts, n - 1) then ts[n - 1].ms else 0
  }

  /** How many of the first n turns the samples among them cover. */
  function Covered(ts: seq<Turn>, n: nat): (m: nat)
    requires n <= |ts|
    ensures m <= n
  {
    if n == 0 then 0 else if SampledAt(ts, n - 1) then n else Covered(ts, n - 1)
  }

  /** The sample of turn k: eight times all bytes sent on by then, and as its speed the bits sent on since
      the sample before it, over the ms since then. */
  predicate IsSampleOf(ts: seq<Turn>, k: nat, u: Usage)
    requires k < |ts| && ts[k].ms > 0
  {
    && u.total == 8 * Forwarded(ts, k + 1) && u.elapsed == Elapsed(ts, k + 1)
    && u.speed == 8 * (Forwarded(ts, k + 1) - Forwarded(ts, Covered(ts, k))) / ts[k].ms
  }

  predicate SamplesExact(ts: seq<Turn>, n: nat, us: seq<Usage>)
    requires n <= |ts|
  {
    && |us| == |SampleTurns(ts, n)|
    && forall i {:trigger us[i]} :: 0 <= i < |us| ==> var k := SampleTurns(ts, n)[i]; ts[k].ms >= 1000 && IsSampleOf(ts, k, us[i])
  }

  /** A sample comes at least a second after the one before it, with no fewer bytes; its peak is the larger
      of the last peak and its own speed. */
  predicate Follows(us: seq<Usage>, u: Usage) {
    if us == [] then u.elapsed >= 1000 && u.highest == u.speed
    else
      var last := us[|us| - 1];
      && u.elapsed >= last.elapsed + 1000 && u.total >= last.total
      && u.highest == if u.speed > last.highest then u.speed else last.highest
  }

  predicate WellSampled(us: seq<Usage>) {
    us == [] || (WellSampled(us[..|us| - 1]) && Follows(us[..|us| - 1], us[|us| - 1]))
  }

  predicate EverOver(c: Limits, us: seq<Usage>) {
    us != [] && (EverOver(c, us[..|us| - 1]) || Over(c, us[|us| - 1]))
  }

  // ---- The loop as it runs ----------------------------------------------------------------

  /** The select arms: the counters move with every chunk received. */
  method Select(ghost s: Loop, w: Wake, total: nat, totalS: nat) returns (total': nat, totalS': nat, goesOn: bool)
    requires s.total == total && s.totalS == totalS && s.open
    ensures Woken(s, w) == s.(total := total', totalS := totalS', open := goesOn)
  {
    total', totalS', goesOn := total, totalS, true;
    match w
    case FromPeer(len, ok) =>
      total', totalS' := total + len * 8, totalS + len * 8;
      if len > 0 && !ok { goesOn := false; }
    case FromStream(len, ok) =>
      total', totalS' := total + len * 8, totalS + len * 8;
      if len > 0 && !ok { goesOn := false; }
    case Closed => goesOn := false;
    case Timer(idle) => goesOn := idle <= TIMEOUT_SECS;
  }

  /** The sampling block. */
  method TakeSample(c: Limits, ghost s: Loop, n: nat, total: nat, totalS: nat, elapsed: nat, highest: nat, downgrade: bool)
      returns (u: Usage, downgrade': bool)
    requires n > 0 && s.total == total && s.totalS == totalS && s.elapsed == elapsed && s.highest == highest && s.downgrade == downgrade
    ensures Sampled(c, s, n)
         == s.(highest := u.highest, elapsed := u.elapsed, totalS := 0, usage := s.usage + [u], downgrade := downgrade')
  {
    var speed := totalS / n;
    var peak := if speed > highest then speed else highest;
    u := Usage(elapsed + n, total, peak, speed);
    downgrade' := downgrade;
    if u.elapsed > c.startCheck && !downgrade && total > u.elapsed * c.threshold { downgrade' := true; }
  }

  /** The loop with its local variables; `usage` is what it wrote to the usage table, in order: a sample for
      every second that the session lasts, of exactly the bytes sent on. */
  method Relay(c: Limits, turns: seq<Turn>) returns (usage: seq<Usage>, downgrade: bool)
    ensures usage == RunLoop(c, turns).usage && downgrade == RunLoop(c, turns).downgrade
    ensures SamplesExact(turns, |turns|, usage) && WellSampled(usage)
    ensures downgrade <==> EverOver(c, usage)
  {
    LoopReportsExactly(c, turns, |turns|);
    var total: nat, totalS: nat, elapsed: nat, highest: nat := 0, 0, 0, 0;
    var i := 0;
    downgrade, usage := false, [];
    ghost var s := FRESH;
    while i < |turns|
      invariant i <= |turns| && s == AfterTurns(c, turns, i)
      invariant s == Loop(total, totalS, elapsed, highest, downgrade, usage, true)
    {
      if !AfterTurns(c, turns, i + 1).open { EndsThere(c, turns, i + 1, |turns|); }
      var goesOn;
      ghost var woken := Woken(s, turns[i].wake);
      total, totalS, goesOn := Select(s, turns[i].wake, total, totalS);
      if !goesOn { return; }
      var n := turns[i].ms;
      if n >= SAMPLE_MS {
        if turns[i].blocked { return; }
        var u;
        u, downgrade := TakeSample(c, woken, n, total, totalS, elapsed, highest, downgrade);
        elapsed, highest, totalS, usage := u.elapsed, u.highest, 0, usage + [u];
      }
      s := Turned(c, s, turns[i]);
      i := i + 1;
    }
  }

  /** Once ended, the loop does nothing more. */
  lemma {:induction false} EndsThere(c: Limits, ts: seq<Turn>, i: nat, n: nat)
    requires i <= n <= |ts| && !AfterTurns(c, ts, i).open
    ensures AfterTurns(c, ts, n) == AfterTurns(c, ts, i)
  {
    if i < n { EndsThere(c, ts, i, n - 1); }
  }

  /** The loop's state after n turns, by the turns alone. */
  predicate LoopExact(c: Limits, ts: seq<Turn>, n: nat, z: Loop)
    requires n <= |ts|
  {
    && (z.open <==> GoesOn(ts, n))
    && (z.open ==> z.total == 8 * Forwarded(ts, n) && z.totalS == 8 * (Forwarded(ts, n) - Forwarded(ts, Covered(ts, n))))
    && z.elapsed == Elapsed(ts, n)
    && SamplesExact(ts, n, z.usage) && WellSampled(z.usage)
    && (z.downgrade <==> EverOver(c, z.usage))
    && if z.usage == [] then z.elapsed == z.highest == 0
       else
         var last := z.usage[|z.usage| - 1];
         z.elapsed == last.elapsed && z.highest == last.highest && last.total <= z.total
  }

  /** For every session: the loop is on exactly while no turn has ended it; a sample is taken at each turn
      that completes a second, of exactly eight times the bytes sent on by then in both directions and
      the speed since the sample before; samples never go back, the peak is the largest speed so far,
      and the session is downgraded for good exactly if some sample was over the threshold. */
  lemma {:induction false} LoopReportsExactly(c: Limits, ts: seq<Turn>, n: nat)
    requires n <= |ts|
    ensures LoopExact(c, ts, n, AfterTurns(c, ts, n))
  {
    if n == 0 {
    } else {
      var s := AfterTurns(c, ts, n - 1);
      LoopReportsExactly(c, ts, n - 1);
      OnAfter(ts, n);
      if !s.open {
        StaysEnded(c, ts, n, s);
      } else {
        TurnedExact(c, ts, n, s);
      }
    }
  }

  lemma OnAfter(ts: seq<Turn>, n: nat)
    requires 0 < n <= |ts|
    ensures GoesOn(ts, n) <==> GoesOn(ts, n - 1) && !Ends(ts[n - 1])
  {}

  lemma StaysEnded(c: Limits, ts: seq<Turn>, n: nat, s: Loop)
    requires 0 < n <= |ts| && LoopExact(c, ts, n - 1, s) && !s.open
    ensures LoopExact(c, ts, n, s)
  {
    SameSamples(ts, n, s.usage);
  }

  lemma SameSamples(ts: seq<Turn>, n: nat, us: seq<Usage>)
    requires 0 < n <= |ts| && !SampledAt(ts, n - 1) && SamplesExact(ts, n - 1, us)
    ensures SamplesExact(ts, n, us)
  {
    var at := SampleTurns(ts, n);
    assert at == SampleTurns(ts, n - 1);
    forall i | 0 <= i < |us| ensures ts[at[i]].ms >= 1000 && IsSampleOf(ts, at[i], us[i]) {
      assert us[i] == us[i];
    }
  }

  lemma TurnedExact(c: Limits, ts: seq<Turn>, n: nat, s: Loop)
    requires 0 < n <= |ts| && LoopExact(c, ts, n - 1, s) && s.open
    ensures LoopExact(c, ts, n, Turned(c, s, ts[n - 1]))
  {
    var t, woken := ts[n - 1], Woken(s, ts[n - 1].wake);
    OnAfter(ts, n);
    WokenExact(ts, n, s);
    if woken.open && t.ms >= SAMPLE_MS && !t.blocked {
      SampleExact(c, ts, n, s, woken);
    } else {
      SameSamples(ts, n, s.usage);
    }
  }

  lemma WokenExact(ts: seq<Turn>, n: nat, s: Loop)
    requires 0 < n <= |ts| && s.open && GoesOn(ts, n - 1)
    ensures var t, woken := ts[n - 1], Woken(s, ts[n - 1].wake);
            && (Ends(t) <==> !woken.open || (t.ms >= SAMPLE_MS && t.blocked))
            && woken == s.(total := woken.total, totalS := woken.totalS, open := woken.open)
            && woken.total >= s.total
            && (woken.open ==> Forwarded(ts, n) == Forwarded(ts, n - 1) + SentBy(t)
                               && woken.total == s.total + 8 * SentBy(t) && woken.totalS == s.totalS + 8 * SentBy(t))
  {}

  lemma SampleExact(c: Limits, ts: seq<Turn>, n: nat, s: Loop, woken: Loop)
    requires 0 < n <= |ts| && LoopExact(c, ts, n - 1, s) && s.open && SampledAt(ts, n - 1)
    requires woken == s.(total := woken.total, totalS := woken.totalS) && woken.total >= s.total
    requires woken.total == 8 * Forwarded(ts, n) && woken.totalS == 8 * (Forwarded(ts, n) - Forwarded(ts, Covered(ts, n - 1)))
    ensures LoopExact(c, ts, n, Sampled(c, woken, ts[n - 1].ms))
  {
    var z := Sampled(c, woken, ts[n - 1].ms);
    var u := z.usage[|s.usage|];
    assert z.usage[..|s.usage|] == s.usage;
    assert IsSampleOf(ts, n - 1, u);
    OneMoreSample(ts, n, s.usage, u);
  }

  lemma OneMoreSample(ts: seq<Turn>, n: nat, us: seq<Usage>, u: Usage)
    requires 0 < n <= |ts| && SampledAt(ts, n - 1) && SamplesExact(ts, n - 1, us) && IsSampleOf(ts, n - 1, u)
    ensures SamplesExact(ts, n, us + [u])
  {
    var at := SampleTurns(ts, n - 1);
    assert SampleTurns(ts, n) == at + [n - 1];
    forall i | 0 <= i < |us| + 1
      ensures var k := SampleTurns(ts, n)[i]; ts[k].ms >= 1000 && IsSampleOf(ts, k, (us + [u])[i])
    {
      if i < |us| { assert SampleTurns(ts, n)[i] == at[i] && us[i] == (us + [u])[i]; }
    }
  }

  lemma {:induction false} SamplesInOrder(us: seq<Usage>, j: nat, k: nat)
    requires WellSampled(us) && j <= k < |us|
    ensures us[j].total <= us[k].total && us[j].speed <= us[k].highest
  {
    var init := us[..|us| - 1];
    if k < |init| {
      SamplesInOrder(init, j, k);
    } else if j < k {
      SamplesInOrder(init, j, k - 1);
    }
  }

  // ---- The dashboard's table of relayed sessions ------------------------------------------

  const RELAY_SESSION_MEMORY: nat := 256

  datatype Row = Row(
    session: string, source: string, target: string, brokeredAt: nat,
    bytes: nat, kbps: nat, peakKbps: nat, seconds: nat, lastSampleAt: Option<nat>, live: bool)

  /** What one line of the relay's report says. */
  datatype Sample = Sample(session: string, bytes: nat, kbps: nat, peakKbps: nat, ms: nat)

  datatype Store = Store(rows: seq<Row>, total: nat, peers: map<string, nat>)

  const EMPTY := Store([], 0, map[])

  /** The order of eviction: ended rows first, then the oldest brokered. */
  predicate Before(a: Row, b: Row) {
    (!a.live && b.live) || (a.live == b.live && a.brokeredAt < b.brokeredAt)
  }

  /** Of the first n rows, the first that no other precedes. */
  function VictimAmong(rows: seq<Row>, n: nat): (i: nat)
    requires 0 < n <= |rows|
    ensures i < n
    ensures forall j :: 0 <= j < n ==> !Before(rows[j], rows[i])
    ensures forall j :: 0 <= j < i ==> Before(rows[i], rows[j])
  {
    if n == 1 then 0
    else
      var i := VictimAmong(rows, n - 1);
      if Before(rows[n - 1], rows[i]) then n - 1 else i
  }

  function Victim(rows: seq<Row>): (i: nat)
    requires rows != []
    ensures i < |rows|
    ensures forall j :: 0 <= j < |rows| ==> !Before(rows[j], rows[i])
    ensures forall j :: 0 <= j < i ==> Before(rows[i], rows[j])
  {
    VictimAmong(rows, |rows|)
  }

  method FindVictim(rows: seq<Row>) returns (victim: nat)
    requires rows != []
    ensures victim == Victim(rows)
  {
    victim := 0;
    for i := 1 to |rows|
      invariant victim == VictimAmong(rows, i)
    {
      if Before(rows[i], rows[victim]) { victim := i; }
    }
  }

  function MakeRoom(rows: seq<Row>): seq<Row>
    decreases |rows|
  {
    if |rows| < RELAY_SESSION_MEMORY then rows else MakeRoom(RemoveAt(rows, Victim(rows)))
  }

  /** Making room drops just enough rows: live ones only when no ended one is kept, and of two alike in that
      not the one brokered later. */
  lemma {:induction false} MakeRoomExact(rows: seq<Row>)
    ensures var left := MakeRoom(rows);
            && |left| == (if |rows| < 256 then |rows| else 255)
            && Subseq(left, rows)
            && forall gone, kept :: gone in rows && gone !in left && kept in left ==>
                 (gone.live ==> kept.live) && (gone.live == kept.live ==> gone.brokeredAt <= kept.brokeredAt)
    decreases |rows|
  {
    if |rows| < RELAY_SESSION_MEMORY {
      SubseqOfItself(rows);
    } else {
      var v := Victim(rows);
      var rest, left := RemoveAt(rows, v), MakeRoom(rows);
      MakeRoomExact(rest);
      RemoveAtSubseq(rows, v);
      SubseqTransitive(left, rest, rows);
      SubseqMembers(left, rows);
      forall gone, kept | gone in rows && gone !in left && kept in left
        ensures (gone.live ==> kept.live) && (gone.live == kept.live ==> gone.brokeredAt <= kept.brokeredAt)
      {
        var j :| 0 <= j < |rows| && rows[j] == gone;
        if j != v { assert rest[if j < v then j else j - 1] == gone; }
      }
    }
  }

  function Granted(s: Store, session: string, source: string, target: string, at: nat): Store {
    s.(rows := MakeRoom(s.rows) + [Row(session, source, target, at, 0, 0, 0, 0, None, false)])
  }

  function FindRow(rows: seq<Row>, session: string): (r: Option<nat>)
    ensures r.Some? ==> r.value < |rows| && rows[r.value].session == session
                        && forall j :: 0 <= j < r.value ==> rows[j].session != session
    ensures r.None? ==> forall j :: 0 <= j < |rows| ==> rows[j].session != session
  {
    if rows == [] then None
    else
      match FindRow(rows[..|rows| - 1], session)
      case Some(i) => Some(i)
      case None => if rows[|rows| - 1].session == session then Some(|rows| - 1) else None
  }

  lemma FirstIsFound(rows: seq<Row>, session: string, i: nat)
    requires i < |rows| && rows[i].session == session && forall j :: 0 <= j < i ==> rows[j].session != session
    ensures FindRow(rows, session) == Some(i)
  {
    var found := FindRow(rows, session);
    if found.Some? { assert !(i < found.value); }
  }

  function Bytes(peers: map<string, nat>, id: string): nat {
    if id in peers then peers[id] else 0
  }

  function ChargePeer(peers: map<string, nat>, id: string, amount: nat): map<string, nat> {
    if id == [] then peers else peers[id := Bytes(peers, id) + amount]
  }

  function Folded(r: Row, x: Sample, at: nat): Row {
    r.(bytes := x.bytes, kbps := x.kbps, peakKbps := x.peakKbps, seconds := x.ms / 1000, lastSampleAt := Some(at), live := true)
  }

  function Fold(s: Store, x: Sample, at: nat): Store {
    if x.session == [] then s
    else
      match FindRow(s.rows, x.session)
      case None => s.(total := s.total + x.bytes)
      case Some(i) =>
        var r := s.rows[i];
        var delta := SaturatingSub(x.bytes, r.bytes);
        Store(s.rows[i := Folded(r, x, at)], s.total + delta, ChargePeer(ChargePeer(s.peers, r.source, delta), r.target, delta))
  }

  function FoldAll(s: Store, xs: seq<Sample>, at: nat): Store {
    if xs == [] then s else Fold(FoldAll(s, xs[..|xs| - 1], at), xs[|xs| - 1], at)
  }

  predicate Seen(xs: seq<Sample>, session: string) {
    session != [] && exists i :: 0 <= i < |xs| && xs[i].session == session
  }

  function EndedRow(r: Row, xs: seq<Sample>): Row {
    if r.live && !Seen(xs, r.session) then r.(live := false, kbps := 0) else r
  }

  /** A poll: the samples folded in order, then every live row without one marked ended. */
  function Polled(s: Store, xs: seq<Sample>, at: nat): Store {
    var folded := FoldAll(s, xs, at);
    folded.(rows := seq(|folded.rows|, i requires 0 <= i < |folded.rows| => EndedRow(folded.rows[i], xs)))
  }

  class StatsStore {
    var rows: seq<Row>
    var total: nat
    var peers: map<string, nat>

    function View(): Store
      reads this
    {
      Store(rows, total, peers)
    }

    constructor ()
      ensures View() == EMPTY
    {
      rows, total, peers := [], 0, map[];
    }

    method RecordRelayGrant(session: string, source: string, target: string, at: nat)
      modifies this
      ensures View() == Granted(old(View()), session, source, target, at)
      ensures total == old(total) && peers == old(peers)
      ensures 0 < |rows| == if |old(rows)| < 256 then |old(rows)| + 1 else 256
      ensures rows[|rows| - 1] == Row(session, source, target, at, 0, 0, 0, 0, None, false)
      ensures Subseq(rows[..|rows| - 1], old(rows))
      ensures forall gone, kept :: gone in old(rows) && gone !in rows[..|rows| - 1] && kept in rows[..|rows| - 1] ==>
                (gone.live ==> kept.live) && (gone.live == kept.live ==> gone.brokeredAt <= kept.brokeredAt)
    {
      MakeRoomExact(rows);
      while |rows| >= RELAY_SESSION_MEMORY
        invariant MakeRoom(rows) == MakeRoom(old(rows)) && total == old(total) && peers == old(peers)
        decreases |rows|
      {
        var victim := FindVictim(rows);
        rows := rows[..victim] + rows[victim + 1..];
      }
      rows := rows + [Row(session, source, target, at, 0, 0, 0, 0, None, false)];
    }

    method FoldSamples(xs: seq<Sample>, at: nat) returns (seen: set<string>)
      modifies this
      ensures View() == FoldAll(old(View()), xs, at)
      ensures forall k :: k in seen <==> Seen(xs, k)
    {
      seen := {};
      for i := 0 to |xs|
        invariant View() == FoldAll(old(View()), xs[..i], at)
        invariant forall k :: k in seen <==> Seen(xs[..i], k)
      {
        assert xs[..i + 1][..i] == xs[..i];
        var x := xs[i];
        forall k ensures Seen(xs[..i + 1], k) <==> Seen(xs[..i], k) || (k != [] && k == x.session) { SeenNext(xs, i, k); }
        if x.session == [] { continue; }
        seen := seen + {x.session};
        var found := FindRow(rows, x.session);
        if found.None? {
          total := total + x.bytes;
          continue;
        }
        var row := rows[found.value];
        var delta := SaturatingSub(x.bytes, row.bytes);
        rows := rows[found.value := Folded(row, x, at)];
        total := total + delta;
        peers := ChargePeer(peers, row.source, delta);
        peers := ChargePeer(peers, row.target, delta);
      }
      assert xs[..|xs|] == xs;
    }

    method ApplyRelayUsage(xs: seq<Sample>, at: nat)
      modifies this
      ensures View() == Polled(old(View()), xs, at)
    {
      var seen := FoldSamples(xs, at);
      ghost var folded := View();
      for i := 0 to |rows|
        invariant |rows| == |folded.rows| && total == folded.total && peers == folded.peers
        invariant forall j :: 0 <= j < i ==> rows[j] == EndedRow(folded.rows[j], xs)
        invariant forall j :: i <= j < |rows| ==> rows[j] == folded.rows[j]
      {
        if rows[i].live && rows[i].session !in seen { rows := rows[i := rows[i].(live := false, kbps := 0)]; }
      }
    }
  }

  lemma SeenNext(xs: seq<Sample>, i: nat, k: string)
    requires i < |xs|
    ensures Seen(xs[..i + 1], k) <==> Seen(xs[..i], k) || (k != [] && k == xs[i].session)
  {}

  // ---- Conservation -----------------------------------------------------------------------

  /** An account that relayed bytes are charged to: the fleet's, or one peer's. */
  datatype Account = Fleet | OfPeer(id: string)

  function Balance(s: Store, a: Account): nat {
    match a
    case Fleet => s.total
    case OfPeer(id) => Bytes(s.peers, id)
  }

  /** What a session's amount adds to an account: to the fleet once, to a peer once for each end of
      the session it is. */
  function Share(a: Account, r: Row, amount: nat): nat {
    match a
    case Fleet => amount
    case OfPeer(id) => if id == [] then 0 else (if r.source == id then amount else 0) + if r.target == id then amount else 0
  }

  function Carried(rows: seq<Row>, a: Account): nat {
    if rows == [] then 0 else Carried(rows[..|rows| - 1], a) + Share(a, rows[|rows| - 1], rows[|rows| - 1].bytes)
  }

  datatype Event = Grant(session: string, source: string, target: string, at: nat) | Poll(samples: seq<Sample>, at: nat)

  function Next(s: Store, e: Event): Store {
    match e
    case Grant(session, source, target, at) => Granted(s, session, source, target, at)
    case Poll(xs, at) => Polled(s, xs, at)
  }

  function Run(s: Store, es: seq<Event>): Store {
    if es == [] then s else Next(Run(s, es[..|es| - 1]), es[|es| - 1])
  }

  /** Bytes of evicted rows. */
  function EvictedBytes(rows: seq<Row>, a: Account): nat
    decreases |rows|
  {
    if |rows| < RELAY_SESSION_MEMORY then 0
    else
      var v := Victim(rows);
      Share(a, rows[v], rows[v].bytes) + EvictedBytes(RemoveAt(rows, v), a)
  }

  /** What a sample does besides moving its row: the bytes of a session not brokered here, which only
      the fleet is charged, and the drop of a session that restarted lower. */
  function Unmatched(s: Store, x: Sample, a: Account): nat {
    if x.session == [] then 0
    else
      match FindRow(s.rows, x.session)
      case None => if a == Fleet then x.bytes else 0
      case Some(i) => Share(a, s.rows[i], SaturatingSub(s.rows[i].bytes, x.bytes))
  }

  function UnmatchedAll(s: Store, xs: seq<Sample>, at: nat, a: Account): nat {
    if xs == [] then 0
    else UnmatchedAll(s, xs[..|xs| - 1], at, a) + Unmatched(FoldAll(s, xs[..|xs| - 1], at), xs[|xs| - 1], a)
  }

  /** All that a run charged an account beyond what the rows on the table now show. */
  function Beyond(s: Store, es: seq<Event>, a: Account): nat {
    if es == [] then 0
    else Beyond(s, es[..|es| - 1], a) + BeyondNow(Run(s, es[..|es| - 1]), es[|es| - 1], a)
  }

  function BeyondNow(s: Store, e: Event, a: Account): nat {
    match e
    case Grant(_, _, _, _) => EvictedBytes(s.rows, a)
    case Poll(xs, at) => UnmatchedAll(s, xs, at, a)
  }

  lemma {:induction false} CarriedUpdate(rows: seq<Row>, a: Account, i: nat, r: Row)
    requires i < |rows|
    ensures Carried(rows[i := r], a) == Carried(rows, a) - Share(a, rows[i], rows[i].bytes) + Share(a, r, r.bytes)
  {
    var init := rows[..|rows| - 1];
    if i == |rows| - 1 {
      assert rows[i := r][..i] == init;
    } else {
      assert rows[i := r][..|rows| - 1] == init[i := r];
      CarriedUpdate(init, a, i, r);
    }
  }

  lemma {:induction false} CarriedRemove(rows: seq<Row>, a: Account, i: nat)
    requires i < |rows|
    ensures Carried(RemoveAt(rows, i), a) == Carried(rows, a) - Share(a, rows[i], rows[i].bytes)
  {
    var init := rows[..|rows| - 1];
    if i == |rows| - 1 {
      assert RemoveAt(rows, i) == init;
    } else {
      assert RemoveAt(rows, i)[..|rows| - 2] == RemoveAt(init, i);
      CarriedRemove(init, a, i);
    }
  }

  lemma {:induction false} CarriedSame(rows: seq<Row>, rows': seq<Row>, a: Account)
    requires |rows| == |rows'|
    requires forall i :: 0 <= i < |rows| ==> rows[i].bytes == rows'[i].bytes && rows[i].source == rows'[i].source && rows[i].target == rows'[i].target
    ensures Carried(rows, a) == Carried(rows', a)
  {
    if rows == [] {
    } else {
      CarriedSame(rows[..|rows| - 1], rows'[..|rows| - 1], a);
    }
  }

  lemma {:induction false} MakeRoomCarries(rows: seq<Row>, a: Account)
    ensures Carried(MakeRoom(rows), a) + EvictedBytes(rows, a) == Carried(rows, a)
    ensures |MakeRoom(rows)| < RELAY_SESSION_MEMORY
    decreases |rows|
  {
    if |rows| >= RELAY_SESSION_MEMORY {
      CarriedRemove(rows, a, Victim(rows));
      MakeRoomCarries(RemoveAt(rows, Victim(rows)), a);
    }
  }

  lemma ChargedBothEnds(peers: map<string, nat>, r: Row, amount: nat, id: string)
    requires id != []
    ensures Bytes(ChargePeer(ChargePeer(peers, r.source, amount), r.target, amount), id)
         == Bytes(peers, id) + Share(OfPeer(id), r, amount)
  {}

  lemma FoldConserves(s: Store, x: Sample, at: nat, a: Account)
    requires a != OfPeer([])
    ensures Balance(Fold(s, x, at), a) + Carried(s.rows, a) == Balance(s, a) + Carried(Fold(s, x, at).rows, a) + Unmatched(s, x, a)
  {
    if x.session != [] {
      var found := FindRow(s.rows, x.session);
      if found.Some? {
        var r := s.rows[found.value];
        CarriedUpdate(s.rows, a, found.value, Folded(r, x, at));
        if a.OfPeer? { ChargedBothEnds(s.peers, r, SaturatingSub(x.bytes, r.bytes), a.id); }
      }
    }
  }

  lemma {:induction false} FoldAllConserves(s: Store, xs: seq<Sample>, at: nat, a: Account)
    requires a != OfPeer([])
    ensures Balance(FoldAll(s, xs, at), a) + Carried(s.rows, a) == Balance(s, a) + Carried(FoldAll(s, xs, at).rows, a) + UnmatchedAll(s, xs, at, a)
  {
    if xs == [] {
    } else {
      FoldAllConserves(s, xs[..|xs| - 1], at, a);
      FoldConserves(FoldAll(s, xs[..|xs| - 1], at), xs[|xs| - 1], at, a);
    }
  }

  lemma StepConserves(s: Store, e: Event, a: Account)
    requires a != OfPeer([])
    ensures Balance(Next(s, e), a) + Carried(s.rows, a) == Balance(s, a) + Carried(Next(s, e).rows, a) + BeyondNow(s, e, a)
  {
    match e
    case Grant(session, source, target, at) =>
      MakeRoomCarries(s.rows, a);
      var rows := Next(s, e).rows;
      assert rows[..|rows| - 1] == MakeRoom(s.rows);
    case Poll(xs, at) =>
      FoldAllConserves(s, xs, at, a);
      CarriedSame(FoldAll(s, xs, at).rows, Next(s, e).rows, a);
  }

  /** Conservation, over every run of grants and polls and for the fleet and each peer: the total
      charged is exactly the bytes of the rows on the table, plus those of evicted rows, plus what
      restarted sessions had before they dropped, plus (for the fleet) every report of a session not
      brokered here. Nothing underflows and nothing is counted twice. */
  lemma {:induction false} ChargesAreConserved(es: seq<Event>, a: Account)
    requires a != OfPeer([])
    ensures Balance(Run(EMPTY, es), a) == Carried(Run(EMPTY, es).rows, a) + Beyond(EMPTY, es, a)
  {
    if es == [] {
    } else {
      ChargesAreConserved(es[..|es| - 1], a);
      StepConserves(Run(EMPTY, es[..|es| - 1]), es[|es| - 1], a);
    }
  }

  /** Each sample is of a session on the table and not below its row. */
  predicate Orderly(s: Store, xs: seq<Sample>, at: nat) {
    xs == [] ||
    (&& Orderly(s, xs[..|xs| - 1], at)
     && var y, x := FoldAll(s, xs[..|xs| - 1], at), xs[|xs| - 1];
     x.session == [] || (FindRow(y.rows, x.session).Some? && x.bytes >= y.rows[FindRow(y.rows, x.session).value].bytes))
  }

  predicate OrderlyRun(s: Store, es: seq<Event>) {
    es == [] ||
    (&& OrderlyRun(s, es[..|es| - 1])
     && match es[|es| - 1]
        case Grant(_, _, _, _) => |Run(s, es[..|es| - 1]).rows| < RELAY_SESSION_MEMORY
        case Poll(xs, at) => Orderly(Run(s, es[..|es| - 1]), xs, at))
  }

  lemma {:induction false} OrderlyMatches(s: Store, xs: seq<Sample>, at: nat, a: Account)
    requires Orderly(s, xs, at)
    ensures UnmatchedAll(s, xs, at, a) == 0
  {
    if xs == [] {
    } else {
      OrderlyMatches(s, xs[..|xs| - 1], at, a);
    }
  }

  lemma {:induction false} OrderlyLeavesNothing(es: seq<Event>, a: Account)
    requires OrderlyRun(EMPTY, es)
    ensures Beyond(EMPTY, es, a) == 0
  {
    if es == [] {
    } else {
      OrderlyLeavesNothing(es[..|es| - 1], a);
      match es[|es| - 1]
      case Grant(_, _, _, _) =>
      case Poll(xs, at) => OrderlyMatches(Run(EMPTY, es[..|es| - 1]), xs, at, a);
    }
  }

  /** While reports are of sessions brokered here, never fall and none is evicted, the fleet's total
      is the sum of the rows' byte counts, and a peer's the sum over the sessions it is an end of. */
  lemma OrderlyTotals(es: seq<Event>, a: Account)
    requires a != OfPeer([]) && OrderlyRun(EMPTY, es)
    ensures Balance(Run(EMPTY, es), a) == Carried(Run(EMPTY, es).rows, a)
  {
    ChargesAreConserved(es, a);
    OrderlyLeavesNothing(es, a);
  }

  /** The last sample of a session in a report. */
  function LastOf(xs: seq<Sample>, session: string): (r: Option<nat>)
    ensures r.Some? ==> r.value < |xs| && xs[r.value].session == session
                        && forall j :: r.value < j < |xs| ==> xs[j].session != session
    ensures r.None? ==> forall j :: 0 <= j < |xs| ==> xs[j].session != session
  {
    if xs == [] then None
    else if xs[|xs| - 1].session == session then Some(|xs| - 1)
    else LastOf(xs[..|xs| - 1], session)
  }

  predicate Shows(r: Row, x: Sample, at: nat) {
    && r.bytes == x.bytes && r.kbps == x.kbps && r.peakKbps == x.peakKbps && r.seconds == x.ms / 1000
    && r.lastSampleAt == Some(at) && r.live
  }

  predicate SameSession(r: Row, before: Row) {
    r.session == before.session && r.source == before.source && r.target == before.target && r.brokeredAt == before.brokeredAt
  }

  lemma {:induction false} FoldShowsLatest(s: Store, xs: seq<Sample>, at: nat, i: nat)
    requires i < |s.rows| && s.rows[i].session != [] && FindRow(s.rows, s.rows[i].session) == Some(i)
    ensures var z, session := FoldAll(s, xs, at), s.rows[i].session;
            && |z.rows| == |s.rows| && FindRow(z.rows, session) == Some(i) && SameSession(z.rows[i], s.rows[i])
            && match LastOf(xs, session)
               case None => z.rows[i] == s.rows[i]
               case Some(k) => Shows(z.rows[i], xs[k], at)
  {
    if xs == [] {
    } else {
      var n := |xs| - 1;
      FoldShowsLatest(s, xs[..n], at, i);
      FoldOther(FoldAll(s, xs[..n], at), xs[n], at, i);
    }
  }

  lemma FoldOther(s: Store, x: Sample, at: nat, i: nat)
    requires i < |s.rows| && s.rows[i].session != [] && FindRow(s.rows, s.rows[i].session) == Some(i)
    ensures var z := Fold(s, x, at);
            && |z.rows| == |s.rows| && FindRow(z.rows, s.rows[i].session) == Some(i) && SameSession(z.rows[i], s.rows[i])
            && if x.session == s.rows[i].session then Shows(z.rows[i], x, at) else z.rows[i] == s.rows[i]
  {
    var z := Fold(s, x, at);
    assert forall j :: 0 <= j < |s.rows| ==> z.rows[j].session == s.rows[j].session;
    FirstIsFound(z.rows, s.rows[i].session, i);
  }

  /** After a poll a brokered session's row shows its latest sample, live; a session without a sample
      keeps its last figures, ended and with no rate. */
  lemma PollShowsLatest(s: Store, xs: seq<Sample>, at: nat, i: nat)
    requires i < |s.rows| && s.rows[i].session != [] && FindRow(s.rows, s.rows[i].session) == Some(i)
    ensures |Polled(s, xs, at).rows| == |s.rows|
    ensures var r := Polled(s, xs, at).rows[i];
            && SameSession(r, s.rows[i])
            && match LastOf(xs, s.rows[i].session)
               case None => !r.live && r.bytes == s.rows[i].bytes && (s.rows[i].live ==> r.kbps == 0)
               case Some(k) => Shows(r, xs[k], at)
  {
    FoldShowsLatest(s, xs, at, i);
    var k := LastOf(xs, s.rows[i].session);
    if k.Some? { assert Seen(xs, s.rows[i].session); }
  }

  lemma {:induction false} FoldKeepsSize(s: Store, xs: seq<Sample>, at: nat)
    ensures |FoldAll(s, xs, at).rows| == |s.rows|
  {
    if xs == [] {
    } else {
      FoldKeepsSize(s, xs[..|xs| - 1], at);
    }
  }

  lemma {:induction false} TableBounded(es: seq<Event>)
    ensures |Run(EMPTY, es).rows| <= RELAY_SESSION_MEMORY
  {
    if es == [] {
    } else {
      var s := Run(EMPTY, es[..|es| - 1]);
      TableBounded(es[..|es| - 1]);
      match es[|es| - 1]
      case Grant(_, _, _, _) => MakeRoomCarries(s.rows, Fleet);
      case Poll(xs, at) => FoldKeepsSize(s, xs, at);
    }
  }

  // ---- From the loop to the table ---------------------------------------------------------

  /** The report's line for a session: its latest sample, in bytes. */
  function Reported(session: string, u: Usage): Sample {
    Sample(session, u.total / 8, u.speed, u.highest, u.elapsed)
  }

  /** Some of a loop's samples, in order. */
  predicate SamplesOf(us: seq<Usage>, usage: seq<Usage>, at: seq<nat>) {
    && |at| == |us|
    && (forall i :: 0 <= i < |at| ==> at[i] < |usage| && us[i] == usage[at[i]])
    && (forall i, j :: 0 <= i <= j < |at| ==> at[i] <= at[j])
  }

  /** The samples of a session in a report, and in the reports of a run. */
  function SamplesIn(xs: seq<Sample>, session: string): seq<Sample> {
    if xs == [] then []
    else
      var rest := SamplesIn(xs[..|xs| - 1], session);
      if xs[|xs| - 1].session == session then rest + [xs[|xs| - 1]] else rest
  }

  function SamplesFor(es: seq<Event>, session: string): seq<Sample> {
    if es == [] then []
    else
      SamplesFor(es[..|es| - 1], session) +
      match es[|es| - 1]
      case Grant(_, _, _, _) => []
      case Poll(xs, _) => SamplesIn(xs, session)
  }

  /** By how much the samples of one session raised the fleet's total. */
  function PollCharge(s: Store, xs: seq<Sample>, at: nat, session: string): nat {
    if xs == [] then 0
    else
      var y, x := FoldAll(s, xs[..|xs| - 1], at), xs[|xs| - 1];
      PollCharge(s, xs[..|xs| - 1], at, session) + if x.session == session then SaturatingSub(Fold(y, x, at).total, y.total) else 0
  }

  function SessionCharge(s: Store, es: seq<Event>, session: string): nat {
    if es == [] then 0
    else
      SessionCharge(s, es[..|es| - 1], session) +
      match es[|es| - 1]
      case Grant(_, _, _, _) => 0
      case Poll(xs, at) => PollCharge(Run(s, es[..|es| - 1]), xs, at, session)
  }

  predicate OnlyRow(rows: seq<Row>, session: string, i: nat) {
    i < |rows| && rows[i].session == session && forall j :: 0 <= j < |rows| && j != i ==> rows[j].session != session
  }

  predicate NoRow(rows: seq<Row>, session: string) {
    forall j :: 0 <= j < |rows| ==> rows[j].session != session
  }

  /** The session has one row, and it shows this many bytes. */
  ghost predicate RowIs(rows: seq<Row>, session: string, bytes: nat) {
    exists i: nat :: OnlyRow(rows, session, i) && rows[i].bytes == bytes
  }

  /** The session is on the table in every state of the run, and its label is not granted again. */
  predicate KeptThrough(s: Store, es: seq<Event>, session: string) {
    && !NoRow(Run(s, es).rows, session)
    && (es == [] || (&& KeptThrough(s, es[..|es| - 1], session)
                     && (es[|es| - 1].Grant? ==> es[|es| - 1].session != session)))
  }

  function LastBytes(xs: seq<Sample>, bytes: nat): nat {
    if xs == [] then bytes else xs[|xs| - 1].bytes
  }

  predicate Rising(xs: seq<Sample>, bytes: nat) {
    xs == [] || (Rising(xs[..|xs| - 1], bytes) && xs[|xs| - 1].bytes >= LastBytes(xs[..|xs| - 1], bytes))
  }

  lemma {:induction false} RisingConcat(xs: seq<Sample>, ys: seq<Sample>, bytes: nat)
    ensures Rising(xs + ys, bytes) <==> Rising(xs, bytes) && Rising(ys, LastBytes(xs, bytes))
    ensures LastBytes(xs + ys, bytes) == LastBytes(ys, LastBytes(xs, bytes))
    decreases |ys|
  {
    if ys == [] {
      assert xs + ys == xs;
    } else {
      assert (xs + ys)[..|xs + ys| - 1] == xs + ys[..|ys| - 1];
      RisingConcat(xs, ys[..|ys| - 1], bytes);
    }
  }

  lemma FoldOneSession(s: Store, x: Sample, at: nat, session: string, bytes: nat)
    requires session != [] && RowIs(s.rows, session, bytes) && (x.session == session ==> x.bytes >= bytes)
    ensures var z := Fold(s, x, at);
            if x.session == session then RowIs(z.rows, session, x.bytes) && z.total == s.total + x.bytes - bytes
            else RowIs(z.rows, session, bytes)
  {
    var i: nat :| OnlyRow(s.rows, session, i) && s.rows[i].bytes == bytes;
    var z := Fold(s, x, at);
    assert forall j :: 0 <= j < |s.rows| ==> z.rows[j].session == s.rows[j].session;
    assert OnlyRow(z.rows, session, i);
    if x.session == session { assert FindRow(s.rows, session) == Some(i); }
  }

  lemma {:induction false} FoldAllSession(s: Store, xs: seq<Sample>, at: nat, session: string, bytes: nat)
    requires session != [] && RowIs(s.rows, session, bytes) && Rising(SamplesIn(xs, session), bytes)
    ensures RowIs(FoldAll(s, xs, at).rows, session, LastBytes(SamplesIn(xs, session), bytes))
    ensures PollCharge(s, xs, at, session) + bytes == LastBytes(SamplesIn(xs, session), bytes)
  {
    if xs == [] {
    } else {
      var init, x := xs[..|xs| - 1], xs[|xs| - 1];
      if x.session == session { assert SamplesIn(xs, session)[..|SamplesIn(init, session)|] == SamplesIn(init, session); }
      FoldAllSession(s, init, at, session, bytes);
      FoldOneSession(FoldAll(s, init, at), x, at, session, LastBytes(SamplesIn(init, session), bytes));
    }
  }

  lemma EndingKeepsRow(rows: seq<Row>, xs: seq<Sample>, session: string, bytes: nat)
    requires RowIs(rows, session, bytes)
    ensures RowIs(seq(|rows|, i requires 0 <= i < |rows| => EndedRow(rows[i], xs)), session, bytes)
  {
    var i: nat :| OnlyRow(rows, session, i) && rows[i].bytes == bytes;
    assert OnlyRow(seq(|rows|, i requires 0 <= i < |rows| => EndedRow(rows[i], xs)), session, i);
  }

  lemma RemovingKeepsRow(rows: seq<Row>, v: nat, session: string, bytes: nat)
    requires v < |rows|
    ensures NoRow(rows, session) ==> NoRow(RemoveAt(rows, v), session)
    ensures RowIs(rows, session, bytes) ==> RowIs(RemoveAt(rows, v), session, bytes) || NoRow(RemoveAt(rows, v), session)
  {
    if RowIs(rows, session, bytes) {
      var i: nat :| OnlyRow(rows, session, i) && rows[i].bytes == bytes;
      if i != v { assert OnlyRow(RemoveAt(rows, v), session, if i < v then i else i - 1); }
    }
  }

  lemma {:induction false} EvictingKeepsRow(rows: seq<Row>, session: string, bytes: nat)
    ensures NoRow(rows, session) ==> NoRow(MakeRoom(rows), session)
    ensures RowIs(rows, session, bytes) ==> RowIs(MakeRoom(rows), session, bytes) || NoRow(MakeRoom(rows), session)
    decreases |rows|
  {
    if |rows| < RELAY_SESSION_MEMORY {
    } else {
      var v := Victim(rows);
      RemovingKeepsRow(rows, v, session, bytes);
      EvictingKeepsRow(RemoveAt(rows, v), session, bytes);
    }
  }

  lemma GrantKeepsRow(s: Store, e: Event, session: string, bytes: nat)
    requires e.Grant? && e.session != session && RowIs(s.rows, session, bytes) && !NoRow(Next(s, e).rows, session)
    ensures RowIs(Next(s, e).rows, session, bytes)
  {
    var room, z := MakeRoom(s.rows), Next(s, e).rows;
    EvictingKeepsRow(s.rows, session, bytes);
    assert z[..|room|] == room;
    assert !NoRow(room, session);
    var i: nat :| OnlyRow(room, session, i) && room[i].bytes == bytes;
    assert OnlyRow(z, session, i);
  }

  lemma {:induction false} RunSession(s: Store, es: seq<Event>, session: string, bytes: nat)
    requires session != [] && RowIs(s.rows, session, bytes) && KeptThrough(s, es, session)
    requires Rising(SamplesFor(es, session), bytes)
    ensures RowIs(Run(s, es).rows, session, LastBytes(SamplesFor(es, session), bytes))
    ensures SessionCharge(s, es, session) + bytes == LastBytes(SamplesFor(es, session), bytes)
  {
    if es == [] {
    } else {
      var init, e := es[..|es| - 1], es[|es| - 1];
      var before := SamplesFor(init, session);
      var own := if e.Poll? then SamplesIn(e.samples, session) else [];
      assert SamplesFor(es, session) == before + own;
      RisingConcat(before, own, bytes);
      RunSession(s, init, session, bytes);
      var y, b := Run(s, init), LastBytes(before, bytes);
      match e
      case Grant(_, _, _, _) => GrantKeepsRow(y, e, session, b);
      case Poll(xs, at) =>
        FoldAllSession(y, xs, at, session, b);
        EndingKeepsRow(FoldAll(y, xs, at).rows, xs, session, LastBytes(own, b));
    }
  }

  lemma {:induction false} ReportsRise(session: string, usage: seq<Usage>, us: seq<Usage>, picks: seq<nat>, xs: seq<Sample>)
    requires WellSampled(usage) && SamplesOf(us, usage, picks) && |xs| == |us|
    requires forall i :: 0 <= i < |xs| ==> xs[i] == Reported(session, us[i])
    ensures Rising(xs, 0) && LastBytes(xs, 0) == if us == [] then 0 else us[|us| - 1].total / 8
    decreases |xs|
  {
    if xs == [] {
    } else {
      var n := |xs| - 1;
      ReportsRise(session, usage, us[..n], picks[..n], xs[..n]);
      SamplesInOrder(usage, picks[n], picks[n]);
      if n > 0 { SamplesInOrder(usage, picks[n - 1], picks[n]); }
    }
  }

  lemma LoopSamplesWell(c: Limits, ts: seq<Turn>)
    ensures WellSampled(RunLoop(c, ts).usage) && SamplesExact(ts, |ts|, RunLoop(c, ts).usage)
  {
    LoopReportsExactly(c, ts, |ts|);
  }

  /** The bytes the relay had sent on when the last of the picked samples was taken. */
  function ForwardedBy(ts: seq<Turn>, picks: seq<nat>): nat
    requires forall i :: 0 <= i < |picks| ==> picks[i] < |SampleTurns(ts, |ts|)|
  {
    if picks == [] then 0 else Forwarded(ts, SampleTurns(ts, |ts|)[picks[|picks| - 1]] + 1)
  }

  /** End to end, over any run of grants and polls of any sessions: a session brokered here, kept on the
      table and reported at any of its own loop's samples, shows exactly the bytes the relay had sent
      on at the last of them, and its samples charged the fleet exactly those. */
  lemma DashboardShowsForwardedBytes(s: Store, es: seq<Event>, session: string, c: Limits, ts: seq<Turn>, us: seq<Usage>, picks: seq<nat>)
    requires session != [] && RowIs(s.rows, session, 0) && KeptThrough(s, es, session)
    requires SamplesOf(us, RunLoop(c, ts).usage, picks) && |SamplesFor(es, session)| == |us|
    requires forall i :: 0 <= i < |us| ==> SamplesFor(es, session)[i] == Reported(session, us[i])
    ensures forall i :: 0 <= i < |picks| ==> picks[i] < |SampleTurns(ts, |ts|)|
    ensures var bytes := ForwardedBy(ts, picks);
            RowIs(Run(s, es).rows, session, bytes) && SessionCharge(s, es, session) == bytes
  {
    var usage := RunLoop(c, ts).usage;
    LoopSamplesWell(c, ts);
    ReportsRise(session, usage, us, picks, SamplesFor(es, session));
    RunSession(s, es, session, 0);
    if picks != [] { assert us[|us| - 1] == usage[picks[|picks| - 1]]; }
  }

  // ---- Two live sessions under one label --------------------------------------------------

  function Apart(a: nat, b: nat): nat {
    SaturatingSub(a, b) + SaturatingSub(b, a)
  }

  /** Two pairs under one grant report under one label. A poll that lists both folds the second over the
      first: the row shows the second, and the fleet is charged what the first is above the row and the
      second above the first. */
  lemma SharedLabelPoll(s: Store, x: Sample, y: Sample, at: nat, i: nat)
    requires x.session == y.session != [] && FindRow(s.rows, x.session) == Some(i)
    ensures var z := Polled(s, [x, y], at);
            && |z.rows| == |s.rows| && FindRow(z.rows, x.session) == Some(i) && z.rows[i].bytes == y.bytes
            && z.total == s.total + SaturatingSub(x.bytes, s.rows[i].bytes) + SaturatingSub(y.bytes, x.bytes)
  {
    var xs := [x, y];
    var s1 := Fold(s, x, at);
    FoldTwo(s, xs, at);
    FoundAgain(s.rows, x.session, i, Folded(s.rows[i], x, at));
    FoundAgain(s1.rows, x.session, i, Folded(s1.rows[i], y, at));
    EndingKeepsFound(s, xs, at, x.session, i);
  }

  lemma FoldTwo(s: Store, xs: seq<Sample>, at: nat)
    requires |xs| == 2
    ensures FoldAll(s, xs, at) == Fold(Fold(s, xs[0], at), xs[1], at)
  {
    assert xs[..1] == [xs[0]] && xs[..1][..0] == [];
    assert FoldAll(s, xs[..1], at) == Fold(FoldAll(s, [], at), xs[0], at);
  }

  lemma EndingKeepsFound(s: Store, xs: seq<Sample>, at: nat, session: string, i: nat)
    requires FindRow(FoldAll(s, xs, at).rows, session) == Some(i)
    ensures FindRow(Polled(s, xs, at).rows, session) == Some(i)
  {
    var rows, ended := FoldAll(s, xs, at).rows, Polled(s, xs, at).rows;
    assert forall j :: 0 <= j < |rows| ==> ended[j].session == rows[j].session;
    FirstIsFound(ended, session, i);
  }

  lemma FoundAgain(rows: seq<Row>, session: string, i: nat, r: Row)
    requires FindRow(rows, session) == Some(i) && r.session == session
    ensures FindRow(rows[i := r], session) == Some(i)
  {
    FirstIsFound(rows[i := r], session, i);
  }

  lemma OneTimeMore(n: nat, amount: nat)
    ensures (n + 1) * amount == n * amount + amount
  {}

  function PolledAgain(s: Store, xs: seq<Sample>, at: nat, n: nat): Store {
    if n == 0 then s else Polled(PolledAgain(s, xs, at, n - 1), xs, at)
  }

  /** Its exact cost: every further poll charges the difference of the two counts again, though neither
      session has carried a byte since. */
  lemma {:induction false} SharedLabelOvercharges(s: Store, x: Sample, y: Sample, at: nat, i: nat, n: nat)
    requires x.session == y.session != [] && FindRow(s.rows, x.session) == Some(i) && s.rows[i].bytes == y.bytes
    ensures var z := PolledAgain(s, [x, y], at, n);
            && |z.rows| == |s.rows| && FindRow(z.rows, x.session) == Some(i) && z.rows[i].bytes == y.bytes
            && z.total == s.total + n * Apart(x.bytes, y.bytes)
  {
    if n == 0 {
    } else {
      SharedLabelOvercharges(s, x, y, at, i, n - 1);
      SharedLabelPoll(PolledAgain(s, [x, y], at, n - 1), x, y, at, i);
      OneTimeMore(n - 1, Apart(x.bytes, y.bytes));
    }
  }
}
