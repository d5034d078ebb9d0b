/** The password-spray limiter: a counting window per source and one across all sources, each with
    a cap on distinct user names and a cooldown once the cap is passed. */
module SprayLimiter {
  import opened Prelude
  import opened ControllerGates

  datatype Bounds = Bounds(window: nat, cooldown: nat, maxUsers: nat)

  const PER_SOURCE := Bounds(300, 60, 10)
  const GLOBAL := Bounds(60, 120, 30)
  const MAX_TRACKED: nat := 4096

  datatype Window = Window(users: set<string>, started: nat, blockedUntil: nat)

  const DEFAULT := Window({}, 0, 0)

  /** Starts a fresh count once the current one has aged out; a cooldown keeps its deadline. */
  function Roll(b: Bounds, w: Window, now: nat): Window {
    if SaturatingSub(now, w.started) >= b.window then w.(users := {}, started := now) else w
  }

  /** Starts a cooldown, unless one is running. */
  function Trip(b: Bounds, w: Window, now: nat): Window {
    if now < w.blockedUntil then w else Window({}, now, now + b.cooldown)
  }

  function Insert(b: Bounds, w: Window, user: string, now: nat): Window {
    var more := w.(users := w.users + {user});
    if |more.users| > b.maxUsers then Trip(b, more, now) else more
  }

  predicate Trips(b: Bounds, w: Window, user: string, now: nat) {
    now >= w.blockedUntil && |Roll(b, w, now).users + {user}| > b.maxUsers
  }

  datatype State = State(global: Window, bySource: map<string, Window>)

  const INIT := State(DEFAULT, map[])

  /** A login is checked; if it passed, it later fails and is recorded, or ends without a record. */
  datatype Event =
    | Check(source: Option<string>, now: nat)
    | Note(source: Option<string>, username: string, now: nat)
    | Finish(source: Option<string>, now: nat)

  predicate Blocked(s: State, source: Option<string>, now: nat) {
    || now < s.global.blockedUntil
    || (source.Some? && source.value in s.bySource && now < s.bySource[source.value].blockedUntil)
  }

  predicate Live(w: Window, now: nat) {
    now < w.blockedUntil || SaturatingSub(now, w.started) < PER_SOURCE.window
  }

  function Retain(m: map<string, Window>, now: nat): map<string, Window> {
    map ip | ip in m && Live(m[ip], now) :: m[ip]
  }

  function Tracked(m: map<string, Window>, ip: string, now: nat): Window {
    if ip in m then m[ip] else Window({}, now, 0)
  }

  predicate TableFull(m: map<string, Window>, ip: string) {
    |m| >= MAX_TRACKED && ip !in m
  }

  function NoteSource(m: map<string, Window>, source: Option<string>, user: string, now: nat): map<string, Window> {
    if source.None? then m
    else
      var live, ip := Retain(m, now), source.value;
      if TableFull(live, ip) then live
      else live[ip := Insert(PER_SOURCE, Roll(PER_SOURCE, Tracked(live, ip, now), now), user, now)]
  }

  function Next(s: State, e: Event): State {
    match e
    case Check(_, now) => if now < s.global.blockedUntil then s else s.(global := Roll(GLOBAL, s.global, now))
    case Note(source, username, now) =>
      var user := NormalizeLookupUsername(username);
      if user == [] then s
      else
        State(Insert(GLOBAL, Roll(GLOBAL, s.global, now), user, now),
              NoteSource(s.bySource, source, user, now))
    case Finish(_, _) => s
  }

  function Run(s: State, es: seq<Event>): State
    decreases |es|
  {
    if es == [] then s else Run(Next(s, es[0]), es[1..])
  }

  /** This failure is the one that starts a cooldown, its source's or everyone's. */
  predicate StartsCooldown(s: State, source: Option<string>, username: string, now: nat) {
    var user := NormalizeLookupUsername(username);
    var live := Retain(s.bySource, now);
    && user != []
    && (|| Trips(GLOBAL, s.global, user, now)
        || (&& source.Some? && !TableFull(live, source.value)
            && Trips(PER_SOURCE, Tracked(live, source.value, now), user, now)))
  }

  // ---- The limiter as it runs -------------------------------------------------------------

  class Limiter {
    var global: Window
    var bySource: map<string, Window>

    function View(): State
      reads this
    {
      State(global, bySource)
    }

    constructor ()
      ensures View() == INIT
    {
      global, bySource := DEFAULT, map[];
    }

    method LoginSprayBlock(source: Option<string>, now: nat) returns (refused: bool)
      modifies this
      ensures refused == Blocked(old(View()), source, now)
      ensures View() == Next(old(View()), Check(source, now))
      ensures bySource == old(bySource) && global.blockedUntil == old(global).blockedUntil
      ensures global == old(global) || (global.users == {} && global.started == now && now >= old(global).started + 60)
    {
      if now < global.blockedUntil { return true; }
      global := Roll(GLOBAL, global, now);
      if source.None? || source.value !in bySource { return false; }
      refused := now < bySource[source.value].blockedUntil;
    }

    method NoteLoginSpray(source: Option<string>, username: string, now: nat) returns (tripped: bool)
      modifies this
      ensures View() == Next(old(View()), Note(source, username, now))
      ensures tripped == StartsCooldown(old(View()), source, username, now)
    {
      var user := NormalizeLookupUsername(username);
      if user == [] { return false; }
      tripped := Trips(GLOBAL, global, user, now);
      global := Insert(GLOBAL, Roll(GLOBAL, global, now), user, now);
      if source.None? { return; }
      var ip := source.value;
      bySource := Retain(bySource, now);
      if |bySource| >= MAX_TRACKED && ip !in bySource { return; }
      var entry := Tracked(bySource, ip, now);
      tripped := tripped || Trips(PER_SOURCE, entry, user, now);
      bySource := bySource[ip := Insert(PER_SOURCE, Roll(PER_SOURCE, entry, now), user, now)];
    }
  }

  // ---- One window, alone ------------------------------------------------------------------

  /** What an event does to one window: the global one, or the one of a source. A failure recorded
      for a source first forgets its window if that has aged out and is in no cooldown. */
  datatype Touch = Aged(at: nat) | Dropped(at: nat) | Recorded(at: nat, user: string, forgets: bool)

  predicate Forgotten(b: Bounds, w: Window, now: nat) {
    now >= w.blockedUntil && SaturatingSub(now, w.started) >= b.window
  }

  function Apply(b: Bounds, w: Option<Window>, t: Touch): Option<Window> {
    match t
    case Aged(now) => if w.Some? then Some(Roll(b, w.value, now)) else None
    case Dropped(now) => if w.Some? && Forgotten(b, w.value, now) then None else w
    case Recorded(now, user, forgets) =>
      var had := if w.None? || (forgets && Forgotten(b, w.value, now)) then Window({}, now, 0) else w.value;
      Some(Insert(b, Roll(b, had, now), user, now))
  }

  function ApplyAll(b: Bounds, w: Option<Window>, ts: seq<Touch>): Option<Window>
    decreases |ts|
  {
    if ts == [] then w else ApplyAll(b, Apply(b, w, ts[0]), ts[1..])
  }

  /** Whose window: a source's, or the global one. */
  type Owner = Option<string>

  function BoundsOf(who: Owner): Bounds {
    if who.Some? then PER_SOURCE else GLOBAL
  }

  function WindowOf(s: State, who: Owner): Option<Window> {
    if who.None? then Some(s.global)
    else if who.value in s.bySource then Some(s.bySource[who.value]) else None
  }

  function TouchOf(s: State, e: Event, who: Owner): Option<Touch> {
    match e
    case Check(_, now) => if who.None? && now >= s.global.blockedUntil then Some(Aged(now)) else None
    case Note(source, username, now) =>
      var user := NormalizeLookupUsername(username);
      if user == [] then None
      else if who.None? then Some(Recorded(now, user, false))
      else if source.None? then None
      else if source != who || TableFull(Retain(s.bySource, now), source.value) then Some(Dropped(now))
      else Some(Recorded(now, user, true))
    case Finish(_, _) => None
  }

  /** All that a run does to one window. */
  function Touches(s: State, es: seq<Event>, who: Owner): seq<Touch>
    decreases |es|
  {
    if es == [] then []
    else
      var rest := Touches(Next(s, es[0]), es[1..], who);
      match TouchOf(s, es[0], who)
      case None => rest
      case Some(t) => [t] + rest
  }

  lemma WindowFollowsStep(s: State, e: Event, who: Owner)
    ensures WindowOf(Next(s, e), who) == match TouchOf(s, e, who)
                                         case None => WindowOf(s, who)
                                         case Some(t) => Apply(BoundsOf(who), WindowOf(s, who), t)
  {}

  lemma {:induction false} WindowFollowsRun(s: State, es: seq<Event>, who: Owner)
    ensures WindowOf(Run(s, es), who) == ApplyAll(BoundsOf(who), WindowOf(s, who), Touches(s, es, who))
    decreases |es|
  {
    if es == [] {
    } else {
      WindowFollowsStep(s, es[0], who);
      WindowFollowsRun(Next(s, es[0]), es[1..], who);
      var t, rest := TouchOf(s, es[0], who), Touches(Next(s, es[0]), es[1..], who);
      if t.Some? { assert ([t.value] + rest)[1..] == rest; }
    }
  }

  /** The distinct user names recorded. */
  function Names(ts: seq<Touch>): set<string> {
    if ts == [] then {}
    else
      var rest := Names(ts[1..]);
      if ts[0].Recorded? then {ts[0].user} + rest else rest
  }

  // ---- The rate bound on one window -------------------------------------------------------

  predicate Timed(ts: seq<Touch>, lo: nat, hi: nat) {
    && (forall i :: 0 <= i < |ts| ==> lo <= ts[i].at <= hi)
    && (forall i, j :: 0 <= i <= j < |ts| ==> ts[i].at <= ts[j].at)
  }

  lemma TimedTail(ts: seq<Touch>, lo: nat, hi: nat)
    requires Timed(ts, lo, hi) && ts != []
    ensures lo <= ts[0].at <= hi && Timed(ts[1..], ts[0].at, hi)
  {}

  lemma TimedCons(t: Touch, ts: seq<Touch>, lo: nat, hi: nat)
    requires lo <= t.at <= hi && Timed(ts, t.at, hi)
    ensures Timed([t] + ts, lo, hi)
  {}

  /** Recorded in a window during its cooldown. */
  predicate IsLate(w: Option<Window>, t: Touch) {
    t.Recorded? && w.Some? && t.at < w.value.blockedUntil
  }

  function LateCount(b: Bounds, w: Option<Window>, ts: seq<Touch>): nat
    decreases |ts|
  {
    if ts == [] then 0 else (if IsLate(w, ts[0]) then 1 else 0) + LateCount(b, Apply(b, w, ts[0]), ts[1..])
  }

  function PromptNames(b: Bounds, w: Option<Window>, ts: seq<Touch>): set<string>
    decreases |ts|
  {
    if ts == [] then {}
    else
      var rest := PromptNames(b, Apply(b, w, ts[0]), ts[1..]);
      if ts[0].Recorded? && !IsLate(w, ts[0]) then {ts[0].user} + rest else rest
  }

  lemma {:induction false} NamesSplit(b: Bounds, w: Option<Window>, ts: seq<Touch>)
    ensures PromptNames(b, w, ts) <= Names(ts)
    ensures |Names(ts)| <= |PromptNames(b, w, ts)| + LateCount(b, w, ts)
    decreases |ts|
  {
    if ts == [] {
    } else {
      NamesSplit(b, Apply(b, w, ts[0]), ts[1..]);
      var rest, prompt := Names(ts[1..]), PromptNames(b, Apply(b, w, ts[0]), ts[1..]);
      if ts[0].Recorded? {
        AddedOnce(rest, if IsLate(w, ts[0]) then {} else prompt, ts[0].user);
        assert rest + {ts[0].user} == {ts[0].user} + rest && prompt + {ts[0].user} == {ts[0].user} + prompt;
      }
    }
  }

  /** The smallest spacing the bounds guarantee between counting windows, on average. */
  const UNIT: nat := 60

  predicate Sound(b: Bounds) {
    b.window >= UNIT && b.cooldown >= UNIT && (b.window >= 2 * UNIT || b.cooldown >= 2 * UNIT)
  }

  /** The bookkeeping of the proof, from an instant lo on: names recorded so far, those among them
      in the current count, the counts closed that held some of them, when the current count
      started, whether a trip started it, and the last event. */
  datatype Tally = Tally(names: set<string>, current: set<string>, closed: nat, start: nat, byTrip: bool, at: nat)

  function Epochs(t: Tally): nat {
    t.closed + if t.current == {} then 0 else 1
  }

  predicate Spaced(b: Bounds, lo: nat, w: Option<Window>, t: Tally) {
    && (w.Some? ==> t.start == w.value.started)
    && (t.byTrip ==> w.Some?)
    && (t.closed >= 1 && !t.byTrip ==> lo + UNIT * (t.closed - 1) <= t.start <= t.at)
    && (t.closed >= 1 && t.byTrip ==>
          && lo + UNIT * (t.closed - 2) <= t.start <= t.at
          && w.value.blockedUntil == t.start + b.cooldown
          && (t.current != {} ==> t.start + b.cooldown <= t.at))
    && (Epochs(t) >= 1 ==> lo + UNIT * (Epochs(t) - 2) <= t.at)
    && lo <= t.at
  }

  /** n rounds of c names. */
  function Rounds(n: nat, c: nat): nat {
    if n == 0 then 0 else c + Rounds(n - 1, c)
  }

  lemma {:induction false} RoundsBounded(n: nat, c: nat, most: nat)
    requires n <= most
    ensures Rounds(n, c) <= c * most
    decreases most
  {
    if n == 0 {
    } else {
      RoundsBounded(n - 1, c, most - 1);
      assert c * most == c + c * (most - 1);
    }
  }

  predicate Counted(b: Bounds, w: Option<Window>, t: Tally) {
    && t.current <= t.names
    && (w.None? ==> t.current == {})
    && (w.Some? ==> t.current <= w.value.users)
    && |t.current| <= b.maxUsers
    && |t.names| <= Rounds(t.closed, b.maxUsers + 1) + |t.current|
  }

  predicate Tallied(b: Bounds, lo: nat, w: Option<Window>, t: Tally) {
    Spaced(b, lo, w, t) && Counted(b, w, t)
  }

  lemma AddedOnce(names: set<string>, current: set<string>, user: string)
    requires current <= names
    ensures |names + {user}| - |names| <= |current + {user}| - |current|
  {
    if user in current {
      assert current + {user} == current && names + {user} == names;
    }
  }

  /** A count that ages out, or a source forgotten. */
  lemma TallyClosed(b: Bounds, lo: nat, w: Option<Window>, t: Tally, now: nat, w': Option<Window>) returns (t': Tally)
    requires Sound(b) && Tallied(b, lo, w, t) && now >= t.at && w.Some?
    requires SaturatingSub(now, w.value.started) >= b.window
    requires w' == None || w' == Some(Roll(b, w.value, now))
    ensures Tallied(b, lo, w', t') && t'.names == t.names && t'.at == now
  {
    t' := Tally(t.names, {}, Epochs(t), now, false, now);
  }

  /** A recording into a count that has not aged out. */
  lemma TallyInserted(b: Bounds, lo: nat, w: Window, t: Tally, now: nat, user: string) returns (t': Tally)
    requires Sound(b) && Tallied(b, lo, Some(w), t) && now >= t.at && now >= w.blockedUntil
    ensures Tallied(b, lo, Some(Insert(b, w, user, now)), t') && t'.names == t.names + {user} && t'.at == now
  {
    var users := w.users + {user};
    var current := t.current + {user};
    SubsetSize(current, users);
    AddedOnce(t.names, t.current, user);
    if |users| > b.maxUsers {
      t' := Tally(t.names + {user}, {}, t.closed + 1, now, true, now);
    } else {
      t' := Tally(t.names + {user}, current, t.closed, t.start, t.byTrip, now);
    }
  }

  /** A recording in a cooldown counts no name, but can let the count age out. */
  lemma TallyLate(b: Bounds, lo: nat, w: Window, t: Tally, u: Touch) returns (t': Tally)
    requires Sound(b) && Tallied(b, lo, Some(w), t) && u.at >= t.at && IsLate(Some(w), u)
    ensures Tallied(b, lo, Apply(b, Some(w), u), t') && t'.names == t.names && t'.at == u.at
  {
    if SaturatingSub(u.at, w.started) >= b.window {
      t' := TallyClosed(b, lo, Some(w), t, u.at, Some(Roll(b, w, u.at)));
    } else {
      t' := t.(at := u.at);
    }
  }

  lemma TallyRecorded(b: Bounds, lo: nat, w: Option<Window>, t: Tally, now: nat, user: string, forgets: bool) returns (t': Tally)
    requires Sound(b) && Tallied(b, lo, w, t) && now >= t.at
    requires w.Some? ==> now >= w.value.blockedUntil
    ensures Tallied(b, lo, Apply(b, w, Recorded(now, user, forgets)), t') && t'.names == t.names + {user} && t'.at == now
  {
    var empty := Window({}, now, 0);
    assert Roll(b, empty, now) == empty;
    if w.None? {
      t' := TallyInserted(b, lo, empty, t.(start := now, at := now), now, user);
    } else if SaturatingSub(now, w.value.started) < b.window {
      t' := TallyInserted(b, lo, w.value, t, now, user);
    } else if forgets && Forgotten(b, w.value, now) {
      var t1 := TallyClosed(b, lo, w, t, now, None);
      t' := TallyInserted(b, lo, empty, t1.(start := now), now, user);
    } else {
      var t1 := TallyClosed(b, lo, w, t, now, Some(Roll(b, w.value, now)));
      t' := TallyInserted(b, lo, Roll(b, w.value, now), t1, now, user);
    }
  }

  lemma TallyTouched(b: Bounds, lo: nat, w: Option<Window>, t: Tally, u: Touch) returns (t': Tally)
    requires Sound(b) && Tallied(b, lo, w, t) && u.at >= t.at
    ensures Tallied(b, lo, Apply(b, w, u), t')
    ensures t'.names == (if u.Recorded? && !IsLate(w, u) then t.names + {u.user} else t.names) && t'.at == u.at
  {
    if IsLate(w, u) {
      t' := TallyLate(b, lo, w.value, t, u);
    } else if u.Recorded? {
      t' := TallyRecorded(b, lo, w, t, u.at, u.user, u.forgets);
    } else if Apply(b, w, u) != w {
      t' := TallyClosed(b, lo, w, t, u.at, Apply(b, w, u));
    } else {
      t' := t.(at := u.at);
    }
  }

  lemma {:induction false} TallyRun(b: Bounds, lo: nat, w: Option<Window>, t: Tally, ts: seq<Touch>, hi: nat) returns (t': Tally)
    requires Sound(b) && Tallied(b, lo, w, t) && t.at <= hi
    requires Timed(ts, t.at, hi)
    ensures Tallied(b, lo, ApplyAll(b, w, ts), t') && t'.names == t.names + PromptNames(b, w, ts) && t'.at <= hi
    decreases |ts|
  {
    if ts == [] {
      t' := t;
    } else {
      TimedTail(ts, t.at, hi);
      var t1 := TallyTouched(b, lo, w, t, ts[0]);
      t' := TallyRun(b, lo, Apply(b, w, ts[0]), t1, ts[1..], hi);
    }
  }

  /** The rate bound: in any span, one window records at most one cap and one of distinct names per
      UNIT seconds, plus two such rounds, plus what is recorded in its cooldowns. */
  lemma WindowRateBound(b: Bounds, w: Option<Window>, ts: seq<Touch>, lo: nat, hi: nat)
    requires Sound(b) && lo <= hi && Timed(ts, lo, hi)
    ensures |Names(ts)| <= (b.maxUsers + 1) * ((hi - lo) / UNIT + 2) + LateCount(b, w, ts)
  {
    NamesSplit(b, w, ts);
    var t0 := Tally({}, {}, 0, if w.Some? then w.value.started else 0, false, lo);
    var t := TallyRun(b, lo, w, t0, ts, hi);
    TallyBound(b, lo, ApplyAll(b, w, ts), t, hi);
  }

  lemma TallyBound(b: Bounds, lo: nat, w: Option<Window>, t: Tally, hi: nat)
    requires Tallied(b, lo, w, t) && t.at <= hi
    ensures |t.names| <= (b.maxUsers + 1) * ((hi - lo) / UNIT + 2)
  {
    assert |t.names| <= Rounds(Epochs(t), b.maxUsers + 1);
    RoundsBounded(Epochs(t), b.maxUsers + 1, (hi - lo) / UNIT + 2);
  }

  // ---- The rate bound on the limiter ------------------------------------------------------

  predicate Clocked(es: seq<Event>, lo: nat, hi: nat) {
    && (forall i :: 0 <= i < |es| ==> lo <= es[i].now <= hi)
    && (forall i, j :: 0 <= i <= j < |es| ==> es[i].now <= es[j].now)
  }

  /** Every failure is recorded at a time when the check would still have let the login through. */
  predicate CheckedRun(s: State, es: seq<Event>)
    decreases |es|
  {
    es == [] ||
    ((es[0].Note? ==> !Blocked(s, es[0].source, es[0].now)) && CheckedRun(Next(s, es[0]), es[1..]))
  }

  lemma {:induction false} TouchesTimed(s: State, es: seq<Event>, who: Owner, lo: nat, hi: nat)
    requires Clocked(es, lo, hi)
    ensures Timed(Touches(s, es, who), lo, hi)
    decreases |es|
  {
    if es == [] {
    } else {
      TouchesTimed(Next(s, es[0]), es[1..], who, es[0].now, hi);
      var t, rest := TouchOf(s, es[0], who), Touches(Next(s, es[0]), es[1..], who);
      if t.Some? { TimedCons(t.value, rest, lo, hi); }
    }
  }

  /** Whether an event is recorded during the owner's cooldown. */
  function LateNow(s: State, e: Event, who: Owner): nat {
    match TouchOf(s, e, who)
    case None => 0
    case Some(t) => if IsLate(WindowOf(s, who), t) then 1 else 0
  }

  function Late(s: State, es: seq<Event>, who: Owner): nat {
    LateCount(BoundsOf(who), WindowOf(s, who), Touches(s, es, who))
  }

  lemma LateStep(s: State, es: seq<Event>, who: Owner)
    requires es != []
    ensures Late(s, es, who) == LateNow(s, es[0], who) + Late(Next(s, es[0]), es[1..], who)
  {
    WindowFollowsStep(s, es[0], who);
    var t, rest := TouchOf(s, es[0], who), Touches(Next(s, es[0]), es[1..], who);
    if t.Some? { assert ([t.value] + rest)[1..] == rest; }
  }

  lemma {:induction false} CheckedIsNeverLate(s: State, es: seq<Event>, who: Owner)
    requires CheckedRun(s, es)
    ensures Late(s, es, who) == 0
    decreases |es|
  {
    if es == [] {
    } else {
      LateStep(s, es, who);
      CheckedIsNeverLate(Next(s, es[0]), es[1..], who);
    }
  }

  lemma {:induction false} RunConcat(s: State, es: seq<Event>, fs: seq<Event>)
    ensures Run(s, es + fs) == Run(Run(s, es), fs)
    ensures CheckedRun(s, es + fs) <==> CheckedRun(s, es) && CheckedRun(Run(s, es), fs)
    decreases |es|
  {
    if es == [] {
      assert es + fs == fs;
    } else {
      assert (es + fs)[1..] == es[1..] + fs;
      RunConcat(Next(s, es[0]), es[1..], fs);
    }
  }

  /** The limiter's promise, for a source and for the whole server, over every run in which each
      recorded failure passed the check at that time: in any span of D seconds at most
      11 * (D / 60 + 2) distinct names are recorded for a source, and 31 * (D / 60 + 2) in all. */
  lemma SprayRateBound(before: seq<Event>, during: seq<Event>, who: Owner, lo: nat, hi: nat)
    requires lo <= hi && Clocked(during, lo, hi) && CheckedRun(INIT, before + during)
    ensures |Names(Touches(Run(INIT, before), during, who))|
         <= (if who.Some? then 11 else 31) * ((hi - lo) / 60 + 2)
  {
    var b, s := BoundsOf(who), Run(INIT, before);
    RunConcat(INIT, before, during);
    CheckedIsNeverLate(s, during, who);
    TouchesTimed(s, during, who, lo, hi);
    WindowRateBound(b, WindowOf(s, who), Touches(s, during, who), lo, hi);
  }

  // ---- With logins in flight --------------------------------------------------------------

  predicate Concerns(e: Event, who: Owner) {
    who.None? || e.source == who
  }

  /** The logins of an owner in flight after an event. */
  function Flying(s: State, e: Event, who: Owner, n: nat): int {
    if !Concerns(e, who) then n
    else if !e.Check? then n - 1
    else if Blocked(s, e.source, e.now) then n else n + 1
  }

  /** At most k logins of the owner are ever between passing their check and their record or end,
      and nothing is recorded without a check: n of them are in flight at first. */
  predicate FewInFlight(s: State, es: seq<Event>, who: Owner, n: nat, k: nat)
    decreases |es|
  {
    n <= k && (es == [] || (Flying(s, es[0], who, n) >= 0
                            && FewInFlight(Next(s, es[0]), es[1..], who, Flying(s, es[0], who, n), k)))
  }

  lemma {:induction false} FewAfter(s: State, es: seq<Event>, fs: seq<Event>, who: Owner, n: nat, k: nat) returns (m: nat)
    requires FewInFlight(s, es + fs, who, n, k)
    ensures FewInFlight(Run(s, es), fs, who, m, k)
    decreases |es|
  {
    if es == [] {
      m := n;
      assert es + fs == fs;
    } else {
      assert (es + fs)[1..] == es[1..] + fs;
      m := FewAfter(Next(s, es[0]), es[1..], fs, who, Flying(s, es[0], who, n), k);
    }
  }

  function UntilOf(w: Option<Window>): nat {
    if w.Some? then w.value.blockedUntil else 0
  }

  /** The end of an owner's cooldown. */
  function Until(s: State, who: Owner): nat {
    UntilOf(WindowOf(s, who))
  }

  /** How many cooldowns can still start between now and hi. */
  function TripsLeft(cooldown: nat, until: nat, now: nat, hi: nat): nat
    requires cooldown == 60 || cooldown == 120
  {
    var first := if until > now then until else now;
    if hi < first then 0 else if cooldown == 60 then (hi - first) / 60 + 1 else (hi - first) / 120 + 1
  }

  /** What can still be recorded late: the logins in flight if a cooldown is on, and k for each
      cooldown still to come. */
  function LateBudget(s: State, who: Owner, n: nat, k: nat, now: nat, hi: nat): nat {
    (if Until(s, who) > now then n else 0) + k * TripsLeft(BoundsOf(who).cooldown, Until(s, who), now, hi)
  }

  lemma TripsLeftShrinks(c: nat, until: nat, now: nat, later: nat, hi: nat)
    requires (c == 60 || c == 120) && now <= later
    ensures TripsLeft(c, until, later, hi) <= TripsLeft(c, until, now, hi)
  {}

  lemma TimesMonotone(k: nat, a: nat, b: nat)
    requires a <= b
    ensures k * a <= k * b
  {
    assert k * b == k * a + k * (b - a);
  }

  lemma BudgetShrinks(s: State, who: Owner, n: nat, k: nat, now: nat, later: nat, hi: nat)
    requires now <= later
    ensures LateBudget(s, who, n, k, later, hi) <= LateBudget(s, who, n, k, now, hi)
  {
    var c := BoundsOf(who).cooldown;
    TripsLeftShrinks(c, Until(s, who), now, later, hi);
    TimesMonotone(k, TripsLeft(c, Until(s, who), later, hi), TripsLeft(c, Until(s, who), now, hi));
  }

  lemma UntilTouched(b: Bounds, w: Option<Window>, t: Touch)
    ensures var until := UntilOf(Apply(b, w, t));
            || until == UntilOf(w)
            || (UntilOf(w) <= t.at && until == 0)
            || (UntilOf(w) <= t.at && t.Recorded? && until == t.at + b.cooldown)
  {}

  /** An event moves the end of a cooldown only outside one: away, or to one cooldown from now. */
  lemma UntilStep(s: State, e: Event, who: Owner)
    ensures var until := Until(Next(s, e), who);
            || until == Until(s, who)
            || (Until(s, who) <= e.now && until == 0)
            || (Until(s, who) <= e.now && e.Note? && Concerns(e, who) && until == e.now + BoundsOf(who).cooldown)
  {
    WindowFollowsStep(s, e, who);
    var t := TouchOf(s, e, who);
    if t.Some? { UntilTouched(BoundsOf(who), WindowOf(s, who), t.value); }
  }

  lemma OneTripFewer(c: nat, until: nat, now: nat, hi: nat)
    requires (c == 60 || c == 120) && until <= now <= hi
    ensures TripsLeft(c, until, now, hi) == 1 + TripsLeft(c, now + c, now, hi)
  {}

  lemma FlyingStep(s: State, e: Event, who: Owner, n: nat)
    requires Until(s, who) > e.now
    ensures LateNow(s, e, who) + Flying(s, e, who, n) <= n
  {
    assert e.Check? && Concerns(e, who) ==> Blocked(s, e.source, e.now);
    assert LateNow(s, e, who) == 1 ==> e.Note? && Concerns(e, who);
  }

  /** The budget pays for one event: u and m are the cooldown's end and the logins in flight after it. */
  lemma BudgetPays(c: nat, k: nat, until: nat, u: nat, now: nat, hi: nat, n: nat, m: nat, late: nat)
    requires (c == 60 || c == 120) && now <= hi && m <= k
    requires if until > now then u == until && late + m <= n else late == 0 && (u <= now || u == now + c)
    ensures late + (if u > now then m else 0) + k * TripsLeft(c, u, now, hi)
         <= (if until > now then n else 0) + k * TripsLeft(c, until, now, hi)
  {
    if until <= now && u > now {
      OneTripFewer(c, until, now, hi);
      var left := TripsLeft(c, u, now, hi);
      assert k * (1 + left) == k + k * left;
    }
  }

  lemma {:induction false} LateWithinBudget(s: State, es: seq<Event>, who: Owner, n: nat, k: nat, lo: nat, hi: nat)
    requires FewInFlight(s, es, who, n, k) && Clocked(es, lo, hi)
    ensures Late(s, es, who) <= LateBudget(s, who, n, k, lo, hi)
    decreases |es|
  {
    if es == [] {
    } else {
      var e, s1 := es[0], Next(s, es[0]);
      var m: nat := Flying(s, e, who, n);
      LateStep(s, es, who);
      LateWithinBudget(s1, es[1..], who, m, k, e.now, hi);
      UntilStep(s, e, who);
      if Until(s, who) > e.now { FlyingStep(s, e, who, n); }
      BudgetPays(BoundsOf(who).cooldown, k, Until(s, who), Until(s1, who), e.now, hi, n, m, LateNow(s, e, who));
      BudgetShrinks(s, who, n, k, lo, e.now, hi);
    }
  }

  /** The promise with logins in flight, over every run: with never more than k of an owner's logins
      between check and record, at most 11 * (D / 60 + 2) + k * (D / 60 + 2) distinct names are
      recorded for a source in any span of D seconds, and 31 * (D / 60 + 2) + k * (D / 120 + 2) in all. */
  lemma InFlightRateBound(before: seq<Event>, during: seq<Event>, who: Owner, k: nat, lo: nat, hi: nat)
    requires lo <= hi && Clocked(during, lo, hi) && FewInFlight(INIT, before + during, who, 0, k)
    ensures |Names(Touches(Run(INIT, before), during, who))|
         <= (BoundsOf(who).maxUsers + 1) * ((hi - lo) / UNIT + 2) + k * ((hi - lo) / BoundsOf(who).cooldown + 2)
  {
    var b, s := BoundsOf(who), Run(INIT, before);
    var n := FewAfter(INIT, before, during, who, 0, k);
    LateWithinBudget(s, during, who, n, k, lo, hi);
    BudgetBounded(s, who, n, k, lo, hi);
    TouchesTimed(s, during, who, lo, hi);
    WindowRateBound(b, WindowOf(s, who), Touches(s, during, who), lo, hi);
  }

  lemma BudgetBounded(s: State, who: Owner, n: nat, k: nat, lo: nat, hi: nat)
    requires lo <= hi && n <= k
    ensures LateBudget(s, who, n, k, lo, hi) <= k * ((hi - lo) / BoundsOf(who).cooldown + 2)
  {
    var c, until := BoundsOf(who).cooldown, Until(s, who);
    TripsLeftShrinks(c, 0, lo, if until > lo then until else lo, hi);
    var most := (hi - lo) / c + 1;
    TimesMonotone(k, TripsLeft(c, until, lo, hi), most);
    assert k * (most + 1) == k * most + k;
  }

  // ---- Who never trips --------------------------------------------------------------------

  predicate NeverTripped(w: Option<Window>, seen: set<string>) {
    w.Some? ==> w.value.blockedUntil == 0 && w.value.users <= seen
  }

  lemma FewNamesStep(b: Bounds, w: Option<Window>, t: Touch, all: set<string>)
    requires NeverTripped(w, all) && (t.Recorded? ==> t.user in all) && |all| <= b.maxUsers
    ensures NeverTripped(Apply(b, w, t), all)
  {
    if t.Recorded? {
      var had := if w.Some? then w.value.users else {};
      SubsetSize(had + {t.user}, all);
      SubsetSize({} + {t.user}, all);
    }
  }

  lemma {:induction false} FewNamesKeepWindowOpen(b: Bounds, w: Option<Window>, ts: seq<Touch>, all: set<string>)
    requires NeverTripped(w, all) && Names(ts) <= all && |all| <= b.maxUsers
    ensures NeverTripped(ApplyAll(b, w, ts), all)
    decreases |ts|
  {
    if ts == [] {
    } else {
      FewNamesStep(b, w, ts[0], all);
      FewNamesKeepWindowOpen(b, Apply(b, w, ts[0]), ts[1..], all);
    }
  }

  /** A source that fails with at most ten distinct names in a whole run is never refused for it;
      likewise the server with at most thirty. */
  lemma FewNamesNeverBlock(es: seq<Event>, who: Owner)
    requires |Names(Touches(INIT, es, who))| <= BoundsOf(who).maxUsers
    ensures var w := WindowOf(Run(INIT, es), who); w.Some? ==> w.value.blockedUntil == 0
  {
    FewNamesKeepWindowOpen(BoundsOf(who), WindowOf(INIT, who), Touches(INIT, es, who), Names(Touches(INIT, es, who)));
    WindowFollowsRun(INIT, es, who);
  }

  /** And its logins are let through: with at most ten distinct names from the source and thirty in all,
      none is ever refused. */
  lemma FewNamesAreLetThrough(es: seq<Event>, source: Option<string>, now: nat)
    requires |Names(Touches(INIT, es, None))| <= 30
    requires source.Some? ==> |Names(Touches(INIT, es, source))| <= 10
    ensures !Blocked(Run(INIT, es), source, now)
  {
    FewNamesNeverBlock(es, None);
    if source.Some? { FewNamesNeverBlock(es, source); }
  }

  // ---- Who is refused ---------------------------------------------------------------------

  lemma {:induction false} UntilHolds(s: State, es: seq<Event>, who: Owner, until: nat)
    requires Until(s, who) == until && forall i :: 0 <= i < |es| ==> es[i].now < until
    ensures Until(Run(s, es), who) == until
    decreases |es|
  {
    if es == [] {
    } else {
      assert es[0].now < until;
      UntilStep(s, es[0], who);
      assert forall i :: 0 <= i < |es[1..]| ==> es[1..][i] == es[i + 1];
      UntilHolds(Next(s, es[0]), es[1..], who, until);
    }
  }

  lemma TripSetsUntil(s: State, source: Option<string>, username: string, now: nat, who: Owner)
    requires StartsCooldown(s, source, username, now)
    requires who == None || who == source
    requires if who.None? then Trips(GLOBAL, s.global, NormalizeLookupUsername(username), now)
             else var live := Retain(s.bySource, now);
                  && !TableFull(live, who.value) && Trips(PER_SOURCE, Tracked(live, who.value, now), NormalizeLookupUsername(username), now)
    ensures Until(Next(s, Note(source, username, now)), who) == now + if who.Some? then 60 else 120
  {}

  /** A failure that starts a cooldown refuses for as long as that lasts, whatever else happens: its source for 60
      seconds, and everyone for 120 if it is the server's. */
  lemma CooldownRefuses(s: State, source: Option<string>, username: string, now: nat, es: seq<Event>, at: nat)
    requires StartsCooldown(s, source, username, now)
    requires forall i :: 0 <= i < |es| ==> es[i].now <= at
    ensures var z := Run(Next(s, Note(source, username, now)), es);
            var all := Trips(GLOBAL, s.global, NormalizeLookupUsername(username), now);
            && (all && at < now + 120 ==> forall anyone :: Blocked(z, anyone, at))
            && (!all && at < now + 60 ==> Blocked(z, source, at))
  {
    var s1 := Next(s, Note(source, username, now));
    if Trips(GLOBAL, s.global, NormalizeLookupUsername(username), now) {
      TripSetsUntil(s, source, username, now, None);
      if at < now + 120 { UntilHolds(s1, es, None, now + 120); }
    } else {
      TripSetsUntil(s, source, username, now, source);
      if at < now + 60 { UntilHolds(s1, es, source, now + 60); }
    }
  }

  /** The window of a source that has failed with these names since it was last empty. */
  predicate Counts(s: State, source: string, names: set<string>, now: nat) {
    && s.bySource.Keys <= {source}
    && if names == {} then source !in s.bySource || s.bySource[source] == Window({}, now, 0)
       else source in s.bySource && s.bySource[source] == Window(names, now, 0)
  }

  lemma OneMoreName(s: State, source: string, names: set<string>, username: string, now: nat)
    requires Counts(s, source, names, now) && NormalizeLookupUsername(username) != []
    ensures var z, more := Next(s, Note(Some(source), username, now)), names + {NormalizeLookupUsername(username)};
            if |more| > 10 then source in z.bySource && z.bySource[source].blockedUntil == now + 60 else Counts(z, source, more, now)
  {
    var live := Retain(s.bySource, now);
    SubsetSize(live.Keys, {source});
    assert |live| == |live.Keys|;
    var user := NormalizeLookupUsername(username);
    assert {} + {user} == {user};
  }

  lemma NothingAdded(names: set<string>)
    ensures names + Normalized([]) == names
  {}

  lemma FirstAdded(names: set<string>, users: seq<string>)
    requires users != []
    ensures names + {NormalizeLookupUsername(users[0])} + Normalized(users[1..]) == names + Normalized(users)
  {
    NormalizedFirst(users);
  }

  lemma FirstNote(source: string, users: seq<string>, now: nat)
    requires users != []
    ensures var es := NotesAfter(source, users, now);
            es != [] && es[0] == Note(Some(source), users[0], now) && es[1..] == NotesAfter(source, users[1..], now)
  {}

  lemma CooldownHolds(s: State, source: string, users: seq<string>, now: nat)
    requires Until(s, Some(source)) == now + 60
    ensures Until(Run(s, NotesAfter(source, users, now)), Some(source)) == now + 60
  {
    var es := NotesAfter(source, users, now);
    forall i | 0 <= i < |es| ensures es[i].now < now + 60 { assert es[i] == Note(Some(source), users[i], now); }
    UntilHolds(s, es, Some(source), now + 60);
  }

  lemma {:induction false} NamesAddUp(s: State, source: string, names: set<string>, users: seq<string>, now: nat, all: set<string>)
    requires Counts(s, source, names, now) && users != []
    requires forall i :: 0 <= i < |users| ==> NormalizeLookupUsername(users[i]) != []
    requires names + Normalized(users) == all && |all| > 10
    ensures Until(Run(s, NotesAfter(source, users, now)), Some(source)) == now + 60
    decreases |users|
  {
    var more, rest := names + {NormalizeLookupUsername(users[0])}, users[1..];
    var s1 := Next(s, Note(Some(source), users[0], now));
    FirstNote(source, users, now);
    OneMoreName(s, source, names, users[0], now);
    assert Run(s, NotesAfter(source, users, now)) == Run(s1, NotesAfter(source, rest, now));
    if |more| > 10 {
      CooldownHolds(s1, source, rest, now);
    } else {
      FirstAdded(names, users);
      NothingAdded(more);
      NamesAddUp(s1, source, more, rest, now, all);
    }
  }

  /** The limiter does its work: a source that fails with more than ten distinct names is refused from then on
      for 60 seconds, by names as the directory knows them. */
  lemma ManyNamesAreRefused(source: string, users: seq<string>, now: nat, at: nat)
    requires forall i :: 0 <= i < |users| ==> NormalizeLookupUsername(users[i]) != []
    requires |Normalized(users)| > 10 && now <= at < now + 60
    ensures Blocked(Run(INIT, NotesAfter(source, users, now)), Some(source), at)
  {
    assert {} + Normalized(users) == Normalized(users);
    NothingAdded({});
    NamesAddUp(INIT, source, {}, users, now, Normalized(users));
  }

  // ---- The table of sources ---------------------------------------------------------------

  lemma RetainShrinks(m: map<string, Window>, now: nat)
    ensures |Retain(m, now)| <= |m|
  {
    SubsetSize(Retain(m, now).Keys, m.Keys);
    assert |Retain(m, now)| == |Retain(m, now).Keys| && |m| == |m.Keys|;
  }

  lemma NoteSourceBounded(m: map<string, Window>, source: Option<string>, user: string, now: nat)
    requires |m| <= MAX_TRACKED
    ensures |NoteSource(m, source, user, now)| <= MAX_TRACKED
  {
    RetainShrinks(m, now);
    var live := Retain(m, now);
    if source.Some? && !TableFull(live, source.value) {
      var next := NoteSource(m, source, user, now);
      assert next.Keys == live.Keys + {source.value};
      assert |next| == |next.Keys| && |live| == |live.Keys|;
    }
  }

  /** The table of sources never grows past its cap, in any run. */
  lemma {:induction false} TableBounded(s: State, es: seq<Event>)
    requires |s.bySource| <= MAX_TRACKED
    ensures |Run(s, es).bySource| <= MAX_TRACKED
    decreases |es|
  {
    if es == [] {
    } else {
      match es[0] {
        case Note(source, username, now) => NoteSourceBounded(s.bySource, source, NormalizeLookupUsername(username), now);
        case _ =>
      }
      TableBounded(Next(s, es[0]), es[1..]);
    }
  }

  // ---- Without the hypothesis -------------------------------------------------------------

  /** The check and the record are two calls with the directory bind in between. Logins that were
      all checked before any of them was recorded are recorded during the cooldown they cause,
      where nothing bounds them: any names at all, at one instant. */
  function ChecksFirst(source: string, users: seq<string>, now: nat): seq<Event> {
    seq(|users|, _ => Check(Some(source), now))
  }

  function NotesAfter(source: string, users: seq<string>, now: nat): seq<Event> {
    seq(|users|, i requires 0 <= i < |users| => Note(Some(source), users[i], now))
  }

  lemma {:induction false} ChecksPass(source: string, n: nat, now: nat, i: nat)
    requires i <= n
    ensures var es := seq(n, _ => Check(Some(source), now));
            Run(INIT, es[..i]).bySource == map[] && Run(INIT, es[..i]).global.blockedUntil == 0
  {
    var es := seq(n, _ => Check(Some(source), now));
    if i == 0 {
    } else {
      ChecksPass(source, n, now, i - 1);
      assert es[..i] == es[..i - 1] + [es[i - 1]];
      RunConcat(INIT, es[..i - 1], [es[i - 1]]);
      RunOne(Run(INIT, es[..i - 1]), es[i - 1]);
    }
  }

  lemma RunOne(s: State, e: Event)
    ensures Run(s, [e]) == Next(s, e)
  {}

  function Normalized(users: seq<string>): set<string> {
    set u <- users :: NormalizeLookupUsername(u)
  }

  lemma NormalizedFirst(users: seq<string>)
    requires users != []
    ensures Normalized(users) == {NormalizeLookupUsername(users[0])} + Normalized(users[1..])
  {}

  lemma OneRecorded(s: State, source: string, username: string, now: nat)
    requires s.bySource.Keys <= {source} && NormalizeLookupUsername(username) != []
    ensures TouchOf(s, Note(Some(source), username, now), Some(source))
         == Some(Recorded(now, NormalizeLookupUsername(username), true))
    ensures Next(s, Note(Some(source), username, now)).bySource.Keys <= {source}
  {}

  lemma {:induction false} AllRecorded(s: State, source: string, users: seq<string>, now: nat)
    requires s.bySource.Keys <= {source}
    requires forall i :: 0 <= i < |users| ==> NormalizeLookupUsername(users[i]) != []
    ensures Names(Touches(s, NotesAfter(source, users, now), Some(source))) == Normalized(users)
    decreases |users|
  {
    var es := NotesAfter(source, users, now);
    if users == [] {
    } else {
      var s1 := Next(s, es[0]);
      var rest := Touches(s1, es[1..], Some(source));
      assert es[1..] == NotesAfter(source, users[1..], now);
      OneRecorded(s, source, users[0], now);
      AllRecorded(s1, source, users[1..], now);
      var ts := [Recorded(now, NormalizeLookupUsername(users[0]), true)] + rest;
      assert Touches(s, es, Some(source)) == ts && ts[1..] == rest;
      NormalizedFirst(users);
    }
  }

  lemma InFlightFailuresAreUnbounded(source: string, users: seq<string>, now: nat)
    requires forall i :: 0 <= i < |users| ==> NormalizeLookupUsername(users[i]) != []
    ensures var checks := ChecksFirst(source, users, now);
            var s := Run(INIT, checks);
            && (forall i :: 0 <= i < |checks| ==> !Blocked(Run(INIT, checks[..i]), Some(source), now))
            && Names(Touches(s, NotesAfter(source, users, now), Some(source))) == Normalized(users)
  {
    var checks := ChecksFirst(source, users, now);
    forall i | 0 <= i <= |checks|
      ensures Run(INIT, checks[..i]).bySource == map[] && Run(INIT, checks[..i]).global.blockedUntil == 0
    {
      ChecksPass(source, |users|, now, i);
      assert checks == seq(|users|, _ => Check(Some(source), now));
    }
    assert checks[..|checks|] == checks;
    AllRecorded(Run(INIT, checks), source, users, now);
  }
}
