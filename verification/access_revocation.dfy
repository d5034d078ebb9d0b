/** User permissions with optimistic concurrency, and what a change of access revokes: the login
    sessions of the users concerned, and the live connections of the machines they used. */
module AccessRevocation {
  import opened Prelude
  import opened Text
  import opened ControllerGates
  import opened Seqs

  type Token = string
  type DeviceKey = string

  const MAX_VERSION: nat := 0xFFFF_FFFF_FFFF_FFFF

  datatype UserPolicy = UserPolicy(allowUserOverride: bool, options: map<string, string>)

  datatype UserPermission = UserPermission(
    enabled: bool, isAdmin: bool, allowedTargets: seq<string>, policy: UserPolicy, policyName: Option<string>,
    displayName: string, email: string, lastLogin: string)

  const DEFAULT_PERMISSION := UserPermission(false, false, [], UserPolicy(false, map[]), None, [], [], [])

  type Permissions = map<string, UserPermission>

  /** What a user may do, apart from the profile fields that a login refreshes. */
  datatype Access = Access(enabled: bool, isAdmin: bool, allowedTargets: seq<string>, policy: UserPolicy, policyName: Option<string>)

  function AccessOf(perms: Permissions, user: string): Option<Access> {
    if user in perms then
      var p := perms[user];
      Some(Access(p.enabled, p.isAdmin, p.allowedTargets, p.policy, p.policyName))
    else None
  }

  predicate SameAccess(a: Permissions, b: Permissions) {
    a.Keys == b.Keys && forall u <- a :: AccessOf(a, u) == AccessOf(b, u)
  }

  // ---- Target lists -----------------------------------------------------------------------

  /** Trimmed, without blanks, each target once, in order of first appearance. */
  function NormalizeTargets(targets: seq<string>): seq<string> {
    if targets == [] then []
    else
      var out, t := NormalizeTargets(targets[..|targets| - 1]), Trim(targets[|targets| - 1]);
      if t == [] || t in out then out else out + [t]
  }

  predicate Normal(ts: seq<string>) {
    && (forall i :: 0 <= i < |ts| ==> ts[i] != [] && Trim(ts[i]) == ts[i])
    && (forall i, j :: 0 <= i < j < |ts| ==> ts[i] != ts[j])
  }

  predicate Lists(targets: seq<string>, t: string) {
    t != [] && exists i :: 0 <= i < |targets| && Trim(targets[i]) == t
  }

  lemma ListsLast(targets: seq<string>, t: string)
    requires targets != []
    ensures Lists(targets, t) <==> Lists(targets[..|targets| - 1], t) || (t != [] && Trim(targets[|targets| - 1]) == t)
  {}

  /** A normalised list holds exactly the trimmed, non-blank targets given, each once. */
  lemma {:induction false} NormalizeTargetsExact(targets: seq<string>)
    ensures Normal(NormalizeTargets(targets))
    ensures forall t :: t in NormalizeTargets(targets) <==> Lists(targets, t)
  {
    if targets == [] {
    } else {
      NormalizeTargetsExact(targets[..|targets| - 1]);
      TrimIsIdempotent(targets[|targets| - 1]);
      forall t ensures t in NormalizeTargets(targets) <==> Lists(targets, t) { ListsLast(targets, t); }
    }
  }

  lemma {:induction false} NormalIsFixed(ts: seq<string>)
    requires Normal(ts)
    ensures NormalizeTargets(ts) == ts
  {
    if ts == [] {
    } else {
      var init := ts[..|ts| - 1];
      NormalIsFixed(init);
      assert ts == init + [ts[|ts| - 1]];
    }
  }

  lemma {:induction false} NormalizeTargetsIdempotent(targets: seq<string>)
    ensures NormalizeTargets(NormalizeTargets(targets)) == NormalizeTargets(targets)
  {
    NormalizeTargetsExact(targets);
    NormalIsFixed(NormalizeTargets(targets));
  }

  method ComputeTargets(targets: seq<string>) returns (out: seq<string>)
    ensures out == NormalizeTargets(targets)
  {
    out := [];
    for i := 0 to |targets|
      invariant out == NormalizeTargets(targets[..i])
    {
      assert targets[..i + 1][..i] == targets[..i];
      var t := Trim(targets[i]);
      if t != [] && t !in out { out := out + [t]; }
    }
    assert targets[..|targets|] == targets;
  }

  // ---- The permission store ---------------------------------------------------------------

  /** A save from a browser tab or a script: each part replaces what is stored, if present. The
      entries come in the order of the request's hash map; of two that normalise alike the last wins. */
  datatype Update = Update(
    version: Option<nat>, permissions: Option<seq<(string, UserPermission)>>, defaultTargets: Option<seq<string>>,
    requireLogin: Option<bool>, defaultPolicyName: Option<string>, adminPolicy: Option<UserPolicy>)

  /** The settings that are stored beside the permissions, and saved with them. */
  datatype Settings = Settings(defaultTargets: seq<string>, requireLogin: bool, defaultPolicyName: Option<string>, adminPolicy: UserPolicy)

  datatype Store = Store(permissions: Permissions, version: nat, settings: Settings)

  /** What an update leaves of the settings; a blank policy name clears the stored one. */
  function SavedSettings(c: Settings, u: Update): Settings {
    Settings(if u.defaultTargets.Some? then NormalizeTargets(u.defaultTargets.value) else c.defaultTargets,
             if u.requireLogin.Some? then u.requireLogin.value else c.requireLogin,
             if u.defaultPolicyName.None? then c.defaultPolicyName
             else if Trim(u.defaultPolicyName.value) == [] then None else u.defaultPolicyName,
             if u.adminPolicy.Some? then u.adminPolicy.value else c.adminPolicy)
  }

  function NormalizeAll(entries: seq<(string, UserPermission)>): Permissions {
    if entries == [] then map[]
    else
      var (k, v) := entries[|entries| - 1];
      NormalizeAll(entries[..|entries| - 1])[NormalizeLookupUsername(k) := v.(allowedTargets := NormalizeTargets(v.allowedTargets))]
  }

  predicate Admits(s: Store, u: Update) {
    u.version.None? || u.version.value == s.version
  }

  function Bumped(version: nat): nat {
    if version >= MAX_VERSION then MAX_VERSION else version + 1
  }

  function Saved(s: Store, u: Update): Store {
    if !Admits(s, u) then s
    else
      Store(if u.permissions.Some? then NormalizeAll(u.permissions.value) else s.permissions,
            Bumped(s.version),
            SavedSettings(s.settings, u))
  }

  function Refreshed(p: UserPermission, displayName: string, email: string): UserPermission {
    p.(displayName := if displayName == [] then p.displayName else displayName,
       email := if email == [] then p.email else email)
  }

  function SetEnabled(s: Store, username: string, enabled: bool, displayName: string, email: string): Store {
    var key := NormalizeLookupUsername(username);
    var had := if key in s.permissions then s.permissions[key]
               else DEFAULT_PERMISSION.(allowedTargets := s.settings.defaultTargets);
    s.(permissions := s.permissions[key := Refreshed(had.(enabled := enabled), displayName, email)],
       version := Bumped(s.version))
  }

  function RecordedLogin(s: Store, username: string, displayName: string, email: string, stamp: string): Store {
    var key := NormalizeLookupUsername(username);
    if key !in s.permissions then s
    else s.(permissions := s.permissions[key := Refreshed(s.permissions[key], displayName, email).(lastLogin := stamp)])
  }

  datatype Write =
    | Save(update: Update)
    | Enable(username: string, enabled: bool, displayName: string, email: string)
    | Login(username: string, displayName: string, email: string, stamp: string)

  function Next(s: Store, w: Write): Store {
    match w
    case Save(u) => Saved(s, u)
    case Enable(username, enabled, displayName, email) => SetEnabled(s, username, enabled, displayName, email)
    case Login(username, displayName, email, stamp) => RecordedLogin(s, username, displayName, email, stamp)
  }

  function Run(s: Store, ws: seq<Write>): Store
    decreases |ws|
  {
    if ws == [] then s else Run(Next(s, ws[0]), ws[1..])
  }

  /** A saved permission map has exactly the users named, and each as in the last entry that names it,
      with its targets normalised. */
  lemma {:induction false} SavedEntriesExact(entries: seq<(string, UserPermission)>, i: nat)
    requires i < |entries|
    requires forall j :: i < j < |entries| ==> NormalizeLookupUsername(entries[j].0) != NormalizeLookupUsername(entries[i].0)
    ensures var user, perms := NormalizeLookupUsername(entries[i].0), NormalizeAll(entries);
            user in perms && perms[user] == entries[i].1.(allowedTargets := NormalizeTargets(entries[i].1.allowedTargets))
    decreases |entries|
  {
    if i < |entries| - 1 { SavedEntriesExact(entries[..|entries| - 1], i); }
  }

  /** Some entry names the user. */
  predicate NamesUser(entries: seq<(string, UserPermission)>, user: string) {
    entries != [] &&
    (NormalizeLookupUsername(entries[|entries| - 1].0) == user || NamesUser(entries[..|entries| - 1], user))
  }

  lemma {:induction false} SavedUsersExact(entries: seq<(string, UserPermission)>, user: string)
    ensures user in NormalizeAll(entries) <==> NamesUser(entries, user)
  {
    if entries == [] {
    } else {
      SavedUsersExact(entries[..|entries| - 1], user);
    }
  }

  /** The enable switch sets one user's flag and nothing else of anyone's access; a new user gets the
      default targets, no admin right and no policy. */
  lemma SwitchExact(s: Store, username: string, enabled: bool, displayName: string, email: string, user: string)
    ensures var was, now := AccessOf(s.permissions, user), AccessOf(SetEnabled(s, username, enabled, displayName, email).permissions, user);
            now == if user != NormalizeLookupUsername(username) then was
                   else if was.Some? then Some(was.value.(enabled := enabled))
                   else Some(Access(enabled, false, s.settings.defaultTargets, UserPolicy(false, map[]), None))
  {}

  /** A write that may change access: an admitted save or an enable switch. */
  predicate ChangesAccess(s: Store, w: Write) {
    w.Enable? || (w.Save? && Admits(s, w.update))
  }

  predicate Untouched(s: Store, ws: seq<Write>)
    decreases |ws|
  {
    ws == [] || (!ChangesAccess(s, ws[0]) && Untouched(Next(s, ws[0]), ws[1..]))
  }

  lemma NextVersion(s: Store, w: Write)
    requires s.version <= MAX_VERSION
    ensures Next(s, w).version == if ChangesAccess(s, w) then Bumped(s.version) else s.version
    ensures !ChangesAccess(s, w) ==> SameAccess(s.permissions, Next(s, w).permissions)
  {}

  lemma {:induction false} VersionGrows(s: Store, ws: seq<Write>)
    requires s.version <= MAX_VERSION
    ensures s.version <= Run(s, ws).version <= MAX_VERSION
    ensures Run(s, ws).version == s.version <==> Untouched(s, ws) || s.version == MAX_VERSION
    ensures Untouched(s, ws) ==> SameAccess(s.permissions, Run(s, ws).permissions)
    decreases |ws|
  {
    if ws == [] {
    } else {
      NextVersion(s, ws[0]);
      VersionGrows(Next(s, ws[0]), ws[1..]);
    }
  }

  /** No lost access change, for every interleaving of versioned and unversioned saves, enable
      switches and logins: a save that carries the version of a store it read in one step is
      accepted later exactly if no admitted save or enable switch came in between; then every
      user's access is still what was read. Only a saturated version is the exception. */
  lemma StaleSaveRefused(read: Store, ws: seq<Write>, u: Update)
    requires read.version < MAX_VERSION && u.version == Some(read.version)
    ensures Admits(Run(read, ws), u) <==> Untouched(read, ws)
    ensures Admits(Run(read, ws), u) ==> SameAccess(read.permissions, Run(read, ws).permissions)
  {
    VersionGrows(read, ws);
  }

  /** At its largest value the version no longer moves, and every stale save is accepted. */
  lemma SaturatedVersionAcceptsAll(read: Store, ws: seq<Write>, u: Update)
    requires read.version == MAX_VERSION && u.version == Some(MAX_VERSION)
    ensures Admits(Run(read, ws), u)
  {
    VersionGrows(read, ws);
  }

  /** The permissions page reads the map and the version in two steps. A save based on that pair is
      safe, whatever happens later, if and only if access did not change between the two reads. */
  lemma TwoReadsSafeIff(s: Store, between: seq<Write>, u: Update)
    requires s.version < MAX_VERSION && Run(s, between).version < MAX_VERSION
    requires u.version == Some(Run(s, between).version)
    ensures (forall ws :: Admits(Run(Run(s, between), ws), u) ==>
                            SameAccess(s.permissions, Run(Run(s, between), ws).permissions))
       <==> SameAccess(s.permissions, Run(s, between).permissions)
  {
    var mid := Run(s, between);
    if SameAccess(s.permissions, mid.permissions) {
      forall ws | Admits(Run(mid, ws), u) ensures SameAccess(s.permissions, Run(mid, ws).permissions) {
        StaleSaveRefused(mid, ws, u);
      }
    } else {
      assert Run(mid, []) == mid && Admits(Run(mid, []), u);
    }
  }

  /** Such a lost change: an enable switch between the two reads. */
  lemma TwoReadsCanLoseAChange(s: Store, username: string, enabled: bool)
    requires s.version < MAX_VERSION - 1
    requires var key := NormalizeLookupUsername(username); key in s.permissions && s.permissions[key].enabled != enabled
    ensures var mid := Run(s, [Enable(username, enabled, [], [])]);
            Admits(mid, Update(Some(mid.version), None, None, None, None, None)) && !SameAccess(s.permissions, mid.permissions)
  {}

  // ---- Sessions and their eviction --------------------------------------------------------

  /** `admitted` and `stored` are history: the user's access when the login was checked and when its
      session was stored. */
  datatype LoginSession = LoginSession(username: string, deviceKey: DeviceKey, admitted: Option<Access>, stored: Option<Access>)

  type Sessions = map<Token, LoginSession>

  function UserOf(s: LoginSession): string {
    NormalizeLookupUsername(s.username)
  }

  /** The tests of the eviction, in order. */
  predicate Affected(before: Permissions, after: Permissions, user: string) {
    || user !in after
    || (user in before && before[user].enabled && !after[user].enabled)
    || user !in before
    || before[user].allowedTargets != after[user].allowedTargets
    || before[user].isAdmin != after[user].isAdmin
    || before[user].policy != after[user].policy
    || before[user].policyName != after[user].policyName
  }

  /** Same targets, admin flag and policy, and not disabled. */
  predicate Kept(was: Option<Access>, now: Option<Access>) {
    && was.Some? && now.Some?
    && was.value.allowedTargets == now.value.allowedTargets && was.value.isAdmin == now.value.isAdmin
    && was.value.policy == now.value.policy && was.value.policyName == now.value.policyName
    && (was.value.enabled ==> now.value.enabled)
  }

  lemma AffectedUnlessKept(before: Permissions, after: Permissions, user: string)
    ensures Affected(before, after, user) <==> !Kept(AccessOf(before, user), AccessOf(after, user))
  {}

  function Surviving(sessions: Sessions, before: Permissions, after: Permissions): Sessions {
    map t | t in sessions && !Affected(before, after, UserOf(sessions[t])) :: sessions[t]
  }

  /** The keys an eviction hands on: those of the evicted sessions, each once, none empty. */
  ghost predicate EvictedKeys(sessions: Sessions, left: Sessions, keys: seq<DeviceKey>) {
    && (forall i, j :: 0 <= i < j < |keys| ==> keys[i] != keys[j])
    && (forall k :: k in keys <==> k != [] && exists t <- sessions :: t !in left && sessions[t].deviceKey == k)
  }

  function NoteKey(keys: seq<DeviceKey>, k: DeviceKey): seq<DeviceKey> {
    if k != [] && k !in keys then keys + [k] else keys
  }

  lemma OneMoreGone(all: Sessions, gone: set<Token>, t: Token, keys: seq<DeviceKey>)
    requires EvictedKeys(all, all - gone, keys) && t in all && t !in gone
    ensures (all - gone) - {t} == all - (gone + {t})
    ensures EvictedKeys(all, all - (gone + {t}), NoteKey(keys, all[t].deviceKey))
  {}

  ghost function AffectedTokens(sessions: Sessions, before: Permissions, after: Permissions): set<Token> {
    set t <- sessions | Affected(before, after, UserOf(sessions[t]))
  }

  lemma AllGone(sessions: Sessions, before: Permissions, after: Permissions)
    ensures sessions - AffectedTokens(sessions, before, after) == Surviving(sessions, before, after)
  {}

  class SessionTable {
    var sessions: Sessions

    constructor (loaded: Sessions)
      ensures sessions == loaded
    {
      sessions := loaded;
    }

    method EvictChanged(before: Permissions, after: Permissions) returns (keys: seq<DeviceKey>)
      modifies this
      ensures sessions == Surviving(old(sessions), before, after)
      ensures EvictedKeys(old(sessions), sessions, keys)
    {
      ghost var all := sessions;
      AllGone(all, before, after);
      var toEvict := set t <- sessions | Affected(before, after, UserOf(sessions[t]));
      assert toEvict == AffectedTokens(all, before, after);
      ghost var gone: set<Token> := {};
      keys := [];
      assert all - {} == all;
      while toEvict != {}
        invariant toEvict + gone == AffectedTokens(all, before, after) && toEvict !! gone
        invariant toEvict <= all.Keys && sessions == all - gone
        invariant EvictedKeys(all, all - gone, keys)
        decreases toEvict
      {
        var t :| t in toEvict;
        OneMoreGone(all, gone, t, keys);
        keys := NoteKey(keys, sessions[t].deviceKey);
        sessions := sessions - {t};
        toEvict, gone := toEvict - {t}, gone + {t};
      }
    }
  }

  // ---- Writes, evictions and logins interleaved -------------------------------------------

  /** A login in flight: its user's access has been read, its session is not stored yet. In the step that
      admits it, `loginRequired` is the setting as read after the access: a write may come in between. */
  datatype Arrival = Arrival(username: string, deviceKey: DeviceKey, admitted: Option<Access>)

  /** The change a call made, kept until that call evicts by it. */
  datatype Change = Change(before: Permissions, after: Permissions)

  /** `pinned` are the device keys on the list, `proving` those that logins have proven whose user is
      not checked yet. */
  datatype System = System(
    store: Store, sessions: Sessions, changes: seq<Change>, arrivals: seq<Arrival>,
    pinned: set<DeviceKey>, proving: multiset<DeviceKey>)

  datatype Step =
    | WriteStep(write: Write)
    | EvictStep(change: nat)
    | PinStep(key: DeviceKey)
    | UnpinStep(key: DeviceKey)
    | DropKeyStep(key: DeviceKey)
    | ProveStep(key: DeviceKey)
    | AdmitStep(username: string, deviceKey: DeviceKey, displayName: string, email: string, stamp: string, loginRequired: bool)
    | OpenStep(arrival: nat, token: Token)
    | DropStep(token: Token)

  function WithoutKey(sessions: Sessions, key: DeviceKey): Sessions {
    map t | t in sessions && sessions[t].deviceKey != key :: sessions[t]
  }

  function Advance(y: System, e: Step): System {
    match e
    case WriteStep(w) =>
      var after := Next(y.store, w);
      if ChangesAccess(y.store, w) then
        y.(store := after, changes := y.changes + [Change(y.store.permissions, after.permissions)])
      else y.(store := after)
    case EvictStep(i) =>
      if i < |y.changes| then
        y.(sessions := Surviving(y.sessions, y.changes[i].before, y.changes[i].after), changes := RemoveAt(y.changes, i))
      else y
    case PinStep(key) => y.(pinned := y.pinned + {key})
    case UnpinStep(key) => y.(pinned := y.pinned - {key})
    case DropKeyStep(key) => y.(sessions := WithoutKey(y.sessions, key))
    case ProveStep(key) => if key in y.pinned then y.(proving := y.proving + multiset{key}) else y
    case AdmitStep(username, deviceKey, displayName, email, stamp, loginRequired) =>
      if deviceKey == [] || deviceKey in y.proving then
        var access := AccessOf(y.store.permissions, NormalizeLookupUsername(username));
        var refused := loginRequired && !(access.Some? && access.value.enabled);
        y.(store := RecordedLogin(y.store, username, displayName, email, stamp),
           arrivals := if refused then y.arrivals else y.arrivals + [Arrival(username, deviceKey, access)],
           proving := y.proving - multiset{deviceKey})
      else y
    case OpenStep(i, token) =>
      if i < |y.arrivals| && token !in y.sessions then
        var a := y.arrivals[i];
        var current := AccessOf(y.store.permissions, NormalizeLookupUsername(a.username));
        y.(sessions := y.sessions[token := LoginSession(a.username, a.deviceKey, a.admitted, current)],
           arrivals := RemoveAt(y.arrivals, i))
      else y
    case DropStep(token) => y.(sessions := y.sessions - {token})
  }

  function RunSystem(y: System, es: seq<Step>): System
    decreases |es|
  {
    if es == [] then y else RunSystem(Advance(y, es[0]), es[1..])
  }

  predicate Current(was: Option<Access>, now: Option<Access>) {
    was == now || Kept(was, now)
  }

  /** A change not yet evicted by will evict this user's sessions. */
  predicate Doomed(changes: seq<Change>, user: string) {
    exists i :: 0 <= i < |changes| && Affected(changes[i].before, changes[i].after, user)
  }

  predicate Accounted(y: System, s: LoginSession) {
    Current(s.stored, AccessOf(y.store.permissions, UserOf(s))) || Doomed(y.changes, UserOf(s))
  }

  ghost predicate AllAccounted(y: System) {
    forall t <- y.sessions :: Accounted(y, y.sessions[t])
  }

  lemma WriteAccounts(y: System, w: Write, s: LoginSession)
    requires Accounted(y, s)
    ensures Accounted(Advance(y, WriteStep(w)), s)
  {
    var y' := Advance(y, WriteStep(w));
    var user := UserOf(s);
    if Doomed(y.changes, user) {
      DoomedLonger(y.changes, y'.changes, user);
    } else if ChangesAccess(y.store, w) {
      AffectedUnlessKept(y.store.permissions, y'.store.permissions, user);
      var c := Change(y.store.permissions, y'.store.permissions);
      assert y'.changes[|y.changes|] == c;
    } else {
      assert AccessOf(y'.store.permissions, user) == AccessOf(y.store.permissions, user);
    }
  }

  lemma EvictAccounts(y: System, i: nat, s: LoginSession)
    requires i < |y.changes| && Accounted(y, s)
    requires !Affected(y.changes[i].before, y.changes[i].after, UserOf(s))
    ensures Accounted(Advance(y, EvictStep(i)), s)
  {
    if Doomed(y.changes, UserOf(s)) { DoomedStill(y.changes, i, UserOf(s)); }
  }

  predicate Opens(e: Step, t: Token) {
    e.OpenStep? && e.token == t
  }

  /** A step that does not reuse its token leaves a session as it is, accounted for, or ends it. */
  lemma AdvanceAccountsOne(y: System, e: Step, t: Token)
    requires t in y.sessions && Accounted(y, y.sessions[t])
    ensures var z := Advance(y, e);
            t in z.sessions ==> z.sessions[t] == y.sessions[t] && Accounted(z, z.sessions[t])
  {
    var s := y.sessions[t];
    match e
    case WriteStep(w) => WriteAccounts(y, w, s);
    case EvictStep(i) => if i < |y.changes| && t in Advance(y, e).sessions { EvictAccounts(y, i, s); }
    case AdmitStep(_, _, _, _, _, _) =>
      assert AccessOf(Advance(y, e).store.permissions, UserOf(s)) == AccessOf(y.store.permissions, UserOf(s));
    case _ =>
  }

  lemma AdvanceAccounts(y: System, e: Step)
    requires AllAccounted(y)
    ensures AllAccounted(Advance(y, e))
  {
    var z := Advance(y, e);
    forall t | t in z.sessions ensures Accounted(z, z.sessions[t]) {
      if t in y.sessions {
        assert Accounted(y, y.sessions[t]);
        AdvanceAccountsOne(y, e, t);
      }
    }
  }

  lemma {:induction false} RunAccounts(y: System, es: seq<Step>)
    requires AllAccounted(y)
    ensures AllAccounted(RunSystem(y, es))
    decreases |es|
  {
    if es == [] {
    } else {
      AdvanceAccounts(y, es[0]);
      RunAccounts(Advance(y, es[0]), es[1..]);
    }
  }

  /** Revocation is complete over every interleaving of saves, switches, evictions and logins: once
      no call has its eviction still ahead, every live session's user has the targets, admin flag and
      policy it had when the session was stored, and has not been disabled since. That reaches back
      to the login check unless access changed while that very login was in flight. */
  lemma RevocationIsComplete(y: System, es: seq<Step>, t: Token)
    requires y.sessions == map[] && t in RunSystem(y, es).sessions && RunSystem(y, es).changes == []
    ensures var z := RunSystem(y, es);
            var s := z.sessions[t];
            var now := AccessOf(z.store.permissions, UserOf(s));
            Current(s.stored, now) && (Current(s.admitted, s.stored) ==> Current(s.admitted, now))
  {
    RunAccounts(y, es);
    var z := RunSystem(y, es);
    assert Accounted(z, z.sessions[t]);
  }

  // ---- Back to the login check ------------------------------------------------------------

  /** Session tokens are not reused. */
  predicate NeverReopens(es: seq<Step>, t: Token) {
    forall i :: 0 <= i < |es| ==> !Opens(es[i], t)
  }

  /** A session that an outstanding eviction will end is ended by it, or earlier. */
  lemma DoomedOneStep(y: System, e: Step, t: Token)
    requires !Opens(e, t) && (t in y.sessions ==> Doomed(y.changes, UserOf(y.sessions[t])))
    ensures var z := Advance(y, e);
            t in z.sessions ==> t in y.sessions && z.sessions[t] == y.sessions[t] && Doomed(z.changes, UserOf(z.sessions[t]))
  {
    var z := Advance(y, e);
    if t in z.sessions {
      var user := UserOf(y.sessions[t]);
      if e.EvictStep? && e.change < |y.changes| {
        DoomedStill(y.changes, e.change, user);
      } else {
        DoomedLonger(y.changes, z.changes, user);
      }
    }
  }

  lemma DoomedStill(changes: seq<Change>, i: nat, user: string)
    requires i < |changes| && Doomed(changes, user) && !Affected(changes[i].before, changes[i].after, user)
    ensures Doomed(RemoveAt(changes, i), user)
  {
    var j :| 0 <= j < |changes| && Affected(changes[j].before, changes[j].after, user);
    assert RemoveAt(changes, i)[if j < i then j else j - 1] == changes[j];
  }

  lemma DoomedLonger(a: seq<Change>, b: seq<Change>, user: string)
    requires a <= b && Doomed(a, user)
    ensures Doomed(b, user)
  {
    var j :| 0 <= j < |a| && Affected(a[j].before, a[j].after, user);
    assert b[j] == a[j];
  }

  lemma {:induction false} DoomedEnds(y: System, es: seq<Step>, t: Token)
    requires NeverReopens(es, t) && (t in y.sessions ==> Doomed(y.changes, UserOf(y.sessions[t])))
    ensures RunSystem(y, es).changes == [] ==> t !in RunSystem(y, es).sessions
    decreases |es|
  {
    if es == [] {
    } else {
      DoomedOneStep(y, es[0], t);
      assert forall i :: 0 <= i < |es[1..]| ==> es[1..][i] == es[i + 1];
      DoomedEnds(Advance(y, es[0]), es[1..], t);
    }
  }

  lemma {:induction false} RunAccountsOne(y: System, es: seq<Step>, t: Token)
    requires NeverReopens(es, t) && (t in y.sessions ==> Accounted(y, y.sessions[t]))
    ensures var z := RunSystem(y, es);
            t in z.sessions ==> t in y.sessions && z.sessions[t] == y.sessions[t] && Accounted(z, z.sessions[t])
    decreases |es|
  {
    if es == [] {
    } else {
      var y1 := Advance(y, es[0]);
      if t in y.sessions { AdvanceAccountsOne(y, es[0], t); }
      assert t in y1.sessions ==> t in y.sessions by { assert !Opens(es[0], t); }
      assert forall i :: 0 <= i < |es[1..]| ==> es[1..][i] == es[i + 1];
      RunAccountsOne(y1, es[1..], t);
    }
  }

  /** The run that does every outstanding eviction and nothing else. */
  function EvictAll(n: nat): seq<Step> {
    seq(n, _ => EvictStep(0))
  }

  lemma EvictionSpares(y: System, t: Token)
    requires t in y.sessions && y.changes != [] && !Doomed(y.changes, UserOf(y.sessions[t]))
    ensures var z := Advance(y, EvictStep(0));
            && |z.changes| == |y.changes| - 1 && z.store == y.store && t in z.sessions && z.sessions[t] == y.sessions[t]
            && !Doomed(z.changes, UserOf(y.sessions[t]))
  {
    var z := Advance(y, EvictStep(0));
    assert !Affected(y.changes[0].before, y.changes[0].after, UserOf(y.sessions[t]));
    assert forall i :: 0 <= i < |z.changes| ==> z.changes[i] == y.changes[i + 1];
  }

  lemma {:induction false} EvictAllSpares(y: System, t: Token)
    requires t in y.sessions && !Doomed(y.changes, UserOf(y.sessions[t]))
    ensures var z := RunSystem(y, EvictAll(|y.changes|));
            z.changes == [] && z.store == y.store && t in z.sessions && z.sessions[t] == y.sessions[t]
    decreases |y.changes|
  {
    var es := EvictAll(|y.changes|);
    if y.changes == [] {
      assert es == [];
    } else {
      var y1 := Advance(y, EvictStep(0));
      EvictionSpares(y, t);
      assert es[0] == EvictStep(0) && es[1..] == EvictAll(|y1.changes|);
      EvictAllSpares(y1, t);
    }
  }

  /** Once no eviction is outstanding, the session under this token is gone or its user has this access. */
  predicate KeptAfter(y: System, es: seq<Step>, t: Token, access: Option<Access>) {
    var z := RunSystem(y, es);
    z.changes == [] && t in z.sessions ==> Current(access, AccessOf(z.store.permissions, UserOf(z.sessions[t])))
  }

  /** The access that was checked at login holds in every later state without outstanding eviction, for
      as long as the session lives, if and only if it still held when the session was stored, or an
      eviction that will end the session was outstanding then. */
  lemma CheckedAccessKeptIff(y: System, i: nat, t: Token)
    requires i < |y.arrivals| && t !in y.sessions
    ensures var y' := Advance(y, OpenStep(i, t));
            && var s := y'.sessions[t];
            && ((forall es :: NeverReopens(es, t) ==> KeptAfter(y', es, t, s.admitted))
                <==> Current(s.admitted, s.stored) || Doomed(y.changes, UserOf(s)))
  {
    var y' := Advance(y, OpenStep(i, t));
    var s := y'.sessions[t];
    if Current(s.admitted, s.stored) || Doomed(y.changes, UserOf(s)) {
      forall es | NeverReopens(es, t) ensures KeptAfter(y', es, t, s.admitted) {
        RunAccountsOne(y', es, t);
        if Doomed(y.changes, UserOf(s)) { DoomedEnds(y', es, t); }
      }
    } else {
      var es := EvictAll(|y'.changes|);
      EvictAllSpares(y', t);
      assert NeverReopens(es, t) && !KeptAfter(y', es, t, s.admitted);
    }
  }

  /** The exception is real: a login checked before its user is disabled and stored after the
      eviction leaves a live session of a disabled user. */
  lemma LoginInFlightOutlivesRevocation(store: Store, username: string, token: Token)
    requires var key := NormalizeLookupUsername(username); key in store.permissions && store.permissions[key].enabled
    ensures var es := [AdmitStep(username, [], [], [], [], true), WriteStep(Enable(username, false, [], [])),
                       EvictStep(0), OpenStep(0, token)];
            var z := RunSystem(System(store, map[], [], [], {}, multiset{}), es);
            && z.changes == [] && token in z.sessions
            && z.sessions[token].admitted.Some? && z.sessions[token].admitted.value.enabled
            && UserOf(z.sessions[token]) in z.store.permissions
            && !z.store.permissions[UserOf(z.sessions[token])].enabled
  {
    var y0 := System(store, map[], [], [], {}, multiset{});
    var e0, e1 := AdmitStep(username, [], [], [], [], true), WriteStep(Enable(username, false, [], []));
    RunFour(y0, e0, e1, EvictStep(0), OpenStep(0, token));
    var key := NormalizeLookupUsername(username);
    var y1 := Advance(y0, e0);
    assert y1.arrivals == [Arrival(username, [], AccessOf(store.permissions, key))] && y1.sessions == map[] && y1.changes == [];
    assert key in y1.store.permissions && y1.store.permissions[key].enabled;
    DisabledWhileInFlight(y1, username, token);
  }

  lemma DisabledWhileInFlight(y: System, username: string, token: Token)
    requires y.sessions == map[] && y.changes == [] && |y.arrivals| == 1 && y.arrivals[0].username == username
    requires var key := NormalizeLookupUsername(username); key in y.store.permissions && y.store.permissions[key].enabled
    ensures var z := Advance(Advance(Advance(y, WriteStep(Enable(username, false, [], []))), EvictStep(0)), OpenStep(0, token));
            && z.changes == [] && token in z.sessions && z.sessions[token].username == username
            && z.sessions[token].admitted == y.arrivals[0].admitted
            && var key := NormalizeLookupUsername(username);
            key in z.store.permissions && !z.store.permissions[key].enabled
  {
    var key := NormalizeLookupUsername(username);
    var y2 := Advance(y, WriteStep(Enable(username, false, [], [])));
    assert |y2.changes| == 1 && y2.arrivals == y.arrivals && y2.sessions == map[] && !y2.store.permissions[key].enabled;
    var y3 := Advance(y2, EvictStep(0));
    assert y3.changes == [] && y3.arrivals == y.arrivals && y3.sessions == map[] && y3.store == y2.store;
  }

  // ---- A user taken off the list, or disabled by a save -----------------------------------

  /** The save drops the user, or disables it although it was enabled. */
  ghost predicate TakesAway(perms: Permissions, entries: seq<(string, UserPermission)>, user: string) {
    || !NamesUser(entries, user)
    || (&& user in perms && perms[user].enabled
        && exists i: nat :: IsLastOf(entries, i) && NormalizeLookupUsername(entries[i].0) == user && !entries[i].1.enabled)
  }

  lemma TakenAwayIsAffected(perms: Permissions, entries: seq<(string, UserPermission)>, user: string)
    requires TakesAway(perms, entries, user)
    ensures Affected(perms, NormalizeAll(entries), user)
  {
    EntriesSaved(entries);
  }

  /** An admitted save that drops or disables a user ends the user's sessions: in any run that follows, none
      that was live at the save is left once no eviction is outstanding. */
  lemma SaveEndsSessions(y: System, u: Update, user: string, t: Token, es: seq<Step>)
    requires Admits(y.store, u) && u.permissions.Some? && TakesAway(y.store.permissions, u.permissions.value, user)
    requires t in y.sessions && UserOf(y.sessions[t]) == user && NeverReopens(es, t)
    ensures var z := RunSystem(Advance(y, WriteStep(Save(u))), es);
            z.changes == [] ==> t !in z.sessions
  {
    var y1 := Advance(y, WriteStep(Save(u)));
    TakenAwayIsAffected(y.store.permissions, u.permissions.value, user);
    assert y1.changes[|y.changes|] == Change(y.store.permissions, NormalizeAll(u.permissions.value));
    assert Doomed(y1.changes, user);
    DoomedEnds(y1, es, t);
  }

  /** And its own eviction does it at once. */
  lemma SaveThenEvictEndsSessions(y: System, u: Update, user: string)
    requires Admits(y.store, u) && u.permissions.Some? && TakesAway(y.store.permissions, u.permissions.value, user)
    ensures var z := Advance(Advance(y, WriteStep(Save(u))), EvictStep(|y.changes|));
            forall t <- z.sessions :: t in y.sessions && UserOf(z.sessions[t]) != user
  {
    var y1 := Advance(y, WriteStep(Save(u)));
    TakenAwayIsAffected(y.store.permissions, u.permissions.value, user);
    assert y1.changes[|y.changes|] == Change(y.store.permissions, NormalizeAll(u.permissions.value)) && y1.sessions == y.sessions;
  }

  // ---- A device key taken off the list ----------------------------------------------------

  predicate NoSessionOf(y: System, key: DeviceKey) {
    forall t <- y.sessions :: y.sessions[t].deviceKey != key
  }

  /** No login that has proven the key is still on its way to a session. */
  predicate NoneInFlight(y: System, key: DeviceKey) {
    key !in y.proving && forall i :: 0 <= i < |y.arrivals| ==> y.arrivals[i].deviceKey != key
  }

  predicate NeverPinned(es: seq<Step>, key: DeviceKey) {
    forall i :: 0 <= i < |es| ==> es[i] != PinStep(key)
  }

  lemma AdmittingUnpinned(y: System, e: Step, key: DeviceKey)
    requires e.AdmitStep? && key != [] && key !in y.pinned && NoSessionOf(y, key) && NoneInFlight(y, key)
    ensures var z := Advance(y, e); key !in z.pinned && NoSessionOf(z, key) && NoneInFlight(z, key)
  {
    var z := Advance(y, e);
    assert forall i :: 0 <= i < |z.arrivals| ==> i < |y.arrivals| || z.arrivals[i].deviceKey == e.deviceKey;
  }

  lemma OpeningUnpinned(y: System, i: nat, token: Token, key: DeviceKey)
    requires key != [] && key !in y.pinned && NoSessionOf(y, key) && NoneInFlight(y, key)
    ensures var z := Advance(y, OpenStep(i, token)); key !in z.pinned && NoSessionOf(z, key) && NoneInFlight(z, key)
  {
    var z := Advance(y, OpenStep(i, token));
    assert forall j :: 0 <= j < |z.arrivals| ==> z.arrivals[j] in y.arrivals;
  }

  lemma UnpinnedOneStep(y: System, e: Step, key: DeviceKey)
    requires key != [] && key !in y.pinned && NoSessionOf(y, key) && NoneInFlight(y, key) && e != PinStep(key)
    ensures var z := Advance(y, e); key !in z.pinned && NoSessionOf(z, key) && NoneInFlight(z, key)
  {
    match e
    case AdmitStep(_, _, _, _, _, _) => AdmittingUnpinned(y, e, key);
    case OpenStep(i, token) => OpeningUnpinned(y, i, token, key);
    case _ =>
  }

  lemma {:induction false} UnpinnedOpensNothing(y: System, es: seq<Step>, key: DeviceKey)
    requires key != [] && key !in y.pinned && NoSessionOf(y, key) && NoneInFlight(y, key) && NeverPinned(es, key)
    ensures NoSessionOf(RunSystem(y, es), key)
    decreases |es|
  {
    if es == [] {
    } else {
      assert es[0] != PinStep(key);
      assert forall i :: 0 <= i < |es[1..]| ==> es[1..][i] == es[i + 1];
      UnpinnedOneStep(y, es[0], key);
      UnpinnedOpensNothing(Advance(y, es[0]), es[1..], key);
    }
  }

  lemma InFlightOpens(y: System, key: DeviceKey, t: Token) returns (es: seq<Step>)
    requires !NoneInFlight(y, key) && t !in y.sessions
    ensures NeverPinned(es, key) && !NoSessionOf(RunSystem(y, es), key)
  {
    if key in y.proving {
      es := [AdmitStep([], key, [], [], [], false)] + [OpenStep(|y.arrivals|, t)];
      RunCons(y, es[0], [es[1]]);
      OpensOne(Advance(y, es[0]), |y.arrivals|, key, t);
    } else {
      var i :| 0 <= i < |y.arrivals| && y.arrivals[i].deviceKey == key;
      es := [OpenStep(i, t)];
      OpensOne(y, i, key, t);
    }
  }

  lemma OpensOne(y: System, i: nat, key: DeviceKey, t: Token)
    requires i < |y.arrivals| && y.arrivals[i].deviceKey == key && t !in y.sessions
    ensures !NoSessionOf(RunSystem(y, [OpenStep(i, t)]), key)
  {
    RunCons(y, OpenStep(i, t), []);
    assert [OpenStep(i, t)] == [OpenStep(i, t)] + [];
    assert t in Advance(y, OpenStep(i, t)).sessions;
  }

  /** Taking a device key off the list and then dropping its sessions ends them all, and none comes back,
      in any run that does not pin the key again, if and only if no login that had proven the key was
      in flight when its sessions were dropped. */
  lemma RemovedKeyStaysSilentIff(y: System, key: DeviceKey, t: Token)
    requires key != [] && key !in y.pinned && t !in y.sessions
    ensures var y' := Advance(y, DropKeyStep(key));
            && NoSessionOf(y', key)
            && ((forall es :: NeverPinned(es, key) ==> NoSessionOf(RunSystem(y', es), key)) <==> NoneInFlight(y, key))
  {
    var y' := Advance(y, DropKeyStep(key));
    if NoneInFlight(y, key) {
      forall es | NeverPinned(es, key) ensures NoSessionOf(RunSystem(y', es), key) { UnpinnedOpensNothing(y', es, key); }
    } else {
      var es := InFlightOpens(y', key, t);
    }
  }

  /** A session ends exactly when it is logged out, its device key's sessions are dropped, or an eviction runs
      by a change of its user's access; until then it stands as it was stored. */
  lemma SessionEndsIff(y: System, e: Step, t: Token)
    requires t in y.sessions
    ensures t !in Advance(y, e).sessions <==>
            || e == DropStep(t)
            || (e.DropKeyStep? && y.sessions[t].deviceKey == e.key)
            || (e.EvictStep? && e.change < |y.changes|
                && var c := y.changes[e.change]; Affected(c.before, c.after, NormalizeLookupUsername(y.sessions[t].username)))
    ensures t in Advance(y, e).sessions ==> Advance(y, e).sessions[t] == y.sessions[t]
  {}

  /** A login that shows a device key gets a session bound to it exactly if the key was on the list when it
      was proven and, where login is required, the user is enabled; its access is what the user had then. */
  lemma LoginOpensIff(y: System, e: Step, token: Token)
    requires e.AdmitStep? && token !in y.sessions && e.deviceKey != [] && e.deviceKey !in y.proving
    ensures var z := RunSystem(y, [ProveStep(e.deviceKey), e, OpenStep(|y.arrivals|, token)]);
            && var access := AccessOf(y.store.permissions, NormalizeLookupUsername(e.username));
            && (token in z.sessions <==> e.deviceKey in y.pinned && (e.loginRequired ==> access.Some? && access.value.enabled))
            && z.sessions == if token in z.sessions then y.sessions[token := LoginSession(e.username, e.deviceKey, access, access)] else y.sessions
  {
    RunThree(y, ProveStep(e.deviceKey), e, OpenStep(|y.arrivals|, token));
    AdmitsProven(y, e);
    OpensNext(Advance(Advance(y, ProveStep(e.deviceKey)), e), |y.arrivals|, token);
  }

  /** A login that is in flight opens its session, and one that is not opens nothing. */
  lemma OpensNext(y: System, i: nat, token: Token)
    requires token !in y.sessions
    ensures var z := Advance(y, OpenStep(i, token));
            if i < |y.arrivals| then
              var a := y.arrivals[i];
              var now := AccessOf(y.store.permissions, NormalizeLookupUsername(a.username));
              z.sessions == y.sessions[token := LoginSession(a.username, a.deviceKey, a.admitted, now)]
            else z == y
  {}

  lemma AdmitsProven(y: System, e: Step)
    requires e.AdmitStep? && e.deviceKey != [] && e.deviceKey !in y.proving
    ensures var z := Advance(Advance(y, ProveStep(e.deviceKey)), e);
            && var access := AccessOf(y.store.permissions, NormalizeLookupUsername(e.username));
            && z.sessions == y.sessions && AccessOf(z.store.permissions, NormalizeLookupUsername(e.username)) == access
            && z.arrivals == if e.deviceKey in y.pinned && (e.loginRequired ==> access.Some? && access.value.enabled)
                             then y.arrivals + [Arrival(e.username, e.deviceKey, access)] else y.arrivals
  {
    var y1 := Advance(y, ProveStep(e.deviceKey));
    assert e.deviceKey in y1.proving <==> e.deviceKey in y.pinned;
    assert y1.store == y.store && y1.arrivals == y.arrivals && y1.sessions == y.sessions;
    AdmitExact(y1, e);
  }

  lemma AdmitExact(y: System, e: Step)
    requires e.AdmitStep? && e.deviceKey != []
    ensures var z := Advance(y, e);
            && var access := AccessOf(y.store.permissions, NormalizeLookupUsername(e.username));
            && z.sessions == y.sessions && AccessOf(z.store.permissions, NormalizeLookupUsername(e.username)) == access
            && z.arrivals == if e.deviceKey in y.proving && (e.loginRequired ==> access.Some? && access.value.enabled)
                             then y.arrivals + [Arrival(e.username, e.deviceKey, access)] else y.arrivals
  {}

  lemma RunThree(y: System, e0: Step, e1: Step, e2: Step)
    ensures RunSystem(y, [e0, e1, e2]) == Advance(Advance(Advance(y, e0), e1), e2)
  {
    RunCons(y, e0, [e1, e2]);
    RunCons(Advance(y, e0), e1, [e2]);
    RunCons(Advance(Advance(y, e0), e1), e2, []);
    assert [e0] + [e1, e2] == [e0, e1, e2] && [e1] + [e2] == [e1, e2] && [e2] + [] == [e2];
  }

  lemma RunFour(y: System, e0: Step, e1: Step, e2: Step, e3: Step)
    ensures RunSystem(y, [e0, e1, e2, e3]) == Advance(Advance(Advance(Advance(y, e0), e1), e2), e3)
  {
    RunCons(y, e0, [e1, e2, e3]);
    RunCons(Advance(y, e0), e1, [e2, e3]);
    RunCons(Advance(Advance(y, e0), e1), e2, [e3]);
    RunCons(Advance(Advance(Advance(y, e0), e1), e2), e3, []);
    assert [e0] + [e1, e2, e3] == [e0, e1, e2, e3] && [e1] + [e2, e3] == [e1, e2, e3] && [e2] + [e3] == [e2, e3] && [e3] + [] == [e3];
  }

  lemma RunCons(y: System, e: Step, es: seq<Step>)
    ensures RunSystem(y, [e] + es) == RunSystem(Advance(y, e), es)
  {}

  // ---- Ending the connections of evicted users --------------------------------------------

  datatype PinnedKey = PinnedKey(publicKey: DeviceKey, peerId: string)

  datatype Connection = Connection(source: string, target: string)

  predicate Bound(table: seq<PinnedKey>, keys: seq<DeviceKey>, id: string) {
    id != [] && exists i :: 0 <= i < |table| && table[i].publicKey in keys && table[i].peerId == id
  }

  method PeerIdsForDeviceKeys(table: seq<PinnedKey>, keys: seq<DeviceKey>) returns (ids: seq<string>)
    ensures forall id :: id in ids <==> Bound(table, keys, id)
    ensures forall i, j :: 0 <= i < j < |ids| ==> ids[i] != ids[j]
  {
    ids := [];
    for i := 0 to |table|
      invariant forall id :: id in ids <==> Bound(table[..i], keys, id)
      invariant forall i, j :: 0 <= i < j < |ids| ==> ids[i] != ids[j]
    {
      ghost var had := ids;
      var k := table[i];
      if k.peerId != [] && k.publicKey in keys && k.peerId !in ids { ids := ids + [k.peerId]; }
      forall id ensures id in ids <==> Bound(table[..i + 1], keys, id) {
        BoundFirst(table, i, keys, id);
      }
    }
    assert table[..|table|] == table;
  }

  lemma BoundFirst(table: seq<PinnedKey>, i: nat, keys: seq<DeviceKey>, id: string)
    requires i < |table|
    ensures Bound(table[..i + 1], keys, id) <==>
            Bound(table[..i], keys, id) || (id != [] && table[i].publicKey in keys && table[i].peerId == id)
  {}

  /** A row of one of these controllers points at this target. */
  predicate Reached(rows: seq<Connection>, controllers: seq<string>, target: string) {
    exists i :: 0 <= i < |rows| && rows[i].source in controllers && rows[i].target == target
  }

  function Others(rows: seq<Connection>, controllers: seq<string>): seq<Connection> {
    if rows == [] then []
    else (if rows[0].source in controllers then [] else [rows[0]]) + Others(rows[1..], controllers)
  }

  lemma {:induction false} OthersExact(rows: seq<Connection>, controllers: seq<string>, r: Connection)
    ensures multiset(Others(rows, controllers))[r] == if r.source in controllers then 0 else multiset(rows)[r]
  {
    if rows == [] {
    } else {
      assert rows == [rows[0]] + rows[1..];
      OthersExact(rows[1..], controllers, r);
    }
  }

  lemma {:induction false} OthersNext(rows: seq<Connection>, controllers: seq<string>, i: nat)
    requires i < |rows|
    ensures Others(rows[..i + 1], controllers)
         == Others(rows[..i], controllers) + if rows[i].source in controllers then [] else [rows[i]]
  {
    if i == 0 {
      assert rows[..1] == [rows[0]] && rows[..1][1..] == [];
    } else {
      assert rows[..i + 1][1..] == rows[1..][..i] && rows[..i][1..] == rows[1..][..i - 1];
      OthersNext(rows[1..], controllers, i - 1);
    }
  }

  function StampOf(stamps: map<string, nat>, id: string): nat {
    if id in stamps then stamps[id] else 0
  }

  class ConnectionStore {
    var connections: seq<Connection>
    var terminate: map<string, nat>

    constructor ()
      ensures connections == [] && terminate == map[]
    {
      connections, terminate := [], map[];
    }

    method SetPeerTerminate(id: string, now: nat) returns (stamp: nat)
      modifies this`terminate
      ensures StampOf(terminate, id) == stamp == (if now > StampOf(old(terminate), id) then now else StampOf(old(terminate), id))
      ensures forall other :: other != id ==> StampOf(terminate, other) == StampOf(old(terminate), other)
    {
      var slot := if id in terminate then terminate[id] else 0;
      if now > slot { slot := now; }
      terminate := terminate[id := slot];
      stamp := slot;
    }

    /** Removes exactly the controllers' rows, and orders each target of those rows to drop its
        sessions as of now or later; no other stamp moves, and none moves back. */
    method TerminateSessionsFromControllers(controllers: seq<string>, now: nat) returns (targets: seq<string>)
      modifies this
      ensures connections == Others(old(connections), controllers)
      ensures forall t :: t in targets <==> Reached(old(connections), controllers, t)
      ensures forall i, j :: 0 <= i < j < |targets| ==> targets[i] != targets[j]
      ensures forall id :: StampOf(terminate, id) ==
                           if id in targets && now > StampOf(old(terminate), id) then now else StampOf(old(terminate), id)
    {
      targets := [];
      if controllers == [] {
        NoControllers(connections);
        return;
      }
      for i := 0 to |connections|
        invariant connections == old(connections) && terminate == old(terminate)
        invariant forall t :: t in targets <==> Reached(connections[..i], controllers, t)
        invariant forall i, j :: 0 <= i < j < |targets| ==> targets[i] != targets[j]
      {
        var c := connections[i];
        if c.source in controllers && c.target !in targets { targets := targets + [c.target]; }
        forall t ensures t in targets <==> Reached(connections[..i + 1], controllers, t) {
          ReachedNext(connections, controllers, i, t);
        }
      }
      assert connections[..|connections|] == connections;
      for i := 0 to |targets|
        invariant connections == old(connections)
        invariant forall id :: StampOf(terminate, id) ==
                               if id in targets[..i] && now > StampOf(old(terminate), id) then now else StampOf(old(terminate), id)
      {
        var _ := SetPeerTerminate(targets[i], now);
        assert targets[..i + 1] == targets[..i] + [targets[i]];
      }
      assert targets[..|targets|] == targets;
      ghost var stamps := terminate;
      var left: seq<Connection> := [];
      for i := 0 to |connections|
        invariant connections == old(connections) && terminate == stamps && left == Others(connections[..i], controllers)
      {
        OthersNext(connections, controllers, i);
        if connections[i].source !in controllers { left := left + [connections[i]]; }
      }
      assert connections[..|connections|] == connections;
      connections := left;
    }
  }

  lemma {:induction false} NoControllers(rows: seq<Connection>)
    ensures Others(rows, []) == rows
  {
    if rows == [] {
    } else {
      NoControllers(rows[1..]);
      assert rows == [rows[0]] + rows[1..];
    }
  }

  lemma ReachedNext(rows: seq<Connection>, controllers: seq<string>, i: nat, t: string)
    requires i < |rows|
    ensures Reached(rows[..i + 1], controllers, t) <==>
            Reached(rows[..i], controllers, t) || (rows[i].source in controllers && rows[i].target == t)
  {}

  /** From the permission change to the wire: for a session whose user lost access, the machine its
      device key is bound to has no connection row left, and every target it was connected to is
      under a stamp of now or later. */
  method Revoke(sessions: SessionTable, store: ConnectionStore, table: seq<PinnedKey>,
                before: Permissions, after: Permissions, now: nat) returns (targets: seq<string>)
    modifies sessions, store
    ensures sessions.sessions == Surviving(old(sessions.sessions), before, after)
    ensures forall t, i :: t in old(sessions.sessions) && t !in sessions.sessions && 0 <= i < |table|
                           && table[i].publicKey == old(sessions.sessions)[t].deviceKey != [] && table[i].peerId != []
                           ==> (forall c <- store.connections :: c.source != table[i].peerId)
                               && (forall c <- old(store.connections) :: c.source == table[i].peerId ==> StampOf(store.terminate, c.target) >= now)
    ensures forall id :: StampOf(store.terminate, id) >= StampOf(old(store.terminate), id)
  {
    ghost var had, rows := sessions.sessions, store.connections;
    var keys := sessions.EvictChanged(before, after);
    var controllers := PeerIdsForDeviceKeys(table, keys);
    targets := store.TerminateSessionsFromControllers(controllers, now);
    forall t, i | t in had && t !in sessions.sessions && 0 <= i < |table|
                  && table[i].publicKey == had[t].deviceKey != [] && table[i].peerId != []
      ensures (forall c <- store.connections :: c.source != table[i].peerId)
              && (forall c <- rows :: c.source == table[i].peerId ==> StampOf(store.terminate, c.target) >= now)
    {
      assert had[t].deviceKey in keys;
      assert Bound(table, keys, table[i].peerId);
      forall c | c in store.connections ensures c.source != table[i].peerId {
        OthersExact(rows, controllers, c);
      }
      forall c | c in rows && c.source == table[i].peerId ensures StampOf(store.terminate, c.target) >= now {
        var j :| 0 <= j < |rows| && rows[j] == c;
        assert Reached(rows, controllers, c.target);
      }
    }
  }

  /** The entry is the last that names its user: the user ends up as it says, with exactly its trimmed,
      non-blank targets. */
  predicate IsLastOf(entries: seq<(string, UserPermission)>, i: nat) {
    i < |entries| && forall j :: i < j < |entries| ==> NormalizeLookupUsername(entries[j].0) != NormalizeLookupUsername(entries[i].0)
  }

  ghost predicate SavedAs(p: UserPermission, sent: UserPermission) {
    && p == sent.(allowedTargets := p.allowedTargets)
    && Normal(p.allowedTargets) && forall t :: t in p.allowedTargets <==> Lists(sent.allowedTargets, t)
  }

  lemma EntriesSaved(entries: seq<(string, UserPermission)>)
    ensures forall user :: user in NormalizeAll(entries) <==> NamesUser(entries, user)
    ensures forall i: nat :: IsLastOf(entries, i) ==>
              var user := NormalizeLookupUsername(entries[i].0);
              user in NormalizeAll(entries) && SavedAs(NormalizeAll(entries)[user], entries[i].1)
  {
    forall user ensures user in NormalizeAll(entries) <==> NamesUser(entries, user) { SavedUsersExact(entries, user); }
    forall i: nat | IsLastOf(entries, i)
      ensures var user := NormalizeLookupUsername(entries[i].0);
              user in NormalizeAll(entries) && SavedAs(NormalizeAll(entries)[user], entries[i].1)
    {
      SavedEntriesExact(entries, i);
      NormalizeTargetsExact(entries[i].1.allowedTargets);
    }
  }

  class PermissionStore {
    var permissions: Permissions
    var version: nat
    var defaultTargets: seq<string>
    var requireLogin: bool
    var defaultPolicyName: Option<string>
    var adminPolicy: UserPolicy

    function View(): Store
      reads this
    {
      Store(permissions, version, Settings(defaultTargets, requireLogin, defaultPolicyName, adminPolicy))
    }

    constructor (loaded: Store)
      ensures View() == loaded
    {
      permissions, version, defaultTargets := loaded.permissions, loaded.version, loaded.settings.defaultTargets;
      requireLogin, defaultPolicyName := loaded.settings.requireLogin, loaded.settings.defaultPolicyName;
      adminPolicy := loaded.settings.adminPolicy;
    }

    method SaveSettings(u: Update)
      modifies `defaultTargets, `requireLogin, `defaultPolicyName, `adminPolicy
      ensures View() == old(View()).(settings := SavedSettings(old(View()).settings, u))
      ensures u.defaultTargets.None? ==> defaultTargets == old(defaultTargets)
      ensures u.defaultTargets.Some? ==>
                Normal(defaultTargets) && forall t :: t in defaultTargets <==> Lists(u.defaultTargets.value, t)
      ensures requireLogin == if u.requireLogin.Some? then u.requireLogin.value else old(requireLogin)
      ensures u.defaultPolicyName.None? ==> defaultPolicyName == old(defaultPolicyName)
      ensures u.defaultPolicyName.Some? ==>
                defaultPolicyName == if Trim(u.defaultPolicyName.value) == [] then None else u.defaultPolicyName
      ensures adminPolicy == if u.adminPolicy.Some? then u.adminPolicy.value else old(adminPolicy)
    {
      if u.defaultTargets.Some? { NormalizeTargetsExact(u.defaultTargets.value); }
      if u.defaultTargets.Some? { defaultTargets := ComputeTargets(u.defaultTargets.value); }
      if u.requireLogin.Some? { requireLogin := u.requireLogin.value; }
      if u.defaultPolicyName.Some? {
        defaultPolicyName := if Trim(u.defaultPolicyName.value) == [] then None else u.defaultPolicyName;
      }
      if u.adminPolicy.Some? { adminPolicy := u.adminPolicy.value; }
    }

    method UpdatePermissions(u: Update) returns (r: Result<(Permissions, nat), string>)
      modifies this
      ensures View() == Next(old(View()), Save(u))
      ensures r.Ok? <==> u.version.None? || u.version.value == old(version)
      ensures r.Ok? ==> r.value == (permissions, version)
      ensures r.Err? ==> View() == old(View())
      ensures r.Ok? ==> version == if old(version) < MAX_VERSION then old(version) + 1 else MAX_VERSION
      ensures r.Ok? && u.permissions.None? ==> permissions == old(permissions)
      ensures r.Ok? && u.permissions.Some? ==> forall user :: user in permissions <==> NamesUser(u.permissions.value, user)
      ensures r.Ok? && u.permissions.Some? ==>
                forall i: nat :: IsLastOf(u.permissions.value, i) ==>
                  var user := NormalizeLookupUsername(u.permissions.value[i].0);
                  user in permissions && SavedAs(permissions[user], u.permissions.value[i].1)
      ensures r.Ok? ==> View().settings == SavedSettings(old(View()).settings, u)
    {
      if u.version.Some? && u.version.value != version { return Err("version mismatch"); }
      if u.permissions.Some? {
        var entries := u.permissions.value;
        permissions := map[];
        for i := 0 to |entries|
          invariant permissions == NormalizeAll(entries[..i])
          invariant View() == old(View()).(permissions := permissions)
        {
          var (k, v) := entries[i];
          var targets := ComputeTargets(v.allowedTargets);
          assert entries[..i + 1][..i] == entries[..i];
          permissions := permissions[NormalizeLookupUsername(k) := v.(allowedTargets := targets)];
        }
        assert entries[..|entries|] == entries;
        EntriesSaved(entries);
      }
      SaveSettings(u);
      version := if version >= MAX_VERSION then MAX_VERSION else version + 1;
      r := Ok((permissions, version));
    }

    method SetUserEnabled(username: string, enabled: bool, displayName: string, email: string)
        returns (key: string, entry: UserPermission, newVersion: nat)
      modifies this
      ensures View() == Next(old(View()), Enable(username, enabled, displayName, email))
      ensures key == NormalizeLookupUsername(username) && permissions == old(permissions)[key := entry] && newVersion == version
      ensures version == if old(version) < MAX_VERSION then old(version) + 1 else MAX_VERSION
      ensures entry.enabled == enabled
      ensures entry.displayName == if displayName != [] then displayName else if key in old(permissions) then old(permissions)[key].displayName else []
      ensures entry.email == if email != [] then email else if key in old(permissions) then old(permissions)[key].email else []
      ensures key in old(permissions) ==>
                entry == old(permissions)[key].(enabled := enabled, displayName := entry.displayName, email := entry.email)
      ensures key !in old(permissions) ==>
                !entry.isAdmin && entry.allowedTargets == old(defaultTargets) && entry.policyName == None && entry.lastLogin == []
    {
      key := NormalizeLookupUsername(username);
      entry := if key in permissions then permissions[key] else DEFAULT_PERMISSION.(allowedTargets := defaultTargets);
      entry := entry.(enabled := enabled);
      if displayName != [] { entry := entry.(displayName := displayName); }
      if email != [] { entry := entry.(email := email); }
      permissions := permissions[key := entry];
      version := if version >= MAX_VERSION then MAX_VERSION else version + 1;
      newVersion := version;
    }

    method RecordLogin(username: string, displayName: string, email: string, stamp: string)
        returns (known: bool, enabled: bool, isAdmin: bool)
      modifies this
      ensures View() == Next(old(View()), Login(username, displayName, email, stamp))
      ensures var access := AccessOf(permissions, NormalizeLookupUsername(username));
              (known, enabled, isAdmin) == if access.Some? then (true, access.value.enabled, access.value.isAdmin) else (false, false, false)
      ensures known <==> NormalizeLookupUsername(username) in old(permissions)
      ensures !known ==> permissions == old(permissions)
      ensures known ==> var key := NormalizeLookupUsername(username);
                        var was := old(permissions)[key];
                        permissions == old(permissions)[key := was.(displayName := if displayName != [] then displayName else was.displayName,
                                                                    email := if email != [] then email else was.email,
                                                                    lastLogin := stamp)]
    {
      var key := NormalizeLookupUsername(username);
      if key !in permissions { return false, false, false; }
      var entry := permissions[key];
      if displayName != [] { entry := entry.(displayName := displayName); }
      if email != [] { entry := entry.(email := email); }
      entry := entry.(lastLogin := stamp);
      permissions := permissions[key := entry];
      return true, entry.enabled, entry.isAdmin;
    }
  }
}
