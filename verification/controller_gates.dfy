/** The gates a connection request passes before hbbs brokers it: the target's policy, who the
    controller is and what its own policy allows, and what its signed-in user may reach. */
module ControllerGates {
  import opened Prelude
  import opened Text

  type PeerId = string
  type Uuid = seq<bv8>

  /** A database answer, or the error that kept it from being given. */
  datatype Lookup<+T> = Answer(value: T) | DbError

  /** A registered peer with the two policy options the controller gate reads. */
  datatype Registered = Registered(uuid: Uuid, status: Option<int>,
                                   outboundEnabled: Option<string>, outboundTargets: Option<string>)

  datatype Session = Session(username: string, deviceKey: string, expiresAt: nat)

  datatype Permission = Permission(enabled: bool, isAdmin: bool, allowedTargets: seq<string>)

  /** The live state the gates read. An id missing from `status` has no status. */
  datatype Policy = Policy(companyOnly: bool, requireLogin: bool,
                           status: map<PeerId, Lookup<Option<int>>>,
                           registered: map<PeerId, Lookup<Registered>>,
                           sessions: map<string, Session>, users: map<string, Permission>)

  /** What a rendezvous connection proved at its handshake. */
  datatype Proof = Proof(deviceKey: string, peerId: PeerId)

  /** What a request says about its sender; signed by nobody. */
  datatype Claim = Claim(id: PeerId, uuid: Uuid, token: Option<string>)

  datatype Refusal =
    | WrongServerKey | TargetNotAllowed
    | IdentityMismatch | NoIdentity
    | NotIdentified | NotRegistered | PolicyUnverified | WrongUuid | ControllerBlocked
    | OutboundDisabled | TargetOutsidePolicy
    | BoundElsewhere | NotPermitted | LoginRequired

  function StatusOf(p: Policy, id: PeerId): Lookup<Option<int>> {
    if id in p.status then p.status[id] else Answer(None)
  }

  predicate TargetAllowed(p: Policy, id: PeerId) {
    match StatusOf(p, id)
    case Answer(Some(s)) => if s == 0 then false else if s == 1 then true else !p.companyOnly
    case _ => !p.companyOnly
  }

  predicate IsTargetSeparator(c: char) {
    c == ',' || c == ';' || IsWhitespace(c)
  }

  /** A target list allows an id when it is absent, blank, or names it (or "*") as a whole entry. */
  predicate TargetListAllows(targets: Option<string>, id: PeerId) {
    match targets
    case None => true
    case Some(list) =>
      || Trim(list) == []
      || exists t <- Split(list, IsTargetSeparator) :: Trim(t) != [] && (Trim(t) == "*" || Trim(t) == id)
  }

  /** Who the controller is: the proved identity when there is one, and never two different ones. */
  function ResolveController(claim: Option<Claim>, proof: Option<Proof>): Result<(PeerId, Option<Uuid>), Refusal> {
    match (proof, claim)
    case (Some(who), Some(c)) =>
      if c.id != who.peerId then Err(IdentityMismatch) else Ok((who.peerId, Some(c.uuid)))
    case (Some(who), None) => Ok((who.peerId, None))
    case (None, Some(c)) => Ok((c.id, Some(c.uuid)))
    case (None, None) => Err(NoIdentity)
  }

  function ControllerPolicy(p: Policy, sourceId: PeerId, uuid: Option<Uuid>, target: PeerId): Option<Refusal> {
    var id := Trim(sourceId);
    if id == [] then Some(NotIdentified)
    else if id !in p.registered then Some(NotRegistered)
    else match p.registered[id]
      case DbError => Some(PolicyUnverified)
      case Answer(r) =>
        if uuid.Some? && (uuid.value == [] || r.uuid != uuid.value) then Some(WrongUuid)
        else if r.status == Some(0) then Some(ControllerBlocked)
        else if r.outboundEnabled == Some("N") then Some(OutboundDisabled)
        else if !TargetListAllows(r.outboundTargets, target) then Some(TargetOutsidePolicy)
        else None
  }

  function ControllerGate(p: Policy, claim: Option<Claim>, proof: Option<Proof>, target: PeerId): Option<Refusal> {
    match ResolveController(claim, proof)
    case Err(r) => Some(r)
    case Ok(identity) => ControllerPolicy(p, identity.0, identity.1, target)
  }

  /** The account name without its domain, lower-cased: the key of the permission map. */
  function NormalizeLookupUsername(input: string): string {
    Lower(RawUsername(input))
  }

  function RawUsername(input: string): string {
    var t := Trim(input);
    if '\\' in t then AfterFirst(t, '\\')
    else if '@' in t then BeforeFirst(t, '@')
    else t
  }

  function AfterFirst(s: string, c: char): string
    requires c in s
  {
    if s[0] == c then s[1..] else AfterFirst(s[1..], c)
  }

  function BeforeFirst(s: string, c: char): string
    requires c in s
  {
    if s[0] == c then [] else [s[0]] + BeforeFirst(s[1..], c)
  }

  function Lower(s: string): string {
    seq(|s|, i requires 0 <= i < |s| => if 'A' <= s[i] <= 'Z' then s[i] - 'A' + 'a' else s[i])
  }

  /** The signed-in, enabled user a token stands for at a time. */
  function LiveUser(p: Policy, token: Option<string>, now: nat): Option<(Session, Permission)> {
    if token.None? then None
    else
      var t := Trim(token.value);
      if t == [] || t !in p.sessions || p.sessions[t].expiresAt <= now then None
      else
        var s := p.sessions[t];
        var key := NormalizeLookupUsername(s.username);
        if key in p.users && p.users[key].enabled then Some((s, p.users[key])) else None
  }

  function UserGate(p: Policy, now: nat, token: Option<string>, deviceKey: Option<string>, target: PeerId): Option<Refusal> {
    match LiveUser(p, token, now)
    case Some((session, perm)) =>
      if session.deviceKey != [] && deviceKey != Some(session.deviceKey) then Some(BoundElsewhere)
      else if perm.isAdmin || "*" in perm.allowedTargets || target in perm.allowedTargets then None
      else Some(NotPermitted)
    case None => if p.requireLogin then Some(LoginRequired) else None
  }

  /** What the status of a target decides: a blocked one is never reached, an allowed one always; one of
      unknown or unreadable status exactly while the server is not for company devices only. */
  lemma TargetAllowedExact(p: Policy, id: PeerId)
    ensures TargetAllowed(p, id) <==>
            !(id in p.status && p.status[id] == Answer(Some(0)))
            && (p.companyOnly ==> id in p.status && p.status[id] == Answer(Some(1)))
  {}

  /** What passing the controller gate means, for whichever way the controller was named: some
      registered, unblocked controller with outbound connections on and this target on its list,
      whose identity is the proved one if any was proved and whose uuid matches if one was claimed. */
  lemma ControllerGateExact(p: Policy, claim: Option<Claim>, proof: Option<Proof>, target: PeerId)
    ensures ControllerGate(p, claim, proof, target) == None <==>
            exists id: PeerId, r: Registered ::
              && id in p.registered && p.registered[id] == Answer(r) && id != []
              && (proof.Some? ==> id == Trim(proof.value.peerId))
              && (claim.Some? ==> id == Trim(claim.value.id) && claim.value.uuid == r.uuid && r.uuid != [])
              && (proof.Some? && claim.Some? ==> claim.value.id == proof.value.peerId)
              && (proof.Some? || claim.Some?)
              && r.status != Some(0) && r.outboundEnabled != Some("N")
              && TargetListAllows(r.outboundTargets, target)
  {}

  /** A refusal names its cause. */
  lemma RefusalNamesItsCause(p: Policy, claim: Option<Claim>, proof: Option<Proof>, target: PeerId)
    requires ControllerGate(p, claim, proof, target).Some?
    ensures var id := Trim(if proof.Some? then proof.value.peerId else if claim.Some? then claim.value.id else []);
            var known := id in p.registered && p.registered[id].Answer?;
            match ControllerGate(p, claim, proof, target).value
            case NoIdentity => claim.None? && proof.None?
            case IdentityMismatch => claim.Some? && proof.Some? && claim.value.id != proof.value.peerId
            case NotIdentified => (claim.Some? || proof.Some?) && id == []
            case NotRegistered => id != [] && id !in p.registered
            case PolicyUnverified => id in p.registered && p.registered[id] == DbError
            case WrongUuid => known && claim.Some? && (claim.value.uuid == [] || claim.value.uuid != p.registered[id].value.uuid)
            case ControllerBlocked => known && p.registered[id].value.status == Some(0)
            case OutboundDisabled => known && p.registered[id].value.outboundEnabled == Some("N")
            case TargetOutsidePolicy => known && !TargetListAllows(p.registered[id].value.outboundTargets, target)
            case _ => false
  {}

  /** The token stands for a session that has not expired, of this user of the list, who is enabled. */
  predicate SignedIn(p: Policy, now: nat, token: Option<string>, t: string, user: string) {
    && token.Some? && t == Trim(token.value) && t != [] && t in p.sessions && now < p.sessions[t].expiresAt
    && user == NormalizeLookupUsername(p.sessions[t].username) && user in p.users && p.users[user].enabled
  }

  /** What passing the user gate means, whether or not login is required: whoever is signed in must be on the
      connection that proved the session's key, if it has one, and be allowed this target; nobody need
      be signed in exactly while login is not required. */
  lemma UserGateExact(p: Policy, now: nat, token: Option<string>, deviceKey: Option<string>, target: PeerId)
    ensures UserGate(p, now, token, deviceKey, target) == None <==>
            if t, user :| SignedIn(p, now, token, t, user) then
              && (p.sessions[t].deviceKey != [] ==> deviceKey == Some(p.sessions[t].deviceKey))
              && (p.users[user].isAdmin || "*" in p.users[user].allowedTargets || target in p.users[user].allowedTargets)
            else !p.requireLogin
  {
    if LiveUser(p, token, now).Some? {
      var t := Trim(token.value);
      assert SignedIn(p, now, token, t, NormalizeLookupUsername(p.sessions[t].username));
    }
  }

  /** A token bound to a device key opens nothing on a connection that did not prove that key,
      whatever the policy; and with login required nothing passes without a live enabled user
      whose permission names the target. */
  lemma UserGateBindsTokens(p: Policy, now: nat, token: Option<string>, deviceKey: Option<string>, target: PeerId)
    requires UserGate(p, now, token, deviceKey, target) == None
    ensures forall t :: token == Some(t) && Trim(t) in p.sessions && LiveUser(p, token, now).Some?
                        && p.sessions[Trim(t)].deviceKey != []
                        ==> deviceKey == Some(p.sessions[Trim(t)].deviceKey)
    ensures p.requireLogin ==>
              exists t, key ::
                && token == Some(t) && Trim(t) in p.sessions && p.sessions[Trim(t)].expiresAt > now
                && key == NormalizeLookupUsername(p.sessions[Trim(t)].username)
                && key in p.users && p.users[key].enabled
                && (p.users[key].isAdmin || "*" in p.users[key].allowedTargets || target in p.users[key].allowedTargets)
  {}

  lemma {:induction false} FirstSplits(a: string, c: char, b: string)
    requires c !in a
    ensures AfterFirst(a + [c] + b, c) == b && BeforeFirst(a + [c] + b, c) == a
  {
    var s := a + [c] + b;
    if a == [] {
      assert s[0] == c && s[1..] == b;
    } else {
      assert s[1..] == a[1..] + [c] + b;
      FirstSplits(a[1..], c, b);
      assert a == [a[0]] + a[1..];
    }
  }

  /** An account is the same user under every way of writing it: `DOMAIN\user`, `user@domain`, the bare name,
      with white space around it and in any case. */
  lemma AccountNamesAgree(domain: string, user: string)
    requires '\\' !in domain && '\\' !in user && '@' !in user
    requires Trimmed(user) && user != [] && Trimmed(domain) && domain != []
    ensures RawUsername(user) == user
    ensures RawUsername(domain + "\\" + user) == user
    ensures RawUsername(user + "@" + domain) == user
  {
    WrittenOutIsTrimmed(domain, '\\', user);
    WrittenOutIsTrimmed(user, '@', domain);
    FirstSplits(domain, '\\', user);
    FirstSplits(user, '@', domain);
    assert domain + "\\" + user == domain + ['\\'] + user && user + "@" + domain == user + ['@'] + domain;
    assert (domain + ['\\'] + user)[|domain|] == '\\';
    assert (user + ['@'] + domain)[|user|] == '@';
  }

  lemma WrittenOutIsTrimmed(a: string, c: char, b: string)
    requires Trimmed(a) && a != [] && Trimmed(b) && b != []
    ensures Trim(a + [c] + b) == a + [c] + b
  {
    var s := a + [c] + b;
    TrimmedEnds(a);
    TrimmedEnds(b);
    assert s[0] == a[0] && s[|s| - 1] == b[|b| - 1];
    NoEndsToTrim(s);
  }

  lemma TrimmedEnds(s: string)
    requires Trimmed(s) && s != []
    ensures !IsWhitespace(s[0]) && !IsWhitespace(s[|s| - 1])
  {
    TrimIsIdempotent(s);
  }

  lemma NoEndsToTrim(s: string)
    requires s != [] && !IsWhitespace(s[0]) && !IsWhitespace(s[|s| - 1])
    ensures Trim(s) == s
  {
    TrimIsIdempotent(s);
  }

  /** Names that differ in the case of ASCII letters alone are one key of the map. */
  predicate SameButCase(a: char, b: char) {
    a == b || ('a' <= a <= 'z' && b as int == a as int - 32) || ('a' <= b <= 'z' && a as int == b as int - 32)
  }

  lemma LowerExact(a: string, b: string)
    ensures Lower(a) == Lower(b) <==> |a| == |b| && forall i :: 0 <= i < |a| ==> SameButCase(a[i], b[i])
    ensures Lower(Lower(a)) == Lower(a) && |Lower(a)| == |a| && forall i :: 0 <= i < |a| ==> SameButCase(Lower(a)[i], a[i])
  {
    assert forall i :: 0 <= i < |a| && 0 <= i < |b| ==> (Lower(a)[i] == Lower(b)[i] <==> SameButCase(a[i], b[i]));
    if |a| == |b| && forall i :: 0 <= i < |a| ==> SameButCase(a[i], b[i]) { assert Lower(a) == Lower(b); }
  }

  /** For a target id without commas, semicolons and white space, being on a list of such ids joined by any
      of these is exactly being one of them. */
  lemma TargetListExact(ids: seq<PeerId>, id: PeerId, sep: char)
    requires ids != [] && (sep == ',' || sep == ';' || IsWhitespace(sep))
    requires forall i :: 0 <= i < |ids| ==> ids[i] != [] && NoneOf(ids[i], IsTargetSeparator)
    requires id != [] && NoneOf(id, IsTargetSeparator)
    ensures TargetListAllows(Some(Join(ids, sep)), id) <==> id in ids || "*" in ids
  {
    var list := Join(ids, sep);
    SplitIds(ids, sep);
    forall i | 0 <= i < |ids| ensures Trim(ids[i]) == ids[i] {
      TrimIsIdempotent(ids[i]);
      assert !IsTargetSeparator(ids[i][0]) && !IsTargetSeparator(ids[i][|ids[i]| - 1]);
    }
    assert list[0] == ids[0][0];
    assert !IsWhitespace(list[0]) by { assert !IsTargetSeparator(ids[0][0]); }
    assert TrimStart(list) == list;
    NonBlank(list);
    if id in ids || "*" in ids {
      var k :| 0 <= k < |ids| && (ids[k] == id || ids[k] == "*");
      assert ids[k] in Split(list, IsTargetSeparator);
    }
  }

  /** No list, or one of white space alone, restricts nothing. */
  lemma BlankListAllowsAll(blank: string, id: PeerId)
    requires forall c <- blank :: IsWhitespace(c)
    ensures TargetListAllows(None, id) && TargetListAllows(Some(blank), id)
  {
    AllBlank(blank);
  }

  lemma {:induction false} AllBlank(s: string)
    requires forall c <- s :: IsWhitespace(c)
    ensures TrimStart(s) == []
  {
    if s == [] {
    } else {
      assert IsWhitespace(s[0]);
      AllBlank(s[1..]);
    }
  }

  lemma {:induction false} NonBlank(s: string)
    requires s != [] && !IsWhitespace(s[0])
    ensures TrimEnd(s) != []
  {
    if |s| > 1 && IsWhitespace(s[|s| - 1]) {
      NonBlank(s[..|s| - 1]);
    }
  }

  lemma {:induction false} SplitIds(ids: seq<PeerId>, sep: char)
    requires ids != [] && IsTargetSeparator(sep)
    requires forall i :: 0 <= i < |ids| ==> NoneOf(ids[i], IsTargetSeparator)
    ensures Split(Join(ids, sep), IsTargetSeparator) == ids
  {
    if |ids| == 1 {
      SplitNoSeparator(ids[0], IsTargetSeparator);
    } else {
      SplitAtSeparator(ids[0], sep, Join(ids[1..], sep), IsTargetSeparator);
      SplitIds(ids[1..], sep);
    }
  }
}
