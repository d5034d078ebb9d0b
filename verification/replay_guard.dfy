/** The replay guard of sealed logins and sealed requests: a freshness window on the sender's
    time stamp, and a bounded cache of the nonces seen inside it.

    When the cache is full the entry evicted is one of the oldest; which one among entries of the
    same second is the hash map's choice, so a call is a relation between cache, verdict and cache. */
module ReplayGuard {
  import opened Prelude
  import opened Text

  const MAX_AGE_SECS: nat := 300
  const MAX_SKEW_SECS: nat := 60
  const MAX_SEEN_NONCES: nat := 100_000
  const MAX_NONCE_LEN: nat := 64

  datatype Verdict = Accepted | Expired | TooLong | Replayed | NoNonce

  type Seen = map<string, nat>

  datatype Call = Call(ts: nat, nonce: string, now: nat)

  predicate InWindow(ts: nat, now: nat) {
    SaturatingSub(now, ts) <= MAX_AGE_SECS && SaturatingSub(ts, now) <= MAX_SKEW_SECS
  }

  function Prune(seen: Seen, now: nat): Seen {
    map k | k in seen && SaturatingSub(now, seen[k]) <= MAX_AGE_SECS :: seen[k]
  }

  /** What the eviction loop leaves: everything if there was room, else one entry less than the
      cap, with no entry dropped that is newer than one kept. */
  ghost predicate MadeRoom(before: Seen, after: Seen) {
    && after.Keys <= before.Keys
    && (forall k <- after :: after[k] == before[k])
    && (|before| < MAX_SEEN_NONCES ==> after == before)
    && (|before| >= MAX_SEEN_NONCES ==> |after| == MAX_SEEN_NONCES - 1)
    && (forall d <- before, k <- after :: d !in after ==> before[d] <= before[k])
  }

  /** One call of the guard; `strict` is the sealed-request form, where a nonce is mandatory. */
  ghost predicate Guarded(strict: bool, c: Call, seen: Seen, seen': Seen, v: Verdict) {
    var nonce := Trim(c.nonce);
    if strict && nonce == [] then v == NoNonce && seen' == seen
    else if !InWindow(c.ts, c.now) then v == Expired && seen' == seen
    else if Utf8Len(nonce) > MAX_NONCE_LEN then v == TooLong && seen' == seen
    else if nonce == [] then v == Accepted && seen' == seen
    else if nonce in Prune(seen, c.now) then v == Replayed && seen' == Prune(seen, c.now)
    else v == Accepted && exists kept: Seen :: MadeRoom(Prune(seen, c.now), kept) && seen' == kept[nonce := c.now]
  }

  // ---- The guard as it runs ---------------------------------------------------------------

  method Oldest(seen: Seen) returns (oldest: string)
    requires seen != map[]
    ensures oldest in seen && forall k <- seen :: seen[oldest] <= seen[k]
  {
    var keys := seen.Keys;
    oldest :| oldest in seen;
    while keys != {}
      invariant keys <= seen.Keys && oldest in seen
      invariant forall k <- seen :: k in keys || seen[oldest] <= seen[k]
      decreases keys
    {
      var k :| k in keys;
      if seen[k] < seen[oldest] { oldest := k; }
      keys := keys - {k};
    }
  }

  /** The nonce was accepted at most 300 seconds ago. */
  predicate HoldsFor(seen: Seen, nonce: string, now: nat) {
    nonce != [] && nonce in seen && now <= seen[nonce] + 300
  }

  class ReplayCache {
    var seen: Seen

    constructor ()
      ensures seen == map[]
    {
      seen := map[];
    }

    method SealedLoginGuard(ts: nat, rawNonce: string, now: nat) returns (v: Verdict)
      modifies this
      ensures Guarded(false, Call(ts, rawNonce, now), old(seen), seen, v)
      ensures v == Expired <==> now > ts + 300 || ts > now + 60
      ensures v == TooLong <==> v != Expired && Utf8Len(Trim(rawNonce)) > 64
      ensures v == Replayed <==> v != Expired && v != TooLong && HoldsFor(old(seen), Trim(rawNonce), now)
      ensures v != NoNonce && (v == Accepted && Trim(rawNonce) != [] ==> Trim(rawNonce) in seen && seen[Trim(rawNonce)] == now)
      ensures v == Expired || v == TooLong || Trim(rawNonce) == [] ==> seen == old(seen)
    {
      if SaturatingSub(now, ts) > MAX_AGE_SECS || SaturatingSub(ts, now) > MAX_SKEW_SECS { return Expired; }
      var nonce := Trim(rawNonce);
      if Utf8Len(nonce) > MAX_NONCE_LEN { return TooLong; }
      if nonce == [] { return Accepted; }
      seen := Prune(seen, now);
      if nonce in seen { return Replayed; }
      ghost var pruned := seen;
      while |seen| >= MAX_SEEN_NONCES
        invariant seen.Keys <= pruned.Keys && forall k <- seen :: seen[k] == pruned[k]
        invariant |pruned| < MAX_SEEN_NONCES ==> seen == pruned
        invariant |pruned| >= MAX_SEEN_NONCES ==> |seen| >= MAX_SEEN_NONCES - 1
        invariant forall d <- pruned, k <- seen :: d !in seen ==> pruned[d] <= pruned[k]
        decreases |seen|
      {
        var oldest := Oldest(seen);
        assert seen.Keys - {oldest} == (seen - {oldest}).Keys && |(seen - {oldest}).Keys| == |seen.Keys| - 1;
        seen := seen - {oldest};
      }
      assert MadeRoom(pruned, seen);
      seen := seen[nonce := now];
      v := Accepted;
    }

    method SealedRequestGuard(ts: nat, rawNonce: string, now: nat) returns (v: Verdict)
      modifies this
      ensures Guarded(true, Call(ts, rawNonce, now), old(seen), seen, v)
      ensures v == NoNonce <==> Trim(rawNonce) == []
      ensures v == Expired <==> v != NoNonce && (now > ts + 300 || ts > now + 60)
      ensures v == TooLong <==> v != NoNonce && v != Expired && Utf8Len(Trim(rawNonce)) > 64
      ensures v == Replayed <==> v !in {NoNonce, Expired, TooLong} && HoldsFor(old(seen), Trim(rawNonce), now)
      ensures v == Accepted ==> Trim(rawNonce) in seen && seen[Trim(rawNonce)] == now
    {
      if Trim(rawNonce) == [] { return NoNonce; }
      v := SealedLoginGuard(ts, rawNonce, now);
    }
  }

  // ---- Runs -------------------------------------------------------------------------------

  /** A run: the calls, their verdicts and the caches between them, under a clock that never goes
      back. */
  datatype History = History(strict: bool, calls: seq<Call>, verdicts: seq<Verdict>, caches: seq<Seen>)

  ghost predicate ValidRun(h: History) {
    && |h.verdicts| == |h.calls| && |h.caches| == |h.calls| + 1
    && (forall i :: 0 <= i < |h.calls| ==> Guarded(h.strict, h.calls[i], h.caches[i], h.caches[i + 1], h.verdicts[i]))
    && (forall i, j :: 0 <= i <= j < |h.calls| ==> h.calls[i].now <= h.calls[j].now)
  }

  /** The guard accepted a real nonce at a call. */
  predicate AcceptedAt(h: History, i: nat) {
    i < |h.calls| && i < |h.verdicts| && h.verdicts[i] == Accepted && Trim(h.calls[i].nonce) != []
  }

  /** No call from i to j found the cache full. */
  predicate BelowCap(h: History, i: nat, j: nat)
    requires j <= |h.calls| < |h.caches|
  {
    forall m :: i <= m < j ==> |Prune(h.caches[m], h.calls[m].now)| < MAX_SEEN_NONCES
  }

  /** One call keeps an entry that is within the window of the call's time, unless it finds the
      cache full. */
  lemma EntrySurvives(strict: bool, c: Call, seen: Seen, seen': Seen, v: Verdict, nonce: string)
    requires Guarded(strict, c, seen, seen', v)
    requires nonce in seen && seen[nonce] <= c.now <= seen[nonce] + MAX_AGE_SECS
    requires |Prune(seen, c.now)| < MAX_SEEN_NONCES
    ensures nonce in seen' && seen'[nonce] == seen[nonce]
  {}

  lemma {:induction false} EntryLasts(h: History, i: nat, j: nat, nonce: string)
    requires ValidRun(h) && i <= j < |h.calls| && BelowCap(h, i, j)
    requires nonce in h.caches[i]
    requires forall m :: i <= m < |h.calls| ==> h.caches[i][nonce] <= h.calls[m].now
    requires h.calls[j].now <= h.caches[i][nonce] + MAX_AGE_SECS
    ensures nonce in h.caches[j] && h.caches[j][nonce] == h.caches[i][nonce]
    decreases j - i
  {
    if i < j {
      assert h.calls[i].now <= h.calls[j].now;
      EntrySurvives(h.strict, h.calls[i], h.caches[i], h.caches[i + 1], h.verdicts[i], nonce);
      EntryLasts(h, i + 1, j, nonce);
    }
  }

  /** Over every run with the cache below its cap: a time stamp and nonce accepted at time t is
      accepted again only after t + 300, and so only if it was stamped later than t. */
  lemma AcceptedOnce(h: History, i: nat, j: nat)
    requires ValidRun(h) && i < j && AcceptedAt(h, i) && AcceptedAt(h, j) && BelowCap(h, i, j)
    requires h.calls[j].ts == h.calls[i].ts && Trim(h.calls[j].nonce) == Trim(h.calls[i].nonce)
    ensures h.calls[j].now > h.calls[i].now + MAX_AGE_SECS && h.calls[i].ts > h.calls[i].now
  {
    var nonce := Trim(h.calls[i].nonce);
    assert Guarded(h.strict, h.calls[i], h.caches[i], h.caches[i + 1], h.verdicts[i]);
    assert Guarded(h.strict, h.calls[j], h.caches[j], h.caches[j + 1], h.verdicts[j]);
    assert nonce in h.caches[i + 1] && h.caches[i + 1][nonce] == h.calls[i].now;
    if h.calls[j].now <= h.calls[i].now + MAX_AGE_SECS {
      EntryLasts(h, i + 1, j, nonce);
    }
  }

  /** Whatever is in the cache, a credential accepted at time t is never accepted after t + 360: its stamp
      is at most 60 seconds ahead of t, and good for 300. */
  lemma AcceptedForSixMinutes(h: History, i: nat, j: nat)
    requires ValidRun(h) && i < |h.calls| && j < |h.calls| && h.verdicts[i] == h.verdicts[j] == Accepted
    requires h.calls[j].ts == h.calls[i].ts
    ensures h.calls[i].now <= h.calls[j].ts + 300 && h.calls[j].ts <= h.calls[i].now + 60
    ensures h.calls[j].now <= h.calls[i].now + 360
  {
    assert Guarded(h.strict, h.calls[i], h.caches[i], h.caches[i + 1], h.verdicts[i]);
    assert Guarded(h.strict, h.calls[j], h.caches[j], h.caches[j + 1], h.verdicts[j]);
  }

  /** Hence below the cap it is accepted at most twice. */
  lemma AcceptedAtMostTwice(h: History, i: nat, j: nat, k: nat)
    requires ValidRun(h) && i < j < k < |h.calls| && AcceptedAt(h, i) && AcceptedAt(h, j) && BelowCap(h, i, k)
    requires h.calls[i].ts == h.calls[j].ts == h.calls[k].ts && Trim(h.calls[i].nonce) == Trim(h.calls[j].nonce) == Trim(h.calls[k].nonce)
    ensures !AcceptedAt(h, k)
  {
    if AcceptedAt(h, k) {
      AcceptedOnce(h, i, j);
      AcceptedOnce(h, j, k);
      AcceptedForSixMinutes(h, i, k);
    }
  }

  /** That is exact: the same credential is accepted a second time by some later call if and only
      if it was stamped ahead of the clock that first accepted it. */
  lemma ReplayableIffStampedAhead(strict: bool, seen: Seen, ts: nat, nonce: string, t: nat)
    requires InWindow(ts, t) && Trim(nonce) != [] && Utf8Len(Trim(nonce)) <= MAX_NONCE_LEN
    requires |seen| < MAX_SEEN_NONCES && Trim(nonce) !in Prune(seen, t)
    requires forall k <- seen :: seen[k] <= t
    ensures (exists later: nat, seen1: Seen, seen2: Seen ::
               && t <= later
               && Guarded(strict, Call(ts, nonce, t), seen, seen1, Accepted)
               && Guarded(strict, Call(ts, nonce, later), seen1, seen2, Accepted))
        <==> ts > t
  {
    var n := Trim(nonce);
    var pruned := Prune(seen, t);
    PruneShrinks(seen, t);
    var seen1 := pruned[n := t];
    assert MadeRoom(pruned, pruned);
    assert Guarded(strict, Call(ts, nonce, t), seen, seen1, Accepted);
    if ts > t {
      var later := ts + MAX_AGE_SECS;
      var pruned1 := Prune(seen1, later);
      assert pruned1 == map[] by {
        forall k | k in seen1 ensures seen1[k] <= t {}
      }
      assert MadeRoom(pruned1, pruned1);
      assert Guarded(strict, Call(ts, nonce, later), seen1, pruned1[n := later], Accepted);
    }
  }

  lemma PruneShrinks(seen: Seen, now: nat)
    ensures Prune(seen, now).Keys <= seen.Keys && |Prune(seen, now)| <= |seen|
  {
    SubsetSize(Prune(seen, now).Keys, seen.Keys);
    assert |Prune(seen, now)| == |Prune(seen, now).Keys| && |seen| == |seen.Keys|;
  }

  /** The cache is bounded: no run takes it above the cap. */
  lemma {:induction false} NeverAboveCap(h: History, m: nat)
    requires ValidRun(h) && h.caches[0] == map[] && m < |h.caches|
    ensures |h.caches[m]| <= MAX_SEEN_NONCES
  {
    if m == 0 {
    } else {
      NeverAboveCap(h, m - 1);
      var before, c := h.caches[m - 1], h.calls[m - 1];
      assert Guarded(h.strict, c, before, h.caches[m], h.verdicts[m - 1]);
      PruneShrinks(before, c.now);
      if h.caches[m] != before && h.caches[m] != Prune(before, c.now) {
        var kept: Seen :| MadeRoom(Prune(before, c.now), kept) && h.caches[m] == kept[Trim(c.nonce) := c.now];
        assert h.caches[m].Keys == kept.Keys + {Trim(c.nonce)};
        assert |h.caches[m]| == |h.caches[m].Keys| && |kept| == |kept.Keys|;
      }
    }
  }

  /** Some call before m accepted this nonce at time s. */
  ghost predicate WasAccepted(h: History, m: nat, nonce: string, s: nat) {
    exists c: nat :: c < m && AcceptedAt(h, c) && Trim(h.calls[c].nonce) == nonce && h.calls[c].now == s
  }

  /** The cache holds nothing but accepted calls, each under the time of its call. */
  lemma {:induction false} EntriesWereAccepted(h: History, m: nat, nonce: string)
    requires ValidRun(h) && h.caches[0] == map[] && m < |h.caches| && nonce in h.caches[m]
    ensures WasAccepted(h, m, nonce, h.caches[m][nonce])
  {
    var before, c := h.caches[m - 1], h.calls[m - 1];
    assert Guarded(h.strict, c, before, h.caches[m], h.verdicts[m - 1]);
    if h.verdicts[m - 1] == Accepted && Trim(c.nonce) == nonce != [] && h.caches[m][nonce] == c.now {
      assert AcceptedAt(h, m - 1);
    } else {
      assert nonce in before && before[nonce] == h.caches[m][nonce];
      EntriesWereAccepted(h, m - 1, nonce);
      var k: nat :| k < m - 1 && AcceptedAt(h, k) && Trim(h.calls[k].nonce) == nonce && h.calls[k].now == before[nonce];
      assert k < m;
    }
  }

  /** The other nonces that pushed an entry of time t out at call m: one less than the cap of them,
      each accepted by a call at time t or later. */
  ghost predicate FloodedAt(h: History, m: nat, nonce: string, t: nat, flood: set<string>)
    requires m < |h.caches|
  {
    && |flood| == MAX_SEEN_NONCES - 1 && nonce !in flood && flood <= h.caches[m].Keys
    && forall k <- flood :: h.caches[m][k] >= t && WasAccepted(h, m, k, h.caches[m][k])
  }

  lemma RoomMadeAt(h: History, m: nat, nonce: string) returns (kept: Seen)
    requires ValidRun(h) && m < |h.calls| && nonce in h.caches[m] && nonce !in h.caches[m + 1]
    requires h.calls[m].now <= h.caches[m][nonce] + MAX_AGE_SECS
    ensures MadeRoom(Prune(h.caches[m], h.calls[m].now), kept)
    ensures h.caches[m + 1] == kept[Trim(h.calls[m].nonce) := h.calls[m].now]
  {
    var before, c := h.caches[m], h.calls[m];
    assert Guarded(h.strict, c, before, h.caches[m + 1], h.verdicts[m]);
    kept :| MadeRoom(Prune(before, c.now), kept) && h.caches[m + 1] == kept[Trim(c.nonce) := c.now];
  }

  /** An entry inside its window that a call drops was pushed out by a full cache. */
  lemma DroppedWhenFull(h: History, m: nat, nonce: string) returns (flood: set<string>)
    requires ValidRun(h) && h.caches[0] == map[] && m < |h.calls|
    requires nonce in h.caches[m] && nonce !in h.caches[m + 1]
    requires h.calls[m].now <= h.caches[m][nonce] + MAX_AGE_SECS
    ensures FloodedAt(h, m, nonce, h.caches[m][nonce], flood)
  {
    var before := h.caches[m];
    var kept := RoomMadeAt(h, m, nonce);
    flood := kept.Keys;
    assert |kept| == |kept.Keys|;
    forall k | k in flood ensures before[k] >= before[nonce] && WasAccepted(h, m, k, before[k]) {
      EntriesWereAccepted(h, m, k);
    }
  }

  /** Where an entry inside its window is lost, a full cache was. */
  lemma {:induction false} LossNeedsFlood(h: History, a: nat, j: nat, nonce: string) returns (m: nat, flood: set<string>)
    requires ValidRun(h) && h.caches[0] == map[] && a < j < |h.calls|
    requires nonce in h.caches[a] && h.caches[a][nonce] <= h.calls[a].now
    requires h.calls[j].now <= h.caches[a][nonce] + MAX_AGE_SECS
    requires !(nonce in h.caches[j] && h.caches[j][nonce] == h.caches[a][nonce])
    ensures a <= m < j && FloodedAt(h, m, nonce, h.caches[a][nonce], flood)
    decreases j - a
  {
    assert Guarded(h.strict, h.calls[a], h.caches[a], h.caches[a + 1], h.verdicts[a]);
    assert h.calls[a].now <= h.calls[j].now;
    if nonce in h.caches[a + 1] {
      assert h.caches[a + 1][nonce] == h.caches[a][nonce];
      assert h.calls[a].now <= h.calls[a + 1].now;
      m, flood := LossNeedsFlood(h, a + 1, j, nonce);
    } else {
      m := a;
      flood := DroppedWhenFull(h, a, nonce);
    }
  }

  /** Without any assumption on the load: a nonce accepted twice within 300 seconds needs 99,999
      other nonces accepted in between (or in the same second as the first). */
  lemma ReplayNeedsFlood(h: History, i: nat, j: nat) returns (m: nat, flood: set<string>)
    requires ValidRun(h) && h.caches[0] == map[] && i < j && AcceptedAt(h, i) && AcceptedAt(h, j)
    requires Trim(h.calls[j].nonce) == Trim(h.calls[i].nonce)
    requires h.calls[j].now <= h.calls[i].now + MAX_AGE_SECS
    ensures i < m < j && FloodedAt(h, m, Trim(h.calls[i].nonce), h.calls[i].now, flood)
  {
    var nonce := Trim(h.calls[i].nonce);
    assert Guarded(h.strict, h.calls[i], h.caches[i], h.caches[i + 1], h.verdicts[i]);
    assert Guarded(h.strict, h.calls[j], h.caches[j], h.caches[j + 1], h.verdicts[j]);
    assert h.calls[i].now <= h.calls[i + 1].now;
    m, flood := LossNeedsFlood(h, i + 1, j, nonce);
  }

  /** A sealed request is never accepted without a nonce, so AcceptedAt covers every acceptance. */
  lemma StrictAcceptsOnlyNonces(h: History, i: nat)
    requires ValidRun(h) && h.strict && i < |h.calls| && h.verdicts[i] == Accepted
    ensures AcceptedAt(h, i)
  {
    assert Guarded(h.strict, h.calls[i], h.caches[i], h.caches[i + 1], h.verdicts[i]);
  }

  /** So whatever a sealed request carries: accepted a second time below the cap, it was stamped ahead
      of the clock that first accepted it, and more than 300 seconds have passed since. */
  lemma SealedRequestOnce(h: History, i: nat, j: nat)
    requires ValidRun(h) && h.strict && i < j < |h.calls| && h.verdicts[i] == h.verdicts[j] == Accepted && BelowCap(h, i, j)
    requires h.calls[j].ts == h.calls[i].ts && Trim(h.calls[j].nonce) == Trim(h.calls[i].nonce)
    ensures h.calls[j].now > h.calls[i].now + MAX_AGE_SECS && h.calls[i].ts > h.calls[i].now
  {
    StrictAcceptsOnlyNonces(h, i);
    StrictAcceptsOnlyNonces(h, j);
    AcceptedOnce(h, i, j);
  }
}
