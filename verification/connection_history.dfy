/** The dashboard's connection history: one row per controller and target, capped at a limit the
    operator may lower at any time. */
module ConnectionHistory {
  import opened Prelude
  import opened Seqs

  const MAX_LIMIT: nat := 100_000

  /** What a negotiation reports, apart from who and when. */
  datatype Route = Route(sourceAddr: string, targetAddr: string, path: string, relayServer: string, natType: string)

  datatype Row = Row(source: string, target: string, route: Route, firstSeen: nat, lastSeen: nat, negotiations: nat)

  /** `trims` holds the limits stored by calls that have yet to trim by them; `clock` is the time of
      the latest negotiation. */
  datatype State = State(rows: seq<Row>, limit: nat, trims: seq<nat>, clock: nat)

  datatype Event =
    | Upsert(source: string, target: string, route: Route, now: nat)
    | StoreLimit(requested: nat)
    | Trim(call: nat)
    | DropSources(sources: seq<string>)
    | DropTarget(id: string)

  predicate Of(r: Row, source: string, target: string) {
    r.source == source && r.target == target
  }

  /** Of the first n rows, the first of those least recently seen. */
  function OldestAmong(rows: seq<Row>, n: nat): (i: nat)
    requires 0 < n <= |rows|
    ensures i < n
    ensures forall j :: 0 <= j < n ==> rows[i].lastSeen <= rows[j].lastSeen
    ensures forall j :: 0 <= j < i ==> rows[i].lastSeen < rows[j].lastSeen
  {
    if n == 1 then 0
    else
      var i := OldestAmong(rows, n - 1);
      if rows[n - 1].lastSeen < rows[i].lastSeen then n - 1 else i
  }

  function TrimTo(rows: seq<Row>, limit: nat): seq<Row>
    decreases |rows|
  {
    if |rows| <= limit then rows else TrimTo(RemoveAt(rows, OldestAmong(rows, |rows|)), limit)
  }

  function FindPair(rows: seq<Row>, source: string, target: string): Option<nat> {
    Position(rows, (r: Row) => Of(r, source, target))
  }

  function Touched(r: Row, route: Route, now: nat): Row {
    r.(lastSeen := now, negotiations := r.negotiations + 1, route := route)
  }

  function Upserted(rows: seq<Row>, limit: nat, source: string, target: string, route: Route, now: nat): seq<Row> {
    match FindPair(rows, source, target)
    case Some(i) => rows[i := Touched(rows[i], route, now)]
    case None => TrimTo(rows + [Row(source, target, route, now, now, 1)], limit)
  }

  function Clamp(requested: nat): nat {
    if requested < 1 then 1 else if requested > MAX_LIMIT then MAX_LIMIT else requested
  }

  function Next(s: State, e: Event): State {
    match e
    case Upsert(source, target, route, now) =>
      if now < s.clock then s
      else s.(rows := Upserted(s.rows, s.limit, source, target, route, now), clock := now)
    case StoreLimit(requested) => s.(limit := Clamp(requested), trims := s.trims + [Clamp(requested)])
    case Trim(i) =>
      if i < |s.trims| then s.(rows := TrimTo(s.rows, s.trims[i]), trims := RemoveAt(s.trims, i)) else s
    case DropSources(sources) => s.(rows := Keep(s.rows, (r: Row) => r.source !in sources))
    case DropTarget(id) => s.(rows := Keep(s.rows, (r: Row) => r.target != id))
  }

  function Run(s: State, es: seq<Event>): State {
    if es == [] then s else Next(Run(s, es[..|es| - 1]), es[|es| - 1])
  }

  predicate Fresh(s: State) {
    s.rows == [] && s.trims == [] && 1 <= s.limit <= MAX_LIMIT
  }

  // ---- The table as it runs ---------------------------------------------------------------

  method FindOldest(rows: seq<Row>) returns (oldest: nat)
    requires rows != []
    ensures oldest == OldestAmong(rows, |rows|)
  {
    oldest := 0;
    for i := 1 to |rows|
      invariant oldest == OldestAmong(rows, i)
    {
      if rows[i].lastSeen < rows[oldest].lastSeen { oldest := i; }
    }
  }

  method TrimRows(all: seq<Row>, limit: nat) returns (rows: seq<Row>)
    ensures rows == TrimTo(all, limit)
  {
    rows := all;
    while |rows| > limit
      invariant TrimTo(rows, limit) == TrimTo(all, limit)
      decreases |rows|
    {
      var i := FindOldest(rows);
      rows := rows[..i] + rows[i + 1..];
    }
  }

  class ConnectionTable {
    var rows: seq<Row>
    var limit: nat
    var trims: seq<nat>
    var clock: nat

    function View(): State
      reads this
    {
      State(rows, limit, trims, clock)
    }

    constructor (loadedLimit: nat)
      ensures View() == State([], loadedLimit, [], 0)
    {
      rows, limit, trims, clock := [], loadedLimit, [], 0;
    }

    method UpsertConnection(source: string, target: string, route: Route, now: nat)
      requires now >= clock
      modifies this
      ensures View() == Next(old(View()), Upsert(source, target, route, now))
      ensures clock == now && limit == old(limit) && trims == old(trims)
      ensures forall i :: 0 <= i < |old(rows)| && Of(old(rows)[i], source, target)
                          && (forall j :: 0 <= j < i ==> !Of(old(rows)[j], source, target)) ==>
                rows == old(rows)[i := Row(source, target, route, old(rows)[i].firstSeen, now, old(rows)[i].negotiations + 1)]
      ensures (forall i :: 0 <= i < |old(rows)| ==> !Of(old(rows)[i], source, target)) ==>
                rows == TrimTo(old(rows) + [Row(source, target, route, now, now, 1)], limit)
    {
      clock := now;
      var found := FindPair(rows, source, target);
      match found
      case Some(i) => rows := rows[i := rows[i].(lastSeen := now, negotiations := rows[i].negotiations + 1, route := route)];
      case None =>
        assert forall i :: 0 <= i < |rows| ==> rows[i] in rows;
        rows := TrimRows(rows + [Row(source, target, route, now, now, 1)], limit);
    }

    /** The first half of a limit change: the limit is in force before the table is trimmed by it. */
    method SetLimit(requested: nat) returns (call: nat)
      modifies this
      ensures View() == Next(old(View()), StoreLimit(requested)) && call == |old(trims)|
      ensures 1 <= limit <= 100_000 && (1 <= requested <= 100_000 ==> limit == requested)
      ensures requested > 100_000 ==> limit == 100_000
      ensures rows == old(rows) && clock == old(clock) && trims == old(trims) + [limit]
    {
      limit := if requested < 1 then 1 else if requested > MAX_LIMIT then MAX_LIMIT else requested;
      call := |trims|;
      trims := trims + [limit];
    }

    /** Its second half. */
    method ApplyLimit(call: nat)
      requires call < |trims|
      modifies this
      ensures View() == Next(old(View()), Trim(call))
      ensures rows == TrimTo(old(rows), old(trims)[call]) && limit == old(limit) && clock == old(clock)
      ensures trims == old(trims)[..call] + old(trims)[call + 1..]
    {
      rows := TrimRows(rows, trims[call]);
      trims := trims[..call] + trims[call + 1..];
    }
  }

  // ---- Trimming ---------------------------------------------------------------------------

  ghost predicate PairsDistinct(rows: seq<Row>) {
    forall i, j :: 0 <= i < j < |rows| ==> !Of(rows[i], rows[j].source, rows[j].target)
  }

  predicate SeenBy(rows: seq<Row>, now: nat) {
    forall i :: 0 <= i < |rows| ==> rows[i].lastSeen <= now
  }

  /** Trimming keeps as many rows as the limit allows, the most recently seen, and in order. */
  lemma {:induction false} TrimKeepsTheNewest(rows: seq<Row>, limit: nat)
    ensures var kept := TrimTo(rows, limit);
            && |kept| == (if |rows| <= limit then |rows| else limit)
            && Subseq(kept, rows)
            && (forall d, k :: d in rows && d !in kept && k in kept ==> d.lastSeen <= k.lastSeen)
    decreases |rows|
  {
    if |rows| <= limit {
      SubseqOfItself(rows);
    } else {
      var i := OldestAmong(rows, |rows|);
      var rest := RemoveAt(rows, i);
      var kept := TrimTo(rows, limit);
      TrimKeepsTheNewest(rest, limit);
      RemoveAtSubseq(rows, i);
      SubseqTransitive(kept, rest, rows);
      SubseqMembers(kept, rows);
      forall d, k | d in rows && d !in kept && k in kept ensures d.lastSeen <= k.lastSeen {
        var j :| 0 <= j < |rows| && rows[j] == d;
        if j != i { assert rest[if j < i then j else j - 1] == d; }
      }
    }
  }

  lemma {:induction false} SubseqDistinct(a: seq<Row>, b: seq<Row>)
    requires Subseq(a, b) && PairsDistinct(b)
    ensures PairsDistinct(a)
    decreases |b|
  {
    if a == [] {
    } else {
      if a[0] == b[0] && Subseq(a[1..], b[1..]) {
        SubseqDistinct(a[1..], b[1..]);
        SubseqMembers(a[1..], b[1..]);
        forall j | 1 <= j < |a| ensures !Of(a[0], a[j].source, a[j].target) {
          assert a[j] == a[1..][j - 1];
          assert a[j] in b[1..];
        }
      } else {
        SubseqDistinct(a, b[1..]);
      }
    }
  }

  /** The row pushed last is never the one trimmed, as no row was seen after it. */
  lemma {:induction false} LastRowStays(rows: seq<Row>, limit: nat)
    requires rows != [] && limit >= 1 && SeenBy(rows, rows[|rows| - 1].lastSeen)
    ensures TrimTo(rows, limit) != [] && TrimTo(rows, limit)[|TrimTo(rows, limit)| - 1] == rows[|rows| - 1]
    decreases |rows|
  {
    if |rows| <= limit {
    } else {
      var rest := RemoveAt(rows, OldestAmong(rows, |rows|));
      LastIsNotOldest(rows);
      assert rest != [] && SeenBy(rest, rest[|rest| - 1].lastSeen) && TrimTo(rows, limit) == TrimTo(rest, limit);
      LastRowStays(rest, limit);
    }
  }

  lemma LastIsNotOldest(rows: seq<Row>)
    requires |rows| > 1 && SeenBy(rows, rows[|rows| - 1].lastSeen)
    ensures var rest := RemoveAt(rows, OldestAmong(rows, |rows|));
            SeenBy(rest, rows[|rows| - 1].lastSeen) && rest[|rest| - 1] == rows[|rows| - 1]
  {
    assert rows[0].lastSeen <= rows[|rows| - 1].lastSeen;
  }

  // ---- Every run --------------------------------------------------------------------------

  predicate Pending(trims: seq<nat>, limit: nat) {
    exists i :: 0 <= i < |trims| && trims[i] == limit
  }

  ghost predicate Inv(s: State) {
    && PairsDistinct(s.rows) && SeenBy(s.rows, s.clock)
    && 1 <= s.limit
    && (|s.rows| <= s.limit || Pending(s.trims, s.limit))
  }

  lemma SubseqKeepsInv(rows: seq<Row>, kept: seq<Row>, clock: nat)
    requires PairsDistinct(rows) && SeenBy(rows, clock) && Subseq(kept, rows)
    ensures PairsDistinct(kept) && SeenBy(kept, clock) && |kept| <= |rows|
  {
    SubseqDistinct(kept, rows);
    SubseqMembers(kept, rows);
    forall i | 0 <= i < |kept| ensures kept[i].lastSeen <= clock { assert kept[i] in rows; }
  }

  lemma UpsertKeepsInv(s: State, source: string, target: string, route: Route, now: nat)
    requires Inv(s) && now >= s.clock
    ensures Inv(Next(s, Upsert(source, target, route, now)))
  {
    var found := FindPair(s.rows, source, target);
    if found.None? {
      var more := s.rows + [Row(source, target, route, now, now, 1)];
      forall i | 0 <= i < |s.rows| ensures !Of(more[i], source, target) { assert s.rows[i] in s.rows; }
      TrimKeepsTheNewest(more, s.limit);
      SubseqKeepsInv(more, TrimTo(more, s.limit), now);
    }
  }

  lemma TrimKeepsInv(s: State, i: nat)
    requires Inv(s) && i < |s.trims|
    ensures Inv(Next(s, Trim(i)))
  {
    var kept, left := TrimTo(s.rows, s.trims[i]), RemoveAt(s.trims, i);
    assert Next(s, Trim(i)) == State(kept, s.limit, left, s.clock);
    TrimKeepsTheNewest(s.rows, s.trims[i]);
    SubseqKeepsInv(s.rows, kept, s.clock);
    if |kept| > s.limit { StillPending(s.trims, i, s.limit); }
  }

  lemma StillPending(trims: seq<nat>, i: nat, limit: nat)
    requires i < |trims| && Pending(trims, limit) && trims[i] != limit
    ensures Pending(RemoveAt(trims, i), limit)
  {
    var j :| 0 <= j < |trims| && trims[j] == limit;
    assert RemoveAt(trims, i)[if j < i then j else j - 1] == limit;
  }

  lemma NextKeepsInv(s: State, e: Event)
    requires Inv(s)
    ensures Inv(Next(s, e))
  {
    match e
    case Upsert(source, target, route, now) => if now >= s.clock { UpsertKeepsInv(s, source, target, route, now); }
    case StoreLimit(requested) => assert Next(s, e).trims[|s.trims|] == Clamp(requested);
    case Trim(i) => if i < |s.trims| { TrimKeepsInv(s, i); }
    case DropSources(_) => SubseqKeepsInv(s.rows, Next(s, e).rows, s.clock);
    case DropTarget(_) => SubseqKeepsInv(s.rows, Next(s, e).rows, s.clock);
  }

  /** Over any run: controller and target pairs stay distinct, and the table is within the limit in
      force unless a call that stored this limit has yet to trim by it. */
  lemma {:induction false} RunKeepsInv(s: State, es: seq<Event>)
    requires Inv(s)
    ensures Inv(Run(s, es))
  {
    if es == [] {
    } else {
      RunKeepsInv(s, es[..|es| - 1]);
      NextKeepsInv(Run(s, es[..|es| - 1]), es[|es| - 1]);
    }
  }

  lemma FreshInv(s: State)
    requires Fresh(s)
    ensures Inv(s)
  {}

  predicate Within(s: State) {
    |s.rows| <= s.limit
  }

  /** The new limit is below the rows there are now. */
  predicate LimitTooLow(s: State, e: Event) {
    e.StoreLimit? && Clamp(e.requested) < |s.rows|
  }

  /** One step from a table within its limit leaves it within, exactly if the step does not store a
      limit below its rows. */
  lemma WithinStep(s: State, e: Event)
    requires 1 <= s.limit && Within(s)
    ensures Within(Next(s, e)) <==> !LimitTooLow(s, e)
  {
    match e
    case Upsert(source, target, route, now) =>
      TrimKeepsTheNewest(s.rows + [Row(source, target, route, now, now, 1)], s.limit);
    case StoreLimit(_) =>
    case Trim(i) => if i < |s.trims| { TrimKeepsTheNewest(s.rows, s.trims[i]); }
    case DropSources(_) => SubseqMembers(Next(s, e).rows, s.rows);
    case DropTarget(_) => SubseqMembers(Next(s, e).rows, s.rows);
  }

  predicate AlwaysWithin(s: State, es: seq<Event>)
    decreases |es|
  {
    Within(s) && (es == [] || AlwaysWithin(Next(s, es[0]), es[1..]))
  }

  predicate NoLimitTooLow(s: State, es: seq<Event>)
    decreases |es|
  {
    es == [] || (!LimitTooLow(s, es[0]) && NoLimitTooLow(Next(s, es[0]), es[1..]))
  }

  /** The length never exceeds the limit in force, in any state of a run, if and only if no limit
      change in it asks for less than the rows there are at that moment. */
  lemma {:induction false} AlwaysWithinIff(s: State, es: seq<Event>)
    requires 1 <= s.limit && Within(s)
    ensures AlwaysWithin(s, es) <==> NoLimitTooLow(s, es)
    decreases |es|
  {
    if es == [] {
    } else {
      var s1 := Next(s, es[0]);
      WithinStep(s, es[0]);
      if Within(s1) { AlwaysWithinIff(s1, es[1..]); }
    }
  }

  /** The limit is stored before the table is locked and trimmed, so a lowered limit can be exceeded,
      also by an upsert in between: it only trims when it adds a row. */
  lemma LoweredLimitCanBeExceeded(s: State, source: string, target: string, route: Route)
    requires Inv(s) && |s.rows| >= 2 && Of(s.rows[0], source, target)
    ensures var z := Next(Next(s, StoreLimit(1)), Upsert(source, target, route, s.clock));
            z.limit == 1 && |z.rows| == |s.rows|
  {}

  /** The negotiation just recorded is in the table afterwards, whatever had to be evicted. */
  lemma NewRecordStays(s: State, source: string, target: string, route: Route, now: nat)
    requires Inv(s) && now >= s.clock
    ensures exists i :: 0 <= i < |Next(s, Upsert(source, target, route, now)).rows|
                        && var r := Next(s, Upsert(source, target, route, now)).rows[i];
                        Of(r, source, target) && r.lastSeen == now && r.route == route
  {
    var z := Next(s, Upsert(source, target, route, now));
    match FindPair(s.rows, source, target)
    case Some(i) => assert Of(z.rows[i], source, target);
    case None =>
      var more := s.rows + [Row(source, target, route, now, now, 1)];
      LastRowStays(more, s.limit);
      assert Of(z.rows[|z.rows| - 1], source, target);
  }

  /** Revoking controllers, or deleting a target, takes exactly their rows and leaves the others in order. */
  lemma DropsExact(s: State, sources: seq<string>, id: string)
    ensures var bySource, byTarget := Next(s, DropSources(sources)), Next(s, DropTarget(id));
            && Subseq(bySource.rows, s.rows) && Subseq(byTarget.rows, s.rows)
            && (forall r :: r in bySource.rows <==> r in s.rows && r.source !in sources)
            && (forall r :: r in byTarget.rows <==> r in s.rows && r.target != id)
            && bySource == s.(rows := bySource.rows) && byTarget == s.(rows := byTarget.rows)
  {}

  // ---- Negotiation counts -----------------------------------------------------------------

  predicate Present(rows: seq<Row>, source: string, target: string) {
    exists i :: 0 <= i < |rows| && Of(rows[i], source, target)
  }

  /** The upserts of a pair since it last entered the table, by its presence alone. */
  function UpsertsSince(s: State, es: seq<Event>, source: string, target: string): nat {
    if es == [] then 0
    else
      var init, e := es[..|es| - 1], es[|es| - 1];
      var before := if Present(Run(s, init).rows, source, target) then UpsertsSince(s, init, source, target) else 0;
      if e.Upsert? && e.source == source && e.target == target && e.now >= Run(s, init).clock then before + 1 else before
  }

  /** Every row after a step is a row before it, or the row of the pair just upserted. */
  lemma RowsAfter(s: State, e: Event, i: nat)
    requires Inv(s) && i < |Next(s, e).rows|
    ensures var r := Next(s, e).rows[i];
            || (r in s.rows && !(e.Upsert? && e.now >= s.clock && Of(r, e.source, e.target)))
            || (&& e.Upsert? && e.now >= s.clock && Of(r, e.source, e.target)
                && (Present(s.rows, e.source, e.target) ==>
                      exists j :: 0 <= j < |s.rows| && Of(s.rows[j], e.source, e.target) && r.negotiations == s.rows[j].negotiations + 1)
                && (!Present(s.rows, e.source, e.target) ==> r.negotiations == 1))
  {
    var z := Next(s, e);
    match e
    case Upsert(source, target, route, now) =>
      if now >= s.clock {
        match FindPair(s.rows, source, target) {
          case Some(k) => assert Of(s.rows[k], source, target);
          case None =>
            var more := s.rows + [Row(source, target, route, now, now, 1)];
            TrimKeepsTheNewest(more, s.limit);
            SubseqMembers(z.rows, more);
            assert z.rows[i] in more;
            forall j | 0 <= j < |s.rows| ensures !Of(s.rows[j], source, target) { assert s.rows[j] in s.rows; }
        }
      }
    case StoreLimit(_) =>
    case Trim(k) =>
      if k < |s.trims| {
        TrimKeepsTheNewest(s.rows, s.trims[k]);
        SubseqMembers(z.rows, s.rows);
      }
    case DropSources(_) =>
    case DropTarget(_) =>
  }

  /** A row's negotiation count is exactly the upserts of its pair since the pair last entered. */
  lemma {:induction false} NegotiationsExact(s: State, es: seq<Event>, i: nat)
    requires Fresh(s) && i < |Run(s, es).rows|
    ensures var r := Run(s, es).rows[i]; r.negotiations == UpsertsSince(s, es, r.source, r.target)
    decreases |es|
  {
    var init, e := es[..|es| - 1], es[|es| - 1];
    var y, r := Run(s, init), Run(s, es).rows[i];
    FreshInv(s);
    RunKeepsInv(s, init);
    RowsAfter(y, e, i);
    if r in y.rows && !(e.Upsert? && e.now >= y.clock && Of(r, e.source, e.target)) {
      var j :| 0 <= j < |y.rows| && y.rows[j] == r;
      assert Of(y.rows[j], r.source, r.target);
      NegotiationsExact(s, init, j);
    } else if Present(y.rows, r.source, r.target) {
      var j :| 0 <= j < |y.rows| && Of(y.rows[j], r.source, r.target) && r.negotiations == y.rows[j].negotiations + 1;
      NegotiationsExact(s, init, j);
    }
  }
}
