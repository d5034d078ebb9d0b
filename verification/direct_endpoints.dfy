/** Where a workstation can be dialled without the relay: the one accepted form of an endpoint, and
    the list of endpoints sent to a controller. */
module DirectEndpoints {
  import opened Prelude
  import opened Text
  import opened ControllerGates

  const MAX_ENDPOINT_LEN: nat := 128
  const MAX_PORT: nat := 65_535

  datatype Endpoint = Endpoint(host: string, port: nat, knock: Option<nat>)

  predicate IsComma(c: char) { c == ',' }

  /** Parsing as a 16-bit unsigned number allows one leading plus sign and leading zeros; a port is
      not zero. */
  function ParsePort(s: string): Option<nat> {
    var digits := if |s| >= 2 && s[0] == '+' then s[1..] else s;
    match ParseNat(digits)
    case None => None
    case Some(n) => if 0 < n <= MAX_PORT then Some(n) else None
  }

  function LastIndexOf(s: string, c: char): (r: Option<nat>)
    ensures r.Some? ==> r.value < |s| && s[r.value] == c && c !in s[r.value + 1..]
    ensures r.None? ==> c !in s
  {
    if s == [] then None
    else if s[|s| - 1] == c then Some(|s| - 1)
    else LastIndexOf(s[..|s| - 1], c)
  }

  /** `host:port`, split at the last colon so that a bracketed IPv6 host survives. */
  function ParseAddress(addr: string): Option<(string, nat)> {
    match LastIndexOf(addr, ':')
    case None => None
    case Some(i) =>
      match ParsePort(addr[i + 1..])
      case None => None
      case Some(port) => if i == 0 then None else Some((addr[..i], port))
  }

  /** `host:port[,knockport]`, or nothing. */
  function Parse(raw: string): Option<Endpoint> {
    var t := Trim(raw);
    if t == [] || Utf8Len(t) > MAX_ENDPOINT_LEN then None
    else if ';' in t || !NoneOf(t, IsWhitespace) then None
    else
      var fields := Split(t, IsComma);
      if |fields| > 2 || (|fields| == 2 && ParsePort(fields[1]).None?) then None
      else
        match ParseAddress(fields[0])
        case None => None
        case Some((host, port)) => Some(Endpoint(host, port, if |fields| == 2 then ParsePort(fields[1]) else None))
  }

  function ShowAddress(e: Endpoint): string {
    e.host + ":" + ShowNat(e.port)
  }

  function Show(e: Endpoint): string {
    if e.knock.Some? then ShowAddress(e) + "," + ShowNat(e.knock.value) else ShowAddress(e)
  }

  function NormalizeDirectEndpoint(raw: string): Option<string> {
    match Parse(raw)
    case None => None
    case Some(e) => Some(Show(e))
  }

  predicate IsSeparator(c: char) {
    c == ',' || c == ';' || IsWhitespace(c)
  }

  predicate IsPort(n: nat) {
    0 < n <= MAX_PORT
  }

  predicate ValidEndpoint(e: Endpoint) {
    && e.host != [] && NoneOf(e.host, IsSeparator)
    && IsPort(e.port) && (e.knock.Some? ==> IsPort(e.knock.value))
    && Utf8Len(Show(e)) <= MAX_ENDPOINT_LEN
  }

  // ---- What is read alike -----------------------------------------------------------------

  /** White space around an entry does not matter. */
  lemma ParsesTrimmed(before: string, raw: string, after: string)
    requires Trimmed(raw) && raw != []
    requires (forall c <- before :: IsWhitespace(c)) && forall c <- after :: IsWhitespace(c)
    ensures Parse(before + raw + after) == Parse(raw)
  {
    TrimExact(before, raw, after);
    TrimIsIdempotent(raw);
  }

  /** Nor does a plus sign in front of a port, or leading zeros; a port is any of 1 to 65535. */
  lemma PortsReadAlike(digits: string)
    requires digits != [] && digits[0] != '+'
    ensures ParsePort("+" + digits) == ParsePort(digits) == ParsePort("0" + digits)
    ensures ParsePort(digits).Some? <==> ParseNat(digits).Some? && 1 <= ParseNat(digits).value <= 65_535
    ensures ParsePort(digits).Some? ==> ParsePort(digits) == ParseNat(digits)
  {
    assert ("+" + digits)[1..] == digits;
    LeadingZero(digits);
  }

  lemma {:induction false} LeadingZero(digits: string)
    requires digits != []
    ensures ParseNat("0" + digits) == ParseNat(digits)
    decreases |digits|
  {
    var s := "0" + digits;
    assert s[..|s| - 1] == "0" + digits[..|digits| - 1] && s[|s| - 1] == digits[|digits| - 1];
    if |digits| == 1 {
      assert s[..|s| - 1] == "0";
    } else {
      LeadingZero(digits[..|digits| - 1]);
    }
  }

  // ---- Parsing and writing are inverse ----------------------------------------------------

  lemma PortReadsBack(n: nat)
    requires IsPort(n)
    ensures ParsePort(ShowNat(n)) == Some(n)
  {
    ParseShow(n);
  }

  lemma PortIsShortest(s: string, n: nat)
    requires ParsePort(s) == Some(n)
    ensures Utf8Len(ShowNat(n)) <= Utf8Len(s)
  {
    var digits := if |s| >= 2 && s[0] == '+' then s[1..] else s;
    ShowIsShortest(digits, n);
    Utf8AtLeast(ShowNat(n));
    Utf8AtLeast(s);
  }

  lemma DigitsAreNoSeparators(n: nat)
    ensures NoneOf(ShowNat(n), IsSeparator) && ':' !in ShowNat(n)
  {}

  lemma {:induction false} LastIndexAfter(head: string, c: char, tail: string)
    requires c !in tail
    ensures LastIndexOf(head + [c] + tail, c) == Some(|head|)
    decreases |tail|
  {
    var s := head + [c] + tail;
    if tail == [] {
      assert s[|s| - 1] == c;
    } else {
      assert s[..|s| - 1] == head + [c] + tail[..|tail| - 1];
      LastIndexAfter(head, c, tail[..|tail| - 1]);
    }
  }

  lemma AddressReadsBack(e: Endpoint)
    requires ValidEndpoint(e)
    ensures ParseAddress(ShowAddress(e)) == Some((e.host, e.port))
  {
    var digits := ShowNat(e.port);
    DigitsAreNoSeparators(e.port);
    LastIndexAfter(e.host, ':', digits);
    var addr := ShowAddress(e);
    assert addr == e.host + [':'] + digits;
    assert addr[|e.host| + 1..] == digits && addr[..|e.host|] == e.host;
    PortReadsBack(e.port);
  }

  lemma ShowHasNoSeparators(e: Endpoint)
    requires ValidEndpoint(e)
    ensures NoneOf(ShowAddress(e), IsSeparator)
    ensures NoneOf(Show(e), IsWhitespace) && ';' !in Show(e) && Show(e) != []
  {}

  lemma FieldsOfShow(e: Endpoint)
    requires ValidEndpoint(e)
    ensures Split(Show(e), IsComma) == if e.knock.Some? then [ShowAddress(e), ShowNat(e.knock.value)] else [ShowAddress(e)]
  {
    var addr := ShowAddress(e);
    ShowHasNoSeparators(e);
    assert forall i :: 0 <= i < |addr| ==> !IsComma(addr[i]) by {
      forall i | 0 <= i < |addr| ensures !IsComma(addr[i]) { assert !IsSeparator(addr[i]); }
    }
    if e.knock.Some? {
      var k := ShowNat(e.knock.value);
      SplitAtSeparator(addr, ',', k, IsComma);
      SplitNoSeparator(k, IsComma);
      assert addr + [','] + k == Show(e);
    } else {
      SplitNoSeparator(addr, IsComma);
    }
  }

  /** Every valid endpoint is read back from the form it is written in. */
  lemma EndpointRoundTrip(e: Endpoint)
    requires ValidEndpoint(e)
    ensures Parse(Show(e)) == Some(e)
  {
    var t := Show(e);
    ShowHasNoSeparators(e);
    assert Trimmed(t) by { assert !IsWhitespace(t[0]) && !IsWhitespace(t[|t| - 1]); }
    TrimIsIdempotent(t);
    FieldsOfShow(e);
    AddressReadsBack(e);
    if e.knock.Some? { PortReadsBack(e.knock.value); }
  }

  lemma {:induction false} SplitParts(s: string)
    ensures var f := Split(s, IsComma);
            && (|f| == 1 ==> f[0] == s && ',' !in s)
            && (|f| == 2 ==> s == f[0] + [','] + f[1] && ',' !in f[0] && ',' !in f[1])
  {
    if s == [] {
    } else {
      SplitParts(s[1..]);
      var f, rest := Split(s, IsComma), Split(s[1..], IsComma);
      assert s == [s[0]] + s[1..];
      if s[0] == ',' {
        assert f == [[]] + rest;
        if |rest| == 1 { assert s == f[0] + [','] + f[1]; }
      } else {
        assert f[0] == [s[0]] + rest[0] && f[1..] == rest[1..];
        if |rest| == 2 { assert s == ([s[0]] + rest[0]) + [','] + rest[1]; }
      }
    }
  }

  lemma AddressParts(addr: string, host: string, port: nat) returns (tail: string)
    requires ParseAddress(addr) == Some((host, port))
    ensures addr == host + ":" + tail && ParsePort(tail) == Some(port) && host != []
  {
    var i := LastIndexOf(addr, ':').value;
    tail := addr[i + 1..];
    assert host == addr[..i];
  }

  lemma AddressShrinks(addr: string, host: string, port: nat)
    requires ParseAddress(addr) == Some((host, port))
    ensures host != [] && host <= addr && IsPort(port)
    ensures Utf8Len(host + ":" + ShowNat(port)) <= Utf8Len(addr)
  {
    var tail := AddressParts(addr, host, port);
    PortIsShortest(tail, port);
    ShorterTail(host + ":", ShowNat(port), tail);
  }

  lemma ShorterTail(head: string, a: string, b: string)
    requires Utf8Len(a) <= Utf8Len(b)
    ensures Utf8Len(head + a) <= Utf8Len(head + b)
  {
    Utf8Concat(head, a);
    Utf8Concat(head, b);
  }

  /** Whatever is accepted is a valid endpoint. */
  lemma AcceptedIsValid(raw: string)
    requires Parse(raw).Some?
    ensures ValidEndpoint(Parse(raw).value)
  {
    var t, e := Trim(raw), Parse(raw).value;
    var fields := Split(t, IsComma);
    SplitParts(t);
    AddressShrinks(fields[0], e.host, e.port);
    assert |fields| == 1 || |fields| == 2;
    assert e.host <= t;
    forall i | 0 <= i < |e.host| ensures !IsSeparator(e.host[i]) {
      assert e.host[i] == fields[0][i] == t[i];
    }
    if |fields| == 2 {
      PortIsShortest(fields[1], e.knock.value);
      assert t == fields[0] + "," + fields[1];
      Utf8Concat(fields[0] + ",", fields[1]);
      Utf8Concat(fields[0], ",");
      Utf8Concat(ShowAddress(e) + ",", ShowNat(e.knock.value));
      Utf8Concat(ShowAddress(e), ",");
    }
  }

  /** Normalising is idempotent for every input, and gives nothing that could forge a list entry. */
  lemma NormalizeIdempotent(raw: string)
    ensures var r := NormalizeDirectEndpoint(raw);
            r.Some? ==> NormalizeDirectEndpoint(r.value) == r && ';' !in r.value && r.value != []
  {
    if Parse(raw).Some? {
      AcceptedIsValid(raw);
      EndpointRoundTrip(Parse(raw).value);
      ShowHasNoSeparators(Parse(raw).value);
    }
  }

  // ---- Sorting ----------------------------------------------------------------------------

  /** Byte order of the UTF-8 forms, which is the order of code points. */
  predicate Leq(a: string, b: string) {
    a == [] || (b != [] && (a[0] < b[0] || (a[0] == b[0] && Leq(a[1..], b[1..]))))
  }

  lemma {:induction false} LeqTotal(a: string, b: string)
    ensures Leq(a, b) || Leq(b, a)
    ensures Leq(a, b) && Leq(b, a) ==> a == b
  {
    if a != [] && b != [] && a[0] == b[0] {
      LeqTotal(a[1..], b[1..]);
      assert a == [a[0]] + a[1..] && b == [b[0]] + b[1..];
    }
  }

  lemma {:induction false} LeqTransitive(a: string, b: string, c: string)
    requires Leq(a, b) && Leq(b, c)
    ensures Leq(a, c)
  {
    if a != [] && a[0] == b[0] && b[0] == c[0] { LeqTransitive(a[1..], b[1..], c[1..]); }
  }

  function Insert(x: string, s: seq<string>): (r: seq<string>)
    ensures multiset(r) == multiset{x} + multiset(s)
  {
    if s == [] || Leq(x, s[0]) then [x] + s
    else
      assert s == [s[0]] + s[1..];
      [s[0]] + Insert(x, s[1..])
  }

  function Sort(s: seq<string>): (r: seq<string>)
    ensures multiset(r) == multiset(s)
  {
    if s == [] then []
    else
      assert s == [s[0]] + s[1..];
      Insert(s[0], Sort(s[1..]))
  }

  predicate Sorted(s: seq<string>) {
    s == [] || (Sorted(s[1..]) && forall i :: 1 <= i < |s| ==> Leq(s[0], s[i]))
  }

  lemma {:induction false} InsertSorted(x: string, s: seq<string>)
    requires Sorted(s)
    ensures Sorted(Insert(x, s))
  {
    if s == [] || Leq(x, s[0]) {
      forall i | 0 <= i < |s| ensures Leq(x, s[i]) {
        if i > 0 { LeqTransitive(x, s[0], s[i]); }
      }
      assert ([x] + s)[1..] == s;
    } else {
      var rest := Insert(x, s[1..]);
      InsertSorted(x, s[1..]);
      LeqTotal(x, s[0]);
      forall i | 0 <= i < |rest| ensures Leq(s[0], rest[i]) {
        assert rest[i] in multiset(rest);
        if rest[i] != x {
          assert rest[i] in s[1..];
          var j :| 0 <= j < |s[1..]| && s[1..][j] == rest[i];
          assert s[j + 1] == rest[i];
        }
      }
      assert ([s[0]] + rest)[1..] == rest;
    }
  }

  lemma {:induction false} SortSorts(s: seq<string>)
    ensures Sorted(Sort(s))
  {
    if s == [] {
    } else {
      SortSorts(s[1..]);
      InsertSorted(s[0], Sort(s[1..]));
    }
  }

  lemma LeastFirst(a: seq<string>, x: string)
    requires Sorted(a) && x in a
    ensures Leq(a[0], x)
  {
    LeqTotal(x, x);
    var i :| 0 <= i < |a| && a[i] == x;
  }

  lemma FirstAndRest(s: seq<string>)
    requires s != []
    ensures s == [s[0]] + s[1..] && multiset(s[1..]) == multiset(s) - multiset{s[0]}
  {}

  lemma {:induction false} SortedIsUnique(a: seq<string>, b: seq<string>)
    requires Sorted(a) && Sorted(b) && multiset(a) == multiset(b)
    ensures a == b
  {
    assert |a| == |multiset(a)| && |b| == |multiset(b)|;
    if a == [] {
    } else {
      assert a[0] in multiset(a) && b[0] in multiset(b);
      LeastFirst(a, b[0]);
      LeastFirst(b, a[0]);
      LeqTotal(a[0], b[0]);
      FirstAndRest(a);
      FirstAndRest(b);
      SortedIsUnique(a[1..], b[1..]);
    }
  }

  // ---- The list for one controller --------------------------------------------------------

  type Endpoints = map<string, string>

  predicate Served(blocked: set<string>, targets: Option<string>, id: string) {
    id !in blocked && TargetListAllows(targets, id)
  }

  function RowOf(endpoints: Endpoints, id: string): string {
    id + "," + if id in endpoints then endpoints[id] else []
  }

  /** The rows in the order the hash map gives its entries. */
  function Rows(endpoints: Endpoints, blocked: set<string>, targets: Option<string>, order: seq<string>): seq<string> {
    if order == [] then []
    else (if Served(blocked, targets, order[0]) then [RowOf(endpoints, order[0])] else []) + Rows(endpoints, blocked, targets, order[1..])
  }

  predicate Enumerates(order: seq<string>, ids: set<string>) {
    && (forall i :: 0 <= i < |order| ==> order[i] in ids)
    && (forall id <- ids :: id in order)
    && (forall i, j :: 0 <= i < j < |order| ==> order[i] != order[j])
  }

  function DirectEndpointMap(endpoints: Endpoints, blocked: set<string>, targets: Option<string>, order: seq<string>): string
    requires Enumerates(order, endpoints.Keys)
  {
    if endpoints == map[] then [] else Join(Sort(Rows(endpoints, blocked, targets, order)), ';')
  }

  lemma {:induction false} CountOnce(order: seq<string>, ids: set<string>, id: string)
    requires Enumerates(order, ids)
    ensures multiset(order)[id] == if id in ids then 1 else 0
    decreases |order|
  {
    if order == [] {
    } else {
      assert order == [order[0]] + order[1..];
      assert forall x <- ids - {order[0]} :: x in order[1..];
      CountOnce(order[1..], ids - {order[0]}, id);
    }
  }

  lemma {:induction false} RowsConcat(endpoints: Endpoints, blocked: set<string>, targets: Option<string>, a: seq<string>, b: seq<string>)
    ensures Rows(endpoints, blocked, targets, a + b) == Rows(endpoints, blocked, targets, a) + Rows(endpoints, blocked, targets, b)
  {
    if a == [] {
      assert a + b == b;
    } else {
      assert (a + b)[1..] == a[1..] + b;
      RowsConcat(endpoints, blocked, targets, a[1..], b);
    }
  }

  /** Moving one entry to the front permutes the rows. */
  lemma RowsFromFront(endpoints: Endpoints, blocked: set<string>, targets: Option<string>, pre: seq<string>, id: string, post: seq<string>)
    ensures multiset(Rows(endpoints, blocked, targets, pre + [id] + post)) == multiset(Rows(endpoints, blocked, targets, [id] + (pre + post)))
  {
    RowsConcat(endpoints, blocked, targets, pre + [id], post);
    RowsConcat(endpoints, blocked, targets, pre, [id]);
    RowsConcat(endpoints, blocked, targets, [id], pre + post);
    RowsConcat(endpoints, blocked, targets, pre, post);
  }

  lemma {:induction false} RowsPermute(endpoints: Endpoints, blocked: set<string>, targets: Option<string>, a: seq<string>, b: seq<string>)
    requires multiset(a) == multiset(b)
    ensures multiset(Rows(endpoints, blocked, targets, a)) == multiset(Rows(endpoints, blocked, targets, b))
    decreases |a|
  {
    assert |a| == |multiset(a)| && |b| == |multiset(b)|;
    if a == [] {
    } else {
      assert a[0] in multiset(a) && a[0] in multiset(b);
      var j :| 0 <= j < |b| && b[j] == a[0];
      var rest := b[..j] + b[j + 1..];
      TakenOut(b, j);
      FirstAndRest(a);
      RowsPermute(endpoints, blocked, targets, a[1..], rest);
      RowsConcat(endpoints, blocked, targets, [a[0]], a[1..]);
      RowsConcat(endpoints, blocked, targets, [a[0]], rest);
      RowsFromFront(endpoints, blocked, targets, b[..j], a[0], b[j + 1..]);
    }
  }

  lemma TakenOut(s: seq<string>, j: nat)
    requires j < |s|
    ensures s == s[..j] + [s[j]] + s[j + 1..]
    ensures multiset(s[..j] + s[j + 1..]) == multiset(s) - multiset{s[j]}
  {}

  /** The value does not depend on the order in which the hash map gives its entries, so it is the
      same from poll to poll. */
  lemma IndependentOfOrder(endpoints: Endpoints, blocked: set<string>, targets: Option<string>, a: seq<string>, b: seq<string>)
    requires Enumerates(a, endpoints.Keys) && Enumerates(b, endpoints.Keys)
    ensures DirectEndpointMap(endpoints, blocked, targets, a) == DirectEndpointMap(endpoints, blocked, targets, b)
  {
    forall id ensures multiset(a)[id] == multiset(b)[id] {
      CountOnce(a, endpoints.Keys, id);
      CountOnce(b, endpoints.Keys, id);
    }
    assert multiset(a) == multiset(b);
    RowsPermute(endpoints, blocked, targets, a, b);
    var ra, rb := Rows(endpoints, blocked, targets, a), Rows(endpoints, blocked, targets, b);
    SortSorts(ra);
    SortSorts(rb);
    SortedIsUnique(Sort(ra), Sort(rb));
  }

  /** The entries read from the value: its non-empty pieces, each split at its first comma. */
  ghost predicate Listed(value: string, id: string, endpoint: string) {
    (id + "," + endpoint) in Split(value, x => x == ';')
  }

  lemma {:induction false} RowIn(endpoints: Endpoints, blocked: set<string>, targets: Option<string>, order: seq<string>, row: string)
    ensures row in Rows(endpoints, blocked, targets, order) <==>
            exists id :: id in order && Served(blocked, targets, id) && row == RowOf(endpoints, id)
  {
    if order == [] {
    } else {
      RowIn(endpoints, blocked, targets, order[1..], row);
      assert order == [order[0]] + order[1..];
    }
  }

  lemma {:induction false} FirstCommaDecides(id: string, rest: string, id': string, rest': string)
    requires ',' !in id && ',' !in id' && id + "," + rest == id' + "," + rest'
    ensures id == id' && rest == rest'
  {
    var s, s' := id + "," + rest, id' + "," + rest';
    assert s[0] == (if id == [] then ',' else id[0]) && s'[0] == (if id' == [] then ',' else id'[0]);
    if id == [] {
      assert rest == s[1..] && rest' == s'[1..];
    } else {
      assert s[1..] == id[1..] + "," + rest && s'[1..] == id'[1..] + "," + rest';
      FirstCommaDecides(id[1..], rest, id'[1..], rest');
      assert id == [id[0]] + id[1..] && id' == [id'[0]] + id'[1..];
    }
  }

  /** For ids without separators and normalised endpoints, the value splits back to exactly the rows
      of the peers that are not blocked and that the controller's target list allows. */
  lemma MapSplitsBack(endpoints: Endpoints, blocked: set<string>, targets: Option<string>, order: seq<string>, id: string, endpoint: string)
    requires Enumerates(order, endpoints.Keys)
    requires forall i <- endpoints :: ';' !in i && ',' !in i && ';' !in endpoints[i]
    requires ',' !in id
    ensures Listed(DirectEndpointMap(endpoints, blocked, targets, order), id, endpoint) <==>
            id in endpoints && endpoints[id] == endpoint && Served(blocked, targets, id)
  {
    var rows := Rows(endpoints, blocked, targets, order);
    var sorted := Sort(rows);
    var row := id + "," + endpoint;
    RowIn(endpoints, blocked, targets, order, row);
    assert row in sorted <==> row in rows by { assert row in multiset(sorted) <==> row in multiset(rows); }
    if i :| i in order && Served(blocked, targets, i) && row == RowOf(endpoints, i) {
      FirstCommaDecides(id, endpoint, i, endpoints[i]);
    }
    if sorted == [] {
      assert Split([], x => x == ';') == [[]];
    } else {
      forall j | 0 <= j < |sorted| ensures ';' !in sorted[j] {
        assert sorted[j] in multiset(rows);
        RowIn(endpoints, blocked, targets, order, sorted[j]);
      }
      SplitJoin(sorted, ';');
    }
    if id in endpoints && Served(blocked, targets, id) && endpoints[id] == endpoint { assert id in order; }
  }
}
