/** The string operations the server's text handling is written in: trimming, splitting on a
    class of characters, joining, replacing, and writing and reading decimal numbers. */
module Text {
  import opened Prelude

  /** The characters of the Unicode White_Space property. */
  predicate IsWhitespace(c: char) {
    || '\t' <= c <= '\r' || c == ' ' || c == '\U{85}' || c == '\U{A0}' || c == '\U{1680}'
    || '\U{2000}' <= c <= '\U{200A}' || c == '\U{2028}' || c == '\U{2029}' || c == '\U{202F}'
    || c == '\U{205F}' || c == '\U{3000}'
  }

  function TrimStart(s: string): (r: string)
    ensures r == [] || !IsWhitespace(r[0])
    ensures s == [] || !IsWhitespace(s[0]) ==> r == s
  {
    if s == [] || !IsWhitespace(s[0]) then s else TrimStart(s[1..])
  }

  function TrimEnd(s: string): (r: string)
    ensures r == [] || !IsWhitespace(r[|r| - 1])
    ensures s == [] || !IsWhitespace(s[|s| - 1]) ==> r == s
    ensures r <= s
  {
    if s == [] || !IsWhitespace(s[|s| - 1]) then s else TrimEnd(s[..|s| - 1])
  }

  function Trim(s: string): string {
    TrimEnd(TrimStart(s))
  }

  /** Text with no white space at either end. */
  predicate Trimmed(s: string) {
    s == [] || (!IsWhitespace(s[0]) && !IsWhitespace(s[|s| - 1]))
  }

  /** What Trim returns is trimmed, and trimming again changes nothing. */
  lemma TrimIsIdempotent(s: string)
    ensures Trimmed(Trim(s))
    ensures forall t: string :: Trimmed(t) ==> Trim(t) == t
  {}

  /** Trimming takes off all white space at both ends, and nothing else. */
  lemma TrimExact(before: string, s: string, after: string)
    requires Trimmed(s) && s != []
    requires (forall c <- before :: IsWhitespace(c)) && forall c <- after :: IsWhitespace(c)
    ensures Trim(before + s + after) == s
  {
    assert before + s + after == before + (s + after);
    TrimStartExact(before, s + after);
    TrimEndExact(s, after);
  }

  lemma {:induction false} TrimStartExact(before: string, s: string)
    requires s != [] && !IsWhitespace(s[0]) && forall c <- before :: IsWhitespace(c)
    ensures TrimStart(before + s) == s
  {
    if before == [] {
      assert before + s == s;
    } else {
      assert IsWhitespace(before[0]);
      assert (before + s)[1..] == before[1..] + s;
      TrimStartExact(before[1..], s);
    }
  }

  lemma {:induction false} TrimEndExact(s: string, after: string)
    requires Trimmed(s) && s != [] && forall c <- after :: IsWhitespace(c)
    ensures TrimEnd(s + after) == s
    decreases |after|
  {
    if after == [] {
      assert s + after == s;
    } else {
      assert IsWhitespace(after[|after| - 1]);
      assert (s + after)[..|s + after| - 1] == s + after[..|after| - 1];
      TrimEndExact(s, after[..|after| - 1]);
    }
  }

  /** The characters of s that satisfy keep, in order. */
  function Filter(s: string, keep: char -> bool): (r: string)
    ensures forall i :: 0 <= i < |r| ==> keep(r[i])
    ensures |r| <= |s|
  {
    if s == [] then [] else (if keep(s[0]) then [s[0]] else []) + Filter(s[1..], keep)
  }

  lemma {:induction false} FilterConcat(a: string, b: string, keep: char -> bool)
    ensures Filter(a + b, keep) == Filter(a, keep) + Filter(b, keep)
  {
    if a == [] {
      assert a + b == b;
    } else {
      assert (a + b)[1..] == a[1..] + b;
      FilterConcat(a[1..], b, keep);
    }
  }

  predicate NoneOf(s: string, p: char -> bool) {
    forall i :: 0 <= i < |s| ==> !p(s[i])
  }

  lemma {:induction false} FilterNone(s: string, keep: char -> bool)
    requires NoneOf(s, keep)
    ensures Filter(s, keep) == []
  {
    if s == [] {
    } else {
      assert NoneOf(s[1..], keep);
      FilterNone(s[1..], keep);
    }
  }

  /** The pieces of s between separators; always at least one piece. */
  function Split(s: string, sep: char -> bool): (r: seq<string>)
    ensures |r| >= 1
  {
    if s == [] then [[]]
    else
      var rest := Split(s[1..], sep);
      if sep(s[0]) then [[]] + rest else [[s[0]] + rest[0]] + rest[1..]
  }

  function Join(parts: seq<string>, sep: char): string {
    if parts == [] then []
    else if |parts| == 1 then parts[0]
    else parts[0] + [sep] + Join(parts[1..], sep)
  }

  lemma {:induction false} SplitNoSeparator(s: string, sep: char -> bool)
    requires NoneOf(s, sep)
    ensures Split(s, sep) == [s]
  {
    if s == [] {
    } else {
      SplitNoSeparator(s[1..], sep);
      assert [s[0]] + s[1..] == s;
    }
  }

  /** Splitting at the first separator: the head is the first piece. */
  lemma {:induction false} SplitAtSeparator(head: string, c: char, tail: string, sep: char -> bool)
    requires NoneOf(head, sep) && sep(c)
    ensures Split(head + [c] + tail, sep) == [head] + Split(tail, sep)
  {
    var s := head + [c] + tail;
    if head == [] {
      assert s[1..] == tail;
    } else {
      assert s[1..] == head[1..] + [c] + tail;
      SplitAtSeparator(head[1..], c, tail, sep);
      assert [s[0]] + head[1..] == head;
    }
  }

  /** Joined text splits back into its parts when no part contains the separator. */
  lemma {:induction false} SplitJoin(parts: seq<string>, c: char)
    requires parts != []
    requires forall i :: 0 <= i < |parts| ==> c !in parts[i]
    ensures Split(Join(parts, c), x => x == c) == parts
  {
    var sep := (x: char) => x == c;
    if |parts| == 1 {
      SplitNoSeparator(parts[0], sep);
    } else {
      SplitAtSeparator(parts[0], c, Join(parts[1..], c), sep);
      SplitJoin(parts[1..], c);
    }
  }

  /** Decimal digits, without leading zeros. */
  function ShowNat(n: nat): (r: string)
    ensures r != [] && forall i :: 0 <= i < |r| ==> '0' <= r[i] <= '9'
  {
    var digit := ['0' + (n % 10) as char];
    if n < 10 then digit else ShowNat(n / 10) + digit
  }

  /** The number written by a string of decimal digits; None on anything else. */
  function ParseNat(s: string): Option<nat> {
    if s == [] then None
    else
      var c := s[|s| - 1];
      if !('0' <= c <= '9') then None
      else
        var d := (c - '0') as nat;
        if |s| == 1 then Some(d)
        else match ParseNat(s[..|s| - 1])
          case None => None
          case Some(n) => Some(10 * n + d)
  }

  lemma {:induction false} ParseShow(n: nat)
    ensures ParseNat(ShowNat(n)) == Some(n)
  {
    var s := ShowNat(n);
    if n >= 10 {
      ParseShow(n / 10);
      assert s[..|s| - 1] == ShowNat(n / 10);
    }
  }

  /** The length of the UTF-8 encoding. */
  function Utf8Len(s: string): nat {
    if s == [] then 0
    else
      var c := s[0] as int;
      (if c < 0x80 then 1 else if c < 0x800 then 2 else if c < 0x1_0000 then 3 else 4) + Utf8Len(s[1..])
  }

  lemma {:induction false} Utf8Concat(a: string, b: string)
    ensures Utf8Len(a + b) == Utf8Len(a) + Utf8Len(b)
  {
    if a == [] {
      assert a + b == b;
    } else {
      assert (a + b)[1..] == a[1..] + b;
      Utf8Concat(a[1..], b);
    }
  }

  lemma {:induction false} Utf8AtLeast(s: string)
    ensures Utf8Len(s) >= |s|
    ensures (forall i :: 0 <= i < |s| ==> s[i] < '\U{80}') ==> Utf8Len(s) == |s|
  {
    if s == [] {
    } else {
      Utf8AtLeast(s[1..]);
    }
  }

  /** A number is never written longer than it was read. */
  lemma {:induction false} ShowIsShortest(s: string, n: nat)
    requires ParseNat(s) == Some(n)
    ensures |ShowNat(n)| <= |s|
  {
    if |s| > 1 {
      var m := ParseNat(s[..|s| - 1]).value;
      ShowIsShortest(s[..|s| - 1], m);
      assert n / 10 == m;
    }
  }
}
