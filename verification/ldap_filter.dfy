/** Building the directory search filter: user text is escaped as section 3 of RFC 4515 asks, then put
    in the place of the template's placeholders, one kind after the other. */
module LdapFilter {
  import opened Prelude
  import opened Text
  import opened ControllerGates

  function EscapeChar(c: char): string {
    if c == '\\' then "\\5c"
    else if c == '*' then "\\2a"
    else if c == '(' then "\\28"
    else if c == ')' then "\\29"
    else if c == '\0' then "\\00"
    else if c == '/' then "\\2f"
    else [c]
  }

  function Escape(s: string): string {
    if s == [] then [] else EscapeChar(s[0]) + Escape(s[1..])
  }

  lemma EscapeStep(s: string, i: nat, out: string)
    requires i < |s|
    ensures out + Escape(s[i..]) == (out + EscapeChar(s[i])) + Escape(s[i + 1..])
  {}

  method EscapeFilter(input: string) returns (out: string)
    ensures out == Escape(input)
  {
    out := [];
    for i := 0 to |input|
      invariant out + Escape(input[i..]) == Escape(input)
    {
      var e := [input[i]];
      match input[i] {
        case '\\' => e := "\\5c";
        case '*' => e := "\\2a";
        case '(' => e := "\\28";
        case ')' => e := "\\29";
        case '\0' => e := "\\00";
        case '/' => e := "\\2f";
        case _ =>
      }
      assert e == EscapeChar(input[i]);
      EscapeStep(input, i, out);
      out := out + e;
    }
    assert input[|input|..] == [];
  }

  /** The characters that shape a filter: they may not stand in a value (RFC 4515, section 3). */
  predicate Structural(c: char) {
    c == '(' || c == ')' || c == '*' || c == '\0'
  }

  function HexDigit(c: char): Option<int> {
    if '0' <= c <= '9' then Some((c - '0') as int)
    else if 'a' <= c <= 'f' then Some((c - 'a') as int + 10)
    else if 'A' <= c <= 'F' then Some((c - 'A') as int + 10)
    else None
  }

  /** The value that filter text stands for: a backslash and two hex digits is one character, a
      structural character or any other backslash is not allowed. */
  function Unescape(s: string): Option<string> {
    if s == [] then Some([])
    else if Structural(s[0]) then None
    else if s[0] != '\\' then
      match Unescape(s[1..])
      case None => None
      case Some(rest) => Some([s[0]] + rest)
    else if |s| < 3 then None
    else
      match (HexDigit(s[1]), HexDigit(s[2]), Unescape(s[3..]))
      case (Some(h), Some(l), Some(rest)) => Some([(16 * h + l) as char] + rest)
      case _ => None
  }

  lemma EscapedCharReadsBack(c: char, rest: string, value: string)
    requires Unescape(rest) == Some(value)
    ensures Unescape(EscapeChar(c) + rest) == Some([c] + value)
  {}

  /** Escaping has a left inverse: an escaped value is read back by the directory as exactly the text
      given, whatever it was. */
  lemma {:induction false} EscapeReadsBack(s: string)
    ensures Unescape(Escape(s)) == Some(s)
  {
    if s == [] {
    } else {
      EscapeReadsBack(s[1..]);
      EscapedCharReadsBack(s[0], Escape(s[1..]), s[1..]);
      assert s == [s[0]] + s[1..];
    }
  }

  lemma {:induction false} EscapeHasNoStructure(s: string)
    ensures NoneOf(Escape(s), Structural)
  {
    if s == [] {
    } else {
      EscapeHasNoStructure(s[1..]);
      assert NoneOf(EscapeChar(s[0]), Structural);
    }
  }

  /** So two values never escape alike. */
  lemma EscapeInjective(s: string, t: string)
    requires Escape(s) == Escape(t)
    ensures s == t
  {
    EscapeReadsBack(s);
    EscapeReadsBack(t);
  }

  // ---- Placeholders -----------------------------------------------------------------------

  /** Every occurrence of pat, from the left and without overlaps, becomes sub. */
  function Replace(s: string, pat: string, sub: string): string
    requires pat != []
  {
    if |s| < |pat| then s
    else if s[..|pat|] == pat then sub + Replace(s[|pat|..], pat, sub)
    else [s[0]] + Replace(s[1..], pat, sub)
  }

  const USERNAME := "{username}"
  const RAW_USERNAME := "{raw_username}"
  const UPN := "{upn}"

  /** The user principal name: the bare account name, with the domain if one is configured. */
  function Upn(username: string, domain: string): string {
    if Trim(domain) == [] then RawUsername(username) else RawUsername(username) + "@" + Trim(domain)
  }

  function BuildSearchFilter(template: string, username: string, domain: string): string {
    Replace(Replace(Replace(template, USERNAME, Escape(Trim(username))),
                    RAW_USERNAME, Escape(RawUsername(username))),
            UPN, Escape(Upn(username, domain)))
  }

  lemma {:induction false} ReplaceKeepsStructure(s: string, pat: string, sub: string)
    requires pat != [] && NoneOf(pat, Structural) && NoneOf(sub, Structural)
    ensures Filter(Replace(s, pat, sub), Structural) == Filter(s, Structural)
  {
    if |s| < |pat| {
    } else if s[..|pat|] == pat {
      var rest := s[|pat|..];
      ReplaceKeepsStructure(rest, pat, sub);
      assert s == pat + rest;
      FilterConcat(pat, rest, Structural);
      FilterConcat(sub, Replace(rest, pat, sub), Structural);
      FilterNone(pat, Structural);
      FilterNone(sub, Structural);
    } else {
      ReplaceKeepsStructure(s[1..], pat, sub);
      FilterConcat([s[0]], Replace(s[1..], pat, sub), Structural);
      FilterConcat([s[0]], s[1..], Structural);
      assert s == [s[0]] + s[1..];
    }
  }

  /** No user or domain can change the shape of the filter: for every template, the structural
      characters of the result are the template's, in order, even when the text put in for one
      placeholder contains another that is then replaced in turn. */
  lemma FilterShapeIsTheTemplates(template: string, username: string, domain: string)
    ensures Filter(BuildSearchFilter(template, username, domain), Structural) == Filter(template, Structural)
  {
    var u, r, p := Escape(Trim(username)), Escape(RawUsername(username)), Escape(Upn(username, domain));
    EscapeHasNoStructure(Trim(username));
    EscapeHasNoStructure(RawUsername(username));
    EscapeHasNoStructure(Upn(username, domain));
    PlaceholdersArePlain();
    var a := Replace(template, USERNAME, u);
    var b := Replace(a, RAW_USERNAME, r);
    ReplaceKeepsStructure(template, USERNAME, u);
    ReplaceKeepsStructure(a, RAW_USERNAME, r);
    ReplaceKeepsStructure(b, UPN, p);
  }

  lemma PlaceholdersArePlain()
    ensures NoneOf(USERNAME, Structural) && NoneOf(RAW_USERNAME, Structural) && NoneOf(UPN, Structural)
  {}

  /** No occurrence starts where the text differs from pat at some place k. */
  lemma ReplaceMiss(s: string, pat: string, sub: string, k: nat)
    requires k < |pat| && s != [] && (k < |s| ==> s[k] != pat[k])
    ensures Replace(s, pat, sub) == [s[0]] + Replace(s[1..], pat, sub)
  {}

  lemma {:induction false} ReplaceAbsent(s: string, pat: string, sub: string)
    requires pat != [] && pat[0] !in s
    ensures Replace(s, pat, sub) == s
  {
    if s == [] {
    } else {
      ReplaceMiss(s, pat, sub, 0);
      ReplaceAbsent(s[1..], pat, sub);
      assert s == [s[0]] + s[1..];
    }
  }

  lemma {:induction false} ReplaceAfter(pre: string, s: string, pat: string, sub: string)
    requires pat != [] && pat[0] !in pre
    ensures Replace(pre + s, pat, sub) == pre + Replace(s, pat, sub)
  {
    if pre == [] {
      assert pre + s == s;
    } else {
      var rest := Replace(s, pat, sub);
      ReplaceMiss(pre + s, pat, sub, 0);
      assert (pre + s)[1..] == pre[1..] + s;
      ReplaceAfter(pre[1..], s, pat, sub);
      assert [pre[0]] + (pre[1..] + rest) == pre + rest;
    }
  }

  /** The principal is the account's name at the domain configured, however the name was typed; without a
      domain it is the bare name. */
  lemma PrincipalExact(user: string, typed: string, domain: string)
    requires '\\' !in user && '@' !in user && Trimmed(user) && user != [] && '\\' !in typed && Trimmed(typed) && typed != []
    ensures Upn(user, []) == Upn(typed + "\\" + user, []) == Upn(user + "@" + typed, []) == user
    ensures Trim(domain) != [] ==>
              Upn(user, domain) == Upn(typed + "\\" + user, domain) == Upn(user + "@" + typed, domain) == user + "@" + Trim(domain)
  {
    AccountNamesAgree(typed, user);
  }

  // ---- What a placeholder's place holds ---------------------------------------------------

  /** pat stands somewhere in s. */
  predicate Occurs(s: string, pat: string)
    requires pat != []
  {
    |s| >= |pat| && (s[..|pat|] == pat || Occurs(s[1..], pat))
  }

  lemma {:induction false} ReplaceResizes(s: string, pat: string, sub: string)
    requires pat != []
    ensures |sub| >= |pat| ==> |Replace(s, pat, sub)| >= |s|
    ensures |sub| <= |pat| ==> |Replace(s, pat, sub)| <= |s|
  {
    if |s| < |pat| {
    } else if s[..|pat|] == pat {
      ReplaceResizes(s[|pat|..], pat, sub);
    } else {
      ReplaceResizes(s[1..], pat, sub);
    }
  }

  /** A replacement by something else changes the text exactly if there is something to replace. */
  lemma {:induction false} ReplaceSameIff(s: string, pat: string, sub: string)
    requires pat != []
    ensures Replace(s, pat, sub) == s <==> !Occurs(s, pat) || sub == pat
  {
    if |s| < |pat| {
    } else if s[..|pat|] == pat {
      var rest := s[|pat|..];
      assert s == pat + rest;
      ReplaceSameIff(rest, pat, sub);
      ReplaceResizes(rest, pat, sub);
      if sub + Replace(rest, pat, sub) == s {
        assert |sub| == |pat|;
        assert (sub + Replace(rest, pat, sub))[..|pat|] == sub;
      }
    } else {
      ReplaceSameIff(s[1..], pat, sub);
      assert s == [s[0]] + s[1..];
      assert ([s[0]] + Replace(s[1..], pat, sub))[1..] == Replace(s[1..], pat, sub);
    }
  }

  lemma {:induction false} ReplaceNoneEnds(s: string, pat: string, sub: string)
    requires pat != [] && pat[|pat| - 1] !in s
    ensures Replace(s, pat, sub) == s
  {
    if s == [] {
    } else {
      ReplaceMiss(s, pat, sub, |pat| - 1);
      ReplaceNoneEnds(s[1..], pat, sub);
      assert s == [s[0]] + s[1..];
    }
  }

  lemma {:induction false} ReplaceBefore(s: string, post: string, pat: string, sub: string)
    requires pat != [] && pat[|pat| - 1] !in post
    ensures Replace(s + post, pat, sub) == Replace(s, pat, sub) + post
  {
    var t := s + post;
    if s == [] {
      assert t == post;
      ReplaceNoneEnds(post, pat, sub);
    } else if |t| < |pat| {
    } else if t[..|pat|] == pat {
      assert t[|pat| - 1] == pat[|pat| - 1] && t[|s|..] == post;
      assert |s| >= |pat|;
      assert s[..|pat|] == t[..|pat|] && t[|pat|..] == s[|pat|..] + post;
      ReplaceBefore(s[|pat|..], post, pat, sub);
      assert sub + (Replace(s[|pat|..], pat, sub) + post) == (sub + Replace(s[|pat|..], pat, sub)) + post;
    } else {
      assert t[1..] == s[1..] + post && t[0] == s[0];
      ReplaceBefore(s[1..], post, pat, sub);
      if |s| >= |pat| { assert s[..|pat|] == t[..|pat|]; } else { assert s == [s[0]] + s[1..]; }
      assert [s[0]] + (Replace(s[1..], pat, sub) + post) == ([s[0]] + Replace(s[1..], pat, sub)) + post;
    }
  }

  /** Braces stand only at the two ends. */
  predicate Braced(pat: string) {
    && |pat| >= 2 && pat[0] == '{' && pat[|pat| - 1] == '}'
    && '{' !in pat[1..] && '}' !in pat[..|pat| - 1]
  }

  /** Text around that has no braces is left alone. */
  lemma ReplaceWithin(pre: string, s: string, post: string, pat: string, sub: string)
    requires Braced(pat) && '{' !in pre && '}' !in post
    ensures Replace(pre + s + post, pat, sub) == pre + Replace(s, pat, sub) + post
  {
    assert pre + s + post == pre + (s + post);
    ReplaceAfter(pre, s + post, pat, sub);
    ReplaceBefore(s, post, pat, sub);
    assert pre + (Replace(s, pat, sub) + post) == pre + Replace(s, pat, sub) + post;
  }

  lemma ReplaceItself(pat: string, sub: string)
    requires pat != []
    ensures Replace(pat, pat, sub) == sub
  {
    assert pat[..|pat|] == pat && pat[|pat|..] == [] && sub + [] == sub;
  }

  lemma ReplaceOther(other: string, pat: string, sub: string)
    requires Braced(other) && Braced(pat) && other != pat
    ensures Replace(other, pat, sub) == other
  {
    if |other| >= |pat| {
      ReplaceAbsent(other[1..], pat, sub);
      assert other == [other[0]] + other[1..];
    }
  }

  /** What ends up in a placeholder's place: its value, in which the later placeholders are replaced. */
  function Held(which: string, username: string, domain: string): string {
    var u, r, p := Escape(Trim(username)), Escape(RawUsername(username)), Escape(Upn(username, domain));
    if which == USERNAME then Replace(Replace(u, RAW_USERNAME, r), UPN, p)
    else if which == RAW_USERNAME then Replace(r, UPN, p)
    else p
  }

  lemma PlaceholdersBraced()
    ensures Braced(USERNAME) && Braced(RAW_USERNAME) && Braced(UPN)
    ensures USERNAME != RAW_USERNAME && RAW_USERNAME != UPN && USERNAME != UPN
  {}

  /** A template with one placeholder and no other braces, for any user and domain: it stays as it is
      around the placeholder's place. For the principal that place holds its escaped text. */
  lemma OnePlaceholderExact(pre: string, which: string, post: string, username: string, domain: string)
    requires which in {USERNAME, RAW_USERNAME, UPN}
    requires '{' !in pre && '}' !in pre && '{' !in post && '}' !in post
    ensures BuildSearchFilter(pre + which + post, username, domain) == pre + Held(which, username, domain) + post
  {
    PlaceholdersBraced();
    HeldInTurn(pre, which, post, USERNAME, Escape(Trim(username)), RAW_USERNAME, Escape(RawUsername(username)),
               UPN, Escape(Upn(username, domain)));
  }

  lemma HeldInTurn(pre: string, which: string, post: string, a: string, u: string, b: string, r: string, c: string, p: string)
    requires Braced(a) && Braced(b) && Braced(c) && a != b && b != c && a != c && which in {a, b, c}
    requires '{' !in pre && '}' !in post
    ensures Replace(Replace(Replace(pre + which + post, a, u), b, r), c, p)
         == pre + (if which == a then Replace(Replace(u, b, r), c, p) else if which == b then Replace(r, c, p) else p) + post
  {
    ReplaceWithin(pre, which, post, a, u);
    if which == a {
      ReplaceItself(a, u);
      ReplaceWithin(pre, u, post, b, r);
      ReplaceWithin(pre, Replace(u, b, r), post, c, p);
    } else {
      ReplaceOther(which, a, u);
      ReplaceWithin(pre, which, post, b, r);
      if which == b {
        ReplaceItself(b, r);
        ReplaceWithin(pre, r, post, c, p);
      } else {
        ReplaceOther(c, b, r);
        ReplaceWithin(pre, c, post, c, p);
        ReplaceItself(c, p);
      }
    }
  }

  lemma SameAround(pre: string, a: string, b: string, post: string)
    ensures pre + a + post == pre + b + post <==> a == b
  {
    if pre + a + post == pre + b + post {
      assert |a| == |b|;
      assert a == (pre + a + post)[|pre|..|pre| + |a|] && b == (pre + b + post)[|pre|..|pre| + |b|];
    }
  }

  /** Escaping changes no character of pat, and its opening brace is no part of an escape. */
  predicate Unescaped(pat: string) {
    pat != [] && pat[0] == '{' && forall i :: 0 <= i < |pat| ==> pat[i] != '\\' && EscapeChar(pat[i]) == [pat[i]]
  }

  lemma PlaceholdersUnescaped()
    ensures Unescaped(RAW_USERNAME) && Unescaped(UPN)
  {}

  lemma {:induction false} EscapeStarts(v: string, pat: string)
    requires forall i :: 0 <= i < |pat| ==> pat[i] != '\\' && EscapeChar(pat[i]) == [pat[i]]
    ensures pat <= Escape(v) <==> pat <= v
    decreases |pat|
  {
    if pat == [] || v == [] {
    } else {
      var e, rest := EscapeChar(v[0]), Escape(v[1..]);
      EscapeStarts(v[1..], pat[1..]);
      assert Escape(v) == e + rest && pat == [pat[0]] + pat[1..] && v == [v[0]] + v[1..];
      if |e| == 1 {
        assert Escape(v)[1..] == rest;
        assert pat <= Escape(v) <==> pat[0] == v[0] && pat[1..] <= rest by { StartsWith(pat, Escape(v)); }
        StartsWith(pat, v);
      } else {
        assert Escape(v)[0] == '\\' && EscapeChar(v[0]) != [v[0]];
      }
    }
  }

  lemma StartsWith(pat: string, s: string)
    requires pat != [] && s != []
    ensures pat <= s <==> pat[0] == s[0] && pat[1..] <= s[1..]
  {
    assert pat == [pat[0]] + pat[1..] && s == [s[0]] + s[1..];
  }

  lemma OccursFirst(s: string, pat: string)
    requires pat != [] && s != []
    ensures Occurs(s, pat) <==> pat <= s || Occurs(s[1..], pat)
  {
    if pat <= s { assert s[..|pat|] == pat; }
  }

  /** The escaped text contains a placeholder exactly if the text does. */
  lemma {:induction false} OccursEscapedIff(v: string, pat: string)
    requires Unescaped(pat)
    ensures Occurs(Escape(v), pat) <==> Occurs(v, pat)
  {
    if v == [] {
    } else {
      var s, e, rest := Escape(v), EscapeChar(v[0]), Escape(v[1..]);
      OccursEscapedIff(v[1..], pat);
      EscapeStarts(v, pat);
      OccursFirst(v, pat);
      OccursFirst(s, pat);
      if |e| == 1 {
        assert s[1..] == rest;
      } else {
        assert s == e + rest;
        assert s[1..][0] == e[1] != '{' && s[1..][1..][0] == e[2] != '{' && s[1..][1..][1..] == rest;
        OccursFirst(s[1..], pat);
        OccursFirst(s[1..][1..], pat);
      }
    }
  }

  /** No placeholder is replaced in the value, or only by itself. */
  predicate Untouched(value: string, pat: string, sub: string)
    requires pat != []
  {
    !Occurs(value, pat) || sub == pat
  }

  lemma UpnEscapesToItself(text: string)
    ensures Escape(text) == UPN <==> text == UPN
  {
    PlaceholdersUnescaped();
    PlainIsItself(UPN);
    if Escape(text) == UPN { EscapeInjective(text, UPN); }
  }

  lemma {:induction false} PlainIsItself(t: string)
    requires forall i :: 0 <= i < |t| ==> EscapeChar(t[i]) == [t[i]]
    ensures Escape(t) == t
  {
    if t == [] {
    } else {
      PlainIsItself(t[1..]);
      assert t == [t[0]] + t[1..];
    }
  }

  /** The bare name's place holds the bare name, which the directory reads back as that very text, if
      and only if the name does not contain `{upn}`, or the principal is that text itself. */
  lemma RawNameHeldIff(pre: string, post: string, username: string, domain: string)
    requires '{' !in pre && '}' !in pre && '{' !in post && '}' !in post
    ensures BuildSearchFilter(pre + RAW_USERNAME + post, username, domain) == pre + Escape(RawUsername(username)) + post
       <==> Untouched(RawUsername(username), UPN, Upn(username, domain))
    ensures Unescape(Escape(RawUsername(username))) == Some(RawUsername(username))
  {
    var r, p := RawUsername(username), Upn(username, domain);
    OnePlaceholderExact(pre, RAW_USERNAME, post, username, domain);
    SameAround(pre, Held(RAW_USERNAME, username, domain), Escape(r), post);
    HeldUntouchedIff(r, p);
    EscapeReadsBack(r);
  }

  lemma HeldUntouchedIff(value: string, principal: string)
    ensures Replace(Escape(value), UPN, Escape(principal)) == Escape(value) <==> Untouched(value, UPN, principal)
  {
    PlaceholdersUnescaped();
    ReplaceSameIff(Escape(value), UPN, Escape(principal));
    OccursEscapedIff(value, UPN);
    UpnEscapesToItself(principal);
  }

  function Count(s: string, c: char): nat {
    if s == [] then 0 else (if s[0] == c then 1 else 0) + Count(s[1..], c)
  }

  lemma {:induction false} CountConcat(a: string, b: string, c: char)
    ensures Count(a + b, c) == Count(a, c) + Count(b, c)
  {
    if a == [] {
      assert a + b == b;
    } else {
      assert (a + b)[1..] == a[1..] + b;
      CountConcat(a[1..], b, c);
    }
  }

  lemma {:induction false} CountPresent(s: string, c: char)
    ensures Count(s, c) > 0 <==> c in s
  {
    if s == [] {
    } else {
      CountPresent(s[1..], c);
      assert s == [s[0]] + s[1..];
    }
  }

  lemma {:induction false} CountEscaped(v: string, c: char)
    requires c == 'w' || c == '@'
    ensures Count(Escape(v), c) == Count(v, c)
  {
    if v == [] {
    } else {
      CountEscaped(v[1..], c);
      CountConcat(EscapeChar(v[0]), Escape(v[1..]), c);
      CountOfEscape(v[0], c);
    }
  }

  lemma CountOfEscape(x: char, c: char)
    requires c == 'w' || c == '@'
    ensures Count(EscapeChar(x), c) == if x == c then 1 else 0
  {
    var e := EscapeChar(x);
    if |e| == 3 {
      assert e == [e[0]] + ([e[1]] + [e[2]]);
      CountConcat([e[0]], [e[1]] + [e[2]], c);
      CountConcat([e[1]], [e[2]], c);
    }
  }

  /** How often a replacement replaces. */
  function Hits(s: string, pat: string): nat
    requires pat != []
  {
    if |s| < |pat| then 0 else if s[..|pat|] == pat then 1 + Hits(s[|pat|..], pat) else Hits(s[1..], pat)
  }

  lemma {:induction false} HitsIff(s: string, pat: string)
    requires pat != []
    ensures Hits(s, pat) > 0 <==> Occurs(s, pat)
    decreases |s|
  {
    if |s| < |pat| || s[..|pat|] == pat {
    } else {
      HitsIff(s[1..], pat);
    }
  }

  lemma {:induction false} CountReplaced(s: string, pat: string, sub: string, c: char)
    requires pat != []
    ensures Count(Replace(s, pat, sub), c) + Hits(s, pat) * Count(pat, c) == Count(s, c) + Hits(s, pat) * Count(sub, c)
    decreases |s|
  {
    if |s| < |pat| {
    } else if s[..|pat|] == pat {
      var rest := s[|pat|..];
      CountReplaced(rest, pat, sub, c);
      CountConcat(sub, Replace(rest, pat, sub), c);
      CountConcat(pat, rest, c);
      assert s == pat + rest;
      OneMore(Hits(rest, pat), Count(pat, c));
      OneMore(Hits(rest, pat), Count(sub, c));
    } else {
      CountReplaced(s[1..], pat, sub, c);
      CountConcat([s[0]], Replace(s[1..], pat, sub), c);
      CountConcat([s[0]], s[1..], c);
      assert s == [s[0]] + s[1..];
    }
  }

  lemma OneMore(n: nat, k: nat)
    ensures (1 + n) * k == k + n * k
  {}

  predicate OnlyAt(s: string, k: nat, c: char) {
    k < |s| && s[k] == c && c !in s[..k] && c !in s[k + 1..]
  }

  lemma CountOnce(s: string, k: nat, c: char)
    requires OnlyAt(s, k, c)
    ensures Count(s, c) == 1
  {
    assert s == s[..k] + ([c] + s[k + 1..]);
    CountConcat(s[..k], [c] + s[k + 1..], c);
    CountConcat([c], s[k + 1..], c);
    CountPresent(s[..k], c);
    CountPresent(s[k + 1..], c);
  }

  /** Replacing one text and then another never gives the original back if the second adds a character
      neither of them has, or both are replaced by one text, which cannot make up for a letter that
      only the first has. */
  lemma BothReplacedDiffers(s: string, q: string, r: string, t: string, p: string, c: char, k: nat)
    requires q != [] && t != [] && Occurs(s, q) && Occurs(Replace(s, q, r), t) && c !in t
    requires (c !in q && c in p) || (OnlyAt(q, k, c) && p == r)
    ensures Replace(Replace(s, q, r), t, p) != s
  {
    var x := Replace(s, q, r);
    HitsIff(s, q);
    HitsIff(x, t);
    CountReplaced(s, q, r, c);
    CountReplaced(x, t, p, c);
    CountPresent(t, c);
    CountPresent(q, c);
    CountPresent(p, c);
    if OnlyAt(q, k, c) { CountOnce(q, k, c); }
    Unbalanced(Hits(s, q), Hits(x, t), Count(q, c), Count(r, c), Count(p, c));
  }

  lemma Unbalanced(a: nat, b: nat, inFirst: nat, inBare: nat, inPrincipal: nat)
    requires a > 0 && b > 0
    requires (inFirst == 0 && inPrincipal > 0) || (inFirst == 1 && inPrincipal == inBare)
    ensures a * inBare + b * inPrincipal != a * inFirst
  {
    if inFirst == 0 {
      assert b * inPrincipal > 0;
    } else if inBare > 0 {
      OneMore(inBare - 1, a);
      OneMore(inBare - 1, b);
      assert inBare * a >= a && inBare * b >= b;
    }
  }

  lemma PlaceholderLetters(q: string, t: string)
    requires q == RAW_USERNAME && t == UPN
    ensures OnlyAt(q, 3, 'w') && 'w' !in t && '@' !in q && '@' !in t
  {}

  /** The user name's place holds the name typed, which the directory reads back as that very text, if and
      only if neither the bare name nor the principal is put into it, or only in its own place. */
  lemma UsernameHeldIff(pre: string, post: string, username: string, domain: string)
    requires '{' !in pre && '}' !in pre && '{' !in post && '}' !in post
    ensures BuildSearchFilter(pre + USERNAME + post, username, domain) == pre + Escape(Trim(username)) + post
       <==> Untouched(Trim(username), RAW_USERNAME, RawUsername(username)) && Untouched(Trim(username), UPN, Upn(username, domain))
    ensures Unescape(Escape(Trim(username))) == Some(Trim(username))
  {
    var u, r, p := Trim(username), RawUsername(username), Upn(username, domain);
    OnePlaceholderExact(pre, USERNAME, post, username, domain);
    SameAround(pre, Held(USERNAME, username, domain), Escape(u), post);
    BareNameReplacedIff(u, r);
    HeldUntouchedIff(u, p);
    EscapeReadsBack(u);
    var x := Replace(Escape(u), RAW_USERNAME, Escape(r));
    if x != Escape(u) {
      ReplaceSameIff(Escape(u), RAW_USERNAME, Escape(r));
      if Occurs(x, UPN) {
        AtSignEscaped(p);
        var q, t := RAW_USERNAME, UPN;
        PlaceholderLetters(q, t);
        BothReplacedDiffers(Escape(u), q, Escape(r), t, Escape(p), if Trim(domain) == [] then 'w' else '@', 3);
      } else {
        ReplaceSameIff(x, UPN, Escape(p));
      }
    }
  }

  lemma BareNameReplacedIff(u: string, r: string)
    ensures Replace(Escape(u), RAW_USERNAME, Escape(r)) == Escape(u) <==> Untouched(u, RAW_USERNAME, r)
  {
    PlaceholdersUnescaped();
    OccursEscapedIff(u, RAW_USERNAME);
    ReplaceSameIff(Escape(u), RAW_USERNAME, Escape(r));
    PlainIsItself(RAW_USERNAME);
    if Escape(r) == RAW_USERNAME { EscapeInjective(r, RAW_USERNAME); }
  }

  lemma AtSignEscaped(p: string)
    ensures '@' in Escape(p) <==> '@' in p
  {
    CountEscaped(p, '@');
    CountPresent(p, '@');
    CountPresent(Escape(p), '@');
  }

  /** So a user who types `{upn}` searches for the principal, as soon as a domain is configured. */
  lemma TypedPlaceholderIsReplaced(pre: string, post: string, username: string, domain: string)
    requires '{' !in pre && '}' !in pre && '{' !in post && '}' !in post
    requires Trim(username) == UPN && Trim(domain) != []
    ensures BuildSearchFilter(pre + USERNAME + post, username, domain) != pre + Escape(Trim(username)) + post
  {
    TypedIsNoBareName(Trim(username));
    assert '@' in Upn(username, domain);
    UsernameHeldIff(pre, post, username, domain);
  }

  lemma TypedIsNoBareName(t: string)
    requires t == UPN
    ensures !Occurs(t, RAW_USERNAME) && Occurs(t, UPN) && '@' !in UPN
  {
    assert t[..|UPN|] == UPN;
  }
}
