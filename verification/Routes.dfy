/** Route words in URLs: percent-decoding a segment, and finding authentication and payment routes. */
module Routes {
  import opened Common
  import opened UrlHosts

  // ---------------------------------------------------------------- one segment

  function HexDigit(c: char): Option<nat> {
    if '0' <= c <= '9' then Some(c as int - '0' as int)
    else if 'a' <= c <= 'f' then Some(c as int - 'a' as int + 10)
    else if 'A' <= c <= 'F' then Some(c as int - 'A' as int + 10)
    else None
  }

  /** The characters that mean the same encoded or not (RFC 3986, section 2.3). */
  predicate Unreserved(c: char) {
    IsAlphanumeric(c) || c in {'-', '.', '_', '~'}
  }

  /** The unreserved character an escape at the front of the text stands for. */
  function Escape(s: string): Option<char> {
    if |s| < 3 || s[0] != '%' || HexDigit(s[1]).None? || HexDigit(s[2]).None? then None
    else
      var value := HexDigit(s[1]).value * 16 + HexDigit(s[2]).value;
      if Unreserved(value as char) then Some(value as char) else None
  }

  /** Escapes of unreserved characters decoded, everything in lower case. */
  function Decoded(s: string): string {
    if s == "" then ""
    else if Escape(s).Some? then [LowerChar(Escape(s).value)] + Decoded(s[3..])
    else [LowerChar(s[0])] + Decoded(s[1..])
  }

  predicate IsExtension(s: string) {
    1 <= |s| <= 10 && forall i :: 0 <= i < |s| ==> IsAlphanumeric(s[i])
  }

  /** Drops one trailing extension, unless nothing stands before its dot. */
  function WithoutExtension(s: string): string {
    var dot := FindLast(s, '.');
    if dot.Some? && dot.value > 0 && IsExtension(s[dot.value + 1..]) then s[..dot.value] else s
  }

  function Normalized(raw: string): string {
    WithoutExtension(Decoded(raw))
  }

  lemma DecodedAt(raw: string, i: nat)
    requires i < |raw|
    ensures Escape(raw[i..]).Some? ==>
      i + 3 <= |raw| && Decoded(raw[i..]) == [LowerChar(Escape(raw[i..]).value)] + Decoded(raw[i + 3..])
    ensures Escape(raw[i..]).None? ==> Decoded(raw[i..]) == [LowerChar(raw[i])] + Decoded(raw[i + 1..])
  {
    if Escape(raw[i..]).Some? {
      assert raw[i..][3..] == raw[i + 3..];
    }
    assert raw[i..][1..] == raw[i + 1..];
  }

  /** The escape that starts at a position, read by looking two characters ahead. */
  method EscapeAt(raw: string, i: nat) returns (decoded: Option<char>)
    requires i < |raw|
    ensures decoded == Escape(raw[i..])
  {
    if raw[i] == '%' && i + 2 < |raw| {
      var high, low := HexDigit(raw[i + 1]), HexDigit(raw[i + 2]);
      if high.Some? && low.Some? && Unreserved((high.value * 16 + low.value) as char) {
        return Some((high.value * 16 + low.value) as char);
      }
    }
    return None;
  }

  lemma OneMoreDecoded(raw: string, done: string, i: nat, c: char, next: nat)
    requires i <= |raw| && next <= |raw|
    requires Decoded(raw) == done + Decoded(raw[i..]) && Decoded(raw[i..]) == [c] + Decoded(raw[next..])
    ensures Decoded(raw) == (done + [c]) + Decoded(raw[next..])
  {
  }

  method DecodeSegment(raw: string) returns (normalized: string)
    ensures normalized == Decoded(raw)
  {
    normalized := "";
    var i := 0;
    assert raw[0..] == raw;
    while i < |raw|
      invariant i <= |raw|
      invariant Decoded(raw) == normalized + Decoded(raw[i..])
    {
      var decoded := EscapeAt(raw, i);
      DecodedAt(raw, i);
      var c, next := raw[i], i + 1;
      if decoded.Some? {
        c, next := decoded.value, i + 3;
      }
      OneMoreDecoded(raw, normalized, i, LowerChar(c), next);
      normalized := normalized + [LowerChar(c)];
      i := next;
    }
  }

  method NormalizedSegment(raw: string) returns (segment: string)
    ensures segment == Normalized(raw)
  {
    segment := DecodeSegment(raw);
    var dot := FindLast(segment, '.');
    if dot.Some? {
      var extension := segment[dot.value + 1..];
      if dot.value > 0 && 1 <= |extension| <= 10 && forall i :: 0 <= i < |extension| ==> IsAlphanumeric(extension[i]) {
        segment := segment[..dot.value];
      }
    }
  }

  // ---------------------------------------------------------------- encoding

  function HexChar(n: nat, upper: bool): char
    requires n < 16
  {
    if n < 10 then ('0' as int + n) as char else if upper then ('A' as int + n - 10) as char else ('a' as int + n - 10) as char
  }

  /** How one character is written: as it is, or escaped with either case of each digit. */
  datatype Writing = Plain | Escaped(upperHigh: bool, upperLow: bool)

  function Written(c: char, w: Writing): string
    requires w.Escaped? ==> Unreserved(c)
  {
    if w.Plain? then [c]
    else ['%', HexChar(c as int / 16, w.upperHigh), HexChar(c as int % 16, w.upperLow)]
  }

  /** A choice of writing for each character; only unreserved ones may be escaped. */
  predicate Choice(s: string, ws: seq<Writing>) {
    |ws| == |s| && forall i :: 0 <= i < |s| ==> ws[i].Escaped? ==> Unreserved(s[i])
  }

  function Encoded(s: string, ws: seq<Writing>): string
    requires Choice(s, ws)
  {
    if s == "" then "" else Written(s[0], ws[0]) + Encoded(s[1..], ws[1..])
  }

  lemma HexRoundTrip(n: nat, upper: bool)
    requires n < 16
    ensures HexDigit(HexChar(n, upper)) == Some(n)
  {
  }

  lemma EscapedIsRead(c: char, w: Writing, rest: string)
    requires Unreserved(c) && w.Escaped?
    ensures Escape(Written(c, w) + rest) == Some(c) && (Written(c, w) + rest)[3..] == rest
  {
    HexRoundTrip(c as int / 16, w.upperHigh);
    HexRoundTrip(c as int % 16, w.upperLow);
  }

  /** No position holds an escape that decodes; a '%' that starts none is fine. */
  predicate HoldsNoEscape(s: string) {
    forall i :: 0 <= i < |s| ==> Escape(s[i..]).None?
  }

  lemma NoEscapeInRest(s: string)
    requires s != "" && HoldsNoEscape(s)
    ensures Escape(s).None? && HoldsNoEscape(s[1..])
  {
    assert s[0..] == s;
    forall i | 0 <= i < |s[1..]| ensures Escape(s[1..][i..]).None? {
      assert s[1..][i..] == s[i + 1..];
    }
  }

  /** A written text begins with its first character, or with the '%' of its escape. */
  lemma WrittenBegins(s: string, ws: seq<Writing>)
    requires s != "" && Choice(s, ws)
    ensures Encoded(s, ws) != "" && Encoded(s, ws)[0] == if ws[0].Plain? then s[0] else '%'
    ensures ws[0].Plain? ==> Encoded(s, ws)[1..] == Encoded(s[1..], ws[1..])
  {
  }

  /** A '%' that starts no escape starts none either when what follows it is written otherwise. */
  lemma NoNewEscape(s: string, ws: seq<Writing>)
    requires s != "" && s[0] == '%' && Escape(s).None? && Choice(s, ws)
    ensures Escape(Encoded(s, ws)).None?
  {
    var e := Encoded(s, ws);
    WrittenBegins(s, ws);
    if |s| > 1 {
      WrittenBegins(s[1..], ws[1..]);
      assert e[1] == e[1..][0];
      if |s| > 2 && ws[1].Plain? {
        WrittenBegins(s[1..][1..], ws[1..][1..]);
        assert e[2] == e[1..][1..][0];
      }
    }
  }

  /** Escaping unreserved characters of a text that holds no escape does not change what it decodes to. */
  lemma {:induction false} EncodingIsUndone(s: string, ws: seq<Writing>)
    requires HoldsNoEscape(s) && Choice(s, ws)
    ensures Decoded(Encoded(s, ws)) == Decoded(s)
  {
    if s != "" {
      var rest := Encoded(s[1..], ws[1..]);
      NoEscapeInRest(s);
      EncodingIsUndone(s[1..], ws[1..]);
      if ws[0].Escaped? {
        EscapedIsRead(s[0], ws[0], rest);
      } else {
        assert ([s[0]] + rest)[1..] == rest;
        if s[0] == '%' {
          NoNewEscape(s, ws);
        }
      }
    }
  }

  // ---------------------------------------------------------------- and only then

  lemma Regrouped(a: string, b: string, c: string)
    ensures a + (b + c) == (a + b) + c
  {
  }

  /** What one character of a text becomes in front of the rest, when it opens no escape. */
  lemma DecodedPlainly(c: char, rest: string)
    requires Escape([c] + rest).None?
    ensures Decoded([c] + rest) == [LowerChar(c)] + Decoded(rest)
  {
    assert ([c] + rest)[1..] == rest;
  }

  /** An escape reads the same whatever comes after it. */
  lemma EscapeAcross(u: string, v: string)
    requires Escape(u).Some?
    ensures Escape(u + v) == Escape(u) && (u + v)[3..] == u[3..] + v
  {
  }

  lemma NoEscapeAcross(u: string, v: string)
    requires u != "" && Escape(u).None? && (v == "" || v[0] == '%')
    ensures Escape(u + v).None? && (u + v)[0] == u[0] && (u + v)[1..] == u[1..] + v
  {
    var s := u + v;
    if |u| < 3 && |s| >= 3 {
      assert s[|u|] == '%';
    }
  }

  /** Decoding does not look past a '%'. */
  lemma {:induction false} DecodedSplits(u: string, v: string)
    requires v == "" || v[0] == '%'
    ensures Decoded(u + v) == Decoded(u) + Decoded(v)
    decreases |u|
  {
    var s := u + v;
    if u == "" {
      assert s == v;
    } else if Escape(u).Some? {
      DecodedSplits(u[3..], v);
      EscapeAcross(u, v);
      Regrouped([LowerChar(Escape(u).value)], Decoded(u[3..]), Decoded(v));
    } else {
      DecodedSplits(u[1..], v);
      NoEscapeAcross(u, v);
      Regrouped([LowerChar(u[0])], Decoded(u[1..]), Decoded(v));
    }
  }

  /** Everything as it is, but for the character at one place. */
  function OneEscaped(n: nat, k: nat): (ws: seq<Writing>)
    ensures |ws| == n && forall i :: 0 <= i < n ==> ws[i] == if i == k then Escaped(false, false) else Plain
  {
    seq(n, i requires 0 <= i < n => if i == k then Escaped(false, false) else Plain)
  }

  lemma {:induction false} AllPlain(s: string, ws: seq<Writing>)
    requires Choice(s, ws) && forall i :: 0 <= i < |s| ==> ws[i].Plain?
    ensures Encoded(s, ws) == s
  {
    if s != "" {
      AllPlain(s[1..], ws[1..]);
    }
  }

  /** A character left as it is, in front of a text written up to some place and left alone after it. */
  lemma PlainInFront(s: string, k: nat, e: string)
    requires 0 < k < |s|
    ensures [s[0]] + (s[1..][..k - 1] + (e + s[1..][k - 1 + 1..])) == s[..k] + (e + s[k + 1..])
    ensures s[1..][k - 1] == s[k]
  {
    assert s[..k] == [s[0]] + s[1..][..k - 1];
    assert s[1..][k..] == s[k + 1..];
    Regrouped([s[0]], s[1..][..k - 1], e + s[k + 1..]);
  }

  lemma {:induction false} OneWritten(s: string, k: nat, ws: seq<Writing>)
    requires k < |s| && Unreserved(s[k]) && ws == OneEscaped(|s|, k)
    ensures Choice(s, ws) && Encoded(s, ws) == s[..k] + (Written(s[k], Escaped(false, false)) + s[k + 1..])
  {
    var e := Written(s[k], Escaped(false, false));
    if k == 0 {
      AllPlain(s[1..], ws[1..]);
      assert s[..k] + (e + s[1..]) == e + s[1..];
    } else {
      assert ws[1..] == OneEscaped(|s| - 1, k - 1);
      PlainInFront(s, k, e);
      OneWritten(s[1..], k - 1, ws[1..]);
    }
  }

  /** An escape at the front is decoded to one character that is no sign; taken apart, to the sign itself. */
  lemma BrokenAtFront(s: string)
    requires Escape(s).Some?
    ensures
      var broken := "%" + (Written(s[1], Escaped(false, false)) + s[2..]);
      && Decoded(s) == [LowerChar(Escape(s).value)] + Decoded(s[3..]) && LowerChar(Escape(s).value) != '%'
      && Decoded(broken) == ['%'] + Decoded(broken[1..])
  {
    var written := Written(s[1], Escaped(false, false)) + s[2..];
    EscapedIsRead(s[1], Escaped(false, false), s[2..]);
    assert written[0] == '%';
    TwoSigns(written);
    DecodedPlainly('%', written);
    assert (['%'] + written)[1..] == written;
  }

  lemma TwoSigns(rest: string)
    requires rest != "" && rest[0] == '%'
    ensures Escape(['%'] + rest).None?
  {
    assert (['%'] + rest)[1] == '%';
  }

  /**
    A text that holds an escape has a writing in which it is taken apart: up to some place both
    decode to the same, and there one has a '%' and the other has not.
   */
  lemma EncodingCanBreak(s: string, i: nat) returns (ws: seq<Writing>, front: string, x: char, rest: string, other: string)
    requires i < |s| && Escape(s[i..]).Some?
    ensures Choice(s, ws) && x != '%' && x != '/'
    ensures Decoded(s) == front + ([x] + rest) && Decoded(Encoded(s, ws)) == front + (['%'] + other)
  {
    var u, v := s[..i], s[i..];
    assert v[1] == s[i + 1];
    ws := OneEscaped(|s|, i + 1);
    OneWritten(s, i + 1, ws);
    var tail := Written(v[1], Escaped(false, false)) + v[2..];
    var broken := "%" + tail;
    assert s[..i + 1] == u + "%" && s[i + 2..] == v[2..];
    Regrouped(u, "%", tail);
    assert s == u + v;
    DecodedSplits(u, broken);
    DecodedSplits(u, v);
    BrokenAtFront(v);
    DecodedIsNoSlash(v);
    front, x, rest, other := Decoded(u), LowerChar(Escape(v).value), Decoded(v[3..]), Decoded(broken[1..]);
  }

  lemma DifferThere(front: string, x: char, rest: string, y: char, other: string)
    requires x != y
    ensures front + ([x] + rest) != front + ([y] + other)
  {
    assert (front + ([x] + rest))[|front|] == x && (front + ([y] + other))[|front|] == y;
  }

  lemma DecodedIsNoSlash(s: string)
    requires Escape(s).Some?
    ensures LowerChar(Escape(s).value) != '/'
  {
  }

  /**
    Exactly when the way a text is written does not matter: every choice of escaping its
    unreserved characters decodes to the same, if and only if the text holds no escape itself.
   */
  lemma EncodingIsUndoneExactly(s: string)
    ensures HoldsNoEscape(s) <==> forall ws :: Choice(s, ws) ==> Decoded(Encoded(s, ws)) == Decoded(s)
  {
    if HoldsNoEscape(s) {
      forall ws | Choice(s, ws) ensures Decoded(Encoded(s, ws)) == Decoded(s) {
        EncodingIsUndone(s, ws);
      }
    } else {
      var i :| 0 <= i < |s| && Escape(s[i..]).Some?;
      var ws, front, x, rest, other := EncodingCanBreak(s, i);
      DifferThere(front, x, rest, '%', other);
      assert Choice(s, ws);
    }
  }

  /** So no choice of encoding hides a route word in a segment that holds no escape. */
  lemma EncodingIsNormalizedAway(s: string, ws: seq<Writing>)
    requires HoldsNoEscape(s) && Choice(s, ws)
    ensures Normalized(Encoded(s, ws)) == Normalized(s)
  {
    EncodingIsUndone(s, ws);
  }

  lemma NoExtension(s: string, k: nat)
    requires k < |s| && s[k] == '%'
    ensures !IsExtension(s)
  {
    assert !IsAlphanumeric(s[k]);
  }

  /** No extension holds a '%', so dropping one keeps every '%' in its place. */
  lemma SignStays(s: string, k: nat)
    requires k < |s| && s[k] == '%'
    ensures k < |WithoutExtension(s)| && WithoutExtension(s)[k] == '%'
  {
    var dot := FindLast(s, '.');
    if dot.Some? && dot.value < k {
      NoExtension(s[dot.value + 1..], k - dot.value - 1);
    }
  }

  lemma NoSignComes(s: string, k: nat)
    requires k < |s| && s[k] != '%'
    ensures k < |WithoutExtension(s)| ==> WithoutExtension(s)[k] != '%'
  {
  }

  /** Two texts of which only one has a '%' at some place stay different without their extensions. */
  lemma NamesDiffer(a: string, b: string, k: nat)
    requires k < |a| && k < |b| && a[k] != '%' && b[k] == '%'
    ensures WithoutExtension(a) != WithoutExtension(b)
  {
    NoSignComes(a, k);
    SignStays(b, k);
  }

  lemma CharThere(front: string, x: char, rest: string)
    ensures |front| < |front + ([x] + rest)| && (front + ([x] + rest))[|front|] == x
  {
  }

  /** The same exactly for the name of a segment, its extension dropped. */
  lemma EncodingIsNormalizedAwayExactly(s: string)
    ensures HoldsNoEscape(s) <==> forall ws :: Choice(s, ws) ==> Normalized(Encoded(s, ws)) == Normalized(s)
  {
    if HoldsNoEscape(s) {
      forall ws | Choice(s, ws) ensures Normalized(Encoded(s, ws)) == Normalized(s) {
        EncodingIsNormalizedAway(s, ws);
      }
    } else {
      var i :| 0 <= i < |s| && Escape(s[i..]).Some?;
      var ws, front, x, rest, other := EncodingCanBreak(s, i);
      CharThere(front, x, rest);
      CharThere(front, '%', other);
      NamesDiffer(Decoded(s), Decoded(Encoded(s, ws)), |front|);
      assert Choice(s, ws) && Normalized(Encoded(s, ws)) != Normalized(s);
    }
  }

  lemma PlainEscapeDecodes()
    ensures Normalized("%61") == "a"
  {
    assert Escape("%61") == Some('a') && "%61"[3..] == "";
    assert Decoded("%61") == "a";
  }

  lemma BrokenEscapeDecodes()
    ensures Normalized("%%361") == "%61"
  {
    assert Escape("%%361") == None && "%%361"[1..] == "%361";
    assert Escape("%361") == Some('6') && "%361"[3..] == "1";
    assert Escape("1") == None && "1"[1..] == "";
    assert Decoded("1") == "1";
    assert Decoded("%361") == "6" + "1";
    assert Decoded("%%361") == "%" + "61";
  }

  lemma EscapingTheSix()
    ensures
      var ws := [Plain, Escaped(false, false), Plain];
      Choice("%61", ws) && Encoded("%61", ws) == "%%361"
  {
    var ws := [Plain, Escaped(false, false), Plain];
    assert "%61"[1..] == "61" && "61"[1..] == "1" && "1"[1..] == "";
    assert ws[1..] == [Escaped(false, false), Plain] && ws[1..][1..] == [Plain];
    assert Encoded("1", [Plain]) == "1";
    assert Written('6', Escaped(false, false)) == "%36";
    assert Encoded("61", ws[1..]) == "%36" + "1";
  }

  /** An escape already in the text can be taken apart: this one no longer reads as the letter a. */
  lemma EncodingInsideAnEscape()
    ensures
      var s, ws := "%61", [Plain, Escaped(false, false), Plain];
      Choice(s, ws) && Normalized(s) == "a" && Normalized(Encoded(s, ws)) == "%61"
  {
    EscapingTheSix();
    PlainEscapeDecodes();
    BrokenEscapeDecodes();
  }

  // ---------------------------------------------------------------- scanning routes

  const AUTH_WORDS: set<string> := {
    "login", "log-in", "signin", "sign-in", "sign_in", "signup", "sign-up", "sign_up", "register", "registration",
    "oauth", "oauth2", "authorize", "reset-password", "reset_password", "password-reset", "password_reset",
    "forgot-password", "forgot_password"
  }

  const PAYMENT_WORDS: set<string> := {"checkout", "payment", "payments", "billing", "subscription", "subscriptions"}

  /** The words that name authentication and payment routes. */
  datatype Words = Words(auth: set<string>, payment: set<string>)

  const ROUTE_WORDS: Words := Words(AUTH_WORDS, PAYMENT_WORDS)

  datatype Rules = Rules(blockAuth: bool, blockPayments: bool)

  datatype Reason = AuthenticationUrl | PaymentUrl

  /** A route cut at its slashes. */
  function Segments(route: string): (r: seq<string>)
    ensures r != []
  {
    if route == "" then [""]
    else
      var before, c := Segments(route[..|route| - 1]), route[|route| - 1];
      if c == '/' then before + [""] else before[..|before| - 1] + [before[|before| - 1] + [c]]
  }

  /** Two neighbouring segments that together name an authentication route. */
  predicate PasswordPair(previous: string, segment: string) {
    previous == "password" && (segment == "reset" || segment == "forgot")
  }

  /** The names a route is made of: its segments, normalized. */
  function Names(route: string): (names: seq<string>)
    ensures |names| == |Segments(route)|
  {
    seq(|Segments(route)|, i requires 0 <= i < |Segments(route)| => Normalized(Segments(route)[i]))
  }

  /** A name that is an authentication word, or one that becomes so right after "password". */
  predicate AuthAt(words: Words, names: seq<string>, i: nat)
    requires i < |names|
  {
    names[i] in words.auth || (i > 0 && PasswordPair(names[i - 1], names[i]))
  }

  predicate PaymentAt(words: Words, names: seq<string>, i: nat)
    requires i < |names|
  {
    names[i] in words.payment
  }

  /** One of the first n names makes this an authentication route. */
  predicate AnyAuth(words: Words, names: seq<string>, n: nat)
    requires n <= |names|
  {
    n > 0 && (AuthAt(words, names, n - 1) || AnyAuth(words, names, n - 1))
  }

  predicate AnyPayment(words: Words, names: seq<string>, n: nat)
    requires n <= |names|
  {
    n > 0 && (PaymentAt(words, names, n - 1) || AnyPayment(words, names, n - 1))
  }

  lemma {:induction false} AnyAuthMeans(words: Words, names: seq<string>, n: nat)
    requires n <= |names|
    ensures AnyAuth(words, names, n) <==> exists i :: 0 <= i < n && AuthAt(words, names, i)
  {
    if n > 0 {
      AnyAuthMeans(words, names, n - 1);
    }
  }

  lemma {:induction false} AnyPaymentMeans(words: Words, names: seq<string>, n: nat)
    requires n <= |names|
    ensures AnyPayment(words, names, n) <==> exists i :: 0 <= i < n && PaymentAt(words, names, i)
  {
    if n > 0 {
      AnyPaymentMeans(words, names, n - 1);
    }
  }

  lemma {:induction false} AuthStays(words: Words, names: seq<string>, m: nat, n: nat)
    requires m <= n <= |names| && AnyAuth(words, names, m)
    ensures AnyAuth(words, names, n)
  {
    if m < n {
      AuthStays(words, names, m, n - 1);
    }
  }

  lemma AuthHere(words: Words, names: seq<string>, i: nat, previous: string)
    requires i < |names| && previous == if i == 0 then "" else names[i - 1]
    ensures AuthAt(words, names, i) <==> names[i] in words.auth || PasswordPair(previous, names[i])
    ensures AnyAuth(words, names, i + 1) <==> AuthAt(words, names, i) || AnyAuth(words, names, i)
    ensures AnyPayment(words, names, i + 1) <==> names[i] in words.payment || AnyPayment(words, names, i)
  {
  }

  predicate IsAuthRoute(words: Words, rules: Rules, route: string) {
    rules.blockAuth && AnyAuth(words, Names(route), |Names(route)|)
  }

  predicate IsPaymentRoute(words: Words, rules: Rules, route: string) {
    rules.blockPayments && AnyPayment(words, Names(route), |Names(route)|)
  }

  /** What several routes together are: authentication if any of them is, else payment if any is. */
  function Verdict(words: Words, rules: Rules, routes: seq<string>): Option<Reason> {
    if exists k :: 0 <= k < |routes| && IsAuthRoute(words, rules, routes[k]) then Some(AuthenticationUrl)
    else if exists k :: 0 <= k < |routes| && IsPaymentRoute(words, rules, routes[k]) then Some(PaymentUrl)
    else None
  }

  /** Scans one route; an authentication word ends the scan, a payment word is remembered. */
  method ScanRoute(words: Words, rules: Rules, route: string) returns (found: Option<Reason>)
    ensures found == if IsAuthRoute(words, rules, route) then Some(AuthenticationUrl)
                     else if IsPaymentRoute(words, rules, route) then Some(PaymentUrl) else None
  {
    var segments := Segments(route);
    ghost var names := Names(route);
    var previous := "";
    var payment := false;
    for i := 0 to |segments|
      invariant previous == if i == 0 then "" else names[i - 1]
      invariant rules.blockAuth ==> !AnyAuth(words, names, i)
      invariant payment == (rules.blockPayments && AnyPayment(words, names, i))
    {
      var segment := NormalizedSegment(segments[i]);
      assert segment == names[i];
      AuthHere(words, names, i, previous);
      if rules.blockAuth && (segment in words.auth || PasswordPair(previous, segment)) {
        AuthStays(words, names, i + 1, |names|);
        return Some(AuthenticationUrl);
      }
      payment := payment || (rules.blockPayments && segment in words.payment);
      previous := segment;
    }
    return if payment then Some(PaymentUrl) else None;
  }

  /** The three places a URL names its own surface. */
  function SurfaceRoutes(host: string, path: string, fragment: Option<string>): seq<string> {
    [Labels(host)[0], path, if fragment.Some? then fragment.value else ""]
  }

  /** The leading host label, the path and the fragment, scanned in turn; authentication ends the scan. */
  method PresetMatch(words: Words, rules: Rules, host: string, path: string, fragment: Option<string>) returns (found: Option<Reason>)
    ensures found == Verdict(words, rules, SurfaceRoutes(host, path, fragment))
  {
    var routes := SurfaceRoutes(host, path, fragment);
    var payment := false;
    for i := 0 to |routes|
      invariant forall k :: 0 <= k < i ==> !IsAuthRoute(words, rules, routes[k])
      invariant payment <==> exists k :: 0 <= k < i && IsPaymentRoute(words, rules, routes[k])
    {
      var scanned := ScanRoute(words, rules, routes[i]);
      if scanned == Some(AuthenticationUrl) {
        return scanned;
      }
      payment := payment || scanned.Some?;
    }
    return if payment then Some(PaymentUrl) else None;
  }

  /** The presets judge a URL by its own vocabulary of routes. */
  method JudgeSurface(rules: Rules, host: string, path: string, fragment: Option<string>) returns (found: Option<Reason>)
    ensures found == Verdict(ROUTE_WORDS, rules, SurfaceRoutes(host, path, fragment))
  {
    found := PresetMatch(ROUTE_WORDS, rules, host, path, fragment);
  }

  // ---------------------------------------------------------------- encoding does not hide a route

  /** One more character in front: a slash opens a piece, any other joins the first one. */
  function InFront(c: char, pieces: seq<string>): seq<string>
    requires pieces != []
  {
    if c == '/' then [""] + pieces else [[c] + pieces[0]] + pieces[1..]
  }

  function AtEnd(pieces: seq<string>, c: char): (r: seq<string>)
    requires pieces != []
    ensures r != []
  {
    if c == '/' then pieces + [""] else pieces[..|pieces| - 1] + [pieces[|pieces| - 1] + [c]]
  }

  lemma SegmentsAtEnd(s: string, c: char)
    ensures Segments(s + [c]) == AtEnd(Segments(s), c)
  {
    assert (s + [c])[..|s|] == s;
  }

  lemma FrontThenEnd(c: char, pieces: seq<string>, d: char)
    requires pieces != []
    ensures AtEnd(InFront(c, pieces), d) == InFront(c, AtEnd(pieces, d))
  {
    var front := InFront(c, pieces);
    if c == '/' {
      assert front[..|front| - 1] == [""] + pieces[..|pieces| - 1];
    } else if |pieces| > 1 {
      assert front[..|front| - 1] == [[c] + pieces[0]] + pieces[1..][..|pieces| - 2];
      assert pieces[1..][..|pieces| - 2] == pieces[..|pieces| - 1][1..];
    } else {
      assert front == [[c] + pieces[0]];
      assert [c] + pieces[0] + [d] == [c] + (pieces[0] + [d]);
    }
  }

  /** A single character, at the end of nothing or in front of it. */
  lemma OneCharacter(c: char, pieces: seq<string>)
    requires pieces == [""]
    ensures AtEnd(pieces, c) == InFront(c, pieces)
  {
    assert pieces[0] == "" && [c] + pieces[0] == pieces[0] + [c];
    assert pieces[..|pieces| - 1] == [] && pieces[1..] == [];
  }

  lemma {:induction false} SegmentsInFront(c: char, s: string)
    ensures Segments([c] + s) == InFront(c, Segments(s))
  {
    if s == "" {
      assert [c] + s == s + [c];
      SegmentsAtEnd(s, c);
      OneCharacter(c, Segments(s));
    } else {
      var t, d := s[..|s| - 1], s[|s| - 1];
      assert s == t + [d];
      SegmentsInFront(c, t);
      SegmentsAtEnd([c] + t, d);
      SegmentsAtEnd(t, d);
      FrontThenEnd(c, Segments(t), d);
      Regrouped([c], t, [d]);
    }
  }

  /** The first segment is how the route begins. */
  lemma {:induction false} FirstSegment(s: string)
    ensures Segments(s)[0] <= s
  {
    if s != "" {
      FirstSegment(s[1..]);
      assert s == [s[0]] + s[1..];
      SegmentsInFront(s[0], s[1..]);
    }
  }

  function EachDecoded(pieces: seq<string>): (r: seq<string>)
    ensures |r| == |pieces| && forall i :: 0 <= i < |pieces| ==> r[i] == Decoded(pieces[i])
  {
    seq(|pieces|, i requires 0 <= i < |pieces| => Decoded(pieces[i]))
  }

  lemma EachHead(first: string, pieces: seq<string>)
    requires pieces != []
    ensures EachDecoded([first] + pieces[1..]) == [Decoded(first)] + EachDecoded(pieces)[1..]
  {
  }

  lemma EachInFront(c: char, pieces: seq<string>, d: char)
    requires pieces != [] && c != '/' && d != '/' && Decoded([c] + pieces[0]) == [d] + Decoded(pieces[0])
    ensures EachDecoded(InFront(c, pieces)) == InFront(d, EachDecoded(pieces))
  {
    var each := EachDecoded(pieces);
    EachHead([c] + pieces[0], pieces);
    assert each[0] == Decoded(pieces[0]);
    assert InFront(d, each) == [[d] + each[0]] + each[1..];
  }

  lemma EachAfterSlash(pieces: seq<string>)
    requires pieces != []
    ensures EachDecoded(InFront('/', pieces)) == InFront('/', EachDecoded(pieces))
  {
    assert forall i :: 0 < i <= |pieces| ==> InFront('/', pieces)[i] == pieces[i - 1];
  }

  lemma JoinsTheFirst(c: char, s: string)
    requires c != '/'
    ensures Segments([c] + s)[0] == [c] + Segments(s)[0] && Segments([c] + s)[1..] == Segments(s)[1..]
  {
    SegmentsInFront(c, s);
  }

  lemma ThreeInFront(a: char, b: char, c: char, s: string)
    ensures [a] + ([b] + ([c] + s)) == [a, b, c] + s
  {
  }

  lemma ThreeJoinTheFirst(a: char, b: char, c: char, s: string)
    requires a != '/' && b != '/' && c != '/'
    ensures Segments([a, b, c] + s)[0] == [a, b, c] + Segments(s)[0] && Segments([a, b, c] + s)[1..] == Segments(s)[1..]
  {
    var last := [c] + s;
    var middle := [b] + last;
    var first := Segments(s)[0];
    JoinsTheFirst(c, s);
    JoinsTheFirst(b, last);
    JoinsTheFirst(a, middle);
    ThreeInFront(a, b, c, s);
    ThreeInFront(a, b, c, first);
  }

  lemma SegmentsAfterEscape(s: string)
    requires Escape(s).Some?
    ensures Segments(s) == [s[..3] + Segments(s[3..])[0]] + Segments(s[3..])[1..]
  {
    assert s[..3] == [s[0], s[1], s[2]] && s == s[..3] + s[3..];
    ThreeJoinTheFirst(s[0], s[1], s[2], s[3..]);
    assert Segments(s) == [Segments(s)[0]] + Segments(s)[1..];
  }

  lemma EscapeBeforeSegment(s: string, first: string)
    requires Escape(s).Some?
    ensures Decoded(s[..3] + first) == [LowerChar(Escape(s).value)] + Decoded(first)
  {
    var whole := s[..3] + first;
    assert whole[0] == s[0] && whole[1] == s[1] && whole[2] == s[2];
    assert whole[3..] == first;
  }

  lemma EachAfterEscape(s: string)
    requires Escape(s).Some?
    ensures EachDecoded(Segments(s)) == InFront(LowerChar(Escape(s).value), EachDecoded(Segments(s[3..])))
  {
    var rest := Segments(s[3..]);
    var each, c, first := EachDecoded(rest), LowerChar(Escape(s).value), s[..3] + rest[0];
    DecodedIsNoSlash(s);
    SegmentsAfterEscape(s);
    EachHead(first, rest);
    EscapeBeforeSegment(s, rest[0]);
    assert Decoded(first) == [c] + each[0];
    assert InFront(c, each) == [[c] + each[0]] + each[1..];
  }

  lemma NoEscapeInSegment(s: string)
    requires s != "" && Escape(s).None?
    ensures Decoded([s[0]] + Segments(s[1..])[0]) == [LowerChar(s[0])] + Decoded(Segments(s[1..])[0])
  {
    var first := Segments(s[1..])[0];
    FirstSegment(s[1..]);
    var whole := [s[0]] + first;
    assert whole[1..] == first;
    assert |first| >= 2 ==> whole[1] == s[1] && whole[2] == s[2];
  }

  lemma EachAfterPlain(s: string)
    requires s != "" && Escape(s).None?
    ensures EachDecoded(Segments(s)) == InFront(LowerChar(s[0]), EachDecoded(Segments(s[1..])))
  {
    var rest := Segments(s[1..]);
    assert s == [s[0]] + s[1..];
    SegmentsInFront(s[0], s[1..]);
    if s[0] == '/' {
      EachAfterSlash(rest);
    } else {
      NoEscapeInSegment(s);
      EachInFront(s[0], rest, LowerChar(s[0]));
    }
  }

  /** How far decoding reads at the front of a text, and the character it finds there. */
  lemma DecodedFront(s: string) returns (n: nat, c: char)
    requires s != ""
    ensures 1 <= n <= |s| && Decoded(s) == [c] + Decoded(s[n..])
    ensures EachDecoded(Segments(s)) == InFront(c, EachDecoded(Segments(s[n..])))
  {
    if Escape(s).Some? {
      n, c := 3, LowerChar(Escape(s).value);
      EachAfterEscape(s);
    } else {
      n, c := 1, LowerChar(s[0]);
      EachAfterPlain(s);
    }
  }

  /** Decoding neither makes nor breaks a slash: the segments of the decoded route are the decoded segments. */
  lemma {:induction false} DecodingKeepsSegments(s: string)
    ensures Segments(Decoded(s)) == EachDecoded(Segments(s))
    decreases |s|
  {
    if s == "" {
      assert EachDecoded([""]) == [""];
    } else {
      var n, c := DecodedFront(s);
      DecodingKeepsSegments(s[n..]);
      SegmentsInFront(c, Decoded(s[n..]));
    }
  }

  /** The names of a route depend only on what it decodes to. */
  lemma NamesOfDecoded(a: string, b: string)
    requires Decoded(a) == Decoded(b)
    ensures Names(a) == Names(b)
  {
    DecodingKeepsSegments(a);
    DecodingKeepsSegments(b);
    forall i | 0 <= i < |Names(a)| ensures Names(a)[i] == Names(b)[i] {
      assert Decoded(Segments(a)[i]) == EachDecoded(Segments(a))[i];
      assert Decoded(Segments(b)[i]) == EachDecoded(Segments(b))[i];
    }
  }

  /**
    Escaping unreserved characters anywhere in a route that holds no escape changes none of its
    names, and so nothing that the scan finds, whatever the vocabulary.
   */
  lemma EncodingHidesNoRoute(words: Words, rules: Rules, route: string, ws: seq<Writing>)
    requires HoldsNoEscape(route) && Choice(route, ws)
    ensures Names(Encoded(route, ws)) == Names(route)
    ensures IsAuthRoute(words, rules, Encoded(route, ws)) == IsAuthRoute(words, rules, route)
    ensures IsPaymentRoute(words, rules, Encoded(route, ws)) == IsPaymentRoute(words, rules, route)
  {
    EncodingIsUndone(route, ws);
    NamesOfDecoded(Encoded(route, ws), route);
  }

  /** The segment that is open at the end of a text goes on with what follows it, up to the next slash. */
  lemma {:induction false} OpenSegment(a: string, x: char, rest: string)
    requires x != '/'
    ensures
      var open := Segments(a);
      var j := |open| - 1;
      && j < |Segments(a + ([x] + rest))|
      && |open[j]| < |Segments(a + ([x] + rest))[j]| && Segments(a + ([x] + rest))[j][|open[j]|] == x
    decreases |rest|
  {
    if rest == "" {
      assert a + ([x] + rest) == a + [x];
      SegmentsAtEnd(a, x);
    } else {
      var front, d := rest[..|rest| - 1], rest[|rest| - 1];
      var shorter := a + ([x] + front);
      OpenSegment(a, x, front);
      OneLonger(a, x, rest);
      SegmentsAtEnd(shorter, d);
      KeepsChar(Segments(shorter), d, |Segments(a)| - 1, |Segments(a)[|Segments(a)| - 1]|, x);
    }
  }

  lemma OneLonger(a: string, x: char, rest: string)
    requires rest != ""
    ensures a + ([x] + rest) == a + ([x] + rest[..|rest| - 1]) + [rest[|rest| - 1]]
  {
  }

  lemma KeepsChar(pieces: seq<string>, d: char, j: nat, k: nat, x: char)
    requires j < |pieces| && k < |pieces[j]| && pieces[j][k] == x
    ensures j < |AtEnd(pieces, d)| && k < |AtEnd(pieces, d)[j]| && AtEnd(pieces, d)[j][k] == x
  {
  }

  /** A name is the decoded segment in its place, its extension dropped. */
  lemma NameAt(route: string, j: nat)
    requires j < |Segments(Decoded(route))|
    ensures j < |Names(route)| && Names(route)[j] == WithoutExtension(Segments(Decoded(route))[j])
  {
    DecodingKeepsSegments(route);
    assert EachDecoded(Segments(route))[j] == Decoded(Segments(route)[j]);
  }

  /**
    Exactly when the names of a route do not depend on how it is written: if and only if it holds
    no escape that would be decoded.
   */
  lemma EncodingHidesNoNameExactly(route: string)
    ensures HoldsNoEscape(route) <==> forall ws :: Choice(route, ws) ==> Names(Encoded(route, ws)) == Names(route)
  {
    if HoldsNoEscape(route) {
      forall ws | Choice(route, ws) ensures Names(Encoded(route, ws)) == Names(route) {
        EncodingIsUndone(route, ws);
        NamesOfDecoded(Encoded(route, ws), route);
      }
    } else {
      var i :| 0 <= i < |route| && Escape(route[i..]).Some?;
      var ws, front, x, rest, other := EncodingCanBreak(route, i);
      var j := |Segments(front)| - 1;
      OpenSegment(front, x, rest);
      OpenSegment(front, '%', other);
      NameAt(route, j);
      NameAt(Encoded(route, ws), j);
      NamesDiffer(Segments(Decoded(route))[j], Segments(Decoded(Encoded(route, ws)))[j], |Segments(front)[j]|);
      assert Choice(route, ws) && Names(Encoded(route, ws)) != Names(route);
    }
  }
}
