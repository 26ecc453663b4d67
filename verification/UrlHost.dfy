/** Website hosts: finding the host of an absolute URL, and matching hosts against configured domains. */
module UrlHosts {
  import opened Common

  // ---------------------------------------------------------------- characters

  predicate IsDigit(c: char) {
    '0' <= c <= '9'
  }

  predicate IsAlpha(c: char) {
    'a' <= c <= 'z' || 'A' <= c <= 'Z'
  }

  predicate IsAlphanumeric(c: char) {
    IsDigit(c) || IsAlpha(c)
  }

  predicate IsHex(c: char) {
    IsDigit(c) || 'a' <= c <= 'f' || 'A' <= c <= 'F'
  }

  const URI_MARKS: set<char> :=
    {'-', '.', '_', '~', ':', '/', '?', '#', '[', ']', '@', '!', '$', '&', '\'', '(', ')', '*', '+', ',', ';', '='}

  predicate IsUriByte(c: char) {
    IsAlphanumeric(c) || c in URI_MARKS
  }

  function LowerChar(c: char): char {
    if 'A' <= c <= 'Z' then (c as int + 32) as char else c
  }

  function Lower(s: string): (r: string)
    ensures |r| == |s| && forall i :: 0 <= i < |s| ==> r[i] == LowerChar(s[i])
  {
    if s == "" then "" else Lower(s[..|s| - 1]) + [LowerChar(s[|s| - 1])]
  }

  predicate NoneOf(s: string, stops: set<char>) {
    forall i :: 0 <= i < |s| ==> s[i] !in stops
  }

  function Count(s: string, c: char): nat {
    if s == "" then 0 else Count(s[..|s| - 1], c) + (if s[|s| - 1] == c then 1 else 0)
  }

  // ---------------------------------------------------------------- lexical validity

  /** A URI byte, or the start of a percent escape. */
  predicate Legal(s: string, i: nat)
    requires i < |s|
  {
    if s[i] == '%' then i + 2 < |s| && IsHex(s[i + 1]) && IsHex(s[i + 2]) else IsUriByte(s[i])
  }

  predicate Lexical(s: string) {
    forall i :: 0 <= i < |s| ==> Legal(s, i)
  }

  predicate ValidUriSyntax(s: string) {
    s != "" && Count(s, '#') <= 1 && Lexical(s)
  }

  method IsValidUriSyntax(url: string) returns (ok: bool)
    ensures ok == ValidUriSyntax(url)
  {
    if url == "" || Count(url, '#') > 1 {
      return false;
    }
    var cursor := 0;
    while cursor < |url|
      invariant cursor <= |url|
      invariant forall i :: 0 <= i < cursor ==> Legal(url, i)
    {
      var c := url[cursor];
      if c == '%' {
        if cursor + 1 >= |url| || !IsHex(url[cursor + 1]) || cursor + 2 >= |url| || !IsHex(url[cursor + 2]) {
          assert !Legal(url, cursor);
          return false;
        }
        assert Legal(url, cursor) && Legal(url, cursor + 1) && Legal(url, cursor + 2);
        cursor := cursor + 3;
      } else {
        if !IsUriByte(c) {
          assert !Legal(url, cursor);
          return false;
        }
        cursor := cursor + 1;
      }
    }
    return true;
  }

  /** No escape can straddle this seam. */
  predicate Seam(a: string, b: string) {
    b == "" || !IsHex(b[0]) || (a != "" && !IsHex(a[|a| - 1]) && a[|a| - 1] != '%')
  }

  lemma LexicalSplit(a: string, b: string)
    requires Seam(a, b)
    ensures Lexical(a + b) <==> Lexical(a) && Lexical(b)
  {
    var s := a + b;
    if Lexical(a) && Lexical(b) {
      forall i | 0 <= i < |s| ensures Legal(s, i) {
        assert if i < |a| then Legal(a, i) else Legal(b, i - |a|);
      }
    }
    if Lexical(s) {
      forall i | 0 <= i < |a| ensures Legal(a, i) {
        assert Legal(s, i);
        assert i + 1 == |a| ==> a[|a| - 1] == a[i];
      }
      forall i | 0 <= i < |b| ensures Legal(b, i) {
        assert Legal(s, |a| + i);
      }
    }
  }

  lemma {:induction false} CountSplit(a: string, b: string, c: char)
    ensures Count(a + b, c) == Count(a, c) + Count(b, c)
  {
    if b == "" {
      assert a + b == a;
    } else {
      CountSplit(a, b[..|b| - 1], c);
      assert (a + b)[..|a + b| - 1] == a + b[..|b| - 1];
    }
  }

  lemma {:induction false} CountNone(s: string, c: char)
    ensures Count(s, c) == 0 <==> NoneOf(s, {c})
  {
    if s != "" {
      CountNone(s[..|s| - 1], c);
      assert NoneOf(s, {c}) ==> s[|s| - 1] != c && NoneOf(s[..|s| - 1], {c});
      assert forall i :: 0 <= i < |s| - 1 ==> s[i] == s[..|s| - 1][i];
    }
  }

  // ---------------------------------------------------------------- searching

  /** The first position of any of some characters, or the length. */
  function Find(s: string, stops: set<char>): (i: nat)
    ensures i <= |s| && NoneOf(s[..i], stops) && (i < |s| ==> s[i] in stops)
  {
    if s == "" || s[0] in stops then 0
    else
      var i := Find(s[1..], stops);
      assert s[..i + 1] == [s[0]] + s[1..][..i];
      i + 1
  }

  /** The last position of a character, or nothing. */
  function FindLast(s: string, c: char): (r: Option<nat>)
    ensures r.None? <==> NoneOf(s, {c})
    ensures r.Some? ==> r.value < |s| && s[r.value] == c && NoneOf(s[r.value + 1..], {c})
  {
    if s == "" then None
    else if s[|s| - 1] == c then Some(|s| - 1)
    else
      var r := FindLast(s[..|s| - 1], c);
      assert s == s[..|s| - 1] + [s[|s| - 1]];
      if r.None? then
        assert forall i :: 0 <= i < |s| - 1 ==> s[..|s| - 1][i] == s[i];
        None
      else
        assert s[r.value + 1..] == s[..|s| - 1][r.value + 1..] + [s[|s| - 1]];
        r
  }

  lemma {:induction false} FindAt(a: string, b: string, stops: set<char>)
    requires NoneOf(a, stops) && (b == "" || b[0] in stops)
    ensures Find(a + b, stops) == |a|
  {
    if a == "" {
      assert a + b == b;
    } else {
      assert forall i :: 0 <= i < |a| - 1 ==> a[1..][i] == a[i + 1];
      FindAt(a[1..], b, stops);
      assert (a + b)[1..] == a[1..] + b;
    }
  }

  lemma FindLastStep(s: string, d: char, c: char)
    requires d != c && FindLast(s, c).Some?
    ensures FindLast(s + [d], c) == FindLast(s, c)
  {
    assert (s + [d])[..|s|] == s;
  }

  lemma {:induction false} FindLastAt(a: string, c: char, b: string)
    requires NoneOf(b, {c})
    ensures FindLast(a + [c] + b, c) == Some(|a|)
  {
    if b == "" {
      assert a + [c] + b == a + [c];
    } else {
      var u, d := b[..|b| - 1], b[|b| - 1];
      assert forall i :: 0 <= i < |u| ==> u[i] == b[i];
      FindLastAt(a, c, u);
      FindLastStep(a + [c] + u, d, c);
      LongerByOne(a + [c], b);
    }
  }

  // ---------------------------------------------------------------- the parts of a URL

  /** Whether a text is an address in the textual forms the standard library reads. */
  datatype Addresses = Addresses(v4: string -> bool, v6: string -> bool)

  predicate ValidScheme(s: string) {
    && s != "" && IsAlpha(s[0])
    && forall i :: 1 <= i < |s| ==> IsAlphanumeric(s[i]) || s[i] in {'+', '-', '.'}
  }

  predicate AllDigits(s: string) {
    forall i :: 0 <= i < |s| ==> IsDigit(s[i])
  }

  function PortValue(s: string): nat
    requires AllDigits(s)
  {
    if s == "" then 0 else assert IsDigit(s[|s| - 1]); PortValue(s[..|s| - 1]) * 10 + (s[|s| - 1] as int - '0' as int)
  }

  /** Digits only, and a 16-bit number. Leading zeros are fine. */
  predicate ValidNumericPort(s: string) {
    s != "" && AllDigits(s) && PortValue(s) <= 0xffff
  }

  /** One more character: a dot opens a new piece, any other joins the last one. */
  function LabelsWith(before: seq<string>, c: char): (r: seq<string>)
    requires before != []
    ensures r != []
  {
    if c == '.' then before + [""] else before[..|before| - 1] + [before[|before| - 1] + [c]]
  }

  /** The pieces between dots. */
  function Labels(s: string): (r: seq<string>)
    ensures r != []
  {
    if s == "" then [""]
    else
      LabelsWith(Labels(s[..|s| - 1]), s[|s| - 1])
  }

  predicate ValidLabel(l: string) {
    && 1 <= |l| <= 63
    && (forall i :: 0 <= i < |l| ==> IsAlphanumeric(l[i]) || l[i] == '-')
    && IsAlphanumeric(l[0]) && IsAlphanumeric(l[|l| - 1])
  }

  predicate ValidDomainName(host: string) {
    |host| <= 253 && forall k :: 0 <= k < |Labels(host)| ==> ValidLabel(Labels(host)[k])
  }

  function StripDot(s: string): string {
    if s != "" && s[|s| - 1] == '.' then s[..|s| - 1] else s
  }

  predicate NumericHost(h: string) {
    forall i :: 0 <= i < |h| ==> IsDigit(h[i]) || h[i] == '.'
  }

  /** A registered name or a dotted IPv4 address, possibly with one closing dot. */
  predicate ValidName(text: string, addresses: Addresses) {
    var h := StripDot(text);
    h != "" && if NumericHost(h) then addresses.v4(h) else ValidDomainName(h)
  }

  // ---------------------------------------------------------------- the parser

  predicate ValidatedPort(rest: string) {
    rest == "" || (rest[0] == ':' && ValidNumericPort(rest[1..]))
  }

  function NameAndPort(text: string, addresses: Addresses): Option<string> {
    var colon := FindLast(text, ':');
    if colon.Some? && ':' in text[..colon.value] then None
    else
      var host := if colon.Some? then text[..colon.value] else text;
      if colon.Some? && !ValidNumericPort(text[colon.value + 1..]) then None
      else if ValidName(host, addresses) then Some(Lower(StripDot(host))) else None
  }

  function ParseHostAndPort(text: string, addresses: Addresses): Option<string> {
    if text != "" && text[0] == '[' then
      var bracketed := text[1..];
      var closing := Find(bracketed, {']'});
      if closing == |bracketed| then None
      else if addresses.v6(bracketed[..closing]) && ValidatedPort(bracketed[closing + 1..])
      then Some(Lower(bracketed[..closing])) else None
    else NameAndPort(text, addresses)
  }

  function ParseAuthority(authority: string, addresses: Addresses): Option<string> {
    if authority == "" || Count(authority, '@') > 1 then None
    else
      var at := FindLast(authority, '@');
      if at.None? then ParseHostAndPort(authority, addresses)
      else if at.value == 0 then None
      else ParseHostAndPort(authority[at.value + 1..], addresses)
  }

  const TAIL_STARTS: set<char> := {'/', '?', '#'}

  function ExtractUrlHost(url: string, addresses: Addresses): Option<string> {
    if !ValidUriSyntax(url) then None
    else
      var schemeEnd := Find(url, {':'});
      if schemeEnd == |url| || !ValidScheme(url[..schemeEnd]) then None
      else
        var rest := url[schemeEnd + 1..];
        if !("//" <= rest) then None
        else ParseAuthority(rest[2..][..Find(rest[2..], TAIL_STARTS)], addresses)
  }

  // ---------------------------------------------------------------- the printer

  datatype Host = Bracketed(address: string) | Name(text: string)

  /** The parts of an absolute URL; the tail is its path, query and fragment. */
  datatype Url = Url(scheme: string, user: Option<string>, host: Host, port: Option<string>, tail: string)

  function HostText(h: Host): string {
    match h
    case Bracketed(address) => "[" + address + "]"
    case Name(text) => text
  }

  function PortText(port: Option<string>): string {
    if port.None? then "" else ":" + port.value
  }

  function HostAndPort(h: Host, port: Option<string>): string {
    HostText(h) + PortText(port)
  }

  function Authority(u: Url): string {
    if u.user.None? then HostAndPort(u.host, u.port) else u.user.value + "@" + HostAndPort(u.host, u.port)
  }

  function Printed(u: Url): string {
    u.scheme + "://" + (Authority(u) + u.tail)
  }

  /** The host a URL names: lower case, and without one closing dot. */
  function HostOf(h: Host): string {
    match h
    case Bracketed(address) => Lower(address)
    case Name(text) => Lower(StripDot(text))
  }

  /** No character that would end an authority or start a host in it. */
  const AUTHORITY_STOPS: set<char> := {'/', '?', '#', '@'}

  predicate ValidHost(h: Host, addresses: Addresses) {
    match h
    case Bracketed(address) => addresses.v6(address) && NoneOf(address, {']'} + AUTHORITY_STOPS) && Lexical(address)
    case Name(text) => ValidName(text, addresses)
  }

  predicate ValidTail(tail: string) {
    (tail == "" || tail[0] in TAIL_STARTS) && Lexical(tail) && Count(tail, '#') <= 1
  }

  predicate ValidUrl(u: Url, addresses: Addresses) {
    && ValidScheme(u.scheme)
    && (u.user.Some? ==> u.user.value != "" && NoneOf(u.user.value, AUTHORITY_STOPS) && Lexical(u.user.value))
    && ValidHost(u.host, addresses)
    && (u.port.Some? ==> ValidNumericPort(u.port.value))
    && ValidTail(u.tail)
  }

  // ---------------------------------------------------------------- host and port

  /** What a valid name is made of. */
  predicate NameChars(s: string) {
    forall i :: 0 <= i < |s| ==> IsAlphanumeric(s[i]) || s[i] == '-' || s[i] == '.'
  }

  lemma {:induction false} LabelsChars(s: string)
    requires forall k :: 0 <= k < |Labels(s)| ==> forall i :: 0 <= i < |Labels(s)[k]| ==> IsAlphanumeric(Labels(s)[k][i]) || Labels(s)[k][i] == '-'
    ensures NameChars(s)
  {
    if s != "" {
      var t, c := s[..|s| - 1], s[|s| - 1];
      var before, now := Labels(t), Labels(s);
      if c != '.' {
        var last := now[|now| - 1];
        assert last[|last| - 1] == c;
        forall k | 0 <= k < |before| ensures forall i :: 0 <= i < |before[k]| ==> before[k][i] == now[k][i] {
        }
      } else {
        assert forall k :: 0 <= k < |before| ==> before[k] == now[k];
      }
      LabelsChars(t);
      assert forall i :: 0 <= i < |t| ==> t[i] == s[i];
    }
  }

  lemma ValidNameChars(text: string, addresses: Addresses)
    requires ValidName(text, addresses)
    ensures text != "" && NameChars(text)
  {
    var h := StripDot(text);
    if !NumericHost(h) {
      assert forall k :: 0 <= k < |Labels(h)| ==> ValidLabel(Labels(h)[k]);
      LabelsChars(h);
    }
    assert text == h || text == h + ".";
  }

  lemma NoneOfJoin(a: string, b: string, stops: set<char>)
    ensures NoneOf(a + b, stops) <==> NoneOf(a, stops) && NoneOf(b, stops)
  {
    assert forall i :: 0 <= i < |a| ==> (a + b)[i] == a[i];
    assert forall i :: 0 <= i < |b| ==> (a + b)[|a| + i] == b[i];
  }

  lemma PlainChars(s: string)
    requires NameChars(s)
    ensures NoneOf(s, AUTHORITY_STOPS) && NoneOf(s, {':', '['}) && Lexical(s)
  {
    forall i | 0 <= i < |s| ensures Legal(s, i) {
      assert s[i] != '%';
    }
  }

  lemma PortIsPlain(port: Option<string>)
    requires port.Some? ==> ValidNumericPort(port.value)
    ensures NoneOf(PortText(port), AUTHORITY_STOPS + {']'}) && Lexical(PortText(port)) && Seam("", PortText(port))
    ensures port.Some? ==> NoneOf(port.value, {':'})
  {
    if port.Some? {
      assert NameChars(port.value);
      PlainChars(port.value);
      assert Lexical(":");
      LexicalSplit(":", port.value);
    }
  }

  /** Host and port hold no authority delimiter, and are lexically sound on their own. */
  lemma HostAndPortIsPlain(h: Host, port: Option<string>, addresses: Addresses)
    requires ValidHost(h, addresses) && (port.Some? ==> ValidNumericPort(port.value))
    ensures HostAndPort(h, port) != "" && NoneOf(HostAndPort(h, port), AUTHORITY_STOPS) && Lexical(HostAndPort(h, port))
  {
    PortIsPlain(port);
    match h {
      case Bracketed(address) =>
        assert Lexical("[") && Lexical("]");
        LexicalSplit("[", address);
        LexicalSplit("[" + address, "]");
        NoneOfJoin("[", address, AUTHORITY_STOPS);
        NoneOfJoin("[" + address, "]", AUTHORITY_STOPS);
      case Name(text) =>
        ValidNameChars(text, addresses);
        PlainChars(text);
    }
    NoneOfJoin(HostText(h), PortText(port), AUTHORITY_STOPS);
    LexicalSplit(HostText(h), PortText(port));
  }

  /** An address between brackets is found again, and so is what follows it. */
  lemma BracketIsFound(address: string, rest: string, bracketed: string)
    requires NoneOf(address, {']'}) && bracketed == address + ("]" + rest)
    ensures
      && Find(bracketed, {']'}) == |address| < |bracketed|
      && bracketed[..|address|] == address && bracketed[|address| + 1..] == rest
  {
    FindAt(address, "]" + rest, {']'});
  }

  lemma InBrackets(address: string, rest: string)
    ensures
      var text := "[" + address + "]" + rest;
      text != "" && text[0] == '[' && text[1..] == address + ("]" + rest)
  {
  }

  lemma PortIsRead(port: Option<string>)
    requires port.Some? ==> ValidNumericPort(port.value)
    ensures ValidatedPort(PortText(port))
  {
    if port.Some? {
      assert (":" + port.value)[1..] == port.value;
    }
  }

  lemma BracketedRoundTrip(address: string, port: Option<string>, addresses: Addresses)
    requires ValidHost(Bracketed(address), addresses) && (port.Some? ==> ValidNumericPort(port.value))
    ensures ParseHostAndPort(HostAndPort(Bracketed(address), port), addresses) == Some(Lower(address))
  {
    var rest := PortText(port);
    assert NoneOf(address, {']'});
    InBrackets(address, rest);
    BracketIsFound(address, rest, address + ("]" + rest));
    PortIsRead(port);
  }

  /** The last separator of a text is where it was put. */
  lemma LastIsFound(a: string, c: char, b: string, whole: string)
    requires NoneOf(b, {c}) && whole == a + ([c] + b)
    ensures FindLast(whole, c) == Some(|a|) && whole[..|a|] == a && whole[|a| + 1..] == b
  {
    assert whole == a + [c] + b;
    FindLastAt(a, c, b);
  }

  lemma NameWithPort(text: string, port: string, addresses: Addresses)
    requires ValidName(text, addresses) && NoneOf(text, {':'}) && ValidNumericPort(port) && NoneOf(port, {':'})
    ensures NameAndPort(text + (":" + port), addresses) == Some(Lower(StripDot(text)))
  {
    LastIsFound(text, ':', port, text + (":" + port));
  }

  lemma NameRoundTrip(text: string, port: Option<string>, addresses: Addresses)
    requires ValidHost(Name(text), addresses) && (port.Some? ==> ValidNumericPort(port.value))
    ensures ParseHostAndPort(HostAndPort(Name(text), port), addresses) == Some(Lower(StripDot(text)))
  {
    ValidNameChars(text, addresses);
    PlainChars(text);
    assert text[0] != '[' && NoneOf(text, {':'});
    if port.Some? {
      PortIsPlain(port);
      NameWithPort(text, port.value, addresses);
    } else {
      assert text + PortText(port) == text;
    }
  }

  lemma HostAndPortRoundTrip(h: Host, port: Option<string>, addresses: Addresses)
    requires ValidHost(h, addresses) && (port.Some? ==> ValidNumericPort(port.value))
    ensures ParseHostAndPort(HostAndPort(h, port), addresses) == Some(HostOf(h))
  {
    match h
    case Bracketed(address) => BracketedRoundTrip(address, port, addresses);
    case Name(text) => NameRoundTrip(text, port, addresses);
  }

  // ---------------------------------------------------------------- from the printer to the parser

  lemma OneMoreSign(user: string, hp: string)
    ensures Count(user + "@" + hp, '@') == Count(user, '@') + 1 + Count(hp, '@')
  {
    CountSplit(user + "@", hp, '@');
    CountSplit(user, "@", '@');
    assert "@"[..0] == "" && Count("", '@') == 0;
  }

  lemma UserIsSkipped(user: string, hp: string, addresses: Addresses)
    requires user != "" && NoneOf(user, {'@'}) && NoneOf(hp, {'@'})
    ensures ParseAuthority(user + "@" + hp, addresses) == ParseHostAndPort(hp, addresses)
  {
    var whole := user + "@" + hp;
    CountNone(user, '@');
    CountNone(hp, '@');
    OneMoreSign(user, hp);
    assert whole == user + ("@" + hp);
    LastIsFound(user, '@', hp, whole);
  }

  lemma WithoutUser(hp: string, addresses: Addresses)
    requires hp != "" && NoneOf(hp, {'@'})
    ensures ParseAuthority(hp, addresses) == ParseHostAndPort(hp, addresses)
  {
    CountNone(hp, '@');
  }

  lemma AuthorityRoundTrip(u: Url, addresses: Addresses)
    requires ValidUrl(u, addresses)
    ensures ParseAuthority(Authority(u), addresses) == Some(HostOf(u.host))
  {
    var hp := HostAndPort(u.host, u.port);
    HostAndPortIsPlain(u.host, u.port, addresses);
    HostAndPortRoundTrip(u.host, u.port, addresses);
    assert NoneOf(hp, {'@'});
    if u.user.Some? {
      assert NoneOf(u.user.value, {'@'});
      UserIsSkipped(u.user.value, hp, addresses);
    } else {
      WithoutUser(hp, addresses);
    }
  }

  /** An authority has no tail delimiter, is lexically sound, and starts no escape across its end. */
  lemma AuthorityIsPlain(u: Url, addresses: Addresses)
    requires ValidUrl(u, addresses)
    ensures NoneOf(Authority(u), TAIL_STARTS) && Lexical(Authority(u))
  {
    var hp := HostAndPort(u.host, u.port);
    HostAndPortIsPlain(u.host, u.port, addresses);
    if u.user.Some? {
      var user := u.user.value;
      assert Lexical("@");
      LexicalSplit(user, "@");
      LexicalSplit(user + "@", hp);
      NoneOfJoin(user, "@", TAIL_STARTS);
      NoneOfJoin(user + "@", hp, TAIL_STARTS);
    }
  }

  lemma SchemeIsPlain(s: string)
    requires ValidScheme(s)
    ensures Lexical(s) && NoneOf(s, {':', '#'})
  {
    forall i | 0 <= i < |s| ensures Legal(s, i) && s[i] !in {':', '#'} {
      assert i == 0 || IsAlphanumeric(s[i]) || s[i] in {'+', '-', '.'};
    }
  }

  lemma PrintedIsLexical(u: Url, addresses: Addresses)
    requires ValidUrl(u, addresses)
    ensures ValidUriSyntax(Printed(u))
  {
    SchemeIsPlain(u.scheme);
    AuthorityIsPlain(u, addresses);
    assert Lexical("://");
    LexicalSplit(u.scheme, "://");
    LexicalSplit(Authority(u), u.tail);
    LexicalSplit(u.scheme + "://", Authority(u) + u.tail);
    assert NoneOf(u.scheme, {'#'}) && NoneOf("://", {'#'}) && NoneOf(Authority(u), {'#'});
    CountNone(u.scheme, '#');
    CountNone("://", '#');
    CountNone(Authority(u), '#');
    CountSplit(u.scheme, "://", '#');
    CountSplit(Authority(u), u.tail, '#');
    CountSplit(u.scheme + "://", Authority(u) + u.tail, '#');
  }

  lemma SchemeIsFound(scheme: string, after: string)
    requires ValidScheme(scheme)
    ensures
      var url := scheme + "://" + after;
      Find(url, {':'}) == |scheme| && url[..|scheme|] == scheme && url[|scheme| + 1..] == "//" + after
  {
    SchemeIsPlain(scheme);
    assert NoneOf(scheme, {':'});
    FindAt(scheme, "://" + after, {':'});
    assert scheme + ("://" + after) == scheme + "://" + after;
  }

  /** Whatever URL is printed from valid parts, its host is found: lower case, without one closing dot. */
  lemma HostOfPrintedUrl(u: Url, addresses: Addresses)
    requires ValidUrl(u, addresses)
    ensures ExtractUrlHost(Printed(u), addresses) == Some(HostOf(u.host))
  {
    var authority, after := Authority(u), Authority(u) + u.tail;
    PrintedIsLexical(u, addresses);
    SchemeIsFound(u.scheme, after);
    assert ("//" + after)[2..] == after;
    AuthorityIsPlain(u, addresses);
    FindAt(authority, u.tail, TAIL_STARTS);
    assert after[..|authority|] == authority;
    AuthorityRoundTrip(u, addresses);
  }

  // ---------------------------------------------------------------- from the parser to the printer

  function SplitHost(text: string): Host {
    if text != "" && text[0] == '[' then Bracketed(text[1..][..Find(text[1..], {']'})])
    else
      var colon := FindLast(text, ':');
      Name(if colon.Some? then text[..colon.value] else text)
  }

  function SplitPort(text: string): Option<string> {
    if text != "" && text[0] == '[' then
      var closing := Find(text[1..], {']'});
      if closing + 2 < |text| then Some(text[closing + 3..]) else None
    else
      var colon := FindLast(text, ':');
      if colon.Some? then Some(text[colon.value + 1..]) else None
  }

  lemma NoneOfPart(s: string, i: nat, j: nat, stops: set<char>)
    requires i <= j <= |s| && NoneOf(s, stops)
    ensures NoneOf(s[i..j], stops)
  {
    assert forall k :: 0 <= k < j - i ==> s[i..j][k] == s[i + k];
  }

  lemma BracketCut(text: string, closing: nat)
    requires text != "" && text[0] == '[' && closing + 1 < |text| && text[closing + 1] == ']'
    ensures text == "[" + (text[1..closing + 1] + ("]" + text[closing + 2..]))
  {
  }

  /** Any part of a sound text that stops before a character no escape holds is sound. */
  lemma AddressIsSound(text: string, closing: nat)
    requires text != "" && text[0] == '[' && closing + 1 < |text| && text[closing + 1] == ']' && Lexical(text)
    ensures Lexical(text[1..closing + 1])
  {
    var address, after := text[1..closing + 1], "]" + text[closing + 2..];
    BracketCut(text, closing);
    LexicalSplit("[", address + after);
    LexicalSplit(address, after);
  }

  lemma BracketedSplits(text: string, addresses: Addresses)
    requires text != "" && text[0] == '[' && ParseHostAndPort(text, addresses).Some?
    requires NoneOf(text, AUTHORITY_STOPS) && Lexical(text)
    ensures ValidHost(SplitHost(text), addresses) && (SplitPort(text).Some? ==> ValidNumericPort(SplitPort(text).value))
    ensures HostAndPort(SplitHost(text), SplitPort(text)) == text
    ensures ParseHostAndPort(text, addresses) == Some(HostOf(SplitHost(text)))
  {
    var closing := Find(text[1..], {']'});
    var address, rest := text[1..][..closing], text[1..][closing + 1..];
    assert address == text[1..closing + 1] && rest == text[closing + 2..];
    AddressIsSound(text, closing);
    NoneOfPart(text, 1, closing + 1, AUTHORITY_STOPS);
    assert NoneOf(address, {']'} + AUTHORITY_STOPS);
    BracketedPort(text, closing);
    BracketCut(text, closing);
    BracketedText(address, SplitPort(text));
  }

  lemma BracketedText(address: string, port: Option<string>)
    ensures HostAndPort(Bracketed(address), port) == "[" + (address + ("]" + PortText(port)))
  {
  }

  lemma BracketedPort(text: string, closing: nat)
    requires text != "" && text[0] == '[' && closing == Find(text[1..], {']'}) && closing + 1 < |text|
    requires ValidatedPort(text[closing + 2..])
    ensures PortText(SplitPort(text)) == text[closing + 2..] && (SplitPort(text).Some? ==> ValidNumericPort(SplitPort(text).value))
  {
    var rest := text[closing + 2..];
    if rest != "" {
      assert rest[1..] == text[closing + 3..];
      assert rest == ":" + rest[1..];
    }
  }

  lemma NameSplits(text: string, addresses: Addresses)
    requires (text == "" || text[0] != '[') && ParseHostAndPort(text, addresses).Some?
    ensures ValidHost(SplitHost(text), addresses) && (SplitPort(text).Some? ==> ValidNumericPort(SplitPort(text).value))
    ensures HostAndPort(SplitHost(text), SplitPort(text)) == text
    ensures ParseHostAndPort(text, addresses) == Some(HostOf(SplitHost(text)))
  {
    var colon := FindLast(text, ':');
    if colon.Some? {
      CutAt(text, colon.value);
    }
  }

  lemma CutAt(text: string, i: nat)
    requires i < |text|
    ensures text == text[..i] + ([text[i]] + text[i + 1..]) && text == text[..i] + text[i..]
  {
  }

  lemma HostAndPortSplits(text: string, addresses: Addresses)
    requires ParseHostAndPort(text, addresses).Some? && NoneOf(text, AUTHORITY_STOPS) && Lexical(text)
    ensures ValidHost(SplitHost(text), addresses) && (SplitPort(text).Some? ==> ValidNumericPort(SplitPort(text).value))
    ensures HostAndPort(SplitHost(text), SplitPort(text)) == text
    ensures ParseHostAndPort(text, addresses) == Some(HostOf(SplitHost(text)))
  {
    if text != "" && text[0] == '[' {
      BracketedSplits(text, addresses);
    } else {
      NameSplits(text, addresses);
    }
  }

  /** An authority cut at its one '@', if it has any. */
  function SplitUser(authority: string): Option<string> {
    var at := FindLast(authority, '@');
    if at.Some? then Some(authority[..at.value]) else None
  }

  function AfterUser(authority: string): string {
    var at := FindLast(authority, '@');
    if at.Some? then authority[at.value + 1..] else authority
  }

  lemma CutAtSign(s: string, at: nat)
    requires at < |s| && s[at] == '@'
    ensures s == s[..at] + "@" + s[at + 1..]
  {
  }

  lemma UserCut(authority: string)
    requires FindLast(authority, '@').Some? && Count(authority, '@') <= 1
    ensures NoneOf(SplitUser(authority).value, {'@'})
    ensures authority == SplitUser(authority).value + "@" + AfterUser(authority)
  {
    var at := FindLast(authority, '@').value;
    var user, hp := authority[..at], authority[at + 1..];
    CutAtSign(authority, at);
    OneMoreSign(user, hp);
    CountNone(user, '@');
  }

  lemma AuthoritySplits(authority: string, addresses: Addresses)
    requires ParseAuthority(authority, addresses).Some? && NoneOf(authority, TAIL_STARTS) && Lexical(authority)
    ensures
      var user, hp := SplitUser(authority), AfterUser(authority);
      && authority == (if user.Some? then user.value + "@" + hp else hp)
      && (user.Some? ==> user.value != "" && NoneOf(user.value, AUTHORITY_STOPS) && Lexical(user.value))
      && NoneOf(hp, AUTHORITY_STOPS) && Lexical(hp)
      && ParseAuthority(authority, addresses) == ParseHostAndPort(hp, addresses)
  {
    if FindLast(authority, '@').Some? {
      var user, hp := SplitUser(authority).value, AfterUser(authority);
      UserCut(authority);
      NoneOfJoin(user + "@", hp, TAIL_STARTS);
      NoneOfJoin(user, "@", TAIL_STARTS);
      LexicalSplit(user + "@", hp);
      LexicalSplit(user, "@");
    }
  }

  lemma SchemeCut(url: string, i: nat)
    requires i < |url| && url[i] == ':' && "//" <= url[i + 1..]
    ensures i + 3 <= |url| && url == url[..i] + "://" + url[i + 3..] && url[i + 1..][2..] == url[i + 3..]
  {
    var rest := url[i + 1..];
    assert rest[0] == '/' && rest[1] == '/';
    assert url[i + 1] == '/' && url[i + 2] == '/';
  }

  function UrlFrom(scheme: string, after: string): Url {
    var authority := after[..Find(after, TAIL_STARTS)];
    var hp := AfterUser(authority);
    Url(scheme, SplitUser(authority), SplitHost(hp), SplitPort(hp), after[Find(after, TAIL_STARTS)..])
  }

  /** A text cut into the parts of a URL. */
  function SplitUrl(url: string): Url
    requires Find(url, {':'}) + 3 <= |url|
  {
    UrlFrom(url[..Find(url, {':'})], url[Find(url, {':'}) + 3..])
  }

  /** The parts behind the scheme, when the whole is sound. */
  lemma AfterIsSound(scheme: string, after: string)
    requires ValidScheme(scheme) && ValidUriSyntax(scheme + "://" + after)
    ensures
      var i := Find(after, TAIL_STARTS);
      Lexical(after[..i]) && ValidTail(after[i..]) && NoneOf(after[..i], TAIL_STARTS)
  {
    var i := Find(after, TAIL_STARTS);
    var authority, tail := after[..i], after[i..];
    assert after == authority + tail;
    LexicalSplit(scheme + "://", after);
    LexicalSplit(authority, tail);
    CountSplit(scheme + "://", after, '#');
    CountSplit(authority, tail, '#');
  }

  lemma AfterSplits(scheme: string, after: string, addresses: Addresses)
    requires ValidScheme(scheme) && ValidUriSyntax(scheme + "://" + after)
    requires ParseAuthority(after[..Find(after, TAIL_STARTS)], addresses).Some?
    ensures ValidUrl(UrlFrom(scheme, after), addresses)
    ensures Authority(UrlFrom(scheme, after)) == after[..Find(after, TAIL_STARTS)]
    ensures ParseAuthority(after[..Find(after, TAIL_STARTS)], addresses) == Some(HostOf(UrlFrom(scheme, after).host))
  {
    AfterIsSound(scheme, after);
    var authority := after[..Find(after, TAIL_STARTS)];
    AuthoritySplits(authority, addresses);
    HostAndPortSplits(AfterUser(authority), addresses);
  }

  lemma PrintedFrom(u: Url, after: string, i: nat)
    requires i <= |after| && Authority(u) == after[..i] && u.tail == after[i..]
    ensures Printed(u) == u.scheme + "://" + after
  {
    assert after[..i] + after[i..] == after;
  }

  lemma FoundPieces(url: string, addresses: Addresses)
    requires ExtractUrlHost(url, addresses).Some?
    ensures Find(url, {':'}) + 3 <= |url|
    ensures
      var scheme, after := url[..Find(url, {':'})], url[Find(url, {':'}) + 3..];
      && ValidScheme(scheme) && url == scheme + "://" + after && ValidUriSyntax(url)
      && ExtractUrlHost(url, addresses) == ParseAuthority(after[..Find(after, TAIL_STARTS)], addresses)
  {
    SchemeCut(url, Find(url, {':'}));
  }

  /**
    Wherever a host is found, the text is a URL printed from valid parts, and the host found is
    the host of those parts.
   */
  lemma FoundHostComesFromAUrl(url: string, addresses: Addresses)
    ensures ExtractUrlHost(url, addresses).Some? ==>
      && Find(url, {':'}) + 3 <= |url|
      && ValidUrl(SplitUrl(url), addresses) && Printed(SplitUrl(url)) == url
      && ExtractUrlHost(url, addresses) == Some(HostOf(SplitUrl(url).host))
  {
    if ExtractUrlHost(url, addresses).Some? {
      FoundPieces(url, addresses);
      var scheme, after := url[..Find(url, {':'})], url[Find(url, {':'}) + 3..];
      AfterSplits(scheme, after, addresses);
      PrintedFrom(UrlFrom(scheme, after), after, Find(after, TAIL_STARTS));
    }
  }

  /** A text has a host exactly when it is printed from the valid parts it splits into. */
  lemma HasHostExactly(url: string, addresses: Addresses)
    ensures ExtractUrlHost(url, addresses).Some? <==> exists u :: ValidUrl(u, addresses) && Printed(u) == url
  {
    if ExtractUrlHost(url, addresses).Some? {
      FoundHostComesFromAUrl(url, addresses);
    }
    forall u | ValidUrl(u, addresses) && Printed(u) == url ensures ExtractUrlHost(url, addresses).Some? {
      HostOfPrintedUrl(u, addresses);
    }
  }

  // ---------------------------------------------------------------- configured domains

  function TrimDots(s: string): string {
    if s != "" && s[|s| - 1] == '.' then TrimDots(s[..|s| - 1]) else s
  }

  predicate EndsWith(s: string, end: string) {
    |end| <= |s| && s[|s| - |end|..] == end
  }

  /** One text ends with another, and what is before it, if anything, ends with a dot. */
  predicate EndsAtDot(h: string, d: string) {
    d != "" && EndsWith(h, d) && (|h| == |d| || h[|h| - |d| - 1] == '.')
  }

  predicate DomainMatches(host: string, configured: string) {
    EndsAtDot(Lower(TrimDots(host)), Lower(TrimDots(configured)))
  }

  predicate HostIsAllowed(host: string, includeOnly: seq<string>, exclude: seq<string>) {
    && (includeOnly == [] || exists k :: 0 <= k < |includeOnly| && DomainMatches(host, includeOnly[k]))
    && !exists k :: 0 <= k < |exclude| && DomainMatches(host, exclude[k])
  }

  /** The last elements of one sequence are the other, compared from the end. */
  predicate IsSuffix(a: seq<string>, b: seq<string>) {
    a == [] || (b != [] && a[|a| - 1] == b[|b| - 1] && IsSuffix(a[..|a| - 1], b[..|b| - 1]))
  }

  lemma {:induction false} SuffixOfJoin(x: seq<string>, y: seq<string>)
    ensures IsSuffix(y, x + y)
  {
    if y != [] {
      SuffixOfJoin(x, y[..|y| - 1]);
      assert (x + y)[..|x + y| - 1] == x + y[..|y| - 1];
    }
  }

  lemma {:induction false} SuffixMeans(a: seq<string>, b: seq<string>)
    requires IsSuffix(a, b)
    ensures |a| <= |b| && b == b[..|b| - |a|] + a
  {
    if a != [] {
      SuffixMeans(a[..|a| - 1], b[..|b| - 1]);
    }
  }

  lemma LabelsStep(s: string, c: char)
    ensures Labels(s + [c]) == LabelsWith(Labels(s), c)
  {
    assert (s + [c])[..|s|] == s;
  }

  lemma LabelsWithJoin(x: seq<string>, y: seq<string>, c: char)
    requires y != []
    ensures LabelsWith(x + y, c) == x + LabelsWith(y, c)
  {
    assert (x + y)[..|x + y| - 1] == x + y[..|y| - 1];
  }

  lemma LabelsJoinStep(s: string, x: seq<string>, u: string, c: char)
    requires Labels(s) == x + Labels(u)
    ensures Labels(s + [c]) == x + Labels(u + [c])
  {
    LabelsStep(s, c);
    LabelsStep(u, c);
    LabelsWithJoin(x, Labels(u), c);
  }

  /** The labels of two texts joined by a dot are the labels of both. */
  lemma {:induction false} LabelsJoin(a: string, b: string)
    ensures Labels(a + "." + b) == Labels(a) + Labels(b)
  {
    if b == "" {
      assert a + "." + b == a + ['.'];
      LabelsStep(a, '.');
    } else {
      var u, c := b[..|b| - 1], b[|b| - 1];
      LabelsJoin(a, u);
      LabelsJoinStep(a + "." + u, Labels(a), u, c);
      LongerByOne(a + ".", b);
    }
  }

  lemma LongerByOne(a: string, b: string)
    requires b != ""
    ensures a + b == (a + b[..|b| - 1]) + [b[|b| - 1]] && b == b[..|b| - 1] + [b[|b| - 1]]
  {
  }

  /** Text is determined by its labels. */
  function Dotted(labels: seq<string>): string
    requires labels != []
  {
    if |labels| == 1 then labels[0] else Dotted(labels[..|labels| - 1]) + "." + labels[|labels| - 1]
  }

  lemma {:induction false} DottedLabels(s: string)
    ensures Dotted(Labels(s)) == s
  {
    if s != "" {
      var t, c := s[..|s| - 1], s[|s| - 1];
      DottedLabels(t);
      var x := Labels(t);
      assert s == t + [c];
      if c == '.' {
        assert (x + [""])[..|x|] == x;
      } else {
        var y := x[..|x| - 1] + [x[|x| - 1] + [c]];
        assert y[..|y| - 1] == x[..|x| - 1];
      }
    }
  }

  lemma CutTwice(labels: seq<string>, n: nat, m: nat)
    requires n <= m <= |labels|
    ensures labels[..m][..n] == labels[..n] && labels[..m][n..] == labels[n..][..m - n]
  {
  }

  lemma DotsRegroup(a: string, b: string, c: string)
    ensures (a + "." + b) + "." + c == a + "." + (b + "." + c)
  {
    assert (a + "." + b) + "." + c == a + ("." + (b + ("." + c)));
  }

  lemma {:induction false} DottedSplit(labels: seq<string>, n: nat)
    requires 0 < n < |labels|
    ensures Dotted(labels) == Dotted(labels[..n]) + "." + Dotted(labels[n..])
  {
    var m := |labels| - 1;
    var prior, last, after := labels[..m], labels[m], labels[n..];
    CutTwice(labels, n, m);
    if n < m {
      DottedSplit(prior, n);
      assert after[|after| - 1] == last && after[..|after| - 1] == prior[n..];
      DotsRegroup(Dotted(prior[..n]), Dotted(prior[n..]), last);
    } else {
      assert after == [last];
    }
  }

  lemma JoinedHasLabels(a: string, d: string)
    ensures IsSuffix(Labels(d), Labels(a + "." + d))
  {
    LabelsJoin(a, d);
    SuffixOfJoin(Labels(a), Labels(d));
  }

  lemma EndsAfterDot(a: string, d: string)
    requires d != ""
    ensures EndsAtDot(a + "." + d, d)
  {
    assert (a + "." + d)[|a| + 1..] == d;
  }

  lemma LabelsMakeSuffix(h: string, d: string)
    requires d != "" && IsSuffix(Labels(d), Labels(h))
    ensures EndsAtDot(h, d)
  {
    var x, y := Labels(h), Labels(d);
    DottedLabels(h);
    DottedLabels(d);
    SuffixMeans(y, x);
    var k := |x| - |y|;
    assert x[k..] == y;
    if k > 0 {
      DottedSplit(x, k);
      EndsAfterDot(Dotted(x[..k]), d);
    } else {
      assert x == y;
    }
  }

  /**
    A host matches a configured domain exactly when the domain's dot-separated labels are the
    last labels of the host, both in lower case and without closing dots. No part of a label matches.
   */
  lemma MatchesWholeLabels(host: string, configured: string)
    ensures
      var h, d := Lower(TrimDots(host)), Lower(TrimDots(configured));
      DomainMatches(host, configured) <==> d != "" && IsSuffix(Labels(d), Labels(h))
  {
    var h, d := Lower(TrimDots(host)), Lower(TrimDots(configured));
    if EndsAtDot(h, d) {
      if |h| == |d| {
        SuffixOfJoin([], Labels(d));
        assert [] + Labels(d) == Labels(d) && h == d;
      } else {
        JoinedHasLabels(h[..|h| - |d| - 1], d);
        assert h == h[..|h| - |d| - 1] + "." + d;
      }
    } else if d != "" && IsSuffix(Labels(d), Labels(h)) {
      LabelsMakeSuffix(h, d);
    }
  }
}
