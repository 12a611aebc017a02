/** Origins of URLs and same-origin redirects, as in
    ports/esp-idf/sse_transport_esp.c. URLs are the contents of C strings. */
module EspOrigin {
  import opened Bytes
  import opened StreamSpec
  import opened StreamLemmas

  datatype Origin = Origin(scheme: bytes, host: bytes, port: nat)

  const SLASH: byte := 47
  const QUERY: byte := 63
  const HASH: byte := 35
  const AT: byte := 64
  const OPEN_BRACKET: byte := 91
  const CLOSE_BRACKET: byte := 93

  /** `char scheme[8], host[256]` */
  const SCHEME_CAP: nat := 8
  const HOST_CAP: nat := 256
  const URL_CAP: nat := 512
  const MAX_PORT: nat := 65535
  const MAX_HOPS: nat := 5

  function Http(): bytes {
    [104, 116, 116, 112]
  }

  function Https(): bytes {
    [104, 116, 116, 112, 115]
  }

  // ---- the parts of a URL ----

  predicate SeparatorAt(s: bytes, i: nat) {
    i + 3 <= |s| && s[i] == COLON && s[i + 1] == SLASH && s[i + 2] == SLASH
  }

  /** Where the first "://" starts, or `|s|`. */
  function FindSeparator(s: bytes): (i: nat)
    ensures i <= |s| && (i < |s| ==> SeparatorAt(s, i))
    ensures forall j :: 0 <= j < i ==> !SeparatorAt(s, j)
  {
    if s == [] || SeparatorAt(s, 0) then 0
    else
      var i := 1 + FindSeparator(s[1..]);
      assert forall j :: 1 <= j < |s| ==> (SeparatorAt(s, j) <==> SeparatorAt(s[1..], j - 1));
      i
  }

  predicate EndsAuthority(b: byte) {
    b == SLASH || b == QUERY || b == HASH
  }

  function AuthorityEnd(s: bytes): (i: nat)
    ensures i <= |s| && (i < |s| ==> EndsAuthority(s[i]))
    ensures forall j :: 0 <= j < i ==> !EndsAuthority(s[j])
  {
    if s == [] || EndsAuthority(s[0]) then 0 else 1 + AuthorityEnd(s[1..])
  }

  /** What follows the last `@`, or everything. */
  function AfterUserinfo(s: bytes): bytes {
    if s == [] then []
    else if s[|s| - 1] == AT then []
    else AfterUserinfo(s[..|s| - 1]) + [s[|s| - 1]]
  }

  /** A host and, where there is one, the text of its port. */
  function HostAndPort(hp: bytes): Option<(bytes, Option<bytes>)> {
    if hp == [] then None
    else if hp[0] == OPEN_BRACKET then
      var close := IndexOf(hp, CLOSE_BRACKET);
      if close == |hp| then None
      else if close + 1 < |hp| && hp[close + 1] == COLON then Some((hp[..close + 1], Some(hp[close + 2..])))
      else Some((hp[..close + 1], None))
    else
      var colon := IndexOf(hp, COLON);
      if colon == |hp| then Some((hp, None)) else Some((hp[..colon], Some(hp[colon + 1..])))
  }

  function PortOf(scheme: bytes, text: Option<bytes>): Option<nat> {
    match text
    case Some(t) => if RetryFits(t) && Decimal(t) <= MAX_PORT then Some(Decimal(t)) else None
    case None => if scheme == Http() then Some(80) else if scheme == Https() then Some(443) else None
  }

  function ParseOrigin(url: bytes): Option<Origin> {
    var sep := FindSeparator(url);
    if sep == |url| || sep == 0 || sep >= SCHEME_CAP then None
    else
      var scheme, rest := Lowered(url[..sep]), url[sep + 3..];
      match HostAndPort(AfterUserinfo(rest[..AuthorityEnd(rest)]))
      case None => None
      case Some(hp) =>
        if |hp.0| == 0 || |hp.0| >= HOST_CAP then None
        else match PortOf(scheme, hp.1)
          case None => None
          case Some(port) => Some(Origin(scheme, Lowered(hp.0), port))
  }

  predicate SameOrigin(a: bytes, b: bytes) {
    ParseOrigin(a).Some? && ParseOrigin(a) == ParseOrigin(b)
  }

  // ---- the code ----

  /** A lower-case copy as a C string. */
  method CopyCString(dst: array<byte>, s: bytes)
    requires |s| < dst.Length && NUL !in s
    modifies dst
    ensures CString(dst[..]) == Lowered(s)
  {
    for i := 0 to |s|
      invariant dst[..i] == Lowered(s)[..i]
    {
      var ch := s[i];
      if 65 <= ch <= 90 {
        ch := ch + 32;
      }
      dst[i] := ch;
    }
    dst[|s|] := NUL;
    assert dst[..|s|] == Lowered(s);
    CStringOf(dst[..], Lowered(s));
  }

  /** To the end of the authority, minding the last `@`: its host is s[start..end]. */
  method WalkAuthority(s: bytes) returns (start: nat, end: nat)
    ensures start <= end == AuthorityEnd(s) && AfterUserinfo(s[..end]) == s[start..end]
  {
    hide AfterUserinfo;
    NoUserinfo();
    start, end := 0, 0;
    while end < |s| && !EndsAuthority(s[end])
      invariant start <= end <= |s| && forall j :: 0 <= j < end ==> !EndsAuthority(s[j])
      invariant AfterUserinfo(s[..end]) == s[start..end]
    {
      AfterUserinfoSnoc(s[..end], s[end]);
      SliceSnoc(s, start, end);
      if s[end] == AT {
        start := end + 1;
      }
      end := end + 1;
    }
    AuthorityEndIs(s, end);
  }

  lemma SliceSnoc(s: bytes, start: nat, end: nat)
    requires start <= end < |s|
    ensures s[..end] + [s[end]] == s[..end + 1] && s[start..end] + [s[end]] == s[start..end + 1]
  {
  }

  lemma NoUserinfo()
    ensures AfterUserinfo([]) == []
  {
  }

  lemma AfterUserinfoSnoc(s: bytes, b: byte)
    ensures AfterUserinfo(s + [b]) == if b == AT then [] else AfterUserinfo(s) + [b]
  {
    assert (s + [b])[..|s|] == s;
  }

  lemma AuthorityEndIs(s: bytes, i: nat)
    requires i <= |s| && (i < |s| ==> EndsAuthority(s[i]))
    requires forall j :: 0 <= j < i ==> !EndsAuthority(s[j])
    ensures AuthorityEnd(s) == i
  {
    var k := AuthorityEnd(s);
    assert k < |s| ==> EndsAuthority(s[k]);
  }

  lemma FindSeparatorIs(s: bytes, i: nat)
    requires SeparatorAt(s, i) && forall j :: 0 <= j < i ==> !SeparatorAt(s, j)
    ensures FindSeparator(s) == i
  {
    var k := FindSeparator(s);
    assert k < |s| ==> SeparatorAt(s, k);
  }

  /** The port digits, given up as soon as the value is out of range. */
  method ParsePort(text: bytes) returns (port: Option<nat>)
    ensures port == PortOf([], Some(text))
  {
    if text == [] {
      return None;
    }
    var p := 0;
    for i := 0 to |text|
      invariant forall j :: 0 <= j < i ==> IsDigit(text[j])
      invariant p == Decimal(text[..i]) <= MAX_PORT
    {
      if !IsDigit(text[i]) {
        return None;
      }
      assert text[..i + 1][..i] == text[..i];
      p := p * 10 + DigitValue(text[i]);
      if p > MAX_PORT {
        if RetryFits(text) {
          DecimalGrows(text, i + 1);
        }
        return None;
      }
    }
    assert text[..|text|] == text;
    return Some(p);
  }

  lemma {:induction false} DecimalGrows(text: bytes, i: nat)
    requires i <= |text| && forall j :: 0 <= j < |text| ==> IsDigit(text[j])
    ensures Decimal(text[..i]) <= Decimal(text)
  {
    if i == |text| {
      assert text[..i] == text;
    } else {
      DecimalGrows(text[..|text| - 1], i);
      assert text[..|text| - 1][..i] == text[..i];
    }
  }

  /** The host and the port text between `h` and `end`. */
  method SplitHost(hp: bytes) returns (r: Option<(bytes, Option<bytes>)>)
    requires hp != []
    ensures r == HostAndPort(hp)
  {
    if hp[0] == OPEN_BRACKET {
      var close := IndexOf(hp, CLOSE_BRACKET);
      if close == |hp| {
        return None;
      }
      var hostEnd := close + 1;
      var port := if hostEnd < |hp| && hp[hostEnd] == COLON then Some(hp[hostEnd + 1..]) else None;
      return Some((hp[..hostEnd], port));
    }
    var colon := IndexOf(hp, COLON);
    if colon < |hp| {
      return Some((hp[..colon], Some(hp[colon + 1..])));
    }
    return Some((hp, None));
  }

  /** The host and the port text of the URL whose authority starts at `start`. */
  method FindHost(url: bytes, start: nat) returns (r: Option<(bytes, Option<bytes>)>)
    requires NUL !in url && start <= |url|
    ensures r == HostAndPort(AfterUserinfo(url[start..][..AuthorityEnd(url[start..])]))
    ensures r.Some? ==> NUL !in r.value.0
  {
    hide HostAndPort, AfterUserinfo, AuthorityEnd;
    var rest := url[start..];
    var h, end := WalkAuthority(rest);
    EmptyHost();
    if h >= end {
      return None;
    }
    r := SplitHost(rest[h..end]);
    HostIsPart(rest[h..end]);
  }

  lemma EmptyHost()
    ensures HostAndPort([]).None?
  {
  }

  lemma HostIsPart(hp: bytes)
    requires NUL !in hp
    ensures HostAndPort(hp).Some? ==> NUL !in HostAndPort(hp).value.0
  {
    assert HostAndPort(hp).Some? ==> HostAndPort(hp).value.0 <= hp;
  }

  method FindPort(scheme: bytes, text: Option<bytes>) returns (port: Option<nat>)
    ensures port == PortOf(scheme, text)
  {
    if text.Some? {
      port := ParsePort(text.value);
    } else if scheme == Http() {
      port := Some(80);
    } else if scheme == Https() {
      port := Some(443);
    } else {
      port := None;
    }
  }

  method OriginOf(url: bytes, scheme: array<byte>, host: array<byte>) returns (ok: bool, port: nat)
    requires NUL !in url && scheme != host && scheme.Length == SCHEME_CAP && host.Length == HOST_CAP
    modifies scheme, host
    ensures ok == ParseOrigin(url).Some?
    ensures ok ==> ParseOrigin(url).value == Origin(CString(scheme[..]), CString(host[..]), port)
  {
    hide HostAndPort, PortOf, AfterUserinfo, AuthorityEnd, CString, Lowered;
    port := 0;
    var sep := FindSeparator(url);
    if sep == |url| || sep == 0 || sep >= SCHEME_CAP {
      return false, 0;
    }
    CopyCString(scheme, url[..sep]);
    var hp := FindHost(url, sep + 3);
    if hp.None? || |hp.value.0| == 0 || |hp.value.0| >= HOST_CAP {
      return false, 0;
    }
    CopyCString(host, hp.value.0);
    var p := FindPort(CString(scheme[..]), hp.value.1);
    if p.None? {
      return false, 0;
    }
    return true, p.value;
  }

  method SameOriginUrls(a: bytes, b: bytes) returns (same: bool)
    requires NUL !in a && NUL !in b
    ensures same == SameOrigin(a, b)
  {
    var sa, sb := new byte[SCHEME_CAP], new byte[SCHEME_CAP];
    var ha, hb := new byte[HOST_CAP], new byte[HOST_CAP];
    var okA, portA := OriginOf(a, sa, ha);
    if !okA {
      return false;
    }
    var okB, portB := OriginOf(b, sb, hb);
    if !okB {
      return false;
    }
    return CString(sa[..]) == CString(sb[..]) && CString(ha[..]) == CString(hb[..]) && portA == portB;
  }

  // ---- the round trip ----

  predicate IsLetter(b: byte) {
    65 <= b <= 90 || 97 <= b <= 122
  }

  predicate PlainScheme(s: bytes) {
    0 < |s| < SCHEME_CAP && forall i :: 0 <= i < |s| ==> IsLetter(s[i])
  }

  /** A name or address, or an IPv6 literal in brackets. */
  predicate PlainHost(h: bytes) {
    && 0 < |h| < HOST_CAP
    && (forall i :: 0 <= i < |h| ==> !EndsAuthority(h[i]) && h[i] != AT)
    && if h[0] == OPEN_BRACKET then IndexOf(h, CLOSE_BRACKET) == |h| - 1 else COLON !in h
  }

  predicate PlainUserinfo(u: Option<bytes>) {
    u.Some? ==> forall i :: 0 <= i < |u.value| ==> !EndsAuthority(u.value[i])
  }

  /** A path, query or fragment, or nothing. */
  predicate PlainSuffix(s: bytes) {
    s == [] || EndsAuthority(s[0])
  }

  function PortText(port: Option<nat>): bytes {
    if port.None? then [] else [COLON] + Digits(port.value)
  }

  function Authority(userinfo: Option<bytes>, host: bytes, port: Option<nat>): bytes {
    (if userinfo.None? then [] else userinfo.value + [AT]) + (host + PortText(port))
  }

  function RenderUrl(scheme: bytes, userinfo: Option<bytes>, host: bytes, port: Option<nat>, suffix: bytes): bytes {
    scheme + [COLON, SLASH, SLASH] + (Authority(userinfo, host, port) + suffix)
  }

  lemma {:induction false} AfterUserinfoOf(u: bytes, hp: bytes)
    requires AT !in hp
    ensures AfterUserinfo(u + [AT] + hp) == hp && AfterUserinfo(hp) == hp
  {
    if hp == [] {
      assert u + [AT] + hp == u + [AT];
      AfterUserinfoSnoc(u, AT);
    } else {
      var init, b := hp[..|hp| - 1], hp[|hp| - 1];
      assert hp == init + [b] && u + [AT] + hp == (u + [AT] + init) + [b];
      AfterUserinfoOf(u, init);
      AfterUserinfoSnoc(u + [AT] + init, b);
      AfterUserinfoSnoc(init, b);
    }
  }

  lemma PortTextIsPlain(port: Option<nat>)
    ensures AT !in PortText(port) && forall i :: 0 <= i < |PortText(port)| ==> !EndsAuthority(PortText(port)[i])
  {
    if port.Some? {
      DigitsRead(port.value);
    }
  }

  lemma HostAndPortOf(host: bytes, port: Option<nat>)
    requires PlainHost(host)
    ensures HostAndPort(host + PortText(port)) ==
            Some((host, if port.None? then None else Some(Digits(port.value))))
  {
    var text := PortText(port);
    assert text != [] ==> text[0] == COLON && text[1..] == Digits(port.value);
    if host[0] == OPEN_BRACKET {
      BracketedHost(host, text);
    } else {
      NamedHost(host, text);
    }
  }

  lemma BracketedHost(host: bytes, text: bytes)
    requires 0 < |host| && host[0] == OPEN_BRACKET && IndexOf(host, CLOSE_BRACKET) == |host| - 1
    requires text != [] ==> text[0] == COLON
    ensures HostAndPort(host + text) == Some((host, if text == [] then None else Some(text[1..])))
  {
    var hp := host + text;
    IndexOfPrefix(host, text, CLOSE_BRACKET);
    hide IndexOf;
    assert hp[0] == host[0];
    assert hp[..|host|] == host;
    assert text != [] ==> hp[|host|] == COLON && hp[|host| + 1..] == text[1..];
  }

  lemma NamedHost(host: bytes, text: bytes)
    requires 0 < |host| && host[0] != OPEN_BRACKET && COLON !in host
    requires text != [] ==> text[0] == COLON
    ensures HostAndPort(host + text) == Some((host, if text == [] then None else Some(text[1..])))
  {
    var hp := host + text;
    IndexOfJoined(host, text, COLON);
    hide IndexOf;
    assert hp[0] == host[0];
    assert hp[..|host|] == host;
    if text == [] {
      assert hp == host;
    } else {
      assert hp[|host| + 1..] == text[1..];
    }
  }

  lemma AuthorityOf(userinfo: Option<bytes>, host: bytes, port: Option<nat>, suffix: bytes)
    requires PlainUserinfo(userinfo) && PlainHost(host) && PlainSuffix(suffix)
    ensures var rest := Authority(userinfo, host, port) + suffix;
            AfterUserinfo(rest[..AuthorityEnd(rest)]) == host + PortText(port)
  {
    var a := Authority(userinfo, host, port);
    PortTextIsPlain(port);
    AuthorityEndIs(a + suffix, |a|);
    assert (a + suffix)[..|a|] == a;
    assert AT !in host + PortText(port);
    if userinfo.Some? {
      assert a == userinfo.value + [AT] + (host + PortText(port));
      AfterUserinfoOf(userinfo.value, host + PortText(port));
    } else {
      assert a == host + PortText(port);
      AfterUserinfoOf([], host + PortText(port));
    }
  }

  /** Parsing a written URL gives back the origin it was written for, in lower
      case, and the scheme's own port where none was written. */
  lemma OriginRoundTrip(scheme: bytes, userinfo: Option<bytes>, host: bytes, port: Option<nat>, suffix: bytes)
    requires PlainScheme(scheme) && PlainUserinfo(userinfo) && PlainHost(host) && PlainSuffix(suffix)
    ensures ParseOrigin(RenderUrl(scheme, userinfo, host, port, suffix)) ==
            if port.Some? then
              if port.value <= MAX_PORT then Some(Origin(Lowered(scheme), Lowered(host), port.value)) else None
            else if Lowered(scheme) == Http() then Some(Origin(Http(), Lowered(host), 80))
            else if Lowered(scheme) == Https() then Some(Origin(Https(), Lowered(host), 443))
            else None
  {
    hide AuthorityEnd, AfterUserinfo, HostAndPort, Authority, Decimal, Digits, RetryFits, Http, Https, RenderUrl;
    hide PlainHost, PlainSuffix, PlainUserinfo, PortText;
    SchemeFound(scheme, userinfo, host, port, suffix);
    AuthorityOf(userinfo, host, port, suffix);
    HostAndPortOf(host, port);
    HostFits(host);
    if port.Some? {
      DigitsRead(port.value);
    }
  }

  lemma HostFits(host: bytes)
    requires PlainHost(host)
    ensures 0 < |host| < HOST_CAP
  {
  }

  lemma SchemeFound(scheme: bytes, userinfo: Option<bytes>, host: bytes, port: Option<nat>, suffix: bytes)
    requires PlainScheme(scheme)
    ensures var url := RenderUrl(scheme, userinfo, host, port, suffix);
            && FindSeparator(url) == |scheme| && url[..|scheme|] == scheme && |url| >= |scheme| + 3
            && url[|scheme| + 3..] == Authority(userinfo, host, port) + suffix
  {
    hide Authority;
    var url := RenderUrl(scheme, userinfo, host, port, suffix);
    assert forall j :: 0 <= j < |scheme| ==> url[j] == scheme[j];
    FindSeparatorIs(url, |scheme|);
  }

  /** An explicit default port is the same origin as none, and letter case, user
      information and path do not matter. */
  lemma DefaultPortsAgree(secure: bool, u: Option<bytes>, v: Option<bytes>, a: bytes, b: bytes,
                          s: bytes, t: bytes, x: bytes, y: bytes)
    requires PlainScheme(s) && PlainScheme(t) && PlainHost(a) && PlainHost(b) && PlainSuffix(x) && PlainSuffix(y)
    requires PlainUserinfo(u) && PlainUserinfo(v)
    requires Lowered(s) == Lowered(t) == (if secure then Https() else Http()) && Lowered(a) == Lowered(b)
    ensures SameOrigin(RenderUrl(s, u, a, None, x), RenderUrl(t, v, b, Some(if secure then 443 else 80), y))
  {
    hide RenderUrl, ParseOrigin, PlainScheme, PlainHost, PlainSuffix, PlainUserinfo, Lowered;
    assert Http() != Https();
    OriginRoundTrip(s, u, a, None, x);
    OriginRoundTrip(t, v, b, Some(if secure then 443 else 80), y);
  }

  // ---- the same in byte values ----

  /** Not a slash, a question mark or a hash. */
  predicate InAuthority(s: bytes) {
    47 !in s && 63 !in s && 35 !in s
  }

  /** `scheme://user@host:port/…` byte by byte, with or without a user and a port: the
      scheme and the host in lower case, and the port, 80 for http and 443 for https. */
  lemma OriginSpelled(scheme: bytes, user: Option<bytes>, host: bytes, port: Option<nat>, suffix: bytes)
    requires 0 < |scheme| <= 7 && forall i :: 0 <= i < |scheme| ==> 65 <= scheme[i] <= 90 || 97 <= scheme[i] <= 122
    requires user.Some? ==> InAuthority(user.value)
    requires 0 < |host| <= 255 && InAuthority(host) && 64 !in host && 58 !in host && 91 !in host
    requires suffix == [] || suffix[0] == 47 || suffix[0] == 63 || suffix[0] == 35
    ensures var url := scheme + [58, 47, 47] +
                       ((if user.Some? then user.value + [64] else []) +
                        (host + if port.Some? then [58] + Digits(port.value) else []) + suffix);
            ParseOrigin(url) ==
            if port.Some? then
              if port.value <= 65535 then Some(Origin(Lowered(scheme), Lowered(host), port.value)) else None
            else if Lowered(scheme) == [104, 116, 116, 112] then Some(Origin(Lowered(scheme), Lowered(host), 80))
            else if Lowered(scheme) == [104, 116, 116, 112, 115] then Some(Origin(Lowered(scheme), Lowered(host), 443))
            else None
  {
    assert forall i :: 0 <= i < |host| ==> host[i] in host;
    assert user.Some? ==> forall i :: 0 <= i < |user.value| ==> user.value[i] in user.value;
    OriginRoundTrip(scheme, user, host, port, suffix);
    hide ParseOrigin, Digits;
  }

  // ---- redirects ----

  predicate IsRedirect(status: int) {
    status == 301 || status == 302 || status == 303 || status == 307 || status == 308
  }

  predicate IsRelativePath(location: bytes) {
    |location| > 0 && location[0] == SLASH && !(|location| > 1 && location[1] == SLASH)
  }

  predicate IsAbsoluteHttp(location: bytes) {
    Http() + [COLON, SLASH, SLASH] <= Lowered(location) || Https() + [COLON, SLASH, SLASH] <= Lowered(location)
  }

  predicate AllSame(urls: seq<bytes>, origin: Option<Origin>) {
    forall i :: 0 <= i < |urls| ==> ParseOrigin(urls[i]) == origin
  }

  lemma AllSameSnoc(urls: seq<bytes>, u: bytes, origin: Option<Origin>)
    ensures AllSame(urls + [u], origin) <==> AllSame(urls, origin) && ParseOrigin(u) == origin
  {
    assert (urls + [u])[|urls|] == u;
    assert forall i :: 0 <= i < |urls| ==> (urls + [u])[i] == urls[i];
  }

  /** What one request came to: a status, or a negative number, and the Location. */
  datatype Answer = Answer(status: int, raw: bytes)

  /** The Location as the buffer keeps it. */
  function Shown(a: Answer): bytes {
    Printed(a.raw, URL_CAP)
  }

  /** May this Location be followed from `url`? A path may, and a URL of the same origin. */
  predicate Followable(url: bytes, location: bytes) {
    IsRelativePath(location) || (location != [] && IsAbsoluteHttp(location) && SameOrigin(url, location))
  }

  /** The URL for origin comparison after these redirects. */
  function Followed(first: bytes, answers: seq<Answer>): bytes {
    if answers == [] then first
    else
      var n := |answers| - 1;
      if IsRelativePath(Shown(answers[n])) then Followed(first, answers[..n]) else Shown(answers[n])
  }

  /** Each of the answers was a redirect that may be followed from where it came. */
  predicate Chain(first: bytes, answers: seq<Answer>) {
    answers == [] ||
    var n := |answers| - 1;
    && Chain(first, answers[..n]) && IsRedirect(answers[n].status)
    && Followable(Followed(first, answers[..n]), Shown(answers[n]))
  }

  /** No chain of redirects leaves the origin of the first URL, as the buffers show it. */
  lemma {:induction false} ChainKeepsOrigin(first: bytes, answers: seq<Answer>)
    requires Chain(first, answers)
    ensures ParseOrigin(Followed(first, answers)) == ParseOrigin(first)
  {
    hide ParseOrigin, IsRelativePath, IsAbsoluteHttp, Shown;
    if answers != [] {
      ChainKeepsOrigin(first, answers[..|answers| - 1]);
    }
  }

  /** The URL that a Location stands for, at the URL it came from: two slashes take a
      new authority, one a new path, where there is one to replace, and anything else
      is a URL of its own. */
  function Resolve(from: bytes, location: bytes): bytes {
    var sep := FindSeparator(from);
    if location == [] || location[0] != 47 then location
    else if sep == |from| then from
    else if |location| > 1 && location[1] == 47 then from[..sep + 1] + location
    else from[..OriginEnd(from)] + location
  }

  /** Where the part of a URL ends that decides about its origin. */
  function OriginEnd(url: bytes): (end: nat)
    ensures end <= |url|
  {
    var sep := FindSeparator(url);
    if sep == |url| then |url| else sep + 3 + AuthorityEnd(url[sep + 3..])
  }

  /** The scheme and the authority of a URL decide about its origin. */
  lemma SameParts(a: bytes, b: bytes, sep: nat)
    requires sep < |a| && sep < |b| && FindSeparator(a) == FindSeparator(b) == sep && a[..sep] == b[..sep]
    requires var s, t := a[sep + 3..], b[sep + 3..];
             s[..AuthorityEnd(s)] == t[..AuthorityEnd(t)]
    ensures ParseOrigin(a) == ParseOrigin(b)
  {
    hide FindSeparator, AuthorityEnd, AfterUserinfo, HostAndPort, PortOf;
  }

  lemma SameSeparators(a: bytes, b: bytes, sep: nat)
    requires sep < |a| && FindSeparator(a) == sep && sep + 3 <= |b| && a[..sep + 3] == b[..sep + 3]
    ensures FindSeparator(b) == sep && a[..sep] == b[..sep]
  {
    forall j | 0 <= j <= sep ensures SeparatorAt(b, j) == SeparatorAt(a, j) {
      assert a[..sep + 3][j] == b[..sep + 3][j] && a[..sep + 3][j + 1] == b[..sep + 3][j + 1];
      assert a[..sep + 3][j + 2] == b[..sep + 3][j + 2];
    }
    FindSeparatorIs(b, sep);
    assert a[..sep + 3][..sep] == b[..sep + 3][..sep];
  }

  lemma AuthorityBeforePath(rest: bytes, path: bytes)
    requires IsRelativePath(path)
    ensures var end := AuthorityEnd(rest);
            AuthorityEnd(rest[..end] + path) == end
  {
    var end := AuthorityEnd(rest);
    var url := rest[..end] + path;
    assert forall j :: 0 <= j < end ==> url[j] == rest[j];
    assert url[end] == path[0];
    AuthorityEndIs(url, end);
  }

  lemma Cut(s: bytes, tail: bytes, a: nat, b: nat)
    requires a <= b <= |s|
    ensures (s[..b] + tail)[..a] == s[..a]
    ensures (s[..b] + tail)[a..] == s[a..][..b - a] + tail
    ensures (s[..b] + tail)[a..][..b - a] == s[a..][..b - a]
  {
  }

  lemma ResolvePath(from: bytes, path: bytes)
    requires IsRelativePath(path)
    ensures Resolve(from, path) == if FindSeparator(from) == |from| then from else from[..OriginEnd(from)] + path
  {
    hide FindSeparator, AuthorityEnd, OriginEnd;
  }

  /** A path leads to the origin that it came from. */
  lemma PathKeepsOrigin(from: bytes, location: bytes)
    requires IsRelativePath(location)
    ensures ParseOrigin(Resolve(from, location)) == ParseOrigin(from)
  {
    hide ParseOrigin, Resolve, IsRelativePath, AuthorityEnd, FindSeparator;
    ResolvePath(from, location);
    var sep := FindSeparator(from);
    if sep < |from| {
      var rest := from[sep + 3..];
      var end := AuthorityEnd(rest);
      var url := from[..sep + 3 + end] + location;
      assert OriginEnd(from) == sep + 3 + end;
      AuthorityBeforePath(rest, location);
      Cut(from, location, sep + 3, sep + 3 + end);
      SameSeparators(from, url, sep);
      SameParts(url, from, sep);
    }
  }

  /** A URL with a scheme is taken as it is. */
  lemma AbsoluteIsTaken(from: bytes, location: bytes)
    requires IsAbsoluteHttp(location)
    ensures location[0] != 47 && Resolve(from, location) == location
  {
    assert Lowered(location)[0] == 104;
  }

  /** The buffer shows how a Location starts. */
  lemma ShownStarts(a: Answer)
    ensures IsRelativePath(Shown(a)) <==> IsRelativePath(a.raw)
    ensures IsAbsoluteHttp(Shown(a)) ==> IsAbsoluteHttp(a.raw)
  {
    var shown := Shown(a);
    assert forall k :: 0 <= k < |shown| ==> shown[k] == a.raw[k];
    assert Lowered(shown) == Lowered(a.raw)[..|shown|];
    var http, https := Http() + [COLON, SLASH, SLASH], Https() + [COLON, SLASH, SLASH];
    if http <= Lowered(shown) {
      assert Lowered(a.raw)[..7] == Lowered(shown)[..7] == http;
    }
    if https <= Lowered(shown) {
      assert Lowered(a.raw)[..8] == Lowered(shown)[..8] == https;
    }
  }

  /** Where a followed Location leads. */
  lemma FollowedLeads(from: bytes, url: bytes, a: Answer)
    requires Followable(url, Shown(a))
    ensures if IsRelativePath(Shown(a)) then ParseOrigin(Resolve(from, a.raw)) == ParseOrigin(from)
            else Resolve(from, a.raw) == a.raw
  {
    ShownStarts(a);
    hide IsRelativePath, IsAbsoluteHttp, ParseOrigin, Resolve, Shown;
    if IsRelativePath(Shown(a)) {
      PathKeepsOrigin(from, a.raw);
    } else {
      AbsoluteIsTaken(from, a.raw);
    }
  }

  /** The URLs requested, one after the other: the first and those after each answer. */
  predicate Requests(first: bytes, answers: seq<Answer>, urls: seq<bytes>) {
    && |urls| == |answers| + 1
    && if answers == [] then urls[0] == first
       else
         var n := |answers| - 1;
         Requests(first, answers[..n], urls[..n + 1]) && urls[n + 1] == Resolve(urls[n], answers[n].raw)
  }

  lemma ChainSnoc(first: bytes, answers: seq<Answer>, a: Answer)
    ensures (answers + [a])[..|answers|] == answers && (answers + [a])[|answers|] == a
    ensures Followed(first, answers + [a]) == if IsRelativePath(Shown(a)) then Followed(first, answers) else Shown(a)
    ensures Chain(first, answers + [a]) <==>
            Chain(first, answers) && IsRedirect(a.status) && Followable(Followed(first, answers), Shown(a))
  {
    hide IsRelativePath, IsAbsoluteHttp, SameOrigin, Shown;
    assert (answers + [a])[..|answers|] == answers;
  }

  lemma RequestsSnoc(first: bytes, answers: seq<Answer>, urls: seq<bytes>, a: Answer, u: bytes)
    requires Requests(first, answers, urls) && u == Resolve(urls[|urls| - 1], a.raw)
    ensures Requests(first, answers + [a], urls + [u])
  {
    hide Resolve;
    assert (answers + [a])[..|answers|] == answers && (urls + [u])[..|urls|] == urls;
  }

  lemma NothingFollowed(first: bytes, url: bytes)
    ensures Followed(first, []) == first && Chain(first, []) && Requests(url, [], [url])
  {
  }

  lemma NoRedirect(status: int, url: bytes)
    ensures status < 0 ==> !IsRedirect(status)
    ensures !Followable(url, [])
  {
  }

  // ---- when the buffers show the origin ----

  /** The buffer holds all of that part. */
  predicate OriginShown(url: bytes) {
    |url| < URL_CAP || OriginEnd(url) < URL_CAP
  }

  /** The buffer shows the origin of the whole URL. */
  predicate ShownTruly(url: bytes) {
    ParseOrigin(Printed(url, URL_CAP)) == ParseOrigin(url)
  }

  /** That is enough. */
  lemma ShownOriginIsTrue(url: bytes)
    requires OriginShown(url)
    ensures ShownTruly(url)
  {
    if |url| >= URL_CAP {
      var sep, p := FindSeparator(url), Printed(url, URL_CAP);
      var rest, shown := url[sep + 3..], p[sep + 3..];
      var end := AuthorityEnd(rest);
      hide ParseOrigin;
      assert p[..sep + 3] == url[..sep + 3];
      SameSeparators(url, p, sep);
      assert forall j :: 0 <= j < |shown| ==> shown[j] == rest[j];
      AuthorityEndIs(shown, end);
      assert shown[..end] == rest[..end];
      SameParts(p, url, sep);
    }
  }

  /** What the buffer shows of a followed Location is true of the whole. */
  predicate Honest(a: Answer) {
    IsRelativePath(Shown(a)) || ShownTruly(a.raw)
  }

  predicate AllHonest(answers: seq<Answer>) {
    forall i :: 0 <= i < |answers| ==> Honest(answers[i])
  }

  /** No followed Location is of another origin than this. */
  predicate AllOn(origin: Option<Origin>, answers: seq<Answer>) {
    forall i :: 0 <= i < |answers| ==> IsRelativePath(Shown(answers[i])) || ParseOrigin(answers[i].raw) == origin
  }

  /** Every request goes to the origin of the first exactly when every Location that
      was followed is of that origin. If the buffer shows the first URL truly, it
      does so exactly when each of them is shown truly, and if it does not, only if
      none of them is. */
  lemma RequestsStayExactly(first: bytes, answers: seq<Answer>, urls: seq<bytes>)
    requires Chain(Printed(first, URL_CAP), answers) && Requests(first, answers, urls)
    ensures AllSame(urls, ParseOrigin(first)) <==> AllOn(ParseOrigin(first), answers)
    ensures ShownTruly(first) ==> (AllOn(ParseOrigin(first), answers) <==> AllHonest(answers))
    ensures !ShownTruly(first) && AllOn(ParseOrigin(first), answers) ==>
              forall i :: 0 <= i < |answers| && !IsRelativePath(Shown(answers[i])) ==> !Honest(answers[i])
  {
    hide ParseOrigin, IsRelativePath, IsAbsoluteHttp, IsRedirect, Printed, AllSame, Chain;
    RequestsOn(Printed(first, URL_CAP), first, answers, urls);
    forall i | 0 <= i < |answers|
      ensures IsRelativePath(Shown(answers[i])) ||
              ParseOrigin(Shown(answers[i])) == ParseOrigin(Printed(first, URL_CAP))
    {
      ShownOrigin(Printed(first, URL_CAP), answers, i);
    }
  }

  /** What the buffer shows of a followed Location is of the origin shown first. */
  lemma {:induction false} ShownOrigin(first: bytes, answers: seq<Answer>, i: nat)
    requires Chain(first, answers) && i < |answers|
    ensures IsRelativePath(Shown(answers[i])) || ParseOrigin(Shown(answers[i])) == ParseOrigin(first)
  {
    hide ParseOrigin, IsRelativePath, IsAbsoluteHttp, Shown;
    if i < |answers| - 1 {
      ShownOrigin(first, answers[..|answers| - 1], i);
    } else {
      ChainKeepsOrigin(first, answers);
    }
  }

  lemma {:induction false} RequestsOn(shown: bytes, first: bytes, answers: seq<Answer>, urls: seq<bytes>)
    requires Chain(shown, answers) && Requests(first, answers, urls)
    ensures AllSame(urls, ParseOrigin(first)) <==> AllOn(ParseOrigin(first), answers)
  {
    hide ParseOrigin, IsRelativePath, Shown, Resolve, Followable;
    if answers == [] {
      assert urls == [first];
    } else {
      var n := |answers| - 1;
      RequestsOn(shown, first, answers[..n], urls[..n + 1]);
      FollowedLeads(urls[n], Followed(shown, answers[..n]), answers[n]);
      assert urls == urls[..n + 1] + [urls[n + 1]] && answers == answers[..n] + [answers[n]];
      AllSameSnoc(urls[..n + 1], urls[n + 1], ParseOrigin(first));
      AllOnSnoc(ParseOrigin(first), answers[..n], answers[n]);
      assert urls[n] == urls[..n + 1][n];
    }
  }

  lemma AllOnSnoc(origin: Option<Origin>, answers: seq<Answer>, a: Answer)
    ensures AllOn(origin, answers + [a]) <==>
            AllOn(origin, answers) && (IsRelativePath(Shown(a)) || ParseOrigin(a.raw) == origin)
  {
    hide ParseOrigin, IsRelativePath, Shown;
    assert (answers + [a])[|answers|] == a;
    assert forall i :: 0 <= i < |answers| ==> (answers + [a])[i] == answers[i];
  }

  /** The condition that a look at the Location decides: it is short enough, or its
      authority ends within the buffer. */
  lemma ShownIsHonest(answers: seq<Answer>)
    requires forall a :: a in answers ==> IsRelativePath(Shown(a)) || OriginShown(a.raw)
    ensures AllHonest(answers)
  {
    hide ParseOrigin, IsRelativePath, OriginShown, Printed;
    forall i | 0 <= i < |answers| ensures Honest(answers[i]) {
      assert answers[i] in answers;
      if OriginShown(answers[i].raw) {
        ShownOriginIsTrue(answers[i].raw);
      }
    }
  }

  /** A URL whose host name the buffer cuts in two is never honest: the buffer shows
      another host, of an origin of its own. */
  lemma CutHostIsNotHonest(secure: bool, scheme: bytes, userinfo: Option<bytes>, a: bytes, b: bytes,
                           port: Option<nat>, suffix: bytes)
    requires PlainScheme(scheme) && Lowered(scheme) == (if secure then Https() else Http())
    requires PlainUserinfo(userinfo) && PlainHost(a) && PlainHost(a + b) && b != [] && PlainSuffix(suffix)
    requires |RenderUrl(scheme, userinfo, a, None, [])| == URL_CAP - 1
    ensures var url := RenderUrl(scheme, userinfo, a + b, port, suffix);
            && Printed(url, URL_CAP) == RenderUrl(scheme, userinfo, a, None, [])
            && ParseOrigin(Printed(url, URL_CAP)) ==
               Some(Origin(Lowered(scheme), Lowered(a), if secure then 443 else 80))
            && ParseOrigin(url) != ParseOrigin(Printed(url, URL_CAP))
  {
    var url, cut := RenderUrl(scheme, userinfo, a + b, port, suffix), RenderUrl(scheme, userinfo, a, None, []);
    CutUrl(scheme, userinfo, a, b, port, suffix);
    assert url[..|cut|] == cut && |url| > |cut|;
    hide RenderUrl, ParseOrigin, PlainScheme, PlainHost, PlainSuffix, PlainUserinfo;
    assert PlainSuffix([]) by { EmptySuffix(); }
    assert Http() != Https();
    OriginRoundTrip(scheme, userinfo, a, None, []);
    OriginRoundTrip(scheme, userinfo, a + b, port, suffix);
    assert |Lowered(a + b)| > |Lowered(a)|;
  }

  lemma EmptySuffix()
    ensures PlainSuffix([])
  {
  }

  lemma CutUrl(scheme: bytes, userinfo: Option<bytes>, a: bytes, b: bytes, port: Option<nat>, suffix: bytes)
    ensures RenderUrl(scheme, userinfo, a + b, port, suffix) ==
            RenderUrl(scheme, userinfo, a, None, []) + (b + PortText(port) + suffix)
  {
    var start := scheme + [COLON, SLASH, SLASH];
    var u := if userinfo.None? then [] else userinfo.value + [AT];
    var tail := PortText(port);
    assert RenderUrl(scheme, userinfo, a, None, []) == start + (u + a) by {
      assert a + [] == a && (u + a) + [] == u + a;
    }
    hide RenderUrl;
    assert Authority(userinfo, a + b, port) + suffix == (u + a) + (b + tail + suffix) by {
      hide PortText;
      assert u + ((a + b) + tail) + suffix == (u + a) + (b + tail + suffix);
    }
    hide *;
    ConcatAssociates(start, u + a, b + tail + suffix);
  }

  /** Such a Location is followed from any URL of the origin that it shows, and takes
      the request to another one. */
  lemma CutHostIsFollowed(secure: bool, first: bytes, scheme: bytes, userinfo: Option<bytes>, a: bytes, b: bytes,
                          port: Option<nat>, suffix: bytes)
    requires PlainScheme(scheme) && Lowered(scheme) == (if secure then Https() else Http())
    requires PlainUserinfo(userinfo) && PlainHost(a) && PlainHost(a + b) && b != [] && PlainSuffix(suffix)
    requires |RenderUrl(scheme, userinfo, a, None, [])| == URL_CAP - 1
    requires ShownTruly(first)
    requires ParseOrigin(first) == Some(Origin(Lowered(scheme), Lowered(a), if secure then 443 else 80))
    ensures var answers := [Answer(302, RenderUrl(scheme, userinfo, a + b, port, suffix))];
            var urls := [first, answers[0].raw];
            && Chain(Printed(first, URL_CAP), answers) && Requests(first, answers, urls)
            && !AllSame(urls, ParseOrigin(first))
  {
    var cut, url := RenderUrl(scheme, userinfo, a, None, []), RenderUrl(scheme, userinfo, a + b, port, suffix);
    CutHostIsNotHonest(secure, scheme, userinfo, a, b, port, suffix);
    RenderedIsAbsolute(secure, scheme, userinfo, a);
    hide Resolve, RenderUrl, ParseOrigin, PlainScheme, PlainHost, PlainSuffix, PlainUserinfo, IsRelativePath;
    hide IsAbsoluteHttp, Printed, Lowered, AllSame, Chain, Requests;
    DishonestIsFollowed(first, url);
  }

  /** A Location of another origin than its buffer shows, if that is the first one. */
  lemma DishonestIsFollowed(first: bytes, url: bytes)
    requires var shown := Printed(url, URL_CAP);
             && shown != [] && IsAbsoluteHttp(shown) && !IsRelativePath(shown) && ParseOrigin(shown).Some?
             && ParseOrigin(shown) == ParseOrigin(first) != ParseOrigin(url)
    requires ShownTruly(first)
    ensures var answers := [Answer(302, url)];
            var urls := [first, answers[0].raw];
            && Chain(Printed(first, URL_CAP), answers) && Requests(first, answers, urls)
            && !AllSame(urls, ParseOrigin(first))
  {
    var answer, shown := Answer(302, url), Printed(first, URL_CAP);
    ShownStarts(answer);
    AbsoluteIsTaken(first, url);
    hide Resolve, ParseOrigin, IsRelativePath, IsAbsoluteHttp, Printed;
    NothingFollowed(shown, first);
    ChainSnoc(shown, [], answer);
    RequestsSnoc(first, [], [first], answer, url);
    assert [] + [answer] == [answer] && [first] + [url] == [first, url];
    AllSameSnoc([first], url, ParseOrigin(first));
  }

  lemma RenderedIsAbsolute(secure: bool, scheme: bytes, userinfo: Option<bytes>, host: bytes)
    requires PlainScheme(scheme) && Lowered(scheme) == (if secure then Https() else Http())
    ensures var url := RenderUrl(scheme, userinfo, host, None, []);
            url != [] && IsAbsoluteHttp(url) && !IsRelativePath(url)
  {
    var url := RenderUrl(scheme, userinfo, host, None, []);
    var start := Lowered(scheme) + [COLON, SLASH, SLASH];
    assert Lowered(url)[..|start|] == start;
    assert url[0] == scheme[0];
  }

  lemma {:induction false} ChainAt(first: bytes, answers: seq<Answer>, i: nat)
    requires Chain(first, answers) && i < |answers|
    ensures IsRedirect(answers[i].status) && Followable(Followed(first, answers[..i]), Shown(answers[i]))
  {
    hide IsRedirect, Followable;
    var n := |answers| - 1;
    if i < n {
      ChainAt(first, answers[..n], i);
      assert answers[..n][..i] == answers[..i];
    }
  }

  lemma {:induction false} RequestAt(first: bytes, answers: seq<Answer>, urls: seq<bytes>, i: nat)
    requires Requests(first, answers, urls) && i < |answers|
    ensures urls[i + 1] == Resolve(urls[i], answers[i].raw)
  {
    hide Resolve;
    var n := |answers| - 1;
    if i < n {
      RequestAt(first, answers[..n], urls[..n + 1], i);
    }
  }

  lemma FollowedSpelled(first: bytes, answers: seq<Answer>, urls: seq<bytes>, i: nat)
    requires Chain(Printed(first, URL_CAP), answers) && Requests(first, answers, urls) && i < |answers|
    ensures |urls| == |answers| + 1 && LedOn(first, answers[i], urls[i], urls[i + 1])
  {
    var shown := Followed(Printed(first, URL_CAP), answers[..i]);
    ChainAt(Printed(first, URL_CAP), answers, i);
    RequestAt(first, answers, urls, i);
    FollowedLeads(urls[i], shown, answers[i]);
    ShownStarts(answers[i]);
    ShownOrigin(Printed(first, URL_CAP), answers, i);
    if !IsRelativePath(Shown(answers[i])) {
      AbsoluteIsTaken(urls[i], answers[i].raw);
    }
    hide Resolve, ParseOrigin, Chain, Requests, Followed, IsAbsoluteHttp;
  }

  /** Redirects in numbers and bytes: only these statuses, and only a Location of one
      slash, or one whose buffer shows the origin shown first, lead on. */
  predicate LedOn(first: bytes, a: Answer, from: bytes, to: bytes) {
    && (a.status == 301 || a.status == 302 || a.status == 303 || a.status == 307 || a.status == 308)
    && a.raw != [] && to == Resolve(from, a.raw)
    && if a.raw[0] == 47 then (|a.raw| == 1 || a.raw[1] != 47) && ParseOrigin(to) == ParseOrigin(from)
       else to == a.raw && ParseOrigin(Printed(a.raw, 512)) == ParseOrigin(Printed(first, 512))
  }

  lemma AllSpelled(first: bytes, answers: seq<Answer>, urls: seq<bytes>)
    requires Chain(Printed(first, URL_CAP), answers) && Requests(first, answers, urls)
    ensures |urls| == |answers| + 1
    ensures forall i :: 0 <= i < |answers| ==> LedOn(first, answers[i], urls[i], urls[i + 1])
  {
    hide LedOn, Chain, ParseOrigin, Resolve;
    forall i | 0 <= i < |answers| ensures LedOn(first, answers[i], urls[i], urls[i + 1]) {
      FollowedSpelled(first, answers, urls, i);
    }
  }

  /** And the other way round: such a Location does not lead on, though its status
      could. */
  predicate DeadEnd(first: bytes, location: bytes) {
    && (location == [] || location[0] != 47 || (|location| > 1 && location[1] == 47))
    && (Lowered(location[..Min(7, |location|)]) == [104, 116, 116, 112, 58, 47, 47] ||
        Lowered(location[..Min(8, |location|)]) == [104, 116, 116, 112, 115, 58, 47, 47] ==>
          ParseOrigin(location).None? || ParseOrigin(location) != ParseOrigin(Printed(first, 512)))
  }

  lemma NotFollowedSpelled(first: bytes, shown: bytes, location: bytes)
    requires !Followable(shown, location) && ParseOrigin(shown) == ParseOrigin(Printed(first, URL_CAP))
    ensures DeadEnd(first, location)
  {
    hide ParseOrigin;
    var l := Lowered(location);
    if |location| >= 7 {
      assert l[..7] == Lowered(location[..7]);
    }
    if |location| >= 8 {
      assert l[..8] == Lowered(location[..8]);
    }
  }

  lemma EndSpelled(first: bytes, answers: seq<Answer>, status: int)
    requires answers != [] && Chain(Printed(first, URL_CAP), answers[..|answers| - 1])
    ensures var n, shown := |answers| - 1, Followed(Printed(first, URL_CAP), answers[..|answers| - 1]);
            && (status == 301 || status == 302 || status == 303 || status == 307 || status == 308 ==>
                  IsRedirect(status))
            && MAX_HOPS == 5
            && (!Followable(shown, Shown(answers[n])) ==> DeadEnd(first, Printed(answers[n].raw, 512)))
  {
    var n, shown := |answers| - 1, Followed(Printed(first, URL_CAP), answers[..|answers| - 1]);
    hide Chain, Followed, Followable, DeadEnd, ParseOrigin;
    ChainKeepsOrigin(Printed(first, URL_CAP), answers[..n]);
    if !Followable(shown, Shown(answers[n])) {
      NotFollowedSpelled(first, shown, Shown(answers[n]));
    }
  }

  class Handle {
    /** The URL for origin comparison, and the Location of the last response. */
    var url: bytes
    var location: bytes

    /** The URL that the HTTP client requests next. */
    var target: bytes

    // The record of the calls, which the program does not keep.
    var requested: seq<bytes>  // the URLs requested, one after the other
    var answers: seq<Answer>   // and what came back
    var refused: bool          // the HTTP client would not redirect

    /** The request, and a response with any status and any Location. */
    method Request() returns (status: int, raw: bytes)
      modifies this`location, this`requested, this`answers
      ensures requested == old(requested) + [target] && location == Printed(raw, URL_CAP) && NUL !in raw
      ensures answers == old(answers) + [Answer(status, raw)]
    {
      requested := requested + [target];
      status, raw := *, *;
      raw := CString(raw + [NUL]);
      location := Printed(raw, URL_CAP);
      answers := answers + [Answer(status, raw)];
    }

    /** One redirect: followed exactly when it may be, unless the HTTP client refuses. */
    method Follow(a: Answer) returns (ok: bool)
      requires NUL !in url && NUL !in a.raw && location == Shown(a) != []
      modifies this`url, this`target, this`refused
      ensures NUL !in url
      ensures refused == (old(refused) || (!ok && Followable(old(url), location)))
      ensures ok ==> Followable(old(url), location) && target == Resolve(old(target), a.raw)
      ensures url == if Followable(old(url), location) && !IsRelativePath(location) then location else old(url)
      ensures !ok ==> target == old(target)
    {
      hide ParseOrigin, IsRelativePath, IsAbsoluteHttp, Resolve;
      var relative := IsRelativePath(location);
      if !relative {
        if !IsAbsoluteHttp(location) {
          return false;
        }
        var same := SameOriginUrls(url, location);
        if !same {
          return false;
        }
        url := location;
      }
      ok := SetRedirection(a.raw);
      refused := refused || !ok;
    }

    /** esp_http_client_set_redirection: the whole Location, resolved, becomes the
        target, or it fails and nothing changes. */
    method SetRedirection(raw: bytes) returns (ok: bool)
      modifies this`target
      ensures target == if ok then Resolve(old(target), raw) else old(target)
    {
      ok := *;
      if ok {
        target := Resolve(target, raw);
      }
    }

    /** On the way: every answer so far was followed, and the next URL is set. */
    ghost predicate Going(reqUrl: bytes)
      reads this
    {
      var first := Printed(reqUrl, URL_CAP);
      && Chain(first, answers) && url == Followed(first, answers) && NUL !in url && !refused
      && Requests(reqUrl, answers, requested + [target])
    }

    /** At the end: every answer but the last was followed, and the last could not
        be, or the hops are used up, or the HTTP client refused. */
    ghost predicate Ended(reqUrl: bytes, status: int)
      reads this
    {
      var n, first := |answers| - 1, Printed(reqUrl, URL_CAP);
      && 0 <= n <= MAX_HOPS && answers[n].status == status
      && Chain(first, answers[..n]) && Requests(reqUrl, answers[..n], requested)
      && (IsRedirect(status) && Followable(Followed(first, answers[..n]), Shown(answers[n])) ==>
            n == MAX_HOPS || refused)
      && ParseOrigin(url) == ParseOrigin(first)
    }

    /** One request, and the redirect that it may lead to. */
    method Hop(reqUrl: bytes) returns (status: int, more: bool)
      requires Going(reqUrl) && |answers| <= MAX_HOPS
      modifies this
      ensures if more then Going(reqUrl) && |answers| == old(|answers|) + 1 <= MAX_HOPS && status >= 0
              else Ended(reqUrl, status)
    {
      hide ParseOrigin, IsRelativePath, IsAbsoluteHttp, Followed, Chain, Requests, IsRedirect;
      ghost var first, before := Printed(reqUrl, URL_CAP), answers;
      ChainKeepsOrigin(first, before);
      var hop := |answers|;
      var raw;
      status, raw := Request();
      ghost var answer, urls := answers[hop], requested;
      ChainSnoc(first, before, answer);
      if status < 0 || !IsRedirect(status) || hop >= MAX_HOPS || location == [] {
        NoRedirect(status, url);
        return status, false;
      }
      assert urls[|urls| - 1] == target;
      more := Follow(Answer(status, raw));
      if more {
        RequestsSnoc(reqUrl, before, urls, answer, target);
        location := [];
      }
    }

    /** esp_open_fn, the hop loop: it follows every redirect that may be followed,
        and no other, for at most five hops. Every request goes to the origin of the
        first URL exactly when the buffers show the true origins. */
    method Open(reqUrl: bytes) returns (r: int, status: int)
      requires NUL !in reqUrl
      modifies this
      ensures Ended(reqUrl, status) && r == if status < 0 then -1 else 0
      ensures 0 < |requested| == |answers| <= 6
      ensures var n := |answers| - 1;
              && answers[n].status == status
              && (status == 301 || status == 302 || status == 303 || status == 307 || status == 308 ==>
                    n == 5 || refused || DeadEnd(reqUrl, Printed(answers[n].raw, 512)))
      ensures forall i :: 0 <= i < |answers| - 1 ==> LedOn(reqUrl, answers[i], requested[i], requested[i + 1])
      ensures AllSame(requested, ParseOrigin(reqUrl)) <==> AllOn(ParseOrigin(reqUrl), answers[..|answers| - 1])
      ensures ShownTruly(reqUrl) ==>
                (AllSame(requested, ParseOrigin(reqUrl)) <==> AllHonest(answers[..|answers| - 1]))
    {
      hide ParseOrigin, AllSame, AllHonest, AllOn, ShownTruly, Followed, Chain, Requests, Resolve, Followable;
      hide IsRedirect, LedOn, DeadEnd;
      url, location, target, requested, answers := Printed(reqUrl, URL_CAP), [], reqUrl, [], [];
      refused := false;
      NothingFollowed(url, reqUrl);
      assert requested + [target] == [reqUrl];
      var more := true;
      status := 0;
      while more
        invariant if more then Going(reqUrl) && |answers| <= MAX_HOPS else Ended(reqUrl, status)
        decreases more, MAX_HOPS - |answers|
      {
        status, more := Hop(reqUrl);
      }
      RequestsStayExactly(reqUrl, answers[..|answers| - 1], requested);
      AllSpelled(reqUrl, answers[..|answers| - 1], requested);
      assert forall i :: 0 <= i < |answers| - 1 ==> answers[..|answers| - 1][i] == answers[i];
      EndSpelled(reqUrl, answers, status);
      return if status < 0 then -1 else 0, status;
    }
  }
}
