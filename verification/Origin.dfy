/** URL origins: the automaton of utils.cpp against a specification by position, after section 4 of RFC 6454. */
module Origin {
  import opened Common

  const MAX_SCHEME := 6
  const MAX_PORT := 6

  /** The first position from `from` on that holds `c`, or the length. */
  function Find(s: string, c: char, from: nat): (i: nat)
    requires from <= |s|
    ensures from <= i <= |s|
    ensures forall k | from <= k < i :: s[k] != c
    ensures i < |s| ==> s[i] == c
    decreases |s| - from
  {
    if from == |s| || s[from] == c then from else Find(s, c, from + 1)
  }

  function DefaultPort(scheme: string): string {
    if |scheme| >= 5 && scheme[..5] == "https" then ":443" else ":80"
  }

  function SchemeEnd(url: string): nat {
    Find(url, ':', 0)
  }

  /** The scheme is short enough and "://" follows it. */
  predicate HasScheme(url: string) {
    var colon := SchemeEnd(url);
    colon <= MAX_SCHEME && colon + 3 <= |url| && url[colon + 1..colon + 3] == "//"
  }

  /** The end of the host: the first ':' or '/' behind "://". */
  function HostEnd(url: string): (i: nat)
    requires HasScheme(url)
    ensures SchemeEnd(url) + 3 <= i <= |url|
    ensures forall k | SchemeEnd(url) + 3 <= k < i :: url[k] != ':' && url[k] != '/'
    ensures i < |url| ==> url[i] == ':' || url[i] == '/'
  {
    var a, b := Find(url, ':', SchemeEnd(url) + 3), Find(url, '/', SchemeEnd(url) + 3);
    if a < b then a else b
  }

  predicate HasPortMark(url: string)
    requires HasScheme(url)
  {
    HostEnd(url) < |url| && url[HostEnd(url)] == ':'
  }

  function PortStart(url: string): (i: nat)
    requires HasScheme(url)
    ensures HostEnd(url) <= i <= |url|
  {
    if HasPortMark(url) then HostEnd(url) + 1 else HostEnd(url)
  }

  function AuthorityEnd(url: string): (i: nat)
    requires HasScheme(url)
    ensures PortStart(url) <= i <= |url|
  {
    Find(url, '/', PortStart(url))
  }

  /** "://" is consumed and nothing behind it is refused. */
  predicate HasAuthority(url: string) {
    HasScheme(url) && AuthorityEnd(url) - PortStart(url) <= MAX_PORT
  }

  function StrGetUrlOriginSpec(url: string): string {
    var colon := SchemeEnd(url);
    if HasScheme(url) then
      if !HasAuthority(url) then ""
      else url[..AuthorityEnd(url)] + (if AuthorityEnd(url) == PortStart(url) then DefaultPort(url[..colon]) else "")
    else if 0 < |url| <= colon + 1 && colon <= MAX_SCHEME then url + DefaultPort(url[..colon])
    else ""
  }

  // ---------------------------------------------------------------- the automaton

  const SCHEME := 0
  const SLASHES := 1
  const DOMAIN := 2
  const PORT := 3
  const END := 4
  const ERROR := 5

  /** The three ways in which the automaton gets stuck. */
  lemma RefusedHasNoOrigin(url: string)
    requires
      || SchemeEnd(url) > MAX_SCHEME
      || (!HasScheme(url) && SchemeEnd(url) + 1 < |url|)
      || (HasScheme(url) && !HasAuthority(url))
    ensures StrGetUrlOriginSpec(url) == ""
  {
  }

  /** What is returned when the automaton stops before "://" (`early`), or behind it. */
  lemma AcceptedOrigin(url: string, count: nat, early: bool, port: string)
    requires if early then
               && count == |url| <= SchemeEnd(url) + 1 && SchemeEnd(url) <= MAX_SCHEME && !HasScheme(url) && port == ""
             else
               HasAuthority(url) && count == AuthorityEnd(url) && port == url[PortStart(url)..count]
    ensures
      var scheme := url[..SchemeEnd(url)];
      StrGetUrlOriginSpec(url)
      == if count == 0 then "" else if port == "" then url[..count] + DefaultPort(scheme) else url[..count]
  {
    assert count == |url| ==> url[..count] == url;
  }

  method StrGetUrlOrigin(url: string) returns (origin: string)
    ensures origin == StrGetUrlOriginSpec(url)
  {
    hide DefaultPort, StrGetUrlOriginSpec;
    var state := SCHEME;
    var count := 0;
    var scheme := "";
    var port := "";
    while count < |url| && state < END
      invariant 0 <= count <= |url| && SCHEME <= state <= ERROR
      invariant state == SCHEME ==> count <= MAX_SCHEME && scheme == url[..count] && port == ""
                                    && forall k | 0 <= k < count :: url[k] != ':'
      invariant SLASHES <= state <= END ==> SchemeEnd(url) <= MAX_SCHEME && SchemeEnd(url) < |url|
                                            && scheme == url[..SchemeEnd(url)]
      invariant state == SLASHES ==> count == SchemeEnd(url) + 1 && port == ""
      invariant DOMAIN <= state <= END ==> HasScheme(url)
      invariant state == DOMAIN ==> SchemeEnd(url) + 3 <= count <= HostEnd(url) && port == ""
      invariant state == PORT ==> HasPortMark(url) && PortStart(url) <= count <= AuthorityEnd(url)
                                  && count <= PortStart(url) + MAX_PORT && port == url[PortStart(url)..count]
      invariant state == END ==> HasAuthority(url) && count == AuthorityEnd(url) && port == url[PortStart(url)..count]
      invariant state == ERROR ==> StrGetUrlOriginSpec(url) == ""
      decreases END - state, |url| - count
    {
      if state == SCHEME {
        if url[count] == ':' {
          state := SLASHES;
          assert SchemeEnd(url) == count;
        } else if |scheme| < MAX_SCHEME {
          scheme := scheme + [url[count]];
        } else {
          state := ERROR;
          RefusedHasNoOrigin(url);
        }
        count := count + 1;
      } else if state == SLASHES {
        if count + 2 <= |url| && url[count..count + 2] == "//" {
          state := DOMAIN;
          count := count + 2;
        } else {
          state := ERROR;
          RefusedHasNoOrigin(url);
        }
      } else if state == DOMAIN {
        if url[count] == ':' {
          assert count == HostEnd(url);
          state := PORT;
          count := count + 1;
          assert url[PortStart(url)..count] == "";
        } else if url[count] == '/' {
          assert count == HostEnd(url) && !HasPortMark(url);
          state := END;
        } else {
          count := count + 1;
        }
      } else {
        if url[count] == '/' {
          state := END;
        } else if |port| > MAX_PORT - 1 {
          state := ERROR;
          RefusedHasNoOrigin(url);
        } else {
          port := port + [url[count]];
          count := count + 1;
        }
      }
    }
    origin := "";
    if state == DOMAIN {
      assert count == |url| && HostEnd(url) == |url|;
    }
    if count > 0 && state != ERROR {
      origin := url[..count];
      if port == "" {
        origin := origin + DefaultPort(scheme);
      }
    }
    if state != ERROR {
      AcceptedOrigin(url, count, state < DOMAIN, port);
    }
  }

  // ---------------------------------------------------------------- properties

  lemma SameChars(u: string, v: string, end: nat)
    requires end <= |u| && end <= |v| && u[..end] == v[..end]
    ensures forall k | 0 <= k < end :: u[k] == v[k]
  {
    forall k | 0 <= k < end ensures u[k] == v[k] {
      assert u[k] == u[..end][k] == v[..end][k];
    }
  }

  /** The scheme, the host and the port of a URL depend only on the part up to the slash behind them. */
  lemma SameAuthority(u: string, v: string)
    requires HasAuthority(u) && AuthorityEnd(u) <= |v| && v[..AuthorityEnd(u)] == u[..AuthorityEnd(u)]
    requires AuthorityEnd(u) == |v| || v[AuthorityEnd(u)] == '/'
    ensures HasScheme(v) && SchemeEnd(v) == SchemeEnd(u)
    ensures PortStart(v) == PortStart(u) && AuthorityEnd(v) == AuthorityEnd(u)
  {
    var colon, end, host := SchemeEnd(u), AuthorityEnd(u), HostEnd(u);
    SameChars(u, v, end);
    assert Find(v, ':', 0) == colon;
    assert v[colon + 1..colon + 3] == u[colon + 1..colon + 3];
    assert HostEnd(v) == host;
    assert PortStart(v) == PortStart(u);
    assert Find(v, '/', PortStart(u)) == end;
  }

  /** Whatever follows the slash behind the authority does not matter. */
  lemma OriginIgnoresPath(u: string, v: string)
    requires HasAuthority(u) && AuthorityEnd(u) <= |v| && v[..AuthorityEnd(u)] == u[..AuthorityEnd(u)]
    requires AuthorityEnd(u) == |v| || v[AuthorityEnd(u)] == '/'
    ensures HasAuthority(v) && StrGetUrlOriginSpec(v) == StrGetUrlOriginSpec(u)
  {
    SameAuthority(u, v);
    assert v[..SchemeEnd(v)] == v[..AuthorityEnd(u)][..SchemeEnd(u)] == u[..SchemeEnd(u)];
  }

  /** The parts of a URL are where its characters say. */
  lemma PartsByPosition(url: string, colon: nat, hostEnd: nat, end: nat)
    requires colon <= MAX_SCHEME && colon + 3 <= hostEnd <= end <= |url| && end - hostEnd <= MAX_PORT + 1
    requires forall k | 0 <= k < colon :: url[k] != ':'
    requires url[colon] == ':' && url[colon + 1] == '/' && url[colon + 2] == '/'
    requires forall k | colon + 3 <= k < hostEnd :: url[k] != ':' && url[k] != '/'
    requires hostEnd < end ==> url[hostEnd] == ':'
    requires forall k | hostEnd <= k < end :: url[k] != '/'
    requires end < |url| ==> url[end] == '/'
    ensures HasAuthority(url) && SchemeEnd(url) == colon && AuthorityEnd(url) == end
    ensures PortStart(url) == if hostEnd < end then hostEnd + 1 else end
    ensures StrGetUrlOriginSpec(url) == url[..end] + (if end - hostEnd <= 1 then DefaultPort(url[..colon]) else "")
  {
    assert url[colon + 1..colon + 3] == "//";
    assert HostEnd(url) == hostEnd;
    assert url[..end] + "" == url[..end];
  }

  predicate IsPort(port: string) {
    port == "" || (port[0] == ':' && |port| <= MAX_PORT + 1 && '/' !in port)
  }

  function Join(scheme: string, host: string, port: string, path: string): string {
    (scheme + "://") + ((host + port) + path)
  }

  lemma JoinPositions(scheme: string, host: string, port: string, path: string)
    ensures
      var url, colon, hostEnd := Join(scheme, host, port, path), |scheme|, |scheme| + 3 + |host|;
      var end := hostEnd + |port|;
      && |url| == end + |path|
      && url[..colon] == scheme
      && url[..end] == (scheme + "://") + (host + port)
      && (forall k | 0 <= k < colon :: url[k] in scheme)
      && url[colon] == ':' && url[colon + 1] == '/' && url[colon + 2] == '/'
      && (forall k | colon + 3 <= k < hostEnd :: url[k] in host)
      && (port != "" ==> url[hostEnd] == port[0])
      && (forall k | hostEnd <= k < end :: url[k] in port)
      && (path != "" ==> url[end] == path[0])
  {
  }

  /** The origin of a URL put together from its parts. */
  lemma OriginOfParts(scheme: string, host: string, port: string, path: string)
    requires |scheme| <= MAX_SCHEME && ':' !in scheme
    requires ':' !in host && '/' !in host
    requires IsPort(port)
    requires path == "" || path[0] == '/'
    ensures
      var url := Join(scheme, host, port, path);
      && HasAuthority(url)
      && StrGetUrlOriginSpec(url)
         == (scheme + "://") + (host + port) +
            if |port| > 1 then "" else if |scheme| >= 5 && scheme[..5] == "https" then ":443" else ":80"
  {
    hide Join, StrGetUrlOriginSpec, HasAuthority;
    JoinPositions(scheme, host, port, path);
    PartsByPosition(Join(scheme, host, port, path), |scheme|, |scheme| + 3 + |host|, |scheme| + 3 + |host| + |port|);
  }

  /** A missing port and the default port of the scheme give the same origin. */
  lemma AbsentPortIsDefaultPort(scheme: string, host: string, path: string, path': string)
    requires |scheme| <= MAX_SCHEME && ':' !in scheme
    requires ':' !in host && '/' !in host
    requires path == "" || path[0] == '/'
    requires path' == "" || path'[0] == '/'
    ensures StrGetUrlOriginSpec(Join(scheme, host, "", path))
            == StrGetUrlOriginSpec(Join(scheme, host, DefaultPort(scheme), path'))
  {
    var port := DefaultPort(scheme);
    assert IsPort(port) && |port| > 1;
    hide Join, StrGetUrlOriginSpec, HasAuthority, DefaultPort;
    OriginOfParts(scheme, host, "", path);
    OriginOfParts(scheme, host, port, path');
    Regroup(scheme + "://", host, port);
    assert host + "" == host;
    assert (scheme + "://") + (host + port) + "" == (scheme + "://") + (host + port);
  }

  /** Taking the origin twice is taking it once exactly when "://" was consumed or there is no origin at all. */
  lemma OriginIsIdempotentExactlyWhen(u: string)
    ensures
      var o := StrGetUrlOriginSpec(u);
      StrGetUrlOriginSpec(o) == o <==> o == "" || HasAuthority(u)
  {
    var o := StrGetUrlOriginSpec(u);
    if HasAuthority(u) {
      OriginOfAuthority(u);
    } else if o != "" {
      OriginWithoutAuthority(u);
    }
  }

  lemma DefaultPortShape(scheme: string)
    ensures var p := DefaultPort(scheme); 3 <= |p| <= 4 && p[0] == ':' && '/' !in p
  {
  }

  /** The origin of a URL with an authority, and where the port added to it starts. */
  lemma AuthorityOrigin(u: string) returns (added: string)
    requires HasAuthority(u)
    ensures StrGetUrlOriginSpec(u) == u[..AuthorityEnd(u)] + added
    ensures added == "" || added == DefaultPort(u[..SchemeEnd(u)])
    ensures added == "" <==> PortStart(u) < AuthorityEnd(u)
  {
    DefaultPortShape(u[..SchemeEnd(u)]);
    added := if AuthorityEnd(u) == PortStart(u) then DefaultPort(u[..SchemeEnd(u)]) else "";
  }

  lemma OriginOfAuthority(u: string)
    requires HasAuthority(u)
    ensures StrGetUrlOriginSpec(StrGetUrlOriginSpec(u)) == StrGetUrlOriginSpec(u)
  {
    var added := AuthorityOrigin(u);
    var colon, hostEnd, end := SchemeEnd(u), HostEnd(u), AuthorityEnd(u);
    var o := u[..end] + added;
    AuthorityChars(u);
    DefaultPortShape(u[..colon]);
    assert end - PortStart(u) <= MAX_PORT;
    hide StrGetUrlOriginSpec, DefaultPort, HasAuthority, HostEnd, AuthorityEnd;
    assert forall k | 0 <= k < end :: o[k] == u[k];
    assert forall k | end <= k < |o| :: o[k] == added[k - end];
    PartsByPosition(o, colon, hostEnd, |o|);
    assert o[..|o|] + "" == o;
  }

  lemma AuthorityChars(u: string)
    requires HasAuthority(u)
    ensures
      var colon, hostEnd, end := SchemeEnd(u), HostEnd(u), AuthorityEnd(u);
      && u[colon] == ':' && u[colon + 1] == '/' && u[colon + 2] == '/'
      && (hostEnd < end ==> u[hostEnd] == ':')
      && (hostEnd == end <==> !HasPortMark(u))
      && (forall k | hostEnd <= k < end :: u[k] != '/')
  {
    var colon := SchemeEnd(u);
    assert u[colon + 1..colon + 3][0] == u[colon + 1] && u[colon + 1..colon + 3][1] == u[colon + 2];
  }

  lemma OriginWithoutAuthority(u: string)
    requires !HasAuthority(u) && StrGetUrlOriginSpec(u) != ""
    ensures StrGetUrlOriginSpec(StrGetUrlOriginSpec(u)) == ""
  {
    var colon := SchemeEnd(u);
    var o := StrGetUrlOriginSpec(u);
    assert o == u + DefaultPort(u[..colon]);
    assert o[|u|] == ':' && o[|u| + 1] != '/';
    assert forall k | 0 <= k < |u| :: o[k] == u[k];
    assert SchemeEnd(o) == colon;
    assert colon + 3 <= |o| ==> o[colon + 1..colon + 3][0] == o[colon + 1];
    assert !HasScheme(o);
  }

  // ---------------------------------------------------------------- comparison

  const TRIMMED: set<char> := {' ', '\t', '\n', '\r', '\U{000C}', '\U{000B}', '/'}

  /** `find_last_not_of` and `erase`: drops trailing white space and slashes. */
  function Trim(s: string): string {
    if s != "" && s[|s| - 1] in TRIMMED then Trim(s[..|s| - 1]) else s
  }

  predicate CompareUrls(a: string, b: string) {
    Trim(a) != "" && Trim(a) == Trim(b)
  }

  predicate SameOrigin(a: string, b: string) {
    CompareUrls(StrGetUrlOriginSpec(a), StrGetUrlOriginSpec(b))
  }

  predicate InBoundaries(url: string, appUri: string, boundaries: seq<string>) {
    SameOrigin(url, appUri) || exists i | 0 <= i < |boundaries| :: SameOrigin(url, boundaries[i])
  }

  method CheckBoundaries(url: string, appUri: string, boundaries: seq<string>) returns (r: bool)
    ensures r == InBoundaries(url, appUri, boundaries)
  {
    hide StrGetUrlOriginSpec, Trim;
    var origin1 := StrGetUrlOrigin(url);
    var origin2 := StrGetUrlOrigin(appUri);
    r := CompareUrls(origin1, origin2);
    if !r {
      for i := 0 to |boundaries|
        invariant !r && forall k | 0 <= k < i :: !SameOrigin(url, boundaries[k])
      {
        origin2 := StrGetUrlOrigin(boundaries[i]);
        r := CompareUrls(origin1, origin2);
        if r {
          break;
        }
      }
    }
  }

  const SPACES: set<char> := TRIMMED - {'/'}

  predicate HasPort(url: string) {
    HasAuthority(url) && PortStart(url) < AuthorityEnd(url)
  }

  /** The last character of an explicit port is white space. */
  predicate SpacedPort(url: string) {
    HasPort(url) && url[AuthorityEnd(url) - 1] in SPACES
  }

  /** The end of an explicit port without the white space behind it, counted back from `end`. */
  function PortEnd(url: string, end: nat): (e: nat)
    requires HasPort(url) && PortStart(url) <= end <= AuthorityEnd(url)
    ensures PortStart(url) <= e <= end
    ensures e == end <==> end == PortStart(url) || url[end - 1] !in SPACES
    decreases end
  {
    if end > PortStart(url) && url[end - 1] in SPACES then PortEnd(url, end - 1) else end
  }

  /** The origin without the white space behind an explicit port. */
  function Unspaced(url: string): string {
    if HasPort(url) then url[..PortEnd(url, AuthorityEnd(url))] else StrGetUrlOriginSpec(url)
  }

  lemma {:induction false} TrimmedPort(url: string, end: nat)
    requires HasPort(url) && PortStart(url) <= end <= AuthorityEnd(url)
    ensures Trim(url[..end]) == url[..PortEnd(url, end)] != ""
    decreases end
  {
    assert url[..end][|url[..end]| - 1] == url[end - 1];
    if end > PortStart(url) && url[end - 1] in SPACES {
      assert url[..end][..end - 1] == url[..end - 1];
      TrimmedPort(url, end - 1);
    }
  }

  lemma TrimmedOrigin(url: string)
    ensures Trim(StrGetUrlOriginSpec(url)) == Unspaced(url)
    ensures StrGetUrlOriginSpec(url) == "" <==> Unspaced(url) == ""
    ensures SpacedPort(url) <==> Unspaced(url) != StrGetUrlOriginSpec(url)
  {
    var o := StrGetUrlOriginSpec(url);
    if HasPort(url) {
      TrimmedPort(url, AuthorityEnd(url));
      assert o == url[..AuthorityEnd(url)] + "" == url[..AuthorityEnd(url)];
    } else if o != "" {
      assert o[|o| - 1] == '3' || o[|o| - 1] == '0';
    }
  }

  /** What the comparison decides, for all URLs: equality of origins up to white space behind an explicit port. */
  lemma SameOriginExactlyWhen(a: string, b: string)
    ensures SameOrigin(a, b) <==> Unspaced(a) == Unspaced(b) != ""
  {
    TrimmedOrigin(a);
    TrimmedOrigin(b);
  }

  predicate EqualOrigins(a: string, b: string) {
    StrGetUrlOriginSpec(a) == StrGetUrlOriginSpec(b) != ""
  }

  /** A port ends in white space, and the two origins differ by such white space alone. */
  predicate DifferInSpaces(a: string, b: string) {
    && (SpacedPort(a) || SpacedPort(b))
    && Unspaced(a) == Unspaced(b)
    && StrGetUrlOriginSpec(a) != StrGetUrlOriginSpec(b)
  }

  /** The comparison is equality of origins, for all URLs, exactly when they do not differ in such white space alone. */
  lemma ComparisonIsEqualityExactlyWhen(a: string, b: string)
    ensures (SameOrigin(a, b) <==> EqualOrigins(a, b)) <==> !DifferInSpaces(a, b)
  {
    hide StrGetUrlOriginSpec, Unspaced, SpacedPort, CompareUrls;
    SameOriginExactlyWhen(a, b);
    TrimmedOrigin(a);
    TrimmedOrigin(b);
  }

  /** It does happen, to every URL that ends in a port with room for one more character. */
  lemma SpaceBehindPortIsIgnored(url: string)
    requires HasPort(url) && AuthorityEnd(url) == |url| && |url| - PortStart(url) < MAX_PORT && !SpacedPort(url)
    ensures DifferInSpaces(url + " ", url) && SameOrigin(url + " ", url) && !EqualOrigins(url + " ", url)
  {
    var spaced, colon, host := url + " ", SchemeEnd(url), HostEnd(url);
    PortCharacters(url);
    assert forall k | 0 <= k < |url| :: spaced[k] == url[k];
    PartsByPosition(spaced, colon, host, |spaced|);
    assert HostEnd(spaced) == host;
    assert spaced[..|url|] == url && url[..|url|] == url && spaced[..|spaced|] == spaced;
    assert PortEnd(spaced, |url|) == |url|;
    hide StrGetUrlOriginSpec, HasAuthority, Trim;
    TrimmedOrigin(spaced);
    TrimmedOrigin(url);
    SameOriginExactlyWhen(spaced, url);
  }

  lemma PortCharacters(url: string)
    requires HasPort(url)
    ensures
      var colon, host := SchemeEnd(url), HostEnd(url);
      && url[colon] == ':' && url[colon + 1] == '/' && url[colon + 2] == '/'
      && url[host] == ':' && PortStart(url) == host + 1
      && (forall k | host <= k < AuthorityEnd(url) :: url[k] != '/')
  {
    AuthorityChars(url);
  }

  lemma SpacedPortIsEquated()
    ensures SameOrigin("http://h:8 ", "http://h:8") && !EqualOrigins("http://h:8 ", "http://h:8")
  {
    var url := "http://h:8";
    PartsByPosition(url, 4, 8, 10);
    assert url + " " == "http://h:8 ";
    hide StrGetUrlOriginSpec, HasAuthority, Trim, SameOrigin;
    SpaceBehindPortIsIgnored(url);
  }

  predicate InEqualBoundaries(url: string, appUri: string, boundaries: seq<string>) {
    EqualOrigins(url, appUri) || exists i | 0 <= i < |boundaries| :: EqualOrigins(url, boundaries[i])
  }

  /**
   * `CheckBoundaries` holds exactly when the application URI or some boundary has an equal origin, unless no origin is
   * equal and one differs in the white space behind a port alone.
   */
  lemma BoundariesAreCheckedExactlyWhen(url: string, appUri: string, boundaries: seq<string>)
    ensures
      (InBoundaries(url, appUri, boundaries) <==> InEqualBoundaries(url, appUri, boundaries))
      <==> InEqualBoundaries(url, appUri, boundaries)
           || !(DifferInSpaces(url, appUri) || exists i | 0 <= i < |boundaries| :: DifferInSpaces(url, boundaries[i]))
  {
    hide EqualOrigins, DifferInSpaces, SameOrigin;
    ComparisonIsEqualityExactlyWhen(url, appUri);
    EqualImpliesSame(url, appUri);
    forall i | 0 <= i < |boundaries|
      ensures (SameOrigin(url, boundaries[i]) <==> EqualOrigins(url, boundaries[i])) <==>
              !DifferInSpaces(url, boundaries[i])
      ensures EqualOrigins(url, boundaries[i]) ==> SameOrigin(url, boundaries[i])
    {
      ComparisonIsEqualityExactlyWhen(url, boundaries[i]);
      EqualImpliesSame(url, boundaries[i]);
    }
  }

  lemma EqualImpliesSame(a: string, b: string)
    ensures EqualOrigins(a, b) ==> SameOrigin(a, b)
  {
    hide StrGetUrlOriginSpec, Unspaced, CompareUrls;
    SameOriginExactlyWhen(a, b);
    TrimmedOrigin(a);
    TrimmedOrigin(b);
  }
}
