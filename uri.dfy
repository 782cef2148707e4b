/**
 * `parse_uri` (proxy.c:157-186): splits an absolute-form request-target
 * "http://host[:port][/path]" (section 5.3.2 of RFC 7230, http scheme only)
 * into host, port and path. The scheme is matched without regard to case,
 * the port is not checked for digits, and the port and path default to "80"
 * and "/".
 */
module UriParser {
  import opened Basics
  import opened Text

  /** What `parse_uri` fills its `host`, `port` and `path` buffers with. */
  datatype Target = Target(host: string, port: string, path: string)

  /** Longest port `parse_uri` copies: its buffer holds 15 characters and the NUL. */
  const MaxPort: nat := 15

  /** The character `*p` reads at position i of a C string: NUL past its end. */
  function At(s: string, i: nat): char
  {
    if i < |s| then s[i] else '\0'
  }

  /** `strncasecmp(p, "http://", 7) == 0`. */
  predicate HasHttpScheme(uri: string)
  {
    |uri| >= 7 && EqualsIgnoreCase(uri[..7], "http://")
  }

  /**
   * How many characters a copy loop of `parse_uri` takes from position i:
   * it stops at NUL, at a character of `stops`, or after `limit` characters.
   */
  function Span(s: string, i: nat, stops: set<char>, limit: nat): (n: nat)
    ensures n <= limit && (n > 0 ==> i + n <= |s|)
    decreases |s| - i
  {
    if limit == 0 || At(s, i) == '\0' || At(s, i) in stops then 0 else 1 + Span(s, i + 1, stops, limit - 1)
  }

  /** A copy loop takes only characters that are neither NUL nor stops. */
  lemma {:induction false} SpanChars(s: string, i: nat, stops: set<char>, limit: nat)
    ensures var n := Span(s, i, stops, limit);
      forall j :: i <= j < i + n ==> At(s, j) != '\0' && At(s, j) !in stops
    decreases |s| - i
  {
    if !(limit == 0 || At(s, i) == '\0' || At(s, i) in stops) {
      SpanChars(s, i + 1, stops, limit - 1);
    }
  }

  /** A copy loop that takes fewer than `limit` characters stopped at NUL or a stop character. */
  lemma {:induction false} SpanStop(s: string, i: nat, stops: set<char>, limit: nat)
    ensures var n := Span(s, i, stops, limit);
      n < limit ==> At(s, i + n) == '\0' || At(s, i + n) in stops
    decreases |s| - i
  {
    if !(limit == 0 || At(s, i) == '\0' || At(s, i) in stops) {
      SpanStop(s, i + 1, stops, limit - 1);
    }
  }

  /** The characters the host loop stops at, besides NUL. */
  const HostStops: set<char> := {':', '/'}
  /** The character the port loop stops at, besides NUL. */
  const PortStops: set<char> := {'/'}
  /** The path loop stops only at NUL. */
  const PathStops: set<char> := {}

  /** The port `parse_uri` fills in when the host ends at position e. */
  function PortAt(uri: string, e: nat): string
  {
    if At(uri, e) == ':' then uri[e + 1..e + 1 + Span(uri, e + 1, PortStops, MaxPort)] else "80"
  }

  /** Where the port, if any, ends when the host ends at position e. */
  function PortEnd(uri: string, e: nat): (q: nat)
    ensures q >= e
  {
    if At(uri, e) == ':' then e + 1 + Span(uri, e + 1, PortStops, MaxPort) else e
  }

  /** The path `parse_uri` fills in when the port ends at position q. */
  function PathAt(uri: string, q: nat): string
  {
    if At(uri, q) == '/' then uri[q..q + Span(uri, q, PathStops, MaxLine)] else "/"
  }

  /** What `parse_uri` reports for a request-target: None for its -1 result. */
  function ParsedUri(uri: string): Option<Target>
  {
    if !HasHttpScheme(uri) then None
    else
      var e := 7 + Span(uri, 7, HostStops, MaxLine);
      if e == 7 then None
      else Some(Target(uri[7..e], PortAt(uri, e), PathAt(uri, PortEnd(uri, e))))
  }

  /** On a matching scheme and a non-empty host ending at e, the parse is the three parts located from e. */
  lemma {:induction false} ParsedParts(uri: string, e: nat)
    requires HasHttpScheme(uri) && e == 7 + Span(uri, 7, HostStops, MaxLine) && e > 7
    ensures ParsedUri(uri) == Some(Target(uri[7..e], PortAt(uri, e), PathAt(uri, PortEnd(uri, e))))
  {
  }

  /**
   * One copy loop of `parse_uri` (proxy.c:164, 172, 180): characters are
   * copied from position p until NUL, a character of `stops`, or `limit` of
   * them; answers the copy and the position after it.
   */
  method CopyRun(uri: string, p: nat, stops: set<char>, limit: nat) returns (run: string, p': nat)
    requires p <= |uri|
    ensures run == uri[p..p + Span(uri, p, stops, limit)] && p' == p + |run| && p' <= |uri|
  {
    run, p' := [], p;
    var i: nat := 0;
    while At(uri, p') != '\0' && At(uri, p') !in stops && i < limit
      invariant p' == p + i && i <= limit && p' <= |uri|
      invariant run == uri[p..p']
      invariant Span(uri, p, stops, limit) == i + Span(uri, p', stops, limit - i)
      decreases limit - i
    {
      run := run + [At(uri, p')];
      i, p' := i + 1, p' + 1;
    }
  }

  /**
   * `parse_uri` (proxy.c:157-186): 0 with the three parts, or -1; on -1 the
   * buffers hold nothing the caller reads.
   */
  method ParseUri(uri: string) returns (rc: int, host: string, port: string, path: string)
    ensures rc == 0 || rc == -1
    ensures rc == -1 <==> ParsedUri(uri).None?
    ensures rc == 0 ==> ParsedUri(uri) == Some(Target(host, port, path))
  {
    host, port, path := [], [], [];
    if !HasHttpScheme(uri) {
      return -1, host, port, path;
    }
    var p: nat;
    host, p := CopyRun(uri, 7, HostStops, MaxLine);
    if |host| == 0 {
      return -1, host, port, path;
    }
    ghost var e := p;
    if At(uri, p) == ':' {
      port, p := CopyRun(uri, p + 1, PortStops, MaxPort);
    } else {
      port := "80";
    }
    assert port == PortAt(uri, e) && p == PortEnd(uri, e);
    if At(uri, p) == '/' {
      path, p := CopyRun(uri, p, PathStops, MaxLine);
    } else {
      path := "/";
    }
    assert path == PathAt(uri, PortEnd(uri, e));
    ParsedParts(uri, e);
    rc := 0;
  }

  /** A run of characters that are neither NUL nor stops, followed by a stop, NUL or the end, is what a copy loop takes. */
  lemma {:induction false} SpanOf(s: string, i: nat, stops: set<char>, limit: nat, w: string)
    requires i + |w| <= |s| && s[i..i + |w|] == w && |w| <= limit
    requires forall c :: c in w ==> c != '\0' && c !in stops
    requires |w| < limit ==> At(s, i + |w|) == '\0' || At(s, i + |w|) in stops
    ensures Span(s, i, stops, limit) == |w|
    decreases |w|
  {
    if w != [] {
      assert s[i] == w[0] && w[0] in w;
      assert s[i + 1..i + 1 + |w[1..]|] == w[1..];
      assert forall c :: c in w[1..] ==> c in w;
      SpanOf(s, i + 1, stops, limit - 1, w[1..]);
    }
  }

  /** Text holding neither NUL nor a character of `stops`. */
  predicate Clean(w: string, stops: set<char>)
  {
    forall c :: c in w ==> c != '\0' && c !in stops
  }

  /** The text a copy loop takes holds neither NUL nor a stop character. */
  lemma {:induction false} SpanText(s: string, i: nat, stops: set<char>, limit: nat)
    requires i <= |s|
    ensures Clean(s[i..i + Span(s, i, stops, limit)], stops)
  {
    var w := s[i..i + Span(s, i, stops, limit)];
    SpanChars(s, i, stops, limit);
    forall j | 0 <= j < |w| ensures w[j] != '\0' && w[j] !in stops {
      assert At(s, i + j) == w[j];
    }
  }

  /**
   * `parse_uri` fails exactly when the scheme is not "http://" in some case,
   * or nothing of the host precedes ':', '/' or the end.
   */
  lemma {:induction false} ParseFails(uri: string)
    ensures ParsedUri(uri).None? <==> !HasHttpScheme(uri) || At(uri, 7) == '\0' || At(uri, 7) == ':' || At(uri, 7) == '/'
  {
  }

  /** The host runs from position 7 to the first ':', '/' or NUL, unless the buffer fills first. */
  lemma {:induction false} HostFacts(uri: string, e: nat)
    requires e == 7 + Span(uri, 7, HostStops, MaxLine) && e <= |uri|
    ensures var h := uri[7..e]; ':' !in h && '/' !in h && '\0' !in h
    ensures e - 7 < MaxLine ==> At(uri, e) == '\0' || At(uri, e) == ':' || At(uri, e) == '/'
  {
    SpanText(uri, 7, HostStops, MaxLine);
    SpanStop(uri, 7, HostStops, MaxLine);
    assert ':' in HostStops && '/' in HostStops;
  }

  /** After a ':', the port is at most 15 characters up to the next '/' or NUL. */
  lemma {:induction false} PortFacts(uri: string, e: nat)
    requires At(uri, e) == ':'
    ensures var pt := PortAt(uri, e);
      |pt| <= MaxPort && e + 1 + |pt| <= |uri| && uri[e + 1..e + 1 + |pt|] == pt && '/' !in pt && '\0' !in pt &&
      PortEnd(uri, e) == e + 1 + |pt|
  {
    SpanText(uri, e + 1, PortStops, MaxPort);
    assert '/' in PortStops;
  }

  /** The path is "/" or the rest of the request-target from a '/'; either way it starts with '/'. */
  lemma {:induction false} PathFacts(uri: string, q: nat)
    ensures var r := PathAt(uri, q); |r| > 0 && r[0] == '/' && '\0' !in r
    ensures At(uri, q) == '/' ==> PathAt(uri, q) == uri[q..q + Span(uri, q, PathStops, MaxLine)]
  {
    if At(uri, q) == '/' {
      SpanText(uri, q, PathStops, MaxLine);
      assert Span(uri, q, PathStops, MaxLine) == 1 + Span(uri, q + 1, PathStops, MaxLine - 1);
    }
  }

  /**
   * On success: the scheme matched, the host is the non-empty text after it
   * up to the first ':', '/' or end, free of those; the port is "80" unless
   * a ':' follows the host, and then what follows up to '/', at most 15
   * characters; the path begins with '/' and is "/" unless a '/' follows.
   */
  lemma {:induction false} ParseSucceeds(uri: string)
    requires ParsedUri(uri).Some?
    ensures var t := ParsedUri(uri).value; var e := 7 + |t.host|;
      HasHttpScheme(uri) &&
      |t.host| > 0 && e <= |uri| && uri[7..e] == t.host && ':' !in t.host && '/' !in t.host && '\0' !in t.host &&
      (|t.host| < MaxLine ==> At(uri, e) == '\0' || At(uri, e) == ':' || At(uri, e) == '/') &&
      (At(uri, e) != ':' ==> t.port == "80") &&
      (At(uri, e) == ':' ==> |t.port| <= MaxPort && uri[e + 1..e + 1 + |t.port|] == t.port && '/' !in t.port) &&
      |t.path| > 0 && t.path[0] == '/' && '\0' !in t.path
  {
    var e := 7 + Span(uri, 7, HostStops, MaxLine);
    ParsedParts(uri, e);
    HostFacts(uri, e);
    if At(uri, e) == ':' {
      PortFacts(uri, e);
    }
    PathFacts(uri, PortEnd(uri, e));
  }

  /** A host as `parse_uri` takes it: non-empty, within the buffer, without ':', '/' or NUL. */
  predicate IsHost(h: string)
  {
    0 < |h| <= MaxLine && ':' !in h && '/' !in h && '\0' !in h
  }

  /** A path as `parse_uri` takes it: empty (absent) or starting with '/', within the buffer, without NUL. */
  predicate IsPath(q: string)
  {
    |q| <= MaxLine && (q == [] || q[0] == '/') && '\0' !in q
  }

  /** The request-target built from its parts; the port is written only when given. */
  function Compose(h: string, port: Option<string>, q: string): string
  {
    "http://" + h + (match port case None => "" case Some(pt) => ":" + pt) + q
  }

  /**
   * Parsing a composed request-target returns its parts, with the port
   * defaulted to "80" and the path to "/": the two are inverse on
   * well-formed parts and ports of at most 15 characters without '/'.
   */
  lemma {:induction false} ParseCompose(h: string, port: Option<string>, q: string)
    requires IsHost(h) && IsPath(q)
    requires port.Some? ==> |port.value| <= MaxPort && '/' !in port.value && '\0' !in port.value
    ensures ParsedUri(Compose(h, port, q)) ==
      Some(Target(h, if port.Some? then port.value else "80", if q == [] then "/" else q))
  {
    var mid := match port case None => "" case Some(pt) => ":" + pt;
    var uri := Compose(h, port, q);
    var e := 7 + |h|;
    var qpos := e + |mid|;
    assert uri == "http://" + h + mid + q;
    HostOf(h, mid + q);
    assert uri == "http://" + h + (mid + q);
    ParsedParts(uri, e);
    if port.Some? {
      PortOf(uri, e, port.value, q);
    } else {
      assert At(uri, e) != ':' by { if e < |uri| { assert uri[e] == q[0]; } }
    }
    assert PortEnd(uri, e) == qpos;
    PathOf(uri, qpos, q);
  }

  /** The host of "http://" + h + rest is h when rest begins with ':', '/' or nothing; the scheme matches. */
  lemma {:induction false} HostOf(h: string, rest: string)
    requires IsHost(h)
    requires rest == [] || rest[0] == ':' || rest[0] == '/'
    ensures var uri := "http://" + h + rest;
      HasHttpScheme(uri) && Span(uri, 7, HostStops, MaxLine) == |h| && uri[7..7 + |h|] == h
  {
    var uri := "http://" + h + rest;
    assert uri[..7] == "http://";
    assert uri[7..7 + |h|] == h;
    assert |h| < MaxLine ==> At(uri, 7 + |h|) == '\0' || At(uri, 7 + |h|) in HostStops by {
      if 7 + |h| < |uri| { assert uri[7 + |h|] == rest[0]; }
    }
    SpanOf(uri, 7, HostStops, MaxLine, h);
  }

  /** A port of at most 15 characters after the ':' at e, followed by a path or nothing, is read whole. */
  lemma {:induction false} PortOf(uri: string, e: nat, pt: string, q: string)
    requires |pt| <= MaxPort && '/' !in pt && '\0' !in pt && IsPath(q)
    requires e <= |uri| && uri[e..] == ":" + pt + q
    ensures At(uri, e) == ':' && PortAt(uri, e) == pt && PortEnd(uri, e) == e + 1 + |pt|
  {
    assert uri[e] == uri[e..][0];
    assert uri[e + 1..e + 1 + |pt|] == pt by {
      forall j | 0 <= j < |pt| ensures uri[e + 1 + j] == pt[j] { assert uri[e + 1 + j] == uri[e..][1 + j]; }
    }
    assert |pt| < MaxPort ==> At(uri, e + 1 + |pt|) == '\0' || At(uri, e + 1 + |pt|) in PortStops by {
      if e + 1 + |pt| < |uri| { assert uri[e + 1 + |pt|] == uri[e..][1 + |pt|] == q[0]; }
    }
    SpanOf(uri, e + 1, PortStops, MaxPort, pt);
  }

  /** The path read at the end of a request-target is what remains there, or "/" when nothing does. */
  lemma {:induction false} PathOf(uri: string, qpos: nat, q: string)
    requires IsPath(q) && qpos <= |uri| && uri[qpos..] == q
    ensures PathAt(uri, qpos) == if q == [] then "/" else q
  {
    if q != [] {
      assert At(uri, qpos) == '/' by { assert uri[qpos] == uri[qpos..][0]; }
      assert uri[qpos..qpos + |q|] == q;
      SpanOf(uri, qpos, PathStops, MaxLine, q);
    } else {
      assert At(uri, qpos) == '\0';
    }
  }

  /**
   * A port longer than 15 characters is cut after 15, and since the
   * character after them is not '/', the path is dropped for "/".
   */
  lemma {:induction false} LongPortDropsPath(h: string, pt: string, q: string)
    requires IsHost(h) && IsPath(q)
    requires |pt| > MaxPort && '/' !in pt && '\0' !in pt
    ensures ParsedUri(Compose(h, Some(pt), q)) == Some(Target(h, pt[..MaxPort], "/"))
  {
    var uri := Compose(h, Some(pt), q);
    var e := 7 + |h|;
    HostOf(h, ":" + pt + q);
    assert uri == "http://" + h + (":" + pt + q);
    ParsedParts(uri, e);
    PortCut(uri, e, pt, q);
  }

  /** After the ':' at e, a port longer than 15 characters is cut after 15, and a port character, not '/', follows the cut. */
  lemma {:induction false} PortCut(uri: string, e: nat, pt: string, q: string)
    requires |pt| > MaxPort && '/' !in pt && '\0' !in pt
    requires e <= |uri| && uri[e..] == ":" + pt + q
    ensures At(uri, e) == ':' && PortAt(uri, e) == pt[..MaxPort] && PathAt(uri, PortEnd(uri, e)) == "/"
  {
    assert At(uri, e) == ':' by { assert uri[e] == uri[e..][0]; }
    var w := pt[..MaxPort];
    assert uri[e + 1..e + 1 + MaxPort] == w by {
      forall j | 0 <= j < MaxPort ensures uri[e + 1 + j] == w[j] { assert uri[e + 1 + j] == uri[e..][1 + j]; }
    }
    assert forall c :: c in w ==> c in pt;
    SpanOf(uri, e + 1, PortStops, MaxPort, w);
    assert At(uri, e + 1 + MaxPort) == pt[MaxPort] by {
      assert uri[e + 1 + MaxPort] == uri[e..][1 + MaxPort];
    }
    assert pt[MaxPort] in pt;
  }
}
