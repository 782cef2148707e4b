/**
 * `serve_client` (proxy.c:188-265): one client connection. The request line
 * is read and classified, a rejected request is answered with an error page,
 * a cached object is written back as it is stored, and otherwise the origin
 * server is dialled, sent a rewritten request, and its reply relayed to the
 * client while a copy is collected for the cache. The client's input is a
 * string and the origin is a parameter: whether it can be reached and the
 * successive results of its reads.
 */
module Relay {
  import opened Basics
  import opened Text
  import S = CacheSpec
  import opened UriParser
  import opened Messages
  import ObjectCache

  /**
   * How many characters `rio_readlineb` takes from s when it may store
   * `room` of them: up to and including the first newline, at most `room`.
   */
  function LineLen(s: string, room: nat): (n: nat)
    ensures n <= room && n <= |s|
    ensures n == 0 <==> s == [] || room == 0
    decreases |s|
  {
    if s == [] || room == 0 then 0
    else if s[0] == '\n' then 1
    else 1 + LineLen(s[1..], room - 1)
  }

  /** The request line `rio_readlineb(&client_rio, qline, MAXLINE)` stores (proxy.c:193-194); empty at end of input. */
  function ReadLine(input: string): (line: string)
    ensures |line| < MaxLine && |line| <= |input| && line == input[..|line|]
    ensures line == [] <==> input == []
  {
    input[..LineLen(input, MaxLine - 1)]
  }

  /** A line ending in a newline within the buffer is read whole, the newline included. */
  lemma {:induction false} LineOf(l: string, rest: string, room: nat)
    requires '\n' !in l && |l| < room
    ensures LineLen(l + "\n" + rest, room) == |l| + 1
    decreases |l|
  {
    var s := l + "\n" + rest;
    if l == [] {
      assert s[0] == '\n';
    } else {
      assert s[0] == l[0] && l[0] in l;
      assert s[1..] == l[1..] + "\n" + rest;
      assert forall c :: c in l[1..] ==> c in l;
      LineOf(l[1..], rest, room - 1);
    }
  }

  /** The four error pages `serve_client` can send (proxy.c:199, 205, 212, 231). */
  datatype Failure = BadRequestLine | NotImplemented | MalformedUri | BadGateway

  /** The status code of an error page. */
  function ErrNum(f: Failure): string
  {
    match f
    case BadRequestLine => "400"
    case NotImplemented => "501"
    case MalformedUri => "400"
    case BadGateway => "502"
  }

  /** The reason phrase of an error page. */
  function ShortMsg(f: Failure): string
  {
    match f
    case BadRequestLine => "Bad Request"
    case NotImplemented => "Not Implemented"
    case MalformedUri => "Bad Request"
    case BadGateway => "Bad Gateway"
  }

  /** The explanation on an error page. */
  function LongMsg(f: Failure): string
  {
    match f
    case BadRequestLine => "Cannot parse request line"
    case NotImplemented => "Proxy only supports GET"
    case MalformedUri => "Malformed URI"
    case BadGateway => "Cannot connect to server"
  }

  /** An error page `clienterror` is asked to send, with the text that caused it. */
  datatype Error = Error(failure: Failure, cause: string)

  /** How `serve_client` classifies what the client sent. */
  datatype Verdict =
    | NoRequest                          // end of input before a request line
    | Reject(error: Error)               // answered with an error page
    | Proxy(uri: string, target: Target) // forwarded or served from the cache

  /**
   * The checks of proxy.c:193-214: the request line needs three fields, a
   * method equal to GET without regard to case, and a request-target
   * `parse_uri` accepts; the request-target is the cache key.
   */
  function Classify(input: string): Verdict
  {
    var qline := CStr(ReadLine(input));
    var fields := Words(qline);
    if input == [] then NoRequest
    else if |fields| < 3 then Reject(Error(BadRequestLine, qline))
    else if !EqualsIgnoreCase(fields[0], "GET") then Reject(Error(NotImplemented, fields[0]))
    else match ParsedUri(fields[1])
      case None => Reject(Error(MalformedUri, fields[1]))
      case Some(t) => Proxy(fields[1], t)
  }

  /** The bytes `clienterror` writes to the client for an error. */
  function ErrorReply(e: Error): seq<byte>
  {
    Encode(ClientError(e.cause, ErrNum(e.failure), ShortMsg(e.failure), LongMsg(e.failure)))
  }

  /**
   * The origin server as the proxy meets it: `open_clientfd` fails, or it
   * connects and `rio_readnb` returns the given chunks in turn; an empty chunk
   * stands for end of file or an error, and so does running out of chunks.
   */
  datatype Origin = Unreachable | Reply(chunks: seq<seq<byte>>)

  /** The connection `open_clientfd` was asked for. */
  datatype Dial = Dial(host: string, port: string)

  /** What one connection does: the bytes sent to the client, the origin dialled if any, the request sent to it. */
  datatype Exchange = Exchange(reply: seq<byte>, dial: Option<Dial>, request: string)

  /** An exchange and the cache contents after it. */
  datatype Outcome = Outcome(x: Exchange, after: seq<S.Entry>)

  /** The chunks the stream loop consumes: those before the first empty one. */
  function Live(chunks: seq<seq<byte>>): (r: seq<seq<byte>>)
    ensures |r| <= |chunks| && r == chunks[..|r|]
    ensures forall j :: 0 <= j < |r| ==> |r[j]| > 0
    ensures |r| < |chunks| ==> |chunks[|r|]| == 0
  {
    if chunks == [] || |chunks[0]| == 0 then [] else [chunks[0]] + Live(chunks[1..])
  }

  /** The chunks concatenated, in order. */
  function Flatten(cs: seq<seq<byte>>): seq<byte>
  {
    if cs == [] then [] else Flatten(cs[..|cs| - 1]) + cs[|cs| - 1]
  }

  /**
   * How many of the chunks the stream loop copies into the object buffer: all
   * of them when they fit in MaxObjectSize together, otherwise those before
   * the first chunk that would overflow it.
   */
  function FitCount(cs: seq<seq<byte>>): (k: nat)
    ensures k <= |cs| && |Flatten(cs[..k])| <= MaxObjectSize
    ensures k < |cs| ==> |Flatten(cs[..k + 1])| > MaxObjectSize
    ensures k == |cs| <==> |Flatten(cs)| <= MaxObjectSize
  {
    if |Flatten(cs)| <= MaxObjectSize then
      assert cs[..|cs|] == cs;
      |cs|
    else
      var init := cs[..|cs| - 1];
      assert forall j :: 0 <= j <= |init| ==> init[..j] == cs[..j];
      assert cs[..|cs|] == cs;
      FitCount(init)
  }

  /** `memcpy(obj + tot, buf, n)` (proxy.c:251): the bytes of n are placed after the first `at` bytes of the buffer. */
  method Copy(buf: array<byte>, at: nat, n: seq<byte>)
    requires at + |n| <= buf.Length
    modifies buf
    ensures buf[..at + |n|] == old(buf[..at]) + n
    ensures buf[at + |n|..] == old(buf[at + |n|..])
  {
    forall k | 0 <= k < |n| {
      buf[at + k] := n[k];
    }
  }

  /**
   * The stream loop after i of the chunks: `reply` holds all of them, `copied`
   * those FitCount admits, and the object is still cacheable exactly when
   * all of them were copied.
   */
  ghost predicate Progress(live: seq<seq<byte>>, i: nat, reply: seq<byte>, copied: seq<byte>, cacheable: bool)
  {
    i <= |live| && reply == Flatten(live[..i]) && copied == Flatten(live[..FitCount(live[..i])]) &&
    (cacheable <==> FitCount(live[..i]) == i)
  }

  /**
   * One round of the stream loop keeps Progress: the chunk is relayed, and
   * copied exactly when the object is still cacheable and the chunk fits.
   */
  lemma {:induction false} ProgressStep(live: seq<seq<byte>>, i: nat, reply: seq<byte>, copied: seq<byte>, cacheable: bool,
                                        reply': seq<byte>, copied': seq<byte>, cacheable': bool)
    requires Progress(live, i, reply, copied, cacheable) && i < |live|
    requires reply' == reply + live[i]
    requires var fits := cacheable && |copied| + |live[i]| <= MaxObjectSize;
      copied' == (if fits then copied + live[i] else copied) && cacheable' == (cacheable && fits)
    ensures Progress(live, i + 1, reply', copied', cacheable')
  {
    FitStep(live, i);
  }

  /**
   * The stream loop of proxy.c:238-259: every read is relayed to the client;
   * while the object is cacheable a read is appended to the object buffer if
   * it still fits and otherwise the object stops being cacheable for good.
   * Answers the bytes relayed, the buffer's contents and the flag.
   */
  method Stream(chunks: seq<seq<byte>>) returns (reply: seq<byte>, obj: seq<byte>, cacheable: bool)
    ensures reply == Flatten(Live(chunks))
    ensures cacheable <==> |reply| <= MaxObjectSize
    ensures cacheable ==> obj == reply
    ensures obj == Flatten(Live(chunks)[..FitCount(Live(chunks))]) && |obj| <= MaxObjectSize
  {
    ghost var live := Live(chunks);
    var buf := new byte[MaxObjectSize];
    var tot: nat := 0;
    cacheable := true;
    reply := [];
    var i := 0;
    assert live[..0] == [];
    while i < |chunks| && |chunks[i]| > 0
      invariant tot <= buf.Length == MaxObjectSize
      invariant Progress(live, i, reply, buf[..tot], cacheable)
      decreases |chunks| - i
    {
      var n := chunks[i];
      assert i < |live| && n == live[i];
      ghost var reply0, copied0, cacheable0 := reply, buf[..tot], cacheable;
      reply := reply + n;
      if cacheable {
        if tot + |n| <= MaxObjectSize {
          Copy(buf, tot, n);
          tot := tot + |n|;
        } else {
          cacheable := false;
        }
      }
      ProgressStep(live, i, reply0, copied0, cacheable0, reply, buf[..tot], cacheable);
      i := i + 1;
    }
    assert live[..i] == live;
    obj := buf[..tot];
  }

  /** The request of a client whose verdict is Proxy(uri, t), once the cache has missed. */
  function Forward(contents: seq<S.Entry>, uri: string, t: Target, origin: Origin): Outcome
  {
    match origin
    case Unreachable =>
      Outcome(Exchange(ErrorReply(Error(BadGateway, t.host)), Some(Dial(t.host, t.port)), ""), contents)
    case Reply(chunks) =>
      var body := Flatten(Live(chunks));
      Outcome(Exchange(body, Some(Dial(t.host, t.port)), BuildRequest(t.host, t.path)),
              if |body| <= MaxObjectSize && |body| > 0 then S.Put(contents, uri, body) else contents)
  }

  /** What `serve_client` does for a client input against an origin, starting from the cache contents given. */
  function Serve(contents: seq<S.Entry>, input: string, origin: Origin): Outcome
  {
    match Classify(input)
    case NoRequest => Outcome(Exchange([], None, ""), contents)
    case Reject(e) => Outcome(Exchange(ErrorReply(e), None, ""), contents)
    case Proxy(uri, t) => Proxied(contents, uri, t, origin)
  }

  /** A request for `uri` at target t: served from the cache on a hit, forwarded on a miss. */
  function Proxied(contents: seq<S.Entry>, uri: string, t: Target, origin: Origin): Outcome
  {
    var g := S.Get(contents, uri);
    if g.hit then Outcome(Exchange(g.out, None, ""), g.after)
    else Forward(contents, uri, t, origin)
  }

  /**
   * The request handling of `serve_client` up to parse_uri (proxy.c:193-214):
   * reads the request line, splits it with "%s %s %s", checks the method and
   * parses the request-target.
   */
  method ReadRequest(input: string) returns (v: Verdict)
    ensures v == Classify(input)
  {
    var qline := ReadLine(input);
    if |qline| == 0 {
      return NoRequest;
    }
    var fields := Words(CStr(qline));
    if |fields| < 3 {
      return Reject(Error(BadRequestLine, CStr(qline)));
    }
    var verb, uri := fields[0], fields[1];
    if !EqualsIgnoreCase(verb, "GET") {
      return Reject(Error(NotImplemented, verb));
    }
    var rc, host, port, path := ParseUri(uri);
    if rc < 0 {
      return Reject(Error(MalformedUri, uri));
    }
    v := Proxy(uri, Target(host, port, path));
  }

  /**
   * `serve_client` (proxy.c:188-265) on the shared cache: its exchange and
   * the cache it leaves are those Serve gives for the cache it found.
   */
  method ServeClient(cache: ObjectCache.Cache, input: string, origin: Origin) returns (x: Exchange)
    requires cache.Valid()
    modifies cache
    ensures cache.Valid()
    ensures Serve(old(cache.contents), input, origin) == Outcome(x, cache.contents)
  {
    ghost var before := cache.contents;
    var v := ReadRequest(input);
    if v.NoRequest? {
      return Exchange([], None, "");
    }
    if v.Reject? {
      return Exchange(ErrorReply(v.error), None, "");
    }
    var uri, host, port, path := v.uri, v.target.host, v.target.port, v.target.path;
    assert Serve(before, input, origin) == Proxied(before, uri, v.target, origin);
    var hit, cached, cachedLen := cache.Get(uri);
    if hit {
      assert cached[..cachedLen] == cached;
      return Exchange(cached[..cachedLen], None, "");
    }
    assert Proxied(before, uri, v.target, origin) == Forward(before, uri, v.target, origin);
    if origin.Unreachable? {
      return Exchange(ErrorReply(Error(BadGateway, host)), Some(Dial(host, port)), "");
    }
    var request := BuildRequest(host, path);
    var reply, obj, cacheable := Stream(origin.chunks);
    if cacheable && |obj| > 0 {
      cache.Put(uri, obj);
    }
    x := Exchange(reply, Some(Dial(host, port)), request);
  }

  /**
   * Once a chunk has overflowed the object buffer, later chunks change
   * nothing: the copied count of a longer stream is that of its prefix.
   */
  lemma {:induction false} FitLatches(cs: seq<seq<byte>>, j: nat)
    requires j <= |cs| && FitCount(cs[..j]) < j
    ensures FitCount(cs) == FitCount(cs[..j])
    decreases |cs| - j
  {
    if j < |cs| {
      FitStep(cs, j);
      FitLatches(cs, j + 1);
    } else {
      assert cs[..j] == cs;
    }
  }

  /** One more chunk: the stream grows by it, and the copied count grows exactly when everything so far fit and it fits too. */
  lemma {:induction false} FitStep(cs: seq<seq<byte>>, i: nat)
    requires i < |cs|
    ensures Flatten(cs[..i + 1]) == Flatten(cs[..i]) + cs[i]
    ensures FitCount(cs[..i]) == i && |Flatten(cs[..i])| + |cs[i]| <= MaxObjectSize ==> FitCount(cs[..i + 1]) == i + 1
    ensures !(FitCount(cs[..i]) == i && |Flatten(cs[..i])| + |cs[i]| <= MaxObjectSize) ==> FitCount(cs[..i + 1]) == FitCount(cs[..i])
  {
    var b := cs[..i + 1];
    assert b[..i] == cs[..i] && b[i] == cs[i];
    assert b[..i + 1] == b;
  }

  /**
   * A request line of three tokens (each without NUL, the line within the
   * buffer) ending in CRLF is split into those tokens: it is rejected with
   * 501 when the method is not GET, with 400 when `parse_uri` refuses the
   * request-target, and otherwise proxied with that request-target as key.
   */
  lemma {:induction false} ClassifyRequestLine(verb: string, uri: string, version: string, rest: string)
    requires IsWord(verb) && IsWord(uri) && IsWord(version)
    requires '\0' !in verb && '\0' !in uri && '\0' !in version
    requires |verb| + |uri| + |version| + 4 < MaxLine
    ensures Classify(verb + " " + uri + " " + version + "\r\n" + rest) ==
      if !EqualsIgnoreCase(verb, "GET") then Reject(Error(NotImplemented, verb))
      else match ParsedUri(uri)
        case None => Reject(Error(MalformedUri, uri))
        case Some(t) => Proxy(uri, t)
  {
    var ws := [verb, uri, version];
    var joined := verb + " " + uri + " " + version;
    assert JoinWords(ws) == joined by {
      assert ws[1..] == [uri, version] && ws[1..][1..] == [version];
      assert JoinWords([uri, version]) == uri + " " + version;
      assert JoinWords(ws) == verb + " " + (uri + " " + version);
    }
    var l := joined + "\r";
    var input := verb + " " + uri + " " + version + "\r\n" + rest;
    assert input == l + "\n" + rest;
    assert forall c :: c in l ==> c in verb || c in uri || c in version || c == ' ' || c == '\r';
    assert '\n' !in l && '\0' !in l;
    LineOf(l, rest, MaxLine - 1);
    var line := l + "\n";
    assert ReadLine(input) == line;
    assert line == joined + "\r\n";
    CStrPlain(line);
    assert forall c :: c in "\r\n" ==> IsSpace(c);
    assert forall i :: 0 <= i < |ws| ==> IsWord(ws[i]);
    WordsOfJoin(ws, "\r\n");
  }

  /**
   * The witness of the `clienterror` length bug (proxy.c:125-138): the line
   * "GET " + LongTarget() + " HTTP/1.0" fits every `sscanf` buffer and is
   * rejected by `parse_uri`, so its error page has the long target as cause.
   */
  lemma {:induction false} LongTargetRejected(contents: seq<S.Entry>, origin: Origin)
    ensures var input := "GET " + LongTarget() + " HTTP/1.0\r\n";
      Classify(input) == Reject(Error(MalformedUri, LongTarget())) &&
      Serve(contents, input, origin) == Outcome(Exchange(ErrorReply(Error(MalformedUri, LongTarget())), None, ""), contents)
  {
    var x := LongTarget();
    assert IsWord("GET") && IsWord("HTTP/1.0") && IsWord(x);
    assert '\0' !in "GET" && '\0' !in "HTTP/1.0" && '\0' !in x;
    assert EqualsIgnoreCase("GET", "GET");
    assert !HasHttpScheme(x) by {
      assert x[..7][0] == 'x';
    }
    ClassifyRequestLine("GET", x, "HTTP/1.0", "");
    assert "GET " + x + " HTTP/1.0\r\n" == "GET" + " " + x + " " + "HTTP/1.0" + "\r\n" + "";
  }

  /** The status code and reason phrase of every error page are well-formed header fields. */
  lemma {:induction false} FailureFields(f: Failure)
    ensures Field(ErrNum(f)) && Field(ShortMsg(f))
  {
    match f
    case BadRequestLine => assert Plain("Bad ") && Plain("Request") && "Bad Request" == "Bad " + "Request";
    case NotImplemented => assert Plain("Not ") && Plain("Implemented") && "Not Implemented" == "Not " + "Implemented";
    case MalformedUri => assert Plain("Bad ") && Plain("Request") && "Bad Request" == "Bad " + "Request";
    case BadGateway => assert Plain("Bad ") && Plain("Gateway") && "Bad Gateway" == "Bad " + "Gateway";
  }

  /** Every error page begins with the status line of its failure. */
  lemma {:induction false} ErrorPageStatus(e: Error)
    ensures var f := e.failure;
      Lines(ClientError(e.cause, ErrNum(f), ShortMsg(f), LongMsg(f)))[0] == "HTTP/1.0 " + ErrNum(f) + " " + ShortMsg(f)
  {
    FailureFields(e.failure);
    ClientErrorFrame(e.cause, ErrNum(e.failure), ShortMsg(e.failure), LongMsg(e.failure));
  }

  /**
   * A rejected request (proxy.c:196-214) is answered with the error page
   * alone: the 501 page exactly when the request line has three fields and
   * a method other than GET, and a 400 page otherwise. The origin is not
   * dialled and the cache is not touched.
   */
  lemma {:induction false} ServeRejects(contents: seq<S.Entry>, input: string, origin: Origin)
    requires Classify(input).Reject?
    ensures var e := Classify(input).error; var fields := Words(CStr(ReadLine(input)));
      Serve(contents, input, origin) == Outcome(Exchange(ErrorReply(e), None, ""), contents) &&
      (e.failure == NotImplemented <==> |fields| >= 3 && !EqualsIgnoreCase(fields[0], "GET")) &&
      (e.failure != NotImplemented ==> ErrNum(e.failure) == "400")
  {
  }

  /**
   * The origin is dialled (proxy.c:228) exactly for a proxied request the
   * cache misses, at the host and port `parse_uri` found; a request is sent
   * to it exactly when it could be reached, and it is the request
   * `build_request` makes for that host and path.
   */
  lemma {:induction false} ServeDials(contents: seq<S.Entry>, input: string, origin: Origin)
    ensures var v := Classify(input); var o := Serve(contents, input, origin);
      (o.x.dial.Some? <==> v.Proxy? && !S.Get(contents, v.uri).hit) &&
      (o.x.dial.Some? ==> o.x.dial.value == Dial(v.target.host, v.target.port)) &&
      (o.x.request != "" <==> o.x.dial.Some? && origin.Reply?) &&
      (o.x.request != "" ==> o.x.request == BuildRequest(v.target.host, v.target.path))
  {
    var v := Classify(input);
    if v.Proxy? {
      BuildRequestLength(v.target.host, v.target.path);
    }
  }

  /**
   * A proxied request whose key the cache holds (proxy.c:216-223) is
   * answered with exactly the stored bytes, without dialling, and the entry
   * becomes the most recently used.
   */
  lemma {:induction false} ServeHit(contents: seq<S.Entry>, input: string, origin: Origin, j: nat)
    requires S.Wellformed(contents) && Classify(input).Proxy?
    requires j < |contents| && contents[j].key == Classify(input).uri
    ensures Serve(contents, input, origin) == Outcome(Exchange(contents[j].obj, None, ""), S.Promote(contents, j))
  {
    S.GetMeaning(contents, Classify(input).uri);
  }

  /**
   * On a miss with a reachable origin (proxy.c:235-263) the client receives
   * exactly the bytes the origin sent before its first empty read, and the
   * cache becomes what `cache_put` makes of them: they are stored when
   * their size is within 1..MaxObjectSize, and the cache is left as it was
   * otherwise.
   */
  lemma {:induction false} ServeRelays(contents: seq<S.Entry>, input: string, chunks: seq<seq<byte>>)
    requires Classify(input).Proxy? && !S.Get(contents, Classify(input).uri).hit
    ensures var v := Classify(input); var o := Serve(contents, input, Reply(chunks));
      o.x.reply == Flatten(Live(chunks)) && o.after == S.Put(contents, v.uri, o.x.reply) &&
      (|o.x.reply| == 0 || |o.x.reply| > MaxObjectSize ==> o.after == contents)
  {
    var v := Classify(input);
    var body := Flatten(Live(chunks));
    if !(|body| <= MaxObjectSize && |body| > 0) {
      S.PutRejectsSize(contents, v.uri, body);
    }
  }

  /**
   * The request the proxy sends for a host and path without CR and within
   * the buffer consists of the line "GET path HTTP/1.0" and the line
   * "Host: host", followed by the fixed headers.
   */
  lemma {:induction false} ServeRequestLines(contents: seq<S.Entry>, input: string, chunks: seq<seq<byte>>)
    requires Classify(input).Proxy? && !S.Get(contents, Classify(input).uri).hit
    requires var t := Classify(input).target; '\r' !in t.host && '\r' !in t.path && 155 + |t.host| + |t.path| < MaxBuf
    ensures var t := Classify(input).target; var o := Serve(contents, input, Reply(chunks));
      Lines(o.x.request) == ["GET " + t.path + " HTTP/1.0", "Host: " + t.host] + Lines(UserAgentHeader + RequestTail)
  {
    var t := Classify(input).target;
    BuildRequestLength(t.host, t.path);
    RequestLines(t.host, t.path);
  }

  /** Serving a request keeps the cache invariant: distinct keys, objects and total within bounds. */
  lemma {:induction false} ServeWellformed(contents: seq<S.Entry>, input: string, origin: Origin)
    requires S.Wellformed(contents)
    ensures S.Wellformed(Serve(contents, input, origin).after)
  {
    var v := Classify(input);
    if v.Proxy? {
      S.GetWellformed(contents, v.uri);
      if origin.Reply? {
        S.PutWellformed(contents, v.uri, Flatten(Live(origin.chunks)));
      }
    }
  }

  /**
   * After a proxied request that was a hit, or a miss whose reply fit the
   * cache, the same request is served from the cache with the same bytes,
   * whatever the origin would now send, and leaves the cache as it was.
   */
  lemma {:induction false} ServeTwice(contents: seq<S.Entry>, input: string, first: Origin, second: Origin)
    requires S.Wellformed(contents) && Classify(input).Proxy?
    requires var o := Serve(contents, input, first);
      o.x.dial.None? || (first.Reply? && 0 < |o.x.reply| <= MaxObjectSize)
    ensures var o := Serve(contents, input, first); var o2 := Serve(o.after, input, second);
      o2 == Outcome(Exchange(o.x.reply, None, ""), o.after)
  {
    var uri := Classify(input).uri;
    var g := S.Get(contents, uri);
    if g.hit {
      S.GetTwice(contents, uri);
    } else {
      var body := Flatten(Live(first.chunks));
      S.GetAfterPut(contents, uri, body);
    }
  }
}
