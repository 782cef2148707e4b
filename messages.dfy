/**
 * The two messages the proxy composes itself: the HTTP/1.0 request it sends
 * to the origin (`build_request`, proxy.c:141-155) and the HTML error
 * response it sends to the client (`clienterror`, proxy.c:121-139). Both are
 * formatted by snprintf into a buffer of MaxBuf characters.
 */
module Messages {
  import opened Basics
  import opened Text

  /** `user_agent_hdr` (proxy.c:10): a complete header line with its CRLF. */
  const UserAgentHeader: string := "User-Agent: Mozilla/5.0 (X11; Linux x86_64; rv:10.0.3) Gecko/20120305 Firefox/10.0.3\r\n"

  /** The headers after User-Agent and the empty line that ends the request. */
  const RequestTail: string := "Connection: close\r\nProxy-Connection: close\r\n\r\n"

  /** Text holding neither NUL nor CR. */
  predicate Plain(s: string)
  {
    '\0' !in s && '\r' !in s
  }

  /**
   * What snprintf(buf, size, ...) leaves in buf for a text without NUL: the
   * text, cut to size - 1 characters when it does not fit.
   */
  function Formatted(text: string, size: nat): (r: string)
    requires size > 0
    ensures |r| < size && |r| <= |text| && r == text[..|r|]
    ensures |text| < size ==> r == text
  {
    if |text| < size then text else text[..size - 1]
  }

  /** The text of the request `build_request` formats, line by line. */
  function RequestText(host: string, path: string): string
  {
    ("GET " + path + " HTTP/1.0") + "\r\n" + (("Host: " + host) + "\r\n" + (UserAgentHeader + RequestTail))
  }

  /**
   * `build_request`: what it writes to the origin. The length it writes is
   * strlen(buf), which is the length snprintf left in the buffer because
   * the host and path `parse_uri` returns hold no NUL and neither does the
   * fixed text.
   */
  function BuildRequest(host: string, path: string): (r: string)
    ensures |r| < MaxBuf
  {
    Formatted(RequestText(host, path), MaxBuf)
  }

  /** A header field the proxy writes: no CR, no NUL, short. */
  predicate Field(s: string)
  {
    Plain(s) && |s| <= 64
  }

  /**
   * The request is 155 characters plus the host and the path; it is sent
   * whole when it fits in the buffer and cut to MaxBuf - 1 characters
   * otherwise.
   */
  lemma {:induction false} BuildRequestLength(host: string, path: string)
    ensures |RequestText(host, path)| == 155 + |host| + |path|
    ensures 155 + |host| + |path| < MaxBuf ==> BuildRequest(host, path) == RequestText(host, path)
    ensures 155 + |host| + |path| >= MaxBuf ==> BuildRequest(host, path) == RequestText(host, path)[..MaxBuf - 1]
  {
    assert |UserAgentHeader| == 86 && |RequestTail| == 46;
  }

  /** The fixed parts of the request line and the Host line hold neither NUL nor CR. */
  lemma {:induction false} RequestFixedPlain()
    ensures Plain("GET ") && Plain(" HTTP/1.0") && Plain("Host: ")
  {
  }

  /**
   * For a host and path without CR the request reads as the request line
   * "GET path HTTP/1.0", the line "Host: host", and then the same fixed
   * User-Agent, Connection and Proxy-Connection headers and empty line for
   * every request.
   */
  lemma {:induction false} RequestLines(host: string, path: string)
    requires '\r' !in host && '\r' !in path
    ensures Lines(RequestText(host, path)) == ["GET " + path + " HTTP/1.0", "Host: " + host] + Lines(UserAgentHeader + RequestTail)
  {
    RequestFixedPlain();
    var l0 := "GET " + path + " HTTP/1.0";
    var l1 := "Host: " + host;
    assert '\r' !in l0 && '\r' !in l1;
    var tail := UserAgentHeader + RequestTail;
    LinesAppend(l1, tail);
    LinesAppend(l0, l1 + "\r\n" + tail);
  }

  /** The request line the proxy sends splits into the three tokens GET, the path and HTTP/1.0. */
  lemma {:induction false} RequestLineWords(path: string)
    requires IsWord(path)
    ensures Words("GET " + path + " HTTP/1.0") == ["GET", path, "HTTP/1.0"]
  {
    var ws := ["GET", path, "HTTP/1.0"];
    assert IsWord("GET") && IsWord("HTTP/1.0");
    assert JoinWords(ws[2..]) == "HTTP/1.0";
    assert JoinWords(ws[1..]) == path + " " + "HTTP/1.0";
    assert JoinWords(ws) == "GET " + path + " HTTP/1.0";
    assert forall c :: c in "" ==> IsSpace(c);
    WordsOfJoin(ws, "");
    assert JoinWords(ws) + "" == JoinWords(ws);
  }

  /** The text of the HTML body `clienterror` formats. */
  function ErrorBody(cause: string, errnum: string, shortmsg: string, longmsg: string): string
  {
    "<html><title>Proxy Error</title><body bgcolor=ffffff>\r\n" + errnum + ": " + shortmsg + "\r\n" +
    "<p>" + longmsg + ": " + cause + "\r\n" + "<hr><em>The Proxy Server</em>\r\n"
  }

  /** The text of the status line and headers `clienterror` formats, announcing a body of blen characters. */
  function ErrorHeader(errnum: string, shortmsg: string, blen: nat): string
  {
    ("HTTP/1.0 " + errnum + " " + shortmsg) + "\r\n" + (ContentTypeLine + "\r\n" + ((LengthField + Decimal(blen)) + "\r\n" + "\r\n"))
  }

  /**
   * The Content-type header of an error response. The fixed header texts are
   * assembled from short pieces because facts about short literals are much
   * cheaper for the verifier.
   */
  const ContentTypeLine: string := "Content-" + "type: " + "text/html"
  /** The name part of the Content-length header. */
  const LengthField: string := "Content-" + "length: "

  /** `rio_writen(fd, buf, count)` on a buffer of MaxBuf characters holding the C string `text`. */
  datatype Write = Write(text: string, count: nat)

  /**
   * The characters a write sends when it stays within what snprintf wrote;
   * None when it reads past that text, into the NUL and beyond.
   */
  function Sent(w: Write): (r: Option<string>)
    ensures r.Some? <==> w.count <= |w.text|
    ensures r.Some? ==> r.value == w.text[..w.count]
  {
    if w.count <= |w.text| then Some(w.text[..w.count]) else None
  }

  /**
   * `clienterror` as written: both writes use the length snprintf returned,
   * which is that of the whole text, not of what fit in the buffer.
   */
  function ClientErrorAsWritten(cause: string, errnum: string, shortmsg: string, longmsg: string): (ws: seq<Write>)
    ensures |ws| == 2 && ws[1].count == |ErrorBody(cause, errnum, shortmsg, longmsg)|
  {
    var body := ErrorBody(cause, errnum, shortmsg, longmsg);
    var header := ErrorHeader(errnum, shortmsg, |body|);
    [Write(Formatted(header, MaxBuf), |header|), Write(Formatted(body, MaxBuf), |body|)]
  }

  /**
   * A request-target of 8100 letters. In the request line
   * "GET " + LongTarget() + " HTTP/1.0" every token fits its `sscanf`
   * buffer, and `parse_uri` refuses the target, so `serve_client` answers
   * 400 "Malformed URI" with the target as the cause.
   */
  function LongTarget(): (s: string)
    ensures |s| == 8100 && s[0] == 'x'
    ensures forall c :: c in s ==> c == 'x'
  {
    seq(8100, _ => 'x')
  }

  /**
   * With that cause the body is longer than its buffer: the second write
   * of `clienterror` as written asks for more characters than the buffer
   * holds, so it reads past the end of the array.
   */
  lemma {:induction false} ClientErrorOverRead()
    ensures var w := ClientErrorAsWritten(LongTarget(), "400", "Bad Request", "Malformed URI")[1];
      w.count > MaxBuf && Sent(w).None?
  {
  }

  /**
   * `clienterror` corrected: the body length written and announced is the
   * length of the text snprintf left in the buffer. Answers the characters
   * sent, header then body.
   */
  function ClientError(cause: string, errnum: string, shortmsg: string, longmsg: string): string
  {
    var body := ErrorBodySent(cause, errnum, shortmsg, longmsg);
    Formatted(ErrorHeader(errnum, shortmsg, |body|), MaxBuf) + body
  }

  /** The body `clienterror` sends: the HTML text, cut to the buffer. */
  function ErrorBodySent(cause: string, errnum: string, shortmsg: string, longmsg: string): (b: string)
    ensures |b| < MaxBuf
  {
    Formatted(ErrorBody(cause, errnum, shortmsg, longmsg), MaxBuf)
  }

  /**
   * The corrected error response is a well-framed HTTP/1.0 response: the
   * status line "HTTP/1.0 errnum shortmsg", the Content-type and
   * Content-length headers and the empty line, then exactly the body, whose
   * length is what Content-length says; the body is the whole HTML text when
   * that fits in the buffer and otherwise its first MaxBuf - 1 characters.
   */
  lemma {:induction false} ClientErrorFrame(cause: string, errnum: string, shortmsg: string, longmsg: string)
    requires Field(errnum) && Field(shortmsg)
    ensures var r := ClientError(cause, errnum, shortmsg, longmsg);
      var b := ErrorBodySent(cause, errnum, shortmsg, longmsg);
      var full := ErrorBody(cause, errnum, shortmsg, longmsg);
      |b| <= |r| && r[|r| - |b|..] == b &&
      Lines(r) == ["HTTP/1.0 " + errnum + " " + shortmsg, ContentTypeLine, LengthField + Decimal(|b|), ""] + Lines(b) &&
      ParseDecimal(Decimal(|b|)) == |b| &&
      b == full[..|b|] && (|full| < MaxBuf ==> b == full) && (|full| >= MaxBuf ==> |b| == MaxBuf - 1)
  {
    var b := ErrorBodySent(cause, errnum, shortmsg, longmsg);
    var h := ErrorHeader(errnum, shortmsg, |b|);
    DecimalBound(|b|, 4);
    assert |ContentTypeLine| == 23 && |LengthField| == 16;
    assert |h| < MaxBuf;
    var r := ClientError(cause, errnum, shortmsg, longmsg);
    assert r == h + b;
    assert r[|r| - |b|..] == b;
    HeaderLines(errnum, shortmsg, |b|, b);
    DecimalRoundTrip(|b|);
  }

  /**
   * When the HTML text fits in its buffer, `clienterror` as written sends
   * exactly what the corrected one sends: both writes stay within what
   * snprintf wrote, and together they are the header followed by the body.
   * The two differ only for a text of MaxBuf or more characters.
   */
  lemma {:induction false} ClientErrorAgrees(cause: string, errnum: string, shortmsg: string, longmsg: string)
    requires Field(errnum) && Field(shortmsg)
    requires |ErrorBody(cause, errnum, shortmsg, longmsg)| < MaxBuf
    ensures var ws := ClientErrorAsWritten(cause, errnum, shortmsg, longmsg);
      Sent(ws[0]).Some? && Sent(ws[1]).Some? &&
      Sent(ws[0]).value + Sent(ws[1]).value == ClientError(cause, errnum, shortmsg, longmsg)
  {
    var body := ErrorBody(cause, errnum, shortmsg, longmsg);
    var h := ErrorHeader(errnum, shortmsg, |body|);
    DecimalBound(|body|, 4);
    assert |ContentTypeLine| == 23 && |LengthField| == 16;
    assert |h| < MaxBuf;
    assert ErrorBodySent(cause, errnum, shortmsg, longmsg) == body;
  }

  function Pow10(k: nat): nat
  {
    if k == 0 then 1 else 10 * Pow10(k - 1)
  }

  /** The decimal rendering of a number below 10^k has at most k digits. */
  lemma {:induction false} DecimalBound(n: nat, k: nat)
    requires 1 <= k && n < Pow10(k)
    ensures |Decimal(n)| <= k
    decreases k
  {
    if n >= 10 {
      DecimalBound(n / 10, k - 1);
    }
  }

  /** The fixed header lines of an error response hold neither NUL nor CR. */
  lemma {:induction false} HeaderFixedPlain()
    ensures Plain(ContentTypeLine) && Plain(LengthField)
  {
    assert Plain("Content-") && Plain("type: ") && Plain("text/html") && Plain("length: ");
  }

  /** The headers after the status line of an error response, the empty line, then the lines of the body. */
  lemma {:induction false} HeaderTailLines(blen: nat, body: string)
    requires blen < 10000
    ensures Lines((ContentTypeLine + "\r\n" + ((LengthField + Decimal(blen)) + "\r\n" + "\r\n")) + body) ==
      [ContentTypeLine, LengthField + Decimal(blen), ""] + Lines(body)
  {
    HeaderFixedPlain();
    DecimalBound(blen, 4);
    var l2 := LengthField + Decimal(blen);
    assert '\r' !in l2;
    var r3 := "" + "\r\n" + body;
    var r2 := l2 + "\r\n" + r3;
    assert (l2 + "\r\n" + "\r\n") + body == r2;
    assert (ContentTypeLine + "\r\n" + (l2 + "\r\n" + "\r\n")) + body == ContentTypeLine + "\r\n" + r2;
    var tail := Lines(body);
    LinesAppend("", body);
    LinesAppend(l2, r3);
    assert Lines(r2) == [l2, ""] + tail by { assert [l2] + ([""] + tail) == [l2, ""] + tail; }
    LinesAppend(ContentTypeLine, r2);
    assert [ContentTypeLine] + ([l2, ""] + tail) == [ContentTypeLine, l2, ""] + tail;
  }

  /**
   * An error response reads as its status line, the Content-type and
   * Content-length headers, the empty line, and then the lines of the body.
   */
  lemma {:induction false} HeaderLines(errnum: string, shortmsg: string, blen: nat, body: string)
    requires Field(errnum) && Field(shortmsg) && blen < 10000
    ensures Lines(ErrorHeader(errnum, shortmsg, blen) + body) ==
      ["HTTP/1.0 " + errnum + " " + shortmsg, ContentTypeLine, LengthField + Decimal(blen), ""] + Lines(body)
  {
    assert Plain("HTTP/1.0 ") && Plain(" ");
    var l0 := "HTTP/1.0 " + errnum + " " + shortmsg;
    assert '\r' !in l0;
    var r1 := (ContentTypeLine + "\r\n" + ((LengthField + Decimal(blen)) + "\r\n" + "\r\n")) + body;
    assert ErrorHeader(errnum, shortmsg, blen) + body == l0 + "\r\n" + r1;
    HeaderTailLines(blen, body);
    LinesAppend(l0, r1);
    var rest := [ContentTypeLine, LengthField + Decimal(blen), ""] + Lines(body);
    assert [l0] + rest == [l0, ContentTypeLine, LengthField + Decimal(blen), ""] + Lines(body);
  }
}
