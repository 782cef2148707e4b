/**
 * Character-level helpers for the C library calls the proxy relies on:
 * ASCII case folding (strcasecmp, strncasecmp), NUL-terminated strings,
 * whitespace tokenisation (sscanf "%s"), CRLF line splitting, the decimal
 * rendering of "%d", and the char-per-byte view of text written to a socket.
 */
module Text {
  import opened Basics

  /** ASCII tolower, as the C locale defines it. */
  function Lower(c: char): char
  {
    if 'A' <= c <= 'Z' then (c as int + 32) as char else c
  }

  /** strcasecmp(a, b) == 0 on strings without NUL. */
  predicate EqualsIgnoreCase(a: string, b: string)
  {
    |a| == |b| && forall i :: 0 <= i < |a| ==> Lower(a[i]) == Lower(b[i])
  }

  /** The C string held in a buffer: everything before the first NUL. */
  function CStr(s: string): (r: string)
    ensures |r| <= |s| && r == s[..|r|]
    ensures '\0' !in r
    ensures |r| < |s| ==> s[|r|] == '\0'
  {
    if s == [] || s[0] == '\0' then [] else [s[0]] + CStr(s[1..])
  }

  /** A string without NUL is its own C string. */
  lemma {:induction false} CStrPlain(s: string)
    requires '\0' !in s
    ensures CStr(s) == s
  {
  }

  /** isspace in the C locale. */
  predicate IsSpace(c: char)
  {
    c == ' ' || c == '\t' || c == '\n' || c == '\U{B}' || c == '\U{C}' || c == '\r'
  }

  /** A token as "%s" reads it: non-empty and free of whitespace. */
  predicate IsWord(w: string)
  {
    |w| > 0 && forall c :: c in w ==> !IsSpace(c)
  }

  /** The leading run of non-whitespace characters of s. */
  function Word(s: string): (w: string)
    ensures |w| <= |s| && w == s[..|w|]
    ensures forall c :: c in w ==> !IsSpace(c)
    ensures |w| < |s| ==> IsSpace(s[|w|])
  {
    if s == [] || IsSpace(s[0]) then [] else [s[0]] + Word(s[1..])
  }

  /** The whitespace-separated tokens of s, in order; what repeated "%s" conversions read. */
  function Words(s: string): (ws: seq<string>)
    ensures forall i :: 0 <= i < |ws| ==> IsWord(ws[i])
    decreases |s|
  {
    if s == [] then []
    else if IsSpace(s[0]) then Words(s[1..])
    else var w := Word(s); [w] + Words(s[|w|..])
  }

  /** Tokens separated by single spaces. */
  function JoinWords(ws: seq<string>): string
  {
    if ws == [] then [] else if |ws| == 1 then ws[0] else ws[0] + " " + JoinWords(ws[1..])
  }

  lemma {:induction false} WordOfJoined(w: string, rest: string)
    requires IsWord(w)
    requires rest == [] || IsSpace(rest[0])
    ensures Word(w + rest) == w
    decreases |w|
  {
    if |w| == 1 {
      assert (w + rest)[1..] == rest;
    } else {
      assert (w + rest)[1..] == w[1..] + rest;
      assert w[0] in w;
      assert forall c :: c in w[1..] ==> c in w;
      WordOfJoined(w[1..], rest);
    }
  }

  lemma {:induction false} WordsSkipSpace(pre: string, s: string)
    requires forall c :: c in pre ==> IsSpace(c)
    ensures Words(pre + s) == Words(s)
    decreases |pre|
  {
    if pre != [] {
      assert pre[0] in pre;
      assert (pre + s)[1..] == pre[1..] + s;
      assert forall c :: c in pre[1..] ==> c in pre;
      WordsSkipSpace(pre[1..], s);
    } else {
      assert pre + s == s;
    }
  }

  /** A token followed by whitespace or the end of the string is read as one word. */
  lemma {:induction false} WordsCons(w: string, rest: string)
    requires IsWord(w)
    requires rest == [] || IsSpace(rest[0])
    ensures Words(w + rest) == [w] + Words(rest)
  {
    WordOfJoined(w, rest);
    assert (w + rest)[0] == w[0] && w[0] in w;
    assert (w + rest)[|w|..] == rest;
  }

  /** Splitting words joined by single spaces, followed by any whitespace, gives the words back. */
  lemma {:induction false} WordsOfJoin(ws: seq<string>, trail: string)
    requires forall i :: 0 <= i < |ws| ==> IsWord(ws[i])
    requires forall c :: c in trail ==> IsSpace(c)
    ensures Words(JoinWords(ws) + trail) == ws
    decreases |ws|
  {
    WordsSkipSpace(trail, []);
    assert trail + [] == trail;
    if ws == [] {
      assert JoinWords(ws) + trail == trail;
    } else if |ws| == 1 {
      assert trail == [] || IsSpace(trail[0]) by { if trail != [] { assert trail[0] in trail; } }
      WordsCons(ws[0], trail);
    } else {
      var tail := JoinWords(ws[1..]) + trail;
      assert JoinWords(ws) + trail == ws[0] + (" " + tail);
      WordsCons(ws[0], " " + tail);
      WordsSkipSpace(" ", tail);
      WordsOfJoin(ws[1..], trail);
      assert [ws[0]] + ws[1..] == ws;
    }
  }

  /** The lines of s, split at every CRLF; the text after the last CRLF is the last line. */
  function Lines(s: string): (ls: seq<string>)
    ensures |ls| >= 1
    decreases |s|
  {
    if |s| >= 2 && s[0] == '\r' && s[1] == '\n' then [""] + Lines(s[2..])
    else if s == [] then [""]
    else var rest := Lines(s[1..]); [[s[0]] + rest[0]] + rest[1..]
  }

  /** A line without CR ends at the CRLF that follows it. */
  lemma {:induction false} LinesAppend(a: string, b: string)
    requires '\r' !in a
    ensures Lines(a + "\r\n" + b) == [a] + Lines(b)
    decreases |a|
  {
    if a == [] {
      assert a + "\r\n" + b == "\r\n" + b;
      assert ("\r\n" + b)[2..] == b;
    } else {
      var s := a + "\r\n" + b;
      assert s[0] == a[0] && a[0] != '\r';
      assert s[1..] == a[1..] + "\r\n" + b;
      LinesAppend(a[1..], b);
      assert [a[0]] + a[1..] == a;
    }
  }

  function Digit(d: nat): char
    requires d < 10
  {
    ('0' as int + d) as char
  }

  /** "%d" of a non-negative number: its shortest decimal rendering. */
  function Decimal(n: nat): (s: string)
    ensures |s| >= 1
    ensures forall c :: c in s ==> '0' <= c <= '9'
    decreases n
  {
    if n < 10 then [Digit(n)] else Decimal(n / 10) + [Digit(n % 10)]
  }

  /** The number a string of decimal digits denotes. */
  function ParseDecimal(s: string): nat
  {
    if s == [] then 0
    else
      var c := s[|s| - 1];
      var d := if '0' <= c <= '9' then c as int - '0' as int else 0;
      ParseDecimal(s[..|s| - 1]) * 10 + d
  }

  /** Reading back the decimal rendering of n gives n. */
  lemma {:induction false} DecimalRoundTrip(n: nat)
    ensures ParseDecimal(Decimal(n)) == n
    decreases n
  {
    if n < 10 {
      assert Decimal(n)[..0] == [];
    } else {
      var s := Decimal(n);
      assert s[..|s| - 1] == Decimal(n / 10);
      DecimalRoundTrip(n / 10);
    }
  }

  /** The bytes a socket write of a text sends: one byte per character (the low octet). */
  function Encode(s: string): (b: seq<byte>)
    ensures |b| == |s|
    ensures forall i :: 0 <= i < |s| && s[i] as int < 256 ==> b[i] as int == s[i] as int
  {
    seq(|s|, i requires 0 <= i < |s| => (s[i] as int % 256) as byte)
  }

  lemma {:induction false} EncodeAppend(a: string, b: string)
    ensures Encode(a + b) == Encode(a) + Encode(b)
  {
    assert forall i :: 0 <= i < |a + b| ==> Encode(a + b)[i] == (Encode(a) + Encode(b))[i];
  }
}
