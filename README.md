# A caching HTTP/1.0 proxy, modelled in Dafny

This project models the core of `proxy.c`, a small caching web proxy.
The proxy takes one request line from a client and checks it. It accepts
only `GET` requests whose absolute-form target uses the `http` scheme.
A target the cache holds is answered from the cache. Any other target is
fetched from the origin server. The proxy sends the origin a rewritten
HTTP/1.0 request, relays the origin's reply to the client, and keeps a
copy of the reply in an LRU object cache when it is small enough.

The model is split by the program's own structure:

| file | module | what it holds |
|---|---|---|
| `basics.dfy` | `Basics` | bytes, `Option`, the four size constants (`MAX_CACHE_SIZE`, `MAX_OBJECT_SIZE`, `MAXLINE`, `MAXBUF`) |
| `text.dfy` | `Text` | the C library behaviour the proxy relies on: `strcasecmp`, NUL-terminated strings, `sscanf "%s"` tokens, CRLF lines, `%d`, characters written as bytes |
| `cache_spec.dfy` | `CacheSpec` | the cache as a value (the recency list from head to tail) and what `cache_get` and `cache_put` do to it |
| `recency_list.dfy` | `RecencyList` | the doubly linked list over an index arena and the pointer surgery of each routine |
| `arena.dfy` | `Arena` | the cache routines as statements on the node fields, proved against `CacheSpec` |
| `object_cache.dfy` | `ObjectCache` | class `Cache`: the globals `chead`, `ctail`, `cache_bytes` with the nodes they link; its methods are the four cache routines |
| `uri.dfy` | `UriParser` | `parse_uri`: the copy loops, their specification, and the parse/compose round trip |
| `messages.dfy` | `Messages` | `build_request` and `clienterror`: the texts sent, `snprintf` truncation, and a length bug in `clienterror` |
| `relay.dfy` | `Relay` | `serve_client`: reading and classifying the request, the cache lookup, the stream loop, and the whole exchange |

The cache routines mutate linked nodes, so they are imperative. Handles are
slot numbers, the `NULL` pointer is `-1`, and the `prev` and `next` fields
are sequences. Each routine is proved against a pure function over the list
read from head to tail: `Cache.Put` ends with `contents == CacheSpec.Put(old(contents), key, buf)`.
The properties of the cache are lemmas about those functions. `parse_uri`
and the stream loop are loops, so they are methods with loop invariants.
Each is proved equal to a specification function (`ParsedUri`, `Flatten`
and `FitCount`). `Relay.ServeClient` runs one connection on a `Cache`
object. Its result is tied to the function `Relay.Serve`, and the lemmas
about `Serve` state what the proxy promises its clients. Its error pages
are those of `clienterror` with its length bug corrected (see Findings).

The client's input is a string. The origin server is a parameter: it is
either unreachable, or it is the sequence of results its reads return.
An `Exchange` records three things: the bytes written to the client, the
host and port that `open_clientfd` was asked for, and the request written
to the origin.

A NUL ends a C string. So the request line is cut at its first NUL before
it is split into tokens, and `parse_uri` stops at a NUL or at the end of
the text.

## Model

| member | source | states |
|---|---|---|
| `CacheSpec.Get` | proxy.c:56-77 | the specification of `cache_get`: `GetMeaning` states a hit exactly when some entry has the key, with that payload and the entry promoted, and a miss changing nothing; `GetWellformed`, `GetTwice` and `GetShieldsFromEviction` state the rest |
| `CacheSpec.Put` | proxy.c:79-119 | the specification of `cache_put`: `PutRejectsSize`, `PutExisting` and `PutNew` state each branch; `PutWellformed` states that the invariant is kept; `GetAfterPut` states that the key is then found |
| `CacheSpec.Find` | proxy.c:62-73 | the scan stops at an entry holding the key, with no earlier entry holding it; none is found only when no entry holds it |
| `CacheSpec.Promote` | proxy.c:25-38 | moving entry k to the head keeps the length and the multiset; entry k comes first, the entries before it shift back by one, and the entries after it stay put |
| `CacheSpec.PromoteHead` | proxy.c:27 | promoting the head changes nothing |
| `CacheSpec.Evict` | proxy.c:40-54 | eviction removes a suffix (tail first); it stops at the empty list or once `need` more bytes fit; one eviction fewer would not have fit |
| `CacheSpec.PromoteBytes` | proxy.c:25-38 | promotion keeps `cache_bytes` |
| `CacheSpec.PromoteWellformed` | proxy.c:25-38 | promotion keeps the cache invariant (within capacity, admissible objects, distinct keys) |
| `CacheSpec.PrefixWellformed` | proxy.c:40-54 | dropping tail entries keeps the cache invariant |
| `CacheSpec.PutRejectsSize` | proxy.c:81 | an empty object, or one larger than MAX_OBJECT_SIZE, leaves the cache unchanged |
| `CacheSpec.PutExisting` | proxy.c:86-100 | for a key already present, put only promotes that entry; its first stored payload is kept, and the multiset and byte total are unchanged |
| `CacheSpec.ConsWellformed` | proxy.c:103-116 | adding an admissible entry under a new key at the head, within capacity, keeps the invariant and adds its size to the total |
| `CacheSpec.PutNew` | proxy.c:102-116 | for a new key, put makes the new entry the head; the rest is the old list with tail entries evicted, and no more than needed; the total stays within MAX_CACHE_SIZE |
| `CacheSpec.PutWellformed` | proxy.c:79-119 | every branch of `cache_put` keeps the cache invariant |
| `CacheSpec.GetWellformed` | proxy.c:56-77 | `cache_get` keeps the invariant and the byte total |
| `CacheSpec.GetMeaning` | proxy.c:56-77 | get hits exactly when some entry has the key; a hit returns that entry's payload and promotes it; a miss returns nothing and changes nothing |
| `CacheSpec.GetTwice` | proxy.c:56-77 | a second get of the same key returns the same result and changes nothing more |
| `CacheSpec.GetAfterPut` | proxy.c:79-119 | after an admissible put, a get of that key hits; it returns the new bytes for a new key, and the first stored bytes otherwise |
| `CacheSpec.EvictsTailFirst` | proxy.c:42-51 | when one eviction frees enough room, the victim is the least recently used entry |
| `CacheSpec.GetShieldsFromEviction` | proxy.c:66 | after a hit on a list of two or more entries, the entry read is the head and not the next eviction victim |
| `RecencyList.Traversals` | proxy.c:12-21 | following `next` from `chead` visits the list in order; following `prev` from `ctail` visits it in reverse |
| `RecencyList.MoveToHeadLinks` | proxy.c:28-36 | the relinking of `lru_move_to_head` leaves a well-linked list in promoted order |
| `RecencyList.DropTailLinks` | proxy.c:44-47 | unlinking the tail leaves a well-linked list one shorter; an emptied list has both ends NULL |
| `RecencyList.PushFrontLinks` | proxy.c:110-114 | linking a fresh node in front leaves a well-linked list with that node first |
| `Arena.MoveToHeadInv` | proxy.c:28-36 | the relinking keeps the cache invariant, with the entry promoted |
| `Arena.DropTailInv` | proxy.c:44-49 | one round of `del_until` keeps the invariant, with the tail's size subtracted |
| `Arena.PushFrontInv` | proxy.c:103-116 | inserting a new node keeps the invariant |
| `Arena.MoveToHead` | proxy.c:25-38 | the statements of `lru_move_to_head` leave the list promoted; NULL and the head are left alone |
| `Arena.DelUntil` | proxy.c:40-54 | the eviction loop leaves `CacheSpec.Evict` of the list and keeps the invariant |
| `Arena.Scan` | proxy.c:62-73 | the key-scan loop finds the first entry with the key, or NULL exactly when none has it |
| `Arena.PushFront` | proxy.c:103-116 | the insertion statements put the new entry at the head |
| `ObjectCache.Cache.constructor` | proxy.c:21-22 | the cache starts empty, with NULL ends and zero bytes |
| `ObjectCache.Cache.MoveToHead` | proxy.c:25-38 | `lru_move_to_head` on the object: the list is promoted, and slots and bytes are unchanged |
| `ObjectCache.Cache.DelUntil` | proxy.c:40-54 | `del_until` on the object: the list becomes `Evict` of the old list, and an emptied list has NULL ends |
| `ObjectCache.Cache.Get` | proxy.c:56-77 | `cache_get` on the object gives the hit flag, payload and new list of `CacheSpec.Get`, with `outlen` equal to the payload length |
| `ObjectCache.Cache.PushFront` | proxy.c:101-116 | the new node is allocated and linked at the head |
| `ObjectCache.Cache.Put` | proxy.c:79-119 | `cache_put` on the object leaves `CacheSpec.Put` of the old list; a rejected size changes no field |
| `Text.CStr` | proxy.c:197 | the C string in a buffer is its longest NUL-free prefix, ended by a NUL or the end of the buffer |
| `Text.Word` | proxy.c:197 | a `%s` token is the longest run of non-space characters, ended by a space or the end |
| `Text.Words` | proxy.c:197 | every token `sscanf` reads is non-empty and holds no space |
| `Text.WordsOfJoin` | proxy.c:197 | tokens joined by single spaces and followed by whitespace are read back as the same tokens |
| `Text.Decimal` | proxy.c:135 | `%d` of a number is a non-empty run of digits |
| `Text.DecimalRoundTrip` | proxy.c:135 | reading back the digits `%d` writes gives the number |
| `Text.Encode` | proxy.c:137-138 | text is written one byte per character |
| `UriParser.Span` | proxy.c:164 | a copy loop takes at most `limit` characters, all inside the string |
| `UriParser.SpanChars` | proxy.c:164 | a copy loop takes no NUL and no stop character |
| `UriParser.SpanStop` | proxy.c:164 | a copy loop that takes fewer than `limit` characters stopped at a NUL or a stop character |
| `UriParser.SpanOf` | proxy.c:172 | a run of ordinary characters ended by a stop character, a NUL or the limit is exactly what the loop copies |
| `UriParser.CopyRun` | proxy.c:180 | the copy loop returns the characters its specification `Span` counts, and the position after them |
| `UriParser.ParsedUri` | proxy.c:157-186 | the specification of `parse_uri`: `ParseFails` states when it fails, `ParseSucceeds` what the three parts are, `ParseCompose` that composed parts are read back, and `LongPortDropsPath` the long-port case |
| `UriParser.ParseUri` | proxy.c:157-186 | `parse_uri` returns 0 or -1; it returns -1 exactly when `ParsedUri` fails, and on 0 its three buffers hold `ParsedUri`'s parts |
| `UriParser.ParseFails` | proxy.c:160-166 | parsing fails exactly when the scheme is not `http://` (in any case) or the host is empty |
| `UriParser.ParseSucceeds` | proxy.c:163-185 | on success the host is the non-empty text after the scheme, up to the first ':', '/' or end; the port is "80", or at most 15 characters after ':' with no '/'; the path starts with '/' |
| `UriParser.ParseCompose` | proxy.c:157-186 | parsing "http://" + host + [":" + port] + path gives those parts back, with "80" and "/" as defaults |
| `UriParser.LongPortDropsPath` | proxy.c:172-183 | when the port is 16 or more characters, the port is cut to 15 and the path becomes "/" |
| `Messages.RequestText` | proxy.c:145-152 | the text `build_request` formats: `BuildRequestLength` states its length, `RequestLines` its lines and `RequestLineWords` the tokens of its first line |
| `Messages.Formatted` | proxy.c:145-152 | `snprintf` into a buffer of `size` keeps at most size - 1 characters, as a prefix of the text, and keeps the whole text when it fits |
| `Messages.BuildRequest` | proxy.c:141-155 | the request written to the origin is shorter than MAXBUF |
| `Messages.BuildRequestLength` | proxy.c:145-152 | the request is 155 characters plus the host and the path; it is sent whole when it fits, and otherwise cut to MAXBUF - 1 characters |
| `Messages.RequestLines` | proxy.c:146-151 | for a host and path without CR, the request's lines are "GET path HTTP/1.0", then "Host: host", then the fixed headers |
| `Messages.RequestLineWords` | proxy.c:146 | the request line splits into GET, the path and HTTP/1.0 |
| `Messages.ErrorBody` | proxy.c:125-131 | the HTML text `clienterror` formats: `ClientErrorFrame` states that the body sent is this text, cut to the buffer; `ClientErrorOverRead` states that it outgrows MAXBUF for a long cause |
| `Messages.ErrorHeader` | proxy.c:132-136 | the status line and headers `clienterror` formats: `HeaderLines` states its lines, and `ClientErrorFrame` that the length it announces reads back as the body's length |
| `Messages.Sent` | proxy.c:137-138 | `rio_writen(fd, buf, n)` sends the first n characters of the buffer, and is defined only when the buffer holds n |
| `Messages.ClientErrorAsWritten` | proxy.c:121-139 | `clienterror` as written: two writes, the second of the full length of the HTML text |
| `Messages.LongTarget` | proxy.c:196-212 | a request-target of 8100 letters, which fits `uri[MAXLINE]` and which `parse_uri` refuses (`Relay.LongTargetRejected`) |
| `Messages.ClientErrorOverRead` | proxy.c:125-138 | with that target as the cause of a 400 "Malformed URI" page, the second write asks for more than MAXBUF characters from the body buffer |
| `Messages.ClientErrorAgrees` | proxy.c:121-139 | when the HTML text fits in its buffer, both writes of `clienterror` as written stay within what snprintf wrote, and together they send exactly the corrected `ClientError`; the two differ only for a text of MAXBUF or more characters |
| `Messages.ErrorBodySent` | proxy.c:125-131 | the body kept in the buffer is shorter than MAXBUF |
| `Messages.HeaderLines` | proxy.c:132-136 | the error header reads as the status line, Content-type, Content-length and an empty line, followed by the body's lines |
| `Messages.ClientError` | proxy.c:121-139 | `clienterror` with the length bug corrected: `ClientErrorFrame` states its framing, and `ClientErrorAgrees` that it equals the code as written whenever the body fits |
| `Messages.ClientErrorFrame` | proxy.c:121-139 | the corrected error response's lines are "HTTP/1.0 errnum shortmsg", Content-type, a Content-length equal to the body's length, and an empty line; then comes exactly the body, as much of the HTML text as fits in the buffer |
| `Relay.LineLen` | proxy.c:194 | `rio_readlineb` takes at most the room left, and nothing only at end of input |
| `Relay.ReadLine` | proxy.c:193-194 | the request line is a prefix of the input shorter than MAXLINE; it is empty exactly at end of input |
| `Relay.LineOf` | proxy.c:194 | a line ending in a newline that fits is read whole, the newline included |
| `Relay.Live` | proxy.c:247 | the stream loop consumes the reads before the first one that returns nothing |
| `Relay.FitCount` | proxy.c:249-256 | the object holds all the reads when they fit in MAX_OBJECT_SIZE; otherwise it holds those before the first read that would overflow |
| `Relay.FitStep` | proxy.c:249-256 | one more read is copied exactly when everything so far was copied and the read still fits |
| `Relay.FitLatches` | proxy.c:249-256 | once a read has overflowed, `cacheable` stays 0: later reads copy nothing |
| `Relay.Copy` | proxy.c:251 | `memcpy` places the read after the first `tot` bytes of the object buffer |
| `Relay.ProgressStep` | proxy.c:247-258 | one round of the loop relays the read, and copies it only while the object is cacheable and the read fits |
| `Relay.Stream` | proxy.c:238-259 | the client receives all the bytes read; `cacheable` is set exactly when they total at most MAX_OBJECT_SIZE, and the object is then all of them; in any case the object is the reads before the first overflow and holds at most MAX_OBJECT_SIZE bytes |
| `Relay.Classify` | proxy.c:193-214 | the specification of reading and checking the request line: `ClassifyRequestLine` states the verdict for a well-formed line; `ReadRequest` is proved to compute it |
| `Relay.ReadRequest` | proxy.c:193-214 | reading and checking the request line gives the verdict `Classify` specifies |
| `Relay.Serve` | proxy.c:188-265 | the specification of one connection: `ServeRejects`, `ServeDials`, `ServeHit`, `ServeRelays`, `ServeRequestLines`, `ServeWellformed` and `ServeTwice` state its meaning, and `ServeClient` is proved to follow it |
| `Relay.Proxied` | proxy.c:216-263 | a proxied request: answered from the cache on a hit (`ServeHit`), forwarded otherwise (`ServeDials`, `ServeRelays`) |
| `Relay.Forward` | proxy.c:228-263 | a miss: the 502 page for an unreachable origin, else the relay and `cache_put` (`ServeDials`, `ServeRelays`, `ServeRequestLines`) |
| `Relay.ServeClient` | proxy.c:188-265 | the exchange of a connection, and the cache it leaves, are those `Serve` gives for the cache it found; the cache invariant is kept; its error pages are those of the corrected `clienterror` |
| `Relay.ClassifyRequestLine` | proxy.c:196-214 | a request line "method target version" ending in CRLF is answered with 501 when the method is not GET (in any case), with 400 when `parse_uri` refuses the target, and is otherwise proxied with that target as the cache key |
| `Relay.LongTargetRejected` | proxy.c:196-214 | the line "GET " + LongTarget() + " HTTP/1.0" is classified as a malformed URI, and its whole exchange is that error page with the long target as its cause |
| `Relay.ErrorPageStatus` | proxy.c:121-139 | every error page starts with the status line of its failure |
| `Relay.ServeRejects` | proxy.c:196-214 | a rejected request gets only its error page: 501 exactly for three fields with a method other than GET, and 400 otherwise; nothing is dialled and the cache is unchanged |
| `Relay.ServeDials` | proxy.c:216-235 | the origin is dialled exactly for a proxied request the cache misses, at the parsed host and port; a request is sent exactly when the origin is reached, and it is `build_request`'s text |
| `Relay.ServeHit` | proxy.c:216-223 | a hit is answered with exactly the stored bytes, dials nothing, and promotes the entry |
| `Relay.ServeRelays` | proxy.c:238-261 | on a miss the client gets exactly what the origin sent; the cache becomes `cache_put` of those bytes, and is unchanged when their size is 0 or over MAX_OBJECT_SIZE |
| `Relay.ServeRequestLines` | proxy.c:235 | the request sent for a host and path that fit starts with "GET path HTTP/1.0" and "Host: host" |
| `Relay.ServeWellformed` | proxy.c:188-265 | serving any input keeps the cache invariant |
| `Relay.ServeTwice` | proxy.c:216-261 | after a hit, or after a miss whose reply was cached, the same request is answered from the cache with the same bytes, without dialling, whatever the origin would now send |

## Left out

- Sockets and `csapp.h`'s robust I/O are not modelled. The client's input is a string, and the origin is a parameter: unreachable, or the list of what its reads return. A failed read counts as end of input, as the loop's `> 0` test treats it.
- `open_clientfd` is only recorded: the `Exchange` stores the host and port it was given. Name resolution and connecting are not part of this model.
- The model does not cover `main`, `worker`, the threads, or `cache_mutex`. Every cache routine is one atomic step.
- `Malloc` and `Free` are not modelled. A new node takes a fresh slot. Freed slots are never reused, and nothing reaches them again.
- `Rio_writen` exiting the process on a write error is not modelled. Every write succeeds.
- `sscanf` writes tokens into `method[16]`, `uri[MAXLINE]` and `version[32]`. A method longer than 15 characters, or a version longer than 31, overflows its buffer in C. The model reads tokens of any length.
- `Relay.ServeClient`: error pages are sent by the corrected `Messages.ClientError`, not by `clienterror` as written. The two agree whenever the HTML text fits in MAXBUF (`Messages.ClientErrorAgrees`). For a longer text, as for `Messages.LongTarget`, the code over-reads `body`; the model announces and sends only the MAXBUF - 1 characters the buffer holds (see Findings).
- `Messages.BuildRequest`: the request is sent with `strlen(buf)`. The model sends the formatted text itself. The two agree when the host and path have no NUL, which `parse_uri`'s output never has.
- `Messages.RequestLines` only splits the request line and the Host line. The remaining text is the fixed User-Agent, Connection and Proxy-Connection headers and the empty line, and it is the same for every request.
- The key copy in `cache_put` (`strncpy` to MAXLINE - 1 characters) is not modelled. Keys come from a request line shorter than MAXLINE, so the copy never cuts them.
- `build_request` never uses its `client_rio` argument. So the client's own header lines are never read or forwarded, and the model does not look at anything after the request line.
- `csapp.h` is not part of this model. MAXLINE and MAXBUF are taken as 8192, its published values.
- Points where the code behaves in a way a reader may not expect; the model follows the code:
  - `cache_put` rejects an empty or oversized object before it scans for an existing key.
  - `parse_uri` does not check that the port is digits.
  - A port of 16 or more characters is cut to 15. The path then becomes "/" (`UriParser.LongPortDropsPath`).
  - A request line with more than three tokens is accepted.
  - A reply cut short by a read error is cached just like a complete one.

## Findings

| source | as written | input that shows it | evidently intended | confidence | as-written member | corrected member |
|---|---|---|---|---|---|---|
| proxy.c:125-138 | `blen` is the value `snprintf` returns, which is the length the HTML text would have had. It is announced as Content-length and passed as the count to `rio_writen(fd, body, blen)`, even when the text was cut to fit `body[MAXBUF]`. | The request line "GET " + 8100 × 'x' + " HTTP/1.0\r\n". Every token fits its `sscanf` buffer, and `parse_uri` refuses the target. So the proxy answers 400 "Malformed URI" with the 8100-character target as the cause. The HTML text is then longer than MAXBUF, and the second write reads past the end of `body`. | Announce and write only the characters the buffer holds: at most MAXBUF - 1, and the whole text when it fits. | not executed | `Messages.ClientErrorAsWritten`, `Messages.ClientErrorOverRead`, `Relay.LongTargetRejected` | `Messages.ClientError`, `Messages.ClientErrorFrame`, `Messages.ClientErrorAgrees` |
