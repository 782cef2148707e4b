/**
 * The object cache as a value: the recency list read from the most recently
 * used entry (the head) to the least recently used one (the tail), and the
 * effect of each cache operation on it (proxy.c:12-119).
 */
module CacheSpec {
  import opened Basics

  /** A cached object: the request-target it was fetched for and the response bytes. Its size is |obj|. */
  datatype Entry = Entry(key: string, obj: seq<byte>)

  /** What `cache_get` reports, and the list it leaves behind. */
  datatype Lookup = Lookup(hit: bool, out: seq<byte>, after: seq<Entry>)

  /** Total payload bytes of a list: the quantity `cache_bytes` tracks. */
  function Bytes(s: seq<Entry>): nat
  {
    if s == [] then 0 else Bytes(s[..|s| - 1]) + |s[|s| - 1].obj|
  }

  /** The invariant the cache keeps: within capacity, every object admissible, keys distinct. */
  ghost predicate Wellformed(s: seq<Entry>)
  {
    Bytes(s) <= MaxCacheSize &&
    (forall j :: 0 <= j < |s| ==> 0 < |s[j].obj| <= MaxObjectSize) &&
    (forall i, j :: 0 <= i < j < |s| ==> s[i].key != s[j].key)
  }

  /** The position the head-to-tail scan with strcmp stops at, if any entry has this key. */
  function Find(s: seq<Entry>, key: string): (r: Option<nat>)
    ensures r.Some? ==> r.value < |s| && s[r.value].key == key
    ensures r.Some? ==> forall j :: 0 <= j < r.value ==> s[j].key != key
    ensures r.None? ==> forall j :: 0 <= j < |s| ==> s[j].key != key
  {
    if s == [] then None
    else if s[0].key == key then Some(0)
    else match Find(s[1..], key)
      case None => None
      case Some(k) => Some(k + 1)
  }

  /** The list after the element at position k becomes most recently used; the rest keep their order. */
  function Promote<T>(s: seq<T>, k: nat): (r: seq<T>)
    requires k < |s|
    ensures |r| == |s| && r[0] == s[k]
    ensures forall i {:trigger r[i]} :: 0 <= i < |r| ==> r[i] == if i == 0 then s[k] else if i <= k then s[i - 1] else s[i]
    ensures multiset(r) == multiset(s)
  {
    assert s == s[..k] + [s[k]] + s[k + 1..];
    [s[k]] + s[..k] + s[k + 1..]
  }

  /** Promoting the head changes nothing. */
  lemma {:induction false} PromoteHead<T>(s: seq<T>)
    requires |s| > 0
    ensures Promote(s, 0) == s
  {
    assert s == [s[0]] + s[1..];
  }

  /**
   * The list after least recently used entries are dropped, tail first, until
   * `need` more bytes fit or nothing is left (the loop of proxy.c:42-52).
   */
  function Evict(s: seq<Entry>, need: nat): (r: seq<Entry>)
    ensures |r| <= |s| && r == s[..|r|]
    ensures r == [] || Bytes(r) + need <= MaxCacheSize
    ensures |r| < |s| ==> Bytes(s[..|r| + 1]) + need > MaxCacheSize
    decreases |s|
  {
    if Bytes(s) + need > MaxCacheSize && s != [] then
      var r := Evict(s[..|s| - 1], need);
      assert s[..|s| - 1][..|r|] == s[..|r|];
      assert |r| + 1 < |s| ==> s[..|s| - 1][..|r| + 1] == s[..|r| + 1];
      assert |r| + 1 == |s| ==> s[..|r| + 1] == s;
      r
    else s
  }

  /** `cache_get`: on a match, a copy of the payload and the entry promoted; otherwise a miss. */
  function Get(s: seq<Entry>, key: string): Lookup
  {
    match Find(s, key)
    case None => Lookup(false, [], s)
    case Some(k) => Lookup(true, s[k].obj, Promote(s, k))
  }

  /**
   * `cache_put`: sizes outside 1..MaxObjectSize are ignored; a key already
   * present is promoted and keeps its payload; a new key is inserted at the
   * head after eviction.
   */
  function Put(s: seq<Entry>, key: string, buf: seq<byte>): seq<Entry>
  {
    if |buf| == 0 || |buf| > MaxObjectSize then s
    else match Find(s, key)
      case Some(k) => Promote(s, k)
      case None => [Entry(key, buf)] + Evict(s, |buf|)
  }

  lemma {:induction false} BytesAppend(a: seq<Entry>, b: seq<Entry>)
    ensures Bytes(a + b) == Bytes(a) + Bytes(b)
    decreases |b|
  {
    if b == [] {
      assert a + b == a;
    } else {
      assert (a + b)[..|a + b| - 1] == a + b[..|b| - 1];
      BytesAppend(a, b[..|b| - 1]);
    }
  }

  lemma {:induction false} BytesCons(e: Entry, s: seq<Entry>)
    ensures Bytes([e] + s) == |e.obj| + Bytes(s)
  {
    BytesAppend([e], s);
    assert [e][..0] == [];
  }

  /** Dropping entries from the tail never increases the byte total. */
  lemma {:induction false} BytesPrefix(s: seq<Entry>, n: nat)
    requires n <= |s|
    ensures Bytes(s[..n]) <= Bytes(s)
  {
    BytesAppend(s[..n], s[n..]);
    assert s[..n] + s[n..] == s;
  }

  lemma {:induction false} SplitAt<T>(s: seq<T>, k: nat)
    requires k < |s|
    ensures s[..k] + ([s[k]] + s[k + 1..]) == s
  {
  }

  lemma {:induction false} BytesMoveFront(a: seq<Entry>, x: Entry, b: seq<Entry>)
    ensures Bytes([x] + (a + b)) == Bytes(a + ([x] + b))
  {
    BytesAppend(a, [x] + b);
    BytesCons(x, b);
    BytesCons(x, a + b);
    BytesAppend(a, b);
  }

  /** Promotion moves an entry without changing the byte total. */
  lemma {:induction false} PromoteBytes(s: seq<Entry>, k: nat)
    requires k < |s|
    ensures Bytes(Promote(s, k)) == Bytes(s)
  {
    var a, x, b := s[..k], s[k], s[k + 1..];
    calc {
      Bytes(Promote(s, k));
      { assert Promote(s, k) == [x] + (a + b); }
      Bytes([x] + (a + b));
      { BytesMoveFront(a, x, b); }
      Bytes(a + ([x] + b));
      { SplitAt(s, k); }
      Bytes(s);
    }
  }

  /** Promotion keeps the cache invariant. */
  lemma {:induction false} PromoteWellformed(s: seq<Entry>, k: nat)
    requires k < |s| && Wellformed(s)
    ensures Wellformed(Promote(s, k))
  {
    var r := Promote(s, k);
    PromoteBytes(s, k);
    // position j of r holds the entry of s at Src(j)
    forall j | 0 <= j < |r|
      ensures r[j] == s[if j == 0 then k else if j <= k then j - 1 else j]
    {
    }
    forall i, j | 0 <= i < j < |r|
      ensures r[i].key != r[j].key
    {
      var si := if i == 0 then k else if i <= k then i - 1 else i;
      var sj := if j == 0 then k else if j <= k then j - 1 else j;
      assert si != sj;
      if si < sj { assert s[si].key != s[sj].key; } else { assert s[sj].key != s[si].key; }
    }
  }

  /** A prefix of a well-formed list is well formed. */
  lemma {:induction false} PrefixWellformed(s: seq<Entry>, n: nat)
    requires n <= |s| && Wellformed(s)
    ensures Wellformed(s[..n])
  {
    BytesPrefix(s, n);
  }

  /** `cache_put` with a size outside 1..MaxObjectSize leaves the list as it was. */
  lemma {:induction false} PutRejectsSize(s: seq<Entry>, key: string, buf: seq<byte>)
    requires |buf| == 0 || |buf| > MaxObjectSize
    ensures Put(s, key, buf) == s
  {
  }

  /**
   * `cache_put` of a key already present: the same entries, the same byte
   * total, the old payload (first write sticks) now most recently used.
   */
  lemma {:induction false} PutExisting(s: seq<Entry>, key: string, buf: seq<byte>, k: nat)
    requires 0 < |buf| <= MaxObjectSize
    requires k < |s| && s[k].key == key && Wellformed(s)
    ensures Find(s, key) == Some(k)
    ensures Put(s, key, buf) == Promote(s, k)
    ensures Put(s, key, buf)[0] == s[k]
    ensures multiset(Put(s, key, buf)) == multiset(s)
    ensures Bytes(Put(s, key, buf)) == Bytes(s)
  {
    PromoteBytes(s, k);
  }

  /** A new entry that fits, put in front of a well-formed list, keeps it well formed. */
  lemma {:induction false} ConsWellformed(x: Entry, s: seq<Entry>)
    requires Wellformed(s) && 0 < |x.obj| <= MaxObjectSize && Bytes(s) + |x.obj| <= MaxCacheSize
    requires forall j :: 0 <= j < |s| ==> s[j].key != x.key
    ensures Bytes([x] + s) == |x.obj| + Bytes(s)
    ensures Wellformed([x] + s)
  {
    var r := [x] + s;
    BytesCons(x, s);
    forall i, j | 0 <= i < j < |r| ensures r[i].key != r[j].key {
      assert r[j] == s[j - 1];
      if i > 0 { assert r[i] == s[i - 1]; }
    }
  }

  /**
   * `cache_put` of a new key with an admissible size: entries leave only
   * from the tail, as few as needed, and the new entry heads the list.
   */
  lemma {:induction false} PutNew(s: seq<Entry>, key: string, buf: seq<byte>)
    requires 0 < |buf| <= MaxObjectSize
    requires Find(s, key).None? && Wellformed(s)
    ensures var r := Put(s, key, buf);
      |r| >= 1 && r[0] == Entry(key, buf) &&
      r[1..] == s[..|r| - 1] &&
      (|r| - 1 < |s| ==> Bytes(s[..|r|]) + |buf| > MaxCacheSize) &&
      Bytes(r) == Bytes(r[1..]) + |buf| <= MaxCacheSize &&
      Find(r, key) == Some(0) &&
      Wellformed(r)
  {
    var e := Evict(s, |buf|);
    var r := [Entry(key, buf)] + e;
    assert r[1..] == e;
    PrefixWellformed(s, |e|);
    ConsWellformed(Entry(key, buf), e);
  }

  /** `cache_put` keeps the cache invariant, whichever branch it takes. */
  lemma {:induction false} PutWellformed(s: seq<Entry>, key: string, buf: seq<byte>)
    requires Wellformed(s)
    ensures Wellformed(Put(s, key, buf))
  {
    if 0 < |buf| <= MaxObjectSize {
      match Find(s, key)
      case Some(k) => PromoteWellformed(s, k);
      case None => PutNew(s, key, buf);
    }
  }

  /** `cache_get` keeps the cache invariant and never changes the byte total. */
  lemma {:induction false} GetWellformed(s: seq<Entry>, key: string)
    requires Wellformed(s)
    ensures Wellformed(Get(s, key).after)
    ensures Bytes(Get(s, key).after) == Bytes(s)
  {
    match Find(s, key)
    case Some(k) => PromoteWellformed(s, k); PromoteBytes(s, k);
    case None =>
  }

  /**
   * `cache_get` hits exactly when some entry has the key; it then returns
   * that entry's payload and moves it to the head, the others keeping their
   * relative order. A miss returns nothing and changes nothing.
   */
  lemma {:induction false} GetMeaning(s: seq<Entry>, key: string)
    requires Wellformed(s)
    ensures var g := Get(s, key);
      (g.hit <==> exists j :: 0 <= j < |s| && s[j].key == key) &&
      (!g.hit ==> g.out == [] && g.after == s) &&
      (forall j :: 0 <= j < |s| && s[j].key == key ==>
         g.out == s[j].obj && g.after == Promote(s, j))
  {
    forall j | 0 <= j < |s| && s[j].key == key ensures Find(s, key) == Some(j) {
    }
  }

  /** Two reads in a row return the same payload, and the second changes nothing. */
  lemma {:induction false} GetTwice(s: seq<Entry>, key: string)
    ensures var g := Get(s, key); var g2 := Get(g.after, key);
      g2.hit == g.hit && g2.out == g.out && g2.after == g.after
  {
    var g := Get(s, key);
    if g.hit {
      var t := g.after;
      assert Find(t, key) == Some(0);
      assert Promote(t, 0) == t;
    }
  }

  /**
   * After `cache_put` of an admissible object, a read of that key hits and
   * returns the payload the cache holds for it: the new bytes when the key
   * was absent, the first stored bytes otherwise.
   */
  lemma {:induction false} GetAfterPut(s: seq<Entry>, key: string, buf: seq<byte>)
    requires Wellformed(s) && 0 < |buf| <= MaxObjectSize
    ensures var r := Put(s, key, buf); var g := Get(r, key);
      g.hit && g.after == r &&
      g.out == (match Find(s, key) case Some(k) => s[k].obj case None => buf)
  {
    var r := Put(s, key, buf);
    match Find(s, key)
    case Some(k) =>
      assert r[0] == s[k];
    case None =>
      PutNew(s, key, buf);
    assert Find(r, key) == Some(0);
    assert Promote(r, 0) == r;
  }

  /**
   * When exactly one eviction makes room, the victim is the least recently
   * used entry, the tail of the list.
   */
  lemma {:induction false} EvictsTailFirst(s: seq<Entry>, key: string, buf: seq<byte>)
    requires Wellformed(s) && Find(s, key).None? && 0 < |buf| <= MaxObjectSize
    requires Bytes(s) + |buf| > MaxCacheSize
    requires Bytes(s[..|s| - 1]) + |buf| <= MaxCacheSize
    ensures Put(s, key, buf) == [Entry(key, buf)] + s[..|s| - 1]
  {
    var e := Evict(s, |buf|);
    if |e| < |s| - 1 {
      assert s[..|s| - 1][..|e| + 1] == s[..|e| + 1];
      BytesPrefix(s[..|s| - 1], |e| + 1);
    }
  }

  /**
   * A read promotes its entry, so with two or more entries the entry just
   * read is no longer the tail: the next single eviction takes another one.
   */
  lemma {:induction false} GetShieldsFromEviction(s: seq<Entry>, key: string, k: nat)
    requires Wellformed(s) && 2 <= |s| && k < |s| && s[k].key == key
    ensures var t := Get(s, key).after; t[|t| - 1].key != key && t[0] == s[k]
  {
    GetMeaning(s, key);
    var t := Promote(s, k);
    if k == |s| - 1 {
      assert t[|t| - 1] == s[|s| - 2];
      assert s[|s| - 2].key != s[k].key;
    } else {
      assert t[|t| - 1] == s[|s| - 1];
      assert s[k].key != s[|s| - 1].key;
    }
  }
}
