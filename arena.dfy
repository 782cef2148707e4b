/**
 * The cache routines of proxy.c:25-119 as they work on the entry nodes: slot
 * h of `slots`, `prev` and `next` is the node a handle h points to, `head`
 * and `tail` are `chead` and `ctail`, `bytes` is `cache_bytes`. Each method
 * performs the C statements in order on these values and returns the
 * fields it writes; `order` (the handles from head to tail) and `contents`
 * (the entries in that order) are the ghost view the contracts speak about.
 */
module Arena {
  import opened Basics
  import S = CacheSpec
  import opened RecencyList

  /**
   * The nodes form one well-linked list from head to tail, `contents` is what
   * the list holds, `bytes` is its payload total, and the cache invariant holds.
   */
  ghost predicate Inv(slots: seq<S.Entry>, prev: seq<int>, next: seq<int>, head: int, tail: int, bytes: nat,
                      order: seq<nat>, contents: seq<S.Entry>)
  {
    |slots| == |next| &&
    Linked(prev, next, order, head, tail) &&
    |contents| == |order| &&
    (forall i :: 0 <= i < |order| ==> contents[i] == slots[order[i]]) &&
    bytes == S.Bytes(contents) &&
    S.Wellformed(contents)
  }

  /** The relinking of `lru_move_to_head` on an entry other than the head keeps the invariant, with the entry promoted. */
  lemma {:induction false} MoveToHeadInv(slots: seq<S.Entry>, prev: seq<int>, next: seq<int>, head: int, tail: int, bytes: nat,
                                         order: seq<nat>, contents: seq<S.Entry>, k: nat)
    requires Inv(slots, prev, next, head, tail, bytes, order, contents)
    requires 0 < k < |order|
    ensures prev[order[k]] == order[k - 1]
    ensures next[order[k]] == if k == |order| - 1 then Null else order[k + 1]
    ensures var e := order[k]; var p := order[k - 1];
      var n := if k == |order| - 1 then Null else order[k + 1];
      var next' := next[p := n][e := head];
      var prev' := (if n != Null then prev[n := p] else prev)[e := Null][head := e];
      Inv(slots, prev', next', e, if e == tail then p else tail, bytes, S.Promote(order, k), S.Promote(contents, k))
  {
    MoveToHeadLinks(prev, next, order, head, tail, k);
    S.PromoteBytes(contents, k);
    S.PromoteWellformed(contents, k);
    var o := S.Promote(order, k);
    var c := S.Promote(contents, k);
    forall i | 0 <= i < |o| ensures c[i] == slots[o[i]] {
      if i == 0 { } else if i <= k { assert o[i] == order[i - 1]; } else { assert o[i] == order[i]; }
    }
  }

  /** Unlinking the tail, as one round of `del_until` does, keeps the invariant for the shorter list. */
  lemma {:induction false} DropTailInv(slots: seq<S.Entry>, prev: seq<int>, next: seq<int>, head: int, tail: int, bytes: nat,
                                       order: seq<nat>, contents: seq<S.Entry>)
    requires Inv(slots, prev, next, head, tail, bytes, order, contents)
    requires order != []
    ensures 0 <= tail < |slots| && contents[|contents| - 1] == slots[tail]
    ensures prev[tail] == if |order| == 1 then Null else order[|order| - 2]
    ensures bytes >= |slots[tail].obj|
    ensures var t := if |order| == 1 then Null else order[|order| - 2];
      Inv(slots, prev, if t != Null then next[t := Null] else next, if t != Null then head else Null, t,
          bytes - |slots[tail].obj|, order[..|order| - 1], contents[..|contents| - 1])
  {
    DropTailLinks(prev, next, order, head, tail);
    assert LinkAt(prev, next, order, |order| - 1);
    var c := contents[..|contents| - 1];
    assert contents == c + [contents[|contents| - 1]];
    S.BytesAppend(c, [contents[|contents| - 1]]);
    S.PrefixWellformed(contents, |c|);
  }

  /** Linking a fresh node holding a new key in front, as `cache_put` does, keeps the invariant once the object fits. */
  lemma {:induction false} PushFrontInv(slots: seq<S.Entry>, prev: seq<int>, next: seq<int>, head: int, tail: int, bytes: nat,
                                        order: seq<nat>, contents: seq<S.Entry>, x: S.Entry)
    requires Inv(slots, prev, next, head, tail, bytes, order, contents)
    requires S.Find(contents, x.key).None? && 0 < |x.obj| <= MaxObjectSize && bytes + |x.obj| <= MaxCacheSize
    ensures var h := |slots|;
      var prev1 := prev + [Null];
      Inv(slots + [x], if head != Null then prev1[head := h] else prev1, next + [head], h,
          if head != Null then tail else h, bytes + |x.obj|, [h] + order, [x] + contents)
  {
    PushFrontLinks(prev, next, order, head, tail);
    S.ConsWellformed(x, contents);
    var h := |slots|;
    var o := [h] + order;
    var c := [x] + contents;
    var sl := slots + [x];
    forall i | 0 <= i < |o| ensures c[i] == sl[o[i]] {
      if i > 0 { assert o[i] == order[i - 1] && c[i] == contents[i - 1]; }
    }
  }

  /**
   * `lru_move_to_head` (proxy.c:25-38): the entry e, found at position k of
   * the list, is unlinked and relinked in front; nothing happens for NULL or
   * for the head itself. Answers the new `prev`, `next`, `chead`, `ctail`.
   */
  method MoveToHead(slots: seq<S.Entry>, prev: seq<int>, next: seq<int>, head: int, tail: int, bytes: nat,
                    ghost order: seq<nat>, ghost contents: seq<S.Entry>, e: int, ghost k: nat)
    returns (prev': seq<int>, next': seq<int>, head': int, tail': int, ghost order': seq<nat>, ghost contents': seq<S.Entry>)
    requires Inv(slots, prev, next, head, tail, bytes, order, contents)
    requires e == Null || (k < |order| && order[k] == e)
    ensures Inv(slots, prev', next', head', tail', bytes, order', contents')
    ensures order' == if e == Null then order else S.Promote(order, k)
    ensures contents' == if e == Null then contents else S.Promote(contents, k)
  {
    prev', next', head', tail', order', contents' := prev, next, head, tail, order, contents;
    if e == Null { return; }
    if e == head {
      assert k == 0;
      S.PromoteHead(order);
      S.PromoteHead(contents);
      return;
    }
    MoveToHeadInv(slots, prev, next, head, tail, bytes, order, contents, k);
    var p := prev[e];
    var n := next[e];
    next' := next'[p := n];
    if e == tail' { tail' := p; }
    if n != Null { prev' := prev'[n := p]; }
    prev' := prev'[e := Null];
    next' := next'[e := head'];
    prev' := prev'[head' := e];
    head' := e;
    if tail' == Null { tail' := e; }
    order', contents' := S.Promote(order, k), S.Promote(contents, k);
  }

  /**
   * `del_until` (proxy.c:40-54): unlinks tail entries until `need` more
   * bytes fit under MaxCacheSize or the list is empty. The victims' nodes
   * are freed, so their `prev` fields are never read again and stay as they were.
   */
  method DelUntil(slots: seq<S.Entry>, prev: seq<int>, next: seq<int>, head: int, tail: int, bytes: nat,
                  ghost order: seq<nat>, ghost contents: seq<S.Entry>, need: nat)
    returns (next': seq<int>, head': int, tail': int, bytes': nat, ghost order': seq<nat>, ghost contents': seq<S.Entry>)
    requires Inv(slots, prev, next, head, tail, bytes, order, contents)
    ensures Inv(slots, prev, next', head', tail', bytes', order', contents')
    ensures |order'| <= |order| && order' == order[..|order'|]
    ensures contents' == S.Evict(contents, need)
    ensures order' == [] ==> head' == Null && tail' == Null
  {
    next', head', tail', bytes', order', contents' := next, head, tail, bytes, order, contents;
    while bytes' + need > MaxCacheSize && tail' != Null
      invariant Inv(slots, prev, next', head', tail', bytes', order', contents')
      invariant |order'| <= |order| && order' == order[..|order'|]
      invariant S.Evict(contents', need) == S.Evict(contents, need)
      decreases |order'|
    {
      DropTailInv(slots, prev, next', head', tail', bytes', order', contents');
      var vic := tail';
      tail' := prev[vic];
      if tail' != Null { next' := next'[tail' := Null]; } else { head' := Null; }
      bytes' := bytes' - |slots[vic].obj|;
      assert order[..|order'| - 1] == order'[..|order'| - 1];
      order', contents' := order'[..|order'| - 1], contents'[..|contents'| - 1];
    }
  }

  /**
   * The scan shared by `cache_get` (proxy.c:62-74) and `cache_put`
   * (proxy.c:86-95): follows `next` from the head and stops at the first
   * entry whose key equals `key`; Null when there is none.
   */
  method Scan(slots: seq<S.Entry>, prev: seq<int>, next: seq<int>, head: int, tail: int, bytes: nat,
              ghost order: seq<nat>, ghost contents: seq<S.Entry>, key: string)
    returns (e: int, ghost i: nat)
    requires Inv(slots, prev, next, head, tail, bytes, order, contents)
    ensures e == Null <==> S.Find(contents, key).None?
    ensures e != Null ==> S.Find(contents, key) == Some(i) && i < |order| && order[i] == e
  {
    e, i := head, 0;
    while e != Null
      invariant i <= |order| && e == if i < |order| then order[i] else Null
      invariant forall j :: 0 <= j < i ==> contents[j].key != key
      decreases |order| - i
    {
      assert LinkAt(prev, next, order, i);
      if slots[e].key == key {
        assert contents[i].key == key;
        return;
      }
      e := next[e];
      i := i + 1;
    }
  }

  /**
   * The insertion of `cache_put` (proxy.c:101-116): a fresh node with the
   * key and a copy of the object is allocated and linked in front, and its
   * size is added to `cache_bytes`.
   */
  method PushFront(slots: seq<S.Entry>, prev: seq<int>, next: seq<int>, head: int, tail: int, bytes: nat,
                   ghost order: seq<nat>, ghost contents: seq<S.Entry>, key: string, buf: seq<byte>)
    returns (slots': seq<S.Entry>, prev': seq<int>, next': seq<int>, head': int, tail': int, bytes': nat,
             ghost order': seq<nat>, ghost contents': seq<S.Entry>)
    requires Inv(slots, prev, next, head, tail, bytes, order, contents)
    requires S.Find(contents, key).None? && 0 < |buf| <= MaxObjectSize && bytes + |buf| <= MaxCacheSize
    ensures Inv(slots', prev', next', head', tail', bytes', order', contents')
    ensures contents' == [S.Entry(key, buf)] + contents
    ensures slots' == slots + [S.Entry(key, buf)] && order' == [|slots|] + order
  {
    PushFrontInv(slots, prev, next, head, tail, bytes, order, contents, S.Entry(key, buf));
    var newe := |slots|;
    slots' := slots + [S.Entry(key, buf)];
    prev' := prev + [Null];
    next' := next + [head];
    tail' := tail;
    if head != Null { prev' := prev'[head := newe]; } else { tail' := newe; }
    head' := newe;
    bytes' := bytes + |buf|;
    order', contents' := [newe] + order, [S.Entry(key, buf)] + contents;
  }
}
