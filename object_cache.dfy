/**
 * The proxy's object cache (proxy.c:12-119): the globals `chead`, `ctail`
 * and `cache_bytes` with the entries they link, as one object. Every call is
 * one atomic step; the mutex that serialises calls is not modelled. The
 * pointer work of each routine is done by the matching method of Arena on
 * the fields, which are then written back.
 */
module ObjectCache {
  import opened Basics
  import S = CacheSpec
  import opened RecencyList
  import Arena

  class Cache {
    /** Key and payload of every slot ever allocated; freed slots stay unreachable. */
    var slots: seq<S.Entry>
    /** The `prev` and `next` fields of every slot. */
    var prev: seq<int>
    var next: seq<int>
    /** `chead` and `ctail`. */
    var head: int
    var tail: int
    /** `cache_bytes`. */
    var cacheBytes: nat
    /** The handles of the list, from head to tail. */
    ghost var order: seq<nat>
    /** The entries of the list, most recently used first. */
    ghost var contents: seq<S.Entry>

    /** The linked list is well formed, holds `contents`, `cache_bytes` is its byte total, and the cache invariant holds. */
    ghost predicate Valid()
      reads this
    {
      Arena.Inv(slots, prev, next, head, tail, cacheBytes, order, contents)
    }

    /** The empty cache of proxy.c:21-22. */
    constructor ()
      ensures Valid() && contents == []
      ensures head == Null && tail == Null && cacheBytes == 0
    {
      slots, prev, next := [], [], [];
      head, tail, cacheBytes := Null, Null, 0;
      order, contents := [], [];
    }

    /**
     * `lru_move_to_head` (proxy.c:25-38): the entry at position k of the list
     * becomes its head; nothing happens for NULL or for the head itself.
     */
    method MoveToHead(e: int, ghost k: nat)
      requires Valid()
      requires e == Null || (k < |order| && order[k] == e)
      modifies this
      ensures Valid()
      ensures slots == old(slots) && cacheBytes == old(cacheBytes)
      ensures order == if e == Null then old(order) else S.Promote(old(order), k)
      ensures contents == if e == Null then old(contents) else S.Promote(old(contents), k)
    {
      prev, next, head, tail, order, contents :=
        Arena.MoveToHead(slots, prev, next, head, tail, cacheBytes, order, contents, e, k);
    }

    /**
     * `del_until` (proxy.c:40-54): frees the tail entry until `need` more
     * bytes fit under MaxCacheSize or the list is empty.
     */
    method DelUntil(need: nat)
      requires Valid()
      modifies this
      ensures Valid()
      ensures slots == old(slots) && prev == old(prev)
      ensures |order| <= |old(order)| && order == old(order)[..|order|]
      ensures contents == S.Evict(old(contents), need)
      ensures order == [] ==> head == Null && tail == Null
    {
      next, head, tail, cacheBytes, order, contents :=
        Arena.DelUntil(slots, prev, next, head, tail, cacheBytes, order, contents, need);
    }

    /**
     * `cache_get` (proxy.c:56-77): scans from the head for the key; on a
     * match promotes the entry and returns a copy of its payload and its
     * size, otherwise reports a miss with an empty result.
     */
    method Get(key: string) returns (hit: bool, out: seq<byte>, outLen: nat)
      requires Valid()
      modifies this
      ensures Valid()
      ensures var g := S.Get(old(contents), key);
        hit == g.hit && out == g.out && contents == g.after
      ensures outLen == |out| && cacheBytes == old(cacheBytes) && slots == old(slots)
    {
      hit, out, outLen := false, [], 0;
      var e;
      ghost var i;
      e, i := Arena.Scan(slots, prev, next, head, tail, cacheBytes, order, contents, key);
      if e != Null {
        MoveToHead(e, i);
        out := slots[e].obj;
        outLen := |out|;
        hit := true;
      }
    }

    /**
     * The insertion step of `cache_put` (proxy.c:101-116): a fresh entry
     * holding the key and a copy of the object is linked in front and its
     * size added to `cache_bytes`.
     */
    method PushFront(key: string, buf: seq<byte>)
      requires Valid()
      requires S.Find(contents, key).None? && 0 < |buf| <= MaxObjectSize && cacheBytes + |buf| <= MaxCacheSize
      modifies this
      ensures Valid()
      ensures contents == [S.Entry(key, buf)] + old(contents)
      ensures slots == old(slots) + [S.Entry(key, buf)] && order == [|old(slots)|] + old(order)
    {
      slots, prev, next, head, tail, cacheBytes, order, contents :=
        Arena.PushFront(slots, prev, next, head, tail, cacheBytes, order, contents, key, buf);
    }

    /**
     * `cache_put` (proxy.c:79-119): ignores an empty or oversized object;
     * promotes an entry already holding the key without touching it;
     * otherwise evicts from the tail and inserts a new entry at the head.
     */
    method Put(key: string, buf: seq<byte>)
      requires Valid()
      modifies this
      ensures Valid()
      ensures contents == S.Put(old(contents), key, buf)
      ensures |buf| == 0 || |buf| > MaxObjectSize ==> unchanged(this)
    {
      if |buf| == 0 || |buf| > MaxObjectSize { return; }
      var e;
      ghost var i;
      e, i := Arena.Scan(slots, prev, next, head, tail, cacheBytes, order, contents, key);
      if e != Null {
        MoveToHead(e, i);
        return;
      }
      DelUntil(|buf|);
      PushFront(key, buf);
    }
  }
}
