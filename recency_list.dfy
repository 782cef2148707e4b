/**
 * The doubly linked recency list of proxy.c:12-21, over an index arena: a
 * handle names a slot, `prev` and `next` are the link fields of every slot,
 * and Null stands for the NULL pointer. The list itself is the sequence of
 * handles met from `chead` to `ctail`.
 */
module RecencyList {
  import opened CacheSpec

  /** The NULL pointer: a handle naming no slot. */
  const Null: int := -1

  /** The links of the slot at position i of the list: its neighbours in `order`, Null at the ends. */
  ghost predicate LinkAt(prev: seq<int>, next: seq<int>, order: seq<nat>, i: nat)
    requires i < |order|
  {
    order[i] < |prev| && order[i] < |next| &&
    prev[order[i]] == (if i == 0 then Null else order[i - 1]) &&
    next[order[i]] == (if i == |order| - 1 then Null else order[i + 1])
  }

  /**
   * `order` is exactly the chain of slots linked from `head` to `tail`:
   * distinct allocated handles, `head` the first and `tail` the last (both
   * Null when the list is empty), every slot's `prev` the one before it
   * (Null for the head) and `next` the one after it (Null for the tail).
   */
  ghost predicate Linked(prev: seq<int>, next: seq<int>, order: seq<nat>, head: int, tail: int)
  {
    |prev| == |next| &&
    (forall i :: 0 <= i < |order| ==> order[i] < |next|) &&
    (forall i, j :: 0 <= i < j < |order| ==> order[i] != order[j]) &&
    head == (if |order| == 0 then Null else order[0]) &&
    tail == (if |order| == 0 then Null else order[|order| - 1]) &&
    (forall i :: 0 <= i < |order| ==> LinkAt(prev, next, order, i))
  }

  /** The handles met by following `links` from h, at most `fuel` of them, stopping at Null. */
  function Follow(links: seq<int>, h: int, fuel: nat): seq<int>
    decreases fuel
  {
    if fuel == 0 || h < 0 || h >= |links| then [] else [h] + Follow(links, links[h], fuel - 1)
  }

  function Reverse<T>(s: seq<T>): (r: seq<T>)
    ensures |r| == |s|
  {
    if s == [] then [] else [s[|s| - 1]] + Reverse(s[..|s| - 1])
  }

  lemma {:induction false} FollowNextFrom(prev: seq<int>, next: seq<int>, order: seq<nat>, head: int, tail: int, k: nat, fuel: nat)
    requires Linked(prev, next, order, head, tail)
    requires k <= |order| && fuel >= |order| - k
    ensures Follow(next, if k < |order| then order[k] else Null, fuel) == order[k..]
    decreases |order| - k
  {
    if k < |order| {
      assert LinkAt(prev, next, order, k);
      FollowNextFrom(prev, next, order, head, tail, k + 1, fuel - 1);
      assert order[k..] == [order[k]] + order[k + 1..];
    }
  }

  lemma {:induction false} FollowPrevFrom(prev: seq<int>, next: seq<int>, order: seq<nat>, head: int, tail: int, k: nat, fuel: nat)
    requires Linked(prev, next, order, head, tail)
    requires k <= |order| && fuel >= k
    ensures Follow(prev, if k > 0 then order[k - 1] else Null, fuel) == Reverse(order[..k])
    decreases k
  {
    if k > 0 {
      assert LinkAt(prev, next, order, k - 1);
      FollowPrevFrom(prev, next, order, head, tail, k - 1, fuel - 1);
      assert order[..k][..k - 1] == order[..k - 1];
    }
  }

  /**
   * A well-linked list reads the same both ways: following `next` from the
   * head visits `order`, following `prev` from the tail visits it backwards,
   * and both walks end at Null after the last entry.
   */
  lemma {:induction false} Traversals(prev: seq<int>, next: seq<int>, order: seq<nat>, head: int, tail: int, fuel: nat)
    requires Linked(prev, next, order, head, tail)
    requires fuel >= |order|
    ensures Follow(next, head, fuel) == order
    ensures Follow(prev, tail, fuel) == Reverse(order)
  {
    FollowNextFrom(prev, next, order, head, tail, 0, fuel);
    FollowPrevFrom(prev, next, order, head, tail, |order|, fuel);
    assert order[0..] == order && order[..|order|] == order;
  }

  /** Promotion keeps the handles of a list distinct. */
  lemma {:induction false} PromoteDistinct(order: seq<nat>, k: nat)
    requires k < |order|
    requires forall i, j :: 0 <= i < j < |order| ==> order[i] != order[j]
    ensures var o := Promote(order, k); forall i, j :: 0 <= i < j < |o| ==> o[i] != o[j]
  {
    var o := Promote(order, k);
    forall i, j | 0 <= i < j < |o| ensures o[i] != o[j] {
      var si := if i == 0 then k else if i <= k then i - 1 else i;
      var sj := if j == 0 then k else if j <= k then j - 1 else j;
      assert o[i] == order[si] && o[j] == order[sj] && si != sj;
    }
  }

  /** One position of the relinked list of `lru_move_to_head`. */
  lemma {:induction false} MoveToHeadLinkAt(prev: seq<int>, next: seq<int>, order: seq<nat>, head: int, tail: int, k: nat,
                                            prev': seq<int>, next': seq<int>, i: nat)
    requires Linked(prev, next, order, head, tail)
    requires 0 < k < |order| && i < |order|
    requires var e := order[k]; var p := order[k - 1];
      var n := if k == |order| - 1 then Null else order[k + 1];
      next' == next[p := n][e := head] &&
      prev' == (if n != Null then prev[n := p] else prev)[e := Null][head := e]
    ensures LinkAt(prev', next', Promote(order, k), i)
  {
    var e := order[k];
    var p := order[k - 1];
    var n := if k == |order| - 1 then Null else order[k + 1];
    var o := Promote(order, k);
    assert LinkAt(prev, next, order, 0);
    if i == 0 {
      assert o[0] == e && o[1] == head;
    } else if i == 1 {
      assert o[1] == head && o[0] == e;
      if k == 1 {
        assert k + 1 < |order| ==> o[2] == n;
      } else {
        assert o[2] == order[1];
      }
    } else if i <= k {
      assert o[i] == order[i - 1] && o[i - 1] == order[i - 2];
      assert LinkAt(prev, next, order, i - 1);
      assert order[i - 1] != head && order[i - 1] != e;
      assert n != Null ==> order[i - 1] != n;
      if i < k { assert o[i + 1] == order[i]; } else { assert order[i - 1] == p; }
    } else {
      assert o[i] == order[i];
      assert o[i - 1] == if i == k + 1 then p else order[i - 1];
      assert LinkAt(prev, next, order, i);
      assert order[i] != head && order[i] != e && order[i] != p;
      assert i + 1 < |o| ==> o[i + 1] == order[i + 1];
    }
  }

  /**
   * The link surgery of `lru_move_to_head` (proxy.c:28-36) on an entry that
   * is not the head relinks the list so that it reads Promote(order, k).
   */
  lemma {:induction false} MoveToHeadLinks(prev: seq<int>, next: seq<int>, order: seq<nat>, head: int, tail: int, k: nat)
    requires Linked(prev, next, order, head, tail)
    requires 0 < k < |order|
    ensures prev[order[k]] == order[k - 1]
    ensures next[order[k]] == if k == |order| - 1 then Null else order[k + 1]
    ensures var e := order[k]; var p := order[k - 1];
      var n := if k == |order| - 1 then Null else order[k + 1];
      var next' := next[p := n][e := head];
      var prev' := (if n != Null then prev[n := p] else prev)[e := Null][head := e];
      Linked(prev', next', Promote(order, k), e, if e == tail then p else tail)
  {
    assert LinkAt(prev, next, order, k);
    assert LinkAt(prev, next, order, |order| - 1);
    var e := order[k];
    var p := order[k - 1];
    var n := if k == |order| - 1 then Null else order[k + 1];
    var next' := next[p := n][e := head];
    var prev' := (if n != Null then prev[n := p] else prev)[e := Null][head := e];
    var o := Promote(order, k);
    PromoteDistinct(order, k);
    forall i | 0 <= i < |o| ensures LinkAt(prev', next', o, i) {
      MoveToHeadLinkAt(prev, next, order, head, tail, k, prev', next', i);
    }
    assert o[|o| - 1] == if e == tail then p else tail;
  }

  /**
   * The tail unlinking of `del_until` (proxy.c:44-47): the list loses its
   * last handle, and an emptied list has both ends Null.
   */
  lemma {:induction false} DropTailLinks(prev: seq<int>, next: seq<int>, order: seq<nat>, head: int, tail: int)
    requires Linked(prev, next, order, head, tail)
    requires order != []
    ensures prev[tail] == if |order| == 1 then Null else order[|order| - 2]
    ensures var t := if |order| == 1 then Null else order[|order| - 2];
      Linked(prev, if t != Null then next[t := Null] else next, order[..|order| - 1],
             if t != Null then head else Null, t)
  {
    assert LinkAt(prev, next, order, |order| - 1);
    var t := if |order| == 1 then Null else order[|order| - 2];
    var next' := if t != Null then next[t := Null] else next;
    var o := order[..|order| - 1];
    forall i | 0 <= i < |o| ensures LinkAt(prev, next', o, i) {
      assert o[i] == order[i];
      assert LinkAt(prev, next, order, i);
      if i < |o| - 1 { assert order[i] != t; assert o[i + 1] == order[i + 1]; }
      if i > 0 { assert o[i - 1] == order[i - 1]; }
    }
  }

  /**
   * The head insertion of `cache_put` (proxy.c:110-114) for a freshly
   * allocated slot h: the list gains h in front.
   */
  lemma {:induction false} PushFrontLinks(prev: seq<int>, next: seq<int>, order: seq<nat>, head: int, tail: int)
    requires Linked(prev, next, order, head, tail)
    ensures var h := |next|;
      var prev1 := prev + [Null];
      Linked(if head != Null then prev1[head := h] else prev1, next + [head], [h] + order,
             h, if head != Null then tail else h)
  {
    var h := |next|;
    var o := [h] + order;
    var prev1 := prev + [Null];
    var prev' := if head != Null then prev1[head := h] else prev1;
    var next' := next + [head];
    forall i | 0 <= i < |order| ensures order[i] != h {
      assert LinkAt(prev, next, order, i);
    }
    forall i | 0 <= i < |o| ensures LinkAt(prev', next', o, i) {
      if i == 0 {
        if order != [] { assert o[1] == order[0]; }
      } else {
        assert o[i] == order[i - 1];
        assert LinkAt(prev, next, order, i - 1);
        if i > 1 { assert order[i - 1] != head; assert o[i - 1] == order[i - 2]; }
        if i < |o| - 1 { assert o[i + 1] == order[i]; }
      }
    }
  }
}
