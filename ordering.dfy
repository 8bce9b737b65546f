/**
 * The PUT on the ordering route: the body must carry an array `order`; the
 * stored list drops falsy ids and every repeat of an id already kept.
 */
module Ordering {
  import opened Wrappers
  import opened Json
  import opened Sequences

  datatype OrderingError = OrderNotArray

  predicate Distinct(s: seq<Json>) {
    forall i, j :: 0 <= i < j < |s| ==> s[i] != s[j]
  }

  /**
   * `order.filter(id => id && !seen.has(id) && seen.add(id))`, started with
   * the ids already in `seen`: the result holds each truthy id of `order` that
   * is not in `seen`, once.
   */
  function KeepFirst(order: seq<Json>, seen: set<Json>): (r: seq<Json>)
    ensures |r| <= |order|
    ensures forall x :: x in r ==> Truthy(x) && x !in seen && x in order
    ensures forall x :: x in order && Truthy(x) && x !in seen ==> x in r
    ensures Distinct(r)
  {
    if order == [] then []
    else
      var id := order[0];
      if Truthy(id) && id !in seen then [id] + KeepFirst(order[1..], seen + {id})
      else KeepFirst(order[1..], seen)
  }

  /** The cleaned ordering list. */
  function CleanOrder(order: seq<Json>): (r: seq<Json>)
    ensures Distinct(r)
    ensures forall x :: x in r <==> x in order && Truthy(x)
  {
    KeepFirst(order, {})
  }

  /** The route's answer: 400 unless `order` is an array, else the cleaned list. */
  function PutOrdering(order: Json): (r: Result<seq<Json>, OrderingError>)
    ensures r.Failure? <==> !order.JArr?
    ensures r.Success? ==> r.value == CleanOrder(order.items)
  {
    if !order.JArr? then Failure(OrderNotArray) else Success(CleanOrder(order.items))
  }

  lemma {:induction false} KeepFirstIsSubsequence(order: seq<Json>, seen: set<Json>)
    ensures IsSubsequence(KeepFirst(order, seen), order)
    decreases |order|
  {
    if order != [] {
      var id := order[0];
      if Truthy(id) && id !in seen {
        KeepFirstIsSubsequence(order[1..], seen + {id});
        assert ([id] + KeepFirst(order[1..], seen + {id}))[1..] == KeepFirst(order[1..], seen + {id});
      } else {
        KeepFirstIsSubsequence(order[1..], seen);
        var r := KeepFirst(order[1..], seen);
        if r != [] {
          assert r[0] in r;
          assert r[0] != id;
        }
      }
    }
  }

  /** The cleaned list keeps its ids in the order of the input. */
  lemma CleanOrderIsSubsequence(order: seq<Json>)
    ensures IsSubsequence(CleanOrder(order), order)
  {
    KeepFirstIsSubsequence(order, {});
  }

  /** The position where `x` first occurs in `s`. */
  function FirstIndex(s: seq<Json>, x: Json): (k: nat)
    requires x in s
    ensures k < |s| && s[k] == x && x !in s[..k]
  {
    if s[0] == x then 0
    else
      var k := FirstIndex(s[1..], x);
      assert s[..k + 1] == [s[0]] + s[1..][..k];
      k + 1
  }

  /** Every element of `r` occurs in `s`, and `r` lists them in the order of their first occurrences in `s`. */
  predicate FirstOccurrenceOrder(r: seq<Json>, s: seq<Json>) {
    && (forall x :: x in r ==> x in s)
    && forall i, j :: 0 <= i < j < |r| ==> FirstIndex(s, r[i]) < FirstIndex(s, r[j])
  }

  /** An id other than the head first occurs one place later than in the tail. */
  lemma FirstIndexOfTail(s: seq<Json>, x: Json)
    requires s != [] && x in s[1..] && x != s[0]
    ensures FirstIndex(s, x) == FirstIndex(s[1..], x) + 1
  {
  }

  /** Ordered by first occurrence in the tail, and avoiding the head: ordered in the whole list. */
  lemma OrderWithoutHead(r: seq<Json>, s: seq<Json>)
    requires s != [] && s[0] !in r
    requires FirstOccurrenceOrder(r, s[1..])
    ensures FirstOccurrenceOrder(r, s)
    ensures forall k :: 0 <= k < |r| ==> FirstIndex(s, r[k]) > 0
  {
    assert forall x :: x in s[1..] ==> x in s;
    forall k | 0 <= k < |r| ensures r[k] in r && r[k] in s && FirstIndex(s, r[k]) == FirstIndex(s[1..], r[k]) + 1 {
      assert r[k] in r;
      FirstIndexOfTail(s, r[k]);
    }
  }

  /** Putting the head of `s` in front of such a list keeps it ordered. */
  lemma OrderWithHead(r: seq<Json>, s: seq<Json>)
    requires s != [] && s[0] !in r
    requires FirstOccurrenceOrder(r, s[1..])
    ensures FirstOccurrenceOrder([s[0]] + r, s)
  {
    OrderWithoutHead(r, s);
    var t := [s[0]] + r;
    assert FirstIndex(s, s[0]) == 0;
    forall i, j | 0 <= i < j < |t| ensures FirstIndex(s, t[i]) < FirstIndex(s, t[j]) {
      assert t[j] == r[j - 1];
      if i > 0 {
        assert t[i] == r[i - 1];
      }
    }
  }

  /**
   * Each id is kept where it first occurs: the ids of the result appear in
   * the order of their first occurrences in the input.
   */
  lemma {:induction false} KeepFirstFollowsFirstOccurrences(order: seq<Json>, seen: set<Json>)
    ensures FirstOccurrenceOrder(KeepFirst(order, seen), order)
    decreases |order|
  {
    if order != [] {
      var id := order[0];
      if Truthy(id) && id !in seen {
        KeepFirstFollowsFirstOccurrences(order[1..], seen + {id});
        OrderWithHead(KeepFirst(order[1..], seen + {id}), order);
      } else {
        KeepFirstFollowsFirstOccurrences(order[1..], seen);
        OrderWithoutHead(KeepFirst(order[1..], seen), order);
      }
    }
  }

  /** The cleaned list is the input's truthy ids, each once, in order of first occurrence. */
  lemma CleanOrderFollowsFirstOccurrences(order: seq<Json>)
    ensures FirstOccurrenceOrder(CleanOrder(order), order)
  {
    KeepFirstFollowsFirstOccurrences(order, {});
  }
}
