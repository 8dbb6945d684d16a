/** Gathering what the pages of a search give when they finish in an order
    the caller does not control, as `buffer_unordered` delivers them. The
    pages are numbered in plan order; a set of finished page numbers grows
    one page at a time, and what has been gathered is counted against it,
    so that once every page has finished the gathered multiset is the one
    the pages give in plan order. */
module Gathering {

  /** What the pages give, in plan order, when each gives `part` of its
      outcome. */
  function Flatten<O, X>(outcomes: seq<O>, part: O -> seq<X>): seq<X> {
    if outcomes == [] then [] else part(outcomes[0]) + Flatten(outcomes[1..], part)
  }

  /** What the finished pages from the k-th on give, each counted once. */
  ghost function Collected<O, X>(outcomes: seq<O>, part: O -> seq<X>, finished: set<nat>, k: nat): multiset<X>
    requires k <= |outcomes|
    decreases |outcomes| - k
  {
    if k == |outcomes| then multiset{}
    else (if k in finished then multiset(part(outcomes[k])) else multiset{}) + Collected(outcomes, part, finished, k + 1)
  }

  /** Pages before the k-th do not count from the k-th on. */
  lemma {:induction false} FinishBelow<O, X>(outcomes: seq<O>, part: O -> seq<X>, finished: set<nat>, i: nat, k: nat)
    requires i < k <= |outcomes|
    ensures Collected(outcomes, part, finished + {i}, k) == Collected(outcomes, part, finished, k)
    decreases |outcomes| - k
  {
    if k < |outcomes| {
      FinishBelow(outcomes, part, finished, i, k + 1);
    }
  }

  /** Finishing one more page adds exactly what that page gives. */
  lemma {:induction false} FinishOne<O, X>(outcomes: seq<O>, part: O -> seq<X>, finished: set<nat>, i: nat, k: nat)
    requires k <= i < |outcomes| && i !in finished
    ensures Collected(outcomes, part, finished + {i}, k) == Collected(outcomes, part, finished, k) + multiset(part(outcomes[i]))
    decreases |outcomes| - k
  {
    var here := if k in finished then multiset(part(outcomes[k])) else multiset{};
    var rest := Collected(outcomes, part, finished, k + 1);
    var rest' := Collected(outcomes, part, finished + {i}, k + 1);
    assert Collected(outcomes, part, finished, k) == here + rest;
    if k == i {
      FinishBelow(outcomes, part, finished, i, k + 1);
      assert Collected(outcomes, part, finished + {i}, k) == multiset(part(outcomes[i])) + rest';
    } else {
      FinishOne(outcomes, part, finished, i, k + 1);
      assert Collected(outcomes, part, finished + {i}, k) == here + rest';
    }
  }

  /** Once every page from the k-th on has finished, those pages gave all
      they had. */
  lemma {:induction false} FinishAll<O, X>(outcomes: seq<O>, part: O -> seq<X>, finished: set<nat>, k: nat)
    requires k <= |outcomes|
    requires forall i :: k <= i < |outcomes| ==> i in finished
    ensures Collected(outcomes, part, finished, k) == multiset(Flatten(outcomes[k..], part))
    decreases |outcomes| - k
  {
    if k < |outcomes| {
      FinishAll(outcomes, part, finished, k + 1);
      assert outcomes[k..][1..] == outcomes[k + 1..];
    }
  }

  lemma {:induction false} NothingFinished<O, X>(outcomes: seq<O>, part: O -> seq<X>, k: nat)
    requires k <= |outcomes|
    ensures Collected(outcomes, part, {}, k) == multiset{}
    decreases |outcomes| - k
  {
    if k < |outcomes| {
      NothingFinished(outcomes, part, k + 1);
    }
  }

  /** Before any page finishes nothing is gathered, and once every page
      has finished everything the pages give is, as often as they give it. */
  lemma GatheredBounds<O, X>(outcomes: seq<O>, part: O -> seq<X>, finished: set<nat>)
    ensures Collected(outcomes, part, {}, 0) == multiset{}
    ensures (forall i :: 0 <= i < |outcomes| ==> i in finished) ==>
      Collected(outcomes, part, finished, 0) == multiset(Flatten(outcomes, part))
  {
    NothingFinished(outcomes, part, 0);
    if forall i :: 0 <= i < |outcomes| ==> i in finished {
      FinishAll(outcomes, part, finished, 0);
      assert outcomes[0..] == outcomes;
    }
  }
}
