/** The first-in first-out queue the cannon keeps its balls in
    (a `Queue<T>` of the .NET collections), front of the queue first. */
module Fifo {
  import opened Wrappers

  type Queue<T> = seq<T>

  /** No element occurs twice. */
  ghost predicate Distinct<T>(q: Queue<T>) {
    forall i, j :: 0 <= i < j < |q| ==> q[i] != q[j]
  }

  /** Adds `x` at the back; everything already queued keeps its place. */
  function Enqueue<T>(q: Queue<T>, x: T): (r: Queue<T>)
    ensures |r| == |q| + 1
    ensures r[..|q|] == q && r[|q|] == x
    ensures multiset(r) == multiset(q) + multiset{x}
  {
    q + [x]
  }

  /** Removes the front element; `None` models the exception an empty
      queue raises. */
  function Dequeue<T>(q: Queue<T>): (r: Option<(T, Queue<T>)>)
    ensures r.None? <==> |q| == 0
    ensures r.Some? ==> [r.value.0] + r.value.1 == q
  {
    if |q| == 0 then None else Some((q[0], q[1..]))
  }

  /** Dequeueing the front and enqueueing it again: the front moves to the
      back, the rest shift forward in order and nothing is gained or lost. */
  lemma RotatePreserves<T>(q: Queue<T>)
    requires |q| > 0
    ensures Dequeue(q).Some?
    ensures Enqueue(Dequeue(q).value.1, Dequeue(q).value.0) == q[1..] + [q[0]]
    ensures multiset(q[1..] + [q[0]]) == multiset(q)
    ensures Distinct(q) ==> Distinct(q[1..] + [q[0]])
  {
    assert q == [q[0]] + q[1..];
    var r := q[1..] + [q[0]];
    if Distinct(q) {
      forall i, j | 0 <= i < j < |r|
        ensures r[i] != r[j]
      {
        if j == |r| - 1 {
          assert r[i] == q[i + 1] && r[j] == q[0];
        } else {
          assert r[i] == q[i + 1] && r[j] == q[j + 1];
        }
      }
    }
  }
}
