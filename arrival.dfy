/**
 * The order in which goroutines' results come out of a channel. The model does not run
 * goroutines; it takes the delivery order as a parameter: a sequence naming each of the n
 * senders exactly once.
 */
module Arrival {

  /** 0, 1, ..., n - 1. */
  function Indices(n: nat): (r: seq<nat>)
    ensures |r| == n && forall i :: 0 <= i < n ==> r[i] == i
  {
    if n == 0 then [] else Indices(n - 1) + [n - 1]
  }

  /** `order` delivers each of the senders 0 .. n - 1 exactly once. */
  predicate IsArrivalOrder(order: seq<nat>, n: nat)
  {
    multiset(order) == multiset(Indices(n))
  }

  /** Every entry of `order` names one of n senders. */
  predicate InRange(order: seq<nat>, n: nat)
  {
    forall k :: 0 <= k < |order| ==> order[k] < n
  }

  /** The messages of `sent` in the delivery order `order`. */
  function Select<T>(sent: seq<T>, order: seq<nat>): (r: seq<T>)
    requires InRange(order, |sent|)
    ensures |r| == |order| && forall k :: 0 <= k < |order| ==> r[k] == sent[order[k]]
  {
    if order == [] then [] else [sent[order[0]]] + Select(sent, order[1..])
  }

  /** A delivery order has n entries, each naming a sender. */
  lemma ArrivalOrderBounded(order: seq<nat>, n: nat)
    requires IsArrivalOrder(order, n)
    ensures |order| == n && InRange(order, n)
  {
    assert |multiset(order)| == |order|;
    forall k | 0 <= k < |order| ensures order[k] < n {
      assert order[k] in multiset(Indices(n));
      var i :| 0 <= i < n && Indices(n)[i] == order[k];
    }
  }

  /** Every sender is delivered at some point. */
  lemma ArrivalOrderCovers(order: seq<nat>, n: nat, i: nat)
    requires IsArrivalOrder(order, n) && i < n
    ensures exists k :: 0 <= k < |order| && order[k] == i
  {
    assert Indices(n)[i] == i;
    assert i in multiset(order);
  }

  /** Taking out the element at `j` takes one copy of it out of the multiset. */
  lemma RemoveAt<T>(s: seq<T>, j: nat)
    requires j < |s|
    ensures multiset(s) == multiset(s[..j] + s[j + 1..]) + multiset{s[j]}
  {
    assert s == s[..j] + [s[j]] + s[j + 1..];
  }

  lemma MultisetCancel<T>(x: multiset<T>, y: multiset<T>, e: T)
    requires x + multiset{e} == y + multiset{e}
    ensures x == y
  {
    forall o ensures x[o] == y[o] {
      assert (x + multiset{e})[o] == (y + multiset{e})[o];
    }
  }

  /** Delivering the rest of an order after taking out its entry at `j`. */
  lemma SelectRemoveAt<T>(sent: seq<T>, b: seq<nat>, j: nat)
    requires InRange(b, |sent|)
    requires j < |b|
    ensures InRange(b[..j] + b[j + 1..], |sent|)
    ensures multiset(Select(sent, b)) == multiset(Select(sent, b[..j] + b[j + 1..])) + multiset{sent[b[j]]}
  {
    var rest := b[..j] + b[j + 1..];
    var sb := Select(sent, b);
    RemoveAt(sb, j);
    assert sb[..j] + sb[j + 1..] == Select(sent, rest);
  }

  /** Matching up the first entry of `a` with an equal entry `b[j]` leaves two permuted rests. */
  lemma PermutedRests<T>(a: seq<T>, b: seq<T>, j: nat)
    requires multiset(a) == multiset(b)
    requires a != [] && j < |b| && b[j] == a[0]
    ensures multiset(a[1..]) == multiset(b[..j] + b[j + 1..])
  {
    assert multiset(a) == multiset(a[1..]) + multiset{a[0]} by {
      assert a == [a[0]] + a[1..];
    }
    RemoveAt(b, j);
    MultisetCancel(multiset(a[1..]), multiset(b[..j] + b[j + 1..]), a[0]);
  }

  /** The first entry of an order delivers its message before the rest of the order. */
  lemma SelectFirst<T>(sent: seq<T>, a: seq<nat>)
    requires InRange(a, |sent|) && a != []
    ensures InRange(a[1..], |sent|)
    ensures multiset(Select(sent, a)) == multiset(Select(sent, a[1..])) + multiset{sent[a[0]]}
  {
    var x := sent[a[0]];
    var tail := Select(sent, a[1..]);
    assert Select(sent, a) == [x] + tail;
    assert multiset([x] + tail) == multiset(tail) + multiset{x};
  }

  /** Both orders deliver `sent[a[0]]` once more than their rests, which deliver the same messages. */
  lemma SelectMatchedHeads<T>(sent: seq<T>, a: seq<nat>, b: seq<nat>, j: nat)
    requires InRange(a, |sent|) && InRange(b, |sent|)
    requires a != [] && j < |b| && b[j] == a[0]
    requires InRange(a[1..], |sent|) && InRange(b[..j] + b[j + 1..], |sent|)
    requires multiset(Select(sent, a[1..])) == multiset(Select(sent, b[..j] + b[j + 1..]))
    ensures multiset(Select(sent, a)) == multiset(Select(sent, b))
  {
    SelectFirst(sent, a);
    SelectRemoveAt(sent, b, j);
  }

  /** Two orders that are permutations of each other deliver the same messages. */
  lemma {:induction false} SelectPermuted<T>(sent: seq<T>, a: seq<nat>, b: seq<nat>)
    requires InRange(a, |sent|) && InRange(b, |sent|)
    requires multiset(a) == multiset(b)
    ensures multiset(Select(sent, a)) == multiset(Select(sent, b))
  {
    if a == [] {
      assert |multiset(b)| == 0;
    } else {
      assert a[0] in multiset(b) by {
        assert a[0] in multiset(a);
      }
      var j :| 0 <= j < |b| && b[j] == a[0];
      PermutedRests(a, b, j);
      SelectRemoveAt(sent, b, j);
      SelectPermuted(sent, a[1..], b[..j] + b[j + 1..]);
      SelectMatchedHeads(sent, a, b, j);
    }
  }

  /** Whatever the delivery order, the receiver gets exactly the messages that were sent. */
  lemma ArrivalPreservesMessages<T>(sent: seq<T>, order: seq<nat>)
    requires IsArrivalOrder(order, |sent|)
    ensures InRange(order, |sent|)
    ensures multiset(Select(sent, order)) == multiset(sent)
  {
    ArrivalOrderBounded(order, |sent|);
    SelectIndices(sent);
    SelectPermuted(sent, order, Indices(|sent|));
  }

  /** Delivering in sending order delivers `sent` itself. */
  lemma SelectIndices<T>(sent: seq<T>)
    ensures InRange(Indices(|sent|), |sent|) && Select(sent, Indices(|sent|)) == sent
  {
  }

  /**
   * Receive one message per delivery slot from a channel the senders of `sent` write to,
   * appending each to the collected list as it comes.
   */
  method Receive<T>(sent: seq<T>, order: seq<nat>) returns (got: seq<T>)
    requires IsArrivalOrder(order, |sent|)
    ensures InRange(order, |sent|) && got == Select(sent, order)
    ensures multiset(got) == multiset(sent)
  {
    ArrivalPreservesMessages(sent, order);
    got := [];
    for k := 0 to |order|
      invariant |got| == k && forall j :: 0 <= j < k ==> got[j] == sent[order[j]]
    {
      got := got + [sent[order[k]]];
    }
  }
}
