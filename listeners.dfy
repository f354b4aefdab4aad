/**
 * Registered listeners and the calls made on them. A listener is known by
 * an identity; a notification is recorded as one call per registered
 * listener.
 */
module Listeners {

  /** One listener call: which listener, and what it was told. */
  datatype Call<N> = Call(listener: nat, notice: N)

  /** One notification: a call on every registered listener, in registration order. */
  function Broadcast<N>(listeners: seq<nat>, n: N): (calls: seq<Call<N>>)
    ensures |calls| == |listeners|
    ensures forall i :: 0 <= i < |listeners| ==> calls[i] == Call(listeners[i], n)
  {
    if listeners == [] then []
    else Broadcast(listeners[..|listeners| - 1], n) + [Call(listeners[|listeners| - 1], n)]
  }

  /** `LinkedList.remove`: the first occurrence of `l` is dropped, everything else kept in order. */
  function RemoveFirst(ls: seq<nat>, l: nat): (r: seq<nat>)
    ensures l in ls ==> multiset(r) == multiset(ls) - multiset{l}
    ensures l !in ls ==> r == ls
  {
    if ls == [] then []
    else
      assert ls == [ls[0]] + ls[1..];
      if ls[0] == l then ls[1..] else [ls[0]] + RemoveFirst(ls[1..], l)
  }

  /** The position of the first occurrence of `l`. */
  function FirstIndex(ls: seq<nat>, l: nat): (i: nat)
    requires l in ls
    ensures i < |ls| && ls[i] == l && l !in ls[..i]
  {
    if ls[0] == l then 0
    else
      assert ls[..1 + FirstIndex(ls[1..], l)] == [ls[0]] + ls[1..][..FirstIndex(ls[1..], l)];
      1 + FirstIndex(ls[1..], l)
  }

  /** The occurrence `RemoveFirst` drops is the first one, and the rest keep their order. */
  lemma {:induction false} RemoveFirstDropsFirst(ls: seq<nat>, l: nat)
    requires l in ls
    ensures RemoveFirst(ls, l) == ls[..FirstIndex(ls, l)] + ls[FirstIndex(ls, l) + 1..]
  {
    if ls[0] == l {
      assert FirstIndex(ls, l) == 0 && RemoveFirst(ls, l) == ls[1..];
    } else {
      assert ls == [ls[0]] + ls[1..];
      assert l in ls[1..];
      var j := FirstIndex(ls[1..], l);
      assert FirstIndex(ls, l) == j + 1;
      assert RemoveFirst(ls, l) == [ls[0]] + RemoveFirst(ls[1..], l);
      RemoveFirstDropsFirst(ls[1..], l);
      ConsBeforeGap(ls, j, RemoveFirst(ls[1..], l));
    }
  }

  /** Putting the head back in front of the tail with its `j`-th element dropped drops element `j + 1`. */
  lemma ConsBeforeGap(ls: seq<nat>, j: nat, rest: seq<nat>)
    requires j + 1 < |ls| && rest == ls[1..][..j] + ls[1..][j + 1..]
    ensures [ls[0]] + rest == ls[..j + 1] + ls[j + 2..]
  {
    assert ls[..j + 1] == [ls[0]] + ls[1..][..j];
    assert ls[j + 2..] == ls[1..][j + 1..];
  }

  /** A listener that is not registered is told nothing. */
  lemma UnregisteredHearsNothing<N>(listeners: seq<nat>, l: nat, n: N)
    requires l !in listeners
    ensures forall c :: c in Broadcast(listeners, n) ==> c.listener != l
  {
  }

  /** A listener registered once is no longer registered after it is removed. */
  lemma RemovedOnceIsGone(ls: seq<nat>, l: nat)
    requires multiset(ls)[l] == 1
    ensures l !in RemoveFirst(ls, l)
  {
    assert l !in multiset(RemoveFirst(ls, l));
  }
}
