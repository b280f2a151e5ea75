/**
 * The order queue: a `PriorityQueue<Product>` ordered by `(a, b) -> b.quantity - a.quantity`,
 * so that `poll` hands out an order of largest quantity. Orders with equal quantities come
 * out in an order the heap decides, which is left open here.
 */
module Orders {
  import opened Records

  /** `p` is queued and no queued order asks for more. */
  predicate IsMaxOf(p: Product, queue: multiset<Product>) {
    p in queue && forall o :: o in queue ==> o.quantity <= p.quantity
  }

  /** Quantities never rise along `s`: the order in which `poll` hands orders out. */
  predicate NonIncreasing(s: seq<Product>) {
    forall i, j :: 0 <= i < j < |s| ==> s[i].quantity >= s[j].quantity
  }

  function Quantities(s: seq<Product>): seq<int> {
    seq(|s|, i requires 0 <= i < |s| => s[i].quantity)
  }

  /** A queue that is not empty holds an order of largest quantity, so `poll` always has one to return. */
  lemma {:induction false} MaxExists(queue: multiset<Product>)
    requires queue != multiset{}
    ensures exists p :: IsMaxOf(p, queue)
    decreases |queue|
  {
    var x :| x in queue;
    var rest := queue - multiset{x};
    assert forall o :: o in queue ==> o == x || o in rest;
    if rest == multiset{} {
      assert IsMaxOf(x, queue);
    } else {
      MaxExists(rest);
      var y :| IsMaxOf(y, rest);
      if x.quantity <= y.quantity {
        assert IsMaxOf(y, queue);
      } else {
        assert IsMaxOf(x, queue);
      }
    }
  }

  /**
   * Appending an order of largest quantity to what has been drained so far keeps the drained
   * orders non-increasing, and everything left in the queue is at most that order.
   */
  lemma AppendMax(drained: seq<Product>, queue: multiset<Product>, top: Product)
    requires NonIncreasing(drained) && IsMaxOf(top, queue)
    requires |drained| > 0 ==> forall o :: o in queue ==> o.quantity <= drained[|drained| - 1].quantity
    ensures NonIncreasing(drained + [top])
    ensures forall o :: o in queue - multiset{top} ==> o.quantity <= top.quantity
    ensures multiset(drained + [top]) + (queue - multiset{top}) == multiset(drained) + queue
  {
    var s := drained + [top];
    forall i, j | 0 <= i < j < |s|
      ensures s[i].quantity >= s[j].quantity
    {
      if j == |drained| && i < j {
        assert s[i].quantity >= drained[|drained| - 1].quantity;
      }
    }
  }

  /** Taking out the element at `j` keeps a non-increasing sequence non-increasing. */
  lemma RemoveAtKeepsOrder(t: seq<Product>, j: nat)
    requires NonIncreasing(t) && j < |t|
    ensures NonIncreasing(t[..j] + t[j + 1..])
  {
    var u := t[..j] + t[j + 1..];
    forall a, b | 0 <= a < b < |u|
      ensures u[a].quantity >= u[b].quantity
    {
      var a', b' := if a < j then a else a + 1, if b < j then b else b + 1;
      assert u[a] == t[a'] && u[b] == t[b'] && a' < b';
    }
  }

  lemma MultisetRemoveAt(t: seq<Product>, j: nat)
    requires j < |t|
    ensures multiset(t[..j] + t[j + 1..]) == multiset(t) - multiset{t[j]}
  {
    assert t == t[..j] + [t[j]] + t[j + 1..];
  }

  /** Taking the same order out of two arrangements of the same orders leaves the same orders. */
  lemma RemoveMatchingElements(s: seq<Product>, i: nat, t: seq<Product>, j: nat)
    requires i < |s| && j < |t| && s[i] == t[j] && multiset(s) == multiset(t)
    ensures multiset(s[..i] + s[i + 1..]) == multiset(t[..j] + t[j + 1..])
  {
    MultisetRemoveAt(s, i);
    MultisetRemoveAt(t, j);
  }

  /** Taking out an element that ties with the head leaves the quantities with only the head's dropped. */
  lemma DropTieWithHead(t: seq<Product>, j: nat)
    requires NonIncreasing(t) && j < |t| && t[j].quantity == t[0].quantity
    ensures Quantities(t) == [t[0].quantity] + Quantities(t[..j] + t[j + 1..])
  {
    var u := t[..j] + t[j + 1..];
    forall k | 0 < k < |t|
      ensures Quantities(t)[k] == Quantities(u)[k - 1]
    {
      if k <= j {
        assert u[k - 1] == t[k - 1];
        assert t[0].quantity >= t[k - 1].quantity >= t[k].quantity >= t[j].quantity;
      } else {
        assert u[k - 1] == t[k];
      }
    }
  }

  /** The heads of two non-increasing arrangements of the same orders ask for the same quantity. */
  lemma HeadsTie(s: seq<Product>, t: seq<Product>) returns (j: nat)
    requires NonIncreasing(s) && NonIncreasing(t) && multiset(s) == multiset(t) && |s| > 0
    ensures j < |t| && t[j] == s[0] && t[0].quantity == s[0].quantity
  {
    assert s[0] in multiset(t);
    j :| 0 <= j < |t| && t[j] == s[0];
    assert t[0] in multiset(s);
    var i :| 0 <= i < |s| && s[i] == t[0];
  }

  /**
   * Draining a queue in non-increasing order is determined up to ties: any two non-increasing
   * arrangements of the same orders list the same quantities.
   */
  lemma {:induction false} SortedArrangementsAgree(s: seq<Product>, t: seq<Product>)
    requires NonIncreasing(s) && NonIncreasing(t) && multiset(s) == multiset(t)
    ensures Quantities(s) == Quantities(t)
    decreases |s|
  {
    assert |s| == |multiset(s)| == |t|;
    if |s| > 0 {
      var j := HeadsTie(s, t);
      var s', u := s[..0] + s[1..], t[..j] + t[j + 1..];
      assert Quantities(s') == Quantities(u) by {
        RemoveMatchingElements(s, 0, t, j);
        RemoveAtKeepsOrder(s, 0);
        RemoveAtKeepsOrder(t, j);
        SortedArrangementsAgree(s', u);
      }
      assert Quantities(s) == [s[0].quantity] + Quantities(s') by {
        DropTieWithHead(s, 0);
      }
      assert Quantities(t) == [s[0].quantity] + Quantities(u) by {
        DropTieWithHead(t, j);
      }
    }
  }
}
