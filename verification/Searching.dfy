/** Finding out whether a container can be reached, by following the slots on the heap. */
module Searching {
  import opened Items
  import opened RefCount

  /** x has been met, and if it is a container its slots have been put on the list. */
  ghost predicate Past(t: StackItem, seen: set<StackItem>, todo: seq<StackItem>, x: StackItem) {
    x in todo || (x != t && (x.IsContainer() ==> x in seen))
  }

  ghost predicate AllPast(t: StackItem, seen: set<StackItem>, todo: seq<StackItem>, xs: seq<StackItem>) {
    forall x {:trigger x in xs} :: x in xs ==> Past(t, seen, todo, x)
  }

  ghost predicate SeenPast(G: Graph, t: StackItem, seen: set<StackItem>, todo: seq<StackItem>) {
    forall d {:trigger d in seen} :: d in seen ==> d in G && AllPast(t, seen, todo, G[d])
  }

  ghost predicate AllReachable(G: Graph, R: multiset<StackItem>, xs: seq<StackItem>) {
    forall x {:trigger x in xs} :: x in xs ==> Reachable(G, R, x)
  }

  lemma {:induction false} NothingMissed(G: Graph, roots: seq<StackItem>, t: StackItem, seen: set<StackItem>,
                                         c: StackItem, n: nat)
    requires AllPast(t, seen, [], roots) && SeenPast(G, t, seen, []) && AllContainers(G)
    requires ReachableIn(G, multiset(roots), c, n)
    ensures c != t && (c.IsContainer() ==> c in seen)
    decreases n
  {
    if n == 0 {
      assert c in roots;
    } else {
      var d :| d in G && c in G[d] && ReachableIn(G, multiset(roots), d, n - 1);
      NothingMissed(G, roots, t, seen, d, n - 1);
      assert AllPast(t, seen, [], G[d]);
    }
  }

  lemma SlotsReachable(G: Graph, R: multiset<StackItem>, d: StackItem)
    requires d in G && Reachable(G, R, d)
    ensures AllReachable(G, R, G[d])
  {
    var n: nat :| ReachableIn(G, R, d, n);
    forall x | x in G[d] ensures Reachable(G, R, x) { assert ReachableIn(G, R, x, n + 1); }
  }

  lemma RootsReachable(G: Graph, roots: seq<StackItem>)
    ensures AllReachable(G, multiset(roots), roots)
  {
    forall x | x in roots ensures Reachable(G, multiset(roots), x) { assert ReachableIn(G, multiset(roots), x, 0); }
  }

  /** The head of the list has been dealt with: it is not t, and if it is a container it has been seen. */
  lemma HeadPast(G: Graph, t: StackItem, seen: set<StackItem>, todo: seq<StackItem>, more: set<StackItem>,
                 rest: seq<StackItem>, roots: seq<StackItem>)
    requires todo != [] && todo[0] != t && seen <= more
    requires todo[0].IsContainer() ==> todo[0] in more
    requires forall x :: x in todo[1..] ==> x in rest
    requires forall d :: d in more && d !in seen ==> d in G && forall x :: x in G[d] ==> x in rest
    requires SeenPast(G, t, seen, todo) && AllPast(t, seen, todo, roots)
    ensures SeenPast(G, t, more, rest) && AllPast(t, more, rest, roots)
  {
    assert forall x :: x in todo ==> x == todo[0] || x in todo[1..];
    forall d | d in more ensures d in G && AllPast(t, more, rest, G[d]) {
      if d in seen { assert AllPast(t, seen, todo, G[d]); }
    }
  }

  method Finds(roots: seq<StackItem>, t: StackItem, ghost G: Graph) returns (found: bool)
    requires Closed(G) && Shows(G) && Covers(G, roots)
    ensures found <==> Reachable(G, multiset(roots), t)
    ensures Shows(G)
  {
    var todo, seen := roots, {};
    ghost var R := multiset(roots);
    RootsReachable(G, roots);
    while todo != []
      invariant Covers(G, todo) && AllReachable(G, R, todo) && Shows(G)
      invariant seen <= G.Keys && SeenPast(G, t, seen, todo) && AllPast(t, seen, todo, roots)
      decreases G.Keys - seen, |todo|
    {
      var x := todo[0];
      assert x in todo && forall y :: y in todo[1..] ==> y in todo;
      if x == t {
        return true;
      }
      var slots := [];
      ghost var before, list := seen, todo;
      if x.IsContainer() && x !in seen {
        slots := SlotsOf(x, G);
        SlotsReachable(G, R, x);
        assert Covers(G, G[x]);
        seen := seen + {x};
      }
      todo := todo[1..] + slots;
      HeadPast(G, t, before, list, seen, todo, roots);
    }
    forall n: nat | ReachableIn(G, R, t, n) ensures false { NothingMissed(G, roots, t, seen, t, n); }
    return false;
  }
}
