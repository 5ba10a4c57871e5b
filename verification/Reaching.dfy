/** What the books say about what the stacks reach. */
module Reaching {
  import opened Items
  import opened RefCount
  import opened SlotBooks

  ghost function ReachableSet(G: Graph, R: multiset<StackItem>): set<StackItem> {
    set c | c in G && Reachable(G, R, c)
  }

  lemma {:induction false} SlotsMonotone(G: Graph, a: set<StackItem>, b: set<StackItem>)
    requires a <= b <= G.Keys
    ensures |Slots(G, a)| <= |Slots(G, b)|
    decreases |b - a|
  {
    if !(b <= a) {
      var d :| d in b && d !in a;
      SlotsWithout(G, b, d, d);
      assert b - {d} - a == b - a - {d};
      SlotsMonotone(G, a, b - {d});
    } else {
      assert a == b;
    }
  }

  /** The size counts at least every stack slot and every slot of a container that the stacks reach. */
  lemma SizeCoversReachable(G: Graph, t: Tally, R: multiset<StackItem>)
    requires Exact(G, t.itemCount, t.size, R)
    ensures ReachableSet(G, R) <= t.itemCount.Keys
    ensures t.size >= |R| + |Slots(G, ReachableSet(G, R))|
  {
    forall c | c in ReachableSet(G, R) ensures c in t.itemCount {
      ReachableIsLive(G, t.itemCount, t.size, R, c);
    }
    SlotsMonotone(G, ReachableSet(G, R), t.itemCount.Keys);
  }

  /** depth witnesses that no container contains itself. */
  ghost predicate Acyclic(G: Graph, depth: map<StackItem, nat>) {
    && G.Keys <= depth.Keys
    && forall d, c {:trigger G[d], depth[c]} :: d in G && c in G[d] && c in G ==> depth[c] < depth[d]
  }

  lemma {:induction false} LiveIsReachable(G: Graph, t: Tally, R: multiset<StackItem>, depth: map<StackItem, nat>,
                                           c: StackItem, top: nat)
    requires Exact(G, t.itemCount, t.size, R) && Acyclic(G, depth)
    requires forall x {:trigger depth[x]} :: x in depth ==> depth[x] < top
    requires c in t.itemCount
    ensures Reachable(G, R, c)
    decreases top - depth[c]
  {
    assert c in G && BalancedAt(G, t.itemCount, R, multiset{}, c);
    if c in R {
      assert ReachableIn(G, R, c, 0);
    } else {
      assert t.itemCount[c] >= 1;
      var d := SlotsSource(G, t.itemCount.Keys, c);
      assert depth[c] < depth[d] < top;
      LiveIsReachable(G, t, R, depth, d, top);
      var n: nat :| ReachableIn(G, R, d, n);
      assert ReachableIn(G, R, c, n + 1);
    }
  }

  /** Without cycles, the live containers are the ones the stacks reach, and the size is exactly theirs. */
  lemma AcyclicIsTight(G: Graph, t: Tally, R: multiset<StackItem>, depth: map<StackItem, nat>)
    requires Exact(G, t.itemCount, t.size, R) && Acyclic(G, depth)
    ensures t.itemCount.Keys == ReachableSet(G, R)
    ensures t.size == |R| + |Slots(G, ReachableSet(G, R))|
  {
    SizeCoversReachable(G, t, R);
    var top := RanksBounded(depth);
    forall c | c in t.itemCount ensures c in ReachableSet(G, R) {
      LiveIsReachable(G, t, R, depth, c, top);
    }
  }

  // ----- containers that stay live although nothing reaches them

  /** Each member is in a slot of the next one, and the last in a slot of the first. */
  ghost predicate Ring(G: Graph, cs: seq<StackItem>) {
    && cs != [] && Chain(G, cs)
    && cs[0] in G && cs[|cs| - 1] in G[cs[0]]
  }

  ghost predicate Chain(G: Graph, cs: seq<StackItem>) {
    forall i {:trigger cs[i]} :: 0 < i < |cs| ==> cs[i] in G && cs[i - 1] in G[cs[i]]
  }

  ghost predicate AllIn(cs: seq<StackItem>, U: set<StackItem>) {
    forall i {:trigger cs[i]} :: 0 <= i < |cs| ==> cs[i] in U
  }

  /** A live container that nothing reaches is in a slot of another one. */
  lemma HeldUnreachable(G: Graph, t: Tally, R: multiset<StackItem>, c: StackItem) returns (d: StackItem)
    requires Exact(G, t.itemCount, t.size, R) && c in t.itemCount && c !in ReachableSet(G, R)
    ensures d in t.itemCount && d !in ReachableSet(G, R) && c in G[d]
  {
    assert c in G && BalancedAt(G, t.itemCount, R, multiset{}, c) && t.itemCount[c] >= 1;
    assert ReachableIn(G, R, c, 0) <==> c in R;
    d := SlotsSource(G, t.itemCount.Keys, c);
    if Reachable(G, R, d) {
      var n: nat :| ReachableIn(G, R, d, n);
      assert ReachableIn(G, R, c, n + 1);
    }
  }

  /** From holder to holder, until one comes up again. */
  lemma {:induction false} FindRing(G: Graph, t: Tally, R: multiset<StackItem>, path: seq<StackItem>)
    returns (cs: seq<StackItem>)
    requires Exact(G, t.itemCount, t.size, R) && path != [] && Chain(G, path)
    requires AllIn(path, t.itemCount.Keys - ReachableSet(G, R))
    ensures Ring(G, cs) && AllIn(cs, t.itemCount.Keys - ReachableSet(G, R))
    decreases t.itemCount.Keys - (set c | c in path)
  {
    var d := HeldUnreachable(G, t, R, path[|path| - 1]);
    if d in path {
      var j :| 0 <= j < |path| && path[j] == d;
      cs := path[j..];
      assert forall i :: 0 <= i < |cs| ==> cs[i] == path[j + i];
    } else {
      assert d in t.itemCount.Keys - (set c | c in path);
      assert (set c | c in path + [d]) == (set c | c in path) + {d};
      cs := FindRing(G, t, R, path + [d]);
    }
  }

  /**
    All live containers are reachable, and the size is exactly theirs, if and only if no others hold one
    another in a ring.
   */
  lemma LiveExactly(G: Graph, t: Tally, R: multiset<StackItem>)
    requires Exact(G, t.itemCount, t.size, R)
    ensures t.itemCount.Keys == ReachableSet(G, R) <==>
              !exists cs: seq<StackItem> :: Ring(G, cs) && AllIn(cs, t.itemCount.Keys - ReachableSet(G, R))
    ensures t.size == |R| + |Slots(G, ReachableSet(G, R))| <==> t.itemCount.Keys == ReachableSet(G, R)
  {
    var live, reached := t.itemCount.Keys, ReachableSet(G, R);
    SizeCoversReachable(G, t, R);
    if live != reached {
      var c :| c in live && c !in reached;
      var d := HeldUnreachable(G, t, R, c);
      SlotsWithout(G, live, d, d);
      SlotsMonotone(G, reached, live - {d});
      var cs := FindRing(G, t, R, [c]);
    } else {
      forall cs: seq<StackItem> | Ring(G, cs) ensures !AllIn(cs, live - reached) { assert cs[0] !in live - reached; }
    }
  }

  // ----- reaching a container while its own slots change

  ghost predicate SameBut(G: Graph, H: Graph, t: StackItem) {
    forall d {:trigger H[d]} {:trigger d in H} :: d in G && d != t ==> d in H && H[d] == G[d]
  }

  /** The way to t does not lead through t itself. */
  lemma {:induction false} ReachableElsewhereIn(G: Graph, H: Graph, R: multiset<StackItem>, t: StackItem,
                                                c: StackItem, n: nat)
    requires ReachableIn(G, R, c, n)
    requires SameBut(G, H, t)
    ensures Reachable(H, R, c) || Reachable(H, R, t)
    decreases n
  {
    if n == 0 {
      assert ReachableIn(H, R, c, 0);
    } else {
      var d :| d in G && c in G[d] && ReachableIn(G, R, d, n - 1);
      ReachableElsewhereIn(G, H, R, t, d, n - 1);
      if !Reachable(H, R, t) {
        assert d != t && H[d] == G[d];
        var m: nat :| ReachableIn(H, R, d, m);
        assert ReachableIn(H, R, c, m + 1);
      }
    }
  }

  lemma ReachableElsewhere(G: Graph, H: Graph, R: multiset<StackItem>, t: StackItem)
    requires Reachable(G, R, t)
    requires SameBut(G, H, t)
    ensures Reachable(H, R, t)
  {
    var n: nat :| ReachableIn(G, R, t, n);
    ReachableElsewhereIn(G, H, R, t, t, n);
  }
}
