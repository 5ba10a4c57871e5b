/**
  What can be serialized: exactly the items below which no container is met twice, on any path, and no
  interop item occurs. Sharing is refused like a cycle, because entries of the seen set are never taken out.
 */
module Serializable {
  import opened Items
  import opened RefCount
  import opened Equality
  import opened Reaching
  import opened Serialization

  ghost function GraphOf(L: Layout): Graph { map x | x in L :: L[x].slots }

  /** No container is met twice, counting x itself and every slot of what can be reached from it. */
  ghost predicate MetOnce(L: Layout, x: StackItem)
    requires WellLaid(L)
  {
    var G, R := GraphOf(L), multiset{x};
    forall c {:trigger c in ReachableSet(G, R)} ::
      c in ReachableSet(G, R) ==> R[c] + Slots(G, ReachableSet(G, R))[c] <= 1
  }

  ghost predicate NoInterop(L: Layout, x: StackItem)
    requires WellLaid(L)
  {
    && !x.Interop?
    && forall c {:trigger L[c]} :: c in L && Reachable(GraphOf(L), multiset{x}, c) ==> SlotsPlain(L[c].slots)
  }

  predicate SlotsPlain(xs: seq<StackItem>) {
    forall i {:trigger xs[i]} :: 0 <= i < |xs| ==> !xs[i].Interop?
  }

  // ----- sums over disjoint sets of containers

  lemma {:induction false} SlotsUnion(G: Graph, a: set<StackItem>, b: set<StackItem>, c: StackItem)
    requires a + b <= G.Keys && a !! b
    ensures Slots(G, a + b)[c] == Slots(G, a)[c] + Slots(G, b)[c]
    decreases b
  {
    if b == {} {
      assert a + b == a;
    } else {
      var d :| d in b;
      SlotsWithout(G, a + b, d, c);
      SlotsWithout(G, b, d, c);
      assert a + b - {d} == a + (b - {d});
      SlotsUnion(G, a, b - {d}, c);
    }
  }

  // ----- a walk that gets through has met each container once

  ghost predicate CountedAt(L: Layout, xs: multiset<StackItem>, met: set<StackItem>, c: StackItem)
    requires met <= L.Keys
  {
    xs[c] + Slots(GraphOf(L), met)[c] == if c in met then 1 else 0
  }

  ghost predicate PlainBelow(L: Layout, met: set<StackItem>)
    requires met <= L.Keys
  {
    forall c {:trigger L[c]} :: c in met ==> SlotsPlain(L[c].slots)
  }

  lemma InTwoSteps(a: set<StackItem>, b: set<StackItem>, c: set<StackItem>)
    requires a <= b <= c
    ensures c - a == (b - a) + (c - b)
  {
  }

  lemma HeadAndTail(xs: seq<StackItem>, c: StackItem)
    requires xs != []
    ensures multiset(xs)[c] == multiset{xs[0]}[c] + multiset(xs[1..])[c]
  {
    assert xs == [xs[0]] + xs[1..];
  }

  lemma {:induction false} VisitCounts(L: Layout, x: StackItem, seen: set<StackItem>, c: StackItem)
    requires WellLaid(L) && InLayout(L, x) && Visit(L, x, seen).Done? && c in L
    ensures var met := Visit(L, x, seen).seen - seen;
            !x.Interop? && met <= L.Keys && PlainBelow(L, met) && CountedAt(L, multiset{x}, met, c)
    decreases L.Keys - seen, 0
  {
    assert WellShaped(c, L[c]);
    var s := Visit(L, x, seen).seen;
    if IsPrimitive(x) {
      assert s - seen == {};
    } else {
      assert x in L.Keys - seen;
      var xs := L[x].slots;
      VisitAllCounts(L, xs, seen + {x}, c);
      assert s - seen == {x} + (s - (seen + {x}));
      SlotsUnion(GraphOf(L), s - (seen + {x}), {x}, c);
      SlotsWithout(GraphOf(L), {x}, x, c);
      assert s - seen == (s - (seen + {x})) + {x};
    }
  }

  lemma {:induction false} VisitAllCounts(L: Layout, xs: seq<StackItem>, seen: set<StackItem>, c: StackItem)
    requires WellLaid(L) && AllInLayout(L, xs) && VisitAll(L, xs, seen).DoneAll? && c in L
    ensures var met := VisitAll(L, xs, seen).seenAll - seen;
            SlotsPlain(xs) && met <= L.Keys && PlainBelow(L, met) && CountedAt(L, multiset(xs), met, c)
    decreases L.Keys - seen, 1, xs
  {
    var s' := VisitAll(L, xs, seen).seenAll;
    if xs == [] {
      assert s' - seen == {};
    } else {
      var s := Visit(L, xs[0], seen).seen;
      VisitCounts(L, xs[0], seen, c);
      VisitAllCounts(L, xs[1..], s, c);
      InTwoSteps(seen, s, s');
      SlotsUnion(GraphOf(L), s - seen, s' - s, c);
      HeadAndTail(xs, c);
    }
  }

  // ----- what is met once gets through

  /** S holds every container in a slot of one of its members. */
  ghost predicate ClosedUnder(L: Layout, S: set<StackItem>) {
    S <= L.Keys && forall c {:trigger L[c]} :: c in S ==> SlotsIn(L[c].slots, S)
  }

  predicate SlotsIn(xs: seq<StackItem>, S: set<StackItem>) {
    forall i {:trigger xs[i]} :: 0 <= i < |xs| ==> xs[i].IsContainer() ==> xs[i] in S
  }

  /** How often c is met: already, by a reference that is pending, or by a slot of a container still to be met. */
  ghost function Meetings(L: Layout, S: set<StackItem>, seen: set<StackItem>, pending: multiset<StackItem>,
                          c: StackItem): int
    requires S <= L.Keys
  {
    (if c in seen then 1 else 0) + pending[c] + Slots(GraphOf(L), S - seen)[c]
  }

  ghost predicate AtMostOnce(L: Layout, S: set<StackItem>, seen: set<StackItem>, pending: multiset<StackItem>)
    requires S <= L.Keys
  {
    forall c {:trigger c in S} :: c in S ==> Meetings(L, S, seen, pending, c) <= 1
  }

  lemma {:induction false} VisitStaysIn(L: Layout, S: set<StackItem>, x: StackItem, seen: set<StackItem>)
    requires WellLaid(L) && InLayout(L, x) && Visit(L, x, seen).Done?
    requires ClosedUnder(L, S) && (x.IsContainer() ==> x in S)
    ensures Visit(L, x, seen).seen <= seen + S
    decreases L.Keys - seen, 0
  {
    if !IsPrimitive(x) {
      assert x in L.Keys - seen;
      VisitAllStaysIn(L, S, L[x].slots, seen + {x});
    }
  }

  lemma {:induction false} VisitAllStaysIn(L: Layout, S: set<StackItem>, xs: seq<StackItem>, seen: set<StackItem>)
    requires WellLaid(L) && AllInLayout(L, xs) && VisitAll(L, xs, seen).DoneAll?
    requires ClosedUnder(L, S) && SlotsIn(xs, S)
    ensures VisitAll(L, xs, seen).seenAll <= seen + S
    decreases L.Keys - seen, 1, xs
  {
    if xs != [] {
      VisitStaysIn(L, S, xs[0], seen);
      VisitAllStaysIn(L, S, xs[1..], Visit(L, xs[0], seen).seen);
    }
  }

  /** A walk that gets through turns references into meetings, one for one. */
  lemma MeetingsKept(L: Layout, S: set<StackItem>, x: StackItem, seen: set<StackItem>, pending: multiset<StackItem>,
                     c: StackItem)
    requires WellLaid(L) && InLayout(L, x) && Visit(L, x, seen).Done? && x in pending && c in L
    requires ClosedUnder(L, S) && (x.IsContainer() ==> x in S)
    ensures Meetings(L, S, Visit(L, x, seen).seen, pending - multiset{x}, c) == Meetings(L, S, seen, pending, c)
  {
    var s := Visit(L, x, seen).seen;
    VisitStaysIn(L, S, x, seen);
    VisitCounts(L, x, seen, c);
    assert S - seen == (S - s) + (s - seen);
    SlotsUnion(GraphOf(L), S - s, s - seen, c);
  }

  lemma MeetingsOpened(L: Layout, S: set<StackItem>, x: StackItem, seen: set<StackItem>, pending: multiset<StackItem>,
                       c: StackItem)
    requires S <= L.Keys && x in S && x !in seen && x in pending
    ensures Meetings(L, S, seen + {x}, Exchange(pending, x, L[x].slots), c) == Meetings(L, S, seen, pending, c)
  {
    SlotsWithout(GraphOf(L), S - seen, x, c);
    assert S - seen - {x} == S - (seen + {x});
    ExchangeCounts(pending, x, L[x].slots, c);
  }

  lemma {:induction false} VisitGetsThrough(L: Layout, S: set<StackItem>, x: StackItem, seen: set<StackItem>,
                                           pending: multiset<StackItem>)
    requires WellLaid(L) && InLayout(L, x) && ClosedUnder(L, S) && (x.IsContainer() ==> x in S)
    requires !x.Interop? && PlainBelow(L, S)
    requires x in pending && AtMostOnce(L, S, seen, pending) && seen <= L.Keys
    ensures Visit(L, x, seen).Done? && AtMostOnce(L, S, Visit(L, x, seen).seen, pending - multiset{x})
    decreases L.Keys - seen, 0
  {
    if x.IsContainer() {
      assert x in S && Meetings(L, S, seen, pending, x) <= 1;
      assert x in L.Keys - seen;
      var onward := Exchange(pending, x, L[x].slots);
      forall c | c in S
        ensures Meetings(L, S, seen + {x}, onward, c) <= 1
      {
        MeetingsOpened(L, S, x, seen, pending, c);
      }
      VisitAllGetsThrough(L, S, L[x].slots, seen + {x}, onward);
    }
    forall c | c in S ensures Meetings(L, S, Visit(L, x, seen).seen, pending - multiset{x}, c) <= 1 {
      MeetingsKept(L, S, x, seen, pending, c);
    }
  }

  lemma {:induction false} VisitAllGetsThrough(L: Layout, S: set<StackItem>, xs: seq<StackItem>, seen: set<StackItem>,
                                              pending: multiset<StackItem>)
    requires WellLaid(L) && AllInLayout(L, xs) && ClosedUnder(L, S) && SlotsIn(xs, S)
    requires SlotsPlain(xs) && PlainBelow(L, S)
    requires multiset(xs) <= pending && AtMostOnce(L, S, seen, pending) && seen <= L.Keys
    ensures VisitAll(L, xs, seen).DoneAll?
    decreases L.Keys - seen, 1, xs
  {
    if xs != [] {
      assert xs == [xs[0]] + xs[1..];
      assert xs[0] in multiset(xs);
      VisitGetsThrough(L, S, xs[0], seen, pending);
      VisitAllGetsThrough(L, S, xs[1..], Visit(L, xs[0], seen).seen, pending - multiset{xs[0]});
    }
  }

  // ----- the two directions together

  lemma {:induction false} ReachedWasMet(L: Layout, x: StackItem, c: StackItem, n: nat)
    requires WellLaid(L) && InLayout(L, x) && Visit(L, x, {}).Done?
    requires c in L && ReachableIn(GraphOf(L), multiset{x}, c, n)
    ensures c in Visit(L, x, {}).seen
    decreases n
  {
    var G, s := GraphOf(L), Visit(L, x, {}).seen;
    VisitCounts(L, x, {}, c);
    assert s - {} == s;
    if n > 0 {
      var d :| d in G && c in G[d] && ReachableIn(G, multiset{x}, d, n - 1);
      ReachedWasMet(L, x, d, n - 1);
      SlotsMember(G, s, d, c);
    }
  }

  lemma SlotsMonotoneAt(G: Graph, a: set<StackItem>, b: set<StackItem>, c: StackItem)
    requires a <= b <= G.Keys
    ensures Slots(G, a)[c] <= Slots(G, b)[c]
  {
    SlotsUnion(G, a, b - a, c);
    assert a + (b - a) == b;
  }

  lemma ReachableIsClosed(L: Layout, x: StackItem)
    requires WellLaid(L)
    ensures ClosedUnder(L, ReachableSet(GraphOf(L), multiset{x}))
  {
    var G, R := GraphOf(L), multiset{x};
    forall c, i | c in ReachableSet(G, R) && 0 <= i < |L[c].slots| && L[c].slots[i].IsContainer()
      ensures L[c].slots[i] in ReachableSet(G, R)
    {
      var n: nat :| ReachableIn(G, R, c, n);
      var y := L[c].slots[i];
      assert InLayout(L, y) && y in G[c];
      assert ReachableIn(G, R, y, n + 1);
    }
  }

  /** Serialization gets through if and only if no container is met twice and no interop item is met at all. */
  lemma SerializableExactly(L: Layout, x: StackItem)
    requires WellLaid(L) && InLayout(L, x)
    ensures Visit(L, x, {}).Done? <==> MetOnce(L, x) && NoInterop(L, x)
  {
    var G, R := GraphOf(L), multiset{x};
    var S := ReachableSet(G, R);
    if Visit(L, x, {}).Done? {
      var s := Visit(L, x, {}).seen;
      assert s - {} == s;
      forall c | c in S ensures c in s && R[c] + Slots(G, S)[c] <= 1 && SlotsPlain(L[c].slots) {
        var n: nat :| ReachableIn(G, R, c, n);
        ReachedWasMet(L, x, c, n);
        VisitCounts(L, x, {}, c);
        forall d | d in S ensures d in s { var m: nat :| ReachableIn(G, R, d, m); ReachedWasMet(L, x, d, m); }
        SlotsMonotoneAt(G, S, s, c);
      }
    }
    if MetOnce(L, x) && NoInterop(L, x) {
      ReachableIsClosed(L, x);
      assert ReachableIn(G, R, x, 0);
      forall c | c in S ensures Meetings(L, S, {}, R, c) <= 1 { assert S - {} == S; }
      VisitGetsThrough(L, S, x, {}, R);
    }
  }
}
