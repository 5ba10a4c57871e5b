/**
  The size of all stacks together, counted by reference. `itemCount` says how often a container is
  referred to; a container with an entry is live. `size` counts every stack slot and every slot of a
  live container. Graphs may be cyclic.
 */
module RefCount {
  import opened Items

  // ----- summing over the live containers

  /** All slots of the containers in `live`. */
  ghost function Slots(G: Graph, live: set<StackItem>): multiset<StackItem>
    requires live <= G.Keys
  {
    if live == {} then multiset{} else var d :| d in live; multiset(G[d]) + Slots(G, live - {d})
  }

  /** The sum does not depend on the order in which it is taken. */
  lemma {:induction false} SlotsWithout(G: Graph, live: set<StackItem>, d: StackItem, x: StackItem)
    requires live <= G.Keys && d in live
    ensures Slots(G, live)[x] == multiset(G[d])[x] + Slots(G, live - {d})[x]
    ensures |Slots(G, live)| == |G[d]| + |Slots(G, live - {d})|
    decreases live
  {
    var e :| e in live && Slots(G, live) == multiset(G[e]) + Slots(G, live - {e});
    if e != d {
      SlotsWithout(G, live - {e}, d, x);
      SlotsWithout(G, live - {d}, e, x);
      assert live - {e} - {d} == live - {d} - {e};
    }
  }

  /** Only the entries of live containers matter. */
  lemma {:induction false} SlotsSame(G: Graph, H: Graph, live: set<StackItem>, x: StackItem)
    requires live <= G.Keys && live <= H.Keys
    requires forall d :: d in live ==> G[d] == H[d]
    ensures Slots(G, live)[x] == Slots(H, live)[x] && |Slots(G, live)| == |Slots(H, live)|
    decreases live
  {
    if live != {} {
      var d :| d in live;
      SlotsWithout(G, live, d, x);
      SlotsWithout(H, live, d, x);
      SlotsSame(G, H, live - {d}, x);
    }
  }

  lemma SlotsMember(G: Graph, live: set<StackItem>, d: StackItem, x: StackItem)
    requires live <= G.Keys && d in live && x in G[d]
    ensures Slots(G, live)[x] > 0
  {
    SlotsWithout(G, live, d, x);
  }

  lemma {:induction false} SlotsSource(G: Graph, live: set<StackItem>, x: StackItem) returns (d: StackItem)
    requires live <= G.Keys && Slots(G, live)[x] > 0
    ensures d in live && x in G[d]
    decreases live
  {
    assert live != {};
    d :| d in live;
    SlotsWithout(G, live, d, x);
    if x !in G[d] { d := SlotsSource(G, live - {d}, x); }
  }

  // ----- the books

  function CountOf(itemCount: map<StackItem, int>, c: StackItem): int {
    if c in itemCount then itemCount[c] else 0
  }

  ghost predicate BalancedAt(G: Graph, itemCount: map<StackItem, int>, R: multiset<StackItem>, P: multiset<StackItem>,
                             c: StackItem)
    requires itemCount.Keys <= G.Keys
  {
    CountOf(itemCount, c) + P[c] == R[c] + Slots(G, itemCount.Keys)[c]
  }

  ghost predicate Known(G: Graph, m: multiset<StackItem>) {
    forall x :: x in m && x.IsContainer() ==> x in G
  }

  /**
    The books balance. R holds the stack slots (with multiplicity), P the references that are already
    there but still have to be counted: the count of a container is its stack slots plus its occurrences
    in live containers, and size is all stack slots plus all slots of live containers, P not yet included.
   */
  ghost predicate Books(G: Graph, itemCount: map<StackItem, int>, size: int, R: multiset<StackItem>,
                        P: multiset<StackItem>) {
    && Closed(G)
    && itemCount.Keys <= G.Keys
    && Known(G, R)
    && Known(G, P)
    && (forall c {:trigger itemCount[c]} :: c in itemCount ==> itemCount[c] >= 1)
    && (forall c {:trigger BalancedAt(G, itemCount, R, P, c)} :: c in G ==> BalancedAt(G, itemCount, R, P, c))
    && size + |P| == |R| + |Slots(G, itemCount.Keys)|
  }

  /** Nothing pending: the books are exact. */
  ghost predicate Exact(G: Graph, itemCount: map<StackItem, int>, size: int, R: multiset<StackItem>) {
    Books(G, itemCount, size, R, multiset{})
  }

  // ----- what one step of a walk does to the books

  /** Taking x out of a multiset and putting the members of a sequence in. */
  ghost function Exchange(m: multiset<StackItem>, x: StackItem, s: seq<StackItem>): multiset<StackItem> {
    m - multiset{x} + multiset(s)
  }

  lemma ExchangeCounts(m: multiset<StackItem>, x: StackItem, s: seq<StackItem>, c: StackItem)
    requires x in m
    ensures Exchange(m, x, s)[c] == m[c] - (if c == x then 1 else 0) + multiset(s)[c]
    ensures |Exchange(m, x, s)| == |m| - 1 + |s|
    ensures c in Exchange(m, x, s) ==> c in m || c in s
  {
  }

  lemma CountPrimitive(G: Graph, itemCount: map<StackItem, int>, size: int, R: multiset<StackItem>,
                       P: multiset<StackItem>, x: StackItem)
    requires Books(G, itemCount, size, R, P) && x in P && !x.IsContainer()
    ensures Books(G, itemCount, size + 1, R, P - multiset{x})
  {
    forall c | c in G
      ensures BalancedAt(G, itemCount, R, P - multiset{x}, c)
    {
      assert BalancedAt(G, itemCount, R, P, c);
    }
  }

  lemma Recount(G: Graph, itemCount: map<StackItem, int>, x: StackItem, n: int, c: StackItem)
    requires itemCount.Keys <= G.Keys && x in itemCount
    ensures itemCount[x := n].Keys == itemCount.Keys
    ensures Slots(G, itemCount[x := n].Keys) == Slots(G, itemCount.Keys)
    ensures CountOf(itemCount[x := n], c) == if c == x then n else CountOf(itemCount, c)
  {
    assert itemCount[x := n].Keys == itemCount.Keys;
  }

  lemma CountAgainAt(G: Graph, itemCount: map<StackItem, int>, R: multiset<StackItem>, P: multiset<StackItem>,
                     x: StackItem, c: StackItem)
    requires itemCount.Keys <= G.Keys && x in itemCount && x in P && BalancedAt(G, itemCount, R, P, c)
    ensures itemCount[x := itemCount[x] + 1].Keys == itemCount.Keys
    ensures BalancedAt(G, itemCount[x := itemCount[x] + 1], R, P - multiset{x}, c)
  {
    Recount(G, itemCount, x, itemCount[x] + 1, c);
  }

  /** Books for another count of a container that has one. */
  lemma BooksRecounted(G: Graph, itemCount: map<StackItem, int>, size: int, R: multiset<StackItem>,
                       P: multiset<StackItem>, x: StackItem, n: int, size': int, R': multiset<StackItem>,
                       P': multiset<StackItem>)
    requires Books(G, itemCount, size, R, P) && x in itemCount && n >= 1
    requires Known(G, R') && Known(G, P') && size' + |P'| + |R| == size + |P| + |R'|
    requires itemCount[x := n].Keys <= G.Keys
    requires forall c {:trigger BalancedAt(G, itemCount[x := n], R', P', c)} :: c in G ==>
               BalancedAt(G, itemCount[x := n], R', P', c)
    ensures Books(G, itemCount[x := n], size', R', P')
  {
    Recount(G, itemCount, x, n, x);
  }

  lemma KnownLess(G: Graph, m: multiset<StackItem>, x: StackItem)
    requires Known(G, m)
    ensures Known(G, m - multiset{x})
  {
  }

  lemma CountAgain(G: Graph, itemCount: map<StackItem, int>, size: int, R: multiset<StackItem>,
                   P: multiset<StackItem>, x: StackItem)
    requires Books(G, itemCount, size, R, P) && x in P && x in itemCount
    ensures Books(G, itemCount[x := itemCount[x] + 1], size + 1, R, P - multiset{x})
  {
    Recount(G, itemCount, x, itemCount[x] + 1, x);
    forall c | c in G ensures BalancedAt(G, itemCount[x := itemCount[x] + 1], R, P - multiset{x}, c) {
      assert BalancedAt(G, itemCount, R, P, c);
      CountAgainAt(G, itemCount, R, P, x, c);
    }
    KnownLess(G, P, x);
    BooksRecounted(G, itemCount, size, R, P, x, itemCount[x] + 1, size + 1, R, P - multiset{x});
  }

  lemma AliveCount(G: Graph, itemCount: map<StackItem, int>, x: StackItem, c: StackItem)
    requires itemCount.Keys <= G.Keys && x in G && x !in itemCount && c in G
    ensures CountOf(itemCount[x := 1], c) == CountOf(itemCount, c) + (if c == x then 1 else 0)
    ensures Slots(G, itemCount[x := 1].Keys)[c] == Slots(G, itemCount.Keys)[c] + multiset(G[x])[c]
    ensures |Slots(G, itemCount[x := 1].Keys)| == |Slots(G, itemCount.Keys)| + |G[x]|
  {
    var after := itemCount[x := 1];
    assert after.Keys - {x} == itemCount.Keys;
    SlotsWithout(G, after.Keys, x, c);
  }

  lemma ExchangeCovered(G: Graph, m: multiset<StackItem>, x: StackItem)
    requires Closed(G) && x in G && x in m
    requires Known(G, m)
    ensures Known(G, Exchange(m, x, G[x]))
  {
    forall y | y in Exchange(m, x, G[x]) && y.IsContainer() ensures y in G {
      ExchangeCounts(m, x, G[x], y);
      assert Covers(G, G[x]);
    }
  }

  lemma ComesAliveAt(G: Graph, itemCount: map<StackItem, int>, R: multiset<StackItem>, P: multiset<StackItem>,
                     x: StackItem, c: StackItem)
    requires itemCount.Keys <= G.Keys && x in G && x in P && x !in itemCount && c in G
    requires BalancedAt(G, itemCount, R, P, c)
    ensures itemCount[x := 1].Keys <= G.Keys && BalancedAt(G, itemCount[x := 1], R, Exchange(P, x, G[x]), c)
  {
    AliveCount(G, itemCount, x, c);
    ExchangeCounts(P, x, G[x], c);
  }

  lemma ComesAlive(G: Graph, itemCount: map<StackItem, int>, size: int, R: multiset<StackItem>, P: multiset<StackItem>,
                   x: StackItem)
    requires Books(G, itemCount, size, R, P) && x in P && x.IsContainer() && x !in itemCount
    ensures Books(G, itemCount[x := 1], size + 1, R, Exchange(P, x, G[x]))
  {
    ExchangeCovered(G, P, x);
    forall c | c in G ensures BalancedAt(G, itemCount[x := 1], R, Exchange(P, x, G[x]), c) {
      assert BalancedAt(G, itemCount, R, P, c);
      ComesAliveAt(G, itemCount, R, P, x, c);
    }
    AliveCount(G, itemCount, x, x);
    ExchangeCounts(P, x, G[x], x);
  }

  lemma UncountPrimitive(G: Graph, itemCount: map<StackItem, int>, size: int, R: multiset<StackItem>,
                         P: multiset<StackItem>, x: StackItem)
    requires Books(G, itemCount, size, R, P) && x in R && !x.IsContainer()
    ensures Books(G, itemCount, size - 1, R - multiset{x}, P)
  {
    forall c | c in G ensures BalancedAt(G, itemCount, R - multiset{x}, P, c) {
      assert BalancedAt(G, itemCount, R, P, c);
    }
  }

  lemma UncountOnceAt(G: Graph, itemCount: map<StackItem, int>, R: multiset<StackItem>, P: multiset<StackItem>,
                      x: StackItem, c: StackItem)
    requires itemCount.Keys <= G.Keys && x in itemCount && x in R && BalancedAt(G, itemCount, R, P, c)
    ensures itemCount[x := itemCount[x] - 1].Keys == itemCount.Keys
    ensures BalancedAt(G, itemCount[x := itemCount[x] - 1], R - multiset{x}, P, c)
  {
    Recount(G, itemCount, x, itemCount[x] - 1, c);
  }

  lemma UncountOnce(G: Graph, itemCount: map<StackItem, int>, size: int, R: multiset<StackItem>,
                    P: multiset<StackItem>, x: StackItem)
    requires Books(G, itemCount, size, R, P) && x in R && x in itemCount && itemCount[x] > 1
    ensures Books(G, itemCount[x := itemCount[x] - 1], size - 1, R - multiset{x}, P)
  {
    Recount(G, itemCount, x, itemCount[x] - 1, x);
    forall c | c in G ensures BalancedAt(G, itemCount[x := itemCount[x] - 1], R - multiset{x}, P, c) {
      assert BalancedAt(G, itemCount, R, P, c);
      UncountOnceAt(G, itemCount, R, P, x, c);
    }
    KnownLess(G, R, x);
    BooksRecounted(G, itemCount, size, R, P, x, itemCount[x] - 1, size - 1, R - multiset{x}, P);
  }

  lemma DeadCount(G: Graph, itemCount: map<StackItem, int>, x: StackItem, c: StackItem)
    requires itemCount.Keys <= G.Keys && x in itemCount && itemCount[x] == 1 && c in G
    ensures CountOf(itemCount - {x}, c) == CountOf(itemCount, c) - (if c == x then 1 else 0)
    ensures Slots(G, (itemCount - {x}).Keys)[c] + multiset(G[x])[c] == Slots(G, itemCount.Keys)[c]
    ensures |Slots(G, (itemCount - {x}).Keys)| == |Slots(G, itemCount.Keys)| - |G[x]|
  {
    assert (itemCount - {x}).Keys == itemCount.Keys - {x};
    SlotsWithout(G, itemCount.Keys, x, c);
  }

  lemma Dies(G: Graph, itemCount: map<StackItem, int>, size: int, R: multiset<StackItem>, P: multiset<StackItem>,
             x: StackItem)
    requires Books(G, itemCount, size, R, P) && x in R && x in itemCount && itemCount[x] == 1
    ensures Books(G, itemCount - {x}, size - 1, Exchange(R, x, G[x]), P)
  {
    var after, R' := itemCount - {x}, Exchange(R, x, G[x]);
    ExchangeCovered(G, R, x);
    forall c | c in G ensures BalancedAt(G, after, R', P, c) {
      assert BalancedAt(G, itemCount, R, P, c);
      DeadCount(G, itemCount, x, c);
      ExchangeCounts(R, x, G[x], c);
    }
    DeadCount(G, itemCount, x, x);
    ExchangeCounts(R, x, G[x], x);
  }

  /** With exact books, what a stack holds has a count. */
  lemma HeldHasCount(G: Graph, itemCount: map<StackItem, int>, size: int, R: multiset<StackItem>, x: StackItem)
    requires Exact(G, itemCount, size, R) && x in R && x.IsContainer()
    ensures x in itemCount
  {
    assert BalancedAt(G, itemCount, R, multiset{}, x);
  }

  // ----- reachability

  /** c can be reached from a stack slot in n steps through container slots. */
  ghost predicate ReachableIn(G: Graph, R: multiset<StackItem>, c: StackItem, n: nat)
    decreases n
  {
    if n == 0 then c in R else exists d :: d in G && c in G[d] && ReachableIn(G, R, d, n - 1)
  }

  ghost predicate Reachable(G: Graph, R: multiset<StackItem>, c: StackItem) {
    exists n: nat :: ReachableIn(G, R, c, n)
  }

  lemma {:induction false} ReachableInIsLive(G: Graph, itemCount: map<StackItem, int>, size: int,
                                             R: multiset<StackItem>, c: StackItem, n: nat)
    requires Exact(G, itemCount, size, R) && ReachableIn(G, R, c, n) && c in G
    ensures c in itemCount
    decreases n
  {
    if n > 0 {
      var d :| d in G && c in G[d] && ReachableIn(G, R, d, n - 1);
      ReachableInIsLive(G, itemCount, size, R, d, n - 1);
      SlotsMember(G, itemCount.Keys, d, c);
    }
    assert BalancedAt(G, itemCount, R, multiset{}, c);
  }

  /** What the stacks reach is live. */
  lemma ReachableIsLive(G: Graph, itemCount: map<StackItem, int>, size: int, R: multiset<StackItem>, c: StackItem)
    requires Exact(G, itemCount, size, R) && Reachable(G, R, c) && c in G
    ensures c in itemCount
  {
    var n: nat :| ReachableIn(G, R, c, n);
    ReachableInIsLive(G, itemCount, size, R, c, n);
  }

  // ----- the two walks, as functions of the snapshot

  datatype Tally = Tally(itemCount: map<StackItem, int>, size: int)

  ghost predicate Sane(G: Graph, t: Tally) {
    && Closed(G)
    && t.itemCount.Keys <= G.Keys
    && forall c {:trigger t.itemCount[c]} :: c in t.itemCount ==> t.itemCount[c] >= 1
  }

  function AddOne(G: Graph, t: Tally, x: StackItem): (r: Tally)
    requires Sane(G, t) && (x.IsContainer() ==> x in G)
    ensures Sane(G, r) && t.itemCount.Keys <= r.itemCount.Keys
    decreases G.Keys - t.itemCount.Keys, 0
  {
    if !x.IsContainer() then
      Tally(t.itemCount, t.size + 1)
    else if x in t.itemCount then
      Tally(t.itemCount[x := t.itemCount[x] + 1], t.size + 1)
    else
      assert Covers(G, G[x]);
      var t' := Tally(t.itemCount[x := 1], t.size + 1);
      assert x in G.Keys - t.itemCount.Keys && x !in G.Keys - t'.itemCount.Keys;
      AddAll(G, t', G[x])
  }

  function AddAll(G: Graph, t: Tally, xs: seq<StackItem>): (r: Tally)
    requires Sane(G, t) && Covers(G, xs)
    ensures Sane(G, r) && t.itemCount.Keys <= r.itemCount.Keys
    decreases G.Keys - t.itemCount.Keys, 1, xs
  {
    if xs == [] then t
    else
      assert xs[0] in xs;
      AddAll(G, AddOne(G, t, xs[0]), xs[1..])
  }

  lemma NextPending(m: multiset<StackItem>, xs: seq<StackItem>)
    requires xs != []
    ensures xs[0] in m + multiset(xs)
    ensures m + multiset(xs) - multiset{xs[0]} == m + multiset(xs[1..])
  {
    assert xs == [xs[0]] + xs[1..];
  }

  function Alive(t: Tally, x: StackItem): Tally { Tally(t.itemCount[x := 1], t.size + 1) }

  lemma AddOneOpens(G: Graph, t: Tally, x: StackItem)
    requires Sane(G, t) && x in G && x !in t.itemCount
    ensures Sane(G, Alive(t, x)) && Covers(G, G[x]) && AddOne(G, t, x) == AddAll(G, Alive(t, x), G[x])
    ensures G.Keys - Alive(t, x).itemCount.Keys < G.Keys - t.itemCount.Keys
  {
    assert x in G.Keys - t.itemCount.Keys && x !in G.Keys - Alive(t, x).itemCount.Keys;
  }

  /**
    Counting a pending reference, and all that comes alive with it, keeps the books balanced; gap is how far
    the size is behind.
   */
  lemma {:induction false} AddOneBalances(G: Graph, t: Tally, gap: int, R: multiset<StackItem>,
                                          P: multiset<StackItem>, x: StackItem)
    requires Books(G, t.itemCount, t.size + gap, R, P) && x in P
    ensures var r := AddOne(G, t, x); Books(G, r.itemCount, r.size + gap, R, P - multiset{x})
    decreases G.Keys - t.itemCount.Keys, 0
  {
    if !x.IsContainer() {
      CountPrimitive(G, t.itemCount, t.size + gap, R, P, x);
    } else if x in t.itemCount {
      CountAgain(G, t.itemCount, t.size + gap, R, P, x);
    } else {
      AddOneOpens(G, t, x);
      ComesAlive(G, t.itemCount, t.size + gap, R, P, x);
      AddAllBalances(G, Alive(t, x), gap, R, P - multiset{x}, G[x]);
    }
  }

  lemma {:induction false} AddAllBalances(G: Graph, t: Tally, gap: int, R: multiset<StackItem>,
                                          P: multiset<StackItem>, xs: seq<StackItem>)
    requires Books(G, t.itemCount, t.size + gap, R, P + multiset(xs)) && Covers(G, xs)
    ensures var r := AddAll(G, t, xs); Books(G, r.itemCount, r.size + gap, R, P)
    decreases G.Keys - t.itemCount.Keys, 1, xs
  {
    if xs == [] {
      assert P + multiset(xs) == P;
    } else {
      NextPending(P, xs);
      AddOneBalances(G, t, gap, R, P + multiset(xs), xs[0]);
      AddAllBalances(G, AddOne(G, t, xs[0]), gap, R, P, xs[1..]);
    }
  }

  lemma ExchangeSplits(R: multiset<StackItem>, x: StackItem, xs: seq<StackItem>)
    requires x in R
    ensures Exchange(R, x, xs) - multiset(xs) == R - multiset{x} && multiset(xs) <= Exchange(R, x, xs)
    ensures Exchange(R, x, xs) == (R - multiset{x}) + multiset(xs)
  {
  }

  /** R holds every reference that is accounted for, x among them. */
  ghost function RemoveOne(G: Graph, t: Tally, R: multiset<StackItem>, x: StackItem): (r: Tally)
    requires Exact(G, t.itemCount, t.size, R) && x in R
    ensures Exact(G, r.itemCount, r.size, R - multiset{x})
    ensures r.size < t.size && r.itemCount.Keys <= t.itemCount.Keys
    decreases t.size, 0
  {
    if !x.IsContainer() then
      UncountPrimitive(G, t.itemCount, t.size, R, multiset{}, x);
      Tally(t.itemCount, t.size - 1)
    else if CountOf(t.itemCount, x) > 1 then
      UncountOnce(G, t.itemCount, t.size, R, multiset{}, x);
      Tally(t.itemCount[x := t.itemCount[x] - 1], t.size - 1)
    else
      HeldHasCount(G, t.itemCount, t.size, R, x);
      Dies(G, t.itemCount, t.size, R, multiset{}, x);
      ExchangeSplits(R, x, G[x]);
      RemoveAll(G, Tally(t.itemCount - {x}, t.size - 1), R - multiset{x}, G[x])
  }

  ghost function RemoveAll(G: Graph, t: Tally, R: multiset<StackItem>, xs: seq<StackItem>): (r: Tally)
    requires Exact(G, t.itemCount, t.size, R + multiset(xs))
    ensures Exact(G, r.itemCount, r.size, R)
    ensures r.size <= t.size && r.itemCount.Keys <= t.itemCount.Keys
    decreases t.size, 1, xs
  {
    if xs == [] then
      assert R + multiset(xs) == R;
      t
    else
      NextPending(R, xs);
      RemoveAll(G, RemoveOne(G, t, R + multiset(xs), xs[0]), R, xs[1..])
  }

  function Dead(t: Tally, x: StackItem): Tally { Tally(t.itemCount - {x}, t.size - 1) }

  lemma RemoveOneOpens(G: Graph, t: Tally, R: multiset<StackItem>, x: StackItem)
    requires Exact(G, t.itemCount, t.size, R) && x in R && x.IsContainer() && CountOf(t.itemCount, x) <= 1
    ensures x in G && x !in RemoveOne(G, t, R, x).itemCount
    ensures Exact(G, t.itemCount - {x}, t.size - 1, R - multiset{x} + multiset(G[x]))
    ensures RemoveOne(G, t, R, x) == RemoveAll(G, Dead(t, x), R - multiset{x}, G[x])
  {
    HeldHasCount(G, t.itemCount, t.size, R, x);
    Dies(G, t.itemCount, t.size, R, multiset{}, x);
    ExchangeSplits(R, x, G[x]);
  }

  /** Taking references back never ends the life of what the remaining slots reach. */
  lemma RemoveSpares(G: Graph, t: Tally, R: multiset<StackItem>, x: StackItem, c: StackItem)
    requires Exact(G, t.itemCount, t.size, R) && x in R
    requires c in G && Reachable(G, R - multiset{x}, c)
    ensures c in RemoveOne(G, t, R, x).itemCount
  {
    var r := RemoveOne(G, t, R, x);
    ReachableIsLive(G, r.itemCount, r.size, R - multiset{x}, c);
  }

  /** A new stack slot, once counted, leaves exact books exact. */
  lemma AddIsExact(G: Graph, t: Tally, R: multiset<StackItem>, x: StackItem)
    requires Exact(G, t.itemCount, t.size, R) && (x.IsContainer() ==> x in G)
    ensures var r := AddOne(G, t, x); Exact(G, r.itemCount, r.size, R + multiset{x})
  {
    forall c | c in G ensures BalancedAt(G, t.itemCount, R + multiset{x}, multiset{x}, c) {
      assert BalancedAt(G, t.itemCount, R, multiset{}, c);
    }
    AddOneBalances(G, t, 0, R + multiset{x}, multiset{x}, x);
    assert multiset{x} - multiset{x} == multiset{};
  }
}
