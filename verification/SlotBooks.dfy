/**
  What a write into a container does to the books and to the ranks of structs, on snapshots.
 */
module SlotBooks {
  import opened Items
  import opened SeqOps
  import opened RefCount
  import opened Equality
  import opened StructClone

  // ----- the books

  /** Replacing the slots of a container changes the sum over the live ones only if it is live. */
  lemma SlotsRewritten(G: Graph, live: set<StackItem>, t: StackItem, s: seq<StackItem>, c: StackItem)
    requires live <= G.Keys && t in G
    ensures t in live ==> Slots(G[t := s], live)[c] + multiset(G[t])[c] == Slots(G, live)[c] + multiset(s)[c]
    ensures t in live ==> |Slots(G[t := s], live)| + |G[t]| == |Slots(G, live)| + |s|
    ensures t !in live ==>
              Slots(G[t := s], live)[c] == Slots(G, live)[c] && |Slots(G[t := s], live)| == |Slots(G, live)|
  {
    var H := G[t := s];
    if t in live {
      SlotsWithout(G, live, t, c);
      SlotsWithout(H, live, t, c);
      SlotsSame(G, H, live - {t}, c);
    } else {
      SlotsSame(G, H, live, c);
    }
  }

  lemma ClosedRewritten(G: Graph, t: StackItem, s: seq<StackItem>)
    requires Closed(G) && t in G && Covers(G, s)
    ensures Closed(G[t := s])
  {
    var H := G[t := s];
    forall c | c in H ensures Covers(H, H[c]) {
      if c == t { assert Covers(G, s); } else { assert Covers(G, G[c]); }
    }
  }

  lemma SlotsCovered(G: Graph, live: set<StackItem>, c: StackItem)
    requires Closed(G) && live <= G.Keys && c.IsContainer()
    ensures Slots(G, live)[c] > 0 ==> c in G
  {
    if Slots(G, live)[c] > 0 {
      var d := SlotsSource(G, live, c);
      assert Covers(G, G[d]);
    }
  }

  /** Containers that nothing live refers to may join the snapshot. */
  lemma ExactExtended(G: Graph, H: Graph, t: Tally, R: multiset<StackItem>)
    requires Exact(G, t.itemCount, t.size, R) && Closed(H) && Extends(G, H)
    ensures Exact(H, t.itemCount, t.size, R)
  {
    var live := t.itemCount.Keys;
    assert live <= H.Keys by { forall c | c in live ensures c in H { assert c in G; } }
    forall c | c in H ensures BalancedAt(H, t.itemCount, R, multiset{}, c) {
      forall d | d in live ensures G[d] == H[d] { assert d in G; }
      SlotsSame(G, H, live, c);
      if c in G {
        assert BalancedAt(G, t.itemCount, R, multiset{}, c);
      } else {
        assert c.IsContainer();
        SlotsCovered(G, live, c);
      }
    }
    forall d | d in live ensures G[d] == H[d] { assert d in G; }
    SlotsSame(G, H, live, Boolean(false));
    assert Known(H, R) by { forall x | x in R && x.IsContainer() ensures x in H { assert x in G; } }
  }

  /** A new slot in a live container is a reference still to be counted; in any other container it is nothing yet. */
  lemma SlotAdded(G: Graph, t: Tally, R: multiset<StackItem>, c: StackItem, s: seq<StackItem>, x: StackItem)
    requires Exact(G, t.itemCount, t.size, R) && c in G && Covers(G, s)
    requires multiset(s) == multiset(G[c]) + multiset{x}
    ensures c in t.itemCount ==> Books(G[c := s], t.itemCount, t.size, R, multiset{x})
    ensures c !in t.itemCount ==> Exact(G[c := s], t.itemCount, t.size, R)
  {
    var H, P := G[c := s], if c in t.itemCount then multiset{x} else multiset{};
    ClosedRewritten(G, c, s);
    forall d | d in H ensures BalancedAt(H, t.itemCount, R, P, d) {
      assert BalancedAt(G, t.itemCount, R, multiset{}, d);
      SlotsRewritten(G, t.itemCount.Keys, c, s, d);
    }
    SlotsRewritten(G, t.itemCount.Keys, c, s, c);
    assert |s| == |multiset(s)| == |G[c]| + 1;
    assert x in multiset(s);
  }

  /** A slot taken out of a live container leaves one reference too many in the books; of any other, nothing. */
  lemma SlotDropped(G: Graph, t: Tally, R: multiset<StackItem>, c: StackItem, s: seq<StackItem>, x: StackItem)
    requires Exact(G, t.itemCount, t.size, R) && c in G
    requires multiset(G[c]) == multiset(s) + multiset{x}
    ensures Closed(G[c := s])
    ensures c in t.itemCount ==> Exact(G[c := s], t.itemCount, t.size, R + multiset{x})
    ensures c !in t.itemCount ==> Exact(G[c := s], t.itemCount, t.size, R)
  {
    var H, R' := G[c := s], if c in t.itemCount then R + multiset{x} else R;
    assert Covers(G, G[c]);
    forall y | y in s && y.IsContainer() ensures y in G { assert y in multiset(G[c]); }
    ClosedRewritten(G, c, s);
    forall d | d in H ensures BalancedAt(H, t.itemCount, R', multiset{}, d) {
      assert BalancedAt(G, t.itemCount, R, multiset{}, d);
      SlotsRewritten(G, t.itemCount.Keys, c, s, d);
    }
    SlotsRewritten(G, t.itemCount.Keys, c, s, c);
    assert |G[c]| == |multiset(G[c])| == |s| + 1;
    assert x in multiset(G[c]);
  }

  /** The slots of a container without a count do not matter to the books. */
  lemma BooksElsewhere(G: Graph, itemCount: map<StackItem, int>, size: int, R: multiset<StackItem>,
                       P: multiset<StackItem>, c: StackItem, s: seq<StackItem>)
    requires Books(G, itemCount, size, R, P) && c in G && c !in itemCount && Covers(G, s)
    ensures Books(G[c := s], itemCount, size, R, P)
  {
    var H := G[c := s];
    ClosedRewritten(G, c, s);
    forall d | d in H ensures BalancedAt(H, itemCount, R, P, d) {
      assert BalancedAt(G, itemCount, R, P, d);
      SlotsRewritten(G, itemCount.Keys, c, s, d);
    }
    SlotsRewritten(G, itemCount.Keys, c, s, c);
  }

  lemma MultisetRemoved(s: seq<StackItem>, k: nat)
    requires k < |s|
    ensures multiset(s) == multiset(Removed(s, k)) + multiset{s[k]}
  {
    Slices(s, k, s[k]);
    assert s == s[..k] + [s[k]] + s[k + 1..];
  }

  lemma MultisetSet(s: seq<StackItem>, k: nat, x: StackItem)
    requires k < |s|
    ensures multiset(s[k := x]) == multiset(Removed(s, k)) + multiset{x}
  {
    MultisetRemoved(s[k := x], k);
    assert Removed(s[k := x], k) == Removed(s, k);
  }

  // ----- the ranks

  lemma {:induction false} RanksBounded(rank: map<StackItem, nat>) returns (top: nat)
    ensures forall x {:trigger rank[x]} :: x in rank ==> rank[x] < top
    decreases |rank|
  {
    if rank == map[] {
      top := 0;
    } else {
      var d :| d in rank;
      var below := RanksBounded(rank - {d});
      top := if rank[d] < below then below else rank[d] + 1;
      forall x | x in rank ensures rank[x] < top {
        if x != d { assert (rank - {d})[x] < below; }
      }
    }
  }

  /** Ranks that put everything in G above everything else. */
  ghost function Raised(G: Graph, rank: map<StackItem, nat>, top: nat): map<StackItem, nat> {
    map x | x in rank :: if x in G then rank[x] + top else rank[x]
  }

  /** Fresh clones may be filed in any container, even a struct: it and all old ones are put above them. */
  lemma FiledRanked(G: Graph, rank: map<StackItem, nat>, H: Graph, rank1: map<StackItem, nat>, c: StackItem,
                    s: seq<StackItem>)
    returns (rank2: map<StackItem, nat>)
    requires ClonedInto(G, rank, H, rank1) && c in G && Covers(H, s)
    requires forall x {:trigger x in s} :: x in s && x.Struct? ==> x in G[c] || x !in G
    ensures Ranked(H[c := s], rank2)
  {
    var top := RanksBounded(rank1);
    rank2 := Raised(G, rank1, top);
    var K := H[c := s];
    ClosedRewritten(H, c, s);
    forall d: StackItem, x: StackItem | d in K && d.Struct? && x in K[d] && x.Struct?
      ensures x in K && rank2[x] < rank2[d]
    {
      if d == c {
        assert Covers(H, s);
        if x in G { assert x in G[c] && rank[x] < rank[c] && rank1[x] == rank[x] && rank1[c] == rank[c]; }
      } else if d in G {
        assert Covers(G, G[d]);
        assert H[d] == G[d] && x in G && rank[x] < rank[d] && rank1[x] == rank[x] && rank1[d] == rank[d];
      } else {
        assert NewStructs(G, H, H[d]);
        var i :| 0 <= i < |H[d]| && H[d][i] == x;
        assert rank1[x] < rank1[d];
      }
    }
  }

  /** A new container may hold anything; a new struct ranks above everything. */
  lemma MadeRanked(G: Graph, rank: map<StackItem, nat>, c: StackItem, s: seq<StackItem>)
    returns (rank2: map<StackItem, nat>)
    requires Ranked(G, rank) && c.IsContainer() && c !in G && Covers(G, s)
    ensures Ranked(G[c := s], rank2)
  {
    var top := RanksBounded(rank);
    rank2 := rank[c := top];
    var K := G[c := s];
    forall d | d in K ensures Covers(K, K[d]) {
      if d == c { assert Covers(G, s); } else { assert Covers(G, G[d]); }
    }
    forall d: StackItem, x: StackItem | d in K && d.Struct? && x in K[d] && x.Struct?
      ensures x in K && rank2[x] < rank2[d]
    {
      if d == c {
        assert x in s && x in G && rank[x] < top;
      } else {
        assert Covers(G, G[d]);
        assert rank[x] < rank[d];
      }
    }
  }
}
