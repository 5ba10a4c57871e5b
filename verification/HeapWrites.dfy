/**
  What the object opcodes do to the heap, whatever the counters say: no write lets a struct come to contain
  itself through structs.
 */
module HeapWrites {
  import opened Items
  import opened Equality
  import opened StructClone
  import opened SlotBooks

  /** Clones join the heap, giving K; then the container c, new or old, has the slots s. order is that of the clones. */
  datatype Write = Write(K: Graph, order: map<StackItem, nat>, c: StackItem, s: seq<StackItem>)

  /** K extends G by structs whose fields that are structs are new as well, and were made before. */
  ghost predicate ClonesJoin(G: Graph, K: Graph, order: map<StackItem, nat>) {
    && Extends(G, K) && Closed(K) && OnlyClones(G, K)
    && (forall c {:trigger order[c]} {:trigger c in order} :: c in K && c !in G ==> c in order)
    && (forall c, f {:trigger K[c], order[f]} :: c in K && c !in G && f in K[c] && f.Struct? ==>
          f in order && c in order && order[f] < order[c])
  }

  /** A new container may hold anything; an old one keeps its structs and may get clones. */
  ghost predicate Writes(G: Graph, w: Write) {
    && ClonesJoin(G, w.K, w.order) && Covers(w.K, w.s) && w.c.IsContainer()
    && (w.c in G || w.c !in w.K)
    && (w.c in G ==> forall x {:trigger x in w.s} :: x in w.s && x.Struct? ==> x in G[w.c] || x !in G)
  }

  function Written(w: Write): Graph { w.K[w.c := w.s] }

  /** Old containers as in rank, clones as in order. */
  ghost function Joint(G: Graph, K: Graph, rank: map<StackItem, nat>, order: map<StackItem, nat>): map<StackItem, nat> {
    map c | c in rank.Keys + K.Keys :: if c in rank then rank[c] else if c in order then order[c] else 0
  }

  lemma JoinRanked(G: Graph, rank: map<StackItem, nat>, K: Graph, order: map<StackItem, nat>)
    requires Ranked(G, rank) && rank.Keys == G.Keys && ClonesJoin(G, K, order)
    ensures ClonedInto(G, rank, K, Joint(G, K, rank, order))
  {
    var rank1 := Joint(G, K, rank, order);
    forall c: StackItem, f: StackItem | c in K && c.Struct? && f in K[c] && f.Struct?
      ensures f in K && rank1[f] < rank1[c]
    {
      if c in G {
        assert K[c] == G[c] && Covers(G, G[c]);
        assert f in G && rank[f] < rank[c];
      } else {
        assert Covers(K, K[c]) && NewStructs(G, K, K[c]);
        var i :| 0 <= i < |K[c]| && K[c][i] == f;
        assert order[f] < order[c];
      }
    }
  }

  /** Ranks of what is in the snapshot. */
  lemma RankOnly(G: Graph, rank: map<StackItem, nat>) returns (own: map<StackItem, nat>)
    requires Ranked(G, rank)
    ensures Ranked(G, own) && own.Keys == G.Keys
  {
    own := map c | c in G :: rank[c];
    forall c: StackItem, f: StackItem | c in G && c.Struct? && f in G[c] && f.Struct?
      ensures f in G && own[f] < own[c]
    {
      assert Covers(G, G[c]);
      assert rank[f] < rank[c];
    }
  }

  lemma WriteRanked(G: Graph, rank: map<StackItem, nat>, w: Write) returns (rank': map<StackItem, nat>)
    requires Ranked(G, rank) && Writes(G, w)
    ensures Ranked(Written(w), rank')
  {
    var own := RankOnly(G, rank);
    JoinRanked(G, own, w.K, w.order);
    var rank1 := Joint(G, w.K, own, w.order);
    if w.c in G {
      rank' := FiledRanked(G, own, w.K, rank1, w.c, w.s);
    } else {
      rank' := MadeRanked(w.K, rank1, w.c, w.s);
    }
  }
}
