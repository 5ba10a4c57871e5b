/**
  Cloning of structs. A clone is equal to its source and shares no struct with it along paths that
  lead through structs only; fields that are not structs are shared. The recursion ends because of the
  rank of structs, and the clones get the rank of what they copy.
 */
module StructClone {
  import opened Items
  import opened Equality

  ghost predicate NewStructs(G: Graph, H: Graph, ys: seq<StackItem>) {
    forall i {:trigger ys[i]} :: 0 <= i < |ys| && ys[i].Struct? ==> ys[i] in H && ys[i] !in G
  }

  /** All new containers are structs, and a struct in one of their slots is new as well. */
  ghost predicate OnlyClones(G: Graph, H: Graph) {
    forall x {:trigger x in G} {:trigger H[x]} :: x in H && x !in G ==> x.Struct? && NewStructs(G, H, H[x])
  }

  ghost predicate RankExtends(rank: map<StackItem, nat>, rank': map<StackItem, nat>) {
    && rank.Keys <= rank'.Keys
    && forall x {:trigger rank'[x]} :: x in rank ==> rank'[x] == rank[x]
  }

  /** H extends G by unshared clones, and shows the heap as it is now. */
  ghost predicate ClonedInto(G: Graph, rank: map<StackItem, nat>, H: Graph, rank': map<StackItem, nat>) {
    && Ranked(G, rank) && Ranked(H, rank')
    && Extends(G, H) && OnlyClones(G, H)
    && RankExtends(rank, rank')
  }

  /** The i-th field of a clone, given the i-th field of its source. */
  ghost predicate FieldCloned(G: Graph, H: Graph, rank': map<StackItem, nat>, x: StackItem, y: StackItem)
    requires Ranked(H, rank')
  {
    && Covered(G, x) && Covered(H, x) && Covered(H, y)
    && Equals(H, rank', x, y)
    && (if x.Struct? then y.Struct? && y !in G && x in rank' && y in rank' && rank'[y] == rank'[x] else y == x)
  }

  lemma ClonedTwice(G: Graph, rank: map<StackItem, nat>, H: Graph, rank1: map<StackItem, nat>, K: Graph,
                    rank2: map<StackItem, nat>)
    requires ClonedInto(G, rank, H, rank1) && ClonedInto(H, rank1, K, rank2)
    ensures ClonedInto(G, rank, K, rank2)
  {
    forall x | x in K && x !in G ensures x.Struct? && NewStructs(G, K, K[x]) {
      if x in H {
        assert K[x] == H[x] && NewStructs(G, H, H[x]);
      } else {
        assert NewStructs(H, K, K[x]);
      }
    }
    forall x | x in rank ensures rank2[x] == rank[x] { assert rank1[x] == rank[x]; }
  }

  lemma FieldStaysCloned(G: Graph, H: Graph, rank1: map<StackItem, nat>, K: Graph, rank2: map<StackItem, nat>,
                         x: StackItem, y: StackItem)
    requires ClonedInto(H, rank1, K, rank2) && Ranked(H, rank1) && FieldCloned(G, H, rank1, x, y)
    ensures FieldCloned(G, K, rank2, x, y)
  {
    EqualsExtended(H, rank1, K, rank2, x, y);
  }

  ghost predicate FieldsCloned(G: Graph, H: Graph, rank': map<StackItem, nat>, xs: seq<StackItem>, ys: seq<StackItem>)
    requires Ranked(H, rank')
  {
    |ys| <= |xs| && forall k {:trigger ys[k]} :: 0 <= k < |ys| ==> FieldCloned(G, H, rank', xs[k], ys[k])
  }

  lemma CloneIsRanked(G: Graph, H: Graph, rank1: map<StackItem, nat>, a: StackItem, c: StackItem, copy: seq<StackItem>)
    requires Ranked(H, rank1) && a in H && a.Struct? && c.Struct? && c !in H
    requires |copy| == |H[a]| && FieldsCloned(G, H, rank1, H[a], copy)
    ensures Ranked(H[c := copy], rank1[c := rank1[a]])
  {
    var K, rank2 := H[c := copy], rank1[c := rank1[a]];
    forall x | x in copy && x.IsContainer() ensures x in K {
      var k :| 0 <= k < |copy| && copy[k] == x;
    }
    assert Covers(K, K[c]);
    forall d | d in K ensures Covers(K, K[d]) { if d != c { assert Covers(H, H[d]); } }
    forall s: StackItem, f: StackItem | s in K && s.Struct? && f in K[s] && f.Struct?
      ensures f in K && rank2[f] < rank2[s]
    {
      if s == c {
        var k :| 0 <= k < |copy| && copy[k] == f;
        assert FieldCloned(G, H, rank1, H[a][k], copy[k]);
        assert H[a][k] in H[a] && rank1[H[a][k]] < rank1[a];
      } else {
        assert K[s] == H[s] && Covers(H, H[s]);
        assert rank1[f] < rank1[s];
      }
    }
  }

  lemma CloneIsUnshared(G: Graph, H: Graph, rank1: map<StackItem, nat>, a: StackItem, c: StackItem,
                        copy: seq<StackItem>)
    requires Ranked(H, rank1) && OnlyClones(G, H) && a in H && c.Struct? && c !in H
    requires |copy| == |H[a]| && FieldsCloned(G, H, rank1, H[a], copy)
    ensures OnlyClones(G, H[c := copy])
  {
    var K := H[c := copy];
    forall x | x in K && x !in G ensures x.Struct? && NewStructs(G, K, K[x]) {
      if x != c {
        assert NewStructs(G, H, H[x]);
      } else {
        forall k | 0 <= k < |copy| && copy[k].Struct? ensures copy[k] in K && copy[k] !in G {
          assert FieldCloned(G, H, rank1, H[a][k], copy[k]);
        }
      }
    }
  }

  /** A struct whose fields are clones of the fields of another is a clone of it. */
  lemma CloneCompleted(G: Graph, rank: map<StackItem, nat>, H: Graph, rank1: map<StackItem, nat>, a: StackItem,
                       c: StackItem, copy: seq<StackItem>)
    requires ClonedInto(G, rank, H, rank1)
    requires a in G && a.Struct? && c.Struct? && c !in H && c !in rank
    requires |copy| == |G[a]| && FieldsCloned(G, H, rank1, G[a], copy)
    ensures ClonedInto(G, rank, H[c := copy], rank1[c := rank[a]])
    ensures Equals(H[c := copy], rank1[c := rank[a]], a, c)
  {
    var K, rank2 := H[c := copy], rank1[c := rank[a]];
    assert H[a] == G[a] && rank1[a] == rank[a];
    CloneIsRanked(G, H, rank1, a, c, copy);
    CloneIsUnshared(G, H, rank1, a, c, copy);
    forall k | 0 <= k < |copy|
      ensures Covered(K, K[a][k]) && Covered(K, copy[k]) && Equals(K, rank2, K[a][k], copy[k])
    {
      assert FieldCloned(G, H, rank1, G[a][k], copy[k]);
      EqualsExtended(H, rank1, K, rank2, G[a][k], copy[k]);
    }
    StructIsEquals(K, rank2, a, c);
  }

  lemma OneMoreField(G: Graph, H: Graph, rank1: map<StackItem, nat>, K: Graph, rank2: map<StackItem, nat>,
                     xs: seq<StackItem>, ys: seq<StackItem>, y: StackItem)
    requires ClonedInto(H, rank1, K, rank2) && FieldsCloned(G, H, rank1, xs, ys)
    requires |ys| < |xs| && FieldCloned(G, K, rank2, xs[|ys|], y)
    ensures FieldsCloned(G, K, rank2, xs, ys + [y])
  {
    forall k | 0 <= k < |ys| ensures FieldCloned(G, K, rank2, xs[k], ys[k]) {
      FieldStaysCloned(G, H, rank1, K, rank2, xs[k], ys[k]);
    }
  }

  lemma ClonedNothing(G: Graph, rank: map<StackItem, nat>)
    requires Ranked(G, rank)
    ensures ClonedInto(G, rank, G, rank)
  {
  }

  lemma SharedField(G: Graph, rank: map<StackItem, nat>, x: StackItem)
    requires Ranked(G, rank) && Covered(G, x) && !x.Struct?
    ensures FieldCloned(G, G, rank, x, x)
  {
    EqualsReflexive(G, rank, x);
  }

  lemma FieldClonedEarlier(G: Graph, rank: map<StackItem, nat>, H: Graph, rank1: map<StackItem, nat>, K: Graph,
                           rank2: map<StackItem, nat>, x: StackItem, y: StackItem)
    requires ClonedInto(G, rank, H, rank1) && ClonedInto(H, rank1, K, rank2)
    requires Covered(G, x) && FieldCloned(H, K, rank2, x, y)
    ensures FieldCloned(G, K, rank2, x, y)
  {
    if y.Struct? && y in G { assert y in H; }
  }

  /** A struct is cloned, anything else is passed on. H and rank' extend G and rank by the clones. */
  method CloneIfStruct(item: StackItem, ghost G: Graph, ghost rank: map<StackItem, nat>)
    returns (val: StackItem, ghost H: Graph, ghost rank': map<StackItem, nat>)
    requires Ranked(G, rank) && Covered(G, item) && Shows(G)
    ensures ClonedInto(G, rank, H, rank') && FieldCloned(G, H, rank', item, val)
    ensures Shows(H) && fresh(Objects(H) - Objects(G))
    decreases Height(rank, item), 1
  {
    if item.Struct? {
      var t;
      t, H, rank' := Clone(item.s, G, rank);
      val := Struct(t);
    } else {
      ClonedNothing(G, rank);
      SharedField(G, rank, item);
      val, H, rank' := item, G, rank;
    }
  }

  /** Copies the fields of i, cloning those that are structs. */
  method Clone(i: StructItem, ghost G: Graph, ghost rank: map<StackItem, nat>)
    returns (ret: StructItem, ghost H: Graph, ghost rank': map<StackItem, nat>)
    requires Ranked(G, rank) && Struct(i) in G && Shows(G)
    ensures ClonedInto(G, rank, H, rank') && FieldCloned(G, H, rank', Struct(i), Struct(ret))
    ensures Shows(H) && fresh(Objects(H) - Objects(G))
    decreases Height(rank, Struct(i)), 0
  {
    ghost var a := Struct(i);
    var fields := SlotsOf(Struct(i), G);
    H, rank' := G, rank;
    ClonedNothing(G, rank);
    SlotsKnown(G, a);
    var copy := [];
    for j := 0 to |fields|
      invariant |copy| == j
      invariant ClonedInto(G, rank, H, rank') && FieldsCloned(G, H, rank', fields, copy)
      invariant Shows(H) && fresh(Objects(H) - Objects(G))
    {
      ghost var H0, rank0 := H, rank';
      FieldIsLower(G, rank, H0, rank0, a, j);
      var field;
      field, H, rank' := CloneIfStruct(fields[j], H0, rank0);
      FieldClonedEarlier(G, rank, H0, rank0, H, rank', fields[j], field);
      OneMoreField(G, H0, rank0, H, rank', fields, copy, field);
      ClonedTwice(G, rank, H0, rank0, H, rank');
      copy := copy + [field];
    }
    ghost var H0, rank0 := H, rank';
    label Copied:
    ret := new StructItem(copy);
    ShowsKept@Copied(H0);
    H, rank' := H0[Struct(ret) := copy], rank0[Struct(ret) := rank[a]];
    CloneCompleted(G, rank, H0, rank0, a, Struct(ret), copy);
    forall c | c in H ensures c.Children() == H[c] {
      assert c != Struct(ret) ==> c in H0;
    }
  }

  lemma FieldIsLower(G: Graph, rank: map<StackItem, nat>, H: Graph, rank': map<StackItem, nat>, a: StackItem, j: nat)
    requires ClonedInto(G, rank, H, rank') && a in G && a.Struct? && j < |G[a]|
    ensures Covered(G, G[a][j]) && Covered(H, G[a][j]) && Height(rank', G[a][j]) < Height(rank, a)
  {
    SlotsKnown(G, a);
    var x := G[a][j];
    if x.IsContainer() { assert x in H; }
    if x.Struct? {
      assert x in G[a] && rank[x] < rank[a];
      assert rank'[x] == rank[x];
    }
  }
}
