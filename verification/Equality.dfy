/**
  Equality of stack items. Primitives are compared by their bytes, arrays and maps by identity, structs
  field by field. The comparison of structs ends because no struct contains itself through structs
  alone: `rank` witnesses that.
 */
module Equality {
  import opened Options
  import opened Bytes
  import opened TwosComplement
  import opened Items

  /** The byte form of an item, if it has one. */
  function TryBytes(x: StackItem): Option<bytes> {
    match x
    case ByteArray(data) => Some(data)
    case Boolean(b) => Some(if b then [1] else [])
    case BigInteger(n) => Some(Encode(n))
    case _ => None
  }

  predicate IsPrimitive(x: StackItem) { x.ByteArray? || x.Boolean? || x.BigInteger? }

  /** Struct fields that are structs rank below the struct that holds them. */
  ghost predicate Ranked(G: Graph, rank: map<StackItem, nat>) {
    && Closed(G)
    && G.Keys <= rank.Keys
    && forall s, c {:trigger G[s], rank[c]} :: s in G && s.Struct? && c in G[s] && c.Struct? ==>
         c in G && rank[c] < rank[s]
  }

  ghost predicate Covered(G: Graph, x: StackItem) { x.IsContainer() ==> x in G }

  ghost function Height(rank: map<StackItem, nat>, x: StackItem): nat {
    if x.Struct? && x in rank then rank[x] + 1 else 0
  }

  ghost predicate Equals(G: Graph, rank: map<StackItem, nat>, a: StackItem, b: StackItem)
    requires Ranked(G, rank) && Covered(G, a) && Covered(G, b)
    decreases Height(rank, a)
  {
    match a
    case ByteArray(data) => TryBytes(b) == Some(data)
    case Boolean(x) => if b.Boolean? then x == b.b else TryBytes(b) == TryBytes(a)
    case BigInteger(n) => if b.BigInteger? then n == b.n else TryBytes(b) == TryBytes(a)
    case Interop(id) => b == a
    case Array(_) => b == a
    case Map(_) => b == a
    case Struct(_) =>
      || b == a
      || (&& b.Struct? && |G[a]| == |G[b]|
          && (SlotsKnown(G, a); SlotsKnown(G, b);
              forall j :: 0 <= j < |G[a]| ==> Equals(G, rank, G[a][j], G[b][j])))
  }

  lemma SlotsKnown(G: Graph, c: StackItem)
    requires Closed(G) && c in G
    ensures forall j :: 0 <= j < |G[c]| ==> Covered(G, G[c][j])
  {
    assert Covers(G, G[c]);
  }

  // ----- primitives

  /** Two primitives are equal exactly when their bytes are. */
  lemma PrimitivesByBytes(G: Graph, rank: map<StackItem, nat>, a: StackItem, b: StackItem)
    requires Ranked(G, rank) && IsPrimitive(a) && IsPrimitive(b)
    ensures Equals(G, rank, a, b) <==> TryBytes(a) == TryBytes(b)
  {
    if a.BigInteger? && b.BigInteger? && Encode(a.n) == Encode(b.n) { EncodeInjective(a.n, b.n); }
  }

  /** A primitive equals nothing but primitives. */
  lemma PrimitiveOnly(G: Graph, rank: map<StackItem, nat>, a: StackItem, b: StackItem)
    requires Ranked(G, rank) && Covered(G, a) && Covered(G, b) && Equals(G, rank, a, b)
    ensures IsPrimitive(a) <==> IsPrimitive(b)
  {
  }

  // ----- equivalence

  lemma {:induction false} EqualsReflexive(G: Graph, rank: map<StackItem, nat>, a: StackItem)
    requires Ranked(G, rank) && Covered(G, a)
    ensures Equals(G, rank, a, a)
  {
    if IsPrimitive(a) { PrimitivesByBytes(G, rank, a, a); }
  }

  lemma {:induction false} EqualsSymmetric(G: Graph, rank: map<StackItem, nat>, a: StackItem, b: StackItem)
    requires Ranked(G, rank) && Covered(G, a) && Covered(G, b) && Equals(G, rank, a, b)
    ensures Equals(G, rank, b, a)
    decreases Height(rank, a)
  {
    if IsPrimitive(a) {
      PrimitiveOnly(G, rank, a, b);
      PrimitivesByBytes(G, rank, a, b);
      PrimitivesByBytes(G, rank, b, a);
    } else if a.Struct? && a != b {
      SlotsKnown(G, a);
      SlotsKnown(G, b);
      forall j | 0 <= j < |G[b]| ensures Equals(G, rank, G[b][j], G[a][j]) {
        EqualsSymmetric(G, rank, G[a][j], G[b][j]);
      }
    }
  }

  lemma {:induction false} EqualsTransitive(G: Graph, rank: map<StackItem, nat>, a: StackItem, b: StackItem,
                                            c: StackItem)
    requires Ranked(G, rank) && Covered(G, a) && Covered(G, b) && Covered(G, c)
    requires Equals(G, rank, a, b) && Equals(G, rank, b, c)
    ensures Equals(G, rank, a, c)
    decreases Height(rank, a)
  {
    if IsPrimitive(a) {
      PrimitiveOnly(G, rank, a, b);
      PrimitiveOnly(G, rank, b, c);
      PrimitivesByBytes(G, rank, a, b);
      PrimitivesByBytes(G, rank, b, c);
      PrimitivesByBytes(G, rank, a, c);
    } else if a.Struct? && a != b && b != c && a != c {
      SlotsKnown(G, a);
      SlotsKnown(G, b);
      SlotsKnown(G, c);
      forall j | 0 <= j < |G[a]| ensures Equals(G, rank, G[a][j], G[c][j]) {
        EqualsTransitive(G, rank, G[a][j], G[b][j], G[c][j]);
      }
    }
  }

  // ----- more containers do not change an answer

  ghost predicate Extends(G: Graph, H: Graph) {
    forall x {:trigger H[x]} {:trigger x in H} :: x in G ==> x in H && H[x] == G[x]
  }

  lemma {:induction false} EqualsExtended(G: Graph, rank: map<StackItem, nat>, H: Graph, rank': map<StackItem, nat>,
                                          a: StackItem, b: StackItem)
    requires Ranked(G, rank) && Ranked(H, rank') && Extends(G, H)
    requires Covered(G, a) && Covered(G, b)
    ensures Covered(H, a) && Covered(H, b)
    ensures Equals(G, rank, a, b) <==> Equals(H, rank', a, b)
    decreases Height(rank, a)
  {
    if a.IsContainer() { assert a in H; }
    if b.IsContainer() { assert b in H; }
    if a.Struct? && a != b && b.Struct? && |G[a]| == |G[b]| {
      SlotsKnown(G, a);
      SlotsKnown(G, b);
      SlotsKnown(H, a);
      SlotsKnown(H, b);
      forall j | 0 <= j < |G[a]| ensures Equals(G, rank, G[a][j], G[b][j]) <==> Equals(H, rank', G[a][j], G[b][j]) {
        EqualsExtended(G, rank, H, rank', G[a][j], G[b][j]);
      }
    }
  }

  // ----- the code

  /** Equality of everything but structs needs no look at the heap. */
  predicate FlatEquals(a: StackItem, b: StackItem)
    requires !a.Struct?
  {
    match a
    case ByteArray(data) => TryBytes(b) == Some(data)
    case Boolean(x) => if b.Boolean? then x == b.b else TryBytes(b) == TryBytes(a)
    case BigInteger(n) => if b.BigInteger? then n == b.n else TryBytes(b) == TryBytes(a)
    case _ => b == a
  }

  lemma FlatIsEquals(G: Graph, rank: map<StackItem, nat>, a: StackItem, b: StackItem)
    requires Ranked(G, rank) && Covered(G, a) && Covered(G, b) && !a.Struct?
    ensures FlatEquals(a, b) <==> Equals(G, rank, a, b)
  {
  }

  lemma StructIsEquals(G: Graph, rank: map<StackItem, nat>, a: StackItem, b: StackItem)
    requires Ranked(G, rank) && a in G && Covered(G, b) && a.Struct? && a != b
    ensures b.Struct? && |G[a]| == |G[b]| ==> forall j :: 0 <= j < |G[a]| ==> Covered(G, G[a][j]) && Covered(G, G[b][j])
    ensures Equals(G, rank, a, b) <==>
              && b.Struct? && |G[a]| == |G[b]|
              && forall j :: 0 <= j < |G[a]| ==>
         Covered(G, G[a][j]) && Covered(G, G[b][j]) && Equals(G, rank, G[a][j], G[b][j])
  {
    if b.Struct? {
      SlotsKnown(G, a);
      SlotsKnown(G, b);
    }
  }

  method ItemEquals(a: StackItem, b: StackItem, ghost G: Graph, ghost rank: map<StackItem, nat>) returns (eq: bool)
    requires Ranked(G, rank) && Covered(G, a) && Covered(G, b) && Shows(G)
    ensures eq <==> Equals(G, rank, a, b)
    ensures Shows(G)
    decreases Height(rank, a), 1
  {
    if a.Struct? {
      eq := StructEquals(a.s, b, G, rank);
    } else {
      FlatIsEquals(G, rank, a, b);
      eq := FlatEquals(a, b);
    }
  }

  /** Compares field by field, stopping at the first difference. */
  method StructEquals(i: StructItem, b: StackItem, ghost G: Graph, ghost rank: map<StackItem, nat>) returns (eq: bool)
    requires Ranked(G, rank) && Struct(i) in G && Covered(G, b) && Shows(G)
    ensures eq <==> Equals(G, rank, Struct(i), b)
    ensures Shows(G)
    decreases Height(rank, Struct(i)), 0
  {
    ghost var a := Struct(i);
    if b == Struct(i) {
      return true;
    }
    StructIsEquals(G, rank, a, b);
    if !b.Struct? {
      return false;
    }
    var mine := SlotsOf(Struct(i), G);
    var others := SlotsOf(b, G);
    if |mine| != |others| {
      return false;
    }
    for j := 0 to |mine|
      invariant Shows(G)
      invariant forall k :: 0 <= k < j ==>
                  Covered(G, G[a][k]) && Covered(G, G[b][k]) && Equals(G, rank, G[a][k], G[b][k])
    {
      var same := ItemEquals(mine[j], others[j], G, rank);
      if !same {
        return false;
      }
    }
    return true;
  }
}
