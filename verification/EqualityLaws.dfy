/** What equality of items says of each kind. */
module EqualityLaws {
  import opened Options
  import opened Bytes
  import opened Items
  import opened Equality

  /** Arrays, maps and interop items equal only themselves, structs only structs of equal fields. */
  lemma EqualsByKind(G: Graph, rank: map<StackItem, nat>, a: StackItem, b: StackItem)
    requires Ranked(G, rank) && Covered(G, a) && Covered(G, b)
    ensures a.Array? || a.Map? || a.Interop? || b.Array? || b.Map? || b.Interop? ==> (Equals(G, rank, a, b) <==> a == b)
    ensures a.Struct? != b.Struct? ==> !Equals(G, rank, a, b)
    ensures a.Struct? && b.Struct? ==>
              (Equals(G, rank, a, b) <==>
               |G[a]| == |G[b]|
               && forall j :: 0 <= j < |G[a]| ==>
                    Covered(G, G[a][j]) && Covered(G, G[b][j]) && Equals(G, rank, G[a][j], G[b][j]))
    ensures IsPrimitive(a) && IsPrimitive(b) ==> (Equals(G, rank, a, b) <==> TryBytes(a) == TryBytes(b))
  {
    if a.Struct? { SlotsKnown(G, a); }
    if b.Struct? { SlotsKnown(G, b); }
    if a.Struct? && a == b {
      forall j | 0 <= j < |G[a]| ensures Equals(G, rank, G[a][j], G[a][j]) { EqualsReflexive(G, rank, G[a][j]); }
    }
    if IsPrimitive(a) && IsPrimitive(b) { PrimitivesByBytes(G, rank, a, b); }
  }
}
