/** SerializeItem and DeserializeItem: what is accepted, and that nothing is lost. */
module StoredItems {
  import opened Options
  import opened Bytes
  import opened Items
  import opened Equality
  import opened BinIO
  import opened ItemBytes
  import opened Serialization
  import opened Serializable
  import opened Deserialization

  /** Succeeds exactly when no container is met twice and no interop item is met. */
  method SerializeItem(item: StackItem, ghost L: Layout) returns (data: Option<bytes>)
    requires WellLaid(L) && InLayout(L, item) && Shown(L)
    ensures data.Some? <==> MetOnce(L, item) && NoInterop(L, item)
    ensures data.Some? ==> Visit(L, item, {}).Done? && data.value == TreeBytes(Visit(L, item, {}).tree)
  {
    var w := new BinWriter();
    var seen := new SeenItems();
    ShownKept(L);
    SerializableExactly(L, item);
    SerializeItemTo(item, w, seen, L);
    if w.err {
      return None;
    }
    return Some(w.buf);
  }

  method DeserializeItem(data: bytes) returns (item: Option<StackItem>, ghost L: Layout)
    ensures Built(L) && fresh(LayoutObjects(L))
    ensures match ParseItem(data)
            case Bad => item == None
            case Good(t, _) => item.Some? && Visited(L, item.value, t)
  {
    var r := new BinReader(data);
    var x;
    x, L := DecodeItem(r);
    item := if r.err then None else Some(x);
  }

  /** What the reader's limits ask of the items of a layout. */
  ghost predicate Readable(L: Layout)
    requires WellLaid(L)
  {
    forall x {:trigger L[x]} :: x in L ==>
      && |L[x].slots| < TWO_TO_THE_64 / 2
      && LeavesFit(L[x].slots)
      && LeavesFit(L[x].keys)
      && (forall i, j {:trigger L[x].keys[i], L[x].keys[j]} ::
          0 <= i < j < |L[x].keys| ==> TryBytes(L[x].keys[i]) != TryBytes(L[x].keys[j]))
  }

  predicate LeavesFit(xs: seq<StackItem>) {
    forall i {:trigger xs[i]} :: 0 <= i < |xs| ==> LeafOrMore(xs[i])
  }

  predicate LeafOrMore(x: StackItem) { IsPrimitive(x) ==> LeafFits(x) }

  lemma {:induction false} VisitFits(L: Layout, x: StackItem, seen: set<StackItem>)
    requires WellLaid(L) && Readable(L) && InLayout(L, x) && LeafOrMore(x) && Visit(L, x, seen).Done?
    ensures Fits(Visit(L, x, seen).tree)
    decreases L.Keys - seen, 0
  {
    if x.IsContainer() {
      assert WellShaped(x, L[x]) && x in L.Keys - seen;
      VisitAllFits(L, L[x].slots, seen + {x});
      assert forall i :: 0 <= i < |L[x].keys| ==> LeafOrMore(L[x].keys[i]);
    }
  }

  lemma {:induction false} VisitAllFits(L: Layout, xs: seq<StackItem>, seen: set<StackItem>)
    requires WellLaid(L) && Readable(L) && AllInLayout(L, xs) && LeavesFit(xs) && VisitAll(L, xs, seen).DoneAll?
    ensures KidsFit(VisitAll(L, xs, seen).trees)
    decreases L.Keys - seen, 1, xs
  {
    if xs != [] {
      VisitFits(L, xs[0], seen);
      VisitAllFits(L, xs[1..], Visit(L, xs[0], seen).seen);
    }
  }

  /**
    Serialized and read back, whatever follows, an item gives a new one with the same tree, and no byte too
    many is read.
   */
  method RoundTrip(item: StackItem, rest: bytes, ghost L: Layout) returns (back: Option<StackItem>, ghost M: Layout)
    requires WellLaid(L) && InLayout(L, item) && Shown(L)
    requires Readable(L) && LeafOrMore(item)
    ensures back.Some? <==> MetOnce(L, item) && NoInterop(L, item)
    ensures back.Some? ==>
              Built(M) && fresh(LayoutObjects(M)) && Visit(L, item, {}).Done?
              && Visited(M, back.value, Visit(L, item, {}).tree)
  {
    M := map[];
    var data := SerializeItem(item, L);
    if data == None {
      return None, M;
    }
    ghost var t := Visit(L, item, {}).tree;
    VisitFits(L, item, {});
    TreeRoundTrip(t, rest);
    var r := new BinReader(data.value + rest);
    var x;
    x, M := DecodeItem(r);
    assert !r.err && r.rest == rest;
    back := Some(x);
  }

  /** Same tree, same bytes: what was read back serializes to what it was read from. */
  lemma SameTreeSameBytes(L: Layout, x: StackItem, M: Layout, y: StackItem)
    requires WellLaid(L) && WellLaid(M) && InLayout(L, x) && Visit(L, x, {}).Done?
    requires Visited(M, y, Visit(L, x, {}).tree)
    ensures MetOnce(M, y) && NoInterop(M, y) && TreeBytes(Visit(M, y, {}).tree) == TreeBytes(Visit(L, x, {}).tree)
  {
    SerializableExactly(M, y);
  }
}
