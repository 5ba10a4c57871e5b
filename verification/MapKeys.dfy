/**
  The keys of the maps of a heap: for each map the bytes of its keys, in their order. Beside a snapshot of the
  slots they tell which key stands for which slot.
 */
module MapKeys {
  import opened Bytes
  import opened Items
  import opened SeqOps
  import opened OrderedMap

  type KeyTable = map<StackItem, seq<bytes>>

  function KeyList(es: seq<MapElement>): (ks: seq<bytes>)
    ensures |ks| == |es|
  {
    seq(|es|, i requires 0 <= i < |es| => if IsValidMapKey(es[i].key) then KeyBytes(es[i].key) else [])
  }

  ghost function KeysOf(G: Graph): KeyTable
    requires AllContainers(G)
    reads Objects(G)
  {
    map c | c in G && c.Map? :: (assert c.Obj() in Objects(G); KeyList(c.m.value))
  }

  // ----- keys alone

  /** The first place where the key is; behind the last one if it is nowhere. */
  function PlaceIn(ks: seq<bytes>, k: bytes): (p: nat)
    ensures p <= |ks|
  {
    if ks == [] || ks[0] == k then 0 else PlaceIn(ks[1..], k) + 1
  }

  function KeysFiled(ks: seq<bytes>, k: bytes): seq<bytes> { if PlaceIn(ks, k) < |ks| then ks else ks + [k] }

  function KeysUnfiled(ks: seq<bytes>, k: bytes): seq<bytes> {
    if PlaceIn(ks, k) < |ks| then Removed(ks, PlaceIn(ks, k)) else ks
  }

  lemma {:induction false} SamePlace(es: seq<MapElement>, k: bytes)
    requires ValidKeys(es)
    ensures PlaceIn(KeyList(es), k) == Place(es, k)
  {
    if es != [] {
      assert KeyList(es)[1..] == KeyList(es[1..]);
      SamePlace(es[1..], k);
    }
  }

  lemma KeysOfFiled(es: seq<MapElement>, key: StackItem, val: StackItem)
    requires ValidKeys(es) && IsValidMapKey(key)
    ensures KeyList(Filed(es, key, val)) == KeysFiled(KeyList(es), KeyBytes(key))
  {
    SamePlace(es, KeyBytes(key));
  }

  lemma KeysRemoved(es: seq<MapElement>, i: nat)
    requires i < |es|
    ensures KeyList(Removed(es, i)) == Removed(KeyList(es), i)
  {
  }

  lemma KeysOfUnfiled(es: seq<MapElement>, k: bytes)
    requires ValidKeys(es)
    ensures KeyList(Unfiled(es, k)) == KeysUnfiled(KeyList(es), k)
  {
    SamePlace(es, k);
    if Place(es, k) < |es| { KeysRemoved(es, Place(es, k)); }
  }

  // ----- writes

  /** Writes elsewhere keep the keys. */
  twostate lemma KeysKept(G: Graph)
    requires AllContainers(G)
    requires forall o :: o in Objects(G) ==> allocated(o) && old(allocated(o))
    requires forall o :: o in Objects(G) ==> unchanged(o)
    ensures KeysOf(G) == old(KeysOf(G))
  {
    forall c | c in G && c.Map? ensures KeyList(c.m.value) == old(KeyList(c.m.value)) {
      assert c.Obj() in Objects(G);
    }
  }

  /** No map has come or gone. */
  lemma SameMaps(G: Graph, H: Graph)
    requires AllContainers(G) && AllContainers(H) && forall c :: c in G.Keys + H.Keys && c.Map? ==> c in G && c in H
    ensures KeysOf(H) == KeysOf(G)
  {
    forall c | c in H && c.Map? ensures c in G { assert c in G.Keys + H.Keys; }
    forall c | c in G && c.Map? ensures c in H { assert c in G.Keys + H.Keys; }
  }
}
