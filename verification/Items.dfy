/**
  The values on the VM's stacks. Primitive items are values; arrays, structs and maps are objects that
  several stack slots and containers may share.
 */
module Items {
  import opened Bytes

  datatype StackItem =
    | ByteArray(data: bytes)
    | Boolean(b: bool)
    | BigInteger(n: int)
    | Interop(id: nat)
    | Array(a: ArrayItem)
    | Struct(s: StructItem)
    | Map(m: MapItem)
  {
    predicate IsContainer() { Array? || Struct? || Map? }

    function Obj(): object
      requires IsContainer()
    {
      match this
      case Array(a) => a
      case Struct(s) => s
      case Map(m) => m
    }

    /** The slots of a container; the keys of a map are not slots. */
    function Children(): seq<StackItem>
      requires IsContainer()
      reads Obj()
    {
      match this
      case Array(a) => a.value
      case Struct(s) => s.value
      case Map(m) => Values(m.value)
    }
  }

  datatype MapElement = MapElement(key: StackItem, value: StackItem)

  class ArrayItem {
    var value: seq<StackItem>
    constructor (items: seq<StackItem>)
      ensures value == items
    {
      value := items;
    }
  }

  class StructItem {
    var value: seq<StackItem>
    constructor (items: seq<StackItem>)
      ensures value == items
    {
      value := items;
    }
  }

  class MapItem {
    var value: seq<MapElement>
    constructor ()
      ensures value == []
    {
      value := [];
    }
  }

  function Values(es: seq<MapElement>): (r: seq<StackItem>)
    ensures |r| == |es| && forall i :: 0 <= i < |es| ==> r[i] == es[i].value
  {
    seq(|es|, i requires 0 <= i < |es| => es[i].value)
  }

  /** A snapshot of the containers and their slots. */
  type Graph = map<StackItem, seq<StackItem>>

  /** Every container that occurs in a slot has its own entry. */
  ghost predicate Closed(G: Graph) {
    && AllContainers(G)
    && (forall c {:trigger Covers(G, G[c])} :: c in G ==> Covers(G, G[c]))
  }

  ghost predicate Covers(G: Graph, items: seq<StackItem>) {
    forall x :: x in items && x.IsContainer() ==> x in G
  }

  ghost predicate AllContainers(G: Graph) {
    forall c {:trigger c.IsContainer()} :: c in G ==> c.IsContainer()
  }

  ghost function Objects(G: Graph): set<object>
    requires AllContainers(G)
  {
    set c | c in G :: c.Obj()
  }

  lemma ObjectsAreContainers(G: Graph, o: object)
    requires AllContainers(G)
    ensures o in Objects(G) ==> o is ArrayItem || o is StructItem || o is MapItem
  {
    if o in Objects(G) {
      var c :| c in G && c.IsContainer() && c.Obj() == o;
    }
  }

  /** The snapshot shows the heap. */
  ghost predicate Shows(G: Graph)
    requires AllContainers(G)
    reads Objects(G)
  {
    forall c {:trigger c.Children()} :: c in G ==> c.Children() == G[c]
  }

  /** Writes elsewhere do not make a snapshot stale. */
  twostate lemma ShowsKept(G: Graph)
    requires AllContainers(G) && forall o :: o in Objects(G) ==> allocated(o) && old(allocated(o))
    requires old(Shows(G)) && forall o :: o in Objects(G) ==> unchanged(o)
    ensures Shows(G)
  {
    forall c | c in G ensures c.Children() == G[c] {
      assert c.IsContainer() && c.Obj() in Objects(G);
    }
  }

  /** The slots of a container, read from the heap. */
  method SlotsOf(item: StackItem, ghost G: Graph) returns (slots: seq<StackItem>)
    requires Closed(G) && item in G && Shows(G)
    ensures slots == G[item] && Shows(G)
  {
    slots := item.Children();
  }
}
