/** The counters as the item stacks of a VM share and update them: the two walks over the heap. */
module Counting {
  import opened Options
  import opened Items
  import opened RefCount
  import opened RemovalWalk

  /** The counters that all item stacks of a VM share. */
  class Counters {
    var size: int
    var itemCount: map<StackItem, int>

    constructor ()
      ensures size == 0 && itemCount == map[]
    {
      size, itemCount := 0, map[];
    }

    ghost function Now(): Tally
      reads this
    {
      Tally(itemCount, size)
    }

    /** The books are exact for the snapshot G and the stack slots R, and G shows the heap. */
    ghost predicate Audited(G: Graph, R: multiset<StackItem>)
      requires AllContainers(G)
      reads this, Objects(G)
    {
      Exact(G, itemCount, size, R) && Shows(G)
    }

    lemma NotAContainer(G: Graph)
      requires AllContainers(G)
      ensures this !in Objects(G)
    {
      ObjectsAreContainers(G, this);
    }

    /** Counts a reference to item. */
    method UpdateSizeAdd(item: StackItem, ghost G: Graph)
      requires Sane(G, Now()) && (item.IsContainer() ==> item in G)
      requires Shows(G)
      modifies this
      ensures Now() == AddOne(G, old(Now()), item)
      decreases G.Keys - itemCount.Keys
    {
      NotAContainer(G);
      ghost var t := Now();
      size := size + 1;
      if !item.IsContainer() {
        return;
      }
      itemCount := itemCount[item := CountOf(itemCount, item) + 1];
      if itemCount[item] > 1 {
        return;
      }
      AddOneOpens(G, t, item);
      ShowsKept(G);
      var kids := SlotsOf(item, G);
      assert kids[0..] == kids;
      for i := 0 to |kids|
        invariant Sane(G, Now()) && Covers(G, kids[i..])
        invariant t.itemCount.Keys + {item} <= itemCount.Keys
        invariant AddAll(G, Now(), kids[i..]) == AddOne(G, t, item)
        invariant Shows(G)
      {
        assert kids[i..][1..] == kids[i + 1..] && kids[i] in kids[i..];
        assert G.Keys - itemCount.Keys <= G.Keys - t.itemCount.Keys - {item} < G.Keys - t.itemCount.Keys;
        UpdateSizeAdd(kids[i], G);
        ShowsKept(G);
      }
      assert kids[|kids|..] == [];
    }
  
    /** Takes back the count of a reference, if the walk ends. */
    method UpdateSizeRemove(item: StackItem, ghost G: Graph, ghost fuel: nat)
      requires Closed(G) && Shows(G) && (item.IsContainer() ==> item in G)
      requires Walk(G, Now(), item, fuel) != None
      modifies this
      ensures Walk(G, old(Now()), item, fuel) == Some(Now())
      decreases fuel, 1
    {
      if item.IsContainer() && CountOf(itemCount, item) <= 1 {
        Delete(item, G, fuel);
        return;
      }
      size := size - 1;
      if item.IsContainer() {
        itemCount := itemCount[item := itemCount[item] - 1];
      }
    }

    /** The last reference goes: the container goes, and with it one reference for each of its slots. */
    method Delete(item: StackItem, ghost G: Graph, ghost fuel: nat)
      requires Closed(G) && Shows(G) && item.IsContainer() && item in G && CountOf(itemCount, item) <= 1
      requires Walk(G, Now(), item, fuel) != None
      modifies this
      ensures Walk(G, old(Now()), item, fuel) == Some(Now())
      decreases fuel, 0
    {
      NotAContainer(G);
      ghost var t := Now();
      size := size - 1;
      itemCount := itemCount - {item};
      ShowsKept(G);
      assert Now() == Dead(t, item);
      WalkOpens(G, t, item, fuel);
      var kids := SlotsOf(item, G);
      assert Covers(G, G[item]);
      RemoveSlots(kids, G, fuel - 1);
    }

    /** The inner loop of the removal walk. */
    method RemoveSlots(kids: seq<StackItem>, ghost G: Graph, ghost fuel: nat)
      requires Closed(G) && Shows(G) && Covers(G, kids)
      requires WalkAll(G, Now(), kids, fuel) != None
      modifies this
      ensures WalkAll(G, old(Now()), kids, fuel) == Some(Now())
      decreases fuel, 2
    {
      NotAContainer(G);
      ghost var t := Now();
      assert kids[0..] == kids;
      for i := 0 to |kids|
        invariant WalkAll(G, Now(), kids[i..], fuel) == WalkAll(G, t, kids, fuel)
        invariant Shows(G)
      {
        assert kids[i..][1..] == kids[i + 1..] && kids[i] in kids;
        UpdateSizeRemove(kids[i], G, fuel);
        ShowsKept(G);
      }
      assert kids[|kids|..] == [];
    }

    /** A stack has gained a slot. */
    method Gain(item: StackItem, ghost G: Graph, ghost R: multiset<StackItem>)
      requires AllContainers(G) && Audited(G, R) && (item.IsContainer() ==> item in G)
      modifies this
      ensures Audited(G, R + multiset{item})
      ensures Now() == AddOne(G, old(Now()), item)
    {
      NotAContainer(G);
      AddIsExact(G, Now(), R, item);
      UpdateSizeAdd(item, G);
      ShowsKept(G);
    }

    /** A stack has lost a slot. */
    method Lose(item: StackItem, ghost G: Graph, ghost R: multiset<StackItem>)
      requires AllContainers(G) && Audited(G, R) && item in R
      modifies this
      ensures Audited(G, R - multiset{item})
      ensures Now() == RemoveOne(G, old(Now()), R, item)
    {
      NotAContainer(G);
      AccountedEnds(G, Now(), R, item, size);
      UpdateSizeRemove(item, G, size);
      ShowsKept(G);
    }
  }
}
