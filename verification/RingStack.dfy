/**
  The item stack: a doubly linked ring of elements with a sentinel. It refines a sequence whose first
  member is the top of the stack, and reports every slot it gains or loses to the shared counters.
 */
module RingStack {
  import opened Items
  import opened RefCount
  import opened Counting
  import opened SeqOps

  class Element {
    var value: StackItem
    var next: Element?
    var prev: Element?
    var stack: Stack?

    constructor (v: StackItem)
      ensures value == v && next == null && prev == null && stack == null
    {
      value, next, prev, stack := v, null, null, null;
    }
  }

  lemma SlotIn(s: seq<StackItem>, R: multiset<StackItem>, n: nat)
    requires multiset(s) <= R && n < |s|
    ensures s[n] in R
  {
    assert s[n] in multiset(s);
  }

  class Stack {
    const top: Element
    const counters: Counters
    var len: int
    /** The sentinel, followed by the elements from the top of the stack down. */
    ghost var ring: seq<Element>

    ghost predicate Distinct()
      reads this
    {
      forall i, j :: 0 <= i < j < |ring| ==> ring[i] != ring[j]
    }

    ghost predicate Linked()
      reads this, ring
    {
      && |ring| > 0
      && (forall i {:trigger ring[i].next} :: 0 <= i < |ring| - 1 ==> ring[i].next == ring[i + 1])
      && (forall i {:trigger ring[i].prev} :: 1 <= i < |ring| ==> ring[i].prev == ring[i - 1])
      && ring[|ring| - 1].next == ring[0] && ring[0].prev == ring[|ring| - 1]
    }

    ghost predicate Owned()
      reads this, ring
    {
      && |ring| > 0 && ring[0] == top && top.stack == null
      && (forall i {:trigger ring[i].stack} :: 1 <= i < |ring| ==> ring[i].stack == this)
      && len == |ring| - 1
    }

    ghost predicate Valid()
      reads this, ring
    {
      Distinct() && Linked() && Owned()
    }

    /** What the stack holds, top first. */
    ghost function Contents(): (s: seq<StackItem>)
      requires |ring| > 0
      reads this, ring
      ensures |s| == |ring| - 1 && forall i :: 0 <= i < |s| ==> s[i] == ring[i + 1].value
    {
      seq(|ring| - 1, i requires 0 <= i < |ring| - 1 reads this, ring => ring[i + 1].value)
    }

    constructor (c: Counters)
      ensures Valid() && Contents() == [] && counters == c && fresh(ring)
    {
      var t := new Element(Boolean(false));
      top := t;
      counters := c;
      len := 0;
      ring := [t];
      new;
      top.next := top;
      top.prev := top;
    }

    ghost function Nodes(): set<Element>
      reads this
    {
      set e | e in ring
    }

    /** Writes elsewhere do not touch the stack. */
    twostate lemma Kept()
      requires old(Valid()) && unchanged(this) && forall i :: 0 <= i < |ring| ==> unchanged(ring[i])
      ensures Valid() && Contents() == old(Contents()) && Nodes() == old(Nodes())
    {
    }

    // ----- the pointer work

    /** Relinks for e to stand behind position k. */
    method LinkIn(e: Element, at: Element, ghost k: nat)
      requires Distinct() && Linked() && k < |ring| && at == ring[k] && e !in ring
      modifies this`ring, ring`next, ring`prev, e`next, e`prev
      ensures Distinct() && Linked() && ring == Inserted(old(ring), k + 1, e)
    {
      var n := at.next;
      at.next := e;
      e.prev := at;
      e.next := n;
      n.prev := e;
      ring := Inserted(ring, k + 1, e);
    }

    /** Relinks for the element at position k to be gone. */
    method LinkOut(e: Element, ghost k: nat)
      requires Distinct() && Linked() && 1 <= k < |ring| && e == ring[k]
      modifies this`ring, ring`next, ring`prev
      ensures Distinct() && Linked() && ring == Removed(old(ring), k)
    {
      e.prev.next := e.next;
      e.next.prev := e.prev;
      e.next := null;
      e.prev := null;
      ring := Removed(ring, k);
    }

    /** Relinks for the neighbours of the element at position k, whose own links stay as they are. */
    method Bypass(e: Element, ghost k: nat)
      requires Distinct() && Linked() && 1 <= k < |ring| && e == ring[k]
      modifies this`ring, ring`next, ring`prev
      ensures Distinct() && Linked() && ring == Removed(old(ring), k)
    {
      e.prev.next := e.next;
      e.next.prev := e.prev;
      ring := Removed(ring, k);
    }

    /** Relinks for e to stand right behind the sentinel. */
    method PlaceFirst(first: Element, e: Element)
      requires Distinct() && Linked() && |ring| > 1 && first == ring[1] && ring[0] == top && e !in ring
      modifies this`ring, ring`next, ring`prev, e`next, e`prev
      ensures Distinct() && Linked() && ring == Inserted(old(ring), 1, e)
    {
      first.prev := e;
      e.next := first;

      e.prev := top;
      top.next := e;

      ring := Inserted(ring, 1, e);
    }

    /** Relinks for the element at position k to stand right behind the sentinel. */
    method LinkFirst(first: Element, e: Element, ghost k: nat)
      requires Distinct() && Linked() && 2 <= k < |ring| && e == ring[k] && first == ring[1] && ring[0] == top
      modifies this`ring, ring`next, ring`prev
      ensures Distinct() && Linked() && ring == Lifted(old(ring), 1, k) && Nodes() <= old(Nodes())
    {
      LiftedMembers(ring, 1, k);
      LiftedInTwo(ring, k);
      Bypass(e, k);
      PlaceFirst(first, e);
    }
  
    // ----- reading

    function Top(): (e: Element?)
      requires Valid()
      reads this, ring
      ensures e == if |ring| == 1 then null else ring[1]
    {
      if len == 0 then null else
      assert top == ring[0];
      top.next
    }

    method Next(e: Element, ghost k: nat) returns (n: Element?)
      requires Valid() && 1 <= k < |ring| && e == ring[k]
      ensures n == if k + 1 < |ring| then ring[k + 1] else null
    {
      if e.stack != null && e.next != e.stack.top {
        return e.next;
      }
      return null;
    }

    /** The element n deep, or nothing if there is none (also for negative n). */
    method Peek(n: int) returns (e: Element?)
      requires Valid()
      ensures e == if 0 <= n < |ring| - 1 then ring[n + 1] else null
    {
      var i := 0;
      e := Top();
      while e != null
        invariant 0 <= i <= |ring| - 1 && (n < 0 || i <= n)
        invariant e == if i < |ring| - 1 then ring[i + 1] else null
        decreases |ring| - i
      {
        if n == i {
          return e;
        }
        e := Next(e, i + 1);
        i := i + 1;
      }
      return null;
    }

    /** A fresh element with the value n deep; containers are shared, not copied. */
    method Dup(n: int) returns (e: Element?)
      requires Valid()
      ensures e == null <==> !(0 <= n < len)
      ensures e != null ==> fresh(e) && e.stack == null && e.value == Contents()[n]
    {
      var x := Peek(n);
      if x == null {
        return null;
      }
      e := new Element(x.value);
    }

    // ----- moving values and elements about

    method SwapValues(a: Element, b: Element, ghost i: nat, ghost j: nat)
      requires Valid() && 1 <= i < |ring| && 1 <= j < |ring| && a == ring[i] && b == ring[j]
      modifies a`value, b`value
      ensures Valid()
      ensures forall k {:trigger ring[k].value} :: 0 <= k < |ring| ==>
                ring[k].value == if k == i then old(b.value) else if k == j then old(a.value) else old(ring[k].value)
    {
      a.value, b.value := b.value, a.value;
    }

    method Swap(n1: int, n2: int) returns (ok: bool)
      requires Valid()
      modifies ring`value
      ensures Valid()
      ensures ok <==> 0 <= n1 < len && 0 <= n2 < len
      ensures Contents() == if ok then old(Contents())[n1 := old(Contents())[n2]][n2 := old(Contents())[n1]]
                            else old(Contents())
    {
      if n1 < 0 || n2 < 0 {
        return false;
      }
      if n1 >= len || n2 >= len {
        return false;
      }
      if n1 == n2 {
        return true;
      }
      var a := Peek(n1);
      var b := Peek(n2);
      SwapValues(a, b, n1 + 1, n2 + 1);
      return true;
    }

    /** Brings the element n deep to the top. */
    method Roll(n: int) returns (ok: bool)
      requires Valid()
      modifies this`ring, ring`next, ring`prev
      ensures Valid()
      ensures ok <==> 0 <= n < len
      ensures Nodes() <= old(Nodes())
      ensures Contents() == if ok then Lifted(old(Contents()), 0, n) else old(Contents())
    {
      if n < 0 {
        return false;
      }
      if n >= len {
        return false;
      }
      if n == 0 {
        return true;
      }
      var first := Peek(0);
      var e := Peek(n);
      LinkFirst(first, e, n + 1);
      return true;
    }

    // ----- gaining and losing slots

    /** Elements and stacks are not containers. */
    lemma Apart(G: Graph)
      requires AllContainers(G)
      ensures this !in Objects(G) && forall i {:trigger ring[i]} :: 0 <= i < |ring| ==> ring[i] !in Objects(G)
      ensures counters as object != this && counters as object !in ring
    {
      ObjectsAreContainers(G, this);
      forall i | 0 <= i < |ring| ensures ring[i] !in Objects(G) { ObjectsAreContainers(G, ring[i]); }
    }

    method Own(e: Element, at: Element, ghost k: nat)
      requires Valid() && k < |ring| && at == ring[k] && e !in ring && e != top
      modifies this`ring, this`len, ring`next, ring`prev, e`next, e`prev, e`stack
      ensures Valid() && ring == Inserted(old(ring), k + 1, e)
    {
      LinkIn(e, at, k);
      e.stack := this;
      len := len + 1;
    }

    method Attach(e: Element, at: Element, ghost k: nat)
      requires Valid() && k < |ring| && at == ring[k] && e !in ring && e != top
      modifies this`ring, this`len, ring`next, ring`prev, e`next, e`prev, e`stack
      ensures Valid() && ring == Inserted(old(ring), k + 1, e) && Nodes() == old(Nodes()) + {e}
      ensures Contents() == Inserted(old(Contents()), k, e.value)
    {
      InsertedMembers(ring, k + 1, e);
      Own(e, at, k);
    }

    method Detach(e: Element, ghost k: nat)
      requires Valid() && 1 <= k < |ring| && e == ring[k]
      modifies this`ring, this`len, ring`next, ring`prev, ring`stack
      ensures Valid() && ring == Removed(old(ring), k) && Nodes() <= old(Nodes()) && e.stack == null
      ensures Contents() == Removed(old(Contents()), k - 1)
    {
      RemovedMembers(ring, k);
      LinkOut(e, k);
      e.stack := null;
      len := len - 1;
    }

    /** An element with the value of e that is not linked here. */
    method Unlinked(e0: Element) returns (e: Element)
      requires Valid() && e0 != top && (e0.stack == null || e0.stack == this)
      ensures e !in ring && e.value == e0.value && (e == e0 || fresh(e)) && (e0.stack == null ==> e == e0)
    {
      e := e0;
      if e.stack == this {
        e := new Element(e.value);
      }
    }

    /** Inserts the element behind position k; one that is still linked here is replaced by a fresh one. */
    method Insert(e0: Element, at: Element, ghost k: nat, ghost G: Graph, ghost R: multiset<StackItem>)
      returns (e: Element)
      requires Valid() && k < |ring| && at == ring[k]
      requires e0 != top && (e0.stack == null || e0.stack == this)
      requires AllContainers(G) && counters.Audited(G, R) && (e0.value.IsContainer() ==> e0.value in G)
      modifies this`ring, this`len, ring`next, ring`prev, e0`next, e0`prev, e0`stack, counters
      ensures Valid() && Nodes() == old(Nodes()) + {e} && (e == e0 || fresh(e)) && (old(e0.stack) == null ==> e == e0)
      ensures Contents() == Inserted(old(Contents()), k, e0.value)
      ensures counters.Audited(G, R + multiset{e0.value})
      ensures counters.Now() == AddOne(G, old(counters.Now()), e0.value)
    {
      e := Unlinked(e0);
      ShowsKept(G);
      Apart(G);
      ObjectsAreContainers(G, e);
      Attach(e, at, k);
      ShowsKept(G);
      label Attached:
      counters.Gain(e.value, G, R);
      Kept@Attached();
    }
  
    /** Removes the element at position k. R holds all references the books account for. */
    method Remove(e: Element, ghost k: nat, ghost G: Graph, ghost R: multiset<StackItem>)
      requires Valid() && 1 <= k < |ring| && e == ring[k]
      requires AllContainers(G) && counters.Audited(G, R) && e.value in R
      modifies this`ring, this`len, ring`next, ring`prev, ring`stack, counters
      ensures Valid() && Nodes() <= old(Nodes()) && e.stack == null
      ensures Contents() == Removed(old(Contents()), k - 1)
      ensures counters.Audited(G, R - multiset{e.value})
      ensures counters.Now() == RemoveOne(G, old(counters.Now()), R, e.value)
    {
      Apart(G);
      Detach(e, k);
      ShowsKept(G);
      label Detached:
      counters.Lose(e.value, G, R);
      Kept@Detached();
    }

    method Push(e: Element, ghost G: Graph, ghost R: multiset<StackItem>)
      requires Valid() && e != top && (e.stack == null || e.stack == this)
      requires AllContainers(G) && counters.Audited(G, R) && (e.value.IsContainer() ==> e.value in G)
      modifies this`ring, this`len, ring`next, ring`prev, e`next, e`prev, e`stack, counters
      ensures Valid() && old(Nodes()) <= Nodes() && fresh(Nodes() - old(Nodes()) - {e})
      ensures old(e.stack) == null ==> Nodes() == old(Nodes()) + {e}
      ensures Contents() == [e.value] + old(Contents())
      ensures counters.Audited(G, R + multiset{e.value})
      ensures counters.Now() == AddOne(G, old(counters.Now()), e.value)
    {
      var _ := Insert(e, top, 0, G, R);
    }

    /** Puts e right behind the element n - 1 deep; there is no such place for n < 1 or n > len. */
    method InsertAt(e: Element, n: int, ghost G: Graph, ghost R: multiset<StackItem>) returns (ok: bool)
      requires Valid() && e != top && (e.stack == null || e.stack == this)
      requires AllContainers(G) && counters.Audited(G, R) && (e.value.IsContainer() ==> e.value in G)
      modifies this`ring, this`len, ring`next, ring`prev, e`next, e`prev, e`stack, counters
      ensures Valid()
      ensures ok <==> 1 <= n <= old(len)
      ensures old(Nodes()) <= Nodes() && fresh(Nodes() - old(Nodes()) - {e})
      ensures Contents() == if ok then Inserted(old(Contents()), n, e.value) else old(Contents())
      ensures counters.Audited(G, if ok then R + multiset{e.value} else R)
      ensures counters.Now() == if ok then AddOne(G, old(counters.Now()), e.value) else old(counters.Now())
    {
      var before := Peek(n - 1);
      ShowsKept(G);
      Kept();
      if before == null {
        return false;
      }
      var _ := Insert(e, before, n, G, R);
      return true;
    }

    /** Takes out the element n deep; there is none for n < 0 or n >= len. */
    method RemoveAt(n: int, ghost G: Graph, ghost R: multiset<StackItem>) returns (e: Element?)
      requires Valid()
      requires AllContainers(G) && counters.Audited(G, R) && multiset(Contents()) <= R
      modifies this`ring, this`len, ring`next, ring`prev, ring`stack, counters
      ensures Valid()
      ensures e == null <==> !(0 <= n < old(len))
      ensures e == null ==>
                Contents() == old(Contents()) && counters.Audited(G, R) && counters.Now() == old(counters.Now())
      ensures e != null ==> e.stack == null && e in old(ring) && e.value == old(Contents())[n]
      ensures Nodes() <= old(Nodes())
      ensures e != null ==> Contents() == Removed(old(Contents()), n) && counters.Audited(G, R - multiset{e.value})
      ensures e != null ==> e.value in R && counters.Now() == RemoveOne(G, old(counters.Now()), R, e.value)
    {
      e := Peek(n);
      ShowsKept(G);
      Kept();
      if e != null {
        SlotIn(Contents(), R, n);
        Remove(e, n + 1, G, R);
      }
    }

    method Pop(ghost G: Graph, ghost R: multiset<StackItem>) returns (e: Element?)
      requires Valid()
      requires AllContainers(G) && counters.Audited(G, R) && multiset(Contents()) <= R
      modifies this`ring, this`len, ring`next, ring`prev, ring`stack, counters
      ensures Valid()
      ensures e == null <==> old(len) == 0
      ensures e == null ==>
                Contents() == old(Contents()) && counters.Audited(G, R) && counters.Now() == old(counters.Now())
      ensures e != null ==> e.stack == null && e in old(ring) && e != top && e.value == old(Contents())[0]
      ensures Nodes() <= old(Nodes())
      ensures e != null ==> Contents() == Removed(old(Contents()), 0) && counters.Audited(G, R - multiset{e.value})
      ensures e != null ==> e.value in R && counters.Now() == RemoveOne(G, old(counters.Now()), R, e.value)
    {
      e := Top();
      if e == null {
        return;
      }
      SlotIn(Contents(), R, 0);
      Remove(e, 1, G, R);
    }
  }
}
