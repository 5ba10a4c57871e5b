/**
  The stack opcodes. Executed on the ring lists they do what the functions below say on sequences, and
  keep the shared counters exact. A fault leaves the stacks valid and the counters exact, too.
 */
module StackOps {
  import opened Limits
  import opened Options
  import opened Items
  import opened SeqOps
  import opened RefCount
  import opened Counting
  import opened RingStack
  import opened Equality
  import opened SlotBooks
  import opened Conversions

  /** st is well linked and the counters are exact; O are the slots of all other stacks. */
  ghost predicate Booked(st: Stack, G: Graph, O: multiset<StackItem>)
    requires AllContainers(G)
    reads st, st.ring, st.counters, Objects(G)
  {
    st.Valid() && st.counters.Audited(G, O + multiset(st.Contents()))
  }

  lemma PutIn(s: seq<StackItem>, k: nat, x: StackItem, O: multiset<StackItem>)
    requires k <= |s|
    ensures O + multiset(s) + multiset{x} == O + multiset(Inserted(s, k, x))
  {
    assert Inserted(s, k, x) == s[..k] + [x] + s[k..];
    assert s == s[..k] + s[k..];
  }

  lemma PutOnTop(s: seq<StackItem>, x: StackItem, O: multiset<StackItem>)
    ensures O + multiset(s) + multiset{x} == O + multiset([x] + s)
  {
  }

  lemma TakenOut(s: seq<StackItem>, k: nat, O: multiset<StackItem>)
    requires k < |s|
    ensures O + multiset(s) - multiset{s[k]} == O + multiset(Removed(s, k))
  {
    MultisetRemoved(s, k);
  }

  lemma MultisetLifted(s: seq<StackItem>, k: nat)
    requires k < |s|
    ensures multiset(Lifted(s, 0, k)) == multiset(s)
  {
    assert Lifted(s, 0, k) == [s[k]] + s[..k] + s[k + 1..];
    assert s == s[..k] + [s[k]] + s[k + 1..];
  }

  lemma MultisetSwapped(s: seq<StackItem>, i: nat, j: nat)
    requires i < |s| && j < |s|
    ensures multiset(s[i := s[j]][j := s[i]]) == multiset(s)
  {
  }

  // ----- what the opcodes do to a sequence, top first

  datatype Shuffle =
    | Dup | Drop | Nip | Swap | Tuck | Over | Rot | Depth
    | XDrop | XSwap | XTuck | Pick | Roll

  predicate TakesNumber(op: Shuffle) { op.XDrop? || op.XSwap? || op.XTuck? || op.Pick? || op.Roll? }

  function AtDepth(op: Shuffle, n: int, s: seq<StackItem>): Option<seq<StackItem>>
    requires TakesNumber(op)
  {
    match op
    case XDrop => if 0 <= n < |s| then Some(s[..n] + s[n + 1..]) else None
    case XSwap => if 0 <= n < |s| then Some(s[n := s[0]][0 := s[n]]) else None
    case XTuck => if 1 <= n <= |s| then Some(s[..n] + [s[0]] + s[n..]) else None
    case Pick => if 0 <= n < |s| then Some([s[n]] + s) else None
    case Roll => if 0 <= n < |s| then Some([s[n]] + s[..n] + s[n + 1..]) else None
  }

  /** The stack after an opcode; nothing if it faults. */
  function Shuffled(op: Shuffle, s: seq<StackItem>): Option<seq<StackItem>> {
    match op
    case Dup => if |s| >= 1 then Some([s[0]] + s) else None
    case Drop => if |s| >= 1 then Some(s[1..]) else None
    case Nip => if |s| >= 2 then Some([s[0]] + s[2..]) else None
    case Swap => if |s| >= 2 then Some([s[1], s[0]] + s[2..]) else None
    case Tuck => if |s| >= 2 then Some([s[0], s[1], s[0]] + s[2..]) else None
    case Over => if |s| >= 2 then Some([s[1]] + s) else None
    case Rot => if |s| >= 3 then Some([s[2], s[0], s[1]] + s[3..]) else None
    case Depth => Some([BigInteger(|s|)] + s)
    case _ => if s == [] || NumberOf(s[0]) == None then None else AtDepth(op, NumberOf(s[0]).value, s[1..])
  }

  // ----- single steps, with the books

  method PushElement(st: Stack, e: Element, ghost G: Graph, ghost O: multiset<StackItem>)
    requires AllContainers(G) && Booked(st, G, O) && Covered(G, e.value) && e.stack == null && e != st.top
    modifies st`ring, st`len, st.ring`next, st.ring`prev, e`next, e`prev, e`stack, st.counters
    ensures Booked(st, G, O) && st.Contents() == [e.value] + old(st.Contents())
    ensures st.counters.Now() == AddOne(G, old(st.counters.Now()), e.value)
    ensures st.Nodes() == old(st.Nodes()) + {e} && fresh(st.Nodes() - old(st.Nodes()) - {e})
  {
    PutOnTop(st.Contents(), e.value, O);
    st.Push(e, G, O + multiset(st.Contents()));
  }

  method PushItem(st: Stack, x: StackItem, ghost G: Graph, ghost O: multiset<StackItem>)
    requires AllContainers(G) && Booked(st, G, O) && Covered(G, x)
    modifies st`ring, st`len, st.ring`next, st.ring`prev, st.counters
    ensures Booked(st, G, O) && st.Contents() == [x] + old(st.Contents())
    ensures st.counters.Now() == AddOne(G, old(st.counters.Now()), x)
    ensures old(st.Nodes()) <= st.Nodes() && fresh(st.Nodes() - old(st.Nodes()))
  {
    var e := new Element(x);
    ShowsKept(G);
    st.Kept();
    PushElement(st, e, G, O);
  }

  /** Takes out the element n deep. */
  method TakeAt(st: Stack, n: int, ghost G: Graph, ghost O: multiset<StackItem>) returns (x: Option<StackItem>)
    requires AllContainers(G) && Booked(st, G, O)
    modifies st`ring, st`len, st.ring`next, st.ring`prev, st.ring`stack, st.counters
    ensures Booked(st, G, O)
    ensures x == None <==> !(0 <= n < |old(st.Contents())|)
    ensures x == None ==> st.Contents() == old(st.Contents())
    ensures x != None ==> x == Some(old(st.Contents())[n]) && st.Contents() == Removed(old(st.Contents()), n)
    ensures st.Nodes() <= old(st.Nodes())
  {
    ghost var s := st.Contents();
    var e := st.RemoveAt(n, G, O + multiset(s));
    if e == null {
      return None;
    }
    TakenOut(s, n, O);
    return Some(e.value);
  }

  lemma FirstRemoved(s: seq<StackItem>)
    requires s != []
    ensures Removed(s, 0) == s[1..]
  {
    Slices(s, 0, s[0]);
  }

  method PopElement(st: Stack, ghost G: Graph, ghost O: multiset<StackItem>) returns (e: Element?)
    requires AllContainers(G) && Booked(st, G, O)
    modifies st`ring, st`len, st.ring`next, st.ring`prev, st.ring`stack, st.counters
    ensures Booked(st, G, O)
    ensures e == null <==> old(st.Contents()) == []
    ensures e == null ==> st.Contents() == []
    ensures e != null && !e.value.IsContainer() ==> st.counters.size == old(st.counters.size) - 1
    ensures e != null ==> e.value == old(st.Contents())[0] && st.Contents() == old(st.Contents())[1..]
    ensures e != null ==> e.stack == null && e != st.top && e in old(st.Nodes()) && Covered(G, e.value)
    ensures st.Nodes() <= old(st.Nodes())
  {
    ghost var s := st.Contents();
    if s != [] { HeldIsKnown(st, G, O, 0); }
    e := st.Pop(G, O + multiset(s));
    if e == null {
      return;
    }
    TakenOut(s, 0, O);
    FirstRemoved(s);
  }

  method PopItem(st: Stack, ghost G: Graph, ghost O: multiset<StackItem>) returns (x: Option<StackItem>)
    requires AllContainers(G) && Booked(st, G, O)
    modifies st`ring, st`len, st.ring`next, st.ring`prev, st.ring`stack, st.counters
    ensures Booked(st, G, O) && st.Nodes() <= old(st.Nodes())
    ensures x == if old(st.Contents()) == [] then None else Some(old(st.Contents())[0])
    ensures x != None ==> st.Contents() == old(st.Contents())[1..] && Covered(G, x.value)
    ensures x != None && !x.value.IsContainer() ==> st.counters.size == old(st.counters.size) - 1
    ensures x == None ==> st.Contents() == []
  {
    var e := PopElement(st, G, O);
    if e == null {
      return None;
    }
    return Some(e.value);
  }

  lemma HeldIsKnown(st: Stack, G: Graph, O: multiset<StackItem>, n: nat)
    requires AllContainers(G) && Booked(st, G, O) && n < |st.Contents()|
    ensures Covered(G, st.Contents()[n])
  {
    SlotIn(st.Contents(), O + multiset(st.Contents()), n);
  }

  /** A copy of the element n deep goes to the top. */
  method CopyToTop(st: Stack, n: int, ghost G: Graph, ghost O: multiset<StackItem>) returns (ok: bool)
    requires AllContainers(G) && Booked(st, G, O)
    modifies st`ring, st`len, st.ring`next, st.ring`prev, st.counters
    ensures Booked(st, G, O) && fresh(st.Nodes() - old(st.Nodes()))
    ensures ok <==> 0 <= n < |old(st.Contents())|
    ensures st.Contents() == if ok then [old(st.Contents())[n]] + old(st.Contents()) else old(st.Contents())
  {
    var e := st.Dup(n);
    ShowsKept(G);
    st.Kept();
    ok := e != null;
    if ok {
      HeldIsKnown(st, G, O, n);
      PushElement(st, e, G, O);
    }
  }

  method InsertElement(st: Stack, e: Element, n: nat, ghost G: Graph, ghost O: multiset<StackItem>)
    requires AllContainers(G) && Booked(st, G, O) && Covered(G, e.value) && e.stack == null && e != st.top
    requires 1 <= n <= |st.Contents()|
    modifies st`ring, st`len, st.ring`next, st.ring`prev, e`next, e`prev, e`stack, st.counters
    ensures Booked(st, G, O) && st.Contents() == Inserted(old(st.Contents()), n, e.value)
    ensures old(st.Nodes()) <= st.Nodes() && fresh(st.Nodes() - old(st.Nodes()) - {e})
  {
    PutIn(st.Contents(), n, e.value, O);
    var _ := st.InsertAt(e, n, G, O + multiset(st.Contents()));
  }

  /** A copy of the top element goes in n deep. */
  method CopyTopTo(st: Stack, n: nat, ghost G: Graph, ghost O: multiset<StackItem>)
    requires AllContainers(G) && Booked(st, G, O) && 1 <= n <= |st.Contents()|
    modifies st`ring, st`len, st.ring`next, st.ring`prev, st.counters
    ensures Booked(st, G, O) && st.Contents() == Inserted(old(st.Contents()), n, old(st.Contents())[0])
    ensures fresh(st.Nodes() - old(st.Nodes()))
  {
    var a := st.Dup(0);
    ShowsKept(G);
    st.Kept();
    HeldIsKnown(st, G, O, 0);
    InsertElement(st, a, n, G, O);
  }

  method SwapWithTop(st: Stack, n: int, ghost G: Graph, ghost O: multiset<StackItem>) returns (ok: bool)
    requires AllContainers(G) && Booked(st, G, O)
    modifies st.ring`value
    ensures Booked(st, G, O) && st.Nodes() == old(st.Nodes())
    ensures ok <==> 0 <= n < |old(st.Contents())|
    ensures st.Contents() == if ok then old(st.Contents())[n := old(st.Contents())[0]][0 := old(st.Contents())[n]]
                             else old(st.Contents())
  {
    ghost var s := st.Contents();
    st.Apart(G);
    ok := st.Swap(n, 0);
    ShowsKept(G);
    if ok { MultisetSwapped(s, n, 0); }
  }

  method RollToTop(st: Stack, n: int, ghost G: Graph, ghost O: multiset<StackItem>) returns (ok: bool)
    requires AllContainers(G) && Booked(st, G, O)
    modifies st`ring, st.ring`next, st.ring`prev
    ensures Booked(st, G, O) && st.Nodes() <= old(st.Nodes())
    ensures ok <==> 0 <= n < |old(st.Contents())|
    ensures st.Contents() == if ok then Lifted(old(st.Contents()), 0, n) else old(st.Contents())
  {
    ghost var s := st.Contents();
    st.Apart(G);
    ok := st.Roll(n);
    ShowsKept(G);
    if ok { MultisetLifted(s, n); }
  }

  // ----- the opcodes

  /** XDROP, with its number popped. */
  method DropAt(st: Stack, n: int, ghost G: Graph, ghost O: multiset<StackItem>) returns (ok: bool)
    requires AllContainers(G) && Booked(st, G, O)
    modifies st`ring, st`len, st.ring`next, st.ring`prev, st.ring`stack, st.counters
    ensures Booked(st, G, O) && st.Nodes() <= old(st.Nodes())
    ensures ok <==> 0 <= n < |old(st.Contents())|
    ensures ok ==> st.Contents() == old(st.Contents())[..n] + old(st.Contents())[n + 1..]
  {
    ghost var s := st.Contents();
    ok := n >= 0;
    if ok {
      var x := TakeAt(st, n, G, O);
      ok := x != None;
      if ok { Slices(s, n, s[n]); }
    }
  }

  lemma InsertedSlices(s: seq<StackItem>, n: nat, x: StackItem)
    requires n <= |s|
    ensures Inserted(s, n, x) == s[..n] + [x] + s[n..]
  {
  }

  /** XTUCK, with its number popped. */
  method TuckAt(st: Stack, n: int, ghost G: Graph, ghost O: multiset<StackItem>) returns (ok: bool)
    requires AllContainers(G) && Booked(st, G, O)
    modifies st`ring, st`len, st.ring`next, st.ring`prev, st.counters
    ensures Booked(st, G, O) && fresh(st.Nodes() - old(st.Nodes()))
    ensures ok <==> 1 <= n <= |old(st.Contents())|
    ensures ok ==> st.Contents() == old(st.Contents())[..n] + [old(st.Contents())[0]] + old(st.Contents())[n..]
  {
    ghost var s := st.Contents();
    ok := n > 0 && st.len != 0 && n <= st.len;
    if ok {
      InsertedSlices(s, n, s[0]);
      CopyTopTo(st, n, G, O);
    }
  }

  /** ROLL, with its number popped. */
  method RollAt(st: Stack, n: int, ghost G: Graph, ghost O: multiset<StackItem>) returns (ok: bool)
    requires AllContainers(G) && Booked(st, G, O)
    modifies st`ring, st.ring`next, st.ring`prev
    ensures Booked(st, G, O) && st.Nodes() <= old(st.Nodes())
    ensures ok <==> 0 <= n < |old(st.Contents())|
    ensures ok ==> st.Contents() == [old(st.Contents())[n]] + old(st.Contents())[..n] + old(st.Contents())[n + 1..]
  {
    ghost var s := st.Contents();
    ok := RollToTop(st, n, G, O);
    if ok { Slices(s, n, s[n]); }
  }

  /** The opcodes that pop a number first. */
  method ShuffleAt(st: Stack, op: Shuffle, n: int, ghost G: Graph, ghost O: multiset<StackItem>) returns (ok: bool)
    requires AllContainers(G) && Booked(st, G, O) && TakesNumber(op)
    modifies st`ring, st`len, st.Nodes(), st.counters
    ensures Booked(st, G, O) && fresh(st.Nodes() - old(st.Nodes()))
    ensures AtDepth(op, n, old(st.Contents())) == if ok then Some(st.Contents()) else None
  {
    match op {
      case XDrop =>
        ok := DropAt(st, n, G, O);
      case XSwap =>
        ok := SwapWithTop(st, n, G, O);
      case XTuck =>
        ok := TuckAt(st, n, G, O);
      case Pick =>
        ok := n >= 0;
        if ok {
          ok := CopyToTop(st, n, G, O);
        }
      case Roll =>
        ok := RollAt(st, n, G, O);
    }
  }

  lemma SmallShuffles(s: seq<StackItem>)
    ensures |s| >= 2 ==> Removed(s, 1) == [s[0]] + s[2..]
    ensures |s| >= 2 ==> s[1 := s[0]][0 := s[1]] == [s[1], s[0]] + s[2..]
    ensures |s| >= 2 ==> Inserted(s, 2, s[0]) == [s[0], s[1], s[0]] + s[2..]
    ensures |s| >= 3 ==> Lifted(s, 0, 2) == [s[2], s[0], s[1]] + s[3..]
  {
  }

  /** The opcodes that take nothing but what they move. */
  method ShuffleTop(st: Stack, op: Shuffle, ghost G: Graph, ghost O: multiset<StackItem>) returns (ok: bool)
    requires AllContainers(G) && Booked(st, G, O) && !TakesNumber(op)
    modifies st`ring, st`len, st.Nodes(), st.counters
    ensures Booked(st, G, O) && fresh(st.Nodes() - old(st.Nodes()))
    ensures Shuffled(op, old(st.Contents())) == if ok then Some(st.Contents()) else None
  {
    SmallShuffles(st.Contents());
    match op {
      case Dup =>
        ok := CopyToTop(st, 0, G, O);
      case Drop =>
        var x := PopItem(st, G, O);
        ok := x != None;
      case Nip =>
        var x := TakeAt(st, 1, G, O);
        ok := x != None;
      case Swap =>
        ok := SwapWithTop(st, 1, G, O);
      case Tuck =>
        if st.len < 2 {
          return false;
        }
        CopyTopTo(st, 2, G, O);
        ok := true;
      case Over =>
        ok := CopyToTop(st, 1, G, O);
      case Rot =>
        ok := RollToTop(st, 2, G, O);
      case Depth =>
        PushItem(st, BigInteger(st.len), G, O);
        ok := true;
    }
  }

  method PopNumber(st: Stack, ghost G: Graph, ghost O: multiset<StackItem>) returns (n: Option<int>)
    requires AllContainers(G) && Booked(st, G, O)
    modifies st`ring, st`len, st.Nodes(), st.counters
    ensures Booked(st, G, O) && st.Nodes() <= old(st.Nodes())
    ensures n == if old(st.Contents()) == [] then None else NumberOf(old(st.Contents())[0])
    ensures n != None ==> st.Contents() == old(st.Contents())[1..] && st.counters.size == old(st.counters.size) - 1
  {
    var x := PopItem(st, G, O);
    n := if x == None then None else NumberOf(x.value);
  }

  method Perform(st: Stack, op: Shuffle, ghost G: Graph, ghost O: multiset<StackItem>) returns (ok: bool)
    requires AllContainers(G) && Booked(st, G, O)
    modifies st`ring, st`len, st.Nodes(), st.counters
    ensures Booked(st, G, O) && fresh(st.Nodes() - old(st.Nodes()))
    ensures Shuffled(op, old(st.Contents())) == if ok then Some(st.Contents()) else None
  {
    if TakesNumber(op) {
      var n := PopNumber(st, G, O);
      if n == None {
        return false;
      }
      ok := ShuffleAt(st, op, n.value, G, O);
    } else {
      ok := ShuffleTop(st, op, G, O);
    }
  }

  /** An opcode, and the check of the size behind it: too many slots are a fault although the opcode went through. */
  method Execute(st: Stack, op: Shuffle, ghost G: Graph, ghost O: multiset<StackItem>) returns (ok: bool)
    requires AllContainers(G) && Booked(st, G, O)
    modifies st`ring, st`len, st.Nodes(), st.counters
    ensures Booked(st, G, O) && fresh(st.Nodes() - old(st.Nodes()))
    ensures Shuffled(op, old(st.Contents())) != None ==> Shuffled(op, old(st.Contents())) == Some(st.Contents())
    ensures ok <==> Shuffled(op, old(st.Contents())) != None && st.counters.size <= MAX_STACK_SIZE
  {
    ok := Perform(st, op, G, O);
    ok := ok && st.counters.size <= MAX_STACK_SIZE;
  }
}
