/** Which slots of a list APPEND, SETITEM and REMOVE change in the machine, and when they fault. */
module EditSlots {
  import opened Options
  import opened Bytes
  import opened Items
  import opened SeqOps
  import opened RemovalWalk
  import opened Equality
  import opened Edits
  import opened ObjectOps
  import opened Opcodes
  import opened Frames
  import opened Machine
  import opened NumberNames
  import SlotLaws

  /** What is stored for an item: itself, or a new struct for a struct. */
  predicate StoredFor(s: Vm, item: StackItem, val: StackItem) {
    if item.Struct? then val.Struct? && val !in s.heap else val == item
  }

  /** Other containers are as they were, and the operands are gone; there may be new structs. */
  ghost predicate OnlyChanges(s: Vm, t: StackItem, operands: nat, u: Vm)
    requires s.estack in s.stacks && operands <= |Current(s)|
  {
    && u == s.(stacks := s.stacks[s.estack := Current(s)[operands..]], heap := u.heap)
    && forall c {:trigger u.heap[c]} :: c in s.heap && c != t ==> c in u.heap && u.heap[c] == s.heap[c]
  }

  lemma ExtendedKeeps(G: Graph, K: Graph, c: StackItem)
    requires Extends(G, K) && c in G
    ensures c in K && K[c] == G[c]
  {
  }

  lemma OthersKept(op: byte, s: Vm, ch: Change, u: Vm)
    requires s.estack in s.stacks && ChangedDepth(op) != None && Edited(op, s, ch, u)
    ensures OnlyChanges(s, Current(s)[ChangedDepth(op).value], ChangedDepth(op).value + 1, u)
  {
    var t := Current(s)[ChangedDepth(op).value];
    forall c | c in s.heap && c != t ensures c in u.heap && u.heap[c] == s.heap[c] {
      if op != REMOVE { ExtendedKeeps(s.heap, ch.K, c); }
    }
  }

  lemma AppendEdits(s: Vm, ch: Change, u: Vm)
    requires s.estack in s.stacks && Edited(APPEND, s, ch, u)
    ensures var e, t := Current(s), Current(s)[1];
            && IsList(t) && t in s.heap && t in u.heap && OnlyChanges(s, t, 2, u)
            && |u.heap[t]| == |s.heap[t]| + 1 <= 1024 && u.heap[t][..|s.heap[t]|] == s.heap[t]
            && StoredFor(s, e[0], u.heap[t][|s.heap[t]|])
  {
    OthersKept(APPEND, s, ch, u);
  }

  lemma SetItemEdits(s: Vm, ch: Change, u: Vm, j: int)
    requires s.estack in s.stacks && Edited(SETITEM, s, ch, u)
    requires IsList(Current(s)[2]) && Names(Current(s)[1], j)
    ensures var e, t := Current(s), Current(s)[2];
            && t in s.heap && t in u.heap && OnlyChanges(s, t, 3, u) && 0 <= j < |s.heap[t]|
            && |u.heap[t]| == |s.heap[t]| && StoredFor(s, e[0], u.heap[t][j])
            && u.heap[t] == s.heap[t][j := u.heap[t][j]]
  {
    SlotLaws.NamedIndex(Current(s)[1], j);
    OthersKept(SETITEM, s, ch, u);
  }

  lemma RemoveEdits(s: Vm, ch: Change, u: Vm, j: int)
    requires s.estack in s.stacks && Edited(REMOVE, s, ch, u)
    requires IsList(Current(s)[1]) && Names(Current(s)[0], j)
    ensures var t := Current(s)[1];
            && t in s.heap && t in u.heap && OnlyChanges(s, t, 2, u) && 0 <= j < |s.heap[t]|
            && u.heap[t] == s.heap[t][..j] + s.heap[t][j + 1..]
  {
    SlotLaws.NamedIndex(Current(s)[0], j);
    OthersKept(REMOVE, s, ch, u);
    Slices(s.heap[Current(s)[1]], j, Current(s)[0]);
  }

  /** With their operands there, they fault on a list exactly for want of room, or for a key that names no slot. */
  lemma ListEditFaults(heap: Graph, xs: seq<StackItem>, j: int)
    ensures |xs| >= 2 && IsList(xs[1]) ==> (CannotEdit(APPEND, heap, xs) <==> |SlotsAt(heap, xs[1])| >= 1024)
    ensures |xs| >= 3 && IsList(xs[2]) && Names(xs[1], j) ==>
              (CannotEdit(SETITEM, heap, xs) <==> !(0 <= j < |SlotsAt(heap, xs[2])|))
    ensures |xs| >= 2 && IsList(xs[1]) && Names(xs[0], j) ==>
              (CannotEdit(REMOVE, heap, xs) <==> !(0 <= j < |SlotsAt(heap, xs[1])|))
  {
    if |xs| >= 2 && Names(xs[1], j) { SlotLaws.NamedIndex(xs[1], j); }
    if |xs| >= 2 && Names(xs[0], j) { SlotLaws.NamedIndex(xs[0], j); }
  }
}
