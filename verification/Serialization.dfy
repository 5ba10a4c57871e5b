/**
  Serialization of stack items. The walk refuses a container that it has seen before, on whatever path,
  and interop items; everything else is written as a tree. Reading the bytes builds that tree anew.
 */
module Serialization {
  import opened Bytes
  import opened BigInt
  import opened Items
  import opened SeqOps
  import opened Equality
  import opened OrderedMap
  import opened BinIO
  import opened ItemBytes

  /** A snapshot that shows the keys of maps as well. */
  datatype Shape = Shape(keys: seq<StackItem>, slots: seq<StackItem>)
  type Layout = map<StackItem, Shape>

  ghost predicate WellShaped(x: StackItem, s: Shape) {
    && x.IsContainer()
    && |s.keys| == (if x.Map? then |s.slots| else 0)
    && forall i {:trigger s.keys[i]} :: 0 <= i < |s.keys| ==> IsPrimitive(s.keys[i])
  }

  ghost predicate InLayout(L: Layout, x: StackItem) { x.IsContainer() ==> x in L }

  ghost predicate AllInLayout(L: Layout, xs: seq<StackItem>) {
    forall i {:trigger xs[i]} :: 0 <= i < |xs| ==> InLayout(L, xs[i])
  }

  ghost predicate WellLaid(L: Layout) {
    forall x {:trigger L[x]} :: x in L ==> WellShaped(x, L[x]) && AllInLayout(L, L[x].slots)
  }

  function KindOf(x: StackItem): Kind {
    match x
    case Array(_) => KArray
    case Struct(_) => KStruct
    case _ => KMap
  }

  // ----- the walk, on snapshots

  datatype Outcome = Fail | Done(tree: Tree, seen: set<StackItem>)
  datatype OutcomeAll = FailAll | DoneAll(trees: seq<Tree>, seenAll: set<StackItem>)

  ghost function Visit(L: Layout, x: StackItem, seen: set<StackItem>): (r: Outcome)
    requires WellLaid(L) && InLayout(L, x)
    ensures r.Done? ==> seen <= r.seen <= seen + L.Keys
    decreases L.Keys - seen, 0
  {
    if x in seen || x.Interop? then Fail
    else if IsPrimitive(x) then Done(Leaf(x), seen)
    else
      assert x in L.Keys - seen;
      match VisitAll(L, L[x].slots, seen + {x})
      case FailAll => Fail
      case DoneAll(trees, s) => Done(Node(KindOf(x), L[x].keys, trees), s)
  }

  ghost function VisitAll(L: Layout, xs: seq<StackItem>, seen: set<StackItem>): (r: OutcomeAll)
    requires WellLaid(L) && AllInLayout(L, xs)
    ensures r.DoneAll? ==> seen <= r.seenAll <= seen + L.Keys && |r.trees| == |xs|
    decreases L.Keys - seen, 1, xs
  {
    if xs == [] then DoneAll([], seen)
    else match Visit(L, xs[0], seen)
      case Fail => FailAll
      case Done(t, s) =>
        match VisitAll(L, xs[1..], s)
        case FailAll => FailAll
        case DoneAll(ts, s') => DoneAll([t] + ts, s')
  }

  function Then(a: OutcomeAll, b: Outcome): OutcomeAll {
    if a.FailAll? || b.Fail? then FailAll else DoneAll(a.trees + [b.tree], b.seen)
  }

  lemma {:induction false} VisitOneMore(L: Layout, xs: seq<StackItem>, x: StackItem, seen: set<StackItem>)
    requires WellLaid(L) && AllInLayout(L, xs) && InLayout(L, x)
    ensures AllInLayout(L, xs + [x])
    ensures var a := VisitAll(L, xs, seen);
            VisitAll(L, xs + [x], seen) == Then(a, if a.FailAll? then Fail else Visit(L, x, a.seenAll))
    decreases |xs|
  {
    if xs == [] {
      assert [x][1..] == [];
      assert xs + [x] == [x];
    } else {
      assert (xs + [x])[1..] == xs[1..] + [x];
      match Visit(L, xs[0], seen) {
        case Fail =>
        case Done(t, s) =>
          VisitOneMore(L, xs[1..], x, s);
      }
    }
  }

  // ----- the heap behind a snapshot

  ghost function LayoutObjects(L: Layout): set<object>
    requires WellLaid(L)
  {
    set x | x in L :: x.Obj()
  }

  ghost predicate ShownAt(x: StackItem, s: Shape)
    requires x.IsContainer()
    reads x.Obj()
  {
    x.Children() == s.slots && (x.Map? ==> Keys(x.m.value) == s.keys)
  }

  ghost predicate Shown(L: Layout)
    requires WellLaid(L)
    reads LayoutObjects(L)
  {
    forall x {:trigger L[x]} :: x in L ==> ShownAt(x, L[x])
  }

  lemma OnlyContainers(L: Layout, o: object)
    requires WellLaid(L)
    ensures o in LayoutObjects(L) ==> o is ArrayItem || o is StructItem || o is MapItem
  {
    if o in LayoutObjects(L) {
      var x :| x in L && x.Obj() == o;
    }
  }

  twostate lemma ShownKept(L: Layout)
    requires WellLaid(L) && forall o :: o in LayoutObjects(L) ==> allocated(o) && old(allocated(o))
    requires old(Shown(L)) && forall o :: o in LayoutObjects(L) ==> unchanged(o)
    ensures Shown(L)
  {
    forall x | x in L ensures ShownAt(x, L[x]) {
      assert x.Obj() in LayoutObjects(L);
      assert old(ShownAt(x, L[x]));
    }
  }

  // ----- writing

  /** The containers met so far; entries are never taken out. */
  class SeenItems {
    var items: set<StackItem>
    constructor ()
      ensures items == {}
    {
      items := {};
    }
  }

  /** What a call that found the writer without an error leaves behind. */
  ghost predicate Wrote(before: bytes, now: bytes, err: bool, seen: set<StackItem>, o: Outcome) {
    match o
    case Fail => err
    case Done(t, s) => !err && now == before + TreeBytes(t) && seen == s
  }

  ghost predicate WroteKids(before: bytes, now: bytes, err: bool, seen: set<StackItem>, keys: seq<StackItem>,
                            o: OutcomeAll) {
    match o
    case FailAll => err
    case DoneAll(ts, s) => !err && now == before + KidsBytes(keys, ts) && seen == s
  }

  method WriteLeaf(item: StackItem, w: BinWriter)
    requires IsPrimitive(item)
    modifies w
    ensures w.err == old(w.err) && w.buf == if w.err then old(w.buf) else old(w.buf) + LeafBytes(item)
  {
    match item {
      case ByteArray(data) =>
        Appended(w.buf, [0x00], VarBytes(data));
        w.WriteBytes([0x00]);
        w.WriteVarBytes(data);
      case Boolean(b) =>
        Appended(w.buf, [0x01], [if b then 1 else 0]);
        w.WriteBytes([0x01]);
        w.WriteBool(b);
      case BigInteger(n) =>
        var data := IntToBytes(n);
        Appended(w.buf, [0x02], VarBytes(data));
        w.WriteBytes([0x02]);
        w.WriteVarBytes(data);
    }
  }

  /** Type byte and number of slots. */
  method WriteHead(kind: Kind, n: nat, w: BinWriter)
    modifies w
    ensures w.err == old(w.err) && w.buf == if w.err then old(w.buf) else old(w.buf) + NodeBytes(kind, n, [])
  {
    Appended(w.buf, [TypeByte(kind)], VarUint(Length(n)));
    assert NodeBytes(kind, n, []) == [TypeByte(kind)] + VarUint(Length(n));
    w.WriteBytes([TypeByte(kind)]);
    w.WriteVarUint(Length(n));
  }

  lemma HeadAndBody(kind: Kind, n: nat, before: bytes, body: bytes)
    ensures before + NodeBytes(kind, n, []) + body == before + NodeBytes(kind, n, body)
  {
    var h := [TypeByte(kind)] + VarUint(Length(n));
    assert h + [] == h;
    Appended(before, h, body);
  }

  method SerializeItemTo(item: StackItem, w: BinWriter, seen: SeenItems, ghost L: Layout)
    requires WellLaid(L) && InLayout(L, item) && Shown(L)
    requires seen.items <= L.Keys
    modifies w, seen
    ensures old(seen.items) <= seen.items <= L.Keys && Shown(L)
    ensures old(w.err) ==> w.err && w.buf == old(w.buf)
    ensures !old(w.err) ==> Wrote(old(w.buf), w.buf, w.err, seen.items, Visit(L, item, old(seen.items)))
    decreases L.Keys - seen.items, 1
  {
    OnlyContainers(L, w);
    OnlyContainers(L, seen);
    if item in seen.items {
      w.err := true;
    } else if IsPrimitive(item) {
      WriteLeaf(item, w);
    } else if item.Interop? {
      w.err := true;
    } else {
      SerializeContainer(item, w, seen, L);
      return;
    }
    ShownKept(L);
  }

  lemma {:induction false} KidsOneMore(keys: seq<StackItem>, ts: seq<Tree>, k: seq<StackItem>, t: Tree)
    requires (|keys| == |ts| && |k| == 1) || (keys == [] && k == [])
    ensures KidsBytes(keys + k, ts + [t]) == KidsBytes(keys, ts) + KidBytes(k, t)
    decreases |ts|
  {
    if ts == [] {
      OneKid(k, t);
      assert keys + k == k && ts + [t] == [t] && KidsBytes(keys, ts) == [];
    } else {
      OneMoreBehind(keys, k);
      OneMoreLater(ts, t);
      KidsOneMore(Later(keys), ts[1..], k, t);
      Appended(KidBytes(keys, ts[0]), KidsBytes(Later(keys), ts[1..]), KidBytes(k, t));
      assert KidBytes(keys + k, ts[0]) == KidBytes(keys, ts[0]);
    }
  }

  lemma OneMoreBehind(keys: seq<StackItem>, k: seq<StackItem>)
    requires keys != [] || k == []
    ensures Later(keys + k) == Later(keys) + k && KeyFirst(keys + k) == KeyFirst(keys)
  {
  }

  lemma OneMoreLater(ts: seq<Tree>, t: Tree)
    requires ts != []
    ensures (ts + [t])[1..] == ts[1..] + [t] && (ts + [t])[0] == ts[0]
  {
  }

  lemma OneKid(k: seq<StackItem>, t: Tree)
    requires |k| <= 1
    ensures KidsBytes(k, [t]) == KidBytes(k, t)
  {
    assert KidsBytes(Later(k), [t][1..]) == [];
  }

  /** One more slot, in a map behind its key, carries what was written one slot further. */
  lemma SlotWritten(L: Layout, xs: seq<StackItem>, x: StackItem, s0: set<StackItem>, keys: seq<StackItem>,
                    k: seq<StackItem>, b0: bytes, b1: bytes, err1: bool, s1: set<StackItem>, b2: bytes, err2: bool,
                    s2: set<StackItem>)
    requires WellLaid(L) && AllInLayout(L, xs) && InLayout(L, x)
    requires (|keys| == |xs| && |k| == 1) || (keys == [] && k == [])
    requires WroteKids(b0, b1, err1, s1, keys, VisitAll(L, xs, s0))
    requires if err1 then err2 else Wrote(b1 + KeyFirst(k), b2, err2, s2, Visit(L, x, s1))
    ensures AllInLayout(L, xs + [x]) && WroteKids(b0, b2, err2, s2, keys + k, VisitAll(L, xs + [x], s0))
  {
    VisitOneMore(L, xs, x, s0);
    match VisitAll(L, xs, s0) {
      case FailAll =>
      case DoneAll(ts, s) =>
        match Visit(L, x, s) {
          case Fail =>
          case Done(t, s') =>
            KidsOneMore(keys, ts, k, t);
            Appended(b0, KidsBytes(keys, ts), KidBytes(k, t));
            Appended(b0 + KidsBytes(keys, ts), KeyFirst(k), TreeBytes(t));
        }
    }
  }

  lemma ListSlotWritten(L: Layout, xs: seq<StackItem>, i: nat, s0: set<StackItem>,
                        b0: bytes, b1: bytes, err1: bool, s1: set<StackItem>, b2: bytes, err2: bool, s2: set<StackItem>)
    requires WellLaid(L) && AllInLayout(L, xs) && i < |xs|
    requires WroteKids(b0, b1, err1, s1, [], VisitAll(L, xs[..i], s0))
    requires if err1 then err2 else Wrote(b1, b2, err2, s2, Visit(L, xs[i], s1))
    ensures WroteKids(b0, b2, err2, s2, [], VisitAll(L, xs[..i + 1], s0))
  {
    PrefixGrows(xs, i);
    var none: seq<StackItem> := [];
    assert b1 + KeyFirst(none) == b1 && none + none == none;
    SlotWritten(L, xs[..i], xs[i], s0, none, none, b0, b1, err1, s1, b2, err2, s2);
  }

  method WriteSlots(xs: seq<StackItem>, w: BinWriter, seen: SeenItems, ghost L: Layout)
    requires WellLaid(L) && AllInLayout(L, xs) && Shown(L)
    requires seen.items <= L.Keys
    modifies w, seen
    ensures old(seen.items) <= seen.items <= L.Keys && Shown(L)
    ensures old(w.err) ==> w.err && w.buf == old(w.buf)
    ensures !old(w.err) ==> WroteKids(old(w.buf), w.buf, w.err, seen.items, [], VisitAll(L, xs, old(seen.items)))
    decreases L.Keys - seen.items, 2
  {
    ghost var s0, b0 := seen.items, w.buf;
    WholePrefix(xs);
    for i := 0 to |xs|
      invariant s0 <= seen.items <= L.Keys && Shown(L)
      invariant old(w.err) ==> w.err && w.buf == b0
      invariant !old(w.err) ==> WroteKids(b0, w.buf, w.err, seen.items, [], VisitAll(L, xs[..i], s0))
    {
      ghost var b1, err1, s1 := w.buf, w.err, seen.items;
      SerializeItemTo(xs[i], w, seen, L);
      if !old(w.err) {
        ListSlotWritten(L, xs, i, s0, b0, b1, err1, s1, w.buf, w.err, seen.items);
      }
    }
  }

  lemma EntryWritten(L: Layout, xs: seq<StackItem>, ks: seq<StackItem>, i: nat, s0: set<StackItem>,
                     b0: bytes, b1: bytes, err1: bool, s1: set<StackItem>, b2: bytes, err2: bool, s2: set<StackItem>)
    requires WellLaid(L) && AllInLayout(L, xs) && i < |xs| == |ks|
    requires WroteKids(b0, b1, err1, s1, ks[..i], VisitAll(L, xs[..i], s0))
    requires if err1 then err2 else Wrote(b1 + LeafBytes(ks[i]), b2, err2, s2, Visit(L, xs[i], s1))
    ensures WroteKids(b0, b2, err2, s2, ks[..i + 1], VisitAll(L, xs[..i + 1], s0))
  {
    PrefixGrows(xs, i);
    PrefixGrows(ks, i);
    SlotWritten(L, xs[..i], xs[i], s0, ks[..i], [ks[i]], b0, b1, err1, s1, b2, err2, s2);
  }

  method WriteKey(key: StackItem, w: BinWriter, seen: SeenItems, ghost L: Layout)
    requires WellLaid(L) && IsPrimitive(key) && Shown(L)
    requires seen.items <= L.Keys
    modifies w, seen
    ensures old(seen.items) <= seen.items <= L.Keys && Shown(L)
    ensures w.err == old(w.err) && w.buf == if w.err then old(w.buf) else old(w.buf) + LeafBytes(key)
    ensures !w.err ==> seen.items == old(seen.items)
    decreases L.Keys - seen.items, 2
  {
    SerializeItemTo(key, w, seen, L);
  }

  method WritePair(key: StackItem, value: StackItem, w: BinWriter, seen: SeenItems, ghost L: Layout)
    requires WellLaid(L) && IsPrimitive(key) && InLayout(L, value) && Shown(L)
    requires seen.items <= L.Keys
    modifies w, seen
    ensures old(seen.items) <= seen.items <= L.Keys && Shown(L)
    ensures old(w.err) ==> w.err && w.buf == old(w.buf)
    ensures !old(w.err) ==>
              Wrote(old(w.buf) + LeafBytes(key), w.buf, w.err, seen.items, Visit(L, value, old(seen.items)))
    decreases L.Keys - seen.items, 3
  {
    WriteKey(key, w, seen, L);
    SerializeItemTo(value, w, seen, L);
  }

  // One round of the loop below: the pairs written so far grow by one.
  method WriteEntry(es: seq<MapElement>, i: nat, w: BinWriter, seen: SeenItems, ghost L: Layout,
                    ghost s0: set<StackItem>, ghost b0: bytes)
    requires WellLaid(L) && AllInLayout(L, Values(es)) && Shown(L)
    requires i < |es| && IsPrimitive(es[i].key)
    requires seen.items <= L.Keys
    modifies w, seen
    ensures old(seen.items) <= seen.items <= L.Keys && Shown(L)
    ensures old(w.err) ==> w.err && w.buf == old(w.buf)
    ensures old(WroteKids(b0, w.buf, w.err, seen.items, Keys(es)[..i], VisitAll(L, Values(es)[..i], s0))) ==>
              WroteKids(b0, w.buf, w.err, seen.items, Keys(es)[..i + 1], VisitAll(L, Values(es)[..i + 1], s0))
    decreases L.Keys - seen.items, 4
  {
    ghost var b1, err1, s1 := w.buf, w.err, seen.items;
    WritePair(es[i].key, es[i].value, w, seen, L);
    if WroteKids(b0, b1, err1, s1, Keys(es)[..i], VisitAll(L, Values(es)[..i], s0)) {
      EntryWritten(L, Values(es), Keys(es), i, s0, b0, b1, err1, s1, w.buf, w.err, seen.items);
    }
  }

  method WriteEntries(es: seq<MapElement>, w: BinWriter, seen: SeenItems, ghost L: Layout)
    requires WellLaid(L) && AllInLayout(L, Values(es)) && Shown(L)
    requires forall i {:trigger es[i]} :: 0 <= i < |es| ==> IsPrimitive(es[i].key)
    requires seen.items <= L.Keys
    modifies w, seen
    ensures old(seen.items) <= seen.items <= L.Keys && Shown(L)
    ensures old(w.err) ==> w.err && w.buf == old(w.buf)
    ensures !old(w.err) ==>
              WroteKids(old(w.buf), w.buf, w.err, seen.items, Keys(es), VisitAll(L, Values(es), old(seen.items)))
    decreases L.Keys - seen.items, 5
  {
    ghost var s0, b0 := seen.items, w.buf;
    ghost var ks, xs := Keys(es), Values(es);
    WholePrefix(xs);
    WholePrefix(ks);
    for i := 0 to |es|
      invariant s0 <= seen.items <= L.Keys && Shown(L)
      invariant old(w.err) ==> w.err && w.buf == b0
      invariant !old(w.err) ==> WroteKids(b0, w.buf, w.err, seen.items, ks[..i], VisitAll(L, xs[..i], s0))
    {
      WriteEntry(es, i, w, seen, L, s0, b0);
    }
  }

  method SerializeContainer(item: StackItem, w: BinWriter, seen: SeenItems, ghost L: Layout)
    requires WellLaid(L) && item in L && item !in seen.items && Shown(L)
    requires seen.items <= L.Keys
    modifies w, seen
    ensures old(seen.items) <= seen.items <= L.Keys && Shown(L)
    ensures old(w.err) ==> w.err && w.buf == old(w.buf)
    ensures !old(w.err) ==> Wrote(old(w.buf), w.buf, w.err, seen.items, Visit(L, item, old(seen.items)))
    decreases L.Keys - seen.items, 0
  {
    OnlyContainers(L, w);
    OnlyContainers(L, seen);
    assert ShownAt(item, L[item]) && item in L.Keys - seen.items;
    ghost var b0, s0 := w.buf, seen.items;
    seen.items := seen.items + {item};
    assert item !in L.Keys - seen.items;
    if item.Map? {
      var es := item.m.value;
      WriteHead(KMap, |es|, w);
      ShownKept(L);
      assert forall i :: 0 <= i < |es| ==> L[item].keys[i] == es[i].key;
      WriteEntries(es, w, seen, L);
    } else {
      var xs := item.Children();
      WriteHead(KindOf(item), |xs|, w);
      ShownKept(L);
      WriteSlots(xs, w, seen, L);
    }
    if !old(w.err) {
      ContainerWritten(L, item, s0, b0, w.buf, w.err, seen.items);
    }
  }

  lemma ContainerWritten(L: Layout, x: StackItem, s0: set<StackItem>, b0: bytes, b: bytes, err: bool, s: set<StackItem>)
    requires WellLaid(L) && x in L && x !in s0
    requires WroteKids(b0 + NodeBytes(KindOf(x), |L[x].slots|, []), b, err, s, L[x].keys,
                       VisitAll(L, L[x].slots, s0 + {x}))
    ensures Wrote(b0, b, err, s, Visit(L, x, s0))
  {
    match VisitAll(L, L[x].slots, s0 + {x}) {
      case FailAll =>
      case DoneAll(ts, _) =>
        HeadAndBody(KindOf(x), |ts|, b0, KidsBytes(L[x].keys, ts));
    }
  }
}
