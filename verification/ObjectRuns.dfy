/**
  Whole runs of the opcodes that make and change containers, among stack opcodes, over the ring lists and the
  heap. In every state of every run structs are acyclic. The counters are exact for as long as each container
  that is changed can still be reached from the stacks.
 */
module ObjectRuns {
  import opened Limits
  import opened Options
  import opened Bytes
  import opened Items
  import opened SeqOps
  import opened RefCount
  import opened RemovalWalk
  import opened Counting
  import opened Equality
  import opened StructClone
  import opened OrderedMap
  import opened MapKeys
  import opened Edits
  import opened Searching
  import opened ObjectOps
  import opened HeapWrites
  import opened RingStack
  import opened StackOps
  import opened StackRuns
  import opened Packing

  datatype ObjInstr =
    | OnStacks(i: Instr)
    | NewArray | NewStruct | NewMapping | PackItems
    | AppendItem | SetItemAt | RemoveItem | ValuesOf

  /** The heap, the keys of its maps, and the two stacks, top first. */
  datatype Snap = Snap(G: Graph, keys: KeyTable, e: seq<StackItem>, a: seq<StackItem>)

  /** What a step did to the heap: nothing, or one write; val is the value that was stored, if one was. */
  datatype Event = Quiet | Wrote(w: Write, val: StackItem)

  // ----- what the opcodes do to a snapshot

  function HeapAfter(G: Graph, ev: Event): Graph {
    if ev.Quiet? then G else Written(ev.w)
  }

  /** The write makes a container, without any clones. */
  ghost predicate Makes(G: Graph, ev: Event, slots: seq<StackItem>) {
    ev.Wrote? && ev.w.K == G && ev.w.c.IsContainer() && ev.w.c !in G && ev.w.s == slots && Covers(G, slots)
  }

  /** What is kept for an item: itself, or for a struct a new one that equals it. */
  ghost predicate KeptFor(G: Graph, K: Graph, order: map<StackItem, nat>, item: StackItem, val: StackItem) {
    && Covered(K, val)
    && if item.Struct? then val.Struct? && val !in G && EqualIn(K, order, item, val) else val == item
  }

  ghost predicate EqualIn(K: Graph, order: map<StackItem, nat>, a: StackItem, b: StackItem) {
    Ranked(K, order) && Covered(K, a) && Covered(K, b) && Equals(K, order, a, b)
  }

  /** The write changes the slots of t; the value stored is the item, or a clone of it if it is a struct. */
  ghost predicate Stores(G: Graph, ev: Event, t: StackItem, item: StackItem) {
    && ev.Wrote? && ClonesJoin(G, ev.w.K, ev.w.order) && ev.w.c == t && t in G
    && KeptFor(G, ev.w.K, ev.w.order, item, ev.val)
  }

  ghost predicate MakesList(asStruct: bool, s: Snap, ev: Event, e': seq<StackItem>) {
    s.e != [] && e' != [] && e'[1..] == s.e[1..] && ListMade(asStruct, s.G, s.e[0], e'[0], ev)
  }

  /** t is the list that the item asks for: itself, a copy of the other kind, or so many falses. */
  ghost predicate ListMade(asStruct: bool, G: Graph, item: StackItem, t: StackItem, ev: Event) {
    && IsList(t) && t.Struct? == asStruct
    && if IsList(item) && item.Struct? == asStruct then ev.Quiet? && t == item
       else
         && (if IsList(item) then item in G else LengthOf(item) != None)
         && Makes(G, ev, if IsList(item) then G[item] else Falses(LengthOf(item).value)) && ev.w.c == t
  }

  ghost predicate Packs(s: Snap, ev: Event, e': seq<StackItem>) {
    && PackCount(s.e) != None
    && var n := PackCount(s.e).value;
       Makes(s.G, ev, s.e[1..n + 1]) && ev.w.c.Array? && e' == [ev.w.c] + s.e[n + 1..]
  }

  ghost predicate Appends(s: Snap, ev: Event, e': seq<StackItem>) {
    && |s.e| >= 2 && e' == s.e[2..] && IsList(s.e[1])
    && Stores(s.G, ev, s.e[1], s.e[0])
    && |s.G[s.e[1]]| < MAX_ARRAY_SIZE && ev.w.s == s.G[s.e[1]] + [ev.val]
  }

  function KeysAt(N: KeyTable, t: StackItem): seq<bytes> { if t in N then N[t] else [] }

  /** The slot that a key stands for, if there is one. */
  function SlotOfKey(G: Graph, N: KeyTable, t: StackItem, key: StackItem): (k: Option<nat>)
    requires IsValidMapKey(key)
    ensures k != None ==> k.value < |SlotsAt(G, t)|
  {
    var p := if t.Map? then PlaceIn(KeysAt(N, t), KeyBytes(key)) else IndexOf(key);
    if 0 <= p < |SlotsAt(G, t)| && (t.Map? ==> p < |KeysAt(N, t)|) then Some(p) else None
  }

  /** There is a slot for the key, or room for a new key. */
  predicate CanPut(G: Graph, N: KeyTable, t: StackItem, key: StackItem) {
    && t.IsContainer() && IsValidMapKey(key)
    && (SlotOfKey(G, N, t, key) != None || (t.Map? && |SlotsAt(G, t)| < MAX_ARRAY_SIZE))
  }

  /** The slots with a value put where the key stands; a new key is the last one. */
  function SlotsPut(G: Graph, N: KeyTable, t: StackItem, key: StackItem, val: StackItem): seq<StackItem> {
    if IsValidMapKey(key) then Applied(Setting(SlotOfKey(G, N, t, key), val), SlotsAt(G, t)) else SlotsAt(G, t)
  }

  function KeysPut(N: KeyTable, t: StackItem, key: StackItem): KeyTable {
    if t.Map? && IsValidMapKey(key) then N[t := KeysFiled(KeysAt(N, t), KeyBytes(key))] else N
  }

  function KeysTaken(N: KeyTable, t: StackItem, key: StackItem): KeyTable {
    if t.Map? && IsValidMapKey(key) then N[t := KeysUnfiled(KeysAt(N, t), KeyBytes(key))] else N
  }

  ghost predicate Sets(s: Snap, ev: Event, e': seq<StackItem>) {
    && |s.e| >= 3 && e' == s.e[3..] && CanPut(s.G, s.keys, s.e[2], s.e[1])
    && Stores(s.G, ev, s.e[2], s.e[0])
    && ev.w.s == SlotsPut(s.G, s.keys, s.e[2], s.e[1], ev.val)
  }

  ghost predicate TakesOut(s: Snap, ev: Event, e': seq<StackItem>) {
    |s.e| >= 2 && e' == s.e[2..] && Removes(s.G, s.keys, s.e[1], s.e[0], ev)
  }

  /** The slot of the key goes; a map need not have it. */
  ghost predicate Removes(G: Graph, N: KeyTable, t: StackItem, key: StackItem, ev: Event) {
    && IsValidMapKey(key) && t.IsContainer() && t in G
    && match SlotOfKey(G, N, t, key)
       case None => ev.Quiet? && t.Map?
       case Some(k) => ev.Wrote? && ev.w.K == G && ev.w.c == t && ev.w.s == Removed(G[t], k)
  }

  ghost predicate ListsValues(s: Snap, ev: Event, e': seq<StackItem>) {
    && s.e != [] && s.e[0].IsContainer() && s.e[0] in s.G
    && ev.Wrote? && ClonesJoin(s.G, ev.w.K, ev.w.order) && ev.w.c.Array? && ev.w.c !in ev.w.K
    && e' == [ev.w.c] + s.e[1..]
    && CopiesOf(s.G, ev.w.K, ev.w.order, s.G[s.e[0]], ev.w.s)
  }

  ghost predicate CopiesOf(G: Graph, K: Graph, order: map<StackItem, nat>, xs: seq<StackItem>, ys: seq<StackItem>) {
    |ys| == |xs| && Covers(K, ys) && forall k {:trigger ys[k]} :: 0 <= k < |ys| ==> KeptFor(G, K, order, xs[k], ys[k])
  }

  /** The keys of maps behind an opcode that goes through. */
  function KeysAfter(i: ObjInstr, s: Snap, ev: Event): KeyTable {
    if i.NewMapping? && ev.Wrote? then s.keys[ev.w.c := []]
    else if i.SetItemAt? && |s.e| >= 3 then KeysPut(s.keys, s.e[2], s.e[1])
    else if i.RemoveItem? && |s.e| >= 2 then KeysTaken(s.keys, s.e[1], s.e[0])
    else s.keys
  }

  /** One opcode that goes through. */
  ghost predicate Does(i: ObjInstr, s: Snap, ev: Event, s': Snap) {
    && s'.G == HeapAfter(s.G, ev) && s'.keys == KeysAfter(i, s, ev)
    && match i
       case OnStacks(j) => ev.Quiet? && Stepped(j, Pair(s.e, s.a)) == Some(Pair(s'.e, s'.a))
       case NewArray => MakesList(false, s, ev, s'.e) && s'.a == s.a
       case NewStruct => MakesList(true, s, ev, s'.e) && s'.a == s.a
       case NewMapping => Makes(s.G, ev, []) && ev.w.c.Map? && s'.e == [ev.w.c] + s.e && s'.a == s.a
       case PackItems => Packs(s, ev, s'.e) && s'.a == s.a
       case AppendItem => Appends(s, ev, s'.e) && s'.a == s.a
       case SetItemAt => Sets(s, ev, s'.e) && s'.a == s.a
       case RemoveItem => TakesOut(s, ev, s'.e) && s'.a == s.a
       case ValuesOf => ListsValues(s, ev, s'.e) && s'.a == s.a
  }

  /** When it goes through; otherwise it faults. */
  predicate Goes(i: ObjInstr, s: Snap) {
    match i
    case OnStacks(j) => Stepped(j, Pair(s.e, s.a)) != None
    case NewArray => s.e != [] && (IsList(s.e[0]) || LengthOf(s.e[0]) != None)
    case NewStruct => s.e != [] && (IsList(s.e[0]) || LengthOf(s.e[0]) != None)
    case NewMapping => true
    case PackItems => PackCount(s.e) != None
    case AppendItem => |s.e| >= 2 && IsList(s.e[1]) && |SlotsAt(s.G, s.e[1])| < MAX_ARRAY_SIZE
    case SetItemAt => |s.e| >= 3 && CanPut(s.G, s.keys, s.e[2], s.e[1])
    case RemoveItem => |s.e| >= 2 && CanTake(s.G, s.keys, s.e[1], s.e[0])
    case ValuesOf => s.e != [] && s.e[0].IsContainer()
  }

  /** A map may be asked to give up a key that it does not have. */
  predicate CanTake(G: Graph, N: KeyTable, t: StackItem, key: StackItem) {
    t.IsContainer() && IsValidMapKey(key) && (SlotOfKey(G, N, t, key) != None || t.Map?)
  }

  /** What faults can do nothing. */
  lemma DoingGoes(i: ObjInstr, s: Snap, ev: Event, s': Snap)
    requires Does(i, s, ev, s')
    ensures Goes(i, s)
  {
  }

  ghost predicate Trace(code: seq<ObjInstr>, evs: seq<Event>, ss: seq<Snap>) {
    && |ss| == |evs| + 1 <= |code| + 1
    && forall k {:trigger evs[k]} :: 0 <= k < |evs| ==> Does(code[k], ss[k], evs[k], ss[k + 1])
  }

  // ----- structs stay acyclic, whatever is done and whatever the counters say

  lemma StoredStructs(G: Graph, w: Write, val: StackItem)
    requires Closed(G) && ClonesJoin(G, w.K, w.order) && w.c in G && Covered(w.K, val) && (val.Struct? ==> val !in G)
    requires OldOr(w.s, G[w.c], val)
    ensures Writes(G, w)
  {
    assert Covers(G, G[w.c]);
    forall x | x in w.s && x.IsContainer() ensures x in w.K { if x in G { assert x in w.K; } }
  }

  lemma EveryDoingWrites(i: ObjInstr, s: Snap, ev: Event, s': Snap)
    requires Closed(s.G) && Does(i, s, ev, s') && ev.Wrote?
    ensures Writes(s.G, ev.w)
  {
    var w := ev.w;
    match i {
      case AppendItem =>
        StoredStructs(s.G, w, ev.val);
      case SetItemAt =>
        AppliedOldOr(Setting(SlotOfKey(s.G, s.keys, w.c, s.e[1]), ev.val), s.G[w.c], ev.val);
        StoredStructs(s.G, w, ev.val);
      case RemoveItem =>
        AppliedOldOr(Dropped(SlotOfKey(s.G, s.keys, w.c, s.e[0]).value), s.G[w.c], Boolean(false));
        StoredStructs(s.G, w, Boolean(false));
      case ValuesOf =>
      case _ =>
    }
  }

  lemma StepRanked(i: ObjInstr, s: Snap, ev: Event, s': Snap, rank: map<StackItem, nat>)
    returns (rank': map<StackItem, nat>)
    requires Ranked(s.G, rank) && Does(i, s, ev, s')
    ensures Ranked(s'.G, rank')
  {
    rank' := rank;
    if ev.Wrote? {
      EveryDoingWrites(i, s, ev, s');
      rank' := WriteRanked(s.G, rank, ev.w);
    }
  }

  /** In every state of every run structs are acyclic. */
  lemma {:induction false} EveryStateRanked(code: seq<ObjInstr>, evs: seq<Event>, ss: seq<Snap>, rank: map<StackItem,
                                            nat>, k: nat)
    returns (rank': map<StackItem, nat>)
    requires Trace(code, evs, ss) && Ranked(ss[0].G, rank) && k < |ss|
    ensures Ranked(ss[k].G, rank')
    decreases k
  {
    rank' := rank;
    if k > 0 {
      var before := EveryStateRanked(code, evs, ss, rank, k - 1);
      assert Does(code[k - 1], ss[k - 1], evs[k - 1], ss[k]);
      rank' := StepRanked(code[k - 1], ss[k - 1], evs[k - 1], ss[k], before);
    }
  }

  // ----- the opcodes on the rings and the heap

  /** The keys of all maps are in order. */
  ghost predicate Tidy(G: Graph)
    requires AllContainers(G)
    reads Objects(G)
  {
    forall c {:trigger c in G} :: c in G ==> c.IsContainer() && (assert c.Obj() in Objects(G); InOrder(c, G[c]))
  }

  ghost predicate Ready(e: Stack, a: Stack, G: Graph, rank: map<StackItem, nat>, O: multiset<StackItem>)
    reads e, a, e.ring, a.ring, e.counters, if AllContainers(G) then Objects(G) else {}
  {
    Ranked(G, rank) && BookedPair(e, a, G, O) && Tidy(G)
  }

  ghost function Now(e: Stack, a: Stack, G: Graph): Snap
    requires |e.ring| > 0 && |a.ring| > 0 && AllContainers(G)
    reads e, a, e.ring, a.ring, Objects(G)
  {
    Snap(G, KeysOf(G), e.Contents(), a.Contents())
  }

  /** The container that the opcode is about to change, and the slots that are left when the operands are popped. */
  ghost function Target(i: ObjInstr, s: Snap): Option<(StackItem, seq<StackItem>)> {
    if (i.AppendItem? || i.RemoveItem?) && |s.e| >= 2 then Some((s.e[1], s.e[2..]))
    else if i.SetItemAt? && |s.e| >= 3 then Some((s.e[2], s.e[3..]))
    else None
  }

  /** It can be reached from the stack slots that are left. */
  ghost predicate TargetHeld(i: ObjInstr, s: Snap, O: multiset<StackItem>) {
    Target(i, s) != None && Target(i, s).value.0 in s.G ==>
      Reachable(s.G, O + multiset(Target(i, s).value.1) + multiset(s.a), Target(i, s).value.0)
  }

  /** Writes elsewhere keep the maps as they are. */
  twostate lemma TidyKept(G: Graph)
    requires AllContainers(G) && forall o :: o in Objects(G) ==> allocated(o) && old(allocated(o))
    requires old(Tidy(G)) && forall o :: o in Objects(G) ==> unchanged(o)
    ensures Tidy(G) && KeysOf(G) == old(KeysOf(G))
  {
    KeysKept(G);
    forall c | c in G ensures InOrder(c, G[c]) {
      assert c.IsContainer() && c.Obj() in Objects(G);
      assert old(InOrder(c, G[c]));
    }
  }

  method PopValue(e: Stack, a: Stack, ghost G: Graph, ghost rank: map<StackItem, nat>, ghost O: multiset<StackItem>)
    returns (x: Option<StackItem>)
    requires Ready(e, a, G, rank, O)
    modifies e`ring, e`len, e.Nodes(), e.counters
    ensures Ready(e, a, G, rank, O) && e.Nodes() <= old(e.Nodes()) && a.Nodes() == old(a.Nodes())
    ensures a.Contents() == old(a.Contents()) && KeysOf(G) == old(KeysOf(G))
    ensures x == if old(e.Contents()) == [] then None else Some(old(e.Contents())[0])
    ensures x != None ==> e.Contents() == old(e.Contents())[1..] && Covered(G, x.value)
  {
    e.Apart(G);
    e.counters.NotAContainer(G);
    var elem := PopFirst(e, a, G, O);
    TidyKept(G);
    x := if elem == null then None else Some(elem.value);
  }

  lemma JoinOrdered(G: Graph, rank: map<StackItem, nat>, K: Graph, rank1: map<StackItem, nat>)
    requires ClonedInto(G, rank, K, rank1)
    ensures ClonesJoin(G, K, rank1)
  {
    forall c | c in K && c !in G ensures c in rank1 { assert c in K.Keys; }
    forall c: StackItem, f: StackItem | c in K && c !in G && f in K[c] && f.Struct?
      ensures f in rank1 && rank1[f] < rank1[c]
    {
      assert Covers(K, K[c]);
      assert c.Struct?;
    }
  }

  lemma StoredSomehow(G: Graph, rank: map<StackItem, nat>, K: Graph, item: StackItem, val: StackItem)
    returns (rank1: map<StackItem, nat>)
    requires exists rank1 :: StoredAs(G, rank, K, rank1, item, val)
    ensures ClonesJoin(G, K, rank1) && KeptFor(G, K, rank1, item, val)
  {
    rank1 :| StoredAs(G, rank, K, rank1, item, val);
    JoinOrdered(G, rank, K, rank1);
  }

  ghost predicate MapsDistinct(G: Graph)
    requires AllContainers(G)
    reads Objects(G)
  {
    forall c {:trigger c in G} :: c in G && c.Map? ==> (assert c.Obj() in Objects(G); DistinctKeys(c.m.value))
  }

  lemma TidyIsDistinct(G: Graph)
    requires AllContainers(G) && Tidy(G)
    ensures MapsDistinct(G)
  {
    forall c | c in G && c.Map? ensures DistinctKeys(c.m.value) { assert InOrder(c, G[c]); }
  }

  /** One map at most has changed, and its keys are distinct. */
  twostate lemma MapWritten(p: (Graph, StackItem))
    requires AllContainers(p.0) && old(Tidy(p.0))
    requires forall o :: o in Objects(p.0) ==> allocated(o) && old(allocated(o))
    requires forall c :: c in p.0 && c.Map? && c != p.1 ==> c.m.value == old(c.m.value)
    requires p.1.Map? ==> DistinctKeys(p.1.m.value)
    ensures MapsDistinct(p.0)
    ensures KeysOf(p.0) ==
            if p.1.Map? && p.1 in p.0 then old(KeysOf(p.0))[p.1 := KeyList(p.1.m.value)] else old(KeysOf(p.0))
  {
    forall c | c in p.0 && c.Map? ensures DistinctKeys(c.m.value) {
      assert c.Obj() in Objects(p.0) && old(InOrder(c, p.0[c]));
    }
  }

  /** After a write that shows in H the maps are in order: clones are none. */
  lemma TidyWritten(G: Graph, K: Graph, order: map<StackItem, nat>, H: Graph, t: StackItem)
    requires AllContainers(G) && AllContainers(H) && MapsDistinct(G) && Shows(H)
    requires ClonesJoin(G, K, order) && H.Keys <= K.Keys + {t}
    requires t.Map? ==> DistinctKeys(t.m.value)
    ensures Tidy(H)
  {
    forall c | c in H ensures c.IsContainer() && InOrder(c, H[c]) {
      assert c.IsContainer() && c.Children() == H[c];
      if c.Map? && c != t {
        assert c in K.Keys && c in G;
        assert c.Obj() in Objects(G);
      }
    }
  }

  /** Clones are no maps. */
  lemma TidyJoined(G: Graph, K: Graph, order: map<StackItem, nat>, H: Graph)
    requires AllContainers(G) && AllContainers(H) && MapsDistinct(G) && Shows(H)
    requires ClonesJoin(G, K, order) && H.Keys == K.Keys
    ensures Tidy(H) && KeysOf(H) == KeysOf(G)
  {
    forall c | c in H && c.Map? ensures c in G { assert c in K.Keys; }
    forall c | c in H ensures c.IsContainer() && InOrder(c, H[c]) {
      assert c.IsContainer() && c.Children() == H[c];
      if c.Map? { assert c.Obj() in Objects(G); }
    }
    KeysJoin(G, K, order, H);
  }

  lemma KeysJoin(G: Graph, K: Graph, order: map<StackItem, nat>, H: Graph)
    requires AllContainers(G) && AllContainers(H) && ClonesJoin(G, K, order) && H.Keys == K.Keys
    ensures KeysOf(H) == KeysOf(G)
  {
    forall c | c in G.Keys + H.Keys && c.Map? ensures c in G && c in H {
      if c in G { assert c in K; }
    }
    SameMaps(G, H);
  }

  /** A write into one container and the counters leaves the rings alone. */
  twostate lemma RingsKept(p: (Stack, Stack, StackItem))
    requires old(p.0.Valid() && p.1.Valid() && p.0.counters as object != p.1 && p.1.counters as object != p.0)
    requires unchanged(p.0) && unchanged(p.1)
    requires forall i :: 0 <= i < |p.0.ring| ==> unchanged(p.0.ring[i])
    requires forall i :: 0 <= i < |p.1.ring| ==> unchanged(p.1.ring[i])
    ensures p.0.Valid() && p.1.Valid() && Both(p.0, p.1) == old(Both(p.0, p.1))
    ensures p.0.Nodes() == old(p.0.Nodes()) && p.1.Nodes() == old(p.1.Nodes())
  {
    p.0.Kept();
    p.1.Kept();
  }

  /** APPEND on the heap and the counters, for a container that is live. */
  method AppendLive(counters: Counters, t: StackItem, item: StackItem, ghost G: Graph, ghost rank: map<StackItem, nat>,
                    ghost R: multiset<StackItem>)
    returns (ok: bool, ghost ev: Event, ghost K: Graph, ghost order: map<StackItem, nat>, ghost H: Graph,
             ghost rank': map<StackItem, nat>)
    requires Ranked(G, rank) && counters.Audited(G, R) && Covered(G, t) && Covered(G, item)
    requires t.IsContainer() ==> t in counters.itemCount
    modifies counters, if t.IsContainer() then {t.Obj()} else {}
    ensures Ranked(H, rank') && counters.Audited(H, R) && fresh(Objects(H) - Objects(G))
    ensures ClonesJoin(G, K, order) && H.Keys == K.Keys && (t.Map? ==> t.m.value == old(t.m.value))
    ensures ok <==> IsList(t) && |SlotsAt(G, t)| < MAX_ARRAY_SIZE
    ensures ok ==> Stores(G, ev, t, item) && H == Written(ev.w) && ev.w.s == G[t] + [ev.val]
  {
    var val;
    ok, val, K, H, rank' := Append(counters, t, item, G, rank, R);
    order := StoredSomehow(G, rank, K, item, val);
    ev := if ok then Wrote(Write(K, order, t, G[t] + [val]), val) else Quiet;
  }

  /** APPEND on a container that the stacks reach; the keys are in the table N. */
  method AppendReached(counters: Counters, t: StackItem, item: StackItem, ghost G: Graph,
                       ghost rank: map<StackItem, nat>, ghost R: multiset<StackItem>, ghost N: KeyTable)
    returns (ok: bool, ghost ev: Event, ghost K: Graph, ghost order: map<StackItem, nat>, ghost H: Graph,
             ghost rank': map<StackItem, nat>)
    requires Ranked(G, rank) && counters.Audited(G, R) && Covered(G, item) && N == KeysOf(G)
    requires t.IsContainer() ==> t in G && InOrder(t, G[t]) && Reachable(G, R, t)
    modifies counters, if t.IsContainer() then {t.Obj()} else {}
    ensures Ranked(H, rank') && counters.Audited(H, R) && fresh(Objects(H) - Objects(G))
    ensures ClonesJoin(G, K, order) && H.Keys == K.Keys
    ensures ok <==> IsList(t) && |SlotsAt(G, t)| < MAX_ARRAY_SIZE
    ensures ok ==> Stores(G, ev, t, item) && H == Written(ev.w) && ev.w.s == G[t] + [ev.val]
    ensures t.Map? ==> DistinctKeys(t.m.value) && N[t := KeyList(t.m.value)] == N
  {
    if t.IsContainer() { ReachableIsLive(G, counters.itemCount, counters.size, R, t); }
    ok, ev, K, order, H, rank' := AppendLive(counters, t, item, G, rank, R);
    if t.Map? { SameEntry(N, t, KeyList(t.m.value)); }
  }

  /** The same, with what it does to the keys of maps. */
  method AppendTabled(counters: Counters, t: StackItem, item: StackItem, ghost G: Graph,
                      ghost rank: map<StackItem, nat>, ghost R: multiset<StackItem>, ghost N: KeyTable)
    returns (ok: bool, ghost ev: Event, ghost K: Graph, ghost order: map<StackItem, nat>, ghost H: Graph,
             ghost rank': map<StackItem, nat>)
    requires Ranked(G, rank) && counters.Audited(G, R) && Covered(G, item) && N == KeysOf(G)
    requires Tidy(G) && Covered(G, t) && (t in G ==> Reachable(G, R, t))
    modifies counters, if t.IsContainer() then {t.Obj()} else {}
    ensures Ranked(H, rank') && counters.Audited(H, R) && fresh(Objects(H) - Objects(G))
    ensures ClonesJoin(G, K, order) && H.Keys == K.Keys
    ensures ok <==> IsList(t) && |SlotsAt(G, t)| < MAX_ARRAY_SIZE
    ensures ok ==> Stores(G, ev, t, item) && H == Written(ev.w) && ev.w.s == G[t] + [ev.val]
    ensures MapsDistinct(G) && KeysOf(G) == N
  {
    TidyAt(G, t);
    ok, ev, K, order, H, rank' := AppendReached(counters, t, item, G, rank, R, N);
    MapWritten((G, t));
  }

  /** APPEND on the heap and the counters, for a container that is held. */
  method AppendHeld(counters: Counters, t: StackItem, item: StackItem, ghost G: Graph, ghost rank: map<StackItem, nat>,
                    ghost R: multiset<StackItem>)
    returns (ok: bool, ghost ev: Event, ghost H: Graph, ghost rank': map<StackItem, nat>)
    requires Ranked(G, rank) && counters.Audited(G, R) && Tidy(G) && Covered(G, t) && Covered(G, item)
    requires t in G ==> Reachable(G, R, t)
    modifies counters, if t.IsContainer() then {t.Obj()} else {}
    ensures Ranked(H, rank') && counters.Audited(H, R) && Tidy(H)
    ensures G.Keys <= H.Keys && fresh(Objects(H) - Objects(G)) && KeysOf(H) == old(KeysOf(G))
    ensures ok <==> IsList(t) && |SlotsAt(G, t)| < MAX_ARRAY_SIZE
    ensures ok ==> Stores(G, ev, t, item) && H == Written(ev.w) && ev.w.s == G[t] + [ev.val]
  {
    ghost var K, order;
    ok, ev, K, order, H, rank' := AppendTabled(counters, t, item, G, rank, R, KeysOf(G));
    TidyJoined(G, K, order, H);
  }

  lemma SameEntry(N: KeyTable, t: StackItem, ks: seq<bytes>)
    requires t in N && N[t] == ks
    ensures N[t := ks] == N
  {
  }

  lemma TidyAt(G: Graph, t: StackItem)
    requires AllContainers(G) && Tidy(G) && Covered(G, t)
    ensures t.IsContainer() ==> t in G && InOrder(t, G[t])
  {
  }

  /** From a container that is held a slot can be taken out. */
  lemma HeldLetsGo(G: Graph, t: Tally, R: multiset<StackItem>, c: StackItem, key: StackItem)
    requires Exact(G, t.itemCount, t.size, R) && (c.IsContainer() ==> c in G && InOrder(c, G[c]) && Reachable(G, R, c))
    ensures LetsGo(G, t, c, key) && (c.IsContainer() ==> c in t.itemCount)
  {
    if c.IsContainer() {
      ReachableIsLive(G, t.itemCount, t.size, R, c);
      if IsValidMapKey(key) && SlotOf(c, G[c], key) != None {
        var k := SlotOf(c, G[c], key).value;
        ReachableIsHeld(G, t, R, c, k);
        EndsIfHeld(G, t, R, c, k);
      }
    }
  }

  /** The table of keys says what the heap says. */
  lemma TableShows(G: Graph, t: StackItem, key: StackItem)
    requires AllContainers(G) && t.IsContainer() && t in G && InOrder(t, G[t])
    ensures t.Map? ==> KeysAt(KeysOf(G), t) == KeyList(t.m.value)
    ensures IsValidMapKey(key) ==> SlotOfKey(G, KeysOf(G), t, key) == SlotOf(t, G[t], key)
    ensures CanPut(G, KeysOf(G), t, key) <==> CanSet(t, G[t], key)
  {
    if t.Map? && IsValidMapKey(key) { SamePlace(t.m.value, KeyBytes(key)); }
  }

  /** A map whose pairs have changed as SETITEM or REMOVE change them. */
  lemma TablePut(N: KeyTable, t: StackItem, key: StackItem, val: StackItem, es: seq<MapElement>)
    requires t.Map? && t in N && N[t] == KeyList(es) && ValidKeys(es)
    ensures N[t := KeyList(es)] == N
    ensures IsValidMapKey(key) ==> N[t := KeyList(Filed(es, key, val))] == KeysPut(N, t, key)
    ensures IsValidMapKey(key) ==> N[t := KeyList(Unfiled(es, KeyBytes(key)))] == KeysTaken(N, t, key)
  {
    if IsValidMapKey(key) {
      KeysOfFiled(es, key, val);
      KeysOfUnfiled(es, KeyBytes(key));
    }
  }

  lemma SettingStores(G: Graph, K: Graph, order: map<StackItem, nat>, t: StackItem, k: Option<nat>, item: StackItem,
                      val: StackItem)
    returns (ev: Event)
    requires ClonesJoin(G, K, order) && t in G && t.IsContainer() && (k != None ==> k.value < |G[t]|)
    requires KeptFor(G, K, order, item, val)
    ensures Stores(G, ev, t, item) && ev.val == val && ev.w.s == Applied(Setting(k, val), G[t])
    ensures Written(ev.w) == K[t := Applied(Setting(k, val), G[t])]
  {
    ev := Wrote(Write(K, order, t, Applied(Setting(k, val), G[t])), val);
  }

  /** SETITEM on a container that is live and lets the old value go. */
  method SetLive(counters: Counters, t: StackItem, key: StackItem, item: StackItem, ghost G: Graph,
                 ghost rank: map<StackItem, nat>, ghost R: multiset<StackItem>)
    returns (ok: bool, ghost ev: Event, ghost K: Graph, ghost order: map<StackItem, nat>, ghost H: Graph,
             ghost rank': map<StackItem, nat>)
    requires Ranked(G, rank) && counters.Audited(G, R) && Covered(G, item)
    requires (t.IsContainer() ==> t in counters.itemCount && t in G && InOrder(t, G[t]))
    requires LetsGo(G, counters.Now(), t, key)
    modifies counters, if t.IsContainer() then {t.Obj()} else {}
    ensures Ranked(H, rank') && counters.Audited(H, R) && fresh(Objects(H) - Objects(G))
    ensures ClonesJoin(G, K, order) && H.Keys == K.Keys
    ensures ok <==> t.IsContainer() && old(CanSet(t, G[t], key))
    ensures ok ==> Stores(G, ev, t, item) && H == Written(ev.w)
    ensures ok ==> ev.w.s == Applied(Setting(old(SlotOf(t, G[t], key)), ev.val), G[t])
    ensures t.Map? ==> DistinctKeys(t.m.value)
    ensures t.Map? ==> t.m.value == if ok then Filed(old(t.m.value), key, ev.val) else old(t.m.value)
  {
    ghost var k: Option<nat> := None;
    if t.IsContainer() && IsValidMapKey(key) { k := SlotOf(t, G[t], key); }
    var val;
    ok, val, K, H, rank' := SetItem(counters, t, key, item, G, rank, R);
    order, ev := map[], Quiet;
    if IsValidMapKey(key) { order := StoredSomehow(G, rank, K, item, val); }
    if ok {
      ev := SettingStores(G, K, order, t, k, item, val);
    }
  }

  /** SETITEM on a container that the stacks reach; the keys are in the table N. */
  method SetReached(counters: Counters, t: StackItem, key: StackItem, item: StackItem, ghost G: Graph,
                    ghost rank: map<StackItem, nat>, ghost R: multiset<StackItem>, ghost N: KeyTable)
    returns (ok: bool, ghost ev: Event, ghost K: Graph, ghost order: map<StackItem, nat>, ghost H: Graph,
             ghost rank': map<StackItem, nat>)
    requires Ranked(G, rank) && counters.Audited(G, R) && Covered(G, item) && N == KeysOf(G)
    requires t.IsContainer() ==> t in G && InOrder(t, G[t]) && Reachable(G, R, t)
    modifies counters, if t.IsContainer() then {t.Obj()} else {}
    ensures Ranked(H, rank') && counters.Audited(H, R) && fresh(Objects(H) - Objects(G))
    ensures ClonesJoin(G, K, order) && H.Keys == K.Keys
    ensures ok <==> CanPut(G, N, t, key)
    ensures ok ==> Stores(G, ev, t, item) && H == Written(ev.w)
    ensures ok ==> ev.w.s == SlotsPut(G, N, t, key, ev.val)
    ensures t.Map? ==> DistinctKeys(t.m.value) && N[t := KeyList(t.m.value)] == if ok then KeysPut(N, t, key) else N
  {
    HeldLetsGo(G, counters.Now(), R, t, key);
    ghost var es: seq<MapElement> := if t.Map? then t.m.value else [];
    if t.IsContainer() { TableShows(G, t, key); }
    ok, ev, K, order, H, rank' := SetLive(counters, t, key, item, G, rank, R);
    if t.Map? { TablePut(N, t, key, if ok then ev.val else item, es); }
  }

  /** The same, with what it does to the keys of maps. */
  method SetTabled(counters: Counters, t: StackItem, key: StackItem, item: StackItem, ghost G: Graph,
                   ghost rank: map<StackItem, nat>, ghost R: multiset<StackItem>, ghost N: KeyTable)
    returns (ok: bool, ghost ev: Event, ghost K: Graph, ghost order: map<StackItem, nat>, ghost H: Graph,
             ghost rank': map<StackItem, nat>)
    requires Ranked(G, rank) && counters.Audited(G, R) && Covered(G, item) && N == KeysOf(G)
    requires Tidy(G) && Covered(G, t) && (t in G ==> Reachable(G, R, t))
    modifies counters, if t.IsContainer() then {t.Obj()} else {}
    ensures Ranked(H, rank') && counters.Audited(H, R) && fresh(Objects(H) - Objects(G))
    ensures ClonesJoin(G, K, order) && H.Keys == K.Keys
    ensures ok <==> CanPut(G, N, t, key)
    ensures ok ==> Stores(G, ev, t, item) && H == Written(ev.w)
    ensures ok ==> ev.w.s == SlotsPut(G, N, t, key, ev.val)
    ensures MapsDistinct(G) && KeysOf(G) == if ok then KeysPut(N, t, key) else N
  {
    TidyAt(G, t);
    ok, ev, K, order, H, rank' := SetReached(counters, t, key, item, G, rank, R, N);
    MapWritten((G, t));
  }

  /** SETITEM on the heap and the counters, for a container that is held. */
  method SetHeld(counters: Counters, t: StackItem, key: StackItem, item: StackItem, ghost G: Graph,
                 ghost rank: map<StackItem, nat>, ghost R: multiset<StackItem>, ghost N: KeyTable)
    returns (ok: bool, ghost ev: Event, ghost H: Graph, ghost rank': map<StackItem, nat>)
    requires Ranked(G, rank) && counters.Audited(G, R) && Tidy(G) && Covered(G, t) && Covered(G, item)
    requires N == KeysOf(G) && (t in G ==> Reachable(G, R, t))
    modifies counters, if t.IsContainer() then {t.Obj()} else {}
    ensures Ranked(H, rank') && counters.Audited(H, R) && Tidy(H)
    ensures G.Keys <= H.Keys && fresh(Objects(H) - Objects(G))
    ensures ok <==> CanPut(G, N, t, key)
    ensures KeysOf(H) == if ok then KeysPut(N, t, key) else N
    ensures ok ==> Stores(G, ev, t, item) && H == Written(ev.w)
    ensures ok ==> ev.w.s == SlotsPut(G, N, t, key, ev.val)
  {
    ghost var K, order;
    ok, ev, K, order, H, rank' := SetTabled(counters, t, key, item, G, rank, R, N);
    TidyJoined(G, K, order, H);
  }

  lemma RemovalEvent(G: Graph, t: StackItem, k: Option<nat>) returns (ev: Event)
    requires t in G && (k != None ==> k.value < |G[t]|)
    ensures HeapAfter(G, ev) == if k == None then G else G[t := Removed(G[t], k.value)]
    ensures match k
            case None => ev.Quiet?
            case Some(n) => ev.Wrote? && ev.w.K == G && ev.w.c == t && ev.w.s == Removed(G[t], n)
  {
    ev := if k == None then Quiet else Wrote(Write(G, map[], t, Removed(G[t], k.value)), Boolean(false));
  }

  lemma NothingJoins(G: Graph)
    requires Closed(G)
    ensures ClonesJoin(G, G, map[])
  {
  }

  /** REMOVE on a container that the stacks reach. */
  method RemoveLive(counters: Counters, t: StackItem, key: StackItem, ghost G: Graph, ghost rank: map<StackItem, nat>,
                    ghost R: multiset<StackItem>)
    returns (ok: bool, ghost H: Graph)
    requires Ranked(G, rank) && counters.Audited(G, R)
    requires t.IsContainer() ==> t in G && InOrder(t, G[t]) && Reachable(G, R, t)
    modifies counters, if t.IsContainer() then {t.Obj()} else {}
    ensures Ranked(H, rank) && counters.Audited(H, R)
    ensures ok <==> IsValidMapKey(key) && t.IsContainer() && (IsList(t) ==> 0 <= IndexOf(key) < |G[t]|)
    ensures t.Map? ==> DistinctKeys(t.m.value)
    ensures t.Map? ==> t.m.value == if ok then Unfiled(old(t.m.value), KeyBytes(key)) else old(t.m.value)
    ensures H == if ok && old(SlotOf(t, G[t], key)) != None
                 then G[t := Removed(G[t], old(SlotOf(t, G[t], key)).value)] else G
  {
    HeldLetsGo(G, counters.Now(), R, t, key);
    ok, H := Remove(counters, t, key, G, rank, R);
  }

  /** The same; the keys are in the table N. */
  method RemoveReached(counters: Counters, t: StackItem, key: StackItem, ghost G: Graph,
                       ghost rank: map<StackItem, nat>, ghost R: multiset<StackItem>, ghost N: KeyTable)
    returns (ok: bool, ghost ev: Event, ghost H: Graph)
    requires Ranked(G, rank) && counters.Audited(G, R) && N == KeysOf(G)
    requires t.IsContainer() ==> t in G && InOrder(t, G[t]) && Reachable(G, R, t)
    modifies counters, if t.IsContainer() then {t.Obj()} else {}
    ensures Ranked(H, rank) && counters.Audited(H, R) && G.Keys == H.Keys
    ensures ok <==> CanTake(G, N, t, key)
    ensures if ok then Removes(G, N, t, key, ev) && H == HeapAfter(G, ev) else H == G
    ensures t.Map? ==> DistinctKeys(t.m.value) && N[t := KeyList(t.m.value)] == if ok then KeysTaken(N, t, key) else N
  {
    ghost var es: seq<MapElement> := if t.Map? then t.m.value else [];
    if t.IsContainer() { TableShows(G, t, key); }
    ok, H := RemoveLive(counters, t, key, G, rank, R);
    if t.Map? { TablePut(N, t, key, key, es); }
    ev := Quiet;
    if ok { ev := RemovalEvent(G, t, SlotOfKey(G, N, t, key)); }
  }

  /** The same, with what it does to the keys of maps. */
  method RemoveTabled(counters: Counters, t: StackItem, key: StackItem, ghost G: Graph,
                      ghost rank: map<StackItem, nat>, ghost R: multiset<StackItem>, ghost N: KeyTable)
    returns (ok: bool, ghost ev: Event, ghost H: Graph)
    requires Ranked(G, rank) && counters.Audited(G, R) && N == KeysOf(G)
    requires Tidy(G) && Covered(G, t) && (t in G ==> Reachable(G, R, t))
    modifies counters, if t.IsContainer() then {t.Obj()} else {}
    ensures Ranked(H, rank) && counters.Audited(H, R) && G.Keys == H.Keys
    ensures ok <==> CanTake(G, N, t, key)
    ensures if ok then Removes(G, N, t, key, ev) && H == HeapAfter(G, ev) else H == G
    ensures MapsDistinct(G) && KeysOf(G) == if ok then KeysTaken(N, t, key) else N
  {
    TidyAt(G, t);
    ok, ev, H := RemoveReached(counters, t, key, G, rank, R, N);
    MapWritten((G, t));
  }

  /** REMOVE on the heap and the counters, for a container that is held. */
  method RemoveHeld(counters: Counters, t: StackItem, key: StackItem, ghost G: Graph, ghost rank: map<StackItem, nat>,
                    ghost R: multiset<StackItem>, ghost N: KeyTable)
    returns (ok: bool, ghost ev: Event, ghost H: Graph)
    requires Ranked(G, rank) && counters.Audited(G, R) && Tidy(G) && Covered(G, t)
    requires N == KeysOf(G) && (t in G ==> Reachable(G, R, t))
    modifies counters, if t.IsContainer() then {t.Obj()} else {}
    ensures Ranked(H, rank) && counters.Audited(H, R) && Tidy(H) && G.Keys == H.Keys
    ensures ok <==> CanTake(G, N, t, key)
    ensures KeysOf(H) == if ok then KeysTaken(N, t, key) else N
    ensures if ok then Removes(G, N, t, key, ev) && H == HeapAfter(G, ev) else H == G
  {
    ok, ev, H := RemoveTabled(counters, t, key, G, rank, R, N);
    NothingJoins(G);
    TidyJoined(G, G, map[], H);
  }

  method AppendTo(e: Stack, a: Stack, t: StackItem, item: StackItem, ghost G: Graph, ghost rank: map<StackItem, nat>,
                  ghost O: multiset<StackItem>)
    returns (ok: bool, ghost ev: Event, ghost H: Graph, ghost rank': map<StackItem, nat>, ghost made: set<object>)
    requires Ready(e, a, G, rank, O) && Covered(G, t) && Covered(G, item)
    requires t in G ==> Reachable(G, SlotsOn(O, Both(e, a)), t)
    modifies e.counters, if t.IsContainer() then {t.Obj()} else {}
    ensures Ready(e, a, H, rank', O) && Both(e, a) == old(Both(e, a))
    ensures e.Nodes() == old(e.Nodes()) && a.Nodes() == old(a.Nodes())
    ensures G.Keys <= H.Keys && fresh(made) && Objects(H) <= Objects(G) + made && KeysOf(H) == old(KeysOf(G))
    ensures ok <==> IsList(t) && |SlotsAt(G, t)| < MAX_ARRAY_SIZE
    ensures ok ==> Stores(G, ev, t, item) && H == Written(ev.w) && ev.w.s == G[t] + [ev.val]
  {
    e.Apart(G);
    a.Apart(G);
    ok, ev, H, rank' := AppendHeld(e.counters, t, item, G, rank, SlotsOn(O, Both(e, a)));
    made := Objects(H) - Objects(G);
    RingsKept((e, a, t));
  }

  method SetOn(e: Stack, a: Stack, t: StackItem, key: StackItem, item: StackItem, ghost G: Graph,
               ghost rank: map<StackItem, nat>, ghost O: multiset<StackItem>)
    returns (ok: bool, ghost ev: Event, ghost H: Graph, ghost rank': map<StackItem, nat>, ghost made: set<object>)
    requires Ready(e, a, G, rank, O) && Covered(G, t) && Covered(G, item)
    requires t in G ==> Reachable(G, SlotsOn(O, Both(e, a)), t)
    modifies e.counters, if t.IsContainer() then {t.Obj()} else {}
    ensures Ready(e, a, H, rank', O) && Both(e, a) == old(Both(e, a))
    ensures e.Nodes() == old(e.Nodes()) && a.Nodes() == old(a.Nodes())
    ensures G.Keys <= H.Keys && fresh(made) && Objects(H) <= Objects(G) + made
    ensures ok <==> CanPut(G, old(KeysOf(G)), t, key)
    ensures KeysOf(H) == if ok then KeysPut(old(KeysOf(G)), t, key) else old(KeysOf(G))
    ensures ok ==> Stores(G, ev, t, item) && H == Written(ev.w)
    ensures ok ==> ev.w.s == SlotsPut(G, old(KeysOf(G)), t, key, ev.val)
  {
    e.Apart(G);
    a.Apart(G);
    ok, ev, H, rank' := SetHeld(e.counters, t, key, item, G, rank, SlotsOn(O, Both(e, a)), KeysOf(G));
    made := Objects(H) - Objects(G);
    RingsKept((e, a, t));
  }

  method RemoveFrom(e: Stack, a: Stack, t: StackItem, key: StackItem, ghost G: Graph, ghost rank: map<StackItem, nat>,
                    ghost O: multiset<StackItem>)
    returns (ok: bool, ghost ev: Event, ghost H: Graph)
    requires Ready(e, a, G, rank, O) && Covered(G, t)
    requires t in G ==> Reachable(G, SlotsOn(O, Both(e, a)), t)
    modifies e.counters, if t.IsContainer() then {t.Obj()} else {}
    ensures Ready(e, a, H, rank, O) && Both(e, a) == old(Both(e, a))
    ensures e.Nodes() == old(e.Nodes()) && a.Nodes() == old(a.Nodes()) && G.Keys == H.Keys
    ensures ok <==> CanTake(G, old(KeysOf(G)), t, key)
    ensures KeysOf(H) == if ok then KeysTaken(old(KeysOf(G)), t, key) else old(KeysOf(G))
    ensures if ok then Removes(G, old(KeysOf(G)), t, key, ev) && H == HeapAfter(G, ev) else H == G
  {
    e.Apart(G);
    a.Apart(G);
    ok, ev, H := RemoveHeld(e.counters, t, key, G, rank, SlotsOn(O, Both(e, a)), KeysOf(G));
    RingsKept((e, a, t));
  }

  // ----- with their operands from the stack

  lemma TailOfTail(s: seq<StackItem>)
    ensures |s| >= 2 ==> s[1..][0] == s[1] && s[1..][1..] == s[2..]
    ensures |s| >= 3 ==> s[2..][0] == s[2] && s[2..][1..] == s[3..]
  {
  }

  /** The topmost items, unless there are too few. */
  method PopTwo(e: Stack, a: Stack, ghost G: Graph, ghost rank: map<StackItem, nat>, ghost O: multiset<StackItem>)
    returns (x: Option<(StackItem, StackItem)>)
    requires Ready(e, a, G, rank, O)
    modifies e`ring, e`len, e.Nodes(), e.counters
    ensures Ready(e, a, G, rank, O) && e.Nodes() <= old(e.Nodes()) && a.Nodes() == old(a.Nodes())
    ensures a.Contents() == old(a.Contents()) && KeysOf(G) == old(KeysOf(G))
    ensures x == None <==> |old(e.Contents())| < 2
    ensures x != None ==> x.value == (old(e.Contents())[0], old(e.Contents())[1])
    ensures x != None ==> e.Contents() == old(e.Contents())[2..] && Covered(G, x.value.0) && Covered(G, x.value.1)
  {
    x := None;
    TailOfTail(e.Contents());
    var first := PopValue(e, a, G, rank, O);
    if first != None {
      var second := PopValue(e, a, G, rank, O);
      if second != None { x := Some((first.value, second.value)); }
    }
  }

  method PopThree(e: Stack, a: Stack, ghost G: Graph, ghost rank: map<StackItem, nat>, ghost O: multiset<StackItem>)
    returns (x: Option<(StackItem, StackItem, StackItem)>)
    requires Ready(e, a, G, rank, O)
    modifies e`ring, e`len, e.Nodes(), e.counters
    ensures Ready(e, a, G, rank, O) && e.Nodes() <= old(e.Nodes()) && a.Nodes() == old(a.Nodes())
    ensures a.Contents() == old(a.Contents()) && KeysOf(G) == old(KeysOf(G))
    ensures x == None <==> |old(e.Contents())| < 3
    ensures x != None ==> e.Contents() == old(e.Contents())[3..]
    ensures x != None ==> x.value == (old(e.Contents())[0], old(e.Contents())[1], old(e.Contents())[2])
    ensures x != None ==> Covered(G, x.value.0) && Covered(G, x.value.1) && Covered(G, x.value.2)
  {
    x := None;
    TailOfTail(e.Contents());
    var two := PopTwo(e, a, G, rank, O);
    if two != None {
      var third := PopValue(e, a, G, rank, O);
      if third != None { x := Some((two.value.0, two.value.1, third.value)); }
    }
  }

  /** How many operands the opcode takes from the stack at least. */
  function Operands(i: ObjInstr): nat {
    if i.SetItemAt? then 3 else if i.AppendItem? || i.RemoveItem? then 2
    else if i.OnStacks? || i.NewMapping? then 0 else 1
  }

  lemma TooFew(i: ObjInstr, s: Snap)
    requires |s.e| < Operands(i)
    ensures !Goes(i, s)
  {
  }

  lemma AppendDone(s: Snap, ok: bool, ev: Event, s': Snap)
    requires |s.e| >= 2 && (ok <==> IsList(s.e[1]) && |SlotsAt(s.G, s.e[1])| < MAX_ARRAY_SIZE)
    requires ok ==> Stores(s.G, ev, s.e[1], s.e[0]) && ev.w.s == s.G[s.e[1]] + [ev.val]
    requires ok ==> s' == Snap(Written(ev.w), s.keys, s.e[2..], s.a)
    ensures ok <==> Goes(AppendItem, s)
    ensures ok ==> Does(AppendItem, s, ev, s')
  {
  }

  lemma SetDone(s: Snap, ok: bool, ev: Event, s': Snap)
    requires |s.e| >= 3 && (ok <==> CanPut(s.G, s.keys, s.e[2], s.e[1]))
    requires ok ==> Stores(s.G, ev, s.e[2], s.e[0])
    requires ok ==> ev.w.s == SlotsPut(s.G, s.keys, s.e[2], s.e[1], ev.val)
    requires ok ==> s' == Snap(Written(ev.w), KeysPut(s.keys, s.e[2], s.e[1]), s.e[3..], s.a)
    ensures ok <==> Goes(SetItemAt, s)
    ensures ok ==> Does(SetItemAt, s, ev, s')
  {
  }

  lemma RemoveDone(s: Snap, ok: bool, ev: Event, s': Snap)
    requires |s.e| >= 2 && (ok <==> CanTake(s.G, s.keys, s.e[1], s.e[0]))
    requires ok ==> Removes(s.G, s.keys, s.e[1], s.e[0], ev)
    requires ok ==> s' == Snap(HeapAfter(s.G, ev), KeysTaken(s.keys, s.e[1], s.e[0]), s.e[2..], s.a)
    ensures ok <==> Goes(RemoveItem, s)
    ensures ok ==> Does(RemoveItem, s, ev, s')
  {
  }

  method DoAppend(e: Stack, a: Stack, ghost G: Graph, ghost rank: map<StackItem, nat>, ghost O: multiset<StackItem>)
    returns (ok: bool, ghost ev: Event, ghost H: Graph, ghost rank': map<StackItem, nat>, ghost made: set<object>)
    requires Ready(e, a, G, rank, O) && TargetHeld(AppendItem, Now(e, a, G), O)
    modifies e`ring, e`len, e.Nodes(), e.counters, Objects(G)
    ensures Ready(e, a, H, rank', O) && e.Nodes() <= old(e.Nodes()) && a.Nodes() == old(a.Nodes())
    ensures G.Keys <= H.Keys && fresh(made) && Objects(H) <= Objects(G) + made
    ensures ok <==> Goes(AppendItem, old(Now(e, a, G)))
    ensures ok ==> Does(AppendItem, old(Now(e, a, G)), ev, Now(e, a, H))
  {
    ghost var s := Now(e, a, G);
    ok, ev, H, rank', made := false, Quiet, G, rank, {};
    var x := PopTwo(e, a, G, rank, O);
    if x == None {
      TooFew(AppendItem, s);
    } else {
      ok, ev, H, rank', made := AppendTo(e, a, x.value.1, x.value.0, G, rank, O);
      AppendDone(s, ok, ev, Now(e, a, H));
    }
  }

  method DoSet(e: Stack, a: Stack, ghost G: Graph, ghost rank: map<StackItem, nat>, ghost O: multiset<StackItem>)
    returns (ok: bool, ghost ev: Event, ghost H: Graph, ghost rank': map<StackItem, nat>, ghost made: set<object>)
    requires Ready(e, a, G, rank, O) && TargetHeld(SetItemAt, Now(e, a, G), O)
    modifies e`ring, e`len, e.Nodes(), e.counters, Objects(G)
    ensures Ready(e, a, H, rank', O) && e.Nodes() <= old(e.Nodes()) && a.Nodes() == old(a.Nodes())
    ensures G.Keys <= H.Keys && fresh(made) && Objects(H) <= Objects(G) + made
    ensures ok <==> Goes(SetItemAt, old(Now(e, a, G)))
    ensures ok ==> Does(SetItemAt, old(Now(e, a, G)), ev, Now(e, a, H))
  {
    ghost var s := Now(e, a, G);
    ok, ev, H, rank', made := false, Quiet, G, rank, {};
    var x := PopThree(e, a, G, rank, O);
    if x == None {
      TooFew(SetItemAt, s);
    } else {
      ok, ev, H, rank', made := SetOn(e, a, x.value.2, x.value.1, x.value.0, G, rank, O);
      SetDone(s, ok, ev, Now(e, a, H));
    }
  }

  method DoRemove(e: Stack, a: Stack, ghost G: Graph, ghost rank: map<StackItem, nat>, ghost O: multiset<StackItem>)
    returns (ok: bool, ghost ev: Event, ghost H: Graph)
    requires Ready(e, a, G, rank, O) && TargetHeld(RemoveItem, Now(e, a, G), O)
    modifies e`ring, e`len, e.Nodes(), e.counters, Objects(G)
    ensures Ready(e, a, H, rank, O) && e.Nodes() <= old(e.Nodes()) && a.Nodes() == old(a.Nodes()) && H.Keys == G.Keys
    ensures ok <==> Goes(RemoveItem, old(Now(e, a, G)))
    ensures ok ==> Does(RemoveItem, old(Now(e, a, G)), ev, Now(e, a, H))
  {
    ghost var s := Now(e, a, G);
    ok, ev, H := false, Quiet, G;
    var x := PopTwo(e, a, G, rank, O);
    if x == None {
      TooFew(RemoveItem, s);
    } else {
      ok, ev, H := RemoveFrom(e, a, x.value.1, x.value.0, G, rank, O);
      RemoveDone(s, ok, ev, Now(e, a, H));
    }
  }

  // ----- the opcodes that make containers

  /** Pushes an item; grown is the element that came to the stack. */
  method PushValue(e: Stack, a: Stack, x: StackItem, ghost G: Graph, ghost rank: map<StackItem, nat>,
                   ghost O: multiset<StackItem>)
    returns (ghost grown: set<Element>)
    requires Ready(e, a, G, rank, O) && Covered(G, x)
    modifies e`ring, e`len, e.Nodes(), e.counters
    ensures Ready(e, a, G, rank, O) && fresh(grown) && e.Nodes() <= old(e.Nodes()) + grown
    ensures a.Nodes() == old(a.Nodes())
    ensures e.Contents() == [x] + old(e.Contents()) && a.Contents() == old(a.Contents()) && KeysOf(G) == old(KeysOf(G))
  {
    e.Apart(G);
    e.counters.NotAContainer(G);
    grown := PushNew(e, a, x, G, O);
    TidyKept(G);
  }

  lemma TidyMade(G: Graph, H: Graph, t: StackItem)
    requires Closed(G) && Tidy(G) && AllContainers(H) && Shows(H) && H.Keys == G.Keys + {t}
    requires t.Map? ==> DistinctKeys(t.m.value)
    ensures Tidy(H) && KeysOf(H) == if t.Map? then KeysOf(G)[t := KeyList(t.m.value)] else KeysOf(G)
  {
    NothingJoins(G);
    TidyIsDistinct(G);
    TidyWritten(G, G, map[], H, t);
    KeysMade(G, H, t);
  }

  lemma KeysMade(G: Graph, H: Graph, t: StackItem)
    requires AllContainers(G) && AllContainers(H) && H.Keys == G.Keys + {t}
    ensures KeysOf(H) == if t.Map? then KeysOf(G)[t := KeyList(t.m.value)] else KeysOf(G)
  {
    forall c | c in H && c.Map? && c != t ensures c in G { assert c in H.Keys; }
    forall c | c in G ensures c in H { assert c in H.Keys; }
  }

  lemma ListAsked(G: Graph, item: StackItem, asStruct: bool, t: StackItem, H: Graph) returns (ev: Event)
    requires Closed(G) && IsList(t) && t.Struct? == asStruct && Covered(G, item)
    requires IsList(item) && item.Struct? == asStruct ==> t == item && H == G
    requires IsList(item) && item.Struct? != asStruct ==> t !in G && H == G[t := G[item]]
    requires !IsList(item) ==> LengthOf(item) != None && t !in G && H == G[t := Falses(LengthOf(item).value)]
    ensures t in H && H == HeapAfter(G, ev) && ListMade(asStruct, G, item, t, ev)
  {
    if IsList(item) && item.Struct? == asStruct {
      ev := Quiet;
    } else {
      if IsList(item) { assert Covers(G, G[item]); }
      ev := Wrote(Write(G, map[], t, H[t]), item);
    }
  }

  lemma ListDone(asStruct: bool, s: Snap, ok: bool, t: StackItem, ev: Event, s': Snap)
    requires s.e != [] && (ok <==> IsList(s.e[0]) || LengthOf(s.e[0]) != None)
    requires ok ==> ListMade(asStruct, s.G, s.e[0], t, ev)
    requires ok ==> s' == Snap(HeapAfter(s.G, ev), s.keys, [t] + s.e[1..], s.a)
    ensures var i := if asStruct then NewStruct else NewArray; (ok <==> Goes(i, s)) && (ok ==> Does(i, s, ev, s'))
  {
  }

  lemma MapDone(s: Snap, ev: Event, s': Snap)
    requires Makes(s.G, ev, []) && ev.w.c.Map?
    requires s' == Snap(HeapAfter(s.G, ev), s.keys[ev.w.c := []], [ev.w.c] + s.e, s.a)
    ensures Does(NewMapping, s, ev, s')
  {
  }

  lemma PackDone(s: Snap, ok: bool, ev: Event, s': Snap)
    requires ok <==> PackCount(s.e) != None
    requires ok ==> Packs(s, ev, s'.e) && s'.G == HeapAfter(s.G, ev) && s'.keys == s.keys && s'.a == s.a
    ensures ok <==> Goes(PackItems, s)
    ensures ok ==> Does(PackItems, s, ev, s')
  {
  }

  lemma ValuesDone(s: Snap, ok: bool, t: StackItem, ev: Event, s': Snap)
    requires s.e != [] && (ok <==> s.e[0].IsContainer())
    requires ok ==> ListsValues(Snap(s.G, map[], [s.e[0]], []), ev, [t])
    requires ok ==> s' == Snap(HeapAfter(s.G, ev), s.keys, [t] + s.e[1..], s.a)
    ensures ok <==> Goes(ValuesOf, s)
    ensures ok ==> Does(ValuesOf, s, ev, s')
  {
  }

  method ListTidy(counters: Counters, item: StackItem, asStruct: bool, ghost G: Graph, ghost rank: map<StackItem, nat>,
                  ghost R: multiset<StackItem>)
    returns (ok: bool, t: StackItem, ghost ev: Event, ghost H: Graph, ghost rank': map<StackItem, nat>)
    requires Ranked(G, rank) && counters.Audited(G, R) && Tidy(G) && Covered(G, item)
    ensures Ranked(H, rank') && counters.Audited(H, R) && Tidy(H) && fresh(Objects(H) - Objects(G))
    ensures G.Keys <= H.Keys && KeysOf(H) == old(KeysOf(G))
    ensures ok <==> IsList(item) || LengthOf(item) != None
    ensures ok ==> t in H && H == HeapAfter(G, ev) && ListMade(asStruct, G, item, t, ev)
  {
    ok, t, H, rank' := NewList(counters, item, asStruct, G, rank, R);
    TidyKept(G);
    ev := Quiet;
    if ok {
      ev := ListAsked(G, item, asStruct, t, H);
      if H != G { TidyMade(G, H, t); }
    }
  }

  /** The list that NEWARRAY or NEWSTRUCT pushes for the item. */
  method ListFor(e: Stack, a: Stack, item: StackItem, asStruct: bool, ghost G: Graph, ghost rank: map<StackItem, nat>,
                 ghost O: multiset<StackItem>)
    returns (ok: bool, t: StackItem, ghost ev: Event, ghost H: Graph, ghost rank': map<StackItem, nat>,
             ghost made: set<object>)
    requires Ready(e, a, G, rank, O) && Covered(G, item)
    ensures Ready(e, a, H, rank', O) && Both(e, a) == old(Both(e, a))
    ensures e.Nodes() == old(e.Nodes()) && a.Nodes() == old(a.Nodes())
    ensures G.Keys <= H.Keys && fresh(made) && Objects(H) <= Objects(G) + made && KeysOf(H) == old(KeysOf(G))
    ensures ok <==> IsList(item) || LengthOf(item) != None
    ensures ok ==> t in H && H == HeapAfter(G, ev) && ListMade(asStruct, G, item, t, ev)
  {
    ok, t, ev, H, rank' := ListTidy(e.counters, item, asStruct, G, rank, SlotsOn(O, Both(e, a)));
    made := Objects(H) - Objects(G);
    RingsKept((e, a, item));
  }

  method DoList(e: Stack, a: Stack, asStruct: bool, ghost G: Graph, ghost rank: map<StackItem, nat>,
                ghost O: multiset<StackItem>)
    returns (ok: bool, ghost ev: Event, ghost H: Graph, ghost rank': map<StackItem, nat>, ghost made: set<object>,
             ghost grown: set<Element>)
    requires Ready(e, a, G, rank, O)
    modifies e`ring, e`len, e.Nodes(), e.counters
    ensures Ready(e, a, H, rank', O)
    ensures fresh(grown) && e.Nodes() <= old(e.Nodes()) + grown && a.Nodes() == old(a.Nodes())
    ensures G.Keys <= H.Keys && fresh(made) && Objects(H) <= Objects(G) + made
    ensures ok <==> Goes(if asStruct then NewStruct else NewArray, old(Now(e, a, G)))
    ensures ok ==> Does(if asStruct then NewStruct else NewArray, old(Now(e, a, G)), ev, Now(e, a, H))
  {
    ghost var s := Now(e, a, G);
    ok, ev, H, rank', made, grown := false, Quiet, G, rank, {}, {};
    var item := PopValue(e, a, G, rank, O);
    if item == None {
      TooFew(if asStruct then NewStruct else NewArray, s);
    } else {
      var t;
      ok, t, ev, H, rank', made := ListFor(e, a, item.value, asStruct, G, rank, O);
      if ok {
        grown := PushValue(e, a, t, H, rank', O);
      }
      ListDone(asStruct, s, ok, t, ev, Now(e, a, H));
    }
  }

  /** A new map, with the rings as they are. */
  method MapFor(e: Stack, a: Stack, ghost G: Graph, ghost rank: map<StackItem, nat>, ghost O: multiset<StackItem>)
    returns (t: StackItem, ghost H: Graph, ghost rank': map<StackItem, nat>, ghost made: set<object>)
    requires Ready(e, a, G, rank, O)
    ensures Ready(e, a, H, rank', O) && Both(e, a) == old(Both(e, a))
    ensures e.Nodes() == old(e.Nodes()) && a.Nodes() == old(a.Nodes())
    ensures fresh(made) && Objects(H) <= Objects(G) + made
    ensures t.Map? && t !in G && H == G[t := []] && KeysOf(H) == old(KeysOf(G))[t := []]
  {
    t, H, rank' := ObjectOps.NewMap(e.counters, G, rank, SlotsOn(O, Both(e, a)));
    made := Objects(H) - Objects(G);
    RingsKept((e, a, Boolean(false)));
    TidyKept(G);
    TidyMade(G, H, t);
  }

  method DoMap(e: Stack, a: Stack, ghost G: Graph, ghost rank: map<StackItem, nat>, ghost O: multiset<StackItem>)
    returns (ghost ev: Event, ghost H: Graph, ghost rank': map<StackItem, nat>, ghost made: set<object>,
             ghost grown: set<Element>)
    requires Ready(e, a, G, rank, O)
    modifies e`ring, e`len, e.Nodes(), e.counters
    ensures Ready(e, a, H, rank', O)
    ensures fresh(grown) && e.Nodes() <= old(e.Nodes()) + grown && a.Nodes() == old(a.Nodes())
    ensures G.Keys <= H.Keys && fresh(made) && Objects(H) <= Objects(G) + made
    ensures Does(NewMapping, old(Now(e, a, G)), ev, Now(e, a, H))
  {
    ghost var s := Now(e, a, G);
    var t;
    t, H, rank', made := MapFor(e, a, G, rank, O);
    ev := Wrote(Write(G, map[], t, []), t);
    grown := PushValue(e, a, t, H, rank', O);
    MapDone(s, ev, Now(e, a, H));
  }

  /** PACK on one stack; made is the object of the new array. */
  method PackMade(st: Stack, ghost G: Graph, ghost rank: map<StackItem, nat>, ghost O: multiset<StackItem>)
    returns (ok: bool, ghost arr: StackItem, ghost H: Graph, ghost rank': map<StackItem, nat>,
             ghost made: set<object>, ghost grown: set<Element>)
    requires Ranked(G, rank) && Booked(st, G, O)
    modifies st`ring, st`len, st.Nodes(), st.counters
    ensures Ranked(H, rank') && Booked(st, H, O)
    ensures fresh(made) && Objects(H) <= Objects(G) + made
    ensures fresh(grown) && st.Nodes() <= old(st.Nodes()) + grown
    ensures if ok then PackCount(old(st.Contents())) != None else H == G && PackCount(old(st.Contents())) == None
    ensures ok ==> IsPacked(G, old(st.Contents()), arr, H, st.Contents())
  {
    ok, arr, H, rank', grown := Pack(st, G, rank, O);
    made := {};
    if ok {
      made := {arr.Obj()};
      OneObjectMore(G, H, arr);
    }
  }

  method PackOver(e: Stack, a: Stack, ghost G: Graph, ghost rank: map<StackItem, nat>, ghost O: multiset<StackItem>)
    returns (ok: bool, ghost arr: StackItem, ghost H: Graph, ghost rank': map<StackItem, nat>,
             ghost made: set<object>, ghost grown: set<Element>)
    requires Ranked(G, rank) && BookedPair(e, a, G, O)
    modifies e`ring, e`len, e.Nodes(), e.counters
    ensures Ranked(H, rank') && BookedPair(e, a, H, O)
    ensures fresh(grown) && e.Nodes() <= old(e.Nodes()) + grown && a.Nodes() == old(a.Nodes())
    ensures a.Contents() == old(a.Contents()) && fresh(made) && Objects(H) <= Objects(G) + made
    ensures if ok then PackCount(old(e.Contents())) != None else H == G && PackCount(old(e.Contents())) == None
    ensures ok ==> IsPacked(G, old(e.Contents()), arr, H, e.Contents())
  {
    OneOfTwo(O, multiset(e.Contents()), multiset(a.Contents()));
    assert forall i :: 0 <= i < |a.ring| ==> a.ring[i] in a.Nodes();
    ok, arr, H, rank', made, grown := PackMade(e, G, rank, O + multiset(a.Contents()));
    a.Kept();
    OneOfTwo(O, multiset(e.Contents()), multiset(a.Contents()));
  }

  method PackTidy(e: Stack, a: Stack, ghost G: Graph, ghost rank: map<StackItem, nat>, ghost O: multiset<StackItem>)
    returns (ok: bool, ghost arr: StackItem, ghost H: Graph, ghost rank': map<StackItem, nat>,
             ghost made: set<object>, ghost grown: set<Element>)
    requires Ready(e, a, G, rank, O)
    modifies e`ring, e`len, e.Nodes(), e.counters
    ensures Ready(e, a, H, rank', O) && KeysOf(H) == old(KeysOf(G))
    ensures fresh(grown) && e.Nodes() <= old(e.Nodes()) + grown && a.Nodes() == old(a.Nodes())
    ensures a.Contents() == old(a.Contents()) && fresh(made) && Objects(H) <= Objects(G) + made
    ensures if ok then PackCount(old(e.Contents())) != None else H == G && PackCount(old(e.Contents())) == None
    ensures ok ==> IsPacked(G, old(e.Contents()), arr, H, e.Contents())
  {
    e.Apart(G);
    e.counters.NotAContainer(G);
    ok, arr, H, rank', made, grown := PackOver(e, a, G, rank, O);
    TidyKept(G);
    TidyPacked(G, H, arr, ok);
  }

  lemma TidyPacked(G: Graph, H: Graph, arr: StackItem, ok: bool)
    requires Closed(G) && Tidy(G) && AllContainers(H) && Shows(H)
    requires if ok then arr.Array? && H.Keys == G.Keys + {arr} else H == G
    ensures Tidy(H) && KeysOf(H) == KeysOf(G)
  {
    if ok { TidyMade(G, H, arr); }
  }

  lemma OneObjectMore(G: Graph, H: Graph, c: StackItem)
    requires AllContainers(G) && AllContainers(H) && c.IsContainer() && H.Keys == G.Keys + {c}
    ensures Objects(H) == Objects(G) + {c.Obj()}
  {
    forall d | d in H ensures d.Obj() in Objects(G) + {c.Obj()} { assert d in H.Keys; }
    forall d | d in G ensures d.Obj() in Objects(H) { assert d in H.Keys; }
    assert c in H.Keys;
  }

  method DoPack(e: Stack, a: Stack, ghost G: Graph, ghost rank: map<StackItem, nat>, ghost O: multiset<StackItem>)
    returns (ok: bool, ghost ev: Event, ghost H: Graph, ghost rank': map<StackItem, nat>, ghost made: set<object>,
             ghost grown: set<Element>)
    requires Ready(e, a, G, rank, O)
    modifies e`ring, e`len, e.Nodes(), e.counters
    ensures Ready(e, a, H, rank', O)
    ensures fresh(grown) && e.Nodes() <= old(e.Nodes()) + grown && a.Nodes() == old(a.Nodes())
    ensures G.Keys <= H.Keys && fresh(made) && Objects(H) <= Objects(G) + made
    ensures ok <==> Goes(PackItems, old(Now(e, a, G)))
    ensures ok ==> Does(PackItems, old(Now(e, a, G)), ev, Now(e, a, H))
  {
    ghost var s, arr := Now(e, a, G), Boolean(false);
    StackCovered(e, a, G, O);
    ok, arr, H, rank', made, grown := PackTidy(e, a, G, rank, O);
    ev := Quiet;
    if ok { ev := ArrayPacked(s, arr, H); }
    PackDone(s, ok, ev, Now(e, a, H));
  }

  lemma StackCovered(e: Stack, a: Stack, G: Graph, O: multiset<StackItem>)
    requires AllContainers(G) && BookedPair(e, a, G, O)
    ensures Covers(G, e.Contents())
  {
    var s := e.Contents();
    forall x | x in s && x.IsContainer() ensures x in G {
      assert x in multiset(s);
      assert x in O + multiset(e.Contents()) + multiset(a.Contents());
    }
  }

  lemma ArrayPacked(s: Snap, arr: StackItem, H: Graph) returns (ev: Event)
    requires PackCount(s.e) != None && arr.Array? && arr !in s.G && Closed(H)
    requires H == s.G[arr := s.e[1..PackCount(s.e).value + 1]] && Covers(s.G, s.e)
    ensures H == HeapAfter(s.G, ev) && Packs(s, ev, [arr] + s.e[PackCount(s.e).value + 1..])
  {
    ev := Wrote(Write(s.G, map[], arr, s.e[1..PackCount(s.e).value + 1]), arr);
  }

  /** The array that VALUES pushes, with the rings as they are. */
  method ValuesFor(e: Stack, a: Stack, item: StackItem, ghost G: Graph, ghost rank: map<StackItem, nat>,
                   ghost O: multiset<StackItem>)
    returns (ok: bool, t: StackItem, ghost ev: Event, ghost H: Graph, ghost rank': map<StackItem, nat>,
             ghost made: set<object>)
    requires Ready(e, a, G, rank, O) && Covered(G, item)
    ensures Ready(e, a, H, rank', O) && Both(e, a) == old(Both(e, a))
    ensures e.Nodes() == old(e.Nodes()) && a.Nodes() == old(a.Nodes())
    ensures G.Keys <= H.Keys && fresh(made) && Objects(H) <= Objects(G) + made && KeysOf(H) == old(KeysOf(G))
    ensures ok <==> item.IsContainer()
    ensures ok ==> t in H && H == HeapAfter(G, ev) && ListsValues(Snap(G, map[], [item], []), ev, [t])
  {
    ok, t, ev, H, rank' := ValuesTidy(e.counters, item, G, rank, SlotsOn(O, Both(e, a)));
    made := Objects(H) - Objects(G);
    RingsKept((e, a, item));
  }

  method ValuesTidy(counters: Counters, item: StackItem, ghost G: Graph, ghost rank: map<StackItem, nat>,
                    ghost R: multiset<StackItem>)
    returns (ok: bool, t: StackItem, ghost ev: Event, ghost H: Graph, ghost rank': map<StackItem, nat>)
    requires Ranked(G, rank) && counters.Audited(G, R) && Tidy(G) && Covered(G, item)
    ensures Ranked(H, rank') && counters.Audited(H, R) && Tidy(H) && fresh(Objects(H) - Objects(G))
    ensures G.Keys <= H.Keys && KeysOf(H) == old(KeysOf(G)) && (ok <==> item.IsContainer())
    ensures ok ==> t in H && H == HeapAfter(G, ev) && ListsValues(Snap(G, map[], [item], []), ev, [t])
  {
    ghost var K, order;
    ok, t, ev, K, order, H, rank' := ValuesOver(counters, item, G, rank, R);
    TidyKept(G);
    if ok { TidyListed(G, K, order, H, t); }
  }

  method ValuesOver(counters: Counters, item: StackItem, ghost G: Graph, ghost rank: map<StackItem, nat>,
                    ghost R: multiset<StackItem>)
    returns (ok: bool, t: StackItem, ghost ev: Event, ghost K: Graph, ghost order: map<StackItem, nat>, ghost H: Graph,
             ghost rank': map<StackItem, nat>)
    requires Ranked(G, rank) && counters.Audited(G, R) && Covered(G, item)
    ensures Ranked(H, rank') && counters.Audited(H, R) && fresh(Objects(H) - Objects(G))
    ensures G.Keys <= H.Keys && (!ok ==> H == G) && (ok <==> item.IsContainer())
    ensures ok ==> t.Array? && t in H && H.Keys == K.Keys + {t} && ClonesJoin(G, K, order)
    ensures ok ==> H == HeapAfter(G, ev) && ListsValues(Snap(G, map[], [item], []), ev, [t])
  {
    ok, t, K, order, H, rank' := ValuesArray(counters, item, G, rank, R);
    ev := Quiet;
    if ok {
      ev := ValuesListed(G, rank, K, order, item, t, H);
      assert G.Keys <= K.Keys by { forall c | c in G ensures c in K {} }
    }
  }

  lemma TidyListed(G: Graph, K: Graph, order: map<StackItem, nat>, H: Graph, t: StackItem)
    requires Closed(G) && Tidy(G) && AllContainers(H) && Shows(H) && H.Keys == K.Keys + {t}
    requires ClonesJoin(G, K, order) && t.Array?
    ensures Tidy(H) && KeysOf(H) == KeysOf(G)
  {
    TidyIsDistinct(G);
    TidyWritten(G, K, order, H, t);
    KeysJoin(G, K, order, K);
    KeysMade(K, H, t);
  }

  lemma ValuesListed(G: Graph, rank: map<StackItem, nat>, K: Graph, rank1: map<StackItem, nat>, item: StackItem,
                     t: StackItem, H: Graph)
    returns (ev: Event)
    requires ClonedInto(G, rank, K, rank1) && item.IsContainer() && item in G && t.Array? && t !in K && t in H
    requires H == K[t := H[t]]
    requires |H[t]| == |G[item]| && FieldsCloned(G, K, rank1, G[item], H[t])
    ensures ClonesJoin(G, K, rank1) && t in H && H == HeapAfter(G, ev)
    ensures ListsValues(Snap(G, map[], [item], []), ev, [t])
  {
    JoinOrdered(G, rank, K, rank1);
    ev := Wrote(Write(K, rank1, t, H[t]), t);
    assert CopiesOf(G, K, rank1, G[item], H[t]) by {
      forall k | 0 <= k < |H[t]| ensures KeptFor(G, K, rank1, G[item][k], H[t][k]) {
        assert FieldCloned(G, K, rank1, G[item][k], H[t][k]);
      }
    }
  }

  method DoValues(e: Stack, a: Stack, ghost G: Graph, ghost rank: map<StackItem, nat>, ghost O: multiset<StackItem>)
    returns (ok: bool, ghost ev: Event, ghost H: Graph, ghost rank': map<StackItem, nat>, ghost made: set<object>,
             ghost grown: set<Element>)
    requires Ready(e, a, G, rank, O)
    modifies e`ring, e`len, e.Nodes(), e.counters
    ensures Ready(e, a, H, rank', O)
    ensures fresh(grown) && e.Nodes() <= old(e.Nodes()) + grown && a.Nodes() == old(a.Nodes())
    ensures G.Keys <= H.Keys && fresh(made) && Objects(H) <= Objects(G) + made
    ensures ok <==> Goes(ValuesOf, old(Now(e, a, G)))
    ensures ok ==> Does(ValuesOf, old(Now(e, a, G)), ev, Now(e, a, H))
  {
    ghost var s := Now(e, a, G);
    ok, ev, H, rank', made, grown := false, Quiet, G, rank, {}, {};
    var item := PopValue(e, a, G, rank, O);
    if item == None {
      TooFew(ValuesOf, s);
    } else {
      var t;
      ok, t, ev, H, rank', made := ValuesFor(e, a, item.value, G, rank, O);
      if ok {
        grown := PushValue(e, a, t, H, rank', O);
      }
      ValuesDone(s, ok, t, ev, Now(e, a, H));
    }
  }

  // ----- runs

  method ChangeOne(e: Stack, a: Stack, i: ObjInstr, ghost G: Graph, ghost rank: map<StackItem, nat>,
                   ghost O: multiset<StackItem>)
    returns (ok: bool, ghost ev: Event, ghost H: Graph, ghost rank': map<StackItem, nat>, ghost made: set<object>)
    requires Ready(e, a, G, rank, O) && TargetHeld(i, Now(e, a, G), O) && TargetDepth(i) != None
    modifies e`ring, e`len, e.Nodes(), e.counters, Objects(G)
    ensures Ready(e, a, H, rank', O) && e.Nodes() <= old(e.Nodes()) && a.Nodes() == old(a.Nodes())
    ensures G.Keys <= H.Keys && fresh(made) && Objects(H) <= Objects(G) + made
    ensures ok <==> Goes(i, old(Now(e, a, G)))
    ensures ok ==> Does(i, old(Now(e, a, G)), ev, Now(e, a, H))
  {
    if i.AppendItem? {
      ok, ev, H, rank', made := DoAppend(e, a, G, rank, O);
    } else if i.SetItemAt? {
      ok, ev, H, rank', made := DoSet(e, a, G, rank, O);
    } else {
      ok, ev, H := DoRemove(e, a, G, rank, O);
      rank', made := rank, {};
    }
  }

  method MakeOne(e: Stack, a: Stack, i: ObjInstr, ghost G: Graph, ghost rank: map<StackItem, nat>,
                 ghost O: multiset<StackItem>)
    returns (ok: bool, ghost ev: Event, ghost H: Graph, ghost rank': map<StackItem, nat>, ghost made: set<object>,
             ghost grown: set<Element>)
    requires Ready(e, a, G, rank, O) && !i.OnStacks? && TargetDepth(i) == None
    modifies e`ring, e`len, e.Nodes(), e.counters
    ensures Ready(e, a, H, rank', O)
    ensures fresh(grown) && e.Nodes() <= old(e.Nodes()) + grown && a.Nodes() == old(a.Nodes())
    ensures G.Keys <= H.Keys && fresh(made) && Objects(H) <= Objects(G) + made
    ensures ok <==> Goes(i, old(Now(e, a, G)))
    ensures ok ==> Does(i, old(Now(e, a, G)), ev, Now(e, a, H))
  {
    match i {
      case NewArray =>
        ok, ev, H, rank', made, grown := DoList(e, a, false, G, rank, O);
      case NewStruct =>
        ok, ev, H, rank', made, grown := DoList(e, a, true, G, rank, O);
      case NewMapping =>
        ok := true;
        ev, H, rank', made, grown := DoMap(e, a, G, rank, O);
      case PackItems =>
        ok, ev, H, rank', made, grown := DoPack(e, a, G, rank, O);
      case ValuesOf =>
        ok, ev, H, rank', made, grown := DoValues(e, a, G, rank, O);
    }
  }

  /** One opcode: it goes through, or it faults, as the snapshot says. A container that is changed is held. */
  method ExecuteOne(e: Stack, a: Stack, i: ObjInstr, ghost G: Graph, ghost rank: map<StackItem, nat>,
                    ghost O: multiset<StackItem>)
    returns (ok: bool, ghost ev: Event, ghost H: Graph, ghost rank': map<StackItem, nat>, ghost made: set<object>,
             ghost grown: set<Element>)
    requires Ready(e, a, G, rank, O) && TargetHeld(i, Now(e, a, G), O)
    requires i.OnStacks? && i.i.Push? ==> Covered(G, i.i.x)
    modifies e`ring, e`len, e.Nodes(), a`ring, a`len, a.Nodes(), e.counters, Objects(G)
    ensures Ready(e, a, H, rank', O)
    ensures fresh(grown) && e.Nodes() + a.Nodes() <= old(e.Nodes()) + old(a.Nodes()) + grown
    ensures G.Keys <= H.Keys && fresh(made) && Objects(H) <= Objects(G) + made
    ensures ok <==> Goes(i, old(Now(e, a, G)))
    ensures ok ==> Does(i, old(Now(e, a, G)), ev, Now(e, a, H))
  {
    made, grown := {}, {};
    if i.OnStacks? {
      ok, grown := DoOnStacks(e, a, i.i, G, rank, O);
      ev, H, rank' := Quiet, G, rank;
    } else if TargetDepth(i) != None {
      ok, ev, H, rank', made := ChangeOne(e, a, i, G, rank, O);
    } else {
      ok, ev, H, rank', made, grown := MakeOne(e, a, i, G, rank, O);
    }
  }

  method DoOnStacks(e: Stack, a: Stack, i: Instr, ghost G: Graph, ghost rank: map<StackItem, nat>,
                 ghost O: multiset<StackItem>)
    returns (ok: bool, ghost grown: set<Element>)
    requires Ready(e, a, G, rank, O) && (i.Push? ==> Covered(G, i.x))
    modifies e`ring, e`len, e.Nodes(), a`ring, a`len, a.Nodes(), e.counters
    ensures Ready(e, a, G, rank, O)
    ensures fresh(grown) && e.Nodes() + a.Nodes() <= old(e.Nodes()) + old(a.Nodes()) + grown
    ensures Stepped(i, old(Both(e, a))) == if ok then Some(Both(e, a)) else None
    ensures KeysOf(G) == old(KeysOf(G))
  {
    e.Apart(G);
    a.Apart(G);
    e.counters.NotAContainer(G);
    ghost var before := e.Nodes() + a.Nodes();
    ok := Step(e, a, i, G, O);
    grown := e.Nodes() + a.Nodes() - before;
    TidyKept(G);
  }

  /** ts are exact counts behind each step, none but the last above the limit. */
  ghost predicate Accounts(ss: seq<Snap>, ts: seq<Tally>, O: multiset<StackItem>) {
    && |ss| == |ts| + 1
    && (forall k {:trigger ts[k]} :: 0 <= k < |ts| ==> AccountAt(ss[k + 1], ts[k], O))
    && (forall k {:trigger ts[k]} :: 0 <= k < |ts| - 1 ==> ts[k].size <= MAX_STACK_SIZE)
  }

  ghost predicate AccountAt(s: Snap, t: Tally, O: multiset<StackItem>) {
    Exact(s.G, t.itemCount, t.size, O + multiset(s.e) + multiset(s.a))
  }

  lemma TraceGrows(code: seq<ObjInstr>, evs: seq<Event>, ss: seq<Snap>, ev: Event, s: Snap)
    requires Trace(code, evs, ss) && |evs| < |code| && Does(code[|evs|], ss[|evs|], ev, s)
    ensures Trace(code, evs + [ev], ss + [s])
  {
    var evs', ss' := evs + [ev], ss + [s];
    forall k | 0 <= k < |evs'| ensures Does(code[k], ss'[k], evs'[k], ss'[k + 1]) {
      if k < |evs| { assert evs'[k] == evs[k] && ss'[k] == ss[k] && ss'[k + 1] == ss[k + 1]; }
    }
  }

  lemma AccountsGrow(ss: seq<Snap>, ts: seq<Tally>, s: Snap, t: Tally, O: multiset<StackItem>)
    requires Accounts(ss, ts, O) && LastFits(ts) && AccountAt(s, t, O)
    ensures Accounts(ss + [s], ts + [t], O)
  {
    var ss', ts' := ss + [s], ts + [t];
    forall k | 0 <= k < |ts'| ensures AccountAt(ss'[k + 1], ts'[k], O) {
      if k < |ts| { assert ss'[k + 1] == ss[k + 1] && ts'[k] == ts[k]; }
    }
    forall k | 0 <= k < |ts'| - 1 ensures ts'[k].size <= MAX_STACK_SIZE { assert ts'[k] == ts[k]; }
  }

  datatype History = History(evs: seq<Event>, ss: seq<Snap>, ts: seq<Tally>)

  /** A run so far, from snapshot s. */
  ghost predicate Happened(code: seq<ObjInstr>, h: History, s: Snap, O: multiset<StackItem>) {
    Trace(code, h.evs, h.ss) && Accounts(h.ss, h.ts, O) && h.ss[0] == s
  }

  lemma HistoryGrows(code: seq<ObjInstr>, h: History, s0: Snap, O: multiset<StackItem>, i: ObjInstr, last: Snap,
                     ev: Event, s: Snap, t: Tally)
    returns (h': History)
    requires Happened(code, h, s0, O) && LastFits(h.ts) && |h.evs| < |code|
    requires i == code[|h.evs|] && last == h.ss[|h.evs|] && Does(i, last, ev, s) && AccountAt(s, t, O)
    ensures Happened(code, h', s0, O) && |h'.evs| == |h.evs| + 1 && h'.ss[|h'.evs|] == s
    ensures LastFits(h'.ts) <==> t.size <= MAX_STACK_SIZE
  {
    TraceGrows(code, h.evs, h.ss, ev, s);
    AccountsGrow(h.ss, h.ts, s, t, O);
    h' := History(h.evs + [ev], h.ss + [s], h.ts + [t]);
  }

  /** Every item that code pushes is known. */
  ghost predicate PushesKnown(code: seq<ObjInstr>, G: Graph) {
    forall j {:trigger code[j]} :: 0 <= j < |code| && code[j].OnStacks? && code[j].i.Push? ==> Covered(G, code[j].i.x)
  }

  lemma PushesStillKnown(code: seq<ObjInstr>, G: Graph, H: Graph)
    requires PushesKnown(code, G) && G.Keys <= H.Keys
    ensures PushesKnown(code, H)
  {
  }

  /** Why a run ended; Unheld: the next opcode would change a container that the two stacks do not reach. */
  datatype RunEnd = Done | Faulted | TooBig | Unheld

  ghost predicate Ended(code: seq<ObjInstr>, h: History, end: RunEnd)
    requires |h.ss| == |h.evs| + 1
  {
    match end
    case Done => |h.evs| == |code| && LastFits(h.ts)
    case Faulted => |h.evs| < |code| && LastFits(h.ts) && !Goes(code[|h.evs|], h.ss[|h.evs|])
    case TooBig => !LastFits(h.ts)
    case Unheld => |h.evs| < |code| && LastFits(h.ts) && !TargetHeld(code[|h.evs|], h.ss[|h.evs|], multiset{})
  }

  lemma {:induction false} ReachableFromMore(G: Graph, R: multiset<StackItem>, more: multiset<StackItem>,
                                             c: StackItem, n: nat)
    requires ReachableIn(G, R, c, n) && R <= more
    ensures ReachableIn(G, more, c, n)
    decreases n
  {
    if n > 0 {
      var d :| d in G && c in G[d] && ReachableIn(G, R, d, n - 1);
      ReachableFromMore(G, R, more, d, n - 1);
    }
  }

  method ContentsOf(st: Stack) returns (s: seq<StackItem>)
    requires st.Valid()
    ensures s == st.Contents()
  {
    s := [];
    for i := 0 to st.len
      invariant |s| == i && forall j :: 0 <= j < i ==> s[j] == st.Contents()[j]
    {
      var x := st.Peek(i);
      s := s + [x.value];
    }
  }

  lemma BookedCovers(e: Stack, a: Stack, G: Graph, O: multiset<StackItem>, k: nat)
    requires AllContainers(G) && BookedPair(e, a, G, O) && k <= |e.Contents()|
    ensures Covers(G, e.Contents()[k..] + a.Contents())
  {
    var s := e.Contents()[k..] + a.Contents();
    forall x | x in s && x.IsContainer() ensures x in G {
      assert x in e.Contents() || x in a.Contents();
      assert x in O + multiset(e.Contents()) + multiset(a.Contents());
    }
  }

  lemma TargetFound(i: ObjInstr, s: Snap, O: multiset<StackItem>, found: bool)
    requires Target(i, s) != None && Target(i, s).value.0 in s.G
    requires found <==> Reachable(s.G, multiset(Target(i, s).value.1 + s.a), Target(i, s).value.0)
    ensures found ==> TargetHeld(i, s, O)
    ensures !found ==> !TargetHeld(i, s, multiset{})
  {
    var (t, rest) := Target(i, s).value;
    var R := multiset{} + multiset(rest) + multiset(s.a);
    assert multiset(rest + s.a) == R;
    if found {
      var n: nat :| ReachableIn(s.G, R, t, n);
      ReachableFromMore(s.G, R, O + multiset(rest) + multiset(s.a), t, n);
    }
  }

  /** How deep the container lies that the opcode changes. */
  function TargetDepth(i: ObjInstr): Option<nat> {
    if i.AppendItem? || i.RemoveItem? then Some(1) else if i.SetItemAt? then Some(2) else None
  }

  lemma TargetAt(i: ObjInstr, s: Snap)
    requires AllContainers(s.G)
    ensures Target(i, s) == if TargetDepth(i) == None || TargetDepth(i).value >= |s.e| then None
                            else Some((s.e[TargetDepth(i).value], s.e[TargetDepth(i).value + 1..]))
    ensures Target(i, s) == None || !Target(i, s).value.0.IsContainer() ==> forall O :: TargetHeld(i, s, O)
  {
  }

  /** Whether the two stacks reach the container that the opcode is about to change. */
  method IsHeld(e: Stack, a: Stack, i: ObjInstr, ghost G: Graph, ghost rank: map<StackItem, nat>,
                ghost O: multiset<StackItem>)
    returns (held: bool)
    requires Ready(e, a, G, rank, O)
    ensures held ==> TargetHeld(i, Now(e, a, G), O)
    ensures !held ==> !TargetHeld(i, Now(e, a, G), multiset{})
    ensures Ready(e, a, G, rank, O) && Now(e, a, G) == old(Now(e, a, G))
    ensures e.Nodes() == old(e.Nodes()) && a.Nodes() == old(a.Nodes())
  {
    held := LooksHeld(e, a, i, G, rank, O);
    RingsKept((e, a, Boolean(false)));
    ShowsKept(G);
    TidyKept(G);
  }

  method LooksHeld(e: Stack, a: Stack, i: ObjInstr, ghost G: Graph, ghost rank: map<StackItem, nat>,
                   ghost O: multiset<StackItem>)
    returns (held: bool)
    requires Ready(e, a, G, rank, O)
    ensures held ==> TargetHeld(i, old(Now(e, a, G)), O)
    ensures !held ==> !TargetHeld(i, old(Now(e, a, G)), multiset{})
  {
    ghost var now := Now(e, a, G);
    TargetAt(i, now);
    var n := TargetDepth(i);
    held := true;
    if n != None && n.value < e.len {
      BookedCovers(e, a, G, O, n.value + 1);
      StackCovered(e, a, G, O);
      var s, rest := SlotsOfBoth(e, a, G);
      held := TargetSearched(i, s, rest, n.value, now, O);
    }
  }

  method TargetSearched(i: ObjInstr, s: seq<StackItem>, rest: seq<StackItem>, n: nat, ghost now: Snap,
                        ghost O: multiset<StackItem>)
    returns (held: bool)
    requires Closed(now.G) && Shows(now.G) && now.e == s && now.a == rest && n < |s| && TargetDepth(i) == Some(n)
    requires Covers(now.G, s) && Covers(now.G, s[n + 1..] + rest)
    ensures held ==> TargetHeld(i, now, O)
    ensures !held ==> !TargetHeld(i, now, multiset{})
  {
    TargetAt(i, now);
    held := true;
    if s[n].IsContainer() {
      assert s[n] in s;
      held := Finds(s[n + 1..] + rest, s[n], now.G);
      TargetFound(i, now, O, held);
    }
  }

  /** What lies on the two stacks. */
  method SlotsOfBoth(e: Stack, a: Stack, ghost G: Graph) returns (s: seq<StackItem>, rest: seq<StackItem>)
    requires e.Valid() && a.Valid() && AllContainers(G) && Shows(G)
    ensures s == e.Contents() && rest == a.Contents() && Shows(G)
  {
    s := ContentsOf(e);
    rest := ContentsOf(a);
    ShowsKept(G);
  }

  lemma AccountOf(e: Stack, a: Stack, G: Graph, O: multiset<StackItem>)
    requires AllContainers(G) && BookedPair(e, a, G, O)
    ensures AccountAt(Now(e, a, G), e.counters.Now(), O)
  {
  }

  /** One opcode, and the check of the size behind it. */
  method StepOnce(e: Stack, a: Stack, i: ObjInstr, ghost G: Graph, ghost rank: map<StackItem, nat>,
                  ghost O: multiset<StackItem>)
    returns (end: RunEnd, ghost ev: Event, ghost H: Graph, ghost rank': map<StackItem, nat>, ghost made: set<object>,
             ghost grown: set<Element>)
    requires Ready(e, a, G, rank, O) && TargetHeld(i, Now(e, a, G), O)
    requires i.OnStacks? && i.i.Push? ==> Covered(G, i.i.x)
    modifies e`ring, e`len, e.Nodes(), a`ring, a`len, a.Nodes(), e.counters, Objects(G)
    ensures Ready(e, a, H, rank', O)
    ensures fresh(grown) && e.Nodes() + a.Nodes() <= old(e.Nodes()) + old(a.Nodes()) + grown
    ensures G.Keys <= H.Keys && fresh(made) && Objects(H) <= Objects(G) + made
    ensures !end.Unheld? && (end.Faulted? <==> !Goes(i, old(Now(e, a, G))))
    ensures !end.Faulted? ==> Does(i, old(Now(e, a, G)), ev, Now(e, a, H))
    ensures !end.Faulted? ==> (end.Done? <==> e.counters.size <= MAX_STACK_SIZE)
  {
    var ok;
    ok, ev, H, rank', made, grown := ExecuteOne(e, a, i, G, rank, O);
    end := if !ok then Faulted else if e.counters.size <= MAX_STACK_SIZE then Done else TooBig;
  }

  /** Before instruction k: everything is in order, and h is what happened so far. */
  ghost predicate AtStep(e: Stack, a: Stack, code: seq<ObjInstr>, k: nat, h: History, s0: Snap, G: Graph,
                         rank: map<StackItem, nat>, O: multiset<StackItem>)
    reads e, a, e.ring, a.ring, e.counters, if AllContainers(G) then Objects(G) else {}
  {
    && Ready(e, a, G, rank, O) && PushesKnown(code, G)
    && Happened(code, h, s0, O) && LastFits(h.ts) && |h.evs| == k <= |code| && h.ss[k] == Now(e, a, G)
  }

  /** Where a run has ended. */
  ghost predicate AtEnd(e: Stack, a: Stack, code: seq<ObjInstr>, h: History, s0: Snap, end: RunEnd, G: Graph,
                        rank: map<StackItem, nat>, O: multiset<StackItem>)
    reads e, a, e.ring, a.ring, e.counters, if AllContainers(G) then Objects(G) else {}
  {
    && Ready(e, a, G, rank, O)
    && Happened(code, h, s0, O) && Ended(code, h, end) && (end.Done? ==> h.ss[|code|] == Now(e, a, G))
  }

  /** The history with a step more, if there was one. */
  lemma HistoryDone(e: Stack, a: Stack, code: seq<ObjInstr>, h: History, s0: Snap, last: Snap, ev: Event, end: RunEnd,
                    H: Graph, rank': map<StackItem, nat>, O: multiset<StackItem>)
    returns (h': History)
    requires Happened(code, h, s0, O) && LastFits(h.ts) && |h.evs| < |code| && h.ss[|h.evs|] == last
    requires Ready(e, a, H, rank', O) && PushesKnown(code, H) && !end.Unheld?
    requires if end.Faulted? then !Goes(code[|h.evs|], last) else Does(code[|h.evs|], last, ev, Now(e, a, H))
    requires !end.Faulted? ==> (end.Done? <==> e.counters.size <= MAX_STACK_SIZE)
    ensures if end.Done? then AtStep(e, a, code, |h.evs| + 1, h', s0, H, rank', O)
            else AtEnd(e, a, code, h', s0, end, H, rank', O)
  {
    h' := h;
    if !end.Faulted? {
      AccountOf(e, a, H, O);
      h' := HistoryGrows(code, h, s0, O, code[|h.evs|], last, ev, Now(e, a, H), e.counters.Now());
    }
  }

  /** One opcode of a run, if the container that it changes is held. */
  method AdvanceIfHeld(e: Stack, a: Stack, code: seq<ObjInstr>, k: nat, ghost h: History, ghost s0: Snap,
                       ghost G: Graph, ghost rank: map<StackItem, nat>, ghost O: multiset<StackItem>)
    returns (end: RunEnd, ghost h': History, ghost H: Graph, ghost rank': map<StackItem, nat>, ghost made: set<object>,
             ghost grown: set<Element>)
    requires AtStep(e, a, code, k, h, s0, G, rank, O) && k < |code|
    modifies e`ring, e`len, e.Nodes(), a`ring, a`len, a.Nodes(), e.counters, Objects(G)
    ensures fresh(grown) && e.Nodes() + a.Nodes() <= old(e.Nodes()) + old(a.Nodes()) + grown
    ensures AllContainers(H) && fresh(made) && Objects(H) <= Objects(G) + made
    ensures if end.Done? then AtStep(e, a, code, k + 1, h', s0, H, rank', O)
            else AtEnd(e, a, code, h', s0, end, H, rank', O)
  {
    end, h', H, rank', made, grown := Unheld, h, G, rank, {}, {};
    ghost var last, ev := Now(e, a, G), Quiet;
    var held := IsHeld(e, a, code[k], G, rank, O);
    if held {
      end, ev, H, rank', made, grown := StepOnce(e, a, code[k], G, rank, O);
      PushesStillKnown(code, G, H);
      h' := HistoryDone(e, a, code, h, s0, last, ev, end, H, rank', O);
    }
  }

  /** The rest of a run. */
  method RunObjectsFrom(e: Stack, a: Stack, code: seq<ObjInstr>, k: nat, ghost h: History, ghost s0: Snap,
                        ghost G: Graph, ghost rank: map<StackItem, nat>, ghost O: multiset<StackItem>)
    returns (end: RunEnd, ghost h': History, ghost H: Graph, ghost rank': map<StackItem, nat>)
    requires AtStep(e, a, code, k, h, s0, G, rank, O)
    modifies e`ring, e`len, e.Nodes(), a`ring, a`len, a.Nodes(), e.counters, Objects(G)
    ensures AtEnd(e, a, code, h', s0, end, H, rank', O)
    decreases |code| - k
  {
    end, h', H, rank' := Done, h, G, rank;
    if k < |code| {
      ghost var made, grown;
      end, h', H, rank', made, grown := AdvanceIfHeld(e, a, code, k, h, s0, G, rank, O);
      if end == Done {
        end, h', H, rank' := RunObjectsFrom(e, a, code, k + 1, h', s0, H, rank', O);
      }
    }
  }

  /**
    A run up to the first fault, or up to an opcode that would change a container that the stacks do not
    reach. The counters are exact behind every step.
   */
  method RunObjects(e: Stack, a: Stack, code: seq<ObjInstr>, ghost G: Graph, ghost rank: map<StackItem, nat>,
                    ghost O: multiset<StackItem>)
    returns (end: RunEnd, ghost h: History, ghost H: Graph, ghost rank': map<StackItem, nat>)
    requires Ready(e, a, G, rank, O) && PushesKnown(code, G)
    modifies e`ring, e`len, e.Nodes(), a`ring, a`len, a.Nodes(), e.counters, Objects(G)
    ensures AtEnd(e, a, code, h, old(Now(e, a, G)), end, H, rank', O)
  {
    ghost var s0 := Now(e, a, G);
    end, h, H, rank' := RunObjectsFrom(e, a, code, 0, History([], [s0], []), s0, G, rank, O);
  }
}
