/**
  The opcodes that make and change containers. Each takes its operands after they were popped: G is the
  snapshot of the heap, R the stack slots that are left. Each keeps the acyclicity of structs, and says
  when it keeps the books.
 */
module ObjectOps {
  import opened Limits
  import opened Options
  import opened Conversions
  import opened Items
  import opened SeqOps
  import opened RefCount
  import opened Counting
  import opened RemovalWalk
  import opened Equality
  import opened StructClone
  import opened SlotBooks
  import opened Edits
  import opened OrderedMap

  /** The position that a key names. */
  function IndexOf(key: StackItem): int
    requires IsValidMapKey(key)
  {
    Int64(IntegerOf(key).value)
  }

  predicate IsList(t: StackItem) { t.Array? || t.Struct? }

  // ----- writing

  lemma ObjectsDiffer(c: StackItem, d: StackItem)
    requires c.IsContainer() && d.IsContainer() && c != d
    ensures c.Obj() != d.Obj()
  {
  }

  /** After a write into one container, the snapshot with its new slots shows the heap. */
  twostate lemma ShowsPut(p: (Graph, StackItem))
    requires AllContainers(p.0) && p.1 in p.0 && forall o :: o in Objects(p.0) ==> allocated(o) && old(allocated(o))
    requires old(Shows(p.0)) && forall o :: o in Objects(p.0) && o != p.1.Obj() ==> unchanged(o)
    ensures AllContainers(p.0[p.1 := p.1.Children()]) && Shows(p.0[p.1 := p.1.Children()])
  {
    forall c | c in p.0 && c != p.1 ensures c.Children() == p.0[c] {
      assert c.IsContainer() && c.Obj() in Objects(p.0);
      ObjectsDiffer(c, p.1);
    }
  }

  /** Overwrites the slots of an array or a struct. */
  method PutSlots(t: StackItem, s: seq<StackItem>, ghost G: Graph)
    requires AllContainers(G) && Shows(G) && t in G && IsList(t)
    modifies t.Obj()
    ensures AllContainers(G[t := s]) && Shows(G[t := s])
  {
    match t {
      case Array(a) => a.value := s;
      case Struct(st) => st.value := s;
    }
    ShowsPut((G, t));
  }

  // ----- counting what is written

  /** Uncounts a value that is about to leave its slot. */
  method CountDown(counters: Counters, past: StackItem, ghost K: Graph)
    requires Sane(K, counters.Now()) && Shows(K) && Covered(K, past) && Ends(K, counters.Now(), past)
    modifies counters
    ensures EndsWith(K, old(counters.Now()), past, counters.Now())
    ensures Sane(K, counters.Now()) && Shows(K)
  {
    counters.NotAContainer(K);
    ghost var t := counters.Now();
    ghost var fuel: nat :| Walk(K, t, past, fuel) != None;
    WalkShrinks(K, t, past, fuel);
    counters.UpdateSizeRemove(past, K, fuel);
    ShowsKept(K);
  }

  /** Counts a value that is in its slot. */
  method CountUp(counters: Counters, val: StackItem, ghost H: Graph)
    requires Sane(H, counters.Now()) && Shows(H) && Covered(H, val)
    modifies counters
    ensures counters.Now() == AddOne(H, old(counters.Now()), val) && Shows(H)
  {
    counters.NotAContainer(H);
    counters.UpdateSizeAdd(val, H);
    ShowsKept(H);
  }

  // ----- the opcodes

  lemma AuditedExtended(counters: Counters, G: Graph, K: Graph, R: multiset<StackItem>)
    requires AllContainers(G) && counters.Audited(G, R) && Closed(K) && Extends(G, K) && Shows(K)
    ensures counters.Audited(K, R)
  {
    ExactExtended(G, K, counters.Now(), R);
  }

  /** What a struct or any other item is stored as: H is G with the clones, val the stored item. */
  ghost predicate StoredAs(G: Graph, rank: map<StackItem, nat>, K: Graph, rank1: map<StackItem, nat>, item: StackItem,
                           val: StackItem) {
    ClonedInto(G, rank, K, rank1) && FieldCloned(G, K, rank1, item, val)
  }

  ghost predicate OldOr(s: seq<StackItem>, olds: seq<StackItem>, val: StackItem) {
    forall x {:trigger x in s} :: x in s ==> x in olds || x == val
  }

  lemma StoredRanked(G: Graph, rank: map<StackItem, nat>, K: Graph, rank1: map<StackItem, nat>, item: StackItem,
                     val: StackItem, t: StackItem, s: seq<StackItem>)
    returns (rank2: map<StackItem, nat>)
    requires StoredAs(G, rank, K, rank1, item, val) && t in G && OldOr(s, G[t], val)
    ensures Ranked(K[t := s], rank2)
  {
    assert Covers(G, G[t]);
    forall x | x in s && x.IsContainer() ensures x in K { if x in G { assert x in K; } }
    rank2 := FiledRanked(G, rank, K, rank1, t, s);
  }

  /** Adds a slot to an array or a struct that has room for it. */
  method AppendSlot(counters: Counters, t: StackItem, val: StackItem, ghost K: Graph) returns (ok: bool)
    requires Sane(K, counters.Now()) && Shows(K) && Covered(K, t) && Covered(K, val)
    modifies counters, if t.IsContainer() then {t.Obj()} else {}
    ensures ok <==> IsList(t) && |K[t]| < MAX_ARRAY_SIZE
    ensures !ok ==> counters.Now() == old(counters.Now()) && Shows(K)
    ensures ok ==> AllContainers(K[t := K[t] + [val]]) && Shows(K[t := K[t] + [val]])
    ensures ok ==> EditLeaves(K, old(counters.Now()), t, Added(val), counters.Now())
    ensures t.Map? ==> t.m.value == old(t.m.value)
  {
    if !IsList(t) {
      return false;
    }
    counters.NotAContainer(K);
    var arr := SlotsOf(t, K);
    ShowsKept(K);
    if |arr| >= MAX_ARRAY_SIZE {
      return false;
    }
    ghost var c0 := counters.Now();
    EditCovered(K, t, Added(val));
    EditDone(K, c0, t, Added(val), c0);
    PutSlots(t, arr + [val], K);
    CountUp(counters, val, K[t := arr + [val]]);
    return true;
  }

  /**
    APPEND. A struct is cloned before anything is checked. The books stay exact if and only if the
    container is still live; otherwise the new slot is counted although nothing will ever uncount it.
   */
  method Append(counters: Counters, t: StackItem, item: StackItem, ghost G: Graph, ghost rank: map<StackItem, nat>,
                ghost R: multiset<StackItem>)
    returns (ok: bool, val: StackItem, ghost K: Graph, ghost H: Graph, ghost rank': map<StackItem, nat>)
    requires Ranked(G, rank) && counters.Audited(G, R) && Covered(G, t) && Covered(G, item)
    modifies counters, if t.IsContainer() then {t.Obj()} else {}
    ensures ok <==> IsList(t) && |G[t]| < MAX_ARRAY_SIZE
    ensures exists rank1 :: StoredAs(G, rank, K, rank1, item, val)
    ensures H == if ok then K[t := G[t] + [val]] else K
    ensures Ranked(H, rank') && Shows(H) && fresh(Objects(H) - Objects(G))
    ensures if ok then EditLeaves(K, old(counters.Now()), t, Added(val), counters.Now())
            else counters.Now() == old(counters.Now())
    ensures t.Map? ==> t.m.value == old(t.m.value)
    ensures counters.Audited(H, R) <==> !ok || t in old(counters.itemCount)
  {
    val, K, rank' := CloneIfStruct(item, G, rank);
    assert StoredAs(G, rank, K, rank', item, val);
    AuditedExtended(counters, G, K, R);
    ghost var c0 := counters.Now();
    ok := AppendSlot(counters, t, val, K);
    H := if ok then K[t := G[t] + [val]] else K;
    if ok {
      EditExactly(K, c0, R, t, Added(val), counters.Now());
      rank' := StoredRanked(G, rank, K, rank', item, val, t, G[t] + [val]);
    }
  }

  /** Replaces the slot of an array or a struct: uncount the old value, write, count the new one. */
  method SetSlot(counters: Counters, t: StackItem, index: int, val: StackItem, ghost K: Graph) returns (ok: bool)
    requires Sane(K, counters.Now()) && Shows(K) && t in K && IsList(t) && Covered(K, val)
    requires 0 <= index < |K[t]| ==> Ends(K, counters.Now(), K[t][index])
    modifies counters, t.Obj()
    ensures ok <==> 0 <= index < |K[t]|
    ensures !ok ==> counters.Now() == old(counters.Now()) && Shows(K)
    ensures ok ==> AllContainers(K[t := K[t][index := val]]) && Shows(K[t := K[t][index := val]])
    ensures ok ==> EditLeaves(K, old(counters.Now()), t, Replaced(index, val), counters.Now())
  {
    counters.NotAContainer(K);
    var arr := SlotsOf(t, K);
    ShowsKept(K);
    if index < 0 || index >= |arr| {
      return false;
    }
    ghost var c0, e := counters.Now(), Replaced(index, val);
    SlotsKnown(K, t);
    CountDown(counters, arr[index], K);
    EditDone(K, c0, t, e, counters.Now());
    EditCovered(K, t, e);
    PutSlots(t, arr[index := val], K);
    CountUp(counters, val, K[t := arr[index := val]]);
    return true;
  }

  lemma ValuesSet(es: seq<MapElement>, i: nat, e: MapElement)
    requires i < |es|
    ensures Values(es[i := e]) == Values(es)[i := e.value]
  {
  }

  lemma ValuesAppended(es: seq<MapElement>, e: MapElement)
    ensures Values(es + [e]) == Values(es) + [e.value]
  {
  }

  lemma ValuesRemoved(es: seq<MapElement>, i: nat)
    requires i < |es|
    ensures Values(Removed(es, i)) == Removed(Values(es), i)
  {
  }

  /** Filing a value under a key changes one slot, or adds one. */
  ghost function Filing(es: seq<MapElement>, key: StackItem, val: StackItem): (e: Edit)
    requires ValidKeys(es) && IsValidMapKey(key)
    ensures Fits(e, Values(es)) && Applied(e, Values(es)) == Values(Filed(es, key, val))
  {
    var p := Place(es, KeyBytes(key));
    if p < |es| then
      ValuesSet(es, p, MapElement(es[p].key, val));
      Replaced(p, val)
    else
      ValuesAppended(es, MapElement(key, val));
      Added(val)
  }

  /** Writes the entry, for which the old value was uncounted, and counts the new value. */
  method FileEntry(counters: Counters, t: StackItem, key: StackItem, val: StackItem, ghost K: Graph)
    requires Sane(K, counters.Now()) && Shows(K) && t in K && t.Map? && Covered(K, val)
    requires DistinctKeys(t.m.value) && IsValidMapKey(key) && Values(t.m.value) == K[t]
    modifies counters, t.Obj()
    ensures DistinctKeys(t.m.value) && t.m.value == Filed(old(t.m.value), key, val)
    ensures forall k :: Get(t.m.value, k) == if k == KeyBytes(key) then Some(val) else old(Get(t.m.value, k))
    ensures AllContainers(K[t := Values(t.m.value)]) && Shows(K[t := Values(t.m.value)])
    ensures Sane(K, old(counters.Now()))
    ensures counters.Now() == Recounted(K, old(counters.Now()), t, old(Filing(t.m.value, key, val)))
  {
    counters.NotAContainer(K);
    ghost var e := Filing(t.m.value, key, val);
    EditCovered(K, t, e);
    var _ := Add(t.m, key, val);
    ghost var s := Values(t.m.value);
    assert t.Children() == s;
    ShowsPut((K, t));
    CountUp(counters, val, K[t := s]);
  }

  /** Files a value under a key of a map; only a new key can be one too many. */
  method SetEntry(counters: Counters, t: StackItem, key: StackItem, val: StackItem, ghost K: Graph) returns (ok: bool)
    requires Sane(K, counters.Now()) && Shows(K) && t in K && t.Map? && Covered(K, val)
    requires DistinctKeys(t.m.value) && IsValidMapKey(key) && Values(t.m.value) == K[t]
    requires EditEnds(K, counters.Now(), t, Filing(t.m.value, key, val))
    modifies counters, t.Obj()
    ensures DistinctKeys(t.m.value) && t.m.value == if ok then Filed(old(t.m.value), key, val) else old(t.m.value)
    ensures ok <==> old(Get(t.m.value, KeyBytes(key))) != None || |K[t]| < MAX_ARRAY_SIZE
    ensures ok ==> forall k :: Get(t.m.value, k) == if k == KeyBytes(key) then Some(val) else old(Get(t.m.value, k))
    ensures !ok ==> counters.Now() == old(counters.Now()) && Shows(K)
    ensures ok ==> Values(t.m.value) == Applied(old(Filing(t.m.value, key, val)), K[t])
    ensures ok ==> AllContainers(K[t := Values(t.m.value)]) && Shows(K[t := Values(t.m.value)])
    ensures ok ==> EditLeaves(K, old(counters.Now()), t, old(Filing(t.m.value, key, val)), counters.Now())
  {
    counters.NotAContainer(K);
    var m := t.m;
    ghost var c0, e := counters.Now(), Filing(m.value, key, val);
    var i := Index(m, key);
    ShowsKept(K);
    if i >= 0 {
      SlotsKnown(K, t);
      CountDown(counters, m.value[i].value, K);
    } else if |m.value| >= MAX_ARRAY_SIZE {
      return false;
    }
    EditDone(K, c0, t, e, counters.Now());
    FileEntry(counters, t, key, val, K);
    return true;
  }

  /** When SETITEM goes through; a map takes a new key only while it has room. */
  ghost predicate CanSet(t: StackItem, slots: seq<StackItem>, key: StackItem)
    requires t.Map? ==> ValidKeys(t.m.value)
    reads if t.Map? then {t.m} else {}
  {
    && IsValidMapKey(key)
    && (IsList(t) ==> 0 <= IndexOf(key) < |slots|)
    && (t.Map? ==> Get(t.m.value, KeyBytes(key)) != None || |slots| < MAX_ARRAY_SIZE)
  }

  /** The slot that a key stands for, if there is one. */
  ghost function SlotOf(t: StackItem, slots: seq<StackItem>, key: StackItem): (k: Option<nat>)
    requires t.IsContainer() && IsValidMapKey(key)
    requires t.Map? ==> ValidKeys(t.m.value) && |t.m.value| == |slots|
    reads if t.Map? then {t.m} else {}
    ensures k != None ==> k.value < |slots|
  {
    if t.Map? then
      if Get(t.m.value, KeyBytes(key)) == None then None else Some(Place(t.m.value, KeyBytes(key)))
    else if 0 <= IndexOf(key) < |slots| then Some(IndexOf(key))
    else None
  }

  /** What SETITEM does to the slots. */
  function Setting(k: Option<nat>, val: StackItem): Edit {
    if k == None then Added(val) else Replaced(k.value, val)
  }

  /** The keys of maps are in order. */
  ghost predicate InOrder(t: StackItem, slots: seq<StackItem>)
    reads if t.Map? then {t.m} else {}
  {
    t.Map? ==> DistinctKeys(t.m.value) && Values(t.m.value) == slots
  }

  /** Taking the value out of the slot that the key stands for ends. */
  ghost predicate LetsGo(G: Graph, c0: Tally, t: StackItem, key: StackItem)
    requires t.IsContainer() ==> t in G && InOrder(t, G[t])
    reads if t.Map? then {t.m} else {}
  {
    t.IsContainer() && IsValidMapKey(key) && SlotOf(t, G[t], key) != None ==>
      Ends(G, c0, G[t][SlotOf(t, G[t], key).value])
  }

  method WriteItem(counters: Counters, t: StackItem, key: StackItem, val: StackItem, ghost K: Graph) returns (ok: bool)
    requires Sane(K, counters.Now()) && Shows(K) && Covered(K, val) && IsValidMapKey(key)
    requires t.IsContainer() && t in K && InOrder(t, K[t]) && LetsGo(K, counters.Now(), t, key)
    modifies counters, t.Obj()
    ensures ok <==> old(CanSet(t, K[t], key))
    ensures t.Map? ==> DistinctKeys(t.m.value)
    ensures t.Map? ==> t.m.value == if ok then Filed(old(t.m.value), key, val) else old(t.m.value)
    ensures ok && t.Map? ==>
              forall k :: Get(t.m.value, k) == if k == KeyBytes(key) then Some(val) else old(Get(t.m.value, k))
    ensures !ok ==> counters.Now() == old(counters.Now()) && Shows(K)
    ensures ok ==> var e := Setting(old(SlotOf(t, K[t], key)), val); var H := K[t := Applied(e, K[t])];
                   && EditLeaves(K, old(counters.Now()), t, e, counters.Now())
                   && AllContainers(H) && Shows(H)
    ensures ok && t.Map? ==> Applied(Setting(old(SlotOf(t, K[t], key)), val), K[t]) == Values(t.m.value)
  {
    ghost var e := Setting(SlotOf(t, K[t], key), val);
    if t.Map? { assert e == Filing(t.m.value, key, val); }
    if t.Map? {
      ok := SetEntry(counters, t, key, val, K);
    } else {
      ok := SetSlot(counters, t, IndexOf(key), val, K);
    }
  }

  /**
    SETITEM, wherever it ends. The books stay exact if and only if it faults, or the container is live (even
    when it is stored in itself), or the new value makes no difference.
   */
  method SetItem(counters: Counters, t: StackItem, key: StackItem, item: StackItem,
                 ghost G: Graph, ghost rank: map<StackItem, nat>, ghost R: multiset<StackItem>)
    returns (ok: bool, val: StackItem, ghost K: Graph, ghost H: Graph, ghost rank': map<StackItem, nat>)
    requires Ranked(G, rank) && counters.Audited(G, R) && Covered(G, item)
    requires (t.IsContainer() ==> t in G && InOrder(t, G[t])) && LetsGo(G, counters.Now(), t, key)
    modifies counters, if t.IsContainer() then {t.Obj()} else {}
    ensures ok <==> t.IsContainer() && old(CanSet(t, G[t], key))
    ensures if IsValidMapKey(key) then exists rank1 :: StoredAs(G, rank, K, rank1, item, val) else K == G
    ensures !ok ==> H == K && counters.Now() == old(counters.Now())
    ensures t.Map? ==> DistinctKeys(t.m.value)
    ensures t.Map? ==> t.m.value == if ok then Filed(old(t.m.value), key, val) else old(t.m.value)
    ensures ok && t.Map? ==>
              forall k :: Get(t.m.value, k) == if k == KeyBytes(key) then Some(val) else old(Get(t.m.value, k))
    ensures ok ==> var e := Setting(old(SlotOf(t, G[t], key)), val);
                   H == K[t := Applied(e, G[t])] && t in K && EditLeaves(K, old(counters.Now()), t, e, counters.Now())
    ensures ok && t.Map? ==> t in H && H[t] == Values(t.m.value)
    ensures Ranked(H, rank') && Shows(H) && fresh(Objects(H) - Objects(G))
    ensures counters.Audited(H, R) <==>
              !ok || t in old(counters.itemCount)
              || (old(SlotOf(t, G[t], key)) != None
                  && Unnoticed(K, old(counters.Now()), G[t][old(SlotOf(t, G[t], key)).value], val))
  {
    if !IsValidMapKey(key) {
      return false, item, G, G, rank;
    }
    val, K, rank' := CloneIfStruct(item, G, rank);
    assert StoredAs(G, rank, K, rank', item, val);
    AuditedExtended(counters, G, K, R);
    H := K;
    if !t.IsContainer() {
      return false, val, K, H, rank';
    }
    ghost var c0, e := counters.Now(), Setting(SlotOf(t, G[t], key), val);
    LetsGoExtended(G, K, c0, t, key);
    ok := WriteItem(counters, t, key, val, K);
    if ok {
      H := K[t := Applied(e, G[t])];
      EditExactly(K, c0, R, t, e, counters.Now());
      AppliedOldOr(e, G[t], val);
      rank' := StoredRanked(G, rank, K, rank', item, val, t, Applied(e, G[t]));
    }
  }

  lemma AppliedOldOr(e: Edit, s: seq<StackItem>, val: StackItem)
    requires Fits(e, s) && (!e.Dropped? ==> e.val == val)
    ensures OldOr(Applied(e, s), s, val)
  {
    if e.Dropped? { RemovedMembers(s, e.at); }
  }

  lemma LetsGoExtended(G: Graph, K: Graph, c0: Tally, t: StackItem, key: StackItem)
    requires Closed(G) && Extends(G, K) && t.IsContainer() && t in G && InOrder(t, G[t]) && LetsGo(G, c0, t, key)
    ensures t in K && K[t] == G[t] && LetsGo(K, c0, t, key)
  {
    assert t in K;
    if IsValidMapKey(key) && SlotOf(t, G[t], key) != None {
      SlotsKnown(G, t);
      EndsExtended(G, K, c0, G[t][SlotOf(t, G[t], key).value]);
    }
  }

  // ----- REMOVE

  lemma DroppedRanked(G: Graph, rank: map<StackItem, nat>, t: StackItem, k: nat)
    requires Ranked(G, rank) && t in G && k < |G[t]|
    ensures Ranked(G[t := Removed(G[t], k)], rank)
  {
    var s, H := Removed(G[t], k), G[t := Removed(G[t], k)];
    assert Covers(G, G[t]);
    forall x | x in s ensures x in G[t] {
      var i :| 0 <= i < |s| && s[i] == x;
      assert G[t][if i < k then i else i + 1] == x;
    }
    ClosedRewritten(G, t, s);
    forall d: StackItem, x: StackItem | d in H && d.Struct? && x in H[d] && x.Struct?
      ensures x in H && rank[x] < rank[d]
    {
      assert Covers(G, G[d]) && x in G[d];
      assert rank[x] < rank[d];
    }
  }

  method DropSlot(counters: Counters, t: StackItem, index: int, ghost G: Graph) returns (ok: bool)
    requires Sane(G, counters.Now()) && Shows(G) && t in G && IsList(t)
    requires 0 <= index < |G[t]| ==> Ends(G, counters.Now(), G[t][index])
    modifies counters, t.Obj()
    ensures ok <==> 0 <= index < |G[t]|
    ensures !ok ==> counters.Now() == old(counters.Now()) && Shows(G)
    ensures ok ==> AllContainers(G[t := Removed(G[t], index)]) && Shows(G[t := Removed(G[t], index)])
    ensures ok ==> EditLeaves(G, old(counters.Now()), t, Dropped(index), counters.Now())
  {
    counters.NotAContainer(G);
    var arr := SlotsOf(t, G);
    ShowsKept(G);
    if index < 0 || index >= |arr| {
      return false;
    }
    ghost var c0 := counters.Now();
    SlotsKnown(G, t);
    CountDown(counters, arr[index], G);
    EditDone(G, c0, t, Dropped(index), counters.Now());
    Slices(arr, index, arr[index]);
    PutSlots(t, arr[..index] + arr[index + 1..], G);
    return true;
  }

  method DropEntry(counters: Counters, t: StackItem, index: nat, ghost G: Graph)
    requires Sane(G, counters.Now()) && Shows(G) && t in G && t.Map?
    requires DistinctKeys(t.m.value) && Values(t.m.value) == G[t] && index < |G[t]|
    requires Ends(G, counters.Now(), G[t][index])
    modifies counters, t.Obj()
    ensures DistinctKeys(t.m.value) && Values(t.m.value) == Removed(G[t], index)
    ensures t.m.value == Removed(old(t.m.value), index)
    ensures forall k :: Get(t.m.value, k) ==
              if k == old(KeyBytes(t.m.value[index].key)) then None else old(Get(t.m.value, k))
    ensures AllContainers(G[t := Removed(G[t], index)]) && Shows(G[t := Removed(G[t], index)])
    ensures EditLeaves(G, old(counters.Now()), t, Dropped(index), counters.Now())
  {
    counters.NotAContainer(G);
    var m := t.m;
    ghost var es, c0 := m.value, counters.Now();
    SlotsKnown(G, t);
    CountDown(counters, m.value[index].value, G);
    EditDone(G, c0, t, Dropped(index), counters.Now());
    label Counted:
    Drop(m, index);
    ValuesRemoved(es, index);
    assert t.Children() == Removed(Values(es), index);
    ShowsPut@Counted((G, t));
  }

  /**
    REMOVE, wherever it ends; a key that a map does not hold is not an error. The books stay exact if and
    only if nothing is taken out or the container is live.
   */
  method Remove(counters: Counters, t: StackItem, key: StackItem, ghost G: Graph, ghost rank: map<StackItem, nat>,
                ghost R: multiset<StackItem>)
    returns (ok: bool, ghost H: Graph)
    requires Ranked(G, rank) && counters.Audited(G, R)
    requires (t.IsContainer() ==> t in G && InOrder(t, G[t])) && LetsGo(G, counters.Now(), t, key)
    modifies counters, if t.IsContainer() then {t.Obj()} else {}
    ensures ok <==> IsValidMapKey(key) && t.IsContainer() && (IsList(t) ==> 0 <= IndexOf(key) < |G[t]|)
    ensures t.Map? ==> DistinctKeys(t.m.value)
    ensures t.Map? ==> t.m.value == if ok then Unfiled(old(t.m.value), KeyBytes(key)) else old(t.m.value)
    ensures ok && t.Map? ==> t in H && H[t] == Values(t.m.value)
    ensures ok && t.Map? ==>
              forall k :: Get(t.m.value, k) == if k == KeyBytes(key) then None else old(Get(t.m.value, k))
    ensures var k := if ok then old(SlotOf(t, G[t], key)) else None;
            && (k == None ==> H == G && counters.Now() == old(counters.Now()))
            && (k != None ==> H == G[t := Removed(G[t], k.value)]
                              && EditLeaves(G, old(counters.Now()), t, Dropped(k.value), counters.Now()))
            && (counters.Audited(H, R) <==> k == None || t in old(counters.itemCount))
    ensures Ranked(H, rank) && Shows(H)
  {
    H := G;
    if !IsValidMapKey(key) || !t.IsContainer() {
      return false, H;
    }
    ghost var k, c0 := SlotOf(t, G[t], key), counters.Now();
    ok := TakeOut(counters, t, key, G);
    if ok && k != None {
      H := G[t := Removed(G[t], k.value)];
      EditExactly(G, c0, R, t, Dropped(k.value), counters.Now());
      DroppedRanked(G, rank, t, k.value);
    }
  }

  method TakeOut(counters: Counters, t: StackItem, key: StackItem, ghost G: Graph) returns (ok: bool)
    requires Sane(G, counters.Now()) && Shows(G) && IsValidMapKey(key)
    requires t.IsContainer() && t in G && InOrder(t, G[t]) && LetsGo(G, counters.Now(), t, key)
    modifies counters, t.Obj()
    ensures ok <==> (IsList(t) ==> 0 <= IndexOf(key) < |G[t]|)
    ensures t.Map? ==> DistinctKeys(t.m.value) && t.m.value == Unfiled(old(t.m.value), KeyBytes(key))
    ensures t.Map? ==> forall k :: Get(t.m.value, k) == if k == KeyBytes(key) then None else old(Get(t.m.value, k))
    ensures old(SlotOf(t, G[t], key)) == None ==> counters.Now() == old(counters.Now()) && Shows(G)
    ensures old(SlotOf(t, G[t], key)) == None && t.Map? ==> Values(t.m.value) == G[t]
    ensures old(SlotOf(t, G[t], key)) != None ==>
              var k := old(SlotOf(t, G[t], key)).value; var H := G[t := Removed(G[t], k)];
              && EditLeaves(G, old(counters.Now()), t, Dropped(k), counters.Now())
              && AllContainers(H) && Shows(H)
              && (t.Map? ==> Values(t.m.value) == Removed(G[t], k))
  {
    if t.Map? {
      counters.NotAContainer(G);
      var index := Index(t.m, key);
      ShowsKept(G);
      if index >= 0 {
        DropEntry(counters, t, index, G);
      }
      ok := true;
    } else {
      ok := DropSlot(counters, t, IndexOf(key), G);
    }
  }

  // ----- new containers

  lemma MadeExact(G: Graph, H: Graph, tally: Tally, R: multiset<StackItem>, t: StackItem, s: seq<StackItem>)
    requires Exact(G, tally.itemCount, tally.size, R) && t !in G && H == G[t := s] && Closed(H)
    ensures Exact(H, tally.itemCount, tally.size, R)
  {
    ExactExtended(G, H, tally, R);
  }

  lemma ObjectOfMember(G: Graph, t: StackItem)
    requires AllContainers(G) && t.IsContainer()
    ensures t in G ==> t.Obj() in Objects(G)
  {
  }

  /** A new array or struct joins the snapshot; the books do not know it before it is pushed. */
  method Make(counters: Counters, s: seq<StackItem>, asStruct: bool, ghost G: Graph, ghost rank: map<StackItem, nat>,
              ghost R: multiset<StackItem>)
    returns (t: StackItem, ghost H: Graph, ghost rank': map<StackItem, nat>)
    requires Ranked(G, rank) && counters.Audited(G, R) && Covers(G, s)
    ensures IsList(t) && t.Struct? == asStruct && t !in G && fresh(t.Obj()) && H == G[t := s]
    ensures Ranked(H, rank') && counters.Audited(H, R) && fresh(Objects(H) - Objects(G))
  {
    if asStruct {
      var st := new StructItem(s);
      t := Struct(st);
    } else {
      var a := new ArrayItem(s);
      t := Array(a);
    }
    ShowsKept(G);
    H := G[t := s];
    ObjectOfMember(G, t);
    rank' := MadeRanked(G, rank, t, s);
    MadeExact(G, H, counters.Now(), R, t, s);
    forall c | c in H ensures c.Children() == H[c] {
      if c != t { assert c in G; }
    }
  }

  /** NEWMAP. */
  method NewMap(counters: Counters, ghost G: Graph, ghost rank: map<StackItem, nat>, ghost R: multiset<StackItem>)
    returns (t: StackItem, ghost H: Graph, ghost rank': map<StackItem, nat>)
    requires Ranked(G, rank) && counters.Audited(G, R)
    ensures t.Map? && t.m.value == [] && t !in G && fresh(t.Obj()) && H == G[t := []]
    ensures Ranked(H, rank') && counters.Audited(H, R) && fresh(Objects(H) - Objects(G))
  {
    var m := new MapItem();
    t := Map(m);
    ShowsKept(G);
    H := G[t := []];
    ObjectOfMember(G, t);
    rank' := MadeRanked(G, rank, t, []);
    MadeExact(G, H, counters.Now(), R, t, []);
    forall c | c in H ensures c.Children() == H[c] {
      if c != t { assert c in G; }
    }
  }

  function Falses(n: nat): seq<StackItem> { seq(n, _ => Boolean(false)) }

  /** The number of elements asked for, if it is one that NEWARRAY and NEWSTRUCT accept. */
  function LengthOf(item: StackItem): Option<nat> {
    match IntegerOf(item)
    case None => None
    case Some(n) => if 0 <= Int64(n) <= MAX_ARRAY_SIZE then Some(Int64(n)) else None
  }

  /**
    NEWARRAY and NEWSTRUCT. A list of the kind asked for is passed on; one of the other kind is copied,
    the slots being shared; a number asks for that many falses.
   */
  method NewList(counters: Counters, item: StackItem, asStruct: bool, ghost G: Graph, ghost rank: map<StackItem, nat>,
                 ghost R: multiset<StackItem>)
    returns (ok: bool, t: StackItem, ghost H: Graph, ghost rank': map<StackItem, nat>)
    requires Ranked(G, rank) && counters.Audited(G, R) && Covered(G, item)
    ensures ok <==> IsList(item) || LengthOf(item) != None
    ensures ok ==> IsList(t) && t.Struct? == asStruct
    ensures ok && IsList(item) && item.Struct? == asStruct ==> t == item && H == G
    ensures ok && IsList(item) && item.Struct? != asStruct ==> t !in G && H == G[t := G[item]]
    ensures ok && !IsList(item) ==> t !in G && H == G[t := Falses(LengthOf(item).value)]
    ensures !ok ==> H == G
    ensures Ranked(H, rank') && counters.Audited(H, R) && fresh(Objects(H) - Objects(G))
  {
    ok, t, H, rank' := true, item, G, rank;
    if IsList(item) {
      if item.Struct? != asStruct {
        var slots := SlotsOf(item, G);
        ShowsKept(G);
        assert Covers(G, G[item]);
        t, H, rank' := Make(counters, slots, asStruct, G, rank, R);
      }
    } else if LengthOf(item) == None {
      ok := false;
    } else {
      t, H, rank' := Make(counters, Falses(LengthOf(item).value), asStruct, G, rank, R);
    }
  }

  /** VALUES: a new array of the slots of a container, structs among them cloned. */
  method ValuesArray(counters: Counters, item: StackItem, ghost G: Graph, ghost rank: map<StackItem, nat>,
                     ghost R: multiset<StackItem>)
    returns (ok: bool, t: StackItem, ghost K: Graph, ghost rank1: map<StackItem, nat>, ghost H: Graph,
             ghost rank': map<StackItem, nat>)
    requires Ranked(G, rank) && counters.Audited(G, R) && Covered(G, item)
    ensures ok <==> item.IsContainer()
    ensures !ok ==> H == G
    ensures ok ==> ClonedInto(G, rank, K, rank1) && t.Array? && t !in K && H.Keys == K.Keys + {t} && H == K[t := H[t]]
    ensures ok ==> |H[t]| == |G[item]| && FieldsCloned(G, K, rank1, G[item], H[t])
    ensures Ranked(H, rank') && counters.Audited(H, R) && fresh(Objects(H) - Objects(G))
  {
    ok, t, K, rank1, H, rank' := false, item, G, rank, G, rank;
    if !item.IsContainer() {
      return;
    }
    var src := SlotsOf(item, G);
    ShowsKept(G);
    SlotsKnown(G, item);
    ClonedNothing(G, rank);
    var arr := [];
    for i := 0 to |src|
      invariant |arr| == i
      invariant ClonedInto(G, rank, K, rank1) && FieldsCloned(G, K, rank1, src, arr)
      invariant counters.Audited(K, R) && fresh(Objects(K) - Objects(G))
    {
      ghost var K0, rank0 := K, rank1;
      assert Covered(K0, src[i]) by { if src[i].IsContainer() { assert src[i] in K0; } }
      var field;
      field, K, rank1 := CloneIfStruct(src[i], K0, rank0);
      AuditedExtended(counters, K0, K, R);
      FieldClonedEarlier(G, rank, K0, rank0, K, rank1, src[i], field);
      OneMoreField(G, K0, rank0, K, rank1, src, arr, field);
      ClonedTwice(G, rank, K0, rank0, K, rank1);
      arr := arr + [field];
    }
    assert Covers(K, arr) by {
      forall x | x in arr && x.IsContainer() ensures x in K {
        var k :| 0 <= k < |arr| && arr[k] == x;
        assert FieldCloned(G, K, rank1, src[k], arr[k]);
      }
    }
    t, H, rank' := Make(counters, arr, false, K, rank1, R);
    ok := true;
  }
}
