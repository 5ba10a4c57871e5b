/**
  Reading items. The decoder builds, from new containers that share nothing, an item whose tree is the one
  that the bytes describe. So what was serialized comes back structurally equal, and serializes alike.
 */
module Deserialization {
  import opened Options
  import opened Bytes
  import opened BigInt
  import opened Items
  import opened Equality
  import opened OrderedMap
  import opened BinIO
  import opened ItemBytes
  import opened Serialization

  // ----- walks of parts

  ghost predicate Widens(L: Layout, M: Layout) {
    forall x {:trigger M[x]} {:trigger x in M} :: x in L ==> x in M && M[x] == L[x]
  }

  ghost predicate Visited(L: Layout, x: StackItem, t: Tree)
    requires WellLaid(L)
  {
    InLayout(L, x) && Visit(L, x, {}).Done? && Visit(L, x, {}).tree == t
  }

  /** More containers, some of them seen before but none of them met here, do not change a walk. */
  lemma {:induction false} VisitWidened(L: Layout, M: Layout, x: StackItem, a: set<StackItem>, extra: set<StackItem>)
    requires WellLaid(L) && WellLaid(M) && Widens(L, M) && InLayout(L, x) && Visit(L, x, a).Done?
    requires extra !! Visit(L, x, a).seen - a && extra <= M.Keys
    ensures InLayout(M, x) && Visit(M, x, a + extra) == Done(Visit(L, x, a).tree, Visit(L, x, a).seen + extra)
    decreases L.Keys - a, 0
  {
    if x.IsContainer() {
      assert x in M && M[x] == L[x] && x in L.Keys - a;
      assert a + extra + {x} == a + {x} + extra;
      assert x in Visit(L, x, a).seen - a && x !in a + extra;
      VisitAllWidened(L, M, L[x].slots, a + {x}, extra);
      assert Visit(M, x, a + extra) == Done(Visit(L, x, a).tree, Visit(L, x, a).seen + extra);
    } else {
      assert x !in M;
    }
  }

  lemma {:induction false} VisitAllWidened(L: Layout, M: Layout, xs: seq<StackItem>, a: set<StackItem>,
                                          extra: set<StackItem>)
    requires WellLaid(L) && WellLaid(M) && Widens(L, M) && AllInLayout(L, xs) && VisitAll(L, xs, a).DoneAll?
    requires extra !! VisitAll(L, xs, a).seenAll - a && extra <= M.Keys
    ensures AllInLayout(M, xs)
    ensures VisitAll(M, xs, a + extra) == DoneAll(VisitAll(L, xs, a).trees, VisitAll(L, xs, a).seenAll + extra)
    decreases L.Keys - a, 1, xs
  {
    forall i | 0 <= i < |xs| ensures InLayout(M, xs[i]) { assert InLayout(L, xs[i]); }
    if xs != [] {
      var s := Visit(L, xs[0], a).seen;
      VisitWidened(L, M, xs[0], a, extra);
      VisitAllWidened(L, M, xs[1..], s, extra);
    }
  }

  /** Items that were read one by one, and what each walk meets. */
  ghost predicate Parts(L: Layout, xs: seq<StackItem>, ts: seq<Tree>, ps: seq<set<StackItem>>)
    requires WellLaid(L)
  {
    && |xs| == |ts| == |ps|
    && (forall i {:trigger xs[i]} {:trigger ps[i]} :: 0 <= i < |xs| ==>
          InLayout(L, xs[i]) && Visit(L, xs[i], {}) == Done(ts[i], ps[i]))
    && (forall i, j {:trigger ps[i], ps[j]} :: 0 <= i < j < |ps| ==> ps[i] !! ps[j])
  }

  /** Parts that share nothing are walked one after the other as they are on their own. */
  lemma {:induction false} PartsVisited(L: Layout, xs: seq<StackItem>, ts: seq<Tree>, ps: seq<set<StackItem>>,
                                       seen: set<StackItem>)
    requires WellLaid(L) && Parts(L, xs, ts, ps)
    requires seen <= L.Keys && forall i {:trigger ps[i]} :: 0 <= i < |ps| ==> ps[i] !! seen
    ensures AllInLayout(L, xs) && VisitAll(L, xs, seen).DoneAll? && VisitAll(L, xs, seen).trees == ts
    decreases |xs|
  {
    if xs == [] {
      assert ts == [];
    } else {
      assert ps[0] !! seen && {} + seen == seen;
      VisitWidened(L, L, xs[0], {}, seen);
      assert Visit(L, xs[0], seen) == Done(ts[0], ps[0] + seen);
      PartsVisited(L, xs[1..], ts[1..], ps[1..], ps[0] + seen);
      assert ts == [ts[0]] + ts[1..];
    }
  }

  /** A new container of such parts. */
  lemma NodeVisited(L: Layout, M: Layout, c: StackItem, ts: seq<Tree>, ps: seq<set<StackItem>>)
    requires WellLaid(L) && WellLaid(M) && Widens(L, M) && c in M && c !in L && Parts(L, M[c].slots, ts, ps)
    ensures Visited(M, c, Node(KindOf(c), M[c].keys, ts))
  {
    var xs := M[c].slots;
    var none: set<StackItem> := {};
    forall i | 0 <= i < |xs| ensures InLayout(M, xs[i]) && Visit(M, xs[i], {}) == Done(ts[i], ps[i]) && c !in ps[i] {
      VisitWidened(L, M, xs[i], none, none);
      assert ps[i] + none == ps[i] && none + none == none;
      assert ps[i] <= none + L.Keys;
    }
    PartsVisited(M, xs, ts, ps, {c});
    assert none + {c} == {c};
  }

  // ----- putting layouts together

  lemma Merged(L: Layout, C: Layout)
    requires WellLaid(L) && WellLaid(C) && L.Keys !! C.Keys
    ensures WellLaid(L + C) && Widens(L, L + C) && Widens(C, L + C)
    ensures LayoutObjects(L + C) == LayoutObjects(L) + LayoutObjects(C)
  {
    var M := L + C;
    forall x | x in M ensures WellShaped(x, M[x]) && AllInLayout(M, M[x].slots) {
      forall i | 0 <= i < |M[x].slots| ensures InLayout(M, M[x].slots[i]) {
        if x in C { assert InLayout(C, C[x].slots[i]); } else { assert InLayout(L, L[x].slots[i]); }
      }
    }
  }

  lemma StillVisited(L: Layout, M: Layout, x: StackItem)
    requires WellLaid(L) && WellLaid(M) && Widens(L, M) && InLayout(L, x) && Visit(L, x, {}).Done?
    ensures InLayout(M, x) && Visit(M, x, {}) == Visit(L, x, {}) && Visit(L, x, {}).seen <= L.Keys
  {
    var none: set<StackItem> := {};
    assert none + none == none && Visit(L, x, none).seen + none == Visit(L, x, none).seen && none + L.Keys == L.Keys;
    VisitWidened(L, M, x, none, none);
  }

  lemma PartAdded(L: Layout, C: Layout, xs: seq<StackItem>, ts: seq<Tree>, ps: seq<set<StackItem>>, x: StackItem)
    requires WellLaid(L) && WellLaid(C) && L.Keys !! C.Keys && WellLaid(L + C)
    requires Parts(L, xs, ts, ps) && InLayout(C, x) && Visit(C, x, {}).Done?
    ensures Parts(L + C, xs + [x], ts + [Visit(C, x, {}).tree], ps + [Visit(C, x, {}).seen])
  {
    StillVisited(C, L + C, x);
    forall i | 0 <= i < |xs|
      ensures InLayout(L + C, xs[i]) && Visit(L + C, xs[i], {}) == Done(ts[i], ps[i]) && ps[i] <= L.Keys
    {
      StillVisited(L, L + C, xs[i]);
    }
  }

  lemma PartReplaced(L: Layout, C: Layout, xs: seq<StackItem>, ts: seq<Tree>, ps: seq<set<StackItem>>, k: nat,
                     x: StackItem)
    requires WellLaid(L) && WellLaid(C) && L.Keys !! C.Keys && WellLaid(L + C)
    requires Parts(L, xs, ts, ps) && k < |xs| && InLayout(C, x) && Visit(C, x, {}).Done?
    ensures Parts(L + C, xs[k := x], ts[k := Visit(C, x, {}).tree], ps[k := Visit(C, x, {}).seen])
  {
    StillVisited(C, L + C, x);
    forall i | 0 <= i < |xs|
      ensures InLayout(L + C, xs[i]) && Visit(L + C, xs[i], {}) == Done(ts[i], ps[i]) && ps[i] <= L.Keys
    {
      StillVisited(L, L + C, xs[i]);
    }
  }

  // ----- the decoder

  /** What the decoder has built: new containers only, laid out as L shows. */
  ghost predicate Built(L: Layout)
    reads if WellLaid(L) then LayoutObjects(L) else {}
  {
    WellLaid(L) && Shown(L)
  }

  lemma NoReaders(L: Layout, r: BinReader)
    requires WellLaid(L)
    ensures r !in LayoutObjects(L)
  {
    OnlyContainers(L, r);
  }

  lemma ObjectOf(L: Layout, x: StackItem)
    requires WellLaid(L) && x.IsContainer()
    ensures x in L ==> x.Obj() in LayoutObjects(L)
  {
  }

  /** Layouts of containers that were made at different times have none in common. */
  lemma MadeApart(L: Layout, C: Layout)
    requires WellLaid(L) && WellLaid(C) && LayoutObjects(L) !! LayoutObjects(C)
    ensures L.Keys !! C.Keys
  {
    forall x | x in L ensures x !in C {
      assert WellShaped(x, L[x]);
      ObjectOf(L, x);
      ObjectOf(C, x);
    }
  }

  function Before(ts: seq<Tree>, p: ParsedKids): ParsedKids {
    match p
    case BadKids => BadKids
    case GoodKids(keys, kids, more) => GoodKids(keys, ts + kids, more)
  }

  /** What the parser makes of n more slots behind those in ts. */
  function RemainingSlots(n: nat, b: bytes, ts: seq<Tree>): ParsedKids { Before(ts, ParseSlots(n, b)) }

  lemma SlotParsed(n: nat, b: bytes, ts: seq<Tree>)
    requires n > 0
    ensures RemainingSlots(n, b, ts) ==
            match ParseItem(b) case Bad => BadKids case Good(t, rest) => RemainingSlots(n - 1, rest, ts + [t])
  {
    match ParseItem(b) {
      case Bad =>
      case Good(t, rest) =>
        match ParseSlots(n - 1, rest) {
          case BadKids =>
          case GoodKids(_, kids, more) => assert ts + ([t] + kids) == ts + [t] + kids;
        }
    }
  }

  /** What is known of the slots read so far: arr are the items, L, ts and ps describe them. */
  ghost predicate SlotsRead(arr: seq<StackItem>, L: Layout, ts: seq<Tree>, ps: seq<set<StackItem>>)
    reads if WellLaid(L) then LayoutObjects(L) else {}
  {
    Built(L) && Parts(L, arr, ts, ps)
  }

  /** Reads one slot more. After an error nothing is read any more. */
  method DecodeSlot(r: BinReader, arr: seq<StackItem>, ghost n: nat, ghost L: Layout, ghost ts: seq<Tree>,
                    ghost ps: seq<set<StackItem>>)
    returns (arr': seq<StackItem>, ghost L': Layout, ghost ts': seq<Tree>, ghost ps': seq<set<StackItem>>)
    requires SlotsRead(arr, L, ts, ps) && n > 0
    modifies r
    ensures |r.rest| <= |old(r.rest)| && (old(r.err) ==> r.err)
    ensures SlotsRead(arr', L', ts', ps') && fresh(LayoutObjects(L') - LayoutObjects(L))
    ensures !old(r.err) ==>
              RemainingSlots(n, old(r.rest), ts) == if r.err then BadKids else RemainingSlots(n - 1, r.rest, ts')
    decreases |r.rest|, 1
  {
    arr', L', ts', ps' := arr, L, ts, ps;
    SlotParsed(n, r.rest, ts);
    NoReaders(L, r);
    var item;
    ghost var C;
    item, C := DecodeItem(r);
    ShownKept(L);
    if !r.err {
      MadeApart(L, C);
      Merged(L, C);
      ShownTogether(L, C);
      PartAdded(L, C, arr, ts, ps, item);
      arr', ts', ps', L' := arr + [item], ts + [Visit(C, item, {}).tree], ps + [Visit(C, item, {}).seen], L + C;
    }
  }

  method DecodeSlots(r: BinReader, n: nat)
    returns (arr: seq<StackItem>, ghost L: Layout, ghost ts: seq<Tree>, ghost ps: seq<set<StackItem>>)
    modifies r
    ensures |r.rest| <= |old(r.rest)| && (old(r.err) ==> r.err)
    ensures Built(L) && fresh(LayoutObjects(L)) && Parts(L, arr, ts, ps)
    ensures !old(r.err) ==> match ParseSlots(n, old(r.rest))
                            case BadKids => r.err
                            case GoodKids(_, kids, more) => !r.err && r.rest == more && ts == kids
    decreases |r.rest|, 2
  {
    arr, L, ts, ps := [], map[], [], [];
    ghost var b0 := r.rest;
    ghost var whole := RemainingSlots(n, b0, []);
    assert whole == ParseSlots(n, b0);
    for i := 0 to n
      invariant |r.rest| <= |b0| && (old(r.err) ==> r.err)
      invariant SlotsRead(arr, L, ts, ps) && fresh(LayoutObjects(L))
      invariant !old(r.err) ==> whole == if r.err then BadKids else RemainingSlots(n - i, r.rest, ts)
    {
      arr, L, ts, ps := DecodeSlot(r, arr, n - i, L, ts, ps);
    }
  }

  lemma {:induction false} PlacedAlike(es: seq<MapElement>, k: StackItem)
    requires ValidKeys(es) && IsValidMapKey(k)
    ensures Place(es, KeyBytes(k)) == PlaceOf(Keys(es), k)
    decreases |es|
  {
    if es != [] {
      assert Keys(es)[1..] == Keys(es[1..]);
      PlacedAlike(es[1..], k);
    }
  }

  lemma FiledAsParsed(es: seq<MapElement>, k: StackItem, v: StackItem)
    requires ValidKeys(es) && IsValidMapKey(k)
    ensures var p := PlaceOf(Keys(es), k);
            if p < |es| then Keys(Filed(es, k, v)) == Keys(es) && Values(Filed(es, k, v)) == Values(es)[p := v]
            else Keys(Filed(es, k, v)) == Keys(es) + [k] && Values(Filed(es, k, v)) == Values(es) + [v]
  {
    PlacedAlike(es, k);
  }

  /** The pair that starts at b: key tree, value tree, and what follows. */
  function ParsePair(b: bytes): Option<(Tree, Tree, bytes)> {
    match ParseItem(b)
    case Bad => None
    case Good(k, rest) =>
      match ParseItem(rest)
      case Bad => None
      case Good(t, more) => Some((k, t, more))
  }

  /** What the parser makes of n more pairs. */
  function Remaining(n: nat, b: bytes, keys: seq<StackItem>, kids: seq<Tree>): ParsedKids
    requires |keys| == |kids|
  {
    ParseEntries(n, b, keys, kids)
  }

  /** The parser takes the step that filing the pair takes. */
  lemma EntryStep(n: nat, b: bytes, keys: seq<StackItem>, kids: seq<Tree>, key: StackItem, t: Tree, more: bytes,
                  keys': seq<StackItem>, kids': seq<Tree>)
    requires n > 0 && |keys| == |kids| && |keys'| == |kids'| && IsPrimitive(key)
    requires ParsePair(b) == Some((Leaf(key), t, more))
    requires var p := PlaceOf(keys, key);
             if p < |keys| then keys' == keys && kids' == kids[p := t] else keys' == keys + [key] && kids' == kids + [t]
    ensures ParseEntries(n, b, keys, kids) == ParseEntries(n - 1, more, keys', kids')
  {
  }

  /** No pair there, or one with an unusable key. */
  lemma EntryRefused(n: nat, b: bytes, keys: seq<StackItem>, kids: seq<Tree>)
    requires n > 0 && |keys| == |kids|
    requires ParsePair(b) == None || !(ParsePair(b).value.0.Leaf? && IsPrimitive(ParsePair(b).value.0.item))
    ensures ParseEntries(n, b, keys, kids) == BadKids
  {
  }

  lemma LeafIsPrimitive(L: Layout, x: StackItem, t: Tree)
    requires WellLaid(L) && Visited(L, x, t)
    ensures t.Leaf? <==> IsPrimitive(x)
    ensures t.Leaf? ==> t == Leaf(x)
  {
  }

  method DecodePair(r: BinReader) returns (key: StackItem, value: StackItem, ghost C: Layout)
    modifies r
    ensures |r.rest| <= |old(r.rest)| && (old(r.err) ==> r.err)
    ensures Built(C) && fresh(LayoutObjects(C)) && InLayout(C, value)
    ensures !old(r.err) ==> match ParsePair(old(r.rest))
                            case None => r.err
                            case Some((k, t, more)) =>
                              && !r.err && r.rest == more && Visited(C, value, t)
                              && (k.Leaf? <==> IsPrimitive(key)) && (k.Leaf? ==> k == Leaf(key))
    decreases |r.rest|, 1
  {
    ghost var b, e := r.rest, r.err;
    ghost var K;
    key, K := DecodeItem(r);
    if !e {
      match ParseItem(b) {
        case Bad =>
        case Good(k, _) => LeafIsPrimitive(K, key, k);
      }
    }
    value, C := DecodeItem(r);
  }

  /** Files a pair that was read. */
  method FilePair(m: MapItem, key: StackItem, value: StackItem, ghost L: Layout, ghost C: Layout, ghost ts: seq<Tree>,
                  ghost ps: seq<set<StackItem>>)
    returns (ghost ts': seq<Tree>, ghost ps': seq<set<StackItem>>)
    requires Built(L) && Built(C) && LayoutObjects(L) !! LayoutObjects(C) && IsValidMapKey(key)
    requires m !in LayoutObjects(L) && m !in LayoutObjects(C)
    requires InLayout(C, value) && Visit(C, value, {}).Done?
    requires DistinctKeys(m.value) && Parts(L, Values(m.value), ts, ps)
    modifies m
    ensures DistinctKeys(m.value) && Built(L + C) && LayoutObjects(L + C) == LayoutObjects(L) + LayoutObjects(C)
    ensures Parts(L + C, Values(m.value), ts', ps')
    ensures var ks, p := old(Keys(m.value)), PlaceOf(old(Keys(m.value)), key);
            if p < |ks| then Keys(m.value) == ks && ts' == ts[p := Visit(C, value, {}).tree]
            else Keys(m.value) == ks + [key] && ts' == ts + [Visit(C, value, {}).tree]
  {
    MadeApart(L, C);
    Merged(L, C);
    FiledAsParsed(m.value, key, value);
    ghost var p := PlaceOf(Keys(m.value), key);
    if p < |m.value| {
      PartReplaced(L, C, Values(m.value), ts, ps, p, value);
      ts', ps' := ts[p := Visit(C, value, {}).tree], ps[p := Visit(C, value, {}).seen];
    } else {
      PartAdded(L, C, Values(m.value), ts, ps, value);
      ts', ps' := ts + [Visit(C, value, {}).tree], ps + [Visit(C, value, {}).seen];
    }
    var _ := Add(m, key, value);
    ShownKept(L);
    ShownKept(C);
    ShownTogether(L, C);
  }

  lemma ShownTogether(L: Layout, C: Layout)
    requires Built(L) && Built(C) && L.Keys !! C.Keys && WellLaid(L + C)
    ensures Shown(L + C)
  {
    var M := L + C;
    forall x | x in M ensures ShownAt(x, M[x]) {
      if x in C { assert M[x] == C[x]; } else { assert M[x] == L[x]; }
    }
  }

  /** Reads one pair of a map and files it; an unusable key stops the decoder for good. */
  method DecodeEntry(r: BinReader, m: MapItem, ghost n: nat, ghost L: Layout, ghost ts: seq<Tree>,
                     ghost ps: seq<set<StackItem>>)
    returns (ghost L': Layout, ghost ts': seq<Tree>, ghost ps': seq<set<StackItem>>)
    requires !r.err && n > 0
    requires Built(L) && Parts(L, Values(m.value), ts, ps) && DistinctKeys(m.value) && m !in LayoutObjects(L)
    modifies r, m
    ensures |r.rest| <= |old(r.rest)|
    ensures Built(L') && Parts(L', Values(m.value), ts', ps') && DistinctKeys(m.value)
    ensures fresh(LayoutObjects(L') - LayoutObjects(L))
    ensures Remaining(n, old(r.rest), old(Keys(m.value)), ts) ==
            if r.err then BadKids else Remaining(n - 1, r.rest, Keys(m.value), ts')
    decreases |r.rest|, 2
  {
    ghost var b, ks := r.rest, Keys(m.value);
    L', ts', ps' := L, ts, ps;
    NoReaders(L, r);
    var key, value;
    ghost var C;
    key, value, C := DecodePair(r);
    ShownKept(L);
    if r.err {
      EntryRefused(n, b, ks, ts);
    } else if !IsValidMapKey(key) {
      EntryRefused(n, b, ks, ts);
      r.err := true;
    } else {
      ts', ps' := FilePair(m, key, value, L, C, ts, ps);
      EntryStep(n, b, ks, ts, key, Visit(C, value, {}).tree, r.rest, Keys(m.value), ts');
      L' := L + C;
    }
  }

  method DecodeEntries(r: BinReader, n: nat, m: MapItem)
    returns (ghost L: Layout, ghost ts: seq<Tree>, ghost ps: seq<set<StackItem>>)
    requires m.value == [] && (r.err ==> n == 0)
    modifies r, m
    ensures |r.rest| <= |old(r.rest)| && (old(r.err) ==> r.err)
    ensures Built(L) && fresh(LayoutObjects(L)) && Parts(L, Values(m.value), ts, ps) && DistinctKeys(m.value)
    ensures !old(r.err) ==> match ParseEntries(n, old(r.rest), [], [])
                            case BadKids => r.err
                            case GoodKids(keys, kids, more) =>
                !r.err && r.rest == more && ts == kids && Keys(m.value) == keys
    decreases |r.rest|, 3
  {
    L, ts, ps := map[], [], [];
    ghost var b0 := r.rest;
    ghost var whole := Remaining(n, b0, [], []);
    assert Keys(m.value) == [];
    for i := 0 to n
      invariant |r.rest| <= |b0| && r.err == old(r.err)
      invariant Built(L) && fresh(LayoutObjects(L)) && Parts(L, Values(m.value), ts, ps) && DistinctKeys(m.value)
      invariant whole == Remaining(n - i, r.rest, Keys(m.value), ts)
    {
      L, ts, ps := DecodeEntry(r, m, n - i, L, ts, ps);
      if r.err {
        break;
      }
    }
  }

  /** A failed read leaves a placeholder; callers look at the error first. */
  method DecodeItem(r: BinReader) returns (item: StackItem, ghost L: Layout)
    modifies r
    ensures |r.rest| <= |old(r.rest)| && (old(r.err) ==> r.err)
    ensures Built(L) && fresh(LayoutObjects(L)) && InLayout(L, item)
    ensures !old(r.err) ==> match ParseItem(old(r.rest))
                            case Bad => r.err
                            case Good(t, rest) => !r.err && r.rest == rest && Visited(L, item, t)
    decreases |r.rest|, 0
  {
    item, L := Boolean(false), map[];
    ghost var b0 := r.rest;
    var t := r.ReadB();
    if r.err {
      return;
    }
    assert b0 == [t] + r.rest;
    if t == 0x00 {
      var data := r.ReadVarBytes();
      item := ByteArray(data);
    } else if t == 0x01 {
      var b := r.ReadBool();
      item := Boolean(b);
    } else if t == 0x02 {
      var data := r.ReadVarBytes();
      var n := BytesToInt(data);
      item := BigInteger(n);
    } else if t == 0x80 || t == 0x81 {
      item, L := DecodeList(r, t);
    } else if t == 0x82 {
      item, L := DecodeMap(r);
    } else {
      r.err := true;
    }
  }

  lemma ListParsed(t: byte, b: bytes)
    requires t == 0x80 || t == 0x81
    ensures ParseItem([t] + b) ==
            match ParseVarUint(b)
            case None => Bad
            case Some((n, rest)) =>
              if n >= TWO_TO_THE_64 / 2 then Bad
              else match ParseSlots(n, rest)
                case BadKids => Bad
                case GoodKids(_, kids, more) => Good(Node(if t == 0x80 then KArray else KStruct, [], kids), more)
  {
    assert ([t] + b)[1..] == b;
  }

  lemma MapParsed(b: bytes)
    ensures ParseItem([0x82] + b) ==
            match ParseVarUint(b)
            case None => Bad
            case Some((n, rest)) =>
              match ParseEntries(if n >= TWO_TO_THE_64 / 2 then 0 else n, rest, [], [])
              case BadKids => Bad
              case GoodKids(keys, kids, more) => Good(Node(KMap, keys, kids), more)
  {
    var b1: bytes := [0x82] + b;
    assert b1[1..] == b;
  }

  method NewListItem(arr: seq<StackItem>, asStruct: bool, ghost C: Layout, ghost ts: seq<Tree>,
                     ghost ps: seq<set<StackItem>>)
    returns (item: StackItem, ghost L: Layout)
    requires Built(C) && Parts(C, arr, ts, ps)
    ensures Built(L) && item in L && fresh(LayoutObjects(L) - LayoutObjects(C))
    ensures Visited(L, item, Node(if asStruct then KStruct else KArray, [], ts))
  {
    if asStruct {
      var st := new StructItem(arr);
      item := Struct(st);
    } else {
      var a := new ArrayItem(arr);
      item := Array(a);
    }
    ShownKept(C);
    ObjectOf(C, item);
    L := C[item := Shape([], arr)];
    NodeLaid(C, item, Shape([], arr), ts, ps);
    forall x | x in L ensures ShownAt(x, L[x]) {
      if x != item { assert x in C; }
    }
  }

  lemma NodeLaid(C: Layout, c: StackItem, s: Shape, ts: seq<Tree>, ps: seq<set<StackItem>>)
    requires WellLaid(C) && c !in C && WellShaped(c, s) && Parts(C, s.slots, ts, ps)
    ensures WellLaid(C[c := s]) && Visited(C[c := s], c, Node(KindOf(c), s.keys, ts))
    ensures LayoutObjects(C[c := s]) == LayoutObjects(C) + {c.Obj()}
  {
    var L := C[c := s];
    forall x | x in L ensures WellShaped(x, L[x]) && AllInLayout(L, L[x].slots) {
      forall i | 0 <= i < |L[x].slots| ensures InLayout(L, L[x].slots[i]) {
        if x == c { assert InLayout(C, s.slots[i]); } else { assert InLayout(C, C[x].slots[i]); }
      }
    }
    NodeVisited(C, L, c, ts, ps);
  }

  method DecodeList(r: BinReader, t: byte) returns (item: StackItem, ghost L: Layout)
    requires (t == 0x80 || t == 0x81) && !r.err
    modifies r
    ensures |r.rest| <= |old(r.rest)|
    ensures Built(L) && fresh(LayoutObjects(L)) && InLayout(L, item)
    ensures match ParseItem([t] + old(r.rest))
            case Bad => r.err
            case Good(tree, rest) => !r.err && r.rest == rest && Visited(L, item, tree)
    decreases |r.rest|, 3
  {
    ListParsed(t, r.rest);
    item, L := Boolean(false), map[];
    var size := r.ReadVarUint();
    if size >= TWO_TO_THE_64 / 2 {
      r.err := true;
      return;
    }
    var arr;
    ghost var C, ts, ps;
    arr, C, ts, ps := DecodeSlots(r, size);
    item, L := NewListItem(arr, t == 0x81, C, ts, ps);
  }

  method DecodeMap(r: BinReader) returns (item: StackItem, ghost L: Layout)
    requires !r.err
    modifies r
    ensures |r.rest| <= |old(r.rest)|
    ensures Built(L) && fresh(LayoutObjects(L)) && InLayout(L, item)
    ensures match ParseItem([0x82] + old(r.rest))
            case Bad => r.err
            case Good(tree, rest) => !r.err && r.rest == rest && Visited(L, item, tree)
    decreases |r.rest|, 4
  {
    MapParsed(r.rest);
    item, L := Boolean(false), map[];
    var size := r.ReadVarUint();
    var m := new MapItem();
    ghost var C, ts, ps;
    C, ts, ps := DecodeEntries(r, if size >= TWO_TO_THE_64 / 2 then 0 else size, m);
    item := Map(m);
    ObjectOf(C, item);
    L := C[item := Shape(Keys(m.value), Values(m.value))];
    NodeLaid(C, item, Shape(Keys(m.value), Values(m.value)), ts, ps);
  }
}
