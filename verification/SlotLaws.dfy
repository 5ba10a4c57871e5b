/**
  Which slot the object opcodes take, said of the snapshot before and behind them: a list by the number that the
  key stands for, a map by the bytes of the key.
 */
module SlotLaws {
  import opened Limits
  import opened Options
  import opened Bytes
  import opened Conversions
  import opened NumberNames
  import opened Items
  import opened SeqOps
  import opened RefCount
  import opened RemovalWalk
  import opened Equality
  import opened OrderedMap
  import opened MapKeys
  import opened Edits
  import opened ObjectOps
  import opened HeapWrites
  import opened Packing
  import opened ObjectRuns

  lemma NamedIndex(x: StackItem, j: int)
    requires Names(x, j)
    ensures IsPrimitive(x) && IsValidMapKey(x) && IndexOf(x) == j && NumberOf(x) == Some(j)
  {
    NamedNumber(x, j);
  }

  // ----- lists

  /** Other containers are as they were; there may be new ones. */
  ghost predicate OnlyChanges(s: Snap, t: StackItem, s': Snap) {
    s'.a == s.a && forall c {:trigger s'.G[c]} :: c in s.G && c != t ==> c in s'.G && s'.G[c] == s.G[c]
  }

  /** What is stored for an item: itself, or a new struct for a struct, equal to it in the heap with the clones. */
  predicate StoredFor(s: Snap, item: StackItem, val: StackItem) {
    if item.Struct? then val.Struct? && val !in s.G else val == item
  }

  lemma JoinedKeeps(G: Graph, K: Graph, order: map<StackItem, nat>, c: StackItem)
    requires ClonesJoin(G, K, order) && c in G
    ensures c in K && K[c] == G[c]
  {
  }

  /** SETITEM on a list: the item on top goes into the slot that the key names, and there must be one. */
  lemma ListSet(s: Snap, ev: Event, s': Snap, j: int)
    requires |s.e| >= 3 && IsList(s.e[2]) && Names(s.e[1], j) && Does(SetItemAt, s, ev, s')
    ensures var t := s.e[2];
            && t in s.G && t in s'.G && 0 <= j < |s.G[t]| && s'.e == s.e[3..] && OnlyChanges(s, t, s')
            && |s'.G[t]| == |s.G[t]| && StoredFor(s, s.e[0], s'.G[t][j]) && s'.G[t] == s.G[t][j := s'.G[t][j]]
    ensures s.e[0].Struct? ==> EqualIn(ev.w.K, ev.w.order, s.e[0], s'.G[s.e[2]][j])
  {
    NamedIndex(s.e[1], j);
    forall c | c in s.G && c != s.e[2] ensures c in s'.G && s'.G[c] == s.G[c] {
      JoinedKeeps(s.G, ev.w.K, ev.w.order, c);
    }
  }

  lemma ListSetGoes(s: Snap, j: int)
    requires |s.e| >= 3 && IsList(s.e[2]) && Names(s.e[1], j)
    ensures Goes(SetItemAt, s) <==> 0 <= j < |SlotsAt(s.G, s.e[2])|
  {
    NamedIndex(s.e[1], j);
  }

  /** REMOVE on a list: the slot that the key on top names goes, the others keep their order. */
  lemma ListRemove(s: Snap, ev: Event, s': Snap, j: int)
    requires |s.e| >= 2 && IsList(s.e[1]) && Names(s.e[0], j) && Does(RemoveItem, s, ev, s')
    ensures var t := s.e[1];
            && t in s.G && t in s'.G && 0 <= j < |s.G[t]| && s'.e == s.e[2..] && OnlyChanges(s, t, s')
            && s'.G[t] == s.G[t][..j] + s.G[t][j + 1..]
  {
    NamedIndex(s.e[0], j);
    Slices(s.G[s.e[1]], j, s.e[0]);
  }

  lemma ListRemoveGoes(s: Snap, j: int)
    requires |s.e| >= 2 && IsList(s.e[1]) && Names(s.e[0], j)
    ensures Goes(RemoveItem, s) <==> 0 <= j < |SlotsAt(s.G, s.e[1])|
    ensures 0 <= j < |SlotsAt(s.G, s.e[1])| ==> SlotOfKey(s.G, s.keys, s.e[1], s.e[0]) == Some(j)
  {
    NamedIndex(s.e[0], j);
  }

  /** APPEND: the item on top comes behind the last slot, up to 1024 of them. */
  lemma ListAppend(s: Snap, ev: Event, s': Snap)
    requires |s.e| >= 2 && Does(AppendItem, s, ev, s')
    ensures var t := s.e[1];
            && IsList(t) && t in s.G && t in s'.G && s'.e == s.e[2..] && OnlyChanges(s, t, s')
            && |s'.G[t]| == |s.G[t]| + 1 <= 1024 && s'.G[t][..|s.G[t]|] == s.G[t]
            && StoredFor(s, s.e[0], s'.G[t][|s.G[t]|])
    ensures s.e[0].Struct? ==> EqualIn(ev.w.K, ev.w.order, s.e[0], s'.G[s.e[1]][|s.G[s.e[1]]|])
  {
    forall c | c in s.G && c != s.e[1] ensures c in s'.G && s'.G[c] == s.G[c] {
      JoinedKeeps(s.G, ev.w.K, ev.w.order, c);
    }
  }

  // ----- maps

  /** The keys of the map are as many as its slots, and pairwise different. */
  ghost predicate Aligned(s: Snap, t: StackItem) {
    t in s.keys && t in s.G && |s.keys[t]| == |s.G[t]| && NoneTwice(s.keys[t])
  }

  /** The map has the value v for the key k. */
  ghost predicate Files(s: Snap, t: StackItem, k: bytes, v: StackItem) {
    t in s.keys && t in s.G && FiledIn(s.keys[t], s.G[t], k, v)
  }

  ghost predicate FiledIn(ks: seq<bytes>, xs: seq<StackItem>, k: bytes, v: StackItem) {
    exists i {:trigger ks[i]} {:trigger xs[i]} :: 0 <= i < |ks| && i < |xs| && ks[i] == k && xs[i] == v
  }

  lemma {:induction false} PlaceFound(ks: seq<bytes>, k: bytes)
    ensures var p := PlaceIn(ks, k); (p < |ks| ==> ks[p] == k) && forall i :: 0 <= i < p ==> ks[i] != k
  {
    if ks != [] && ks[0] != k {
      PlaceFound(ks[1..], k);
      forall i | 0 <= i < PlaceIn(ks, k) ensures ks[i] != k {
        if i > 0 { assert ks[i] == ks[1..][i - 1]; }
      }
    }
  }

  /** Keys are pairwise different. */
  ghost predicate NoneTwice(ks: seq<bytes>) {
    forall i, j {:trigger ks[i], ks[j]} :: 0 <= i < j < |ks| ==> ks[i] != ks[j]
  }

  function ValuesPut(ks: seq<bytes>, xs: seq<StackItem>, k: bytes, v: StackItem): seq<StackItem> {
    if PlaceIn(ks, k) < |xs| then xs[PlaceIn(ks, k) := v] else xs + [v]
  }

  function ValuesTaken(ks: seq<bytes>, xs: seq<StackItem>, k: bytes): seq<StackItem> {
    if PlaceIn(ks, k) < |xs| then Removed(xs, PlaceIn(ks, k)) else xs
  }

  lemma PutIsFiled(ks: seq<bytes>, xs: seq<StackItem>, k: bytes, v: StackItem, c: bytes, w: StackItem)
    requires |ks| == |xs| && NoneTwice(ks)
    requires if c == k then w == v else FiledIn(ks, xs, c, w)
    ensures FiledIn(KeysFiled(ks, k), ValuesPut(ks, xs, k, v), c, w)
  {
    PlaceFound(ks, k);
    var ls, ys := KeysFiled(ks, k), ValuesPut(ks, xs, k, v);
    if c == k {
      assert ls[PlaceIn(ks, k)] == k && ys[PlaceIn(ks, k)] == v;
    } else {
      var i :| 0 <= i < |ks| && i < |xs| && ks[i] == c && xs[i] == w;
      assert ls[i] == c && ys[i] == w;
    }
  }

  lemma FiledWasPut(ks: seq<bytes>, xs: seq<StackItem>, k: bytes, v: StackItem, c: bytes, w: StackItem)
    requires |ks| == |xs| && NoneTwice(ks)
    requires FiledIn(KeysFiled(ks, k), ValuesPut(ks, xs, k, v), c, w)
    ensures if c == k then w == v else FiledIn(ks, xs, c, w)
  {
    PlaceFound(ks, k);
    var ls, ys := KeysFiled(ks, k), ValuesPut(ks, xs, k, v);
    var i :| 0 <= i < |ls| && i < |ys| && ls[i] == c && ys[i] == w;
    if c != k { assert ks[i] == c && xs[i] == w; }
  }

  lemma TakenFiled(ks: seq<bytes>, xs: seq<StackItem>, k: bytes, c: bytes, w: StackItem)
    requires |ks| == |xs| && NoneTwice(ks) && c != k && FiledIn(ks, xs, c, w)
    ensures FiledIn(KeysUnfiled(ks, k), ValuesTaken(ks, xs, k), c, w)
  {
    PlaceFound(ks, k);
    var p, ls, ys := PlaceIn(ks, k), KeysUnfiled(ks, k), ValuesTaken(ks, xs, k);
    var i :| 0 <= i < |ks| && i < |xs| && ks[i] == c && xs[i] == w;
    assert ls[if i < p then i else i - 1] == c && ys[if i < p then i else i - 1] == w;
  }

  lemma FiledNotTaken(ks: seq<bytes>, xs: seq<StackItem>, k: bytes, c: bytes, w: StackItem)
    requires |ks| == |xs| && NoneTwice(ks) && FiledIn(KeysUnfiled(ks, k), ValuesTaken(ks, xs, k), c, w)
    ensures c != k && FiledIn(ks, xs, c, w)
  {
    PlaceFound(ks, k);
    var p, ls, ys := PlaceIn(ks, k), KeysUnfiled(ks, k), ValuesTaken(ks, xs, k);
    var i :| 0 <= i < |ls| && i < |ys| && ls[i] == c && ys[i] == w;
    if i < p { assert ks[i] == c && xs[i] == w; } else { assert ks[i + 1] == c && xs[i + 1] == w; }
  }

  lemma KeysStayApart(ks: seq<bytes>, k: bytes)
    requires NoneTwice(ks)
    ensures NoneTwice(KeysFiled(ks, k)) && NoneTwice(KeysUnfiled(ks, k))
  {
    PlaceFound(ks, k);
  }

  lemma SlotOfMapKey(s: Snap, t: StackItem, key: StackItem)
    requires t.Map? && Aligned(s, t) && IsValidMapKey(key)
    ensures var p := PlaceIn(s.keys[t], KeyBytes(key));
            SlotOfKey(s.G, s.keys, t, key) == if p < |s.G[t]| then Some(p) else None
    ensures SlotOfKey(s.G, s.keys, t, key) != None <==> exists v :: Files(s, t, KeyBytes(key), v)
  {
    var ks, k := s.keys[t], KeyBytes(key);
    var p := PlaceIn(ks, k);
    PlaceFound(ks, k);
    if p < |ks| { assert FiledIn(ks, s.G[t], k, s.G[t][p]) && Files(s, t, k, s.G[t][p]); }
    if v :| Files(s, t, k, v) { assert p < |ks|; }
  }

  /** SETITEM on a map: the item on top is filed under the bytes of the key; other keys keep their values. */
  lemma MapSet(s: Snap, ev: Event, s': Snap) returns (val: StackItem)
    requires |s.e| >= 3 && s.e[2].Map? && Aligned(s, s.e[2]) && Does(SetItemAt, s, ev, s')
    ensures var t, key := s.e[2], s.e[1];
            && IsValidMapKey(key) && s'.e == s.e[3..] && OnlyChanges(s, t, s') && Aligned(s', t)
            && StoredFor(s, s.e[0], val) && (s.e[0].Struct? ==> EqualIn(ev.w.K, ev.w.order, s.e[0], val))
            && forall k, v :: Files(s', t, k, v) <==> if k == KeyBytes(key) then v == val else Files(s, t, k, v)
  {
    var t, key := s.e[2], s.e[1];
    var ks, xs, k := s.keys[t], s.G[t], KeyBytes(key);
    val := ev.val;
    SlotOfMapKey(s, t, key);
    KeysStayApart(ks, k);
    assert s'.keys[t] == KeysFiled(ks, k) && s'.G[t] == ValuesPut(ks, xs, k, val);
    forall c | c in s.G && c != t ensures c in s'.G && s'.G[c] == s.G[c] {
      JoinedKeeps(s.G, ev.w.K, ev.w.order, c);
    }
    forall c, v ensures Files(s', t, c, v) <==> if c == k then v == val else Files(s, t, c, v) {
      if Files(s', t, c, v) { FiledWasPut(ks, xs, k, val, c, v); }
      if if c == k then v == val else Files(s, t, c, v) { PutIsFiled(ks, xs, k, val, c, v); }
    }
  }

  /** It faults exactly for a key that is no primitive, and for a new one when there are 1024. */
  lemma MapSetGoes(s: Snap)
    requires |s.e| >= 3 && s.e[2].Map? && Aligned(s, s.e[2])
    ensures Goes(SetItemAt, s) <==>
              IsValidMapKey(s.e[1])
              && (|s.G[s.e[2]]| < 1024 || exists v :: Files(s, s.e[2], KeyBytes(s.e[1]), v))
  {
    if IsValidMapKey(s.e[1]) { SlotOfMapKey(s, s.e[2], s.e[1]); }
  }

  /** REMOVE on a map: the key loses its value, if it has one, and the others keep theirs; it never faults. */
  lemma MapRemove(s: Snap, ev: Event, s': Snap)
    requires |s.e| >= 2 && s.e[1].Map? && Aligned(s, s.e[1]) && Does(RemoveItem, s, ev, s')
    ensures var t, key := s.e[1], s.e[0];
            && IsValidMapKey(key) && s'.e == s.e[2..] && OnlyChanges(s, t, s') && Aligned(s', t)
            && forall k, v :: Files(s', t, k, v) <==> k != KeyBytes(key) && Files(s, t, k, v)
  {
    var t, key := s.e[1], s.e[0];
    var ks, xs, k := s.keys[t], s.G[t], KeyBytes(key);
    SlotOfMapKey(s, t, key);
    KeysStayApart(ks, k);
    assert s'.keys[t] == KeysUnfiled(ks, k) && s'.G[t] == ValuesTaken(ks, xs, k);
    forall c, v ensures Files(s', t, c, v) <==> c != k && Files(s, t, c, v) {
      if Files(s', t, c, v) { FiledNotTaken(ks, xs, k, c, v); }
      if c != k && Files(s, t, c, v) { TakenFiled(ks, xs, k, c, v); }
    }
  }

  // ----- new lists

  /** NEWARRAY and NEWSTRUCT of a number: so many falses, 1024 at most. */
  lemma FalsesMade(asStruct: bool, s: Snap, ev: Event, s': Snap, n: int)
    requires s.e != [] && Names(s.e[0], n) && Does(if asStruct then NewStruct else NewArray, s, ev, s')
    ensures 0 <= n <= 1024 && s'.e != [] && s'.e[1..] == s.e[1..]
    ensures var t := s'.e[0];
            && IsList(t) && t.Struct? == asStruct && t !in s.G && t in s'.G && OnlyChanges(s, t, s')
            && |s'.G[t]| == n && forall i :: 0 <= i < n ==> s'.G[t][i] == Boolean(false)
  {
    NamedIndex(s.e[0], n);
  }

  lemma FalsesGo(asStruct: bool, s: Snap, n: int)
    requires s.e != [] && Names(s.e[0], n)
    ensures Goes(if asStruct then NewStruct else NewArray, s) <==> 0 <= n <= 1024
  {
    NamedIndex(s.e[0], n);
  }

  /** PACK: the items below the number, in order, in a new array. */
  lemma Packed(s: Snap, ev: Event, s': Snap, n: int)
    requires s.e != [] && Names(s.e[0], n) && Does(PackItems, s, ev, s')
    ensures 0 <= n < |s.e| && n <= 1024 && s'.e != [] && s'.e[1..] == s.e[n + 1..]
    ensures var t := s'.e[0]; t.Array? && t !in s.G && t in s'.G && OnlyChanges(s, t, s') && s'.G[t] == s.e[1..n + 1]
  {
    NamedIndex(s.e[0], n);
  }

  lemma PackGoes(s: Snap, n: int)
    requires s.e != [] && Names(s.e[0], n)
    ensures Goes(PackItems, s) <==> 0 <= n < |s.e| && n <= 1024
  {
    NamedIndex(s.e[0], n);
  }
}
