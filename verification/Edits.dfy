/**
  Changing one slot of a container, as APPEND, SETITEM and REMOVE do it: the old value is uncounted while it
  is still in its slot, then the slot is written, then the new value is counted. When this ends, and when the
  books are exact afterwards.
 */
module Edits {
  import opened Options
  import opened Items
  import opened SeqOps
  import opened RefCount
  import opened RemovalWalk
  import opened Equality
  import opened SlotBooks
  import opened Reaching

  datatype Edit = Added(val: StackItem) | Replaced(at: nat, val: StackItem) | Dropped(at: nat)

  predicate Fits(e: Edit, s: seq<StackItem>) { !e.Added? ==> e.at < |s| }

  function Applied(e: Edit, s: seq<StackItem>): seq<StackItem>
    requires Fits(e, s)
  {
    match e
    case Added(val) => s + [val]
    case Replaced(at, val) => s[at := val]
    case Dropped(at) => Removed(s, at)
  }

  /** A new value that is a container is in the snapshot. */
  predicate KnownEdit(G: Graph, e: Edit) { !e.Dropped? && e.val.IsContainer() ==> e.val in G }

  lemma EditCovered(G: Graph, c: StackItem, e: Edit)
    requires Closed(G) && c in G && Fits(e, G[c]) && KnownEdit(G, e)
    ensures Covers(G, Applied(e, G[c])) && Closed(G[c := Applied(e, G[c])])
  {
    var s := Applied(e, G[c]);
    assert Covers(G, G[c]);
    forall x | x in s && x.IsContainer() ensures x in G {
      if e.Dropped? { RemovedMembers(G[c], e.at); }
    }
    ClosedRewritten(G, c, s);
  }

  // ----- what an edit does to the counts

  /** The counts after the old value was uncounted; nothing if the walk goes on for longer than fuel. */
  function Uncounted(G: Graph, t: Tally, c: StackItem, e: Edit, fuel: nat): Option<Tally>
    requires c in G && Fits(e, G[c])
  {
    if e.Added? then Some(t) else Walk(G, t, G[c][e.at], fuel)
  }

  /** The counts after the new value was counted. */
  function Recounted(G: Graph, r: Tally, c: StackItem, e: Edit): Tally
    requires Sane(G, r) && c in G && Fits(e, G[c]) && KnownEdit(G, e)
  {
    EditCovered(G, c, e);
    if e.Dropped? then r else AddOne(G[c := Applied(e, G[c])], r, e.val)
  }

  ghost predicate EditEnds(G: Graph, t: Tally, c: StackItem, e: Edit)
    requires c in G && Fits(e, G[c])
  {
    e.Added? || Ends(G, t, G[c][e.at])
  }

  /** a is what the counts are after the edit, which ends. */
  ghost predicate EditLeaves(G: Graph, t: Tally, c: StackItem, e: Edit, a: Tally)
    requires Sane(G, t) && c in G && Fits(e, G[c]) && KnownEdit(G, e)
  {
    exists fuel: nat :: Uncounted(G, t, c, e, fuel) != None && a == After(G, t, c, e, fuel)
  }

  function After(G: Graph, t: Tally, c: StackItem, e: Edit, fuel: nat): Tally
    requires Sane(G, t) && c in G && Fits(e, G[c]) && KnownEdit(G, e) && Uncounted(G, t, c, e, fuel) != None
  {
    UncountedSane(G, t, c, e, fuel);
    Recounted(G, Uncounted(G, t, c, e, fuel).value, c, e)
  }

  lemma UncountedSane(G: Graph, t: Tally, c: StackItem, e: Edit, fuel: nat)
    requires Sane(G, t) && c in G && Fits(e, G[c]) && Uncounted(G, t, c, e, fuel) != None
    ensures Sane(G, Uncounted(G, t, c, e, fuel).value)
  {
    if !e.Added? { WalkShrinks(G, t, G[c][e.at], fuel); }
  }

  // ----- new containers do not matter

  lemma {:induction false} WalkExtended(G: Graph, H: Graph, t: Tally, x: StackItem, fuel: nat)
    requires Closed(G) && Extends(G, H) && Covered(G, x)
    ensures Walk(H, t, x, fuel) == Walk(G, t, x, fuel)
    decreases fuel, 0
  {
    if x.IsContainer() && CountOf(t.itemCount, x) <= 1 && fuel > 0 {
      assert Covers(G, G[x]);
      WalkAllExtended(G, H, Dead(t, x), G[x], fuel - 1);
    }
  }

  lemma {:induction false} WalkAllExtended(G: Graph, H: Graph, t: Tally, xs: seq<StackItem>, fuel: nat)
    requires Closed(G) && Extends(G, H) && Covers(G, xs)
    ensures WalkAll(H, t, xs, fuel) == WalkAll(G, t, xs, fuel)
    decreases fuel, 1, |xs|
  {
    if xs != [] {
      assert xs[0] in xs;
      WalkExtended(G, H, t, xs[0], fuel);
      if Walk(G, t, xs[0], fuel) != None { WalkAllExtended(G, H, Walk(G, t, xs[0], fuel).value, xs[1..], fuel); }
    }
  }

  lemma EndsExtended(G: Graph, H: Graph, t: Tally, x: StackItem)
    requires Closed(G) && Extends(G, H) && Covered(G, x) && Ends(G, t, x)
    ensures Ends(H, t, x)
  {
    var fuel: nat :| Walk(G, t, x, fuel) != None;
    WalkExtended(G, H, t, x, fuel);
  }

  // ----- when it ends

  /** A walk that leaves c its count never looks into c. */
  lemma {:induction false} NotLookedInto(G: Graph, H: Graph, t: Tally, c: StackItem, x: StackItem, fuel: nat)
    requires Positive(t) && Walk(G, t, x, fuel) != None && c in Walk(G, t, x, fuel).value.itemCount
    requires forall d {:trigger SlotsAt(G, d)} {:trigger SlotsAt(H, d)} :: d != c ==> SlotsAt(G, d) == SlotsAt(H, d)
    ensures Walk(H, t, x, fuel) == Walk(G, t, x, fuel)
    decreases fuel, 0
  {
    if x.IsContainer() && CountOf(t.itemCount, x) <= 1 {
      WalkOpens(G, t, x, fuel);
      WalkOpens(H, t, x, fuel);
      AllShrink(G, Dead(t, x), SlotsAt(G, x), fuel - 1);
      NotLookedIntoAll(G, H, Dead(t, x), c, SlotsAt(G, x), fuel - 1);
    }
  }

  lemma AllShrink(G: Graph, t: Tally, xs: seq<StackItem>, fuel: nat)
    requires Positive(t) && WalkAll(G, t, xs, fuel) != None
    ensures WalkAll(G, t, xs, fuel).value.itemCount.Keys <= t.itemCount.Keys
  {
    LowerAllEnd(G, t, t, xs, fuel);
  }

  lemma {:induction false} NotLookedIntoAll(G: Graph, H: Graph, t: Tally, c: StackItem, xs: seq<StackItem>, fuel: nat)
    requires Positive(t) && WalkAll(G, t, xs, fuel) != None && c in WalkAll(G, t, xs, fuel).value.itemCount
    requires forall d {:trigger SlotsAt(G, d)} {:trigger SlotsAt(H, d)} :: d != c ==> SlotsAt(G, d) == SlotsAt(H, d)
    ensures WalkAll(H, t, xs, fuel) == WalkAll(G, t, xs, fuel)
    decreases fuel, 1, |xs|
  {
    if xs != [] {
      var r := Walk(G, t, xs[0], fuel).value;
      WalkShrinks(G, t, xs[0], fuel);
      AllShrink(G, r, xs[1..], fuel);
      NotLookedInto(G, H, t, c, xs[0], fuel);
      NotLookedIntoAll(G, H, r, c, xs[1..], fuel);
    }
  }

  /** Every member is in a stack slot or in a slot of a member. */
  ghost predicate Supported(H: Graph, R: multiset<StackItem>, S: set<StackItem>) {
    forall d {:trigger d in S} :: d in S ==> d in R || exists p :: p in S && p in H && d in H[p]
  }

  /** Stack slots hold c, directly or through live containers, or live containers that hold one another do. */
  ghost predicate Held(H: Graph, R: multiset<StackItem>, live: set<StackItem>, c: StackItem) {
    exists S: set<StackItem> :: S <= live && c in S && Supported(H, R, S)
  }

  /** With exact books the live containers support one another. */
  lemma LiveSupported(G: Graph, t: Tally, R: multiset<StackItem>)
    requires Exact(G, t.itemCount, t.size, R)
    ensures Supported(G, R, t.itemCount.Keys)
  {
    forall d | d in t.itemCount.Keys && d !in R ensures exists p :: p in t.itemCount.Keys && p in G && d in G[p] {
      assert t.itemCount[d] >= 1 && BalancedAt(G, t.itemCount, R, multiset{}, d);
      var p := SlotsSource(G, t.itemCount.Keys, d);
    }
  }

  /** What supports itself is not lost when a reference outside is taken back. */
  lemma {:induction false} SupportedSurvives(G: Graph, t: Tally, R: multiset<StackItem>, x: StackItem,
                                             S: set<StackItem>)
    requires Exact(G, t.itemCount, t.size, R) && x in R
    requires S <= t.itemCount.Keys && Supported(G, R - multiset{x}, S)
    ensures S <= RemoveOne(G, t, R, x).itemCount.Keys
    decreases t.size, 0
  {
    if x.IsContainer() && CountOf(t.itemCount, x) <= 1 {
      if x in S { SupportedHasTwo(G, t, R, x, S); }
      RemoveOneOpens(G, t, R, x);
      SupportedAllSurvive(G, Dead(t, x), R - multiset{x}, G[x], S);
    }
  }

  lemma SupportedHasTwo(G: Graph, t: Tally, R: multiset<StackItem>, x: StackItem, S: set<StackItem>)
    requires Exact(G, t.itemCount, t.size, R) && x in R && x in S && x.IsContainer()
    requires S <= t.itemCount.Keys && Supported(G, R - multiset{x}, S)
    ensures CountOf(t.itemCount, x) > 1
  {
    assert BalancedAt(G, t.itemCount, R, multiset{}, x);
    if x !in R - multiset{x} {
      var p :| p in S && p in G && x in G[p];
      SlotsMember(G, t.itemCount.Keys, p, x);
    }
  }

  lemma {:induction false} SupportedAllSurvive(G: Graph, t: Tally, R: multiset<StackItem>, xs: seq<StackItem>,
                                               S: set<StackItem>)
    requires Exact(G, t.itemCount, t.size, R + multiset(xs))
    requires S <= t.itemCount.Keys && Supported(G, R, S)
    ensures S <= RemoveAll(G, t, R, xs).itemCount.Keys
    decreases t.size, 1, xs
  {
    if xs != [] {
      NextPending(R, xs);
      assert Supported(G, R + multiset(xs) - multiset{xs[0]}, S);
      SupportedSurvives(G, t, R + multiset(xs), xs[0], S);
      SupportedAllSurvive(G, RemoveOne(G, t, R + multiset(xs), xs[0]), R, xs[1..], S);
    }
  }

  /**
    If the walk for a slot of a live container ends, the container is live still, and the books are right
    without the slot.
   */
  lemma LiveEdit(G: Graph, t: Tally, R: multiset<StackItem>, c: StackItem, k: nat, fuel: nat)
    requires Exact(G, t.itemCount, t.size, R) && c in t.itemCount && k < |G[c]| && Walk(G, t, G[c][k], fuel) != None
    ensures var r := Walk(G, t, G[c][k], fuel).value;
            c in r.itemCount && Exact(G[c := Removed(G[c], k)], r.itemCount, r.size, R)
  {
    var x, r, s := G[c][k], Walk(G, t, G[c][k], fuel).value, Removed(G[c], k);
    MultisetRemoved(G[c], k);
    assert Covers(G, G[c]);
    SlotsMember(G, t.itemCount.Keys, c, x);
    if x.IsContainer() { assert BalancedAt(G, t.itemCount, R, multiset{}, x); }
    UncountedWhileThere(G, t, R, x, fuel);
    StillLive(G, t, R, c, x, fuel);
    WithoutPending(G, r, R, c, s, x);
  }

  lemma StillLive(G: Graph, t: Tally, R: multiset<StackItem>, c: StackItem, x: StackItem, fuel: nat)
    requires Exact(G, t.itemCount, t.size, R) && c in t.itemCount && x in G[c] && Walk(G, t, x, fuel) != None
    requires var r := Walk(G, t, x, fuel).value; Books(G, r.itemCount, r.size, R, multiset{x})
    requires x.IsContainer() ==> x in t.itemCount
    ensures c in Walk(G, t, x, fuel).value.itemCount
  {
    var r := Walk(G, t, x, fuel).value;
    if x.IsContainer() && CountOf(t.itemCount, x) <= 1 {
      WalkShrinks(G, t, x, fuel);
      WalkOpens(G, t, x, fuel);
      AllShrink(G, Dead(t, x), SlotsAt(G, x), fuel - 1);
      assert BalancedAt(G, t.itemCount, R, multiset{}, x) && BalancedAt(G, r.itemCount, R, multiset{x}, x);
      SlotsWithout(G, t.itemCount.Keys, c, x);
      var d := SlotsSource(G, r.itemCount.Keys, x);
      if d != c { SlotsMember(G, t.itemCount.Keys - {c}, d, x); }
    }
  }

  lemma WithoutPending(G: Graph, r: Tally, R: multiset<StackItem>, c: StackItem, s: seq<StackItem>, x: StackItem)
    requires Books(G, r.itemCount, r.size, R, multiset{x}) && c in r.itemCount
    requires multiset(G[c]) == multiset(s) + multiset{x}
    ensures Exact(G[c := s], r.itemCount, r.size, R)
  {
    var H := G[c := s];
    assert Covers(G, G[c]);
    forall y | y in s && y.IsContainer() ensures y in G { assert y in multiset(G[c]); }
    ClosedRewritten(G, c, s);
    forall d | d in H ensures BalancedAt(H, r.itemCount, R, multiset{}, d) {
      assert BalancedAt(G, r.itemCount, R, multiset{x}, d);
      SlotsRewritten(G, r.itemCount.Keys, c, s, d);
    }
    SlotsRewritten(G, r.itemCount.Keys, c, s, c);
    assert |G[c]| == |multiset(G[c])| == |s| + 1;
  }

  /**
    Taking a slot of a live container out ends if and only if the container is held without the slot. If it
    is not, the walk comes back to the container and goes round for ever.
   */
  lemma EndsIfHeld(G: Graph, t: Tally, R: multiset<StackItem>, c: StackItem, k: nat)
    requires Exact(G, t.itemCount, t.size, R) && c in t.itemCount && k < |G[c]|
    ensures Ends(G, t, G[c][k]) <==> Held(G[c := Removed(G[c], k)], R, t.itemCount.Keys, c)
  {
    var x, s := G[c][k], Removed(G[c], k);
    var H, R' := G[c := s], R + multiset{x};
    MultisetRemoved(G[c], k);
    assert R' - multiset{x} == R;
    SlotDropped(G, t, R, c, s, x);
    if Ends(G, t, x) {
      var fuel: nat :| Walk(G, t, x, fuel) != None;
      var r := Walk(G, t, x, fuel).value;
      LiveEdit(G, t, R, c, k, fuel);
      WalkShrinks(G, t, x, fuel);
      LiveSupported(H, r, R);
    }
    if Held(H, R, t.itemCount.Keys, c) {
      var S: set<StackItem> :| S <= t.itemCount.Keys && c in S && Supported(H, R, S);
      SupportedSurvives(H, t, R', x, S);
      AccountedEnds(H, t, R', x, t.size);
      NotLookedInto(H, G, t, c, x, t.size);
    }
  }

  // ----- when it ends for any value that is live, wherever it is taken from

  /** A walk that leaves x its one count is the same walk without x. */
  lemma {:induction false} NeverMet(G: Graph, t: Tally, x: StackItem, y: StackItem, fuel: nat)
    requires Positive(t) && x in t.itemCount && t.itemCount[x] == 1
    requires Walk(G, t, y, fuel) != None && x in Walk(G, t, y, fuel).value.itemCount
    ensures Walk(G, Dead(t, x), y, fuel) == Some(Dead(Walk(G, t, y, fuel).value, x))
    ensures Walk(G, t, y, fuel).value.itemCount[x] == 1
    decreases fuel, 0
  {
    if y.IsContainer() && CountOf(t.itemCount, y) <= 1 {
      WalkOpens(G, t, y, fuel);
      AllShrink(G, Dead(t, y), SlotsAt(G, y), fuel - 1);
      NeverMetByAll(G, Dead(t, y), x, SlotsAt(G, y), fuel - 1);
      WalkOpens(G, Dead(t, x), y, fuel);
      assert t.itemCount - {x} - {y} == t.itemCount - {y} - {x};
    } else if y.IsContainer() {
      var n := t.itemCount[y] - 1;
      assert t.itemCount[y := n] - {x} == if y == x then t.itemCount - {x} else (t.itemCount - {x})[y := n];
    }
  }

  lemma {:induction false} NeverMetByAll(G: Graph, t: Tally, x: StackItem, xs: seq<StackItem>, fuel: nat)
    requires Positive(t) && x in t.itemCount && t.itemCount[x] == 1
    requires WalkAll(G, t, xs, fuel) != None && x in WalkAll(G, t, xs, fuel).value.itemCount
    ensures WalkAll(G, Dead(t, x), xs, fuel) == Some(Dead(WalkAll(G, t, xs, fuel).value, x))
    ensures WalkAll(G, t, xs, fuel).value.itemCount[x] == 1
    decreases fuel, 1, |xs|
  {
    if xs != [] {
      var r := Walk(G, t, xs[0], fuel).value;
      WalkShrinks(G, t, xs[0], fuel);
      AllShrink(G, r, xs[1..], fuel);
      NeverMet(G, t, x, xs[0], fuel);
      NeverMetByAll(G, r, x, xs[1..], fuel);
    }
  }

  /** Without the slots of a live container the books hold them as references beside. */
  lemma Emptied(G: Graph, t: Tally, R: multiset<StackItem>, x: StackItem)
    requires Exact(G, t.itemCount, t.size, R) && x in t.itemCount
    ensures Exact(G[x := []], t.itemCount, t.size, R + multiset(G[x]))
  {
    var H, R' := G[x := []], R + multiset(G[x]);
    assert Covers(G, G[x]);
    ClosedRewritten(G, x, []);
    forall d | d in H ensures BalancedAt(H, t.itemCount, R', multiset{}, d) {
      assert BalancedAt(G, t.itemCount, R, multiset{}, d);
      SlotsRewritten(G, t.itemCount.Keys, x, [], d);
    }
    SlotsRewritten(G, t.itemCount.Keys, x, [], x);
    forall y | y in R' && y.IsContainer() ensures y in H { assert y in R || y in G[x]; }
  }

  /** What is live when the walk from x has ended supports x, which is gone, without the slots of x. */
  lemma SupportersLeft(G: Graph, t: Tally, R: multiset<StackItem>, x: StackItem, fuel: nat)
    requires Exact(G, t.itemCount, t.size, R) && x in t.itemCount && t.itemCount[x] == 1
    requires Walk(G, t, x, fuel) != None
    ensures Supported(G[x := []], R, Walk(G, t, x, fuel).value.itemCount.Keys + {x})
  {
    var r, H := Walk(G, t, x, fuel).value, G[x := []];
    UncountedWhileThere(G, t, R, x, fuel);
    WalkOpens(G, t, x, fuel);
    AllShrink(G, Dead(t, x), SlotsAt(G, x), fuel - 1);
    forall d | d in r.itemCount.Keys + {x} && d !in R
      ensures exists p :: p in r.itemCount.Keys + {x} && p in H && d in H[p]
    {
      assert BalancedAt(G, r.itemCount, R, multiset{x}, d);
      assert d in r.itemCount ==> r.itemCount[d] >= 1;
      var p := SlotsSource(G, r.itemCount.Keys, d);
      assert H[p] == G[p];
    }
  }

  /** What holds x beside its own slots keeps the walk over them from coming back to it. */
  lemma ComesNotBack(G: Graph, t: Tally, R: multiset<StackItem>, x: StackItem)
    requires Exact(G, t.itemCount, t.size, R) && x in t.itemCount && Held(G[x := []], R, t.itemCount.Keys, x)
    ensures var w := WalkAll(G, t, G[x], t.size); w != None && x in w.value.itemCount
  {
    var H := G[x := []];
    var S: set<StackItem> :| S <= t.itemCount.Keys && x in S && Supported(H, R, S);
    Emptied(G, t, R, x);
    AccountedAllEnd(H, t, R, G[x], t.size);
    SupportedAllSurvive(H, t, R, G[x], S);
    NotLookedIntoAll(H, G, t, x, G[x], t.size);
  }

  lemma HeldEnds(G: Graph, t: Tally, R: multiset<StackItem>, x: StackItem)
    requires Exact(G, t.itemCount, t.size, R) && x in t.itemCount && t.itemCount[x] == 1
    requires Held(G[x := []], R, t.itemCount.Keys, x)
    ensures Ends(G, t, x)
  {
    ComesNotBack(G, t, R, x);
    NeverMetByAll(G, t, x, G[x], t.size);
    WalkOpens(G, t, x, t.size + 1);
  }

  /**
    Uncounting a live container ends if and only if it has a count to spare, or is held without its own
    slots. The slot that it is taken out of may be in a container that is not live.
   */
  lemma EndsExactly(G: Graph, t: Tally, R: multiset<StackItem>, x: StackItem)
    requires Exact(G, t.itemCount, t.size, R) && x in t.itemCount
    ensures Ends(G, t, x) <==> t.itemCount[x] > 1 || Held(G[x := []], R, t.itemCount.Keys, x)
  {
    assert x in G;
    if t.itemCount[x] > 1 {
      assert Walk(G, t, x, 0) != None;
    } else {
      if Ends(G, t, x) {
        var fuel: nat :| Walk(G, t, x, fuel) != None;
        WalkShrinks(G, t, x, fuel);
        SupportersLeft(G, t, R, x, fuel);
        assert Walk(G, t, x, fuel).value.itemCount.Keys + {x} <= t.itemCount.Keys;
      }
      if Held(G[x := []], R, t.itemCount.Keys, x) { HeldEnds(G, t, R, x); }
    }
  }

  /** An edit of any container, from any counts, ends if and only if the openings that it leads to can be afforded. */
  lemma EditEndsExactly(G: Graph, t: Tally, c: StackItem, e: Edit)
    requires c in G && Fits(e, G[c])
    ensures EditEnds(G, t, c, e) <==> e.Added? || exists fs: seq<StackItem> :: Affords(G, t, [G[c][e.at]], fs)
  {
    if !e.Added? { EndsIfAffordable(G, t, G[c][e.at]); }
  }

  /**
    An array that holds itself, packed in a second one that nothing holds: the second one is not live, the
    books are exact, and taking its slot out never ends.
   */
  lemma PackedSelfReferenceNeverEnds(a: StackItem, c: StackItem)
    requires a.IsContainer() && c.IsContainer() && a != c
    ensures var G: Graph, t := map[a := [a], c := [a]], Tally(map[a := 1], 1);
            Exact(G, t.itemCount, t.size, multiset{}) && c !in t.itemCount && !Ends(G, t, G[c][0])
  {
    var G: Graph, t := map[a := [a], c := [a]], Tally(map[a := 1], 1);
    var live := t.itemCount.Keys;
    assert live == {a} && live - {a} == {};
    assert Covers(G, G[a]) && Covers(G, G[c]);
    forall d | d in G ensures BalancedAt(G, t.itemCount, multiset{}, multiset{}, d) { SlotsWithout(G, live, a, d); }
    SlotsWithout(G, live, a, a);
    forall fuel: nat ensures Walk(G, t, a, fuel) == None {
      assert SlotsAt(G, a)[0] == a;
      CycleNeverEnds(G, t, {a}, a, fuel);
    }
  }

  /** A container that stack slots reach is held, whatever its own slots are. */
  lemma ReachableIsHeld(G: Graph, t: Tally, R: multiset<StackItem>, c: StackItem, k: nat)
    requires Exact(G, t.itemCount, t.size, R) && c in G && Reachable(G, R, c) && k < |G[c]|
    ensures c in t.itemCount && Held(G[c := Removed(G[c], k)], R, t.itemCount.Keys, c)
  {
    var H, x := G[c := Removed(G[c], k)], G[c][k];
    ReachableIsLive(G, t.itemCount, t.size, R, c);
    MultisetRemoved(G[c], k);
    SlotDropped(G, t, R, c, Removed(G[c], k), x);
    ReachableElsewhere(G, H, R, c);
    var S := set d | d in t.itemCount.Keys && Reachable(H, R, d);
    forall d | d in S && d !in R ensures exists p :: p in S && p in H && d in H[p] {
      var n: nat :| ReachableIn(H, R, d, n);
      var p :| p in H && d in H[p] && ReachableIn(H, R, p, n - 1);
      MoreRoots(H, R, x, p, n - 1);
      ReachableIsLive(H, t.itemCount, t.size, R + multiset{x}, p);
    }
    assert Supported(H, R, S) && c in S;
  }

  lemma {:induction false} MoreRoots(G: Graph, R: multiset<StackItem>, x: StackItem, c: StackItem, n: nat)
    requires ReachableIn(G, R, c, n)
    ensures ReachableIn(G, R + multiset{x}, c, n)
    decreases n
  {
    if n > 0 {
      var d :| d in G && c in G[d] && ReachableIn(G, R, d, n - 1);
      MoreRoots(G, R, x, d, n - 1);
    }
  }

  /** Where no container holds itself, any walk ends, live or not. */
  lemma {:induction false} AcyclicEnds(G: Graph, depth: map<StackItem, nat>, t: Tally, x: StackItem, fuel: nat)
    requires Acyclic(G, depth) && fuel > 0 && (x in G ==> fuel > depth[x] + 1)
    ensures Walk(G, t, x, fuel) != None
    decreases fuel, 0
  {
    if x.IsContainer() && CountOf(t.itemCount, x) <= 1 && x in G {
      AcyclicAllEnd(G, depth, Dead(t, x), G[x], fuel - 1);
    }
  }

  lemma {:induction false} AcyclicAllEnd(G: Graph, depth: map<StackItem, nat>, t: Tally, xs: seq<StackItem>, fuel: nat)
    requires Acyclic(G, depth) && fuel > 0 && forall y :: y in xs && y in G ==> fuel > depth[y] + 1
    ensures WalkAll(G, t, xs, fuel) != None
    decreases fuel, 1, |xs|
  {
    if xs != [] {
      AcyclicEnds(G, depth, t, xs[0], fuel);
      AcyclicAllEnd(G, depth, Walk(G, t, xs[0], fuel).value, xs[1..], fuel);
    }
  }

  lemma AcyclicHasNoCycle(G: Graph, depth: map<StackItem, nat>)
    requires Acyclic(G, depth)
    ensures !Circular(G)
  {
    if Circular(G) {
      var x := CircularNeverEnds(G);
      AcyclicEnds(G, depth, NoCounts(), x, if x in G then depth[x] + 2 else 1);
    }
  }

  // ----- when the books are exact afterwards

  /** Replacing past by val in a container that is not live escapes the books only then. */
  ghost predicate Unnoticed(G: Graph, t: Tally, past: StackItem, val: StackItem) {
    || (val == past && past in t.itemCount)
    || (!val.IsContainer() && (past.IsContainer() ==> past !in t.itemCount && SlotsAt(G, past) == []))
  }

  /** What is pending is the one reference too many, and the size is right. */
  ghost predicate JustOne(H: Graph, P: multiset<StackItem>, gap: nat, val: StackItem) {
    |P| + gap == 1 && forall c {:trigger P[c]} {:trigger c in H} :: c in H ==> P[c] == if c == val then 1 else 0
  }

  /** Two sets of books for one state agree. */
  lemma OneTruth(H: Graph, a: Tally, R: multiset<StackItem>, P: multiset<StackItem>, gap: nat, val: StackItem)
    requires Books(H, a.itemCount, a.size + gap, R + multiset{val}, P)
    ensures Exact(H, a.itemCount, a.size, R) <==> JustOne(H, P, gap, val)
  {
    if JustOne(H, P, gap, val) { JustOneIsExact(H, a, R, P, gap, val); }
    if Exact(H, a.itemCount, a.size, R) { ExactIsJustOne(H, a, R, P, gap, val); }
  }

  lemma JustOneIsExact(H: Graph, a: Tally, R: multiset<StackItem>, P: multiset<StackItem>, gap: nat, val: StackItem)
    requires Books(H, a.itemCount, a.size + gap, R + multiset{val}, P) && JustOne(H, P, gap, val)
    ensures Exact(H, a.itemCount, a.size, R)
  {
    forall c | c in H ensures BalancedAt(H, a.itemCount, R, multiset{}, c) {
      assert BalancedAt(H, a.itemCount, R + multiset{val}, P, c);
    }
    forall x | x in R && x.IsContainer() ensures x in H { assert x in R + multiset{val}; }
    assert |R + multiset{val}| == |R| + 1;
  }

  lemma ExactIsJustOne(H: Graph, a: Tally, R: multiset<StackItem>, P: multiset<StackItem>, gap: nat, val: StackItem)
    requires Books(H, a.itemCount, a.size + gap, R + multiset{val}, P) && Exact(H, a.itemCount, a.size, R)
    ensures JustOne(H, P, gap, val)
  {
    forall c | c in H ensures P[c] == if c == val then 1 else 0 {
      assert BalancedAt(H, a.itemCount, R + multiset{val}, P, c) && BalancedAt(H, a.itemCount, R, multiset{}, c);
    }
    assert |R + multiset{val}| == |R| + 1;
    var none: multiset<StackItem> := multiset{};
    assert |none| == 0;
  }

  lemma DeadDropped(G: Graph, t: Tally, R: multiset<StackItem>, c: StackItem, k: nat, fuel: nat)
    returns (P: multiset<StackItem>, gap: nat)
    requires Exact(G, t.itemCount, t.size, R) && c in G && c !in t.itemCount && k < |G[c]|
    requires Walk(G, t, G[c][k], fuel) != None
    ensures var r := Walk(G, t, G[c][k], fuel).value;
            c !in r.itemCount && Sane(G, r) && Books(G, r.itemCount, r.size + gap, R, P)
    ensures var x := G[c][k];
            if x.IsContainer() && x !in t.itemCount
            then gap >= 1 && (gap == 1 ==> P == multiset(SlotsAt(G, x))) && (SlotsAt(G, x) == [] ==> gap == 1)
            else gap == 0 && P == multiset{x}
  {
    var x := G[c][k];
    assert Covers(G, G[c]);
    WalkShrinks(G, t, x, fuel);
    if x.IsContainer() && x !in t.itemCount {
      P, gap := UncountedWhileDead(G, t, R, x, fuel);
    } else {
      P, gap := multiset{x}, 0;
      UncountedWhileThere(G, t, R, x, fuel);
    }
  }

  /** A reference more on both sides. */
  lemma OneMoreEach(G: Graph, itemCount: map<StackItem, int>, size: int, R: multiset<StackItem>,
                    P: multiset<StackItem>, x: StackItem)
    requires Books(G, itemCount, size, R, P) && (x.IsContainer() ==> x in G)
    ensures Books(G, itemCount, size, R + multiset{x}, P + multiset{x})
  {
    forall c | c in G ensures BalancedAt(G, itemCount, R + multiset{x}, P + multiset{x}, c) {
      assert BalancedAt(G, itemCount, R, P, c);
    }
  }

  lemma DeadRecounted(G: Graph, r: Tally, gap: nat, R: multiset<StackItem>, P: multiset<StackItem>, c: StackItem,
                      e: Edit)
    requires Sane(G, r) && Books(G, r.itemCount, r.size + gap, R, P) && c in G && c !in r.itemCount
    requires Fits(e, G[c]) && KnownEdit(G, e) && !e.Dropped?
    ensures var H, a := G[c := Applied(e, G[c])], Recounted(G, r, c, e);
            Books(H, a.itemCount, a.size + gap, R + multiset{e.val}, P)
  {
    var H := G[c := Applied(e, G[c])];
    EditCovered(G, c, e);
    BooksElsewhere(G, r.itemCount, r.size + gap, R, P, c, Applied(e, G[c]));
    OneMoreEach(H, r.itemCount, r.size + gap, R, P, e.val);
    AddOneBalances(H, r, gap, R + multiset{e.val}, P + multiset{e.val}, e.val);
    assert P + multiset{e.val} - multiset{e.val} == P;
  }

  lemma DeadEdit(G: Graph, t: Tally, R: multiset<StackItem>, c: StackItem, e: Edit, r: Tally, fuel: nat)
    requires Exact(G, t.itemCount, t.size, R) && c in G && c !in t.itemCount && Fits(e, G[c]) && KnownEdit(G, e)
    requires Uncounted(G, t, c, e, fuel) == Some(r) && Sane(G, r)
    ensures var H, a := G[c := Applied(e, G[c])], Recounted(G, r, c, e);
            Exact(H, a.itemCount, a.size, R) <==> e.Replaced? && Unnoticed(G, t, G[c][e.at], e.val)
  {
    var H, a := G[c := Applied(e, G[c])], Recounted(G, r, c, e);
    var P, gap := multiset{}, 0;
    if !e.Added? { P, gap := DeadDropped(G, t, R, c, e.at, fuel); }
    if e.Dropped? {
      EditCovered(G, c, e);
      BooksElsewhere(G, r.itemCount, r.size + gap, R, P, c, Applied(e, G[c]));
    } else {
      DeadRecounted(G, r, gap, R, P, c, e);
      OneTruth(H, a, R, P, gap, e.val);
      if e.Replaced? { UnnoticedOrNot(G, t, H, c, e.at, e.val, P, gap); }
    }
  }

  lemma UnnoticedOrNot(G: Graph, t: Tally, H: Graph, c: StackItem, k: nat, val: StackItem, P: multiset<StackItem>,
                       gap: nat)
    requires Closed(G) && Positive(t) && c in G && k < |G[c]| && H.Keys == G.Keys && (val.IsContainer() ==> val in G)
    requires var x := G[c][k];
             if x.IsContainer() && x !in t.itemCount
             then gap >= 1 && (gap == 1 ==> P == multiset(SlotsAt(G, x))) && (SlotsAt(G, x) == [] ==> gap == 1)
             else gap == 0 && P == multiset{x}
    ensures JustOne(H, P, gap, val) <==> Unnoticed(G, t, G[c][k], val)
  {
    var x := G[c][k];
    assert Covers(G, G[c]);
    assert x.IsContainer() ==> x in H;
    assert P[x] >= 0 && P[val] >= 0;
    forall d | d in H ensures d.IsContainer() {}
  }

  lemma LiveRecounted(G: Graph, t: Tally, R: multiset<StackItem>, c: StackItem, e: Edit, r: Tally, fuel: nat)
    requires Exact(G, t.itemCount, t.size, R) && c in t.itemCount && Fits(e, G[c]) && KnownEdit(G, e)
    requires Uncounted(G, t, c, e, fuel) == Some(r) && Sane(G, r)
    ensures var H, a := G[c := Applied(e, G[c])], Recounted(G, r, c, e); Exact(H, a.itemCount, a.size, R)
  {
    var s := if e.Added? then G[c] else Removed(G[c], e.at);
    var K, H := G[c := s], G[c := Applied(e, G[c])];
    assert K[c := Applied(e, G[c])] == H;
    if e.Added? { assert K == G; } else { LiveEdit(G, t, R, c, e.at, fuel); }
    if !e.Dropped? {
      EditCovered(G, c, e);
      if e.Replaced? { MultisetSet(G[c], e.at, e.val); }
      SlotAdded(K, r, R, c, Applied(e, G[c]), e.val);
      AddOneBalances(H, r, 0, R, multiset{e.val}, e.val);
      assert multiset{e.val} - multiset{e.val} == multiset{};
    }
  }

  /**
    An edit that ends leaves exact books if and only if the container is live, or a value is replaced by one
    that makes no difference to the books. A container that is not live never loses a slot unnoticed.
   */
  lemma EditExactly(G: Graph, t: Tally, R: multiset<StackItem>, c: StackItem, e: Edit, a: Tally)
    requires Exact(G, t.itemCount, t.size, R) && c in G && Fits(e, G[c]) && KnownEdit(G, e) && EditLeaves(G, t, c, e, a)
    ensures Exact(G[c := Applied(e, G[c])], a.itemCount, a.size, R) <==>
              c in t.itemCount || (e.Replaced? && Unnoticed(G, t, G[c][e.at], e.val))
  {
    var fuel: nat :| Uncounted(G, t, c, e, fuel) != None && a == After(G, t, c, e, fuel);
    var r := Uncounted(G, t, c, e, fuel).value;
    UncountedSane(G, t, c, e, fuel);
    if c in t.itemCount {
      LiveRecounted(G, t, R, c, e, r, fuel);
    } else {
      DeadEdit(G, t, R, c, e, r, fuel);
    }
  }

  /** The container is live and stays so while the old value is uncounted. */
  ghost predicate Safe(G: Graph, R: multiset<StackItem>, live: set<StackItem>, c: StackItem, e: Edit)
    requires c in G && Fits(e, G[c])
  {
    c in live && (e.Added? || Held(G[c := Removed(G[c], e.at)], R, live, c))
  }

  /** A safe edit ends, and as deep a walk as there are containers is enough; the books are exact afterwards. */
  lemma SafeEdit(G: Graph, t: Tally, R: multiset<StackItem>, c: StackItem, e: Edit)
    requires Exact(G, t.itemCount, t.size, R) && c in G && Fits(e, G[c]) && KnownEdit(G, e)
    requires Safe(G, R, t.itemCount.Keys, c, e)
    ensures Uncounted(G, t, c, e, |G| + 1) != None
    ensures var a := After(G, t, c, e, |G| + 1); Exact(G[c := Applied(e, G[c])], a.itemCount, a.size, R)
  {
    if !e.Added? {
      EndsIfHeld(G, t, R, c, e.at);
      EnoughFuel(G, t, G[c][e.at]);
    }
    EditExactly(G, t, R, c, e, After(G, t, c, e, |G| + 1));
  }

  lemma ReachableIsSafe(G: Graph, t: Tally, R: multiset<StackItem>, c: StackItem, e: Edit)
    requires Exact(G, t.itemCount, t.size, R) && c in G && Fits(e, G[c]) && Reachable(G, R, c)
    ensures Safe(G, R, t.itemCount.Keys, c, e)
  {
    ReachableIsLive(G, t.itemCount, t.size, R, c);
    if !e.Added? { ReachableIsHeld(G, t, R, c, e.at); }
  }

  /** Counts after the two walks of an edit. */
  lemma EditDone(G: Graph, t: Tally, c: StackItem, e: Edit, r: Tally)
    requires Sane(G, t) && c in G && Fits(e, G[c]) && KnownEdit(G, e)
    requires if e.Added? then r == t else EndsWith(G, t, G[c][e.at], r)
    ensures Sane(G, r) && EditLeaves(G, t, c, e, Recounted(G, r, c, e))
  {
    var fuel: nat := 0;
    if !e.Added? { fuel :| Walk(G, t, G[c][e.at], fuel) == Some(r); }
    UncountedSane(G, t, c, e, fuel);
    assert Recounted(G, r, c, e) == After(G, t, c, e, fuel);
  }

  /**
    The size can fall below zero: the books are exact for an array of one false that nothing holds, and taking
    its slot out leaves size -1. After one push the size is zero and covers nothing.
   */
  lemma SizeBelowZero(a: StackItem)
    requires a.IsContainer()
    ensures var G: Graph, none: map<StackItem, int> := map[a := [Boolean(false)]], map[];
            && Exact(G, none, 0, multiset{})
            && Uncounted(G, Tally(none, 0), a, Dropped(0), 0) == Some(Tally(none, -1))
            && Closed(G) && AddOne(G, Tally(none, -1), Boolean(true)) == Tally(none, 0)
  {
    var G: Graph, none: map<StackItem, int> := map[a := [Boolean(false)]], map[];
    assert Covers(G, G[a]);
    assert Closed(G);
    assert none.Keys == {} && Slots(G, none.Keys) == multiset{};
  }
}
