/**
  The removal walk as it is written: a container whose count is not above one goes, whether it had a count
  or not, and the walk goes on to its slots. Nothing stops it from meeting the container again, so it need
  not end. fuel bounds the depth of the nested calls; a walk that ends does so with some fuel.
 */
module RemovalWalk {
  import opened Options
  import opened Items
  import opened RefCount

  function SlotsAt(G: Graph, x: StackItem): seq<StackItem> { if x in G then G[x] else [] }

  function Walk(G: Graph, t: Tally, x: StackItem, fuel: nat): Option<Tally>
    decreases fuel, 0
  {
    if !x.IsContainer() then Some(Tally(t.itemCount, t.size - 1))
    else if CountOf(t.itemCount, x) > 1 then Some(Tally(t.itemCount[x := CountOf(t.itemCount, x) - 1], t.size - 1))
    else if fuel == 0 then None
    else WalkAll(G, Dead(t, x), SlotsAt(G, x), fuel - 1)
  }

  function WalkAll(G: Graph, t: Tally, xs: seq<StackItem>, fuel: nat): Option<Tally>
    decreases fuel, 1, |xs|
  {
    if xs == [] then Some(t)
    else
      match Walk(G, t, xs[0], fuel)
      case None => None
      case Some(r) => WalkAll(G, r, xs[1..], fuel)
  }

  lemma WalkOpens(G: Graph, t: Tally, x: StackItem, fuel: nat)
    requires x.IsContainer() && CountOf(t.itemCount, x) <= 1 && fuel > 0
    ensures Walk(G, t, x, fuel) == WalkAll(G, Dead(t, x), SlotsAt(G, x), fuel - 1)
  {
  }

  ghost predicate Ends(G: Graph, t: Tally, x: StackItem) {
    exists fuel: nat :: Walk(G, t, x, fuel) != None
  }

  /** r is what the walk leaves. */
  ghost predicate EndsWith(G: Graph, t: Tally, x: StackItem, r: Tally) {
    exists fuel: nat :: Walk(G, t, x, fuel) == Some(r)
  }

  predicate Positive(t: Tally) {
    forall c {:trigger t.itemCount[c]} :: c in t.itemCount ==> t.itemCount[c] >= 1
  }

  // ----- more fuel, and higher counts

  lemma {:induction false} MoreFuel(G: Graph, t: Tally, x: StackItem, fuel: nat, more: nat)
    requires Walk(G, t, x, fuel) != None && fuel <= more
    ensures Walk(G, t, x, more) == Walk(G, t, x, fuel)
    decreases fuel, 0
  {
    if x.IsContainer() && CountOf(t.itemCount, x) <= 1 {
      MoreFuelAll(G, Dead(t, x), SlotsAt(G, x), fuel - 1, more - 1);
    }
  }

  lemma {:induction false} MoreFuelAll(G: Graph, t: Tally, xs: seq<StackItem>, fuel: nat, more: nat)
    requires WalkAll(G, t, xs, fuel) != None && fuel <= more
    ensures WalkAll(G, t, xs, more) == WalkAll(G, t, xs, fuel)
    decreases fuel, 1, |xs|
  {
    if xs != [] {
      MoreFuel(G, t, xs[0], fuel, more);
      MoreFuelAll(G, Walk(G, t, xs[0], fuel).value, xs[1..], fuel, more);
    }
  }

  /** The walk leaves one thing only. */
  lemma EndsOnce(G: Graph, t: Tally, x: StackItem, f: nat, g: nat)
    requires Walk(G, t, x, f) != None && Walk(G, t, x, g) != None
    ensures Walk(G, t, x, f) == Walk(G, t, x, g)
  {
    if f <= g { MoreFuel(G, t, x, f, g); } else { MoreFuel(G, t, x, g, f); }
  }

  ghost predicate Below(low: Tally, high: Tally) {
    forall c {:trigger c in low.itemCount} {:trigger low.itemCount[c]} :: c in low.itemCount ==>
      c in high.itemCount && low.itemCount[c] <= high.itemCount[c]
  }

  /** A walk over lower counts that ends stays below the same walk over higher counts, which ends too. */
  lemma {:induction false} LowerEnds(G: Graph, low: Tally, high: Tally, x: StackItem, fuel: nat)
    requires Below(low, high) && Positive(low) && Positive(high) && Walk(G, low, x, fuel) != None
    ensures Walk(G, high, x, fuel) != None && Below(Walk(G, low, x, fuel).value, Walk(G, high, x, fuel).value)
    ensures Positive(Walk(G, low, x, fuel).value) && Below(Walk(G, low, x, fuel).value, low)
    ensures Positive(Walk(G, high, x, fuel).value)
    decreases fuel, 0
  {
    if x.IsContainer() && CountOf(low.itemCount, x) <= 1 {
      if CountOf(high.itemCount, x) <= 1 {
        LowerAllEnd(G, Dead(low, x), Dead(high, x), SlotsAt(G, x), fuel - 1);
      } else {
        var less := Tally(high.itemCount[x := CountOf(high.itemCount, x) - 1], high.size - 1);
        LowerAllEnd(G, Dead(low, x), Dead(low, x), SlotsAt(G, x), fuel - 1);
        assert Below(Dead(low, x), less);
      }
    }
  }

  lemma {:induction false} LowerAllEnd(G: Graph, low: Tally, high: Tally, xs: seq<StackItem>, fuel: nat)
    requires Below(low, high) && Positive(low) && Positive(high) && WalkAll(G, low, xs, fuel) != None
    ensures WalkAll(G, high, xs, fuel) != None
    ensures Below(WalkAll(G, low, xs, fuel).value, WalkAll(G, high, xs, fuel).value)
    ensures Positive(WalkAll(G, low, xs, fuel).value) && Below(WalkAll(G, low, xs, fuel).value, low)
    ensures Positive(WalkAll(G, high, xs, fuel).value)
    decreases fuel, 1, |xs|
  {
    if xs != [] {
      LowerEnds(G, low, high, xs[0], fuel);
      LowerAllEnd(G, Walk(G, low, xs[0], fuel).value, Walk(G, high, xs[0], fuel).value, xs[1..], fuel);
    }
  }

  lemma WalkShrinks(G: Graph, t: Tally, x: StackItem, fuel: nat)
    requires Positive(t) && Walk(G, t, x, fuel) != None
    ensures Below(Walk(G, t, x, fuel).value, t) && Positive(Walk(G, t, x, fuel).value)
    ensures Walk(G, t, x, fuel).value.itemCount.Keys <= t.itemCount.Keys
  {
    LowerEnds(G, t, t, x, fuel);
  }

  // ----- how much fuel is enough

  /** With this fuel the walk does not end from any member of path. */
  ghost predicate Hopeless(G: Graph, t: Tally, path: set<StackItem>, fuel: nat) {
    forall a {:trigger Walk(G, t, a, fuel)} :: a in path ==> Walk(G, t, a, fuel) == None
  }

  lemma HopelessBelow(G: Graph, t: Tally, low: Tally, path: set<StackItem>, fuel: nat, less: nat)
    requires Hopeless(G, t, path, fuel) && less <= fuel && Below(low, t) && Positive(t) && Positive(low)
    ensures Hopeless(G, low, path, less)
  {
    forall a | a in path ensures Walk(G, low, a, less) == None {
      if Walk(G, low, a, less) != None {
        MoreFuel(G, low, a, less, fuel);
        LowerEnds(G, low, t, a, fuel);
      }
    }
  }

  /** If the fuel that lasts until a container must be met again does not do, no fuel does. */
  lemma {:induction false} NoFuelDoes(G: Graph, t: Tally, x: StackItem, path: set<StackItem>, fuel: nat)
    requires Positive(t) && path <= G.Keys && Hopeless(G, t, path, fuel)
    requires Walk(G, t, x, |G.Keys - path| + 1) == None
    ensures Walk(G, t, x, fuel) == None
    decreases fuel, 0
  {
    if fuel > 0 && x !in path {
      HopelessBelow(G, t, t, path, fuel, fuel - 1);
      NoFuelDoes(G, t, x, path, fuel - 1);
      assert Hopeless(G, t, path + {x}, fuel - 1);
      HopelessBelow(G, t, Dead(t, x), path + {x}, fuel - 1, fuel - 1);
      assert G.Keys - path == G.Keys - (path + {x}) + {x};
      NoFuelDoesAll(G, Dead(t, x), G[x], path + {x}, fuel - 1);
    }
  }

  lemma {:induction false} NoFuelDoesAll(G: Graph, t: Tally, xs: seq<StackItem>, path: set<StackItem>, fuel: nat)
    requires Positive(t) && path <= G.Keys && Hopeless(G, t, path, fuel)
    requires WalkAll(G, t, xs, |G.Keys - path| + 1) == None
    ensures WalkAll(G, t, xs, fuel) == None
    decreases fuel, 1, |xs|
  {
    var enough := |G.Keys - path| + 1;
    if Walk(G, t, xs[0], enough) == None {
      NoFuelDoes(G, t, xs[0], path, fuel);
    } else if Walk(G, t, xs[0], fuel) != None {
      EndsOnce(G, t, xs[0], fuel, enough);
      var r := Walk(G, t, xs[0], fuel).value;
      WalkShrinks(G, t, xs[0], fuel);
      HopelessBelow(G, t, r, path, fuel, fuel);
      NoFuelDoesAll(G, r, xs[1..], path, fuel);
    }
  }

  lemma DeepEnough(G: Graph, t: Tally, x: StackItem, fuel: nat)
    requires Positive(t) && Walk(G, t, x, fuel) != None
    ensures Walk(G, t, x, |G| + 1) == Walk(G, t, x, fuel)
  {
    if Walk(G, t, x, |G| + 1) == None {
      assert G.Keys - {} == G.Keys;
      NoFuelDoes(G, t, x, {}, fuel);
    } else {
      EndsOnce(G, t, x, fuel, |G| + 1);
    }
  }

  /** Whether the walk ends is decided by walking as deep as there are containers, and one deeper. */
  lemma EnoughFuel(G: Graph, t: Tally, x: StackItem)
    requires Positive(t)
    ensures Ends(G, t, x) <==> Walk(G, t, x, |G| + 1) != None
    ensures forall r :: EndsWith(G, t, x, r) <==> Walk(G, t, x, |G| + 1) == Some(r)
  {
    forall fuel: nat | Walk(G, t, x, fuel) != None ensures Walk(G, t, x, |G| + 1) == Walk(G, t, x, fuel) {
      DeepEnough(G, t, x, fuel);
    }
  }

  // ----- walks that never end

  ghost predicate Touches(C: set<StackItem>, xs: seq<StackItem>) {
    exists d :: d in C && d in xs
  }

  /** Containers without a count to spare, each of which has one of them in a slot. */
  ghost predicate Cycling(G: Graph, t: Tally, C: set<StackItem>) {
    forall c {:trigger c in C} :: c in C ==>
      c.IsContainer() && CountOf(t.itemCount, c) <= 1 && Touches(C, SlotsAt(G, c))
  }

  lemma CyclingBelow(G: Graph, t: Tally, low: Tally, C: set<StackItem>)
    requires Cycling(G, t, C) && Below(low, t) && Positive(low)
    ensures Cycling(G, low, C)
  {
    forall c | c in C ensures CountOf(low.itemCount, c) <= 1 { assert CountOf(t.itemCount, c) <= 1; }
  }

  /** Once the walk gets to one of them, it goes round for ever. */
  lemma {:induction false} CycleNeverEnds(G: Graph, t: Tally, C: set<StackItem>, x: StackItem, fuel: nat)
    requires Positive(t) && Cycling(G, t, C) && x in C
    ensures Walk(G, t, x, fuel) == None
    decreases fuel, 0
  {
    if fuel > 0 {
      CyclingBelow(G, t, Dead(t, x), C);
      CycleNeverEndsAll(G, Dead(t, x), C, SlotsAt(G, x), fuel - 1);
      WalkOpens(G, t, x, fuel);
    }
  }

  lemma {:induction false} CycleNeverEndsAll(G: Graph, t: Tally, C: set<StackItem>, xs: seq<StackItem>, fuel: nat)
    requires Positive(t) && Cycling(G, t, C) && Touches(C, xs)
    ensures WalkAll(G, t, xs, fuel) == None
    decreases fuel, 1, |xs|
  {
    if xs[0] in C {
      CycleNeverEnds(G, t, C, xs[0], fuel);
    } else if Walk(G, t, xs[0], fuel) != None {
      var r := Walk(G, t, xs[0], fuel).value;
      WalkShrinks(G, t, xs[0], fuel);
      CyclingBelow(G, t, r, C);
      CycleNeverEndsAll(G, r, C, xs[1..], fuel);
    }
  }

  /**
    An array that holds itself and that no stack holds is live, and the books are exact. Taking the slot out
    again makes the walk run for ever.
   */
  lemma SelfReferenceNeverEnds(a: StackItem)
    requires a.IsContainer()
    ensures Exact(map[a := [a]], map[a := 1], 1, multiset{})
    ensures !Ends(map[a := [a]], Tally(map[a := 1], 1), a)
  {
    var G: Graph, t := map[a := [a]], Tally(map[a := 1], 1);
    var live := t.itemCount.Keys;
    assert live == {a} && live - {a} == {};
    SlotsWithout(G, live, a, a);
    assert Covers(G, G[a]);
    assert BalancedAt(G, t.itemCount, multiset{}, multiset{}, a);
    forall fuel: nat ensures Walk(G, t, a, fuel) == None {
      assert SlotsAt(G, a)[0] == a;
      CycleNeverEnds(G, t, {a}, a, fuel);
    }
  }

  // ----- exactly when a walk ends, from any counts

  /** How often a container can be uncounted before it is opened. */
  function Spare(t: Tally, c: StackItem): nat {
    if CountOf(t.itemCount, c) > 1 then CountOf(t.itemCount, c) - 1 else 0
  }

  /** All slots of the containers in fs, as often as they occur. */
  ghost function Opening(G: Graph, fs: seq<StackItem>): seq<StackItem> {
    if fs == [] then [] else SlotsAt(G, fs[0]) + Opening(G, fs[1..])
  }

  lemma Regrouped(a: seq<StackItem>, b: seq<StackItem>, c: seq<StackItem>)
    ensures a + (b + c) == a + b + c
  {
  }

  lemma {:induction false} OpeningBoth(G: Graph, fs: seq<StackItem>, gs: seq<StackItem>)
    ensures Opening(G, fs + gs) == Opening(G, fs) + Opening(G, gs)
    decreases |fs|
  {
    if fs == [] {
      assert fs + gs == gs;
    } else {
      assert (fs + gs)[0] == fs[0] && (fs + gs)[1..] == fs[1..] + gs;
      OpeningBoth(G, fs[1..], gs);
      Regrouped(SlotsAt(G, fs[0]), Opening(G, fs[1..]), Opening(G, gs));
    }
  }

  lemma OpeningOne(G: Graph, f: StackItem)
    ensures Opening(G, [f]) == SlotsAt(G, f)
  {
    assert [f][1..] == [];
  }

  /** Opening the containers in fs, each as often as it occurs, covers every reference in xs and in their own slots. */
  ghost predicate Affords(G: Graph, t: Tally, xs: seq<StackItem>, fs: seq<StackItem>) {
    forall c {:trigger multiset(fs)[c]} {:trigger c in xs + Opening(G, fs)} ::
      c in xs + Opening(G, fs) && c.IsContainer() ==>
        multiset(fs)[c] + Spare(t, c) >= multiset(xs)[c] + multiset(Opening(G, fs))[c]
  }

  lemma AffordsAny(G: Graph, t: Tally, xs: seq<StackItem>, fs: seq<StackItem>, c: StackItem)
    requires Affords(G, t, xs, fs) && c.IsContainer()
    ensures multiset(fs)[c] + Spare(t, c) >= multiset(xs)[c] + multiset(Opening(G, fs))[c]
  {
    if c !in xs + Opening(G, fs) { assert c !in xs && c !in Opening(G, fs); }
  }

  /** An opening less, and the slots of the container instead of it. */
  lemma OpenOne(G: Graph, t: Tally, x: StackItem, rest: seq<StackItem>, fs: seq<StackItem>) returns (gs: seq<StackItem>)
    requires Affords(G, t, [x] + rest, fs) && x.IsContainer() && CountOf(t.itemCount, x) <= 1
    ensures |gs| == |fs| - 1 && Affords(G, Dead(t, x), SlotsAt(G, x) + rest, gs)
  {
    AffordsAny(G, t, [x] + rest, fs, x);
    assert x in multiset(fs);
    var i :| 0 <= i < |fs| && fs[i] == x;
    gs := fs[..i] + fs[i + 1..];
    forall c | c in SlotsAt(G, x) + rest + Opening(G, gs) && c.IsContainer()
      ensures multiset(gs)[c] + Spare(Dead(t, x), c) >=
              multiset(SlotsAt(G, x) + rest)[c] + multiset(Opening(G, gs))[c]
    {
      AffordsAny(G, t, [x] + rest, fs, c);
      OpenOneAt(G, t, rest, fs, i, c);
    }
  }

  lemma OpenOneAt(G: Graph, t: Tally, rest: seq<StackItem>, fs: seq<StackItem>, i: nat, c: StackItem)
    requires i < |fs| && CountOf(t.itemCount, fs[i]) <= 1
    requires multiset(fs)[c] + Spare(t, c) >= multiset([fs[i]] + rest)[c] + multiset(Opening(G, fs))[c]
    ensures var x, gs := fs[i], fs[..i] + fs[i + 1..];
            multiset(gs)[c] + Spare(Dead(t, x), c) >=
            multiset(SlotsAt(G, x) + rest)[c] + multiset(Opening(G, gs))[c]
  {
    OpeningWithout(G, fs, i);
  }

  lemma OpeningWithout(G: Graph, fs: seq<StackItem>, i: nat)
    requires i < |fs|
    ensures var gs := fs[..i] + fs[i + 1..];
            && multiset(fs) == multiset(gs) + multiset{fs[i]}
            && multiset(Opening(G, fs)) == multiset(Opening(G, gs)) + multiset(SlotsAt(G, fs[i]))
  {
    var front, back := fs[..i], fs[i + 1..];
    assert fs == front + ([fs[i]] + back);
    OpeningBoth(G, front, [fs[i]] + back);
    OpeningBoth(G, [fs[i]], back);
    OpeningOne(G, fs[i]);
    OpeningBoth(G, front, back);
  }

  lemma CountOne(G: Graph, t: Tally, x: StackItem, rest: seq<StackItem>, fs: seq<StackItem>, fuel: nat)
    requires Affords(G, t, [x] + rest, fs) && !(x.IsContainer() && CountOf(t.itemCount, x) <= 1)
    ensures Walk(G, t, x, fuel) != None && Affords(G, Walk(G, t, x, fuel).value, rest, fs)
  {
    forall c | c in rest + Opening(G, fs) && c.IsContainer()
      ensures multiset(fs)[c] + Spare(Walk(G, t, x, fuel).value, c) >= multiset(rest)[c] + multiset(Opening(G, fs))[c]
    {
      AffordsAny(G, t, [x] + rest, fs, c);
    }
  }

  lemma {:induction false} AffordedEnds(G: Graph, t: Tally, x: StackItem, rest: seq<StackItem>, fs: seq<StackItem>,
                                        fuel: nat)
    returns (gs: seq<StackItem>)
    requires Affords(G, t, [x] + rest, fs) && |fs| <= fuel
    ensures Walk(G, t, x, fuel) != None && Affords(G, Walk(G, t, x, fuel).value, rest, gs) && |gs| <= |fs|
    decreases fuel, 0
  {
    if x.IsContainer() && CountOf(t.itemCount, x) <= 1 {
      gs := OpenOne(G, t, x, rest, fs);
      gs := AllAffordedEnd(G, Dead(t, x), SlotsAt(G, x), rest, gs, fuel - 1);
      WalkOpens(G, t, x, fuel);
    } else {
      gs := fs;
      CountOne(G, t, x, rest, fs, fuel);
    }
  }

  lemma {:induction false} AllAffordedEnd(G: Graph, t: Tally, xs: seq<StackItem>, rest: seq<StackItem>,
                                          fs: seq<StackItem>, fuel: nat)
    returns (gs: seq<StackItem>)
    requires Affords(G, t, xs + rest, fs) && |fs| <= fuel
    ensures WalkAll(G, t, xs, fuel) != None && Affords(G, WalkAll(G, t, xs, fuel).value, rest, gs) && |gs| <= |fs|
    decreases fuel, 1, |xs|
  {
    gs := fs;
    if xs == [] {
      assert xs + rest == rest;
    } else {
      assert xs + rest == [xs[0]] + (xs[1..] + rest);
      gs := AffordedEnds(G, t, xs[0], xs[1..] + rest, fs, fuel);
      gs := AllAffordedEnd(G, Walk(G, t, xs[0], fuel).value, xs[1..], rest, gs, fuel);
    }
  }

  /** What a walk that ends has opened, in order. */
  lemma {:induction false} OpenedBy(G: Graph, t: Tally, x: StackItem, fuel: nat) returns (fs: seq<StackItem>)
    requires Walk(G, t, x, fuel) != None
    ensures forall c: StackItem :: c.IsContainer() ==> OpenedAt(G, t, Walk(G, t, x, fuel).value, [x], fs, c)
    decreases fuel, 0
  {
    fs := [];
    if x.IsContainer() && CountOf(t.itemCount, x) <= 1 {
      WalkOpens(G, t, x, fuel);
      var gs := AllOpenedBy(G, Dead(t, x), SlotsAt(G, x), fuel - 1);
      fs := [x] + gs;
      OpeningBoth(G, [x], gs);
      OpeningOne(G, x);
      var r := Walk(G, t, x, fuel).value;
      forall c: StackItem | c.IsContainer() ensures OpenedAt(G, t, r, [x], fs, c) {
        assert OpenedAt(G, Dead(t, x), r, SlotsAt(G, x), gs, c);
      }
    }
  }

  /** Openings and spare counts cover the references in xs and in opened slots, and the spare counts that are left. */
  ghost predicate OpenedAt(G: Graph, t: Tally, r: Tally, xs: seq<StackItem>, fs: seq<StackItem>, c: StackItem) {
    multiset(fs)[c] + Spare(t, c) >= multiset(xs)[c] + multiset(Opening(G, fs))[c] + Spare(r, c)
  }

  lemma OpenedTwice(G: Graph, t: Tally, r: Tally, u: Tally, x: StackItem, xs: seq<StackItem>, fs: seq<StackItem>,
                    gs: seq<StackItem>, c: StackItem)
    requires OpenedAt(G, t, r, [x], fs, c) && OpenedAt(G, r, u, xs, gs, c)
    ensures OpenedAt(G, t, u, [x] + xs, fs + gs, c)
  {
    OpeningBoth(G, fs, gs);
  }

  lemma {:induction false} AllOpenedBy(G: Graph, t: Tally, xs: seq<StackItem>, fuel: nat) returns (fs: seq<StackItem>)
    requires WalkAll(G, t, xs, fuel) != None
    ensures forall c: StackItem :: c.IsContainer() ==> OpenedAt(G, t, WalkAll(G, t, xs, fuel).value, xs, fs, c)
    decreases fuel, 1, |xs|
  {
    fs := [];
    if xs != [] {
      var r, u := Walk(G, t, xs[0], fuel).value, WalkAll(G, t, xs, fuel).value;
      var first := OpenedBy(G, t, xs[0], fuel);
      var more := AllOpenedBy(G, r, xs[1..], fuel);
      fs := first + more;
      assert xs == [xs[0]] + xs[1..];
      forall c: StackItem | c.IsContainer() ensures OpenedAt(G, t, u, xs, fs, c) {
        OpenedTwice(G, t, r, u, xs[0], xs[1..], first, more, c);
      }
    }
  }

  /**
    From any counts and for any value: the walk ends if and only if there is a finite list of openings that
    covers the reference and all references that these openings themselves take back.
   */
  lemma EndsIfAffordable(G: Graph, t: Tally, x: StackItem)
    ensures Ends(G, t, x) <==> exists fs: seq<StackItem> :: Affords(G, t, [x], fs)
  {
    if Ends(G, t, x) {
      var fuel: nat :| Walk(G, t, x, fuel) != None;
      var fs := OpenedBy(G, t, x, fuel);
      forall c | c in [x] + Opening(G, fs) && c.IsContainer()
        ensures multiset(fs)[c] + Spare(t, c) >= multiset([x])[c] + multiset(Opening(G, fs))[c]
      {
        assert OpenedAt(G, t, Walk(G, t, x, fuel).value, [x], fs, c);
      }
      assert Affords(G, t, [x], fs);
    }
    if fs: seq<StackItem> :| Affords(G, t, [x], fs) {
      assert [x] + [] == [x];
      var gs := AffordedEnds(G, t, x, [], fs, |fs|);
    }
  }

  // ----- the heaps on which every walk ends

  /** Some containers each have one of them in a slot: there is a cycle. */
  ghost predicate Circular(G: Graph) {
    exists C: set<StackItem> :: C <= G.Keys && C != {} && HoldOneAnother(G, C)
  }

  ghost predicate HoldOneAnother(G: Graph, C: set<StackItem>) {
    forall c {:trigger SlotsAt(G, c)} :: c in C ==> c.IsContainer() && Touches(C, SlotsAt(G, c))
  }

  function NoCounts(): Tally { Tally(map[], 0) }

  /** What ends without any counts ends from all counts. */
  lemma LeastEnds(G: Graph, t: Tally, x: StackItem)
    requires Positive(t) && Ends(G, NoCounts(), x)
    ensures Ends(G, t, x)
  {
    var fuel: nat :| Walk(G, NoCounts(), x, fuel) != None;
    LowerEnds(G, NoCounts(), t, x, fuel);
  }

  lemma {:induction false} AllLeastEnd(G: Graph, t: Tally, xs: seq<StackItem>) returns (fuel: nat)
    requires Positive(t) && forall x :: x in xs ==> Ends(G, NoCounts(), x)
    ensures WalkAll(G, t, xs, fuel) != None
    decreases |xs|
  {
    fuel := 0;
    if xs != [] {
      LeastEnds(G, t, xs[0]);
      var f: nat :| Walk(G, t, xs[0], f) != None;
      var r := Walk(G, t, xs[0], f).value;
      WalkShrinks(G, t, xs[0], f);
      var g := AllLeastEnd(G, r, xs[1..]);
      fuel := f + g;
      MoreFuel(G, t, xs[0], f, fuel);
      MoreFuelAll(G, r, xs[1..], g, fuel);
    }
  }

  lemma EndsThroughSlots(G: Graph, x: StackItem)
    requires x.IsContainer() ==> forall y :: y in SlotsAt(G, x) ==> Ends(G, NoCounts(), y)
    ensures Ends(G, NoCounts(), x)
  {
    var fuel: nat := 0;
    if x.IsContainer() {
      fuel := AllLeastEnd(G, Dead(NoCounts(), x), SlotsAt(G, x));
      WalkOpens(G, NoCounts(), x, fuel + 1);
    }
    assert Walk(G, NoCounts(), x, fuel + 1) != None;
  }

  lemma EndlessSlot(G: Graph, x: StackItem) returns (y: StackItem)
    requires !Ends(G, NoCounts(), x)
    ensures x.IsContainer() && x in G && y in SlotsAt(G, x) && !Ends(G, NoCounts(), y)
  {
    if x.IsContainer() ==> forall y :: y in SlotsAt(G, x) ==> Ends(G, NoCounts(), y) { EndsThroughSlots(G, x); }
    y :| y in SlotsAt(G, x) && !Ends(G, NoCounts(), y);
  }

  lemma EndlessIsCircular(G: Graph, t: Tally, x: StackItem)
    requires Positive(t) && !Ends(G, t, x)
    ensures Circular(G)
  {
    if Ends(G, NoCounts(), x) { LeastEnds(G, t, x); }
    var C := set c | c in G && !Ends(G, NoCounts(), c);
    forall c | c in C ensures c.IsContainer() && Touches(C, SlotsAt(G, c)) {
      var d := EndlessSlot(G, c);
      var _ := EndlessSlot(G, d);
      assert d in C && d in SlotsAt(G, c);
    }
    var _ := EndlessSlot(G, x);
    assert x in C && HoldOneAnother(G, C);
  }

  lemma NothingToSpare(G: Graph, C: set<StackItem>)
    requires HoldOneAnother(G, C)
    ensures Positive(NoCounts()) && Cycling(G, NoCounts(), C)
  {
    forall c | c in C ensures c.IsContainer() && Touches(C, SlotsAt(G, c)) {
      var slots := SlotsAt(G, c);
    }
  }

  lemma NeverEndsWithout(G: Graph, C: set<StackItem>, x: StackItem)
    requires HoldOneAnother(G, C) && x in C
    ensures !Ends(G, NoCounts(), x)
  {
    NothingToSpare(G, C);
    if Ends(G, NoCounts(), x) {
      var fuel: nat :| Walk(G, NoCounts(), x, fuel) != None;
      CycleNeverEnds(G, NoCounts(), C, x, fuel);
    }
  }

  lemma CircularNeverEnds(G: Graph) returns (x: StackItem)
    requires Circular(G)
    ensures !Ends(G, NoCounts(), x)
  {
    var C: set<StackItem> :| C <= G.Keys && C != {} && HoldOneAnother(G, C);
    x :| x in C;
    NeverEndsWithout(G, C, x);
  }

  /** Every walk over a heap ends, whatever the counts are, if and only if the heap has no cycle. */
  lemma EndlessExactly(G: Graph)
    ensures Circular(G) <==> exists t: Tally, x: StackItem :: Positive(t) && !Ends(G, t, x)
  {
    if exists t: Tally, x: StackItem :: Positive(t) && !Ends(G, t, x) {
      var t: Tally, x: StackItem :| Positive(t) && !Ends(G, t, x);
      EndlessIsCircular(G, t, x);
    }
    if Circular(G) {
      var x := CircularNeverEnds(G);
      assert Positive(NoCounts()) && !Ends(G, NoCounts(), x);
    }
  }

  // ----- walks that do

  lemma WalkCounts(G: Graph, t: Tally, R: multiset<StackItem>, x: StackItem, fuel: nat)
    requires Exact(G, t.itemCount, t.size, R) && x in R && !(x.IsContainer() && CountOf(t.itemCount, x) <= 1)
    ensures Walk(G, t, x, fuel) == Some(RemoveOne(G, t, R, x))
  {
  }

  /** Taking back a reference that is accounted for always ends, and leaves what RemoveOne says. */
  lemma {:induction false} AccountedEnds(G: Graph, t: Tally, R: multiset<StackItem>, x: StackItem, fuel: nat)
    requires Exact(G, t.itemCount, t.size, R) && x in R && fuel >= t.size
    ensures Walk(G, t, x, fuel) == Some(RemoveOne(G, t, R, x))
    decreases fuel, 0
  {
    if x.IsContainer() && CountOf(t.itemCount, x) <= 1 {
      RemoveOneOpens(G, t, R, x);
      AccountedAllEnd(G, Dead(t, x), R - multiset{x}, G[x], fuel - 1);
      WalkOpens(G, t, x, fuel);
    } else {
      WalkCounts(G, t, R, x, fuel);
    }
  }

  lemma {:induction false} AccountedAllEnd(G: Graph, t: Tally, R: multiset<StackItem>, xs: seq<StackItem>, fuel: nat)
    requires Exact(G, t.itemCount, t.size, R + multiset(xs)) && fuel >= t.size
    ensures WalkAll(G, t, xs, fuel) == Some(RemoveAll(G, t, R, xs))
    decreases fuel, 1, |xs|
  {
    if xs != [] {
      NextPending(R, xs);
      AccountedEnds(G, t, R + multiset(xs), xs[0], fuel);
      AccountedAllEnd(G, RemoveOne(G, t, R + multiset(xs), xs[0]), R, xs[1..], fuel);
    }
  }

  lemma AccountedExactly(G: Graph, t: Tally, R: multiset<StackItem>, x: StackItem)
    requires Exact(G, t.itemCount, t.size, R) && x in R
    ensures var r := Walk(G, t, x, |G| + 1); r != None && Exact(G, r.value.itemCount, r.value.size, R - multiset{x})
  {
    AccountedEnds(G, t, R, x, t.size);
    DeepEnough(G, t, x, t.size);
  }

  // ----- the books after a walk that nothing prepared

  /** A container without a count that the walk meets, with the fuel that is left; counts are as in t or lower. */
  ghost predicate MetUncounted(G: Graph, t: Tally, fuel: nat, P: multiset<StackItem>, m: Meeting) {
    && m.y in P && m.y.IsContainer() && m.fuel <= fuel
    && Below(m.low, t) && Positive(m.low) && Walk(G, m.low, m.y, m.fuel) != None
  }

  datatype Meeting = Meeting(y: StackItem, low: Tally, fuel: nat)

  /** A container without a count: its reference is pending, and now its slots are references that do not exist. */
  lemma DeadAgain(G: Graph, t: Tally, gap: nat, R: multiset<StackItem>, P: multiset<StackItem>, x: StackItem)
    requires Books(G, t.itemCount, t.size + gap, R, P) && x in R && x.IsContainer() && x !in t.itemCount
    ensures x in P && Dead(t, x).itemCount == t.itemCount
    ensures Books(G, t.itemCount, t.size + gap, Exchange(R, x, G[x]), Exchange(P, x, G[x]))
  {
    var R', P' := Exchange(R, x, G[x]), Exchange(P, x, G[x]);
    assert t.itemCount - {x} == t.itemCount;
    assert BalancedAt(G, t.itemCount, R, P, x);
    ExchangeCovered(G, R, x);
    ExchangeCovered(G, P, x);
    forall c | c in G ensures BalancedAt(G, t.itemCount, R', P', c) {
      assert BalancedAt(G, t.itemCount, R, P, c);
      ExchangeCounts(R, x, G[x], c);
      ExchangeCounts(P, x, G[x], c);
    }
    ExchangeCounts(R, x, G[x], x);
    ExchangeCounts(P, x, G[x], x);
  }

  /** The walk opens a container: the references that its slots make are now to be taken out. */
  lemma Opened(G: Graph, t: Tally, gap: nat, R: multiset<StackItem>, P: multiset<StackItem>, x: StackItem)
    returns (P1: multiset<StackItem>, gap1: nat)
    requires Books(G, t.itemCount, t.size + gap, R + multiset{x}, P)
    requires x.IsContainer() && CountOf(t.itemCount, x) <= 1
    ensures Positive(t) && (x in t.itemCount || x in P)
    ensures gap1 == (if x in t.itemCount then gap else gap + 1)
    ensures P1 == if x in t.itemCount then P else Exchange(P, x, SlotsAt(G, x))
    ensures var u := Dead(t, x); Books(G, u.itemCount, u.size + gap1, R + multiset(SlotsAt(G, x)), P1)
  {
    var R1 := R + multiset{x};
    assert R1 - multiset{x} == R;
    ExchangeSplits(R1, x, G[x]);
    if x in t.itemCount {
      P1, gap1 := P, gap;
      Dies(G, t.itemCount, t.size + gap, R1, P, x);
    } else {
      P1, gap1 := Exchange(P, x, G[x]), gap + 1;
      DeadAgain(G, t, gap, R1, P, x);
    }
  }

  lemma Counted(G: Graph, t: Tally, gap: nat, R: multiset<StackItem>, P: multiset<StackItem>, x: StackItem, fuel: nat)
    requires Books(G, t.itemCount, t.size + gap, R + multiset{x}, P)
    requires !(x.IsContainer() && CountOf(t.itemCount, x) <= 1)
    ensures Walk(G, t, x, fuel) != None
    ensures var r := Walk(G, t, x, fuel).value; Books(G, r.itemCount, r.size + gap, R, P)
  {
    var R1 := R + multiset{x};
    assert R1 - multiset{x} == R;
    if x.IsContainer() {
      UncountOnce(G, t.itemCount, t.size + gap, R1, P, x);
    } else {
      UncountPrimitive(G, t.itemCount, t.size + gap, R1, P, x);
    }
  }

  /**
    The walk from x takes x out of the references. Each time that it meets a container without a count the
    size falls one further behind; if that never happens the pending references stay as they are.
   */
  lemma {:induction false} WalkBooks(G: Graph, t: Tally, gap: nat, R: multiset<StackItem>, P: multiset<StackItem>,
                                     x: StackItem, fuel: nat)
    returns (P': multiset<StackItem>, gap': nat, m: Meeting)
    requires Books(G, t.itemCount, t.size + gap, R + multiset{x}, P) && Walk(G, t, x, fuel) != None
    ensures var r := Walk(G, t, x, fuel).value; Books(G, r.itemCount, r.size + gap', R, P')
    ensures (gap' == gap && P' == P) || (gap' > gap && MetUncounted(G, t, fuel, P, m))
    decreases fuel, 0
  {
    if x.IsContainer() && CountOf(t.itemCount, x) <= 1 {
      WalkOpens(G, t, x, fuel);
      var P1, gap1 := Opened(G, t, gap, R, P, x);
      P', gap', m := WalkAllBooks(G, Dead(t, x), gap1, R, P1, SlotsAt(G, x), fuel - 1);
      if gap1 > gap { m := Meeting(x, t, fuel); }
    } else {
      Counted(G, t, gap, R, P, x, fuel);
      P', gap', m := P, gap, Meeting(x, t, fuel);
    }
  }

  lemma {:induction false} WalkAllBooks(G: Graph, t: Tally, gap: nat, R: multiset<StackItem>, P: multiset<StackItem>,
                                        xs: seq<StackItem>, fuel: nat)
    returns (P': multiset<StackItem>, gap': nat, m: Meeting)
    requires Books(G, t.itemCount, t.size + gap, R + multiset(xs), P) && WalkAll(G, t, xs, fuel) != None
    ensures var r := WalkAll(G, t, xs, fuel).value; Books(G, r.itemCount, r.size + gap', R, P')
    ensures (gap' == gap && P' == P) || (gap' > gap && MetUncounted(G, t, fuel, P, m))
    decreases fuel, 1, |xs|
  {
    if xs == [] {
      assert R + multiset(xs) == R;
      P', gap', m := P, gap, Meeting(Boolean(false), t, fuel);
    } else {
      FirstApart(R, xs);
      var P1, gap1, m1 := WalkBooks(G, t, gap, R + multiset(xs[1..]), P, xs[0], fuel);
      var r := Walk(G, t, xs[0], fuel).value;
      WalkShrinks(G, t, xs[0], fuel);
      P', gap', m := WalkAllBooks(G, r, gap1, R, P1, xs[1..], fuel);
      if gap1 > gap { m := m1; }
    }
  }

  lemma FirstApart(R: multiset<StackItem>, xs: seq<StackItem>)
    requires xs != []
    ensures R + multiset(xs) == R + multiset(xs[1..]) + multiset{xs[0]}
  {
    assert xs == [xs[0]] + xs[1..];
  }

  /** A reference more on both sides of the books. */
  lemma OnBothSides(G: Graph, itemCount: map<StackItem, int>, size: int, R: multiset<StackItem>, x: StackItem)
    requires Exact(G, itemCount, size, R) && (x.IsContainer() ==> x in G)
    ensures Books(G, itemCount, size, R + multiset{x}, multiset{x})
  {
    forall c | c in G ensures BalancedAt(G, itemCount, R + multiset{x}, multiset{x}, c) {
      assert BalancedAt(G, itemCount, R, multiset{}, c);
    }
  }

  /**
    Uncounting a reference of something that has a count, while the reference stays: if the walk ends, this
    reference is all that the books lack.
   */
  lemma {:induction false} UncountedWhileThere(G: Graph, t: Tally, R: multiset<StackItem>, x: StackItem, fuel: nat)
    requires Exact(G, t.itemCount, t.size, R) && (x.IsContainer() ==> x in t.itemCount)
    requires Walk(G, t, x, fuel) != None
    ensures var r := Walk(G, t, x, fuel).value; Books(G, r.itemCount, r.size, R, multiset{x})
    decreases fuel
  {
    OnBothSides(G, t.itemCount, t.size, R, x);
    if x.IsContainer() && CountOf(t.itemCount, x) <= 1 {
      WalkOpens(G, t, x, fuel);
      var P1, gap1 := Opened(G, t, 0, R, multiset{x}, x);
      var P', gap', m := WalkAllBooks(G, Dead(t, x), 0, R, multiset{x}, SlotsAt(G, x), fuel - 1);
      if gap' > 0 {
        MetAgain(G, t, x, fuel, m);
        UncountedWhileThere(G, t, R, x, m.fuel);
      }
    } else {
      Counted(G, t, 0, R, multiset{x}, x, fuel);
    }
  }

  /** A walk that meets its own start again would end with less fuel. */
  lemma MetAgain(G: Graph, t: Tally, x: StackItem, fuel: nat, m: Meeting)
    requires Positive(t) && Walk(G, t, x, fuel) != None && fuel > 0
    requires MetUncounted(G, Dead(t, x), fuel - 1, multiset{x}, m)
    ensures m.fuel < fuel && Walk(G, t, x, m.fuel) == Walk(G, t, x, fuel)
  {
    assert m.y == x;
    LowerEnds(G, m.low, t, x, m.fuel);
    EndsOnce(G, t, x, fuel, m.fuel);
  }

  /** The same for a container without a count: the size is behind, and its slots are pending at the least. */
  lemma UncountedWhileDead(G: Graph, t: Tally, R: multiset<StackItem>, x: StackItem, fuel: nat)
    returns (P': multiset<StackItem>, gap': nat)
    requires Exact(G, t.itemCount, t.size, R) && x.IsContainer() && x in G && x !in t.itemCount
    requires Walk(G, t, x, fuel) != None
    ensures var r := Walk(G, t, x, fuel).value; Books(G, r.itemCount, r.size + gap', R, P')
    ensures gap' >= 1 && (gap' == 1 ==> P' == multiset(G[x])) && (G[x] == [] ==> gap' == 1)
  {
    OnBothSides(G, t.itemCount, t.size, R, x);
    WalkOpens(G, t, x, fuel);
    P', gap' := Opened(G, t, 0, R, multiset{x}, x);
    assert Exchange(multiset{x}, x, G[x]) == multiset(G[x]);
    if G[x] == [] {
      assert R + multiset(G[x]) == R;
    } else {
      var m;
      P', gap', m := WalkAllBooks(G, Dead(t, x), 1, R, multiset(G[x]), SlotsAt(G, x), fuel - 1);
    }
  }
}
