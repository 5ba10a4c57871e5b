/**
  Short scripts that go through, with exact books, up to their last opcode. This one, a REMOVE, then runs for
  ever, or leaves a size below zero.
 */
module FailingRuns {
  import opened Limits
  import opened Options
  import opened Items
  import opened RefCount
  import opened RemovalWalk
  import opened Edits
  import opened ObjectOps
  import opened HeapWrites
  import opened StackOps
  import opened StackRuns
  import opened Packing
  import opened MapKeys
  import opened ObjectRuns
  import SlotLaws
  import NumberNames

  /** What PUSH0 pushes. */
  const ZERO := ByteArray([])

  const PUSH_ZERO := OnStacks(Push(ZERO))
  const PUSH_ONE := OnStacks(Push(BigInteger(1)))
  const DUPLICATE := OnStacks(OnEval(Dup))

  /** Nothing on the heap or on the stacks. */
  function Start(): Snap { Snap(map[], map[], [], []) }

  /** The first n opcodes have gone through, and led to s with the counts t, exact behind every step. */
  ghost predicate LedTo(code: seq<ObjInstr>, n: nat, h: History, s: Snap, t: Tally) {
    && Happened(code, h, Start(), multiset{}) && LastFits(h.ts)
    && |h.evs| == n && h.ss[n] == s && (n > 0 ==> h.ts[n - 1] == t)
  }

  lemma NothingYet(code: seq<ObjInstr>) returns (h: History)
    ensures LedTo(code, 0, h, Start(), NoCounts())
  {
    h := History([], [Start()], []);
  }

  lemma GoOn(code: seq<ObjInstr>, n: nat, h: History, s: Snap, t: Tally, ev: Event, s': Snap, t': Tally)
    returns (h': History)
    requires LedTo(code, n, h, s, t) && n < |code| && Does(code[n], s, ev, s')
    requires AccountAt(s', t', multiset{}) && t'.size <= MAX_STACK_SIZE
    ensures LedTo(code, n + 1, h', s', t')
  {
    TraceGrows(code, h.evs, h.ss, ev, s');
    AccountsGrow(h.ss, h.ts, s', t', multiset{});
    h' := History(h.evs + [ev], h.ss + [s'], h.ts + [t']);
  }

  // ----- exact books

  ghost predicate OnlyThese(xs: seq<StackItem>, cs: set<StackItem>) {
    forall x :: x in xs && x.IsContainer() ==> x in cs
  }

  /** Nothing is live. */
  lemma NoneLive(s: Snap)
    requires Closed(s.G) && OnlyThese(s.e, {}) && s.a == []
    ensures AccountAt(s, Tally(map[], |s.e|), multiset{})
  {
    var R := multiset{} + multiset(s.e) + multiset(s.a);
    assert R == multiset(s.e);
    var none: map<StackItem, int> := map[];
    assert none.Keys == {};
  }

  /** One container and its slots. */
  lemma OneLive(s: Snap, c: StackItem, n: int)
    requires c.IsContainer() && s.G.Keys == {c} && OnlyThese(s.G[c], {c}) && OnlyThese(s.e, {c}) && s.a == []
    requires n == multiset(s.e)[c] + multiset(s.G[c])[c] >= 1
    ensures AccountAt(s, Tally(map[c := n], |s.e| + |s.G[c]|), multiset{})
  {
    var R := multiset{} + multiset(s.e) + multiset(s.a);
    var count := map[c := n];
    assert R == multiset(s.e) && count.Keys == {c} && {c} - {c} == {};
    assert Covers(s.G, s.G[c]);
    SlotsWithout(s.G, count.Keys, c, c);
    assert BalancedAt(s.G, count, R, multiset{}, c);
  }

  lemma SlotsOfTwo(G: Graph, a: StackItem, c: StackItem, d: StackItem)
    requires a != c && a in G && c in G
    ensures Slots(G, {a, c})[d] == multiset(G[a])[d] + multiset(G[c])[d] && |Slots(G, {a, c})| == |G[a]| + |G[c]|
  {
    assert {a, c} - {c} == {a} && {a} - {a} == {};
    SlotsWithout(G, {a, c}, c, d);
    SlotsWithout(G, {a}, a, d);
  }

  /** Two containers with the array a in the only slot of each. */
  lemma TwoLive(s: Snap, a: StackItem, c: StackItem, m: int, n: int)
    requires a.IsContainer() && c.IsContainer() && a != c && s.G == map[a := [a], c := [a]]
    requires OnlyThese(s.e, {a, c}) && s.a == []
    requires m == multiset(s.e)[a] + 2 && n == multiset(s.e)[c] >= 1
    ensures AccountAt(s, Tally(map[a := m, c := n], |s.e| + 2), multiset{})
  {
    var R := multiset{} + multiset(s.e) + multiset(s.a);
    var count := map[a := m, c := n];
    assert R == multiset(s.e) && count.Keys == {a, c};
    assert Covers(s.G, s.G[a]) && Covers(s.G, s.G[c]);
    forall d | d in s.G ensures BalancedAt(s.G, count, R, multiset{}, d) { SlotsOfTwo(s.G, a, c, d); }
    SlotsOfTwo(s.G, a, c, a);
  }

  /** The counts when the two operands of REMOVE are popped. */
  function AfterOperands(s: Snap, t: Tally): Option<Tally>
    requires |s.e| >= 2
  {
    match Walk(s.G, t, s.e[0], |s.G| + 1)
    case None => None
    case Some(r) => Walk(s.G, r, s.e[1], |s.G| + 1)
  }

  /** REMOVE is about to take the only slot of the container. */
  predicate AboutToEmpty(s: Snap, c: StackItem) {
    |s.e| >= 2 && s.e[1] == c && c in s.G && |s.G[c]| == 1 && Goes(RemoveItem, s)
  }

  lemma EmptiesArray(s: Snap, c: StackItem)
    requires |s.e| >= 2 && s.e[0] == ZERO && s.e[1] == c && c.Array? && c in s.G && |s.G[c]| == 1
    ensures AboutToEmpty(s, c)
    ensures forall ev, s' :: Does(RemoveItem, s, ev, s') ==> c in s'.G && s'.G[c] == []
  {
    assert NumberNames.Names(ZERO, 0);
    SlotLaws.ListRemoveGoes(s, 0);
    forall ev, s' | Does(RemoveItem, s, ev, s') ensures c in s'.G && s'.G[c] == [] {
      SlotLaws.ListRemove(s, ev, s', 0);
    }
  }

  // ----- single opcodes

  lemma Pushes(s: Snap, x: StackItem)
    ensures Does(OnStacks(Push(x)), s, Quiet, s.(e := [x] + s.e))
  {
  }

  lemma Duplicates(s: Snap)
    requires s.e != []
    ensures Does(DUPLICATE, s, Quiet, s.(e := [s.e[0]] + s.e))
  {
  }

  /** NEWARRAY for a number. */
  lemma MakesArray(s: Snap, a: StackItem, n: nat)
    requires s.e != [] && !IsList(s.e[0]) && LengthOf(s.e[0]) == Some(n) && a.Array? && a !in s.G
    ensures var ev := Wrote(Write(s.G, map[], a, Falses(n)), s.e[0]);
            Does(NewArray, s, ev, Snap(s.G[a := Falses(n)], s.keys, [a] + s.e[1..], s.a))
  {
    var ev := Wrote(Write(s.G, map[], a, Falses(n)), s.e[0]);
    var s' := Snap(s.G[a := Falses(n)], s.keys, [a] + s.e[1..], s.a);
    ListDone(false, s, true, a, ev, s');
  }

  /** APPEND of an array to itself. */
  lemma AppendsItself(s: Snap, a: StackItem)
    requires Closed(s.G) && |s.e| >= 2 && s.e[0] == s.e[1] == a && a.Array? && a in s.G && |s.G[a]| < MAX_ARRAY_SIZE
    ensures var ev := Wrote(Write(s.G, map[], a, s.G[a] + [a]), a);
            Does(AppendItem, s, ev, Snap(s.G[a := s.G[a] + [a]], s.keys, s.e[2..], s.a))
  {
    var ev := Wrote(Write(s.G, map[], a, s.G[a] + [a]), a);
    NothingJoins(s.G);
    AppendDone(s, true, ev, Snap(s.G[a := s.G[a] + [a]], s.keys, s.e[2..], s.a));
  }

  /** PACK of one item. */
  lemma PacksOne(s: Snap, c: StackItem)
    requires Covers(s.G, s.e) && |s.e| >= 2 && s.e[0] == BigInteger(1) && c.Array? && c !in s.G
    ensures var ev := Wrote(Write(s.G, map[], c, [s.e[1]]), c);
            Does(PackItems, s, ev, Snap(s.G[c := [s.e[1]]], s.keys, [c] + s.e[2..], s.a))
  {
    var ev := Wrote(Write(s.G, map[], c, [s.e[1]]), c);
    assert PackCount(s.e) == Some(1) && s.e[1..2] == [s.e[1]];
    PackDone(s, true, ev, Snap(s.G[c := [s.e[1]]], s.keys, [c] + s.e[2..], s.a));
  }

  // ----- while there is one container

  function Single(c: StackItem, slots: seq<StackItem>, e: seq<StackItem>): Snap {
    Snap(map[c := slots], map[], e, [])
  }

  function SingleTally(c: StackItem, slots: seq<StackItem>, e: seq<StackItem>): Tally {
    Tally(map[c := multiset(e)[c] + multiset(slots)[c]], |e| + |slots|)
  }

  /** The stack holds the container, which holds nothing but itself. */
  ghost predicate Fine(c: StackItem, slots: seq<StackItem>, e: seq<StackItem>) {
    c.IsContainer() && OnlyThese(slots, {c}) && OnlyThese(e, {c}) && c in e && |e| + |slots| < 10
  }

  lemma SingleLive(c: StackItem, slots: seq<StackItem>, e: seq<StackItem>)
    requires Fine(c, slots, e)
    ensures AccountAt(Single(c, slots, e), SingleTally(c, slots, e), multiset{})
  {
    OneLive(Single(c, slots, e), c, multiset(e)[c] + multiset(slots)[c]);
  }

  lemma MoreOnTop(c: StackItem, slots: seq<StackItem>, e: seq<StackItem>, x: StackItem)
    requires Fine(c, slots, e) && (x == c || !x.IsContainer()) && |e| + |slots| < 9
    ensures Fine(c, slots, [x] + e)
  {
    assert c in e;
  }

  lemma SinglePushed(c: StackItem, slots: seq<StackItem>, e: seq<StackItem>, x: StackItem)
    requires Fine(c, slots, e) && !x.IsContainer() && |e| + |slots| < 9
    ensures Does(OnStacks(Push(x)), Single(c, slots, e), Quiet, Single(c, slots, [x] + e))
    ensures AccountAt(Single(c, slots, [x] + e), SingleTally(c, slots, [x] + e), multiset{})
  {
    Pushes(Single(c, slots, e), x);
    MoreOnTop(c, slots, e, x);
    SingleLive(c, slots, [x] + e);
  }

  lemma PushesOn(code: seq<ObjInstr>, n: nat, h: History, c: StackItem, slots: seq<StackItem>, e: seq<StackItem>,
                 x: StackItem)
    returns (h': History)
    requires LedTo(code, n, h, Single(c, slots, e), SingleTally(c, slots, e)) && Fine(c, slots, e)
    requires |e| + |slots| < 9 && n < |code| && code[n] == OnStacks(Push(x)) && !x.IsContainer()
    ensures LedTo(code, n + 1, h', Single(c, slots, [x] + e), SingleTally(c, slots, [x] + e))
  {
    SinglePushed(c, slots, e, x);
    h' := GoOn(code, n, h, Single(c, slots, e), SingleTally(c, slots, e), Quiet, Single(c, slots, [x] + e),
               SingleTally(c, slots, [x] + e));
  }

  lemma SingleDuplicated(c: StackItem, slots: seq<StackItem>, e: seq<StackItem>)
    requires Fine(c, slots, e) && e[0] == c && |e| + |slots| < 9
    ensures Does(DUPLICATE, Single(c, slots, e), Quiet, Single(c, slots, [c] + e))
    ensures AccountAt(Single(c, slots, [c] + e), SingleTally(c, slots, [c] + e), multiset{})
  {
    Duplicates(Single(c, slots, e));
    MoreOnTop(c, slots, e, c);
    SingleLive(c, slots, [c] + e);
  }

  lemma DuplicatesOn(code: seq<ObjInstr>, n: nat, h: History, c: StackItem, slots: seq<StackItem>, e: seq<StackItem>)
    returns (h': History)
    requires LedTo(code, n, h, Single(c, slots, e), SingleTally(c, slots, e)) && Fine(c, slots, e)
    requires |e| + |slots| < 9 && n < |code| && code[n] == DUPLICATE && e[0] == c
    ensures LedTo(code, n + 1, h', Single(c, slots, [c] + e), SingleTally(c, slots, [c] + e))
  {
    SingleDuplicated(c, slots, e);
    h' := GoOn(code, n, h, Single(c, slots, e), SingleTally(c, slots, e), Quiet, Single(c, slots, [c] + e),
               SingleTally(c, slots, [c] + e));
  }

  lemma ItselfWritten(a: StackItem)
    requires a.IsContainer()
    ensures var s := Single(a, [], [a, a, a]);
            && Closed(s.G) && s.G[a] + [a] == [a]
            && Snap(s.G[a := s.G[a] + [a]], s.keys, s.e[2..], s.a) == Single(a, [a], [a])
  {
    var s := Single(a, [], [a, a, a]);
    assert Covers(s.G, s.G[a]);
    assert [] + [a] == [a] && s.e[2..] == [a];
  }

  lemma ItselfAppended(a: StackItem)
    requires a.Array?
    ensures var s := Single(a, [], [a, a, a]);
            Does(AppendItem, s, Wrote(Write(s.G, map[], a, [a]), a), Single(a, [a], [a]))
  {
    ItselfWritten(a);
    AppendsItself(Single(a, [], [a, a, a]), a);
  }

  lemma AppendsOn(code: seq<ObjInstr>, n: nat, h: History, a: StackItem)
    returns (h': History)
    requires LedTo(code, n, h, Single(a, [], [a, a, a]), SingleTally(a, [], [a, a, a]))
    requires n < |code| && code[n] == AppendItem && a.Array?
    ensures LedTo(code, n + 1, h', Single(a, [a], [a]), SingleTally(a, [a], [a]))
  {
    ItselfAppended(a);
    SingleLive(a, [a], [a]);
    var ev := Wrote(Write(map[a := []], map[], a, [a]), a);
    h' := GoOn(code, n, h, Single(a, [], [a, a, a]), SingleTally(a, [], [a, a, a]), ev, Single(a, [a], [a]),
               SingleTally(a, [a], [a]));
  }

  lemma FirstPushed(code: seq<ObjInstr>, x: StackItem) returns (h: History)
    requires |code| >= 1 && code[0] == OnStacks(Push(x)) && !x.IsContainer()
    ensures LedTo(code, 1, h, Start().(e := [x]), Tally(map[], 1))
  {
    h := NothingYet(code);
    Pushes(Start(), x);
    assert [x] + Start().e == [x];
    NoneLive(Start().(e := [x]));
    h := GoOn(code, 0, h, Start(), NoCounts(), Quiet, Start().(e := [x]), Tally(map[], 1));
  }

  /** NEWARRAY of n falses. */
  lemma ArrayMade(code: seq<ObjInstr>, x: StackItem, a: StackItem, n: nat) returns (h: History)
    requires a.Array? && |code| >= 2 && code[0] == OnStacks(Push(x)) && code[1] == NewArray
    requires !x.IsContainer() && LengthOf(x) == Some(n) && n < 5
    ensures LedTo(code, 2, h, Single(a, Falses(n), [a]), SingleTally(a, Falses(n), [a]))
  {
    var s := Start().(e := [x]);
    h := FirstPushed(code, x);
    MakesArray(s, a, n);
    assert Snap(s.G[a := Falses(n)], s.keys, [a] + s.e[1..], s.a) == Single(a, Falses(n), [a]);
    SingleLive(a, Falses(n), [a]);
    var ev := Wrote(Write(s.G, map[], a, Falses(n)), x);
    h := GoOn(code, 1, h, s, Tally(map[], 1), ev, Single(a, Falses(n), [a]), SingleTally(a, Falses(n), [a]));
  }

  // ----- an array that holds itself

  ghost predicate HoldsItself(code: seq<ObjInstr>) {
    && |code| >= 5 && code[0] == PUSH_ZERO && code[1] == NewArray && code[2] == code[3] == DUPLICATE
    && code[4] == AppendItem
  }

  lemma FewFalses()
    ensures LengthOf(ZERO) == Some(0) && Falses(0) == []
    ensures LengthOf(BigInteger(1)) == Some(1) && Falses(1) == [Boolean(false)]
  {
  }

  lemma TwoCopies(code: seq<ObjInstr>, a: StackItem) returns (h: History)
    requires a.Array? && HoldsItself(code)
    ensures LedTo(code, 3, h, Single(a, [], [a, a]), SingleTally(a, [], [a, a]))
  {
    FewFalses();
    h := ArrayMade(code, ZERO, a, 0);
    h := DuplicatesOn(code, 2, h, a, [], [a]);
    assert [a] + [a] == [a, a];
  }

  lemma ThreeCopies(code: seq<ObjInstr>, a: StackItem) returns (h: History)
    requires a.Array? && HoldsItself(code)
    ensures LedTo(code, 4, h, Single(a, [], [a, a, a]), SingleTally(a, [], [a, a, a]))
  {
    h := TwoCopies(code, a);
    h := DuplicatesOn(code, 3, h, a, [], [a, a]);
    assert [a] + [a, a] == [a, a, a];
  }

  lemma SelfHeld(code: seq<ObjInstr>, a: StackItem) returns (h: History)
    requires a.Array? && HoldsItself(code)
    ensures LedTo(code, 5, h, Single(a, [a], [a]), SingleTally(a, [a], [a]))
  {
    h := ThreeCopies(code, a);
    h := AppendsOn(code, 4, h, a);
  }

  lemma SelfReady(code: seq<ObjInstr>, a: StackItem) returns (h: History)
    requires a.Array? && HoldsItself(code) && |code| >= 6 && code[5] == PUSH_ZERO
    ensures LedTo(code, 6, h, Single(a, [a], [ZERO, a]), Tally(map[a := 2], 3))
  {
    h := SelfHeld(code, a);
    h := PushesOn(code, 5, h, a, [a], [a], ZERO);
    TalliesSo(a);
  }

  lemma TalliesSo(a: StackItem)
    requires a.IsContainer()
    ensures [ZERO] + [a] == [ZERO, a]
    ensures SingleTally(a, [a], [ZERO, a]) == Tally(map[a := 2], 3)
    ensures SingleTally(a, [Boolean(false)], [ZERO, a]) == Tally(map[a := 1], 3)
  {
  }

  /** PUSH0 NEWARRAY DUP DUP APPEND PUSH0 REMOVE: the last opcode never ends. */
  lemma SelfReferenceRuns(a: StackItem) returns (h: History)
    requires a.Array?
    ensures var code := [PUSH_ZERO, NewArray, DUPLICATE, DUPLICATE, AppendItem, PUSH_ZERO, RemoveItem];
            var s, t := Snap(map[a := [a]], map[], [ZERO, a], []), Tally(map[a := 2], 3);
            && LedTo(code, 6, h, s, t) && AboutToEmpty(s, a)
            && AfterOperands(s, t) != None && !Ends(s.G, AfterOperands(s, t).value, s.G[a][0])
            && forall ev, s' :: Does(RemoveItem, s, ev, s') ==> a in s'.G && s'.G[a] == []
  {
    var code := [PUSH_ZERO, NewArray, DUPLICATE, DUPLICATE, AppendItem, PUSH_ZERO, RemoveItem];
    h := SelfReady(code, a);
    SelfReferenceNeverEnds(a);
    SelfTakenOff(Single(a, [a], [ZERO, a]), a);
    EmptiesArray(Single(a, [a], [ZERO, a]), a);
  }

  lemma SelfTakenOff(s: Snap, a: StackItem)
    requires a.IsContainer() && s == Snap(map[a := [a]], map[], [ZERO, a], [])
    ensures AfterOperands(s, Tally(map[a := 2], 3)) == Some(Tally(map[a := 1], 1))
  {
    var two: map<StackItem, int> := map[a := 2];
    assert two[a := 1] == map[a := 1];
    assert Walk(s.G, Tally(map[a := 2], 3), ZERO, |s.G| + 1) == Some(Tally(map[a := 2], 2));
    assert Walk(s.G, Tally(map[a := 2], 2), a, |s.G| + 1) == Some(Tally(map[a := 1], 1));
  }

  /** PUSH0 NEWARRAY DUP DUP APPEND PUSH1 PACK PUSH0 REMOVE: the last opcode never ends either. */
  lemma PackedSelfReferenceRuns(a: StackItem, c: StackItem) returns (h: History)
    requires a.Array? && c.Array? && a != c
    ensures var code := [PUSH_ZERO, NewArray, DUPLICATE, DUPLICATE, AppendItem, PUSH_ONE, PackItems, PUSH_ZERO,
                         RemoveItem];
            var s, t := Snap(map[a := [a], c := [a]], map[], [ZERO, c], []), Tally(map[a := 2, c := 1], 4);
            && LedTo(code, 8, h, s, t) && AboutToEmpty(s, c)
            && AfterOperands(s, t) != None && !Ends(s.G, AfterOperands(s, t).value, s.G[c][0])
            && forall ev, s' :: Does(RemoveItem, s, ev, s') ==> c in s'.G && s'.G[c] == []
  {
    var code := [PUSH_ZERO, NewArray, DUPLICATE, DUPLICATE, AppendItem, PUSH_ONE, PackItems, PUSH_ZERO, RemoveItem];
    h := PackedReady(code, a, c);
    PackedSelfReferenceNeverEnds(a, c);
    PackedTakenOff(Snap(map[a := [a], c := [a]], map[], [ZERO, c], []), a, c);
    EmptiesArray(Snap(map[a := [a], c := [a]], map[], [ZERO, c], []), c);
  }

  lemma ZeroOnPacked(a: StackItem, c: StackItem)
    requires a.IsContainer() && c.IsContainer() && a != c
    ensures var s := Snap(map[a := [a], c := [a]], map[], [c], []);
            var s' := s.(e := [ZERO, c]);
            Does(PUSH_ZERO, s, Quiet, s') && AccountAt(s', Tally(map[a := 2, c := 1], 4), multiset{})
  {
    var s, s' := Snap(map[a := [a], c := [a]], map[], [c], []), Snap(map[a := [a], c := [a]], map[], [ZERO, c], []);
    Pushes(s, ZERO);
    assert [ZERO] + [c] == [ZERO, c];
    TwoLive(s', a, c, 2, 1);
  }

  lemma PackedReady(code: seq<ObjInstr>, a: StackItem, c: StackItem) returns (h: History)
    requires a.Array? && c.Array? && a != c && HoldsItself(code)
    requires |code| >= 8 && code[5] == PUSH_ONE && code[6] == PackItems && code[7] == PUSH_ZERO
    ensures LedTo(code, 8, h, Snap(map[a := [a], c := [a]], map[], [ZERO, c], []), Tally(map[a := 2, c := 1], 4))
  {
    h := PackedSelf(code, a, c);
    ZeroOnPacked(a, c);
    var s, s' := Snap(map[a := [a], c := [a]], map[], [c], []), Snap(map[a := [a], c := [a]], map[], [ZERO, c], []);
    h := GoOn(code, 7, h, s, Tally(map[a := 2, c := 1], 3), Quiet, s', Tally(map[a := 2, c := 1], 4));
  }

  lemma SelfPacked(a: StackItem, c: StackItem)
    requires a.Array? && c.Array? && a != c
    ensures var s, s' := Single(a, [a], [BigInteger(1), a]), Snap(map[a := [a], c := [a]], map[], [c], []);
            && Does(PackItems, s, Wrote(Write(s.G, map[], c, [a]), c), s')
            && AccountAt(s', Tally(map[a := 2, c := 1], 3), multiset{})
  {
    var s, s' := Single(a, [a], [BigInteger(1), a]), Snap(map[a := [a], c := [a]], map[], [c], []);
    PacksOne(s, c);
    assert s' == Snap(s.G[c := [s.e[1]]], map[], [c] + s.e[2..], []);
    TwoLive(s', a, c, 2, 1);
  }

  lemma SelfBelowOne(code: seq<ObjInstr>, a: StackItem) returns (h: History)
    requires a.Array? && HoldsItself(code) && |code| >= 6 && code[5] == PUSH_ONE
    ensures LedTo(code, 6, h, Single(a, [a], [BigInteger(1), a]), SingleTally(a, [a], [BigInteger(1), a]))
  {
    h := SelfHeld(code, a);
    h := PushesOn(code, 5, h, a, [a], [a], BigInteger(1));
    assert [BigInteger(1)] + [a] == [BigInteger(1), a];
  }

  lemma PackedSelf(code: seq<ObjInstr>, a: StackItem, c: StackItem) returns (h: History)
    requires a.Array? && c.Array? && a != c && |code| >= 7 && code[5] == PUSH_ONE && code[6] == PackItems
    requires HoldsItself(code)
    ensures LedTo(code, 7, h, Snap(map[a := [a], c := [a]], map[], [c], []), Tally(map[a := 2, c := 1], 3))
  {
    h := SelfBelowOne(code, a);
    SelfPacked(a, c);
    var s, s' := Single(a, [a], [BigInteger(1), a]), Snap(map[a := [a], c := [a]], map[], [c], []);
    var ev := Wrote(Write(s.G, map[], c, [a]), c);
    h := GoOn(code, 6, h, s, SingleTally(a, [a], s.e), ev, s', Tally(map[a := 2, c := 1], 3));
  }

  lemma PackedTakenOff(s: Snap, a: StackItem, c: StackItem)
    requires a.IsContainer() && c.IsContainer() && a != c
    requires s == Snap(map[a := [a], c := [a]], map[], [ZERO, c], [])
    ensures AfterOperands(s, Tally(map[a := 2, c := 1], 4)) == Some(Tally(map[a := 1], 1))
  {
    var r, slots := Tally(map[a := 2, c := 1], 3), [a];
    var two: map<StackItem, int> := map[a := 2];
    assert two[a := 1] == map[a := 1];
    assert Dead(r, c) == Tally(two, 2) && SlotsAt(s.G, c) == slots && slots[1..] == [];
    WalkOpens(s.G, r, c, |s.G| + 1);
    assert WalkAll(s.G, Tally(map[a := 2], 2), slots, |s.G|) == Some(Tally(map[a := 1], 1));
  }

  // ----- a size below zero

  /** PUSH1 NEWARRAY PUSH0 REMOVE leaves the size -1 and nothing on the stacks. */
  lemma SizeBelowZeroRuns(a: StackItem) returns (h: History)
    requires a.Array?
    ensures var code := [PUSH_ONE, NewArray, PUSH_ZERO, RemoveItem];
            var s, t := Snap(map[a := [Boolean(false)]], map[], [ZERO, a], []), Tally(map[a := 1], 3);
            && LedTo(code, 3, h, s, t) && AboutToEmpty(s, a) && AfterOperands(s, t) != None
            && Walk(s.G, AfterOperands(s, t).value, s.G[a][0], 0) == Some(Tally(map[], -1))
            && forall ev, s' :: Does(RemoveItem, s, ev, s') ==> a in s'.G && s'.G[a] == []
  {
    h := FalseReady([PUSH_ONE, NewArray, PUSH_ZERO, RemoveItem], a);
    OneTakenOff(Single(a, [Boolean(false)], [ZERO, a]), a);
    EmptiesArray(Single(a, [Boolean(false)], [ZERO, a]), a);
  }

  lemma FalseMade(code: seq<ObjInstr>, a: StackItem) returns (h: History)
    requires a.Array? && |code| >= 2 && code[0] == PUSH_ONE && code[1] == NewArray
    ensures LedTo(code, 2, h, Single(a, [Boolean(false)], [a]), SingleTally(a, [Boolean(false)], [a]))
  {
    FewFalses();
    h := ArrayMade(code, BigInteger(1), a, 1);
  }

  lemma FalseReady(code: seq<ObjInstr>, a: StackItem) returns (h: History)
    requires a.Array? && |code| >= 3 && code[0] == PUSH_ONE && code[1] == NewArray && code[2] == PUSH_ZERO
    ensures LedTo(code, 3, h, Single(a, [Boolean(false)], [ZERO, a]), Tally(map[a := 1], 3))
  {
    h := FalseMade(code, a);
    h := PushesOn(code, 2, h, a, [Boolean(false)], [a], ZERO);
    TalliesSo(a);
  }

  lemma OneTakenOff(s: Snap, a: StackItem)
    requires a.IsContainer() && s == Snap(map[a := [Boolean(false)]], map[], [ZERO, a], [])
    ensures AfterOperands(s, Tally(map[a := 1], 3)) == Some(Tally(map[], 0))
  {
    var r, slots := Tally(map[a := 1], 2), [Boolean(false)];
    assert Dead(r, a) == Tally(map[], 1) && SlotsAt(s.G, a) == slots && slots[1..] == [];
    WalkOpens(s.G, r, a, |s.G| + 1);
    assert WalkAll(s.G, Tally(map[], 1), slots, |s.G|) == Some(Tally(map[], 0));
  }
}
