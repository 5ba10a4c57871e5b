/**
  Whole runs of stack opcodes over an evaluation stack and an alternative stack that share the counters.
  The ring lists end as the sequence functions say, and the counters are exact after every step.
 */
module StackRuns {
  import opened Limits
  import opened Options
  import opened Items
  import opened RefCount
  import opened Counting
  import opened RingStack
  import opened Equality
  import opened StackOps
  import opened Reaching

  datatype Instr = Push(x: StackItem) | OnEval(op: Shuffle) | ToAlt | FromAlt | DupFromAlt

  /** Evaluation and alternative stack, top first. */
  datatype Pair = Pair(e: seq<StackItem>, a: seq<StackItem>)

  function Stepped(i: Instr, p: Pair): Option<Pair> {
    match i
    case Push(x) => Some(Pair([x] + p.e, p.a))
    case OnEval(op) => (match Shuffled(op, p.e) case None => None case Some(e) => Some(Pair(e, p.a)))
    case ToAlt => if p.e == [] then None else Some(Pair(p.e[1..], [p.e[0]] + p.a))
    case FromAlt => if p.a == [] then None else Some(Pair([p.a[0]] + p.e, p.a[1..]))
    case DupFromAlt => if p.a == [] then None else Some(Pair([p.a[0]] + p.e, p.a))
  }

  function RunOf(code: seq<Instr>, p: Pair): Option<Pair> {
    if code == [] then Some(p)
    else match Stepped(code[0], p)
      case None => None
      case Some(q) => RunOf(code[1..], q)
  }

  /** Both stacks are well linked, share no element, and the counters are exact; O are the slots of all others. */
  ghost predicate BookedPair(e: Stack, a: Stack, G: Graph, O: multiset<StackItem>)
    requires AllContainers(G)
    reads e, a, e.ring, a.ring, e.counters, Objects(G)
  {
    && e != a && e.counters == a.counters && e.Nodes() !! a.Nodes()
    && e.Valid() && a.Valid()
    && e.counters.Audited(G, O + multiset(e.Contents()) + multiset(a.Contents()))
  }

  ghost function Both(e: Stack, a: Stack): Pair
    requires |e.ring| > 0 && |a.ring| > 0
    reads e, a, e.ring, a.ring
  {
    Pair(e.Contents(), a.Contents())
  }

  lemma OneOfTwo(O: multiset<StackItem>, e: multiset<StackItem>, a: multiset<StackItem>)
    ensures O + e + a == O + a + e
  {
  }

  /** A step on the first stack alone. */
  method StepEval(e: Stack, a: Stack, op: Shuffle, ghost G: Graph, ghost O: multiset<StackItem>) returns (ok: bool)
    requires AllContainers(G) && BookedPair(e, a, G, O)
    modifies e`ring, e`len, e.Nodes(), e.counters
    ensures BookedPair(e, a, G, O) && fresh(e.Nodes() - old(e.Nodes())) && a.Nodes() == old(a.Nodes())
    ensures a.Contents() == old(a.Contents())
    ensures Shuffled(op, old(e.Contents())) == if ok then Some(e.Contents()) else None
  {
    ghost var O' := O + multiset(a.Contents());
    OneOfTwo(O, multiset(e.Contents()), multiset(a.Contents()));
    assert forall i :: 0 <= i < |a.ring| ==> a.ring[i] in a.Nodes();
    ok := Perform(e, op, G, O');
    a.Kept();
    OneOfTwo(O, multiset(e.Contents()), multiset(a.Contents()));
  }

  method PopFirst(e: Stack, a: Stack, ghost G: Graph, ghost O: multiset<StackItem>) returns (x: Element?)
    requires AllContainers(G) && BookedPair(e, a, G, O)
    modifies e`ring, e`len, e.Nodes(), e.counters
    ensures BookedPair(e, a, G, O) && e.Nodes() <= old(e.Nodes()) && a.Nodes() == old(a.Nodes())
    ensures a.Contents() == old(a.Contents())
    ensures x == null <==> old(e.Contents()) == []
    ensures x == null ==> e.Contents() == []
    ensures x != null ==>
              e.Contents() == old(e.Contents())[1..] && x.value == old(e.Contents())[0] && Covered(G, x.value)
    ensures x != null ==> x in old(e.Nodes()) && x.stack == null && x != e.top
  {
    OneOfTwo(O, multiset(e.Contents()), multiset(a.Contents()));
    assert forall i :: 0 <= i < |a.ring| ==> a.ring[i] in a.Nodes();
    x := PopElement(e, G, O + multiset(a.Contents()));
    a.Kept();
    OneOfTwo(O, multiset(e.Contents()), multiset(a.Contents()));
  }

  method PushFirst(e: Stack, a: Stack, x: Element, ghost G: Graph, ghost O: multiset<StackItem>)
    requires AllContainers(G) && BookedPair(e, a, G, O) && Covered(G, x.value)
    requires x.stack == null && x != e.top && x != a.top
    modifies e`ring, e`len, e.Nodes(), x, e.counters
    ensures BookedPair(e, a, G, O) && e.Nodes() == old(e.Nodes()) + {x} && a.Nodes() == old(a.Nodes())
    ensures a.Contents() == old(a.Contents()) && e.Contents() == [x.value] + old(e.Contents())
    ensures x.value == old(x.value)
  {
    OneOfTwo(O, multiset(e.Contents()), multiset(a.Contents()));
    Unheld(a, x);
    assert forall i :: 0 <= i < |a.ring| ==> a.ring[i] in a.Nodes();
    PushElement(e, x, G, O + multiset(a.Contents()));
    a.Kept();
    OneOfTwo(O, multiset(e.Contents()), multiset(a.Contents()));
  }

  lemma Unheld(st: Stack, x: Element)
    requires st.Valid() && x.stack == null && x != st.top
    ensures x !in st.Nodes()
  {
  }

  lemma SentinelIsNode(st: Stack)
    requires st.Valid()
    ensures st.top in st.Nodes()
  {
  }

  lemma BothWays(e: Stack, a: Stack, G: Graph, O: multiset<StackItem>)
    requires AllContainers(G) && BookedPair(e, a, G, O)
    ensures BookedPair(a, e, G, O)
  {
    OneOfTwo(O, multiset(e.Contents()), multiset(a.Contents()));
  }

  method PushSecond(e: Stack, a: Stack, x: Element, ghost G: Graph, ghost O: multiset<StackItem>)
    requires AllContainers(G) && BookedPair(e, a, G, O) && Covered(G, x.value)
    requires x.stack == null && x != e.top && x != a.top
    modifies a`ring, a`len, a.Nodes(), x, e.counters
    ensures BookedPair(e, a, G, O) && a.Nodes() == old(a.Nodes()) + {x} && e.Nodes() == old(e.Nodes())
    ensures e.Contents() == old(e.Contents()) && a.Contents() == [x.value] + old(a.Contents())
    ensures x.value == old(x.value)
  {
    BothWays(e, a, G, O);
    PushFirst(a, e, x, G, O);
    BothWays(a, e, G, O);
  }

  /** The top element moves from one stack to the other. */
  method Move(from: Stack, to: Stack, ghost G: Graph, ghost O: multiset<StackItem>) returns (ok: bool)
    requires AllContainers(G) && BookedPair(from, to, G, O)
    modifies from`ring, from`len, from.Nodes(), to`ring, to`len, to.Nodes(), from.counters
    ensures BookedPair(from, to, G, O)
    ensures from.Nodes() <= old(from.Nodes()) && to.Nodes() <= old(to.Nodes()) + old(from.Nodes())
    ensures ok <==> old(from.Contents()) != []
    ensures !ok ==> from.Contents() == old(from.Contents()) && to.Contents() == old(to.Contents())
    ensures ok ==>
              from.Contents() == old(from.Contents())[1..]
              && to.Contents() == [old(from.Contents())[0]] + old(to.Contents())
  {
    var x := PopFirst(from, to, G, O);
    ok := x != null;
    if ok {
      SentinelIsNode(to);
      PushSecond(from, to, x, G, O);
    }
  }

  method CopyOf(e: Stack, a: Stack, ghost G: Graph, ghost O: multiset<StackItem>) returns (x: Element?)
    requires AllContainers(G) && BookedPair(e, a, G, O)
    ensures BookedPair(e, a, G, O) && Both(e, a) == old(Both(e, a))
    ensures e.Nodes() == old(e.Nodes()) && a.Nodes() == old(a.Nodes())
    ensures x == null <==> a.Contents() == []
    ensures x != null ==> fresh(x) && x.stack == null && x.value == a.Contents()[0] && Covered(G, x.value)
  {
    x := a.Dup(0);
    ShowsKept(G);
    a.Kept();
    e.Kept();
    if x != null {
      BothWays(e, a, G, O);
      HeldIsKnown(a, G, O + multiset(e.Contents()), 0);
    }
  }

  /** What lies on top of the second stack. */
  method TopOf(e: Stack, a: Stack, ghost G: Graph, ghost O: multiset<StackItem>) returns (v: Option<StackItem>)
    requires AllContainers(G) && BookedPair(e, a, G, O)
    ensures BookedPair(e, a, G, O) && Both(e, a) == old(Both(e, a))
    ensures e.Nodes() == old(e.Nodes()) && a.Nodes() == old(a.Nodes())
    ensures v == if a.Contents() == [] then None else Some(a.Contents()[0])
    ensures v != None ==> Covered(G, v.value)
  {
    var x := CopyOf(e, a, G, O);
    v := if x == null then None else Some(x.value);
  }

  method CopyAcross(e: Stack, a: Stack, ghost G: Graph, ghost O: multiset<StackItem>)
    returns (ok: bool, ghost grown: set<Element>)
    requires AllContainers(G) && BookedPair(e, a, G, O)
    modifies e`ring, e`len, e.Nodes(), e.counters
    ensures BookedPair(e, a, G, O) && fresh(grown) && e.Nodes() <= old(e.Nodes()) + grown && a.Nodes() == old(a.Nodes())
    ensures a.Contents() == old(a.Contents())
    ensures ok <==> a.Contents() != []
    ensures e.Contents() == if ok then [a.Contents()[0]] + old(e.Contents()) else old(e.Contents())
  {
    var v := TopOf(e, a, G, O);
    ok, grown := v != None, {};
    if ok {
      grown := PushNew(e, a, v.value, G, O);
    }
  }

  /** Pushes a value in a new element; grown is what came to the stack. */
  method PushNew(e: Stack, a: Stack, v: StackItem, ghost G: Graph, ghost O: multiset<StackItem>)
    returns (ghost grown: set<Element>)
    requires AllContainers(G) && BookedPair(e, a, G, O) && Covered(G, v)
    modifies e`ring, e`len, e.Nodes(), e.counters
    ensures BookedPair(e, a, G, O) && fresh(grown) && e.Nodes() <= old(e.Nodes()) + grown && a.Nodes() == old(a.Nodes())
    ensures a.Contents() == old(a.Contents()) && e.Contents() == [v] + old(e.Contents())
  {
    var x := new Element(v);
    grown := {x};
    assert fresh(grown);
    ShowsKept(G);
    e.Kept();
    a.Kept();
    PushFirst(e, a, x, G, O);
  }

  method Step(e: Stack, a: Stack, i: Instr, ghost G: Graph, ghost O: multiset<StackItem>) returns (ok: bool)
    requires AllContainers(G) && BookedPair(e, a, G, O) && (i.Push? ==> Covered(G, i.x))
    modifies e`ring, e`len, e.Nodes(), a`ring, a`len, a.Nodes(), e.counters
    ensures BookedPair(e, a, G, O) && fresh(e.Nodes() + a.Nodes() - old(e.Nodes()) - old(a.Nodes()))
    ensures Stepped(i, old(Both(e, a))) == if ok then Some(Both(e, a)) else None
  {
    ghost var grown;
    match i {
      case Push(v) =>
        grown := PushNew(e, a, v, G, O);
        ok := true;
      case OnEval(op) =>
        ok := StepEval(e, a, op, G, O);
      case ToAlt =>
        ok := Move(e, a, G, O);
      case FromAlt =>
        BothWays(e, a, G, O);
        ok := Move(a, e, G, O);
        BothWays(a, e, G, O);
      case DupFromAlt =>
        ok, grown := CopyAcross(e, a, G, O);
    }
  }

  // ----- runs

  /** All slots that the books account for. */
  ghost function SlotsOn(O: multiset<StackItem>, p: Pair): multiset<StackItem> {
    O + multiset(p.e) + multiset(p.a)
  }

  /** The first k + 1 instructions go through, and t are exact counts for where they lead. */
  ghost predicate LedgerAt(G: Graph, O: multiset<StackItem>, code: seq<Instr>, p: Pair, k: nat, t: Tally)
    requires k < |code|
  {
    var q := RunOf(code[..k + 1], p);
    q != None && Exact(G, t.itemCount, t.size, SlotsOn(O, q.value))
  }

  /** Counts for the first instructions, one after the other, none but the last above the limit. */
  ghost predicate Ledger(G: Graph, O: multiset<StackItem>, code: seq<Instr>, p: Pair, ts: seq<Tally>) {
    && |ts| <= |code|
    && (forall k {:trigger ts[k]} :: 0 <= k < |ts| ==> LedgerAt(G, O, code, p, k, ts[k]))
    && (forall k {:trigger ts[k]} :: 0 <= k < |ts| - 1 ==> ts[k].size <= MAX_STACK_SIZE)
  }

  predicate LastFits(ts: seq<Tally>) { ts != [] ==> ts[|ts| - 1].size <= MAX_STACK_SIZE }

  /** Why a run stopped: the last count is above the limit, or the next instruction faults. */
  ghost predicate Stopped(code: seq<Instr>, p: Pair, ts: seq<Tally>) {
    if LastFits(ts) then |ts| < |code| && RunOf(code[..|ts| + 1], p) == None else |ts| <= |code|
  }

  lemma LedgerGrows(G: Graph, O: multiset<StackItem>, code: seq<Instr>, p: Pair, ts: seq<Tally>, t: Tally)
    requires Ledger(G, O, code, p, ts) && LastFits(ts) && |ts| < |code| && LedgerAt(G, O, code, p, |ts|, t)
    ensures Ledger(G, O, code, p, ts + [t])
  {
  }

  lemma {:induction false} OneMoreStep(code: seq<Instr>, p: Pair, k: nat)
    requires k < |code|
    ensures RunOf(code[..k + 1], p) ==
            match RunOf(code[..k], p) case None => None case Some(q) => Stepped(code[k], q)
    decreases k
  {
    if k > 0 {
      assert code[..k + 1][1..] == code[1..][..k] && code[..k][1..] == code[1..][..k - 1];
      if Stepped(code[0], p) != None { OneMoreStep(code[1..], Stepped(code[0], p).value, k - 1); }
    } else {
      assert code[..1][1..] == [] && code[..0] == [];
    }
  }

  /** One opcode of a run, and the check of the size behind it. */
  method Advance(e: Stack, a: Stack, code: seq<Instr>, k: nat, ghost p: Pair, ghost ts: seq<Tally>,
                 ghost G: Graph, ghost O: multiset<StackItem>)
    returns (ok: bool, ghost ts': seq<Tally>)
    requires AllContainers(G) && BookedPair(e, a, G, O) && k < |code| && (code[k].Push? ==> Covered(G, code[k].x))
    requires RunOf(code[..k], p) == Some(Both(e, a)) && |ts| == k && Ledger(G, O, code, p, ts) && LastFits(ts)
    modifies e`ring, e`len, e.Nodes(), a`ring, a`len, a.Nodes(), e.counters
    ensures BookedPair(e, a, G, O) && fresh(e.Nodes() + a.Nodes() - old(e.Nodes()) - old(a.Nodes()))
    ensures Ledger(G, O, code, p, ts') && k <= |ts'| <= k + 1
    ensures ok ==> |ts'| == k + 1 && LastFits(ts') && RunOf(code[..k + 1], p) == Some(Both(e, a))
    ensures !ok ==> Stopped(code, p, ts')
  {
    ts' := ts;
    OneMoreStep(code, p, k);
    ok := Step(e, a, code[k], G, O);
    if ok {
      LedgerGrows(G, O, code, p, ts, e.counters.Now());
      ts' := ts + [e.counters.Now()];
      ok := e.counters.size <= MAX_STACK_SIZE;
    }
  }

  /** The rest of a run, from instruction k on. */
  method RunFrom(e: Stack, a: Stack, code: seq<Instr>, k: nat, ghost p: Pair, ghost ts0: seq<Tally>,
                 ghost G: Graph, ghost O: multiset<StackItem>)
    returns (ok: bool, ghost ts: seq<Tally>)
    requires AllContainers(G) && BookedPair(e, a, G, O) && k <= |code|
    requires forall k :: 0 <= k < |code| && code[k].Push? ==> Covered(G, code[k].x)
    requires RunOf(code[..k], p) == Some(Both(e, a)) && |ts0| == k && Ledger(G, O, code, p, ts0) && LastFits(ts0)
    modifies e`ring, e`len, e.Nodes(), a`ring, a`len, a.Nodes(), e.counters
    ensures BookedPair(e, a, G, O)
    ensures Ledger(G, O, code, p, ts)
    ensures ok ==> |ts| == |code| && LastFits(ts) && RunOf(code, p) == Some(Both(e, a))
    ensures !ok ==> Stopped(code, p, ts)
    decreases |code| - k
  {
    ok, ts := true, ts0;
    assert code[..|code|] == code;
    if k < |code| {
      ok, ts := Advance(e, a, code, k, p, ts0, G, O);
      if ok {
        ok, ts := RunFrom(e, a, code, k + 1, p, ts, G, O);
      }
    }
  }

  /**
    A run of opcodes up to the first fault; ts are the counts after each opcode. It goes through if and only
    if every opcode does and no count is above the limit; the last count may be the one that is.
   */
  method Run(e: Stack, a: Stack, code: seq<Instr>, ghost G: Graph, ghost O: multiset<StackItem>)
    returns (ok: bool, ghost ts: seq<Tally>)
    requires AllContainers(G) && BookedPair(e, a, G, O)
    requires forall k :: 0 <= k < |code| && code[k].Push? ==> Covered(G, code[k].x)
    modifies e`ring, e`len, e.Nodes(), a`ring, a`len, a.Nodes(), e.counters
    ensures BookedPair(e, a, G, O)
    ensures Ledger(G, O, code, old(Both(e, a)), ts)
    ensures ok ==> |ts| == |code| && LastFits(ts) && RunOf(code, old(Both(e, a))) == Some(Both(e, a))
    ensures !ok ==> Stopped(code, old(Both(e, a)), ts)
  {
    assert code[..0] == [];
    ok, ts := RunFrom(e, a, code, 0, Both(e, a), [], G, O);
  }

  /**
    Where no container holds itself, the counts are no more than the slots on the stacks and in what they
    reach, so that the size is known from the contents alone.
   */
  lemma LedgerSize(G: Graph, O: multiset<StackItem>, code: seq<Instr>, p: Pair, k: nat, t: Tally,
                   depth: map<StackItem, nat>)
    requires k < |code| && LedgerAt(G, O, code, p, k, t) && Acyclic(G, depth)
    ensures var R := SlotsOn(O, RunOf(code[..k + 1], p).value); t.size == |R| + |Slots(G, ReachableSet(G, R))|
  {
    AcyclicIsTight(G, t, SlotsOn(O, RunOf(code[..k + 1], p).value), depth);
  }
}
