/**
  What a frame with stacks of its own can do to its caller, over whole runs: it does not touch a stack of the
  caller until it returns, and then it hands over exactly the results it was called for. Containers on the
  heap are shared, and it may change those.
 */
module Isolation {
  import opened Bytes
  import opened Options
  import opened Items
  import opened Opcodes
  import opened Contexts
  import opened Frames

  ghost predicate StepAt(scripts: Scripts, run: seq<Vm>, i: nat)
    requires i < |run| - 1
  {
    WellFormed(run[i]) && !run[i].halted && StepTo(scripts, run[i], run[i + 1])
  }

  /** States one step apart, all of them in order. */
  ghost predicate IsRun(scripts: Scripts, run: seq<Vm>) {
    |run| > 0 && forall i {:trigger StepAt(scripts, run, i)} :: 0 <= i < |run| - 1 ==> StepAt(scripts, run, i)
  }

  /** Every state of a run that starts well is sound. */
  lemma {:induction false} RunSound(scripts: Scripts, run: seq<Vm>, i: nat)
    requires IsRun(scripts, run) && i < |run| && Sound(run[0])
    ensures Sound(run[i])
    decreases i
  {
    if i > 0 {
      RunSound(scripts, run, i - 1);
      assert StepAt(scripts, run, i - 1);
      StepSound(scripts, run[i - 1], run[i]);
    }
  }

  // ----- being above

  /** The stacks below mark are as in kept. */
  ghost predicate Kept(stacks: map<nat, seq<StackItem>>, kept: map<nat, seq<StackItem>>, mark: nat) {
    forall id {:trigger kept[id]} {:trigger id in kept} ::
      id in kept && id < mark ==> id in stacks && stacks[id] == kept[id]
  }

  ghost predicate Away(f: Frame, mark: nat) { f.es >= mark && f.alt >= mark }

  /**
    Above the frames of base there are others, none of which knows a stack below mark; those stacks are as
    they were. The lowest of the other frames owes r results, or all it has if r is negative.
   */
  ghost predicate Above(s: Vm, base: seq<Frame>, kept: map<nat, seq<StackItem>>, mark: nat, r: int) {
    var n := |s.frames| - |base|;
    && n > 0 && s.frames[n..] == base && s.frames[n - 1].rvcount == r
    && (forall i {:trigger s.frames[i]} :: 0 <= i < n ==> Away(s.frames[i], mark))
    && Kept(s.stacks, kept, mark)
    && s.unused >= mark
  }

  /** The instruction that s executes next is a TAILCALL. */
  ghost predicate TailCalls(s: Vm)
    requires WellFormed(s)
  {
    assert FrameOk(s.frames[0], s.stacks);
    NextInstr(s) != None && NextInstr(s).value.op == TAILCALL
  }

  /** What the lowest frame owes after the step: a frame that a TAILCALL puts in its place owes all it has. */
  ghost function Owed(s: Vm, base: seq<Frame>, r: int): int
    requires WellFormed(s)
  {
    if |s.frames| == |base| + 1 && TailCalls(s) then -1 else r
  }

  /** The return to the base: so many results from the top of the stack lie on the caller's. */
  ghost predicate HandedOver(s: Vm, t: Vm, base: seq<Frame>, kept: map<nat, seq<StackItem>>, mark: nat, r: int)
    requires base != [] && base[0].es in kept
  {
    var to := base[0].es;
    && t.frames == base && t.estack == to && t.astack == base[0].alt
    && s.estack in s.stacks && 0 <= ReturnCount(r, |Current(s)|) <= |Current(s)|
    && to in t.stacks && t.stacks[to] == Current(s)[..ReturnCount(r, |Current(s)|)] + kept[to]
    && KeptBut(t.stacks, kept, mark, to)
  }

  ghost predicate KeptBut(stacks: map<nat, seq<StackItem>>, kept: map<nat, seq<StackItem>>, mark: nat, to: nat) {
    forall id {:trigger kept[id]} {:trigger id in kept} ::
      id in kept && id < mark && id != to ==> id in stacks && stacks[id] == kept[id]
  }

  lemma AdvancedAbove(s: Vm, base: seq<Frame>, kept: map<nat, seq<StackItem>>, mark: nat, r: int)
    requires WellFormed(s) && NextInstr(s) != None && Above(s, base, kept, mark, r)
    ensures Above(Advanced(s, NextInstr(s).value), base, kept, mark, r)
  {
    var t, n := Advanced(s, NextInstr(s).value), |s.frames| - |base|;
    assert t.frames[n..] == s.frames[n..];
    assert Away(s.frames[0], mark);
  }

  /** Frames pushed on top do not reach below. */
  lemma PushedAbove(s: Vm, t: Vm, base: seq<Frame>, kept: map<nat, seq<StackItem>>, mark: nat, r: int)
    requires Above(s, base, kept, mark, r)
    requires |t.frames| == |s.frames| + 1 && t.frames[1..] == s.frames && Away(t.frames[0], mark)
    requires t.unused >= mark && Kept(t.stacks, kept, mark)
    ensures Above(t, base, kept, mark, r)
  {
    var n := |s.frames| - |base|;
    assert t.frames == [t.frames[0]] + s.frames;
    assert t.frames[n + 1..] == s.frames[n..];
    forall i | 0 <= i < n + 1 ensures Away(t.frames[i], mark) {
      if i > 0 { assert t.frames[i] == s.frames[i - 1]; }
    }
    assert t.frames[n] == s.frames[n - 1];
  }

  /** A frame in the place of the top one: if that is the lowest, it owes what its own return count says. */
  lemma ReplacedAbove(s: Vm, t: Vm, base: seq<Frame>, kept: map<nat, seq<StackItem>>, mark: nat, r: int, r': int)
    requires Above(s, base, kept, mark, r)
    requires |t.frames| == |s.frames| && t.frames[1..] == s.frames[1..] && Away(t.frames[0], mark)
    requires r' == if |s.frames| == |base| + 1 then t.frames[0].rvcount else r
    requires t.unused >= mark && Kept(t.stacks, kept, mark)
    ensures Above(t, base, kept, mark, r')
  {
    var n := |s.frames| - |base|;
    forall i | 1 <= i < |s.frames| ensures t.frames[i] == s.frames[i] {
      assert t.frames[1..][i - 1] == s.frames[1..][i - 1];
    }
    assert t.frames[n..] == s.frames[n..];
  }

  /** Returning to a frame that is still above the base. */
  lemma PoppedAbove(s: Vm, t: Vm, base: seq<Frame>, kept: map<nat, seq<StackItem>>, mark: nat, r: int)
    requires Above(s, base, kept, mark, r) && |s.frames| > |base| + 1
    requires t.frames == s.frames[1..] && t.unused >= mark && Kept(t.stacks, kept, mark)
    ensures Above(t, base, kept, mark, r)
  {
    var n := |s.frames| - |base|;
    assert t.frames[n - 1..] == s.frames[n..];
    forall i | 0 <= i < n - 1 ensures Away(t.frames[i], mark) { assert t.frames[i] == s.frames[i + 1]; }
    assert t.frames[n - 2] == s.frames[n - 1];
  }

  // ----- one step

  lemma IsolatedShape(scripts: Scripts, u: Vm, op: byte, param: bytes, t: Vm)
    requires u.frames != [] && u.estack in u.stacks && IsIsolated(op) && |param| == FixedLength(op)
    requires CallIsolated(scripts, u, op, param) == Some(t)
    ensures t.frames != [] && t.frames[1..] == if IsTail(op) then u.frames[1..] else u.frames
    ensures t.frames[0].es == u.unused && t.frames[0].alt == u.unused + 1 && t.unused == u.unused + 2
    ensures t.frames[0].rvcount == param[0] && (IsTail(op) ==> u.frames[0].rvcount == param[0])
    ensures forall id :: id in u.stacks && id != u.estack && id < u.unused ==>
              id in t.stacks && t.stacks[id] == u.stacks[id]
  {
  }

  lemma IsolatedAbove(scripts: Scripts, u: Vm, op: byte, param: bytes, t: Vm, base: seq<Frame>,
                      kept: map<nat, seq<StackItem>>, mark: nat, r: int)
    requires WellFormed(u) && IsIsolated(op) && |param| == FixedLength(op) && u.estack in u.stacks
    requires CallIsolated(scripts, u, op, param) == Some(t) && Above(u, base, kept, mark, r)
    ensures Above(t, base, kept, mark, r)
  {
    IsolatedShape(scripts, u, op, param, t);
    assert Away(u.frames[0], mark);
    if IsTail(op) {
      ReplacedAbove(u, t, base, kept, mark, r, r);
    } else {
      PushedAbove(u, t, base, kept, mark, r);
    }
  }

  lemma TailCallAbove(scripts: Scripts, u: Vm, param: bytes, t: Vm, base: seq<Frame>, kept: map<nat, seq<StackItem>>,
                      mark: nat, r: int)
    requires WellFormed(u) && AppCall(scripts, u, true, param) == Some(t) && Above(u, base, kept, mark, r)
    ensures Above(t, base, kept, mark, if |u.frames| == |base| + 1 then -1 else r)
  {
    assert FrameOk(u.frames[0], u.stacks);
    assert Away(u.frames[0], mark);
    ReplacedAbove(u, t, base, kept, mark, r, if |u.frames| == |base| + 1 then -1 else r);
  }

  lemma ReturnedShape(u: Vm, t: Vm)
    requires WellFormed(u) && !u.halted && Returned(u) == Some(t) && |u.frames| > 1
    ensures t.frames == u.frames[1..] && t.unused == u.unused
    ensures var f, g := u.frames[0], u.frames[1];
            forall id {:trigger t.stacks[id]} ::
              id in u.stacks && id != f.es && id != g.es && id != f.alt && id != g.alt ==>
              id in t.stacks && t.stacks[id] == u.stacks[id]
  {
    assert FrameOk(u.frames[0], u.stacks) && FrameOk(u.frames[1], u.stacks);
  }

  /** Returning within: the stacks below the mark are not those that a return writes. */
  lemma ReturnWithin(u: Vm, t: Vm, base: seq<Frame>, kept: map<nat, seq<StackItem>>, mark: nat, r: int)
    requires WellFormed(u) && !u.halted && Returned(u) == Some(t)
    requires Above(u, base, kept, mark, r) && |u.frames| > |base| + 1
    ensures Above(t, base, kept, mark, r)
  {
    ReturnedShape(u, t);
    assert Away(u.frames[0], mark) && Away(u.frames[1], mark);
    forall id | id in kept && id < mark ensures id in t.stacks && t.stacks[id] == kept[id] {
      assert id in u.stacks && u.stacks[id] == kept[id];
      assert t.stacks[id] == t.stacks[id];
    }
    PoppedAbove(u, t, base, kept, mark, r);
  }

  lemma ReturnToBase(u: Vm, t: Vm, base: seq<Frame>, kept: map<nat, seq<StackItem>>, mark: nat, r: int)
    requires WellFormed(u) && !u.halted && Returned(u) == Some(t)
    requires base != [] && base[0].es in kept && base[0].es < mark && Above(u, base, kept, mark, r)
    requires |u.frames| == |base| + 1
    ensures HandedOver(u, t, base, kept, mark, r)
  {
    assert FrameOk(u.frames[0], u.stacks) && FrameOk(u.frames[1], u.stacks);
    assert u.frames[1..] == base && u.frames[0].rvcount == r && Away(u.frames[0], mark);
    var n, to := ReturnCount(r, |Current(u)|), base[0].es;
    assert u.frames[1] == base[0] && u.estack != to && u.stacks[to] == kept[to];
    assert t.stacks == u.stacks[u.estack := Current(u)[n..]][to := Current(u)[..n] + u.stacks[to]];
    ReturnKeeps(u.stacks, u.estack, Current(u)[n..], to, Current(u)[..n] + u.stacks[to], kept, mark);
  }

  lemma ReturnKeeps(stacks: map<nat, seq<StackItem>>, from: nat, x: seq<StackItem>, to: nat, y: seq<StackItem>,
                    kept: map<nat, seq<StackItem>>, mark: nat)
    requires Kept(stacks, kept, mark) && from >= mark
    ensures KeptBut(stacks[from := x][to := y], kept, mark, to)
  {
  }

  lemma DataAbove(u: Vm, f: Fetched, t: Vm, base: seq<Frame>, kept: map<nat, seq<StackItem>>, mark: nat, r: int)
    requires WellFormed(u) && t.frames == u.frames && t.unused == u.unused
    requires u.estack in u.stacks && u.astack in u.stacks && u.estack in t.stacks && u.astack in t.stacks
    requires t.stacks == u.stacks[u.astack := t.stacks[u.astack]][u.estack := t.stacks[u.estack]]
    requires Above(u, base, kept, mark, r)
    ensures Above(t, base, kept, mark, r)
  {
    assert Away(u.frames[0], mark);
  }

  lemma JumpAbove(u: Vm, op: byte, param: bytes, t: Vm, base: seq<Frame>, kept: map<nat, seq<StackItem>>, mark: nat,
                  r: int)
    requires WellFormed(u) && u.estack in u.stacks && |param| == 2 && Jump(u, op, param) == Some(t)
    requires Above(u, base, kept, mark, r)
    ensures Above(t, base, kept, mark, r)
  {
    assert Away(u.frames[0], mark);
    ReplacedAbove(u, t, base, kept, mark, r, r);
  }

  lemma PushesAbove(scripts: Scripts, u: Vm, f: Fetched, t: Vm, base: seq<Frame>, kept: map<nat, seq<StackItem>>,
                    mark: nat, r: int)
    requires WellFormed(u) && u.estack in u.stacks && |f.param| >= FixedLength(f.op)
    requires if f.op == CALL then |f.param| == 2 && Call(u, f.param) == Some(t)
             else AppCall(scripts, u, false, f.param) == Some(t)
    requires Above(u, base, kept, mark, r)
    ensures Above(t, base, kept, mark, r)
  {
    assert Away(u.frames[0], mark);
    PushedAbove(u, t, base, kept, mark, r);
  }

  lemma ExecutesAbove(scripts: Scripts, u: Vm, f: Fetched, t: Vm, base: seq<Frame>, kept: map<nat, seq<StackItem>>,
                      mark: nat, r: int)
    requires WellFormed(u) && !u.halted && |f.param| >= FixedLength(f.op)
    requires LengthBytes(f.op) == 0 ==> |f.param| == FixedLength(f.op)
    requires Executes(scripts, u, f, t)
    requires base != [] && base[0].es in kept && base[0].es < mark && Above(u, base, kept, mark, r)
    ensures if |t.frames| > |base|
            then Above(t, base, kept, mark, if |u.frames| == |base| + 1 && f.op == TAILCALL then -1 else r)
            else HandedOver(u, t, base, kept, mark, r)
  {
    assert FrameOk(u.frames[0], u.stacks);
    assert Away(u.frames[0], mark);
    if IsJump(f.op) {
      JumpAbove(u, f.op, f.param, t, base, kept, mark, r);
    } else if f.op == CALL || f.op == APPCALL {
      PushesAbove(scripts, u, f, t, base, kept, mark, r);
    } else if f.op == TAILCALL {
      TailCallAbove(scripts, u, f.param, t, base, kept, mark, r);
    } else if f.op == RET {
      if |u.frames| > |base| + 1 {
        ReturnWithin(u, t, base, kept, mark, r);
      } else {
        ReturnToBase(u, t, base, kept, mark, r);
      }
    } else if IsIsolated(f.op) {
      IsolatedAbove(scripts, u, f.op, f.param, t, base, kept, mark, r);
    } else {
      DataAbove(u, f, t, base, kept, mark, r);
    }
  }

  /**
    One step inside: either the base is still out of reach, or the lowest frame has returned to it, with
    exactly the results that it owes from the top of its stack on the caller's stack and nothing else changed.
   */
  lemma StepAbove(scripts: Scripts, s: Vm, t: Vm, base: seq<Frame>, kept: map<nat, seq<StackItem>>, mark: nat, r: int)
    requires WellFormed(s) && !s.halted && StepTo(scripts, s, t)
    requires base != [] && base[0].es in kept && base[0].es < mark && Above(s, base, kept, mark, r)
    ensures if |t.frames| > |base| then Above(t, base, kept, mark, Owed(s, base, r))
            else HandedOver(s, t, base, kept, mark, r)
  {
    assert FrameOk(s.frames[0], s.stacks);
    var f := NextInstr(s).value;
    AdvancedOk(s);
    AdvancedAbove(s, base, kept, mark, r);
    DecodedLength(Top(s).prog, Top(s).nextip);
    ExecutesAbove(scripts, Advanced(s, f), f, t, base, kept, mark, r);
  }

  // ----- whole runs

  /** s enters a frame with stacks of its own. */
  ghost predicate Enters(s: Vm) {
    && WellFormed(s) && !s.halted
    && (assert FrameOk(s.frames[0], s.stacks); NextInstr(s) != None)
    && IsIsolated(NextInstr(s).value.op) && !IsTail(NextInstr(s).value.op)
  }

  /**
    run starts by entering a frame with stacks of its own and ends when that frame, or what replaced it, has
    returned.
   */
  ghost predicate IsolatedRun(scripts: Scripts, run: seq<Vm>) {
    && IsRun(scripts, run) && |run| >= 3 && Enters(run[0])
    && |run[|run| - 1].frames| <= |run[0].frames|
    && (forall i {:trigger run[i]} :: 0 < i < |run| - 1 ==> |run[i].frames| > |run[0].frames|)
  }

  /** In step i the lowest frame of the callee is replaced by a TAILCALL. */
  ghost predicate Replaces(run: seq<Vm>, i: nat)
    requires i < |run| && WellFormed(run[i])
  {
    |run[i].frames| == |run[0].frames| + 1 && TailCalls(run[i])
  }

  lemma StepInOrder(scripts: Scripts, run: seq<Vm>, i: nat)
    requires IsRun(scripts, run) && i < |run| - 1
    ensures WellFormed(run[i]) && !run[i].halted && StepTo(scripts, run[i], run[i + 1])
  {
    assert StepAt(scripts, run, i);
  }

  ghost predicate ReplacedBefore(run: seq<Vm>, i: nat)
    requires i <= |run|
  {
    exists j {:trigger run[j]} :: 1 <= j < i && WellFormed(run[j]) && Replaces(run, j)
  }

  /** What the lowest frame owes in state i: what it was called for, or all it has if a TAILCALL has replaced it. */
  ghost function OwedAt(run: seq<Vm>, r: nat, i: nat): int
    requires i <= |run|
  {
    if ReplacedBefore(run, i) then -1 else r
  }

  lemma OwedNext(run: seq<Vm>, r: nat, i: nat)
    requires 1 <= i < |run| && WellFormed(run[i])
    ensures OwedAt(run, r, i + 1) == if Replaces(run, i) then -1 else OwedAt(run, r, i)
  {
    if ReplacedBefore(run, i) {
      var j :| 1 <= j < i && WellFormed(run[j]) && Replaces(run, j);
      assert ReplacedBefore(run, i + 1) by { assert run[j] == run[j]; }
    }
  }

  lemma EntryFrames(scripts: Scripts, s: Vm, t: Vm)
    requires Enters(s) && StepTo(scripts, s, t)
    ensures var f := NextInstr(s).value;
            |f.param| >= 2 && Above(t, Advanced(s, f).frames, t.stacks, s.unused, f.param[0])
  {
    var f := NextInstr(s).value;
    var u := Advanced(s, f);
    AdvancedOk(s);
    DecodedLength(Top(s).prog, Top(s).nextip);
    assert FrameOk(u.frames[0], u.stacks) && FrameOk(s.frames[0], s.stacks);
    IsolatedShape(scripts, u, f.op, f.param, t);
    assert t.frames == [t.frames[0]] + u.frames;
    assert t.frames[1..] == u.frames;
  }

  /** The step that enters the frame: p arguments move, and the hash goes if it was on the stack. */
  lemma EntryStep(scripts: Scripts, s: Vm, t: Vm)
    requires Enters(s) && StepTo(scripts, s, t)
    ensures var f := NextInstr(s).value; var h: nat := if HashOnStack(f.op) then 1 else 0;
            && |f.param| >= 2 && s.estack in s.stacks && |Current(s)| >= f.param[1] + h
            && Above(t, Advanced(s, f).frames, t.stacks, s.unused, f.param[0])
            && t.estack in t.stacks && Current(t) == Current(s)[h..h + f.param[1]]
            && s.estack in t.stacks && t.stacks[s.estack] == Current(s)[h + f.param[1]..]
            && KeptBut(t.stacks, s.stacks, s.unused, s.estack)
  {
    var f := NextInstr(s).value;
    var u := Advanced(s, f);
    AdvancedOk(s);
    DecodedLength(Top(s).prog, Top(s).nextip);
    assert FrameOk(u.frames[0], u.stacks) && FrameOk(s.frames[0], s.stacks);
    EntryFrames(scripts, s, t);
  }

  /** State i of the run is above the caller. */
  ghost predicate AboveAt(run: seq<Vm>, i: nat)
    requires 1 <= i < |run| && Enters(run[0])
  {
    var f := NextInstr(run[0]).value;
    && |f.param| >= 2
    && Above(run[i], Advanced(run[0], f).frames, run[1].stacks, run[0].unused, OwedAt(run, f.param[0], i))
  }

  lemma NextAbove(scripts: Scripts, run: seq<Vm>, i: nat)
    requires IsRun(scripts, run) && Enters(run[0]) && 1 <= i < |run| - 1 && AboveAt(run, i)
    requires run[0].estack in run[1].stacks
    ensures var s, f := run[0], NextInstr(run[0]).value;
            var base := Advanced(s, f).frames;
            && base != [] && |base| == |s.frames| && base[0].es in run[1].stacks
            && if |run[i + 1].frames| > |s.frames| then AboveAt(run, i + 1)
               else HandedOver(run[i], run[i + 1], base, run[1].stacks, s.unused, OwedAt(run, f.param[0], i))
  {
    var s, f := run[0], NextInstr(run[0]).value;
    StepInOrder(scripts, run, i);
    BaseBelow(s, f, run[1].stacks);
    OwedNext(run, f.param[0], i);
    StepAbove(scripts, run[i], run[i + 1], Advanced(s, f).frames, run[1].stacks, s.unused, OwedAt(run, f.param[0], i));
  }

  lemma FirstAbove(scripts: Scripts, run: seq<Vm>)
    requires IsRun(scripts, run) && |run| >= 2 && Enters(run[0])
    ensures AboveAt(run, 1) && run[0].estack in run[1].stacks
  {
    StepInOrder(scripts, run, 0);
    EntryStep(scripts, run[0], run[1]);
    assert !ReplacedBefore(run, 1);
  }

  lemma {:induction false} StaysAbove(scripts: Scripts, run: seq<Vm>, i: nat)
    requires IsolatedRun(scripts, run) && 1 <= i < |run| - 1
    ensures AboveAt(run, i) && run[0].estack in run[1].stacks
    decreases i
  {
    FirstAbove(scripts, run);
    if i > 1 {
      StaysAbove(scripts, run, i - 1);
      NextAbove(scripts, run, i - 1);
      assert |run[i].frames| > |run[0].frames|;
    }
  }

  lemma BaseBelow(s: Vm, f: Fetched, kept: map<nat, seq<StackItem>>)
    requires WellFormed(s) && s.estack in kept
    ensures var base := Advanced(s, f).frames;
            base != [] && base[0].es in kept && base[0].es < s.unused && |base| == |s.frames|
    ensures Advanced(s, f).frames[0].alt == s.astack && Advanced(s, f).frames[0].es == s.estack
  {
    assert FrameOk(s.frames[0], s.stacks);
  }

  /**
    From entering, in s, to returning, from prev to last; first is the state right after entering, n the
    number of results.
   */
  ghost predicate CallerKept(s: Vm, first: Vm, prev: Vm, last: Vm, r: int)
    requires Enters(s)
  {
    var f := NextInstr(s).value;
    var h: nat := if HashOnStack(f.op) then 1 else 0;
    && |f.param| >= 2 && s.estack in s.stacks && |Current(s)| >= f.param[1] + h
    && first.estack in first.stacks && Current(first) == Current(s)[h..h + f.param[1]]
    && last.frames == Advanced(s, f).frames && last.estack == s.estack && last.astack == s.astack
    && prev.estack in prev.stacks && 0 <= ReturnCount(r, |Current(prev)|) <= |Current(prev)|
    && s.estack in last.stacks
    && Current(last) == Current(prev)[..ReturnCount(r, |Current(prev)|)] + Current(s)[h + f.param[1]..]
    && KeptBut(last.stacks, s.stacks, s.unused, s.estack)
  }

  lemma KeptTwice(a: map<nat, seq<StackItem>>, b: map<nat, seq<StackItem>>, c: map<nat, seq<StackItem>>, mark: nat,
                  to: nat)
    requires KeptBut(b, a, mark, to) && KeptBut(c, b, mark, to)
    ensures KeptBut(c, a, mark, to)
  {
    forall id | id in a && id < mark && id != to ensures id in c && c[id] == a[id] { assert id in b && b[id] == a[id]; }
  }

  lemma EntryAndReturn(scripts: Scripts, s: Vm, first: Vm, prev: Vm, last: Vm, r: int)
    requires Enters(s) && StepTo(scripts, s, first) && s.estack in first.stacks
    requires var base := Advanced(s, NextInstr(s).value).frames;
             base[0].es in first.stacks && HandedOver(prev, last, base, first.stacks, s.unused, r)
    ensures CallerKept(s, first, prev, last, r)
  {
    EntryStep(scripts, s, first);
    BaseBelow(s, NextInstr(s).value, first.stacks);
    KeptTwice(s.stacks, first.stacks, last.stacks, s.unused, s.estack);
  }

  lemma LastHandsOver(scripts: Scripts, run: seq<Vm>, k: nat)
    requires IsRun(scripts, run) && Enters(run[0]) && 1 <= k == |run| - 2 && AboveAt(run, k)
    requires run[0].estack in run[1].stacks && |run[k + 1].frames| <= |run[0].frames|
    ensures var s, f := run[0], NextInstr(run[0]).value;
            var base := Advanced(s, f).frames;
            && base != [] && base[0].es in run[1].stacks
            && HandedOver(run[k], run[k + 1], base, run[1].stacks, s.unused, OwedAt(run, f.param[0], k))
  {
    NextAbove(scripts, run, k);
  }

  /** The last step of the run returns to the caller. */
  lemma RunHandsOver(scripts: Scripts, run: seq<Vm>)
    requires IsolatedRun(scripts, run)
    ensures var s, k, f := run[0], |run| - 2, NextInstr(run[0]).value;
            var base := Advanced(s, f).frames;
            && |f.param| >= 2 && s.estack in run[1].stacks && base != [] && base[0].es in run[1].stacks
            && HandedOver(run[k], run[k + 1], base, run[1].stacks, s.unused, OwedAt(run, f.param[0], k))
  {
    StaysAbove(scripts, run, |run| - 2);
    LastHandsOver(scripts, run, |run| - 2);
  }

  /**
    The isolation of a frame over its whole life: the caller finds its stack as it was, less the arguments
    and the hash, plus exactly as many results as it asked for, in order; its frame and all stacks below are
    as they were. Only if a TAILCALL has replaced the frame on the way, the caller gets the whole stack of
    the replacement.
   */
  lemma IsolatedRunKeepsCaller(scripts: Scripts, run: seq<Vm>)
    requires IsolatedRun(scripts, run)
    ensures var k, f := |run| - 2, NextInstr(run[0]).value;
            |f.param| >= 2 && CallerKept(run[0], run[1], run[k], run[k + 1], OwedAt(run, f.param[0], k))
  {
    var k, f := |run| - 2, NextInstr(run[0]).value;
    RunHandsOver(scripts, run);
    StepInOrder(scripts, run, 0);
    EntryAndReturn(scripts, run[0], run[1], run[k], run[k + 1], OwedAt(run, f.param[0], k));
  }
}
