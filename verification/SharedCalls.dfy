/**
  Calls that share the evaluation stack, CALL and APPCALL, over their whole life: what the callee leaves on its
  alternative stack lies on the caller's when it has returned, and no other stack of the caller has changed.
 */
module SharedCalls {
  import opened Options
  import opened Bytes
  import opened Items
  import opened Opcodes
  import opened Contexts
  import opened Frames
  import opened StackSlots
  import opened Isolation
  import opened CallSteps

  // ----- returning

  /** A frame on the evaluation stack of the one below, as a CALL or an APPCALL makes it. */
  predicate Shares(f: Frame, g: Frame) { f.rvcount == -1 && f.es == g.es && f.alt != g.alt }

  lemma TwoRewritten(stacks: map<nat, seq<StackItem>>, from: nat, to: nat)
    requires from in stacks && to in stacks && from != to
    ensures AllSlots(stacks[from := []][to := stacks[from] + stacks[to]]) == AllSlots(stacks)
  {
    var less := stacks[from := []];
    Rewritten(stacks, from, []);
    Rewritten(less, to, stacks[from] + stacks[to]);
    var rest := AllSlots(less - {to});
    assert AllSlots(stacks - {from}) == multiset(stacks[to]) + rest;
    assert multiset(stacks[from] + stacks[to]) + rest == multiset(stacks[from]) + (multiset(stacks[to]) + rest);
  }

  /** The alternative stack goes on top of that of the frame below, in order, and is left empty; all else stays. */
  ghost predicate HandsBack(s: Vm, t: Vm)
    requires WellFormed(s) && |s.frames| > 1
  {
    assert FrameOk(s.frames[0], s.stacks) && FrameOk(s.frames[1], s.stacks);
    var alt := s.frames[1].alt;
    t == s.(frames := s.frames[1..], astack := alt,
            stacks := s.stacks[s.astack := []][alt := s.stacks[s.astack] + s.stacks[alt]])
  }

  /** RET from a frame that shares the evaluation stack always hands the alternative stack back; no item is lost. */
  lemma SharedReturn(scripts: Scripts, s: Vm, t: Vm)
    requires WellFormed(s) && NextOp(s, RET) && |s.frames| > 1 && Shares(s.frames[0], s.frames[1])
    ensures StepTo(scripts, s, t) <==> HandsBack(s, t)
    ensures HandsBack(s, t) ==> AllSlots(t.stacks) == AllSlots(s.stacks)
  {
    assert FrameOk(s.frames[0], s.stacks) && FrameOk(s.frames[1], s.stacks);
    var f := NextInstr(s).value;
    AdvancedOk(s);
    TwoRewritten(s.stacks, s.astack, s.frames[1].alt);
    assert Advanced(s, f).frames[1..] == s.frames[1..];
  }

  // ----- being beside

  /** A frame whose stacks are new, but for the evaluation stack es that it may share. */
  ghost predicate Apart(f: Frame, es: nat, mark: nat) { f.alt >= mark && (f.es >= mark || f.es == es) }

  /**
    Above the frames of base there are others. The lowest of them shares the evaluation stack of the base; none
    knows another stack below mark, and those are as they were.
   */
  ghost predicate Beside(s: Vm, base: seq<Frame>, kept: map<nat, seq<StackItem>>, mark: nat)
    requires base != []
  {
    var n, es := |s.frames| - |base|, base[0].es;
    && n > 0 && s.frames[n..] == base && s.frames[n - 1].rvcount == -1 && s.frames[n - 1].es == es
    && (forall i {:trigger s.frames[i]} :: 0 <= i < n ==> Apart(s.frames[i], es, mark))
    && KeptBut(s.stacks, kept, mark, es)
    && s.unused >= mark
  }

  /** The return to the base: the alternative stack of the last frame lies on that of the base. */
  ghost predicate CameBack(s: Vm, t: Vm, base: seq<Frame>, kept: map<nat, seq<StackItem>>, mark: nat)
    requires base != [] && base[0].alt in kept
  {
    var es, alt := base[0].es, base[0].alt;
    && t.frames == base && t.estack == es && t.astack == alt
    && es in s.stacks && es in t.stacks && t.stacks[es] == s.stacks[es]
    && s.astack in s.stacks && alt in t.stacks && t.stacks[alt] == s.stacks[s.astack] + kept[alt]
    && forall id {:trigger kept[id]} {:trigger id in kept} ::
         id in kept && id < mark && id != es && id != alt ==> id in t.stacks && t.stacks[id] == kept[id]
  }

  /** Stacks that only these two writes touch stay as they are. */
  lemma WrittenBeside(stacks: map<nat, seq<StackItem>>, after: map<nat, seq<StackItem>>, a: nat, b: nat,
                      kept: map<nat, seq<StackItem>>, mark: nat, es: nat)
    requires KeptBut(stacks, kept, mark, es) && (a >= mark || a == es) && (b >= mark || b == es)
    requires forall id {:trigger stacks[id]} ::
               id in stacks && id != a && id != b ==> id in after && after[id] == stacks[id]
    ensures KeptBut(after, kept, mark, es)
  {
    forall id | id in kept && id < mark && id != es ensures id in after && after[id] == kept[id] {
      assert id in stacks && stacks[id] == kept[id];
    }
  }

  lemma AdvancedBeside(s: Vm, base: seq<Frame>, kept: map<nat, seq<StackItem>>, mark: nat)
    requires WellFormed(s) && NextInstr(s) != None && base != [] && Beside(s, base, kept, mark)
    ensures Beside(Advanced(s, NextInstr(s).value), base, kept, mark)
  {
    var t, n := Advanced(s, NextInstr(s).value), |s.frames| - |base|;
    assert t.frames[n..] == s.frames[n..];
    forall i | 0 <= i < n ensures Apart(t.frames[i], base[0].es, mark) { assert Apart(s.frames[i], base[0].es, mark); }
  }

  /** A frame more on top. */
  lemma PushedBeside(s: Vm, t: Vm, base: seq<Frame>, kept: map<nat, seq<StackItem>>, mark: nat)
    requires base != [] && Beside(s, base, kept, mark)
    requires |t.frames| == |s.frames| + 1 && t.frames[1..] == s.frames && Apart(t.frames[0], base[0].es, mark)
    requires t.unused >= mark && KeptBut(t.stacks, kept, mark, base[0].es)
    ensures Beside(t, base, kept, mark)
  {
    var n := |s.frames| - |base|;
    assert t.frames == [t.frames[0]] + s.frames;
    assert t.frames[n + 1..] == s.frames[n..];
    forall i | 0 <= i < n + 1 ensures Apart(t.frames[i], base[0].es, mark) {
      if i > 0 { assert t.frames[i] == s.frames[i - 1]; }
    }
    assert t.frames[n] == s.frames[n - 1];
  }

  /** A frame in the place of the top one; the lowest frame still shares. */
  lemma ReplacedBeside(s: Vm, t: Vm, base: seq<Frame>, kept: map<nat, seq<StackItem>>, mark: nat)
    requires base != [] && Beside(s, base, kept, mark)
    requires |t.frames| == |s.frames| && t.frames[1..] == s.frames[1..] && Apart(t.frames[0], base[0].es, mark)
    requires |s.frames| == |base| + 1 ==> t.frames[0].rvcount == -1 && t.frames[0].es == base[0].es
    requires t.unused >= mark && KeptBut(t.stacks, kept, mark, base[0].es)
    ensures Beside(t, base, kept, mark)
  {
    var n := |s.frames| - |base|;
    forall i | 1 <= i < |s.frames| ensures t.frames[i] == s.frames[i] {
      assert t.frames[1..][i - 1] == s.frames[1..][i - 1];
    }
    assert t.frames[n..] == s.frames[n..];
  }

  /** Returning to a frame that is still above the base. */
  lemma PoppedBeside(s: Vm, t: Vm, base: seq<Frame>, kept: map<nat, seq<StackItem>>, mark: nat)
    requires base != [] && Beside(s, base, kept, mark) && |s.frames| > |base| + 1
    requires t.frames == s.frames[1..] && t.unused >= mark && KeptBut(t.stacks, kept, mark, base[0].es)
    ensures Beside(t, base, kept, mark)
  {
    var n := |s.frames| - |base|;
    assert t.frames[n - 1..] == s.frames[n..];
    forall i | 0 <= i < n - 1 ensures Apart(t.frames[i], base[0].es, mark) { assert t.frames[i] == s.frames[i + 1]; }
    assert t.frames[n - 2] == s.frames[n - 1];
  }

  // ----- one step

  lemma IsolatedBeside(scripts: Scripts, u: Vm, op: byte, param: bytes, t: Vm, base: seq<Frame>,
                       kept: map<nat, seq<StackItem>>, mark: nat)
    requires WellFormed(u) && IsIsolated(op) && |param| == FixedLength(op) && u.estack in u.stacks
    requires CallIsolated(scripts, u, op, param) == Some(t) && base != [] && Beside(u, base, kept, mark)
    ensures Beside(t, base, kept, mark)
  {
    IsolatedShape(scripts, u, op, param, t);
    assert Apart(u.frames[0], base[0].es, mark);
    IsolatedKeeps(scripts, u, op, param, t, base[0].es, kept, mark);
    if IsTail(op) {
      ReplacedBeside(u, t, base, kept, mark);
    } else {
      PushedBeside(u, t, base, kept, mark);
    }
  }

  lemma IsolatedKeeps(scripts: Scripts, u: Vm, op: byte, param: bytes, t: Vm, es: nat,
                      kept: map<nat, seq<StackItem>>, mark: nat)
    requires WellFormed(u) && IsIsolated(op) && |param| == FixedLength(op) && u.estack in u.stacks
    requires CallIsolated(scripts, u, op, param) == Some(t)
    requires KeptBut(u.stacks, kept, mark, es) && (u.estack >= mark || u.estack == es) && u.unused >= mark
    ensures KeptBut(t.stacks, kept, mark, es)
  {
    IsolatedShape(scripts, u, op, param, t);
    forall id | id in kept && id < mark && id != es ensures id in t.stacks && t.stacks[id] == kept[id] {
      assert id in u.stacks && u.stacks[id] == kept[id];
    }
  }

  lemma TailCallBeside(scripts: Scripts, u: Vm, param: bytes, t: Vm, base: seq<Frame>,
                       kept: map<nat, seq<StackItem>>, mark: nat)
    requires WellFormed(u) && AppCall(scripts, u, true, param) == Some(t) && base != [] && Beside(u, base, kept, mark)
    ensures Beside(t, base, kept, mark)
  {
    assert FrameOk(u.frames[0], u.stacks);
    assert Apart(u.frames[0], base[0].es, mark);
    ReplacedBeside(u, t, base, kept, mark);
  }

  lemma PushesBeside(scripts: Scripts, u: Vm, f: Fetched, t: Vm, base: seq<Frame>, kept: map<nat, seq<StackItem>>,
                     mark: nat)
    requires WellFormed(u) && u.estack in u.stacks && |f.param| >= FixedLength(f.op)
    requires if f.op == CALL then |f.param| == 2 && Call(u, f.param) == Some(t)
             else AppCall(scripts, u, false, f.param) == Some(t)
    requires base != [] && Beside(u, base, kept, mark)
    ensures Beside(t, base, kept, mark)
  {
    assert Apart(u.frames[0], base[0].es, mark);
    PushedBeside(u, t, base, kept, mark);
  }

  lemma JumpShape(u: Vm, op: byte, param: bytes, t: Vm)
    requires u.frames != [] && u.estack in u.stacks && |param| == 2 && Jump(u, op, param) == Some(t)
    ensures |t.frames| == |u.frames| && t.frames[1..] == u.frames[1..] && t.unused == u.unused
    ensures t.frames[0] == u.frames[0].(nextip := t.frames[0].nextip)
    ensures t.stacks.Keys == u.stacks.Keys
    ensures forall id :: id in u.stacks && id != u.estack ==> t.stacks[id] == u.stacks[id]
  {
  }

  lemma JumpBeside(u: Vm, op: byte, param: bytes, t: Vm, base: seq<Frame>, kept: map<nat, seq<StackItem>>, mark: nat)
    requires WellFormed(u) && u.estack in u.stacks && |param| == 2 && Jump(u, op, param) == Some(t)
    requires base != [] && Beside(u, base, kept, mark)
    ensures Beside(t, base, kept, mark)
  {
    assert Apart(u.frames[0], base[0].es, mark);
    JumpShape(u, op, param, t);
    WrittenBeside(u.stacks, t.stacks, u.estack, u.estack, kept, mark, base[0].es);
    ReplacedBeside(u, t, base, kept, mark);
  }

  lemma DataBeside(u: Vm, t: Vm, base: seq<Frame>, kept: map<nat, seq<StackItem>>, mark: nat)
    requires WellFormed(u) && u.estack in u.stacks && u.astack in u.stacks && Worked(u, t)
    requires base != [] && Beside(u, base, kept, mark)
    ensures Beside(t, base, kept, mark)
  {
    assert Apart(u.frames[0], base[0].es, mark);
    WrittenBeside(u.stacks, t.stacks, u.estack, u.astack, kept, mark, base[0].es);
  }

  lemma ReturnBeside(u: Vm, t: Vm, base: seq<Frame>, kept: map<nat, seq<StackItem>>, mark: nat)
    requires WellFormed(u) && !u.halted && Returned(u) == Some(t)
    requires base != [] && Beside(u, base, kept, mark) && |u.frames| > |base| + 1
    ensures Beside(t, base, kept, mark)
  {
    ReturnedShape(u, t);
    var es, f, g := base[0].es, u.frames[0], u.frames[1];
    assert Apart(f, es, mark) && Apart(g, es, mark);
    forall id | id in kept && id < mark && id != es ensures id in t.stacks && t.stacks[id] == kept[id] {
      assert id in u.stacks && u.stacks[id] == kept[id];
      assert t.stacks[id] == t.stacks[id];
    }
    PoppedBeside(u, t, base, kept, mark);
  }

  lemma ReturnBack(u: Vm, t: Vm, base: seq<Frame>, kept: map<nat, seq<StackItem>>, mark: nat)
    requires WellFormed(u) && !u.halted && Returned(u) == Some(t)
    requires base != [] && base[0].alt in kept && base[0].alt < mark && base[0].es < mark && base[0].es != base[0].alt
    requires Beside(u, base, kept, mark) && |u.frames| == |base| + 1
    ensures CameBack(u, t, base, kept, mark)
  {
    assert FrameOk(u.frames[0], u.stacks) && FrameOk(u.frames[1], u.stacks);
    assert u.frames[1..] == base && Apart(u.frames[0], base[0].es, mark) && u.frames[1] == base[0];
    var from, to := u.astack, base[0].alt;
    assert u.stacks[to] == kept[to];
    assert t.stacks == u.stacks[from := []][to := u.stacks[from] + u.stacks[to]];
  }

  lemma ExecutesBeside(scripts: Scripts, u: Vm, f: Fetched, t: Vm, base: seq<Frame>, kept: map<nat, seq<StackItem>>,
                       mark: nat)
    requires WellFormed(u) && !u.halted && |f.param| >= FixedLength(f.op)
    requires LengthBytes(f.op) == 0 ==> |f.param| == FixedLength(f.op)
    requires Executes(scripts, u, f, t)
    requires base != [] && base[0].alt in kept && base[0].alt < mark && base[0].es < mark && base[0].es != base[0].alt
    requires Beside(u, base, kept, mark)
    ensures if |t.frames| > |base| then Beside(t, base, kept, mark) else CameBack(u, t, base, kept, mark)
  {
    assert FrameOk(u.frames[0], u.stacks);
    if IsJump(f.op) {
      JumpBeside(u, f.op, f.param, t, base, kept, mark);
    } else if f.op == CALL || f.op == APPCALL {
      PushesBeside(scripts, u, f, t, base, kept, mark);
    } else if f.op == TAILCALL {
      TailCallBeside(scripts, u, f.param, t, base, kept, mark);
    } else if f.op == RET {
      if |u.frames| > |base| + 1 {
        ReturnBeside(u, t, base, kept, mark);
      } else {
        ReturnBack(u, t, base, kept, mark);
      }
    } else if IsIsolated(f.op) {
      IsolatedBeside(scripts, u, f.op, f.param, t, base, kept, mark);
    } else {
      DataBeside(u, t, base, kept, mark);
    }
  }

  /** One step of the callee or of what it calls: it stays beside the caller, or comes back to it. */
  lemma StepBeside(scripts: Scripts, s: Vm, t: Vm, base: seq<Frame>, kept: map<nat, seq<StackItem>>, mark: nat)
    requires WellFormed(s) && !s.halted && StepTo(scripts, s, t)
    requires base != [] && base[0].alt in kept && base[0].alt < mark && base[0].es < mark && base[0].es != base[0].alt
    requires Beside(s, base, kept, mark)
    ensures if |t.frames| > |base| then Beside(t, base, kept, mark) else CameBack(s, t, base, kept, mark)
  {
    assert FrameOk(s.frames[0], s.stacks);
    AdvancedOk(s);
    AdvancedBeside(s, base, kept, mark);
    DecodedLength(Top(s).prog, Top(s).nextip);
    ExecutesBeside(scripts, Advanced(s, NextInstr(s).value), NextInstr(s).value, t, base, kept, mark);
  }

  // ----- whole runs

  /** No frame has the same stack for both. */
  predicate TwoStacks(s: Vm) {
    forall i {:trigger s.frames[i]} :: 0 <= i < |s.frames| ==> s.frames[i].es != s.frames[i].alt
  }

  lemma KeepsTwoStacks(scripts: Scripts, s: Vm, t: Vm)
    requires WellFormed(s) && !s.halted && StepTo(scripts, s, t) && TwoStacks(s)
    ensures TwoStacks(t)
  {
    var f := NextInstr(s).value;
    var u := Advanced(s, f);
    AdvancedOk(s);
    DecodedLength(Top(s).prog, Top(s).nextip);
    assert FrameOk(u.frames[0], u.stacks) && TwoStacks(u);
    if IsIsolated(f.op) { IsolatedShape(scripts, u, f.op, f.param, t); }
    forall i | 0 <= i < |t.frames| ensures t.frames[i].es != t.frames[i].alt {
      FrameComesFrom(scripts, u, f, t, i);
    }
  }

  /** Frames behind a step: as before or one further, or new on top. */
  lemma FrameComesFrom(scripts: Scripts, u: Vm, f: Fetched, t: Vm, i: nat)
    requires WellFormed(u) && TwoStacks(u) && |f.param| >= FixedLength(f.op) && Executes(scripts, u, f, t)
    requires i < |t.frames|
    ensures t.frames[i].es != t.frames[i].alt
  {
    assert FrameOk(u.frames[0], u.stacks);
    if IsIsolated(f.op) {
      IsolatedShape(scripts, u, f.op, f.param, t);
      if i > 0 { assert t.frames[i] == t.frames[1..][i - 1]; }
    } else if IsJump(f.op) {
      JumpShape(u, f.op, f.param, t);
      if i > 0 { assert t.frames[i] == t.frames[1..][i - 1] && u.frames[i] == u.frames[1..][i - 1]; }
    } else if f.op == RET {
      assert t.frames[i] == u.frames[i + 1];
    }
  }

  lemma {:induction false} RunKeepsTwoStacks(scripts: Scripts, run: seq<Vm>, i: nat)
    requires IsRun(scripts, run) && TwoStacks(run[0]) && i < |run|
    ensures TwoStacks(run[i])
    decreases i
  {
    if i > 0 {
      RunKeepsTwoStacks(scripts, run, i - 1);
      StepInOrder(scripts, run, i - 1);
      KeepsTwoStacks(scripts, run[i - 1], run[i]);
    }
  }

  /** s calls on its own evaluation stack. */
  ghost predicate CallsShared(s: Vm) {
    WellFormed(s) && !s.halted && TwoStacks(s) && (NextOp(s, CALL) || NextOp(s, APPCALL))
  }

  /** run starts with such a call and ends when the callee, or what replaced it, has returned. */
  ghost predicate SharedRun(scripts: Scripts, run: seq<Vm>) {
    && IsRun(scripts, run) && |run| >= 3 && CallsShared(run[0])
    && |run[|run| - 1].frames| <= |run[0].frames|
    && (forall i {:trigger run[i]} :: 0 < i < |run| - 1 ==> |run[i].frames| > |run[0].frames|)
  }

  /** The frames that the callee returns to. */
  ghost function Caller(s: Vm): seq<Frame>
    requires CallsShared(s)
  {
    Advanced(s, NextInstr(s).value).frames
  }

  /** The callee starts with an alternative stack of its own, which is empty; an APPCALL may have popped its hash. */
  lemma SharedEntry(scripts: Scripts, s: Vm, t: Vm)
    requires CallsShared(s) && StepTo(scripts, s, t)
    ensures Beside(t, Caller(s), t.stacks, s.unused) && |t.frames| == |s.frames| + 1
    ensures t.estack == s.estack && t.estack in t.stacks && t.astack in t.stacks && t.stacks[t.astack] == []
    ensures s.estack in s.stacks && s.astack in s.stacks && s.astack in t.stacks
    ensures t.stacks[t.estack] == s.stacks[s.estack]
            || (NextOp(s, APPCALL) && s.stacks[s.estack] != [] && t.stacks[t.estack] == s.stacks[s.estack][1..])
    ensures KeptBut(t.stacks, s.stacks, s.unused, s.estack)
  {
    var f := NextInstr(s).value;
    var u := Advanced(s, f);
    AdvancedOk(s);
    DecodedLength(Top(s).prog, Top(s).nextip);
    assert FrameOk(u.frames[0], u.stacks) && FrameOk(s.frames[0], s.stacks);
    assert t.frames == [t.frames[0]] + u.frames;
    assert t.frames[1..] == u.frames;
  }

  lemma CallerStacks(s: Vm)
    requires CallsShared(s)
    ensures var base := Caller(s);
            && |base| == |s.frames| && base[0].es == s.estack && base[0].alt == s.astack && s.estack != s.astack
            && s.estack < s.unused && s.astack < s.unused && s.astack in s.stacks
  {
    assert FrameOk(s.frames[0], s.stacks);
  }

  /** State i of the run is beside the caller. */
  ghost predicate BesideAt(run: seq<Vm>, i: nat)
    requires 1 <= i < |run| && CallsShared(run[0])
  {
    && Caller(run[0]) != [] && run[0].astack in run[1].stacks
    && Beside(run[i], Caller(run[0]), run[1].stacks, run[0].unused)
  }

  lemma FirstBeside(scripts: Scripts, run: seq<Vm>)
    requires IsRun(scripts, run) && |run| >= 2 && CallsShared(run[0])
    ensures BesideAt(run, 1)
  {
    StepInOrder(scripts, run, 0);
    CallerStacks(run[0]);
    SharedEntry(scripts, run[0], run[1]);
  }

  lemma NextBeside(scripts: Scripts, run: seq<Vm>, i: nat)
    requires IsRun(scripts, run) && CallsShared(run[0]) && 1 <= i < |run| - 1 && BesideAt(run, i)
    ensures if |run[i + 1].frames| > |run[0].frames| then BesideAt(run, i + 1)
            else CameBack(run[i], run[i + 1], Caller(run[0]), run[1].stacks, run[0].unused)
  {
    StepInOrder(scripts, run, i);
    CallerStacks(run[0]);
    StepBeside(scripts, run[i], run[i + 1], Caller(run[0]), run[1].stacks, run[0].unused);
  }

  lemma {:induction false} StaysBeside(scripts: Scripts, run: seq<Vm>, i: nat)
    requires SharedRun(scripts, run) && 1 <= i < |run| - 1
    ensures BesideAt(run, i)
    decreases i
  {
    if i == 1 {
      FirstBeside(scripts, run);
    } else {
      StaysBeside(scripts, run, i - 1);
      NextBeside(scripts, run, i - 1);
      assert |run[i].frames| > |run[0].frames|;
    }
  }

  /** What the caller finds: s is the state before the call, prev the one before the return, last the one behind it. */
  ghost predicate CallerFinds(s: Vm, prev: Vm, last: Vm)
    requires CallsShared(s)
  {
    && last.frames == Caller(s) && last.estack == s.estack && last.astack == s.astack
    && s.estack in prev.stacks && s.estack in last.stacks && last.stacks[s.estack] == prev.stacks[s.estack]
    && prev.astack in prev.stacks && s.astack in s.stacks && s.astack in last.stacks
    && last.stacks[s.astack] == prev.stacks[prev.astack] + s.stacks[s.astack]
    && KeptButTwo(last.stacks, s.stacks, s.unused, s.estack, s.astack)
  }

  ghost predicate KeptButTwo(stacks: map<nat, seq<StackItem>>, kept: map<nat, seq<StackItem>>, mark: nat, a: nat,
                             b: nat) {
    forall id {:trigger kept[id]} {:trigger id in kept} ::
      id in kept && id < mark && id != a && id != b ==> id in stacks && stacks[id] == kept[id]
  }

  lemma KeptThrough(a: map<nat, seq<StackItem>>, b: map<nat, seq<StackItem>>, c: map<nat, seq<StackItem>>, mark: nat,
                    es: nat, alt: nat)
    requires KeptBut(b, a, mark, es) && KeptButTwo(c, b, mark, es, alt)
    ensures KeptButTwo(c, a, mark, es, alt)
  {
    forall id | id in a && id < mark && id != es && id != alt ensures id in c && c[id] == a[id] {
      assert id in b && b[id] == a[id];
    }
  }

  lemma EntryAndBack(scripts: Scripts, s: Vm, first: Vm, prev: Vm, last: Vm)
    requires CallsShared(s) && StepTo(scripts, s, first) && Caller(s) != [] && s.astack in first.stacks
    requires Caller(s)[0].alt in first.stacks && CameBack(prev, last, Caller(s), first.stacks, s.unused)
    ensures CallerFinds(s, prev, last)
  {
    CallerStacks(s);
    SharedEntry(scripts, s, first);
    assert s.astack in s.stacks && first.stacks[s.astack] == s.stacks[s.astack];
    KeptThrough(s.stacks, first.stacks, last.stacks, s.unused, s.estack, s.astack);
  }

  /**
    CALL or APPCALL to the return, whatever happens in between: the caller finds the evaluation stack as the callee
    left it, and what the callee left on its alternative stack, in order, on top of its own. Its frame and all
    other stacks are as they were.
   */
  lemma SharedRunHandsBack(scripts: Scripts, run: seq<Vm>)
    requires SharedRun(scripts, run)
    ensures CallerFinds(run[0], run[|run| - 2], run[|run| - 1])
  {
    var k := |run| - 2;
    StaysBeside(scripts, run, k);
    NextBeside(scripts, run, k);
    StepInOrder(scripts, run, 0);
    CallerStacks(run[0]);
    EntryAndBack(scripts, run[0], run[1], run[k], run[k + 1]);
  }
}
