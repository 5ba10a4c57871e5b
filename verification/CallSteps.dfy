/**
  What a step from a call or a return does to the whole state, said without the functions that compute it, and
  when there is no such step.
 */
module CallSteps {
  import opened Options
  import opened Bytes
  import opened TwosComplement
  import opened Items
  import opened Equality
  import opened Opcodes
  import opened Contexts
  import Emit
  import opened Frames
  import opened Jumps

  ghost predicate NextOp(s: Vm, op: byte)
    requires WellFormed(s)
  {
    assert FrameOk(s.frames[0], s.stacks);
    NextInstr(s) != None && NextInstr(s).value.op == op
  }

  ghost predicate NextFetched(s: Vm, f: Fetched)
    requires WellFormed(s)
  {
    assert FrameOk(s.frames[0], s.stacks);
    NextInstr(s) == Some(f)
  }

  /** The parameters as they are fetched: two bytes for a jump, a hash of 20, two counts before either. */
  lemma ParameterLengths(s: Vm, f: Fetched)
    requires WellFormed(s) && NextFetched(s, f)
    ensures IsJump(f.op) || f.op == CALL || f.op == CALLED || f.op == CALLEDT ==> |f.param| == 2
    ensures f.op == CALLI ==> |f.param| == 4
    ensures f.op == APPCALL || f.op == TAILCALL ==> |f.param| == 20
    ensures f.op == CALLE || f.op == CALLET ==> |f.param| == 22
    ensures IsIsolated(f.op) ==> |f.param| == FixedLength(f.op)
  {
    assert FrameOk(s.frames[0], s.stacks);
  }

  // ----- CALL

  /** t is s behind CALL: the same script goes on at the target, with an alternative stack of its own. */
  ghost predicate CallsTo(s: Vm, d: Emit.uint16, t: Vm)
    requires WellFormed(s)
  {
    var f := s.frames[0];
    && |s.frames| < MAX_INVOCATION_STACK_SIZE && 0 <= Target(f.nextip, d) <= |f.prog|
    && t == s.(frames := [At(f, Target(f.nextip, d)).(rvcount := -1, alt := s.unused)]
                         + ([At(f, f.nextip + 3)] + s.frames[1..]),
               stacks := s.stacks[s.unused := []], astack := s.unused, unused := s.unused + 1)
  }

  lemma CallStep(scripts: Scripts, s: Vm, d: Emit.uint16, t: Vm)
    requires WellFormed(s) && NextIs(s, CALL, d)
    ensures StepTo(scripts, s, t) <==> CallsTo(s, d, t)
  {
    var f, param := s.frames[0], TwoBytesOf(d);
    assert FrameOk(f, s.stacks);
    JumpDecoded(f.prog, f.nextip, CALL, d);
    var u := Advanced(s, Fetched(CALL, param, f.nextip + 3));
    OffsetIsTarget(Top(u).(rvcount := -1, alt := s.unused), d, 0);
    OffsetIsTarget(Top(u), d, 0);
  }

  // ----- APPCALL and TAILCALL

  /** The hash that is called; from the stack if the script has zeros for it, and the script may call so. */
  ghost predicate Hashed(s: Vm, written: bytes, hash: bytes, below: seq<StackItem>)
    requires WellFormed(s)
  {
    assert FrameOk(s.frames[0], s.stacks);
    var e := s.stacks[s.estack];
    if exists i :: 0 <= i < |written| && written[i] != 0 then hash == written && below == e
    else s.frames[0].dyn && e != [] && TryBytes(e[0]) == Some(hash) && below == e[1..]
  }

  /**
    t is s with the script of the hash started on the same evaluation stack, with an empty alternative stack,
    above the caller or in its place.
   */
  ghost predicate Loads(scripts: Scripts, s: Vm, f: Fetched, hash: bytes, below: seq<StackItem>, t: Vm)
    requires WellFormed(s)
  {
    && |hash| == 20 && scripts(hash) != None && (f.op == APPCALL ==> |s.frames| < MAX_INVOCATION_STACK_SIZE)
    && var (prog, dyn) := scripts(hash).value;
       var lower := if f.op == APPCALL then [At(s.frames[0], f.next)] + s.frames[1..] else s.frames[1..];
       t == s.(frames := [Frame(0, 0, prog, -1, s.estack, s.unused, dyn)] + lower,
               stacks := s.stacks[s.estack := below][s.unused := []], astack := s.unused, unused := s.unused + 1)
  }

  lemma AppCallStep(scripts: Scripts, s: Vm, f: Fetched, t: Vm)
    requires WellFormed(s) && NextFetched(s, f) && (f.op == APPCALL || f.op == TAILCALL)
    ensures StepTo(scripts, s, t) <==>
              exists hash: bytes, below :: Hashed(s, f.param, hash, below) && Loads(scripts, s, f, hash, below, t)
  {
    assert FrameOk(s.frames[0], s.stacks);
    var u, e := Advanced(s, f), s.stacks[s.estack];
    assert u.frames[1..] == s.frames[1..];
    assert s.stacks[s.estack := e] == s.stacks;
    if !IsZero(f.param) {
      assert Hashed(s, f.param, f.param, e);
    } else if e != [] && TryBytes(e[0]) != None && s.frames[0].dyn {
      assert Hashed(s, f.param, TryBytes(e[0]).value, e[1..]);
    }
  }

  // ----- calls with stacks of their own

  /** The displacement that two bytes stand for. */
  function Displacement(b: bytes): Emit.uint16
    requires |b| == 2
  {
    var low: int, high: int := b[0], b[1];
    low + 256 * high
  }

  lemma DisplacedSo(b: bytes)
    requires |b| == 2
    ensures TwoBytesOf(Displacement(b)) == b
  {
  }

  /** Where the callee starts: CALLI goes on in the same script, the others at the start of the script of a hash. */
  ghost predicate StartsAt(scripts: Scripts, s: Vm, f: Fetched, hash: bytes, g: Frame)
    requires WellFormed(s) && IsIsolated(f.op) && |f.param| == FixedLength(f.op)
  {
    var top := s.frames[0];
    if f.op == CALLI then
      var target := Target(top.nextip + 2, Displacement(f.param[2..]));
      && 0 <= target <= |top.prog|
      && (g.prog, g.ip, g.nextip, g.dyn) == (top.prog, top.nextip, target, top.dyn)
    else
      && |hash| == 20 && scripts(hash) != None
      && (g.prog, g.ip, g.nextip, g.dyn) == (scripts(hash).value.0, 0, 0, scripts(hash).value.1)
  }

  /** The hash is in the script, or on the stack if the script may call so; h is how many items it takes. */
  ghost predicate HashAt(s: Vm, f: Fetched, hash: bytes, h: nat)
    requires WellFormed(s) && IsIsolated(f.op) && |f.param| == FixedLength(f.op)
  {
    assert FrameOk(s.frames[0], s.stacks);
    var e := s.stacks[s.estack];
    if f.op == CALLED || f.op == CALLEDT then
      h == 1 && s.frames[0].dyn && e != [] && TryBytes(e[0]) == Some(hash)
    else h == 0 && hash == f.param[2..]
  }

  /** The state with a new frame g on two new stacks. */
  function WithCallee(s: Vm, f: Fetched, h: nat, p: nat, g: Frame): Vm
    requires s.frames != [] && s.estack in s.stacks && h + p <= |s.stacks[s.estack]|
  {
    var e := s.stacks[s.estack];
    var lower := if f.op == CALLET || f.op == CALLEDT then s.frames[1..] else [At(s.frames[0], f.next)] + s.frames[1..];
    s.(frames := [g.(es := s.unused, alt := s.unused + 1)] + lower,
       stacks := s.stacks[s.estack := e[h + p..]][s.unused := e[h..h + p]][s.unused + 1 := []],
       estack := s.unused, astack := s.unused + 1, unused := s.unused + 2)
  }

  /**
    t is s with a frame more, which has two new stacks, the first of which has the topmost items as arguments, in order.
    The frame stands above the caller, or in its place if that owes as many results.
   */
  ghost predicate Isolates(s: Vm, f: Fetched, h: nat, t: Vm)
    requires t.frames != [] && WellFormed(s) && IsIsolated(f.op) && |f.param| == FixedLength(f.op)
  {
    assert FrameOk(s.frames[0], s.stacks);
    var r, p: nat, g := f.param[0], f.param[1], t.frames[0];
    && h + p <= |s.stacks[s.estack]| && g.rvcount == r
    && (if f.op == CALLET || f.op == CALLEDT then s.frames[0].rvcount == r
        else |s.frames| < MAX_INVOCATION_STACK_SIZE)
    && t == WithCallee(s, f, h, p, g)
  }

  lemma Arguments(e: seq<StackItem>, h: nat, p: nat)
    requires h + p <= |e|
    ensures e[h..][p..] == e[h + p..] && e[h..][..p] == e[h..h + p] && e[0..] == e
  {
  }

  lemma StackTwice(stacks: map<nat, seq<StackItem>>, id: nat, a: seq<StackItem>, b: seq<StackItem>)
    ensures stacks[id := a][id := b] == stacks[id := b]
  {
  }

  lemma CalleeFound(scripts: Scripts, s: Vm, f: Fetched, hash: bytes, h: nat)
    requires WellFormed(s) && NextFetched(s, f) && IsIsolated(f.op) && f.op != CALLI && |f.param| == FixedLength(f.op)
    requires HashAt(s, f, hash, h)
    ensures s.estack in s.stacks
    ensures var u := Advanced(s, f);
            Callee(scripts, u, f.op, f.param) ==
            if |hash| != 20 || scripts(hash) == None then None
            else Some((Frame(0, 0, scripts(hash).value.0, 0, 0, 0, scripts(hash).value.1),
                       u.(stacks := s.stacks[s.estack := s.stacks[s.estack][h..]])))
  {
    assert FrameOk(s.frames[0], s.stacks);
    var e := s.stacks[s.estack];
    assert h == 0 ==> s.stacks[s.estack := e[0..]] == s.stacks;
  }

  lemma CalleeEntered(s: Vm, f: Fetched, h: nat, p: nat, g: Frame)
    requires s.frames != [] && s.estack in s.stacks && h + p <= |s.stacks[s.estack]|
    ensures var e := s.stacks[s.estack];
            Entered(Advanced(s, f).(stacks := s.stacks[s.estack := e[h..]]), g, g.rvcount, p, IsTail(f.op)) ==
            WithCallee(s, f, h, p, g)
  {
    var e := s.stacks[s.estack];
    Arguments(e, h, p);
    StackTwice(s.stacks, s.estack, e[h..], e[h + p..]);
    assert Advanced(s, f).frames[1..] == s.frames[1..];
  }

  lemma InnerEntered(s: Vm, f: Fetched)
    requires s.frames != [] && s.estack in s.stacks && f.op == CALLI && |f.param| == FixedLength(f.op)
    requires f.param[1] <= |s.stacks[s.estack]|
    ensures var u, to := Advanced(s, f), Target(s.frames[0].nextip + 2, Displacement(f.param[2..]));
            AtCallee(u, Top(u), f.op, f.param) ==
            if 0 <= to <= |s.frames[0].prog| then
              Some(WithCallee(s, f, 0, f.param[1], At(s.frames[0], to).(rvcount := f.param[0])))
            else None
  {
    var u, e := Advanced(s, f), s.stacks[s.estack];
    var g := Top(u).(rvcount := f.param[0]);
    DisplacedSo(f.param[2..]);
    CalleeEntered(s, f, 0, f.param[1], g);
    assert e[0..] == e && s.stacks[s.estack := e] == s.stacks;
    OffsetIsTarget(g.(es := s.unused, alt := s.unused + 1), Displacement(f.param[2..]), 2);
  }

  /** CALLI: the callee goes on in the script of the caller. */
  lemma InnerStep(scripts: Scripts, s: Vm, f: Fetched, t: Vm)
    requires WellFormed(s) && NextFetched(s, f) && f.op == CALLI && |f.param| == FixedLength(f.op)
    ensures StepTo(scripts, s, t) <==>
              t.frames != [] && StartsAt(scripts, s, f, f.param[2..], t.frames[0]) && Isolates(s, f, 0, t)
  {
    assert FrameOk(s.frames[0], s.stacks);
    if f.param[1] <= |s.stacks[s.estack]| { InnerEntered(s, f); }
  }

  /** The others, if there is a hash: the callee is its script. */
  lemma OuterStep(scripts: Scripts, s: Vm, f: Fetched, hash: bytes, h: nat, t: Vm)
    requires WellFormed(s) && NextFetched(s, f) && IsIsolated(f.op) && f.op != CALLI && |f.param| == FixedLength(f.op)
    requires HashAt(s, f, hash, h)
    ensures StepTo(scripts, s, t) <==>
              t.frames != [] && StartsAt(scripts, s, f, hash, t.frames[0]) && Isolates(s, f, h, t)
  {
    assert FrameOk(s.frames[0], s.stacks);
    var p: nat := f.param[1];
    CalleeFound(scripts, s, f, hash, h);
    if h + p <= |s.stacks[s.estack]| && |hash| == 20 && scripts(hash) != None {
      var (prog, dyn) := scripts(hash).value;
      CalleeEntered(s, f, h, p, Frame(0, 0, prog, f.param[0], 0, 0, dyn));
    }
  }

  /** Without a hash there is no step. */
  lemma NoHash(scripts: Scripts, s: Vm, f: Fetched, t: Vm)
    requires WellFormed(s) && NextFetched(s, f) && IsIsolated(f.op) && f.op != CALLI && |f.param| == FixedLength(f.op)
    requires StepTo(scripts, s, t)
    ensures exists hash: bytes, h: nat :: HashAt(s, f, hash, h)
  {
    assert FrameOk(s.frames[0], s.stacks);
    var u, e := Advanced(s, f), s.stacks[s.estack];
    assert Callee(scripts, u, f.op, f.param) != None;
    if HashOnStack(f.op) {
      assert HashAt(s, f, TryBytes(e[0]).value, 1);
    } else {
      assert HashAt(s, f, f.param[2..], 0);
    }
  }
}
