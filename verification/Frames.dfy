/**
  The control opcodes as functions on the state of a VM: what calls, jumps and returns do to the frames and
  the stacks. Stacks are named by numbers, because frames may share them; opcodes that only work on data are
  left open: they may put anything on the current stacks, and change the containers on the heap, which a
  caller may hold as well.
 */
module Frames {
  import opened Options
  import opened Bytes
  import opened TwosComplement
  import opened Items
  import opened RemovalWalk
  import opened Equality
  import opened Conversions
  import opened Opcodes
  import opened Contexts

  const MAX_INVOCATION_STACK_SIZE := 1024

  datatype Frame = Frame(ip: nat, nextip: nat, prog: bytes, rvcount: int, es: nat, alt: nat, dyn: bool)

  /** frames: top first. stacks: the contents of each stack, top first. heap: the slots of each container. */
  datatype Vm = Vm(frames: seq<Frame>, stacks: map<nat, seq<StackItem>>, estack: nat, astack: nat, unused: nat,
                   halted: bool, heap: Graph)

  /** The script that is stored under a hash, and whether it may make dynamic calls. */
  type Scripts = bytes -> Option<(bytes, bool)>

  function Truth(x: StackItem): bool {
    match x
    case BigInteger(n) => Int64(n) != 0
    case Boolean(b) => b
    case ByteArray(data) => exists i :: 0 <= i < |data| && data[i] != 0
    case _ => true
  }

  // ----- the invariant

  /** The frame's pointers and stacks exist. */
  predicate FrameOk(f: Frame, stacks: map<nat, seq<StackItem>>) {
    f.nextip <= |f.prog| && f.es in stacks && f.alt in stacks && f.rvcount >= -1
  }

  /** There is a frame, the VM's stacks are those of the top frame, and everything that is named exists. */
  ghost predicate WellFormed(s: Vm) {
    && 0 < |s.frames| <= MAX_INVOCATION_STACK_SIZE
    && s.estack == s.frames[0].es && s.astack == s.frames[0].alt
    && (forall i {:trigger s.frames[i]} :: 0 <= i < |s.frames| ==> FrameOk(s.frames[i], s.stacks))
    && (forall id {:trigger id in s.stacks} :: id in s.stacks ==> id < s.unused)
  }

  // ----- small changes

  function Top(s: Vm): Frame
    requires s.frames != []
  {
    s.frames[0]
  }

  function WithTop(s: Vm, f: Frame): Vm
    requires s.frames != []
  {
    s.(frames := [f] + s.frames[1..])
  }

  function Current(s: Vm): seq<StackItem>
    requires s.estack in s.stacks
  {
    s.stacks[s.estack]
  }

  function Popped(s: Vm): Vm
    requires s.estack in s.stacks && Current(s) != []
  {
    s.(stacks := s.stacks[s.estack := Current(s)[1..]])
  }

  function Jumped(f: Frame, offset: nat): Frame { f.(nextip := offset) }

  /** Where a jump with this parameter leads; nothing if that is outside the script. */
  function JumpOffset(f: Frame, param: bytes, mod: int): Option<nat>
    requires |param| >= 2
  {
    var n := Unsigned(param[..2]);
    var offset := f.ip + (if n < 0x8000 then n else n - 0x1_0000) + mod;
    if 0 <= offset <= |f.prog| then Some(offset) else None
  }

  // ----- jumps

  /** The state after JMP, JMPIF or JMPIFNOT; nothing if it faults. */
  function Jump(s: Vm, op: byte, param: bytes): Option<Vm>
    requires s.frames != [] && s.estack in s.stacks && |param| == 2
  {
    match JumpOffset(Top(s), param, 0)
    case None => None
    case Some(offset) =>
      if op == JMP then Some(WithTop(s, Jumped(Top(s), offset)))
      else if Current(s) == [] then None
      else if Truth(Current(s)[0]) == (op == JMPIF) then Some(WithTop(Popped(s), Jumped(Top(s), offset)))
      else Some(Popped(s))
  }

  // ----- calls that share the evaluation stack

  /** CALL: a copy of the frame with an alternative stack of its own. */
  function Call(s: Vm, param: bytes): Option<Vm>
    requires s.frames != [] && |param| == 2
  {
    if |s.frames| >= MAX_INVOCATION_STACK_SIZE then None
    else
      match JumpOffset(Top(s), param, 0)
      case None => None
      case Some(offset) =>
        var f := Jumped(Top(s).(rvcount := -1, alt := s.unused), offset);
        Some(s.(frames := [f] + s.frames, stacks := s.stacks[s.unused := []], astack := s.unused,
                unused := s.unused + 1))
  }

  /** Loads a script on the current evaluation stack. */
  function Loaded(s: Vm, prog: bytes, dyn: bool): Vm {
    var f := Frame(0, 0, prog, -1, s.estack, s.unused, dyn);
    s.(frames := [f] + s.frames, stacks := s.stacks[s.unused := []], astack := s.unused, unused := s.unused + 1)
  }

  function IsZero(b: bytes): bool { forall i :: 0 <= i < |b| ==> b[i] == 0 }

  /** The hash that an APPCALL or TAILCALL names, and the state it is executed in: zeros mean that it is popped. */
  function CallHash(s: Vm, param: bytes): Option<(bytes, Vm)>
    requires s.frames != [] && s.estack in s.stacks
  {
    if !IsZero(param) then Some((param, s))
    else if Current(s) == [] || TryBytes(Current(s)[0]) == None || !Top(s).dyn then None
    else Some((TryBytes(Current(s)[0]).value, Popped(s)))
  }

  function AppCall(scripts: Scripts, s: Vm, tail: bool, param: bytes): Option<Vm>
    requires s.frames != [] && s.estack in s.stacks
  {
    match CallHash(s, param)
    case None => None
    case Some((hash, t)) =>
      if (!tail && |s.frames| >= MAX_INVOCATION_STACK_SIZE) || |hash| != 20 then None
      else
        match scripts(hash)
        case None => None
        case Some((prog, dyn)) => Some(Loaded(if tail then t.(frames := t.frames[1..]) else t, prog, dyn))
  }

  // ----- calls with stacks of their own

  predicate IsTail(op: byte) { op == CALLET || op == CALLEDT }

  predicate HashOnStack(op: byte) { op == CALLED || op == CALLEDT }

  /** The frame that is entered, with the state after the hash was popped if there was one on the stack. */
  function Callee(scripts: Scripts, s: Vm, op: byte, param: bytes): Option<(Frame, Vm)>
    requires s.frames != [] && s.estack in s.stacks && |param| == FixedLength(op) >= 2
  {
    if op == CALLI then Some((Top(s), s))
    else if HashOnStack(op) && (Current(s) == [] || TryBytes(Current(s)[0]) == None) then None
    else
      var hash := if HashOnStack(op) then TryBytes(Current(s)[0]).value else param[2..];
      var t := if HashOnStack(op) then Popped(s) else s;
      if |hash| != 20 then None
      else
        match scripts(hash)
        case None => None
        case Some((prog, dyn)) => Some((Frame(0, 0, prog, 0, 0, 0, dyn), t))
  }

  /** Two new stacks: the first p items of the current one move to the first of them. */
  function Entered(s: Vm, f: Frame, r: int, p: nat, tail: bool): Vm
    requires s.frames != [] && s.estack in s.stacks && p <= |Current(s)|
  {
    var g := f.(rvcount := r, es := s.unused, alt := s.unused + 1);
    Vm([g] + (if tail then s.frames[1..] else s.frames),
       s.stacks[s.estack := Current(s)[p..]][s.unused := Current(s)[..p]][s.unused + 1 := []],
       s.unused, s.unused + 1, s.unused + 2, s.halted, s.heap)
  }

  /** CALLI, CALLE, CALLED, CALLET and CALLEDT. */
  function CallIsolated(scripts: Scripts, s: Vm, op: byte, param: bytes): Option<Vm>
    requires s.frames != [] && s.estack in s.stacks && |param| == FixedLength(op) >= 2 && (op == CALLI ==> |param| == 4)
  {
    var r, p: nat := param[0], param[1];
    if HashOnStack(op) && !Top(s).dyn then None
    else if |Current(s)| < p + (if HashOnStack(op) then 1 else 0) then None
    else if IsTail(op) && Top(s).rvcount != r then None
    else if !IsTail(op) && |s.frames| >= MAX_INVOCATION_STACK_SIZE then None
    else
      match Callee(scripts, s, op, param)
      case None => None
      case Some((f, t)) => AtCallee(t, f, op, param)
  }

  /** Behind the entry of the frame f; CALLI jumps on from there. */
  function AtCallee(s: Vm, f: Frame, op: byte, param: bytes): Option<Vm>
    requires s.frames != [] && s.estack in s.stacks && |param| == FixedLength(op) >= 2 && (op == CALLI ==> |param| == 4)
    requires param[1] <= |Current(s)|
  {
    var u := Entered(s, f, param[0], param[1], IsTail(op));
    if op != CALLI then Some(u)
    else
      match JumpOffset(Top(u), param[2..], 2)
      case None => None
      case Some(offset) => Some(WithTop(u, Jumped(Top(u), offset)))
  }

  // ----- returning

  /** How many items a frame hands back to a caller with another stack: all of them if it did not say. */
  function ReturnCount(rvcount: int, n: nat): int { if rvcount < 0 then n else rvcount }

  /** RET: halts behind the last frame. Otherwise results, and for unisolated calls the alternative stack, go back. */
  function Returned(s: Vm): Option<Vm>
    requires s.frames != []
    requires (forall i {:trigger s.frames[i]} :: 0 <= i < |s.frames| ==> FrameOk(s.frames[i], s.stacks))
    requires s.estack in s.stacks
  {
    var f, lower := Top(s), s.frames[1..];
    if f.rvcount > 0 && |Current(s)| < f.rvcount then None
    else if lower == [] then Some(s.(frames := lower, halted := true))
    else
      var g := lower[0];
      assert g == s.frames[1] && FrameOk(f, s.stacks) && FrameOk(g, s.stacks);
      if s.estack != g.es then
        var n := ReturnCount(f.rvcount, |Current(s)|);
        Some(s.(frames := lower, estack := g.es, astack := g.alt,
                stacks := s.stacks[s.estack := Current(s)[n..]][g.es := Current(s)[..n] + s.stacks[g.es]]))
      else if f.rvcount == -1 && g.alt != f.alt then
        Some(s.(frames := lower, astack := g.alt,
                stacks := s.stacks[f.alt := []][g.alt := s.stacks[f.alt] + s.stacks[g.alt]]))
      else
        Some(s.(frames := lower, astack := g.alt))
  }

  // ----- data

  predicate IsJump(op: byte) { op == JMP || op == JMPIF || op == JMPIFNOT }

  predicate IsIsolated(op: byte) { CALLI <= op <= CALLEDT }

  /** What CHECKMULTISIG takes its number of keys from: an array, or a number of items below it. */
  function KeyCount(heap: Graph, s: seq<StackItem>): Option<int> {
    if s == [] then None
    else if s[0].Array? || s[0].Struct? then Some(|SlotsAt(heap, s[0])|)
    else NumberOf(s[0])
  }

  /** CHECKMULTISIG goes through only with that many keys there; other data opcodes are not looked into. */
  predicate DataAllowed(op: byte, heap: Graph, s: seq<StackItem>) {
    op == CHECKMULTISIG ==>
      KeyCount(heap, s) != None && 1 <= KeyCount(heap, s).value
      && (s[0].Array? || (KeyCount(heap, s).value < |s| && !s[0].Struct?))
  }

  /** Anything may have happened to the two current stacks, and to the heap, which all stacks share; nothing else. */
  predicate Worked(s: Vm, t: Vm)
    requires s.estack in s.stacks && s.astack in s.stacks
  {
    && s.estack in t.stacks && s.astack in t.stacks
    && t.stacks == s.stacks[s.astack := t.stacks[s.astack]][s.estack := t.stacks[s.estack]]
    && t == s.(stacks := t.stacks, heap := t.heap)
  }

  /** What a successful execution of one instruction may do. */
  ghost predicate Executes(scripts: Scripts, s: Vm, f: Fetched, t: Vm)
    requires WellFormed(s) && |f.param| >= FixedLength(f.op)
  {
    if IsJump(f.op) then |f.param| == 2 && Jump(s, f.op, f.param) == Some(t)
    else if f.op == CALL then |f.param| == 2 && Call(s, f.param) == Some(t)
    else if f.op == APPCALL || f.op == TAILCALL then AppCall(scripts, s, f.op == TAILCALL, f.param) == Some(t)
    else if f.op == RET then Returned(s) == Some(t)
    else if IsIsolated(f.op) then |f.param| == FixedLength(f.op) && CallIsolated(scripts, s, f.op, f.param) == Some(t)
    else if f.op == SYSCALL then false
    else
      && DataAllowed(f.op, s.heap, Current(s))
      && Worked(s, t)
  }

  // ----- one instruction

  /** The pointers of the top frame after a fetch. */
  function Advanced(s: Vm, f: Fetched): Vm
    requires s.frames != []
  {
    WithTop(s, Top(s).(ip := Top(s).nextip, nextip := f.next))
  }

  /** The instruction that is next. */
  function NextInstr(s: Vm): Option<Fetched>
    requires s.frames != [] && Top(s).nextip <= |Top(s).prog|
  {
    Decode(Top(s).prog, Top(s).nextip)
  }

  lemma DecodedLength(prog: bytes, ip: nat)
    requires ip <= |prog| && Decode(prog, ip) != None
    ensures |Decode(prog, ip).value.param| >= FixedLength(Decode(prog, ip).value.op)
    ensures LengthBytes(Decode(prog, ip).value.op) == 0 ==>
              |Decode(prog, ip).value.param| == FixedLength(Decode(prog, ip).value.op)
  {
  }

  lemma AdvancedOk(s: Vm)
    requires WellFormed(s) && NextInstr(s) != None
    ensures WellFormed(Advanced(s, NextInstr(s).value))
  {
    assert FrameOk(s.frames[0], s.stacks);
    var t := Advanced(s, NextInstr(s).value);
    forall i | 0 <= i < |t.frames| ensures FrameOk(t.frames[i], t.stacks) { assert FrameOk(s.frames[i], s.stacks); }
  }

  /** A successful step. */
  ghost predicate StepTo(scripts: Scripts, s: Vm, t: Vm)
    requires WellFormed(s)
  {
    assert FrameOk(s.frames[0], s.stacks);
    match NextInstr(s)
    case None => false
    case Some(f) =>
      AdvancedOk(s);
      DecodedLength(Top(s).prog, Top(s).nextip);
      Executes(scripts, Advanced(s, f), f, t)
  }

  // ----- every step keeps the invariant

  /** Halted with no frame left, or ready for the next step. */
  ghost predicate Sound(s: Vm) {
    if s.halted then s.frames == [] else WellFormed(s)
  }

  lemma FramesOkWider(fs: seq<Frame>, stacks: map<nat, seq<StackItem>>, more: map<nat, seq<StackItem>>)
    requires forall i {:trigger fs[i]} :: 0 <= i < |fs| ==> FrameOk(fs[i], stacks)
    requires stacks.Keys <= more.Keys
    ensures forall i {:trigger fs[i]} :: 0 <= i < |fs| ==> FrameOk(fs[i], more)
  {
    forall i | 0 <= i < |fs| ensures FrameOk(fs[i], more) { assert FrameOk(fs[i], stacks); }
  }

  /** A new top frame on frames that are in order. */
  lemma PushedOk(fs: seq<Frame>, f: Frame, stacks: map<nat, seq<StackItem>>)
    requires forall i {:trigger fs[i]} :: 0 <= i < |fs| ==> FrameOk(fs[i], stacks)
    requires FrameOk(f, stacks)
    ensures forall i {:trigger ([f] + fs)[i]} :: 0 <= i < |[f] + fs| ==> FrameOk(([f] + fs)[i], stacks)
  {
  }

  lemma CallSound(s: Vm, param: bytes)
    requires WellFormed(s) && |param| == 2 && Call(s, param) != None
    ensures WellFormed(Call(s, param).value)
  {
    var t := Call(s, param).value;
    assert FrameOk(s.frames[0], s.stacks);
    FramesOkWider(s.frames, s.stacks, t.stacks);
    PushedOk(s.frames, t.frames[0], t.stacks);
  }

  lemma AppCallSound(scripts: Scripts, s: Vm, tail: bool, param: bytes)
    requires WellFormed(s) && AppCall(scripts, s, tail, param) != None
    ensures WellFormed(AppCall(scripts, s, tail, param).value)
  {
    var t := AppCall(scripts, s, tail, param).value;
    assert FrameOk(s.frames[0], s.stacks);
    FramesOkWider(s.frames, s.stacks, t.stacks);
    var fs := if tail then s.frames[1..] else s.frames;
    PushedOk(fs, t.frames[0], t.stacks);
  }

  lemma CallIsolatedSound(scripts: Scripts, s: Vm, op: byte, param: bytes)
    requires WellFormed(s) && IsIsolated(op) && |param| == FixedLength(op)
    requires CallIsolated(scripts, s, op, param) != None
    ensures WellFormed(CallIsolated(scripts, s, op, param).value)
  {
    var t := CallIsolated(scripts, s, op, param).value;
    assert FrameOk(s.frames[0], s.stacks);
    FramesOkWider(s.frames, s.stacks, t.stacks);
    var fs := if IsTail(op) then s.frames[1..] else s.frames;
    PushedOk(fs, t.frames[0], t.stacks);
  }

  lemma ReturnedSound(s: Vm)
    requires WellFormed(s) && !s.halted && Returned(s) != None
    ensures Sound(Returned(s).value)
  {
    var t := Returned(s).value;
    if t.frames != [] {
      assert FrameOk(s.frames[0], s.stacks) && FrameOk(s.frames[1], s.stacks);
      FramesOkWider(s.frames, s.stacks, t.stacks);
      forall i | 0 <= i < |t.frames|
        ensures FrameOk(t.frames[i], t.stacks)
      {
        assert FrameOk(s.frames[i + 1], t.stacks);
      }
    }
  }

  /** Every successful step leads to a sound state. */
  lemma StepSound(scripts: Scripts, s: Vm, t: Vm)
    requires WellFormed(s) && !s.halted && StepTo(scripts, s, t)
    ensures Sound(t)
  {
    var f := NextInstr(s).value;
    var u := Advanced(s, f);
    AdvancedOk(s);
    DecodedLength(Top(s).prog, Top(s).nextip);
    assert FrameOk(u.frames[0], u.stacks);
    if f.op == CALL {
      CallSound(u, f.param);
    } else if f.op == APPCALL || f.op == TAILCALL {
      AppCallSound(scripts, u, f.op == TAILCALL, f.param);
    } else if f.op == RET {
      ReturnedSound(u);
    } else if IsIsolated(f.op) {
      CallIsolatedSound(scripts, u, f.op, f.param);
    } else {
      forall i | 0 <= i < |t.frames| ensures FrameOk(t.frames[i], t.stacks) { assert FrameOk(u.frames[i], u.stacks); }
    }
  }
}
