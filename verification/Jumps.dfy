/**
  Where jumps lead, said of the bytes of the script and of the state behind the step: which way a condition goes,
  how far a displacement reaches, and when there is no such step.
 */
module Jumps {
  import opened Options
  import opened Bytes
  import opened TwosComplement
  import opened Items
  import opened Opcodes
  import opened Contexts
  import opened Emit
  import opened Frames

  /** Integers count by their low 64 bits, byte strings by any byte; whatever else there is counts as true. */
  predicate IsTrue(x: StackItem) {
    match x
    case Boolean(b) => b
    case BigInteger(n) => n % 0x1_0000_0000_0000_0000 != 0
    case ByteArray(data) => exists i :: 0 <= i < |data| && data[i] != 0
    case _ => true
  }

  /** A displacement as it is written: the low byte, then the high one. */
  function TwoBytesOf(d: uint16): bytes {
    assert d / 256 < 256;
    [d % 256, d / 256]
  }

  /** An opcode and a displacement come next in the script. */
  predicate NextIs(s: Vm, op: byte, d: uint16)
    requires s.frames != []
  {
    var prog, ip := s.frames[0].prog, s.frames[0].nextip;
    ip + 3 <= |prog| && prog[ip..ip + 3] == [op] + TwoBytesOf(d)
  }

  /** The displacement counts from the opcode; the upper half of its range is negative. */
  function Target(ip: nat, d: uint16): int { if d < 0x8000 then ip + d else ip + d - 0x1_0000 }

  predicate Taken(op: byte, top: StackItem) { (op == JMPIF && IsTrue(top)) || (op == JMPIFNOT && !IsTrue(top)) }

  /** The next instruction starts there; ip is left at the one executed. */
  function At(f: Frame, nextip: nat): Frame { f.(ip := f.nextip, nextip := nextip) }

  /** t is s behind the jump: at its target or behind the instruction, the condition popped, all else as it was. */
  ghost predicate Lands(s: Vm, op: byte, d: uint16, t: Vm)
    requires WellFormed(s)
  {
    assert FrameOk(s.frames[0], s.stacks);
    var f, e := s.frames[0], s.stacks[s.estack];
    && 0 <= Target(f.nextip, d) <= |f.prog|
    && if op == JMP then
         t == s.(frames := [At(f, Target(f.nextip, d))] + s.frames[1..])
       else
         && e != []
         && t == s.(frames := [At(f, if Taken(op, e[0]) then Target(f.nextip, d) else f.nextip + 3)] + s.frames[1..],
                    stacks := s.stacks[s.estack := e[1..]])
  }

  // ----- what is fetched

  lemma TwoBytes(b: bytes)
    requires |b| == 2
    ensures var low: int, high: int := b[0], b[1]; Unsigned(b) == low + 256 * high
  {
    OneByte(b[1..]);
  }

  lemma JumpDecoded(prog: bytes, ip: nat, op: byte, d: uint16)
    requires ip + 3 <= |prog| && prog[ip..ip + 3] == [op] + TwoBytesOf(d) && (IsJump(op) || op == CALL)
    ensures Decode(prog, ip) == Some(Fetched(op, TwoBytesOf(d), ip + 3))
  {
    assert prog[ip] == prog[ip..ip + 3][0];
    assert prog[ip + 1..ip + 3] == prog[ip..ip + 3][1..];
  }

  /** What is emitted for a jump are these three bytes. */
  lemma EmittedJump(op: byte, d: uint16)
    ensures WireOf(Jmp(op, d)).Code() == [op] + TwoBytesOf(d)
  {
    assert LittleEndian(d, 2) == [d % 256] + LittleEndian(d / 256, 1);
    assert LittleEndian(d / 256, 1) == [d / 256 % 256] + [];
  }

  lemma OffsetIsTarget(f: Frame, d: uint16, mod: nat)
    ensures var param, to := TwoBytesOf(d), Target(f.ip + mod, d);
            JumpOffset(f, param, mod) == if 0 <= to <= |f.prog| then Some(to) else None
  {
    var param := TwoBytesOf(d);
    assert param[..2] == param;
    TwoBytes(param);
  }

  lemma TruthIsTrue(x: StackItem)
    ensures Truth(x) <==> IsTrue(x)
  {
  }

  // ----- the step

  /**
    A step from a jump leads just there. So there is one exactly if the target is no further than the end of the
    script, and something lies on the stack for a condition.
   */
  lemma JumpStep(scripts: Scripts, s: Vm, op: byte, d: uint16, t: Vm)
    requires WellFormed(s) && IsJump(op) && NextIs(s, op, d)
    ensures StepTo(scripts, s, t) <==> Lands(s, op, d, t)
  {
    var f, param := s.frames[0], TwoBytesOf(d);
    assert FrameOk(f, s.stacks);
    JumpDecoded(f.prog, f.nextip, op, d);
    var u := Advanced(s, Fetched(op, param, f.nextip + 3));
    OffsetIsTarget(Top(u), d, 0);
    if Current(s) != [] { TruthIsTrue(Current(s)[0]); }
  }
}
