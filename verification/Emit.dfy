/**
  Assembling scripts. Everything that can be emitted has the form of an opcode, the length of its parameter
  where the opcode wants one, and the parameter; the forms that are well formed are read back as they are.
 */
module Emit {
  import opened Options
  import opened Bytes
  import opened TwosComplement
  import opened BigInt
  import opened Items
  import opened SeqOps
  import opened Conversions
  import opened BinIO
  import opened Opcodes
  import opened Contexts

  datatype Wire = Wire(op: byte, len: bytes, param: bytes) {
    function Code(): bytes { [op] + len + param }

    /** The length says how long the parameter is, and is no longer than scripts may have it. */
    predicate Readable() {
      && |len| == LengthBytes(op)
      && |param| == (if len == [] then FixedLength(op) else Unsigned(len))
      && (op == PUSHDATA4 ==> |param| <= MAX_ITEM_SIZE)
    }
  }

  type int64 = i: int | -0x8000_0000_0000_0000 <= i < 0x8000_0000_0000_0000
  type uint16 = i: int | 0 <= i < 0x1_0000

  datatype Emission =
    | Opcode(op: byte)
    | Instruction(op: byte, b: bytes)
    | PushBool(ok: bool)
    | PushInt(i: int64)
    | PushData(data: bytes)
    | Syscall(api: bytes)
    | Jmp(op: byte, target: uint16)
    | AppCall(hash: bytes, tailCall: bool)

  predicate IsInstructionJmp(op: byte) { op == JMP || op == JMPIFNOT || op == JMPIF || op == CALL }

  /** What the emitter refuses, by setting the writer's error. */
  predicate Refused(e: Emission) {
    match e
    case Syscall(api) => api == []
    case Jmp(op, _) => !IsInstructionJmp(op)
    case _ => false
  }

  function WireOfBytes(b: bytes): Wire {
    var n := |b|;
    if n <= 75 then Wire(n, [], b)
    else if n < 0x100 then Wire(PUSHDATA1, [n], b)
    else if n < 0x10000 then Wire(PUSHDATA2, LittleEndian(n, 2), b)
    else Wire(PUSHDATA4, LittleEndian(n % 0x1_0000_0000, 4), b)
  }

  function WireOf(e: Emission): Wire {
    match e
    case Opcode(op) => Wire(op, [], [])
    case Instruction(op, b) => Wire(op, [], b)
    case PushBool(ok) => Wire(if ok then PUSH1 else PUSH0, [], [])
    case PushInt(i) =>
      if i == -1 then Wire(PUSHM1, [], [])
      else if i == 0 then Wire(PUSH0, [], [])
      else if 0 < i < 16 then Wire(PUSH1 - 1 + i, [], [])
      else WireOfBytes(Encode(i))
    case PushData(data) => WireOfBytes(data)
    case Syscall(api) => Wire(SYSCALL, [|api| % 256], api)
    case Jmp(op, target) => Wire(op, [], LittleEndian(target, 2))
    case AppCall(hash, tailCall) => Wire(if tailCall then TAILCALL else APPCALL, [], hash)
  }

  // ----- the emitter

  method EmitInstruction(w: BinWriter, op: byte, b: bytes)
    modifies w
    ensures w.err == old(w.err) && w.buf == if w.err then old(w.buf) else old(w.buf) + ([op] + b)
  {
    Appended(w.buf, [op], b);
    w.WriteB(op);
    w.WriteBytes(b);
  }

  method EmitOpcode(w: BinWriter, op: byte)
    modifies w
    ensures w.err == old(w.err) && w.buf == if w.err then old(w.buf) else old(w.buf) + WireOf(Opcode(op)).Code()
  {
    assert Wire(op, [], []).Code() == [op];
    w.WriteB(op);
  }

  method EmitBool(w: BinWriter, ok: bool)
    modifies w
    ensures w.err == old(w.err) && w.buf == if w.err then old(w.buf) else old(w.buf) + WireOf(PushBool(ok)).Code()
  {
    if ok {
      EmitOpcode(w, PUSH1);
      return;
    }
    EmitOpcode(w, PUSH0);
  }

  method EmitBytes(w: BinWriter, b: bytes)
    modifies w
    ensures w.err == old(w.err) && w.buf == if w.err then old(w.buf) else old(w.buf) + WireOfBytes(b).Code()
  {
    var n := |b|;
    ghost var x := WireOfBytes(b);
    WireSplit(w.buf, x);
    if n <= 75 {
      EmitInstruction(w, n, b);
      return;
    } else if n < 0x100 {
      EmitInstruction(w, PUSHDATA1, [n]);
    } else if n < 0x10000 {
      EmitInstruction(w, PUSHDATA2, LittleEndian(n, 2));
    } else {
      EmitInstruction(w, PUSHDATA4, LittleEndian(n % 0x1_0000_0000, 4));
    }
    w.WriteBytes(b);
  }

  lemma WireSplit(buf: bytes, x: Wire)
    ensures buf + x.Code() == buf + ([x.op] + x.len) + x.param
    ensures x.len == [] ==> x.Code() == [x.op] + x.param
  {
  }

  method EmitInt(w: BinWriter, i: int64)
    modifies w
    ensures w.err == old(w.err) && w.buf == if w.err then old(w.buf) else old(w.buf) + WireOf(PushInt(i)).Code()
  {
    if i == -1 {
      EmitOpcode(w, PUSHM1);
    } else if i == 0 {
      EmitOpcode(w, PUSH0);
    } else if i > 0 && i < 16 {
      EmitOpcode(w, PUSH1 - 1 + i);
    } else {
      var val := IntToBytes(i);
      EmitBytes(w, val);
    }
  }

  method EmitSyscall(w: BinWriter, api: bytes)
    modifies w
    ensures w.err == (old(w.err) || Refused(Syscall(api)))
    ensures w.buf == if w.err then old(w.buf) else old(w.buf) + WireOf(Syscall(api)).Code()
  {
    if w.err {
      return;
    } else if |api| == 0 {
      w.err := true;
      return;
    }
    WireSplit(w.buf, WireOf(Syscall(api)));
    var buf: bytes := [|api| % 256] + api;
    assert [SYSCALL] + buf == WireOf(Syscall(api)).Code();
    EmitInstruction(w, SYSCALL, buf);
  }

  method EmitJmp(w: BinWriter, op: byte, target: uint16)
    modifies w
    ensures w.err == (old(w.err) || Refused(Jmp(op, target)))
    ensures w.buf == if w.err then old(w.buf) else old(w.buf) + WireOf(Jmp(op, target)).Code()
  {
    if w.err {
      return;
    } else if !IsInstructionJmp(op) {
      w.err := true;
      return;
    }
    WireSplit(w.buf, WireOf(Jmp(op, target)));
    EmitInstruction(w, op, LittleEndian(target, 2));
  }

  method EmitAppCall(w: BinWriter, hash: bytes, tailCall: bool)
    modifies w
    ensures w.err == old(w.err)
    ensures w.buf == if w.err then old(w.buf) else old(w.buf) + WireOf(AppCall(hash, tailCall)).Code()
  {
    var op := APPCALL;
    if tailCall {
      op := TAILCALL;
    }
    WireSplit(w.buf, WireOf(AppCall(hash, tailCall)));
    EmitInstruction(w, op, hash);
  }

  // ----- reading back

  /** A readable form anywhere in a script is fetched as it was written. */
  lemma WireDecoded(pre: bytes, x: Wire, rest: bytes)
    requires x.Readable()
    ensures Decode(pre + x.Code() + rest, |pre|) == Some(Fetched(x.op, x.param, |pre| + |x.Code()|))
  {
    var prog, ip := pre + x.Code() + rest, |pre|;
    var body := ip + 1 + |x.len|;
    assert prog[ip] == x.op;
    assert prog[ip + 1..body] == x.len;
    assert prog[body..body + |x.param|] == x.param;
  }

  /** What an emission must meet for its form to be readable. */
  predicate Sound(e: Emission) {
    match e
    case Opcode(op) => LengthBytes(op) == 0 && FixedLength(op) == 0
    case Instruction(op, b) => LengthBytes(op) == 0 && FixedLength(op) == |b|
    case PushData(data) => |data| <= MAX_ITEM_SIZE
    case Syscall(api) => |api| < 256
    case Jmp(op, _) => LengthBytes(op) == 0 && FixedLength(op) == 2
    case AppCall(hash, _) => |hash| == 20
    case _ => true
  }

  lemma SoundBytes(b: bytes)
    ensures WireOfBytes(b).Readable() <==> |b| <= MAX_ITEM_SIZE
  {
    var n := |b|;
    Powers();
    assert Pow256(1) == 256;
    if 75 < n < 0x100 {
      OneByte([n]);
    } else if n < 0x10000 {
      if n > 75 { LittleEndianValue(n, 2); }
    } else {
      LittleEndianValue(n % 0x1_0000_0000, 4);
    }
  }

  lemma {:induction false} EncodeFits(n: int, k: nat)
    requires k >= 1 && -(128 * Pow256(k - 1)) <= n < 128 * Pow256(k - 1)
    ensures |Encode(n)| <= k
    decreases k
  {
    if !(-128 <= n < 128) {
      assert Pow256(k - 1) == 256 * Pow256(k - 2);
      EncodeFits(n / 256, k - 1);
    }
  }

  lemma Int64Fits(i: int64)
    ensures |Encode(i)| <= 8
  {
    SmallPowers();
    EncodeFits(i, 8);
  }

  /** Sound emissions are exactly those whose form is readable. */
  lemma SoundIsReadable(e: Emission)
    ensures WireOf(e).Readable() <==> Sound(e)
  {
    match e {
      case PushInt(i) =>
        Int64Fits(i);
        SoundBytes(Encode(i));
      case PushData(data) =>
        SoundBytes(data);
      case Syscall(api) =>
        OneByte([|api| % 256]);
      case _ =>
    }
  }

  // ----- whole scripts

  function CodeOf(es: seq<Emission>): bytes {
    if es == [] then [] else WireOf(es[0]).Code() + CodeOf(es[1..])
  }

  function Listing(es: seq<Emission>): seq<(byte, bytes)> {
    if es == [] then [] else [(WireOf(es[0]).op, WireOf(es[0]).param)] + Listing(es[1..])
  }

  /** All instructions from ip to the end, if there is none that is cut short or too big. */
  function Disassemble(prog: bytes, ip: nat): Option<seq<(byte, bytes)>>
    requires ip <= |prog|
    decreases |prog| - ip
  {
    if ip == |prog| then Some([])
    else
      match Decode(prog, ip)
      case None => None
      case Some(f) =>
        match Disassemble(prog, f.next)
        case None => None
        case Some(rest) => Some([(f.op, f.param)] + rest)
  }

  lemma OneAndRest(pre: bytes, a: bytes, rest: bytes)
    ensures pre + (a + rest) == pre + a + rest && |pre + a| == |pre| + |a|
  {
  }

  predicate AllSound(es: seq<Emission>) {
    forall i {:trigger es[i]} :: 0 <= i < |es| ==> Sound(es[i])
  }

  /** Disassembly undoes assembly, for every script of sound emissions. */
  lemma {:induction false} DisassembleEmitted(pre: bytes, es: seq<Emission>)
    requires AllSound(es)
    ensures Disassemble(pre + CodeOf(es), |pre|) == Some(Listing(es))
    decreases |es|
  {
    if es != [] {
      var x := WireOf(es[0]);
      assert Sound(es[0]) && AllSound(es[1..]);
      DisassembleEmitted(pre + x.Code(), es[1..]);
      OneMoreListed(pre, es[0], CodeOf(es[1..]), Listing(es[1..]));
    } else {
      assert pre + CodeOf(es) == pre;
    }
  }

  lemma OneMoreRead(pre: bytes, x: Wire, rest: bytes, list: seq<(byte, bytes)>)
    requires x.Readable() && Disassemble(pre + x.Code() + rest, |pre + x.Code()|) == Some(list)
    ensures Disassemble(pre + (x.Code() + rest), |pre|) == Some([(x.op, x.param)] + list)
  {
    var code := x.Code();
    OneAndRest(pre, code, rest);
    WireDecoded(pre, x, rest);
    DisassembleStep(pre + code + rest, |pre|, Fetched(x.op, x.param, |pre| + |code|), list);
  }

  lemma OneMoreListed(pre: bytes, e: Emission, rest: bytes, list: seq<(byte, bytes)>)
    requires Sound(e) && Disassemble(pre + WireOf(e).Code() + rest, |pre + WireOf(e).Code()|) == Some(list)
    ensures Disassemble(pre + (WireOf(e).Code() + rest), |pre|) == Some([(WireOf(e).op, WireOf(e).param)] + list)
  {
    SoundIsReadable(e);
    OneMoreRead(pre, WireOf(e), rest, list);
  }

  lemma ScriptListed(es: seq<Emission>)
    requires AllSound(es)
    ensures Ahead(CodeOf(es), 0) == ListingOf(es)
  {
    var code := CodeOf(es);
    assert [] + code == code;
    DisassembleEmitted([], es);
  }

  /** The instructions from ip on. */
  function Ahead(prog: bytes, ip: nat): Option<seq<(byte, bytes)>>
    requires ip <= |prog|
  {
    Disassemble(prog, ip)
  }

  /** The instructions of emissions. */
  function ListingOf(es: seq<Emission>): Option<seq<(byte, bytes)>> { Some(Listing(es)) }

  /** The next instruction of a script that lists emissions is that of the first of them. */
  lemma NextEmitted(prog: bytes, ip: nat, e: Emission, rest: seq<Emission>)
    requires ip <= |prog| && Ahead(prog, ip) == ListingOf([e] + rest)
    ensures ip < |prog| && Decode(prog, ip).Some?
    ensures var f := Decode(prog, ip).value;
            f.op == WireOf(e).op && f.param == WireOf(e).param && Ahead(prog, f.next) == ListingOf(rest)
  {
    assert ([e] + rest)[1..] == rest;
    NextListed(prog, ip, (WireOf(e).op, WireOf(e).param), Listing(rest));
  }

  lemma NextListed(prog: bytes, ip: nat, x: (byte, bytes), rest: seq<(byte, bytes)>)
    requires ip <= |prog| && Disassemble(prog, ip) == Some([x] + rest)
    ensures ip < |prog| && Decode(prog, ip).Some?
    ensures var f := Decode(prog, ip).value; (f.op, f.param) == x && Disassemble(prog, f.next) == Some(rest)
  {
    assert ([x] + rest)[0] == x && ([x] + rest)[1..] == rest;
    match Decode(prog, ip) {
      case None =>
      case Some(f) =>
        match Disassemble(prog, f.next) {
          case None =>
          case Some(r) => assert ([(f.op, f.param)] + r)[0] == (f.op, f.param) && ([(f.op, f.param)] + r)[1..] == r;
        }
    }
  }

  lemma DisassembleStep(prog: bytes, ip: nat, f: Fetched, rest: seq<(byte, bytes)>)
    requires ip < |prog| && Decode(prog, ip) == Some(f) && Disassemble(prog, f.next) == Some(rest)
    ensures Disassemble(prog, ip) == Some([(f.op, f.param)] + rest)
  {
  }

  method EmitAny(w: BinWriter, e: Emission)
    modifies w
    ensures w.err == (old(w.err) || Refused(e))
    ensures w.buf == if w.err then old(w.buf) else old(w.buf) + WireOf(e).Code()
  {
    match e {
      case Opcode(op) => EmitOpcode(w, op);
      case Instruction(op, b) =>
        WireSplit(w.buf, WireOf(e));
        EmitInstruction(w, op, b);
      case PushBool(ok) => EmitBool(w, ok);
      case PushInt(i) => EmitInt(w, i);
      case PushData(data) => EmitBytes(w, data);
      case Syscall(api) => EmitSyscall(w, api);
      case Jmp(op, target) => EmitJmp(w, op, target);
      case AppCall(hash, tailCall) => EmitAppCall(w, hash, tailCall);
    }
  }

  lemma {:induction false} CodeOfConcat(a: seq<Emission>, b: seq<Emission>)
    ensures CodeOf(a + b) == CodeOf(a) + CodeOf(b)
    decreases |a|
  {
    if a == [] {
      assert a + b == b;
    } else {
      assert (a + b)[1..] == a[1..] + b;
      CodeOfConcat(a[1..], b);
      Appended(WireOf(a[0]).Code(), CodeOf(a[1..]), CodeOf(b));
    }
  }

  lemma CodeOfOne(e: Emission)
    ensures CodeOf([e]) == WireOf(e).Code()
  {
    assert [e][1..] == [];
  }

  lemma OneMoreEmitted(es: seq<Emission>, i: nat)
    requires i < |es|
    ensures CodeOf(es[..i + 1]) == CodeOf(es[..i]) + WireOf(es[i]).Code()
  {
    PrefixGrows(es, i);
    CodeOfConcat(es[..i], [es[i]]);
    CodeOfOne(es[i]);
  }

  predicate AnyRefused(es: seq<Emission>) { exists i :: 0 <= i < |es| && Refused(es[i]) }

  lemma OneMoreRefused(es: seq<Emission>, i: nat)
    requires i < |es|
    ensures AnyRefused(es[..i + 1]) <==> AnyRefused(es[..i]) || Refused(es[i])
  {
    PrefixGrows(es, i);
    var a := es[..i];
    assert es[..i + 1][i] == es[i];
    if AnyRefused(a) {
      var k :| 0 <= k < |a| && Refused(a[k]);
      assert es[..i + 1][k] == a[k];
    }
  }

  /** Emits a list; what is emitted behind a refused member is lost. */
  method EmitScript(es: seq<Emission>) returns (code: Option<bytes>)
    ensures code == if AnyRefused(es) then None else Some(CodeOf(es))
  {
    var w := new BinWriter();
    WholePrefix(es);
    for i := 0 to |es|
      invariant w.err <==> AnyRefused(es[..i])
      invariant !w.err ==> w.buf == CodeOf(es[..i])
    {
      OneMoreEmitted(es, i);
      OneMoreRefused(es, i);
      EmitAny(w, es[i]);
    }
    code := if w.err then None else Some(w.buf);
  }

  /** Fetches instruction after instruction until the implicit RET. */
  method FetchAll(prog: bytes) returns (list: Option<seq<(byte, bytes)>>)
    ensures list == Disassemble(prog, 0)
  {
    var ctx := new Context(prog);
    var done: seq<(byte, bytes)> := [];
    ghost var whole := Disassemble(prog, 0);
    NothingPrepended(whole);
    while true
      invariant ctx.Valid() && ctx.prog == prog
      invariant whole == Prepended(done, Disassemble(prog, ctx.nextip))
      decreases |prog| - ctx.nextip
    {
      var op, param, ok := ctx.Next();
      if !ok {
        return None;
      }
      if ctx.ip == |prog| {
        assert done + [] == done;
        return Some(done);
      }
      NextPrepended(done, (op, param), Disassemble(prog, ctx.nextip));
      done := done + [(op, param)];
    }
  }

  function Prepended(done: seq<(byte, bytes)>, list: Option<seq<(byte, bytes)>>): Option<seq<(byte, bytes)>> {
    match list
    case None => None
    case Some(rest) => Some(done + rest)
  }

  lemma NothingPrepended(list: Option<seq<(byte, bytes)>>)
    ensures Prepended([], list) == list
  {
    if list.Some? { assert [] + list.value == list.value; }
  }

  lemma NextPrepended(done: seq<(byte, bytes)>, x: (byte, bytes), list: Option<seq<(byte, bytes)>>)
    ensures Prepended(done + [x], list) == Prepended(done, Prepended([x], list))
  {
    if list.Some? { assert done + [x] + list.value == done + ([x] + list.value); }
  }

  // ----- pushing

  /** The item that a push opcode puts on the stack. */
  function PushedItem(op: byte, param: bytes): Option<StackItem> {
    if PUSHBYTES1 <= op <= PUSHBYTES75 || op in {PUSHDATA1, PUSHDATA2, PUSHDATA4} then Some(ByteArray(param))
    else if op == PUSH0 then Some(ByteArray([]))
    else if op == PUSHM1 || PUSH1 <= op <= PUSH16 then Some(BigInteger(op - PUSH1 + 1))
    else None
  }

  /** An emission that pushes an item, and the item. */
  predicate IsPush(e: Emission) { PushedItem(WireOf(e).op, WireOf(e).param) != None }

  function ItemOf(e: Emission): StackItem {
    match PushedItem(WireOf(e).op, WireOf(e).param)
    case None => Boolean(false)
    case Some(x) => x
  }

  predicate AllPushes(es: seq<Emission>) { forall i {:trigger es[i]} :: 0 <= i < |es| ==> IsPush(es[i]) }

  /** What a list of pushes leaves on the stack, top first. */
  function PushedBy(es: seq<Emission>): seq<StackItem> {
    if es == [] then [] else PushedBy(es[1..]) + [ItemOf(es[0])]
  }

  lemma PushIsPrimitive(e: Emission)
    requires IsPush(e)
    ensures !ItemOf(e).IsContainer() && PushedItem(WireOf(e).op, WireOf(e).param) == Some(ItemOf(e))
  {
  }

  /** Executing an emitted integer pushes an item that stands for it. */
  lemma EmittedIntIsPushed(i: int64)
    ensures IsPush(PushInt(i)) && IntegerOf(ItemOf(PushInt(i))) == Some(i)
  {
    EncodeNonempty(i);
    SignedEncode(i);
    Int64Fits(i);
  }

  /** Executing emitted bytes pushes them. */
  lemma EmittedBytesArePushed(b: bytes)
    ensures IsPush(PushData(b)) && ItemOf(PushData(b)) == ByteArray(b)
  {
  }
}
