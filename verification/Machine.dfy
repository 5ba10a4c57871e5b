/**
  The VM: fetching, charging, executing, with the heap and the counters. A run under a gas limit ends, because
  whatever does not cost gas uses up bytes of the script or frames, unless an opcode has changed a container
  that the stacks did not hold: then the removal walk may go round for ever in a cycle of the heap, and the
  counted size no longer bounds the stacks.
 */
module Machine {
  import opened Limits
  import opened Options
  import opened Bytes
  import opened Items
  import opened RefCount
  import opened RemovalWalk
  import opened Equality
  import opened SlotBooks
  import opened Reaching
  import opened OrderedMap
  import opened Edits
  import opened ObjectOps
  import opened Conversions
  import opened Opcodes
  import opened Contexts
  import opened Frames
  import opened Isolation
  import opened StackSlots

  // ----- prices

  const INTEROP_GAS_RATIO := 100000

  /** A price in units of gas, in a signed 64-bit word. */
  function ToFixed8(n: int): int { Int64(n * INTEROP_GAS_RATIO) }

  /** The price of an instruction other than SYSCALL; nothing if looking at the stack for it faults. */
  function GetPrice(op: byte, heap: Graph, s: seq<StackItem>): Option<int> {
    if op <= NOP then Some(0)
    else if op == APPCALL || op == TAILCALL || op == SHA1 || op == SHA256 then Some(ToFixed8(10))
    else if op == HASH160 || op == HASH256 then Some(ToFixed8(20))
    else if op == CHECKSIG || op == VERIFY then Some(ToFixed8(100))
    else if op == CHECKMULTISIG then
      if s == [] then Some(ToFixed8(1))
      else if KeyCount(heap, s) == None then None
      else if KeyCount(heap, s).value < 1 then Some(ToFixed8(1))
      else Some(ToFixed8(Int64(100 * KeyCount(heap, s).value)))
    else Some(ToFixed8(1))
  }

  /** What charging for the next instruction does to the gas; the implicit RET is not charged. */
  predicate Charged(s: Vm, op: byte, priced: bool, gas0: int, gas1: int)
    requires s.frames != [] && s.estack in s.stacks
  {
    if priced && Top(s).ip < |Top(s).prog| then
      GetPrice(op, s.heap, Current(s)) != None && gas1 == Int64(gas0 + GetPrice(op, s.heap, Current(s)).value)
    else
      gas1 == gas0
  }

  /** What the next instruction costs when it is charged. */
  ghost function PriceOf(s: Vm): int {
    if !WellFormed(s) then 0
    else
      assert FrameOk(s.frames[0], s.stacks);
      if NextInstr(s) == None || Top(s).nextip == |Top(s).prog| then 0
      else if GetPrice(NextInstr(s).value.op, s.heap, Current(s)) == None then 0
      else GetPrice(NextInstr(s).value.op, s.heap, Current(s)).value
  }

  /** What the instructions cost that are executed in these states. */
  ghost function CostOf(trace: seq<Vm>): int {
    if trace == [] then 0 else CostOf(trace[..|trace| - 1]) + PriceOf(trace[|trace| - 1])
  }

  lemma CostGrows(trace: seq<Vm>, s: Vm)
    ensures CostOf(trace + [s]) == CostOf(trace) + PriceOf(s)
  {
    assert (trace + [s])[..|trace|] == trace;
  }

  const MAX_PRICE := 100 * MAX_STACK_SIZE * INTEROP_GAS_RATIO
  const MAX_GAS_LIMIT := 0x7FFF_FFFF_FFFF_FFFF - MAX_PRICE

  /** The most that can be added to gas within the limit. */
  function Room(limit: int): int { 0x7FFF_FFFF_FFFF_FFFF - limit }

  /** A check of so many keys that its price could overflow the gas. */
  predicate Dear(op: byte, heap: Graph, s: seq<StackItem>, limit: int) {
    op == CHECKMULTISIG && KeyCount(heap, s) != None && 100 * KeyCount(heap, s).value * INTEROP_GAS_RATIO > Room(limit)
  }

  /** An instruction that goes through and is neither free nor too dear has a positive price that does not overflow. */
  lemma PriceOfSuccess(op: byte, heap: Graph, s: seq<StackItem>, limit: int)
    requires op > NOP && DataAllowed(op, heap, s) && !Dear(op, heap, s, limit) && 0 <= limit <= MAX_GAS_LIMIT
    ensures GetPrice(op, heap, s) != None && 0 < GetPrice(op, heap, s).value <= Room(limit)
  {
  }

  const MAX_KEYS := 922337203685

  /** The price of a check of n keys is right if and only if n is not above this; beyond, it wraps round. */
  lemma PriceExactly(heap: Graph, s: seq<StackItem>)
    requires KeyCount(heap, s) != None && 1 <= KeyCount(heap, s).value < 0x8000_0000_0000_0000
    ensures GetPrice(CHECKMULTISIG, heap, s) == Some(100 * KeyCount(heap, s).value * INTEROP_GAS_RATIO) <==>
              KeyCount(heap, s).value <= MAX_KEYS
  {
    var n := KeyCount(heap, s).value;
    var word := 0x1_0000_0000_0000_0000;
    assert s != [];
    assert Int64(100 * n) * INTEROP_GAS_RATIO ==
           100 * n * INTEROP_GAS_RATIO - (100 * n - Int64(100 * n)) * INTEROP_GAS_RATIO;
    if n <= MAX_KEYS {
      assert Int64(100 * n) == 100 * n;
    } else {
      assert 100 * n * INTEROP_GAS_RATIO > 0x7FFF_FFFF_FFFF_FFFF;
      assert ToFixed8(Int64(100 * n)) <= 0x7FFF_FFFF_FFFF_FFFF;
    }
  }

  /** A count can be chosen whose price is negative. */
  lemma PriceCanBeNegative(heap: Graph)
    ensures GetPrice(CHECKMULTISIG, heap, [BigInteger(MAX_KEYS + 1)]) != None
    ensures GetPrice(CHECKMULTISIG, heap, [BigInteger(MAX_KEYS + 1)]).value < 0
  {
  }

  // ----- the books

  /** No container has more slots than an opcode gives it. */
  predicate Small(heap: Graph) {
    forall c {:trigger heap[c]} :: c in heap ==> |heap[c]| <= MAX_ARRAY_SIZE
  }

  /** While the books are exact, no check that goes through is too dear. */
  lemma NeverDear(op: byte, heap: Graph, t: Tally, stacks: map<nat, seq<StackItem>>, id: nat, limit: int)
    requires Exact(heap, t.itemCount, t.size, AllSlots(stacks)) && t.size <= MAX_STACK_SIZE && Small(heap)
    requires id in stacks && DataAllowed(op, heap, stacks[id]) && limit <= MAX_GAS_LIMIT
    ensures !Dear(op, heap, stacks[id], limit)
  {
    HeightCounted(stacks, id);
    var s := stacks[id];
    if op == CHECKMULTISIG && s[0] in heap { assert |heap[s[0]]| <= MAX_ARRAY_SIZE; }
  }

  // ----- which containers a step changes

  /** How deep the container lies that the opcode changes. */
  function ChangedDepth(op: byte): Option<nat> {
    if op == APPEND || op == REMOVE then Some(1) else if op == SETITEM then Some(2) else None
  }

  /** The container lies on the stack of s, and the slots that are left without the operands reach it. */
  ghost predicate Reached(s: Vm, d: nat)
    requires s.estack in s.stacks
  {
    d < |Current(s)| && Current(s)[d] in s.heap ==>
      Reachable(s.heap, AllSlots(s.stacks[s.estack := Current(s)[d + 1..]]), Current(s)[d])
  }

  /** If the next instruction changes a container, the stacks hold it beside the operand. */
  ghost predicate ChangesHeld(s: Vm)
    requires WellFormed(s)
  {
    assert FrameOk(s.frames[0], s.stacks);
    NextInstr(s) != None && ChangedDepth(NextInstr(s).value.op) != None ==>
      Reached(s, ChangedDepth(NextInstr(s).value.op).value)
  }

  /** The three opcodes take the container, the key if there is one, and the value if there is one. */
  predicate KeyIsRight(op: byte, key: StackItem) { op == APPEND || IsValidMapKey(key) }

  /** The edit that the opcode asks for; a key of a map can stand for any slot, or for none. */
  predicate Asks(op: byte, t: StackItem, slots: seq<StackItem>, key: StackItem, val: StackItem, e: Option<Edit>)
    requires KeyIsRight(op, key)
  {
    if op == APPEND then IsList(t) && |slots| < MAX_ARRAY_SIZE && e == Some(Added(val))
    else if IsList(t) then
      && 0 <= IndexOf(key) < |slots|
      && e == Some(if op == SETITEM then Replaced(IndexOf(key), val) else Dropped(IndexOf(key)))
    else if op == SETITEM then
      && t.Map? && e != None && Fits(e.value, slots)
      && if e.value.Added? then e.value.val == val && |slots| < MAX_ARRAY_SIZE else e.value == Replaced(e.value.at, val)
    else t.Map? && (e != None ==> e.value.Dropped? && e.value.at < |slots|)
  }

  /** When it faults instead; a full map refuses new keys only, and takes others. */
  predicate Refuses(op: byte, t: StackItem, slots: seq<StackItem>, key: StackItem) {
    || !KeyIsRight(op, key) || !t.IsContainer()
    || (if op == APPEND then !IsList(t) || |slots| >= MAX_ARRAY_SIZE
        else if IsList(t) then !(0 <= IndexOf(key) < |slots|)
        else op == SETITEM && |slots| >= MAX_ARRAY_SIZE)
  }

  /** K is the heap with clones: a struct is stored as a new one. */
  ghost predicate StoredIn(heap: Graph, item: StackItem, K: Graph, val: StackItem) {
    && Extends(heap, K) && (forall c {:trigger c in K} :: c in K && c !in heap ==> c.Struct?)
    && (val.IsContainer() ==> val in K)
    && if item.Struct? then val.Struct? && val !in heap else val == item && K == heap
  }

  /** What an edit does: val is what is stored, K the heap with clones. */
  datatype Change = Change(K: Graph, val: StackItem, e: Option<Edit>)

  function AfterChange(ch: Change, t: StackItem): Graph
    requires t in ch.K && (ch.e != None ==> Fits(ch.e.value, ch.K[t]))
  {
    if ch.e == None then ch.K else ch.K[t := Applied(ch.e.value, ch.K[t])]
  }

  ghost predicate Changes(op: byte, heap: Graph, t: StackItem, key: StackItem, item: StackItem, ch: Change,
                          after: Graph)
  {
    && t in heap && KeyIsRight(op, key) && Asks(op, t, heap[t], key, ch.val, ch.e)
    && (if op == REMOVE then ch.K == heap else StoredIn(heap, item, ch.K, ch.val))
    && t in ch.K && ch.K[t] == heap[t] && after == AfterChange(ch, t)
  }

  /** The opcode takes its operands and changes the container. */
  ghost predicate Edited(op: byte, s: Vm, ch: Change, u: Vm)
    requires s.estack in s.stacks && ChangedDepth(op) != None
  {
    var d, xs := ChangedDepth(op).value, Current(s);
    && d < |xs| && Changes(op, s.heap, xs[d], xs[d - 1], xs[0], ch, u.heap)
    && u == s.(stacks := s.stacks[s.estack := xs[d + 1..]], heap := u.heap)
  }

  /** Operands are missing, or the edit is refused. */
  predicate CannotEdit(op: byte, heap: Graph, xs: seq<StackItem>)
    requires ChangedDepth(op) != None
  {
    var d := ChangedDepth(op).value;
    |xs| <= d || Refuses(op, xs[d], SlotsAt(heap, xs[d]), xs[d - 1])
  }

  /** An instruction that faults cannot go through; opcodes that only work on data may always fault. */
  ghost predicate MayFault(scripts: Scripts, s: Vm, f: Fetched)
    requires WellFormed(s) && |f.param| >= FixedLength(f.op)
  {
    assert FrameOk(s.frames[0], s.stacks);
    if IsJump(f.op) then |f.param| != 2 || Jump(s, f.op, f.param) == None
    else if f.op == CALL then |f.param| != 2 || Call(s, f.param) == None
    else if f.op == APPCALL || f.op == TAILCALL then AppCall(scripts, s, f.op == TAILCALL, f.param) == None
    else if f.op == RET then Returned(s) == None
    else if IsIsolated(f.op) then |f.param| != FixedLength(f.op) || CallIsolated(scripts, s, f.op, f.param) == None
    else ChangedDepth(f.op) != None ==> CannotEdit(f.op, s.heap, Current(s))
  }

  /** The next instruction could overflow the gas. */
  predicate DearNext(s: Vm, limit: int)
    requires s.frames != [] && Top(s).nextip <= |Top(s).prog| && s.estack in s.stacks
  {
    NextInstr(s) != None && Dear(NextInstr(s).value.op, s.heap, Current(s), limit)
  }

  /** What a data opcode other than these three does, one thing after another. */
  datatype Action =
    | Take(alt: bool, n: nat)
    | Put(alt: bool, x: StackItem)
    | Reorder(alt: bool, s: seq<StackItem>)
    | Overwrite(x: StackItem)
    | MakeContainer(c: StackItem, slots: seq<StackItem>)
    | Rearrange(c: StackItem, slots: seq<StackItem>)

  class VM {
    var frames: seq<Frame>
    var stacks: map<nat, seq<StackItem>>
    var estack: nat
    var astack: nat
    var unused: nat
    var halted: bool
    var faulted: bool
    /** A removal walk never ended. */
    var diverged: bool
    /** Under a limit, a check whose price could overflow the gas went through. */
    var overpriced: bool
    var heap: Graph
    var itemCount: map<StackItem, int>
    var size: int
    var gasConsumed: int
    const priced: bool
    const gasLimit: int
    const scripts: Scripts
    /** A container was changed that was not held. */
    ghost var unheld: bool

    /** A fresh VM with a script loaded. */
    constructor (prog: bytes, dyn: bool, getPrice: bool, limit: int, getScript: Scripts)
      ensures Good() && !halted && !faulted && !unheld && gasConsumed == 0 && size == 0
      ensures priced == getPrice && gasLimit == limit && scripts == getScript
      ensures frames == [Frame(0, 0, prog, -1, 0, 2, dyn)] && stacks == map[0 := [], 1 := [], 2 := []] && heap == map[]
    {
      frames := [Frame(0, 0, prog, -1, 0, 2, dyn)];
      stacks := map[0 := [], 1 := [], 2 := []];
      estack, astack, unused := 0, 2, 3;
      halted, faulted, diverged, overpriced, unheld := false, false, false, false, false;
      heap, itemCount, size, gasConsumed := map[], map[], 0, 0;
      priced, gasLimit, scripts := getPrice, limit, getScript;
      new;
      NothingOnThem();
    }

    ghost function Now(): Vm
      reads this
    {
      Vm(frames, stacks, estack, astack, unused, halted, heap)
    }

    ghost function Counts(): Tally
      reads this
    {
      Tally(itemCount, size)
    }

    /** What is on the stacks is known, and unless something unheld was changed the books are exact. */
    ghost predicate Booked()
      reads this
    {
      && Sane(heap, Counts()) && Small(heap) && StacksKnown(heap, stacks)
      && (!unheld ==> Exact(heap, itemCount, size, AllSlots(stacks)))
      && !diverged
    }

    /** Why a walk may not have ended: something unheld was changed, and the heap has a cycle. */
    ghost predicate Endless()
      reads this
    {
      unheld && Circular(heap)
    }

    /** What holds before and after every successful step. */
    ghost predicate Good()
      reads this
    {
      && Frames.Sound(Now()) && Booked() && !overpriced
      && size <= MAX_STACK_SIZE
      && (priced && gasLimit > 0 ==> gasConsumed <= gasLimit)
    }

    // ----- one slot more or less

    method Uncount(x: StackItem) returns (ends: bool)
      requires Sane(heap, Counts()) && !diverged
      modifies this`itemCount, this`size, this`diverged
      ensures ends == !diverged && (!ends ==> Circular(heap))
      ensures Walk(heap, old(Counts()), x, |heap| + 1) == if ends then Some(Counts()) else None
      ensures ends ==> Sane(heap, Counts())
    {
      var r := Walk(heap, Tally(itemCount, size), x, |heap| + 1);
      ends := r != None;
      if ends {
        WalkShrinks(heap, Counts(), x, |heap| + 1);
        itemCount, size := r.value.itemCount, r.value.size;
      } else {
        WalkedInCircles(heap, Counts(), x);
        diverged := true;
      }
    }

    /** Takes out the item n deep. */
    method TakeAt(id: nat, n: nat) returns (x: StackItem, ends: bool)
      requires id in stacks && n < |stacks[id]| && Booked()
      modifies this`stacks, this`itemCount, this`size, this`diverged
      ensures x == old(stacks)[id][n] && stacks == old(stacks)[id := Without(old(stacks)[id], n)]
      ensures x.IsContainer() ==> x in heap
      ensures if ends then Booked() else diverged && Endless()
    {
      KnownMember(heap, stacks, id, n);
      KnownWithout(heap, stacks, id, n);
      x := stacks[id][n];
      if !unheld { TakenEnds(heap, Counts(), stacks, id, n); }
      stacks := stacks[id := Without(stacks[id], n)];
      ends := Uncount(x);
    }

    /** Puts an item on top. */
    method PutOn(id: nat, x: StackItem)
      requires id in stacks && Booked() && (x.IsContainer() ==> x in heap)
      modifies this`stacks, this`itemCount, this`size
      ensures stacks == old(stacks)[id := [x] + old(stacks)[id]] && Booked()
    {
      PutBooked(heap, Counts(), stacks, id, x, unheld);
      var r := AddOne(heap, Tally(itemCount, size), x);
      stacks := stacks[id := [x] + stacks[id]];
      itemCount, size := r.itemCount, r.size;
    }

    // ----- moving items between stacks

    lemma MoveOne(s: seq<StackItem>, t: seq<StackItem>, i: nat, n: nat)
      requires 0 < i <= n <= |s|
      ensures var f := s[..i] + s[n..];
              && f[i - 1] == s[i - 1] && Without(f, i - 1) == s[..i - 1] + s[n..]
              && [s[i - 1]] + (s[i..n] + t) == s[i - 1..n] + t
    {
    }

    /** Moves n items from the top of one stack to the top of another, the deepest one first. */
    method MoveTop(from: nat, to: nat, n: nat) returns (ends: bool)
      requires from in stacks && to in stacks && from != to && n <= |stacks[from]| && Booked()
      modifies this`stacks, this`itemCount, this`size, this`diverged
      ensures if ends then Booked() else diverged && Endless()
      ensures ends ==>
                stacks == old(stacks)[from := old(stacks)[from][n..]][to := old(stacks)[from][..n] + old(stacks)[to]]
    {
      ghost var s, t := stacks[from], stacks[to];
      assert s[..n] + s[n..] == s && s[n..n] + t == t;
      ends := true;
      var i := n;
      while i > 0
        invariant 0 <= i <= n && ends && Booked() && from in stacks && to in stacks
        invariant stacks == old(stacks)[from := s[..i] + s[n..]][to := s[i..n] + t]
      {
        MoveOne(s, t, i, n);
        var elem;
        elem, ends := TakeAt(from, i - 1);
        if !ends {
          return;
        }
        PutOn(to, elem);
        i := i - 1;
      }
      assert s[..0] + s[n..] == s[n..] && s[0..n] + t == s[..n] + t;
    }

    method MoveAll(from: nat, to: nat) returns (ends: bool)
      requires from in stacks && to in stacks && from != to && Booked()
      modifies this`stacks, this`itemCount, this`size, this`diverged
      ensures if ends then Booked() else diverged && Endless()
      ensures ends ==> stacks == old(stacks)[from := []][to := old(stacks)[from] + old(stacks)[to]]
    {
      ghost var s := stacks[from];
      ends := MoveTop(from, to, |stacks[from]|);
      assert s[|s|..] == [] && s[..|s|] == s;
    }

    // ----- control opcodes

    /** Takes the top item, if there is one and the walk for it ends. */
    method PopItem() returns (x: Option<StackItem>)
      requires estack in stacks && Booked()
      modifies this`stacks, this`itemCount, this`size, this`diverged
      ensures x == None ==> if diverged then Endless() else Booked() && old(Current(Now())) == [] && Now() == old(Now())
      ensures x != None ==>
                old(Current(Now())) != [] && x.value == old(Current(Now()))[0] && Now() == old(Popped(Now()))
      ensures x != None ==> Booked() && (x.value.IsContainer() ==> x.value in heap)
    {
      x := None;
      if stacks[estack] != [] {
        var top, ends := TakeAt(estack, 0);
        if ends {
          assert Without(old(stacks)[estack], 0) == old(stacks)[estack][1..];
          x := Some(top);
        }
      }
    }

    method SetNextip(offset: nat)
      requires frames != []
      modifies this`frames
      ensures Now() == old(WithTop(Now(), Jumped(Top(Now()), offset)))
    {
      frames := [frames[0].(nextip := offset)] + frames[1..];
    }

    method ExecuteJump(op: byte, param: bytes) returns (ok: bool)
      requires WellFormed(Now()) && |param| == 2 && IsJump(op) && Booked()
      modifies this`frames, this`stacks, this`itemCount, this`size, this`diverged
      ensures if ok then Booked() && old(Jump(Now(), op, param)) == Some(Now())
              else if diverged then Endless() else old(Jump(Now(), op, param)) == None
    {
      assert FrameOk(frames[0], stacks);
      var offset := JumpOffset(frames[0], param, 0);
      if offset == None {
        return false;
      }
      var cond := true;
      if op != JMP {
        var x := PopItem();
        if x == None {
          return false;
        }
        cond := Truth(x.value) == (op == JMPIF);
      }
      if cond {
        SetNextip(offset.value);
      }
      return true;
    }

    /** A stack with nothing on it. */
    method NewItemStack() returns (id: nat)
      requires unused !in stacks && Booked()
      modifies this`stacks, this`unused
      ensures id == old(unused) && unused == id + 1 && stacks == old(stacks)[id := []] && Booked()
    {
      NewStack(stacks, unused);
      StacksKnownWith(heap, stacks, unused);
      id := unused;
      stacks, unused := stacks[unused := []], unused + 1;
    }

    method ExecuteCall(param: bytes) returns (ok: bool)
      requires WellFormed(Now()) && |param| == 2 && Booked()
      modifies this`frames, this`stacks, this`astack, this`unused
      ensures if ok then Booked() && old(Call(Now(), param)) == Some(Now()) else old(Call(Now(), param)) == None
    {
      if |frames| >= MAX_INVOCATION_STACK_SIZE {
        return false;
      }
      UnusedIsNew(Now());
      var alt := NewItemStack();
      var newCtx := frames[0].(rvcount := -1, alt := alt);
      astack := alt;
      frames := [newCtx] + frames;
      var offset := JumpOffset(newCtx, param, 0);
      if offset == None {
        return false;
      }
      SetNextip(offset.value);
      return true;
    }

    method LoadScript(prog: bytes, dyn: bool)
      requires unused !in stacks && Booked()
      modifies this`frames, this`stacks, this`astack, this`unused
      ensures Now() == old(Loaded(Now(), prog, dyn)) && Booked()
    {
      var alt := NewItemStack();
      frames := [Frame(0, 0, prog, -1, estack, alt, dyn)] + frames;
      astack := alt;
    }

    /** APPCALL and TAILCALL; a hash of zeros means that it is on the stack, and then dynamic calls must be allowed. */
    method ExecuteAppCall(op: byte, param: bytes) returns (ok: bool)
      requires WellFormed(Now()) && (op == APPCALL || op == TAILCALL) && Booked()
      modifies this`frames, this`stacks, this`astack, this`unused, this`itemCount, this`size, this`diverged
      ensures if ok then Booked() && old(AppCall(scripts, Now(), op == TAILCALL, param)) == Some(Now())
              else if diverged then Endless() else old(AppCall(scripts, Now(), op == TAILCALL, param)) == None
    {
      assert FrameOk(frames[0], stacks);
      UnusedIsNew(Now());
      var hash := param;
      if IsZero(param) {
        var x := PopItem();
        if x == None || TryBytes(x.value) == None || !frames[0].dyn {
          return false;
        }
        hash := TryBytes(x.value).value;
      }
      if op == APPCALL && |frames| >= MAX_INVOCATION_STACK_SIZE {
        return false;
      }
      if |hash| != 20 || scripts(hash) == None {
        return false;
      }
      var (prog, dyn) := scripts(hash).value;
      if op == TAILCALL {
        frames := frames[1..];
      }
      LoadScript(prog, dyn);
      return true;
    }

    method FindCallee(op: byte, param: bytes) returns (f: Option<Frame>)
      requires WellFormed(Now()) && IsIsolated(op) && |param| == FixedLength(op) && Booked()
      modifies this`stacks, this`itemCount, this`size, this`diverged
      ensures if f == None then if diverged then Endless() else old(Callee(scripts, Now(), op, param)) == None
              else Booked() && old(Callee(scripts, Now(), op, param)) == Some((f.value, Now()))
    {
      assert FrameOk(frames[0], stacks);
      if op == CALLI {
        return Some(frames[0]);
      }
      var hash := param[2..];
      if HashOnStack(op) {
        var x := PopItem();
        if x == None || TryBytes(x.value) == None {
          return None;
        }
        hash := TryBytes(x.value).value;
      }
      if |hash| != 20 || scripts(hash) == None {
        return None;
      }
      var (prog, dyn) := scripts(hash).value;
      return Some(Frame(0, 0, prog, 0, 0, 0, dyn));
    }

    /** Two new stacks, and the arguments moved to the first of them. */
    method MoveArguments(pcount: nat) returns (es: nat, alt: nat, ends: bool)
      requires WellFormed(Now()) && estack in stacks && pcount <= |Current(Now())| && Booked()
      modifies this`stacks, this`unused, this`itemCount, this`size, this`diverged
      ensures es == old(unused) && alt == es + 1 && unused == es + 2
      ensures if ends then Booked() else diverged && Endless()
      ensures var s := old(Current(Now()));
              ends ==> stacks == old(stacks)[estack := s[pcount..]][es := s[..pcount]][alt := []]
    {
      UnusedIsNew(Now());
      ghost var s := stacks[estack];
      es := NewItemStack();
      alt := NewItemStack();
      ends := MoveTop(estack, es, pcount);
      assert s[..pcount] + [] == s[..pcount];
      EnteredStacks(old(stacks), estack, es, alt, s[pcount..], s[..pcount]);
    }

    /** New stacks for the callee, and its arguments moved to the first of them. */
    method Enter(f: Frame, rvcount: int, pcount: nat, tailCall: bool) returns (ends: bool)
      requires WellFormed(Now()) && estack in stacks && pcount <= |Current(Now())| && Booked()
      modifies this`frames, this`stacks, this`estack, this`astack, this`unused, this`itemCount, this`size, this`diverged
      ensures if ends then Booked() && Now() == old(Entered(Now(), f, rvcount, pcount, tailCall))
              else diverged && Endless()
    {
      var es, alt;
      es, alt, ends := MoveArguments(pcount);
      if tailCall {
        frames := frames[1..];
      }
      frames := [f.(rvcount := rvcount, es := es, alt := alt)] + frames;
      estack, astack := es, alt;
    }

    method ExecuteIsolated(op: byte, param: bytes) returns (ok: bool)
      requires WellFormed(Now()) && IsIsolated(op) && |param| == FixedLength(op) && Booked()
      modifies this`frames, this`stacks, this`estack, this`astack, this`unused, this`itemCount, this`size, this`diverged
      ensures if ok then Booked() && old(CallIsolated(scripts, Now(), op, param)) == Some(Now())
              else if diverged then Endless() else old(CallIsolated(scripts, Now(), op, param)) == None
    {
      assert FrameOk(frames[0], stacks);
      if HashOnStack(op) && !frames[0].dyn {
        return false;
      }
      var rvcount, pcount: nat := param[0], param[1];
      if |stacks[estack]| < pcount + (if HashOnStack(op) then 1 else 0) {
        return false;
      }
      if IsTail(op) {
        if frames[0].rvcount != rvcount {
          return false;
        }
      } else if |frames| >= MAX_INVOCATION_STACK_SIZE {
        return false;
      }
      var newCtx := FindCallee(op, param);
      if newCtx == None {
        return false;
      }
      CalleeKeeps(scripts, old(Now()), op, param);
      ok := EnterCallee(newCtx.value, op, param);
    }

    /** Enters the callee; CALLI jumps on from there. */
    method EnterCallee(f: Frame, op: byte, param: bytes) returns (ok: bool)
      requires WellFormed(Now()) && |param| == FixedLength(op) >= 2 && (op == CALLI ==> |param| == 4)
      requires estack in stacks && param[1] <= |Current(Now())| && Booked()
      modifies this`frames, this`stacks, this`estack, this`astack, this`unused, this`itemCount, this`size, this`diverged
      ensures if ok then Booked() && old(AtCallee(Now(), f, op, param)) == Some(Now())
              else if diverged then Endless() else old(AtCallee(Now(), f, op, param)) == None
    {
      ok := Enter(f, param[0], param[1], IsTail(op));
      if ok && op == CALLI {
        var offset := JumpOffset(frames[0], param[2..], 2);
        ok := offset != None;
        if ok {
          SetNextip(offset.value);
        }
      }
    }

    method ExecuteRet() returns (ok: bool)
      requires WellFormed(Now()) && !halted && Booked()
      modifies this`frames, this`stacks, this`estack, this`astack, this`halted, this`itemCount, this`size, this`diverged
      ensures if ok then Booked() && old(Returned(Now())) == Some(Now())
              else if diverged then Endless() else old(Returned(Now())) == None
    {
      var oldCtx := frames[0];
      assert FrameOk(frames[0], stacks);
      frames := frames[1..];
      var rvcount := oldCtx.rvcount;
      if rvcount > 0 && |stacks[estack]| < rvcount {
        return false;
      }
      if |frames| == 0 {
        halted := true;
        return true;
      }
      assert FrameOk(old(frames)[1], stacks);
      var newCtx, ends := frames[0], true;
      if estack != newCtx.es {
        if rvcount < 0 {
          rvcount := |stacks[estack]|;
        }
        ends := MoveTop(estack, newCtx.es, rvcount);
        estack := newCtx.es;
      }
      if ends && rvcount == -1 && newCtx.alt != oldCtx.alt {
        ends := MoveAll(oldCtx.alt, newCtx.alt);
      }
      astack := newCtx.alt;
      return ends;
    }

    // ----- data

    /** A new container joins the heap; nothing refers to it yet. */
    method Make(c: StackItem, slots: seq<StackItem>) returns (ok: bool)
      requires Booked()
      modifies this`heap
      ensures Booked() && Extends(old(heap), heap)
      ensures ok ==> c !in old(heap) && heap == old(heap)[c := slots]
      ensures !ok ==> heap == old(heap)
      ensures c.IsContainer() && c !in old(heap) && slots == [] ==> ok
    {
      ok := c.IsContainer() && c !in heap && |slots| <= MAX_ARRAY_SIZE
            && forall x :: x in slots && x.IsContainer() ==> x in heap;
      if ok {
        MakeBooked(heap, Counts(), stacks, c, slots, unheld);
        heap := heap[c := slots];
      }
    }

    method Rearranged(c: StackItem, slots: seq<StackItem>) returns (ok: bool)
      requires Booked()
      modifies this`heap
      ensures Booked()
    {
      ok := c in heap && multiset(slots) == multiset(heap[c]);
      if ok {
        RearrangeBooked(heap, Counts(), stacks, c, slots, unheld);
        heap := heap[c := slots];
      }
    }

    method Overwritten(x: StackItem) returns (ok: bool)
      requires estack in stacks && Booked()
      modifies this`stacks
      ensures Booked() && estack in stacks && stacks == old(stacks)[estack := stacks[estack]]
    {
      ok := stacks[estack] != [] && !x.IsContainer() && !stacks[estack][0].IsContainer();
      if ok {
        OverwriteBooked(heap, Counts(), stacks, estack, x, unheld);
        stacks := stacks[estack := [x] + stacks[estack][1..]];
      }
    }

    method Reordered(id: nat, s: seq<StackItem>) returns (ok: bool)
      requires id in stacks && Booked()
      modifies this`stacks
      ensures Booked() && id in stacks && stacks == old(stacks)[id := stacks[id]]
    {
      ok := multiset(s) == multiset(stacks[id]);
      if ok {
        SameSlots(stacks, id, s);
        KnownSame(heap, stacks, id, s);
        stacks := stacks[id := s];
      }
    }

    /** One thing that a data opcode does to the current stacks and the heap. */
    method Act(act: Action) returns (ok: bool)
      requires estack in stacks && astack in stacks && Booked()
      modifies this`stacks, this`heap, this`itemCount, this`size, this`diverged
      ensures if ok then Booked() && Worked(old(Now()), Now()) else diverged ==> Endless()
    {
      match act {
        case Take(alt, n) =>
          var id := if alt then astack else estack;
          ok := n < |stacks[id]|;
          if ok {
            var x;
            x, ok := TakeAt(id, n);
          }
        case Put(alt, x) =>
          ok := x.IsContainer() ==> x in heap;
          if ok {
            PutOn(if alt then astack else estack, x);
          }
        case Reorder(alt, s) =>
          ok := Reordered(if alt then astack else estack, s);
        case Overwrite(x) =>
          ok := Overwritten(x);
        case MakeContainer(c, slots) =>
          ok := Make(c, slots);
        case Rearrange(c, slots) =>
          ok := Rearranged(c, slots);
      }
    }

    // ----- changing containers

    /** Takes n items from the top of the current stack. */
    method PopOperands(n: nat) returns (ok: bool, xs: seq<StackItem>)
      requires estack in stacks && Booked()
      modifies this`stacks, this`itemCount, this`size, this`diverged
      ensures !ok ==> if diverged then Endless() else |old(Current(Now()))| < n
      ensures ok ==> |old(Current(Now()))| >= n && xs == old(Current(Now()))[..n] && Booked()
      ensures ok ==> stacks == old(stacks)[estack := old(Current(Now()))[n..]]
      ensures ok ==> Covers(heap, xs)
    {
      ghost var s := stacks[estack];
      ok, xs := true, [];
      for i := 0 to n
        invariant ok && i <= |s| && xs == s[..i] && estack in stacks && Booked()
        invariant stacks == old(stacks)[estack := s[i..]] && Covers(heap, xs)
      {
        var x := PopItem();
        if x == None {
          ok := false;
          return;
        }
        assert s[i..][1..] == s[i + 1..];
        xs := xs + [x.value];
      }
    }

    /** What a value is stored as: a struct is cloned, which may take any number of new structs. */
    method Stored(item: StackItem) returns (val: StackItem)
      requires Booked() && (item.IsContainer() ==> item in heap)
      modifies this`heap
      ensures Booked() && StoredIn(old(heap), item, heap, val)
    {
      val := item;
      if item.Struct? {
        var clones: seq<(StackItem, seq<StackItem>)> := *;
        for i := 0 to |clones|
          invariant Booked() && Extends(old(heap), heap)
          invariant forall c {:trigger c in heap} :: c in heap && c !in old(heap) ==> c.Struct?
        {
          if clones[i].0.Struct? {
            var made := Make(clones[i].0, clones[i].1);
          }
        }
        val := NewStructOf();
      }
    }

    /** A new struct with some slots. */
    method NewStructOf() returns (val: StackItem)
      requires Booked()
      modifies this`heap
      ensures Booked() && Extends(old(heap), heap) && val.Struct? && val !in old(heap)
      ensures heap.Keys == old(heap).Keys + {val}
    {
      var st := new StructItem([]);
      val := Struct(st);
      assert val !in heap;
      var slots: seq<StackItem> := *;
      var made := Make(val, slots);
      if !made {
        made := Make(val, []);
      }
    }

    /** Changes a slot of t, uncounting and counting on the way. */
    method ChangeSlot(t: StackItem, e: Edit) returns (ends: bool)
      requires Booked() && t in heap && Fits(e, heap[t]) && KnownEdit(heap, e)
      requires |Applied(e, heap[t])| <= MAX_ARRAY_SIZE
      modifies this`heap, this`itemCount, this`size, this`diverged, this`unheld
      ensures if ends then Booked() && heap == old(heap)[t := Applied(e, old(heap)[t])] else diverged && Endless()
      ensures unheld <==> old(unheld) || !old(Safe(heap, AllSlots(stacks), itemCount.Keys, t, e))
    {
      ChangeBooked(heap, Counts(), stacks, t, e, unheld);
      unheld := unheld || !Safe(heap, AllSlots(stacks), itemCount.Keys, t, e);
      var r := Uncounted(heap, Tally(itemCount, size), t, e, |heap| + 1);
      ends := r != None;
      if ends {
        UncountedSane(heap, Counts(), t, e, |heap| + 1);
        var a := Recounted(heap, r.value, t, e);
        heap := heap[t := Applied(e, heap[t])];
        itemCount, size := a.itemCount, a.size;
      } else {
        diverged := true;
      }
    }

    /** The edit that the opcode asks for; in a map any slot can be the key's. */
    method EditFor(op: byte, t: StackItem, key: StackItem, val: StackItem) returns (ok: bool, e: Option<Edit>)
      requires Booked() && t in heap && (val.IsContainer() ==> val in heap)
      requires ChangedDepth(op) != None && KeyIsRight(op, key)
      ensures ok ==> Asks(op, t, heap[t], key, val, e)
      ensures !ok ==> Refuses(op, t, heap[t], key)
      ensures ok && e != None ==>
                Fits(e.value, heap[t]) && KnownEdit(heap, e.value) && |Applied(e.value, heap[t])| <= MAX_ARRAY_SIZE
    {
      assert t.IsContainer();
      var slots := heap[t];
      var k: int := *;
      if op != APPEND && IsList(t) {
        k := IndexOf(key);
      }
      ok, e := true, None;
      if op == APPEND {
        ok, e := IsList(t) && |slots| < MAX_ARRAY_SIZE, Some(Added(val));
      } else if 0 <= k < |slots| {
        e := Some(if op == SETITEM then Replaced(k, val) else Dropped(k));
      } else if op == SETITEM {
        ok, e := t.Map? && |slots| < MAX_ARRAY_SIZE, Some(Added(val));
      } else {
        ok := t.Map?;
      }
    }

    /** APPEND, SETITEM and REMOVE: the edit that is asked for, or a fault. */
    method ExecuteEdit(op: byte) returns (ok: bool, ghost ch: Change)
      requires WellFormed(Now()) && Booked() && ChangedDepth(op) != None
      modifies this`stacks, this`heap, this`itemCount, this`size, this`diverged, this`unheld
      ensures ok ==> Booked() && Edited(op, old(Now()), ch, Now())
      ensures !ok ==> if diverged then Endless() else old(CannotEdit(op, heap, Current(Now())))
      ensures old(unheld) ==> unheld
      ensures unheld ==> old(unheld) || !old(Reached(Now(), ChangedDepth(op).value))
    {
      UnusedIsNew(Now());
      ghost var s := Now();
      var d := ChangedDepth(op).value;
      ch := Change(heap, Boolean(false), None);
      var xs;
      ok, xs := PopOperands(d + 1);
      if ok {
        ok, ch := ChangeOperand(op, xs[d], xs[d - 1], xs[0]);
      }
    }

    /** The container, the key if the opcode takes one, and the value if it takes one. */
    method ChangeOperand(op: byte, t: StackItem, key: StackItem, item: StackItem) returns (ok: bool, ghost ch: Change)
      requires Booked() && ChangedDepth(op) != None && (t.IsContainer() ==> t in heap)
      requires (item.IsContainer() ==> item in heap)
      modifies this`heap, this`itemCount, this`size, this`diverged, this`unheld
      ensures ok ==> Booked() && Changes(op, old(heap), t, key, item, ch, heap)
      ensures !ok ==> if diverged then Endless() else old(Refuses(op, t, SlotsAt(heap, t), key))
      ensures old(unheld) ==> unheld
      ensures unheld ==> old(unheld) || !(t in old(heap) ==> old(Reachable(heap, AllSlots(stacks), t)))
    {
      ok, ch := KeyIsRight(op, key), Change(heap, item, None);
      var val := item;
      if ok && op != REMOVE {
        val := Stored(item);
      }
      ok := ok && t.IsContainer();
      if ok {
        ok, ch := ChangeStored(op, t, key, val, old(heap));
      }
    }

    /** With the value as it is stored; before is the heap without its clones. */
    method ChangeStored(op: byte, t: StackItem, key: StackItem, val: StackItem, ghost before: Graph)
      returns (ok: bool, ghost ch: Change)
      requires Booked() && ChangedDepth(op) != None && KeyIsRight(op, key) && (val.IsContainer() ==> val in heap)
      requires t in before && Extends(before, heap)
      modifies this`heap, this`itemCount, this`size, this`diverged, this`unheld
      ensures t in old(heap) && old(heap)[t] == before[t]
      ensures ok ==> Booked() && Asks(op, t, before[t], key, val, ch.e) && ch == Change(old(heap), val, ch.e)
      ensures ok ==> (ch.e != None ==> Fits(ch.e.value, before[t])) && heap == AfterChange(ch, t)
      ensures !ok ==> if diverged then Endless() else Refuses(op, t, before[t], key)
      ensures old(unheld) ==> unheld
      ensures unheld ==> old(unheld) || !old(Reachable(before, AllSlots(stacks), t))
    {
      assert t in heap && heap[t] == before[t];
      var e;
      ok, e := EditFor(op, t, key, val);
      ch := Change(heap, val, e);
      if ok && e != None {
        if !unheld && Reachable(before, AllSlots(stacks), t) {
          ReachableElsewhere(before, heap, AllSlots(stacks), t);
          ReachableIsSafe(heap, Counts(), AllSlots(stacks), t, e.value);
        }
        ok := ChangeSlot(t, e.value);
      }
    }

    /** Data opcodes other than the three below: any list of such things, or a fault. */
    method ExecuteData(op: byte) returns (ok: bool)
      requires WellFormed(Now()) && Booked()
      modifies this`stacks, this`heap, this`itemCount, this`size, this`diverged
      ensures if ok then Booked() && old(DataAllowed(op, heap, Current(Now()))) && Worked(old(Now()), Now())
              else diverged ==> Endless()
    {
      UnusedIsNew(Now());
      ok := DataAllowed(op, heap, stacks[estack]);
      if ok {
        var acts: seq<Action> := *;
        ok := ActAll(acts);
      }
    }

    method ActAll(acts: seq<Action>) returns (ok: bool)
      requires estack in stacks && astack in stacks && Booked()
      modifies this`stacks, this`heap, this`itemCount, this`size, this`diverged
      ensures if ok then Booked() && Worked(old(Now()), Now()) else diverged ==> Endless()
      decreases |acts|
    {
      ok := true;
      if acts != [] {
        ok := Act(acts[0]);
        if ok {
          ok := ActAll(acts[1..]);
        }
      }
    }

    // ----- one instruction

    method Dispatch(f: Fetched) returns (ok: bool)
      requires WellFormed(Now()) && !halted && Booked()
      requires |f.param| >= FixedLength(f.op) && (LengthBytes(f.op) == 0 ==> |f.param| == FixedLength(f.op))
      modifies this`frames, this`stacks, this`estack, this`astack, this`unused, this`halted
      modifies this`heap, this`itemCount, this`size, this`diverged, this`unheld
      ensures if ok then Booked() && Executes(scripts, old(Now()), f, Now())
              else if diverged then Endless() else old(MayFault(scripts, Now(), f))
      ensures old(unheld) ==> unheld
      ensures unheld ==> old(unheld) || (ChangedDepth(f.op) != None && !old(Reached(Now(), ChangedDepth(f.op).value)))
    {
      assert FrameOk(frames[0], stacks);
      if IsJump(f.op) {
        ok := ExecuteJump(f.op, f.param);
      } else if f.op == CALL {
        ok := ExecuteCall(f.param);
      } else if f.op == APPCALL || f.op == TAILCALL {
        ok := ExecuteAppCall(f.op, f.param);
      } else if f.op == RET {
        ok := ExecuteRet();
      } else if IsIsolated(f.op) {
        ok := ExecuteIsolated(f.op, f.param);
      } else if f.op == SYSCALL {
        return false;
      } else if ChangedDepth(f.op) != None {
        ghost var ch;
        ok, ch := ExecuteEdit(f.op);
      } else {
        ok := ExecuteData(f.op);
      }
    }

    predicate WithinLimit()
      reads this
    {
      priced && gasLimit > 0 ==> gasConsumed <= gasLimit
    }

    method Charge(op: byte) returns (ok: bool)
      requires WellFormed(Now()) && estack in stacks && WithinLimit()
      modifies this`gasConsumed
      ensures ok ==> Charged(old(Now()), op, priced, old(gasConsumed), gasConsumed) && WithinLimit()
      ensures !ok ==> !WithinLimit() || (priced && GetPrice(op, heap, stacks[estack]) == None)
    {
      UnusedIsNew(Now());
      ok := true;
      if priced && frames[0].ip < |frames[0].prog| {
        var price := GetPrice(op, heap, stacks[estack]);
        if price == None {
          return false;
        }
        gasConsumed := Int64(gasConsumed + price.value);
        ok := WithinLimit();
      }
    }

    /** Gas is charged and limited, and there is room for one more price. */
    predicate Metered()
      reads this
    {
      priced && 0 < gasLimit <= MAX_GAS_LIMIT
    }

    /** Under that limit the next instruction could overflow the gas. */
    predicate TooDear(op: byte)
      requires estack in stacks
      reads this
    {
      Metered() && Dear(op, heap, stacks[estack], gasLimit)
    }

    /** Neither failed nor out of hand. */
    predicate Running()
      reads this
    {
      !faulted && !diverged && !overpriced
    }

    /** Why an instruction has failed: it could not go through, or the size or the gas is above its limit. */
    ghost predicate Explained(s: Vm, f: Fetched)
      requires WellFormed(s) && s.estack in s.stacks && |f.param| >= FixedLength(f.op)
      reads this
    {
      || diverged || MayFault(scripts, s, f) || size > MAX_STACK_SIZE
      || !WithinLimit() || (priced && GetPrice(f.op, s.heap, Current(s)) == None)
    }

    /** The same for the next instruction of s; there may be none to fetch. */
    ghost predicate StepExplained(s: Vm)
      requires WellFormed(s) && s.estack in s.stacks
      reads this
    {
      assert FrameOk(s.frames[0], s.stacks);
      NextInstr(s) != None ==>
        var f := NextInstr(s).value;
        FetchedNext(s, f) && Explained(Advanced(s, f), f)
    }

    /** Executes an instruction, and checks the size behind it. */
    method Perform(f: Fetched) returns (ok: bool)
      requires WellFormed(Now()) && !halted && Booked() && !overpriced && size <= MAX_STACK_SIZE
      requires |f.param| >= FixedLength(f.op) && (LengthBytes(f.op) == 0 ==> |f.param| == FixedLength(f.op))
      modifies this`frames, this`stacks, this`estack, this`astack, this`unused, this`halted, this`overpriced
      modifies this`heap, this`itemCount, this`size, this`diverged, this`unheld
      ensures ok ==> Booked() && Executes(scripts, old(Now()), f, Now()) && size <= MAX_STACK_SIZE
      ensures !ok ==> diverged || size > MAX_STACK_SIZE || old(MayFault(scripts, Now(), f))
      ensures if ok then overpriced == old(TooDear(f.op)) else overpriced ==> old(TooDear(f.op))
      ensures (diverged ==> Endless()) && (overpriced ==> unheld)
      ensures old(unheld) ==> unheld
      ensures unheld ==> old(unheld) || (ChangedDepth(f.op) != None && !old(Reached(Now(), ChangedDepth(f.op).value)))
    {
      UnusedIsNew(Now());
      var dear := TooDear(f.op);
      ghost var s, t, exact := Now(), Counts(), !unheld;
      assert exact ==> InBooks(heap, Counts(), stacks, false);
      ok := Dispatch(f);
      if ok && dear && exact { SuccessIsCheap(scripts, s, f, Now(), t, gasLimit); }
      overpriced := ok && dear;
      ok := ok && size <= MAX_STACK_SIZE;
    }

    /** Charges and executes the instruction that was fetched. */
    method Execute(f: Fetched)
      requires WellFormed(Now()) && !halted && Booked() && Running() && size <= MAX_STACK_SIZE && WithinLimit()
      requires estack in stacks
      requires |f.param| >= FixedLength(f.op) && (LengthBytes(f.op) == 0 ==> |f.param| == FixedLength(f.op))
      modifies this
      ensures Running() ==>
                Booked() && Executes(scripts, old(Now()), f, Now()) && size <= MAX_STACK_SIZE && WithinLimit()
      ensures if Running() then !old(TooDear(f.op)) else overpriced ==> old(TooDear(f.op))
      ensures faulted ==> Explained(old(Now()), f)
      ensures Running() ==> Charged(old(Now()), f.op, priced, old(gasConsumed), gasConsumed)
      ensures (diverged ==> Endless()) && (overpriced ==> unheld)
      ensures old(unheld) ==> unheld
      ensures unheld ==> old(unheld) || (ChangedDepth(f.op) != None && !old(Reached(Now(), ChangedDepth(f.op).value)))
    {
      UnusedIsNew(Now());
      var ok := Charge(f.op);
      assert Now() == old(Now());
      if ok {
        ok := Perform(f);
      }
      faulted := !ok;
    }

    /** What the step from s says of a failure. */
    ghost predicate Accounted(s: Vm)
      reads this
    {
      && WellFormed(s) && s.estack in s.stacks
      && (faulted ==> StepExplained(s))
      && (assert FrameOk(s.frames[0], s.stacks); overpriced ==> Metered() && DearNext(s, gasLimit))
    }

    /** Fetches, charges and executes one instruction. */
    method Step()
      requires Good() && !halted && Running()
      modifies this
      ensures Running() ==> Good() && StepTo(scripts, old(Now()), Now())
      ensures (diverged ==> Endless()) && (overpriced ==> unheld)
      ensures old(unheld) ==> unheld
      ensures unheld ==> old(unheld) || !old(ChangesHeld(Now()))
      ensures Running() && Metered() && 0 <= old(gasConsumed) ==>
                GasOrCloser(old(Now()), Now(), old(gasConsumed), gasConsumed)
      ensures Running() && Metered() && 0 <= old(gasConsumed) ==>
                gasConsumed == old(gasConsumed) + PriceOf(old(Now()))
      ensures Accounted(old(Now()))
    {
      assert FrameOk(frames[0], stacks);
      UnusedIsNew(Now());
      var next := Decode(frames[0].prog, frames[0].nextip);
      if next == None {
        faulted := true;
      } else {
        FetchedSo(Now(), next.value);
        StepFetched(next.value);
      }
    }

    method StepFetched(f: Fetched)
      requires Good() && !halted && Running() && FetchedNext(Now(), f)
      modifies this
      ensures Running() ==> Good() && StepTo(scripts, old(Now()), Now())
      ensures (diverged ==> Endless()) && (overpriced ==> unheld)
      ensures old(unheld) ==> unheld
      ensures unheld ==> old(unheld) || !old(ChangesHeld(Now()))
      ensures Running() && Metered() && 0 <= old(gasConsumed) ==>
                GasOrCloser(old(Now()), Now(), old(gasConsumed), gasConsumed)
      ensures Running() && Metered() && 0 <= old(gasConsumed) ==>
                gasConsumed == old(gasConsumed) + PriceOf(old(Now()))
      ensures Accounted(old(Now()))
    {
      ghost var s, gas0 := Now(), gasConsumed;
      UnusedIsNew(s);
      ChangesWhat(s, f);
      frames := [frames[0].(ip := frames[0].nextip, nextip := f.next)] + frames[1..];
      assert Now() == Advanced(s, f);
      Execute(f);
      if Running() {
        StepDone(scripts, s, f, Now());
        if Metered() && 0 <= gas0 {
          StepUses(scripts, s, Now(), f, gas0, gasConsumed, gasLimit);
        }
      }
    }

    /** What holds while the VM runs. */
    ghost predicate Going()
      reads this
    {
      Good() && 0 <= gasConsumed <= gasLimit
    }

    /** How far the end is, as long as the VM runs. */
    ghost function StepsLeft(): (nat, nat, nat)
      reads this
    {
      if Running() && Going() && frames != [] then (gasLimit - gasConsumed, |frames|, BytesLeftOf(Now()))
      else (if gasConsumed <= gasLimit then gasLimit - gasConsumed else 0, 0, 0)
    }

    /**
      trace are the states that a step was taken from, beginning with s0; while the VM runs, the gas is what the
      instructions executed in them cost. The last step explains a failure. A
      walk that never ended met a cycle, and that, like a check that was too dear, goes back to a change of
      something unheld, which is in the trace unless there was one before.
     */
    ghost predicate Traced(trace: seq<Vm>, s0: Vm, was: bool)
      reads this
    {
      && trace != [] && trace[0] == s0 && IsRun(scripts, trace) && Accounted(trace[|trace| - 1])
      && (Running() ==> Going() && StepFrom(scripts, trace[|trace| - 1], Now()) && gasConsumed == CostOf(trace))
      && (diverged ==> Endless()) && (overpriced ==> unheld) && (unheld ==> was || Blamed(trace))
    }

    ghost predicate FewerThan(left: (nat, nat, nat))
      reads this
    {
      var n := StepsLeft();
      n.0 < left.0 || (n.0 == left.0 && (n.1 < left.1 || (n.1 == left.1 && n.2 < left.2)))
    }

    /** A step under a limit. */
    method StepCloser()
      requires Metered() && !halted && Running() && Going()
      modifies this
      ensures Running() ==> Going() && StepFrom(scripts, old(Now()), Now()) && FewerThan(old(StepsLeft()))
      ensures Running() ==> gasConsumed == old(gasConsumed) + PriceOf(old(Now()))
      ensures Accounted(old(Now())) && (diverged ==> Endless()) && (overpriced ==> unheld)
      ensures unheld ==> old(unheld) || !old(ChangesHeld(Now()))
    {
      Step();
    }

    /** One step more. */
    method StepOn(ghost trace: seq<Vm>, ghost s0: Vm, ghost was: bool) returns (ghost more: seq<Vm>)
      requires Metered() && !halted && Running() && Traced(trace, s0, was)
      modifies this
      ensures Traced(more, s0, was) && (Running() ==> FewerThan(old(StepsLeft())))
    {
      StatesGrow(scripts, trace, Now());
      CostGrows(trace, Now());
      more := trace + [Now()];
      StepCloser();
    }

    /**
      Runs until the VM halts or faults; trace are the states that a step was taken from. If each container
      that is changed on the way is held, the run ends so under any positive gas limit that leaves room for
      one more price. Otherwise it may still come to a walk that never ends, but only where the heap has a
      cycle, or to a check of so many keys that its price could overflow the gas.
     */
    method Run() returns (ghost trace: seq<Vm>)
      requires Good() && !halted && Running()
      requires Metered() && gasConsumed == 0
      modifies this
      ensures halted || faulted || diverged || overpriced
      ensures Traced(trace, old(Now()), old(unheld)) && (Running() ==> frames == [])
    {
      trace := [Now()];
      BlamedGrows([], Now());
      CostGrows([], Now());
      assert [] + [Now()] == [Now()];
      Step();
      while !halted && Running()
        invariant Traced(trace, old(Now()), old(unheld))
        decreases Running(), StepsLeft().0, StepsLeft().1, StepsLeft().2
      {
        trace := StepOn(trace, old(Now()), old(unheld));
      }
    }
  }

  lemma StatesGrow(scripts: Scripts, trace: seq<Vm>, s: Vm)
    requires IsRun(scripts, trace) && StepFrom(scripts, trace[|trace| - 1], s)
    ensures var more := trace + [s];
            && more[0] == trace[0] && more[|more| - 1] == s && IsRun(scripts, more)
            && (Blamed(trace) ==> Blamed(more)) && (WellFormed(s) && !ChangesHeld(s) ==> Blamed(more))
  {
    RunGrows(scripts, trace, s);
    BlamedGrows(trace, s);
  }

  lemma BlamedGrows(trace: seq<Vm>, s: Vm)
    ensures Blamed(trace) ==> Blamed(trace + [s])
    ensures WellFormed(s) && !ChangesHeld(s) ==> Blamed(trace + [s])
  {
    var more := trace + [s];
    assert more[|trace|] == s;
    if Blamed(trace) {
      var i :| 0 <= i < |trace| && WellFormed(trace[i]) && !ChangesHeld(trace[i]);
      assert more[i] == trace[i];
    }
  }

  /** Some step changed a container that was not held beside the operand. */
  ghost predicate Blamed(trace: seq<Vm>) {
    exists i {:trigger trace[i]} :: 0 <= i < |trace| && WellFormed(trace[i]) && !ChangesHeld(trace[i])
  }

  // ----- why runs end

  ghost predicate StepFrom(scripts: Scripts, s: Vm, t: Vm) {
    WellFormed(s) && !s.halted && StepTo(scripts, s, t)
  }

  lemma RunGrows(scripts: Scripts, trace: seq<Vm>, s: Vm)
    requires IsRun(scripts, trace) && StepFrom(scripts, trace[|trace| - 1], s)
    ensures IsRun(scripts, trace + [s])
  {
    var run := trace + [s];
    forall i | 0 <= i < |run| - 1 ensures StepAt(scripts, run, i) {
      if i < |trace| - 1 { assert StepAt(scripts, trace, i); }
    }
  }

  ghost function BytesLeftOf(s: Vm): nat
    requires Frames.Sound(s) && s.frames != []
  {
    assert FrameOk(s.frames[0], s.stacks);
    BytesLeft(s)
  }

  function BytesLeft(s: Vm): nat
    requires s.frames != [] && Top(s).nextip <= |Top(s).prog|
  {
    |Top(s).prog| - Top(s).nextip
  }

  /** A step that costs nothing ends a frame, or leaves fewer bytes of the script that it is in. */
  ghost predicate Closer(s: Vm, t: Vm)
    requires WellFormed(s) && Frames.Sound(t)
  {
    assert FrameOk(s.frames[0], s.stacks);
    || |t.frames| < |s.frames|
    || (&& |t.frames| == |s.frames| && t.frames != []
        && (assert FrameOk(t.frames[0], t.stacks); BytesLeft(t) < BytesLeft(s)))
  }

  lemma FreeStepIsCloser(scripts: Scripts, s: Vm, t: Vm)
    requires WellFormed(s) && !s.halted && StepTo(scripts, s, t) && Frames.Sound(t)
    requires Top(s).nextip == |Top(s).prog| || NextInstr(s).value.op <= NOP
    ensures Closer(s, t)
  {
    assert FrameOk(s.frames[0], s.stacks);
    var f := NextInstr(s).value;
    var u := Advanced(s, f);
    AdvancedOk(s);
    assert FrameOk(u.frames[0], u.stacks);
    if f.op != RET { assert t.frames == u.frames; }
  }

  /** While the books are exact nothing that goes through is too dear. */
  lemma SuccessIsCheap(scripts: Scripts, s: Vm, f: Fetched, u: Vm, t: Tally, limit: int)
    requires WellFormed(s) && s.estack in s.stacks && |f.param| >= FixedLength(f.op) && Executes(scripts, s, f, u)
    requires InBooks(s.heap, t, s.stacks, false) && t.size <= MAX_STACK_SIZE && limit <= MAX_GAS_LIMIT
    ensures !Dear(f.op, s.heap, Current(s), limit)
  {
    SuccessIsAllowed(scripts, s, f, u);
    NeverDear(f.op, s.heap, t, s.stacks, s.estack, limit);
  }

  /** A step that goes through and is not too dear uses gas, or gets closer to the end. */
  lemma StepCosts(scripts: Scripts, s: Vm, t: Vm, f: Fetched, limit: int)
    requires WellFormed(s) && !s.halted && StepTo(scripts, s, t) && Frames.Sound(t)
    requires s.estack in s.stacks && NextInstr(s) == Some(f) && !Dear(f.op, s.heap, Current(s), limit)
    requires 0 <= limit <= MAX_GAS_LIMIT
    ensures (Top(s).nextip == |Top(s).prog| || f.op <= NOP) ==> Closer(s, t)
    ensures !(Top(s).nextip == |Top(s).prog| || f.op <= NOP) ==>
              GetPrice(f.op, s.heap, Current(s)) != None && 0 < GetPrice(f.op, s.heap, Current(s)).value <= Room(limit)
  {
    assert FrameOk(s.frames[0], s.stacks);
    if Top(s).nextip == |Top(s).prog| || f.op <= NOP {
      FreeStepIsCloser(scripts, s, t);
    } else {
      AdvancedOk(s);
      DecodedLength(Top(s).prog, Top(s).nextip);
      SuccessIsAllowed(scripts, Advanced(s, f), f, t);
      PriceOfSuccess(f.op, s.heap, Current(s), limit);
    }
  }

  ghost predicate ComesNext(s: Vm, f: Fetched)
    requires WellFormed(s)
  {
    assert FrameOk(s.frames[0], s.stacks);
    NextInstr(s) == Some(f)
  }

  /** f is what comes next in s, and the state behind the fetch is in order. */
  ghost predicate FetchedNext(s: Vm, f: Fetched)
    requires WellFormed(s)
  {
    && ComesNext(s, f)
    && WellFormed(Advanced(s, f))
    && |f.param| >= FixedLength(f.op) && (LengthBytes(f.op) == 0 ==> |f.param| == FixedLength(f.op))
  }

  lemma FetchedSo(s: Vm, f: Fetched)
    requires WellFormed(s) && ComesNext(s, f)
    ensures FetchedNext(s, f)
  {
    AdvancedOk(s);
    DecodedLength(Top(s).prog, Top(s).nextip);
  }

  lemma ChangesWhat(s: Vm, f: Fetched)
    requires WellFormed(s) && FetchedNext(s, f) && s.estack in s.stacks
    ensures ChangesHeld(s) <==> ChangedDepth(f.op) == None || Reached(Advanced(s, f), ChangedDepth(f.op).value)
  {
  }

  lemma StepDone(scripts: Scripts, s: Vm, f: Fetched, t: Vm)
    requires WellFormed(s) && !s.halted && FetchedNext(s, f) && Executes(scripts, Advanced(s, f), f, t)
    ensures StepTo(scripts, s, t) && Frames.Sound(t)
  {
    StepSound(scripts, s, t);
  }

  /** More gas is used, or the end is closer. */
  ghost predicate GasOrCloser(s: Vm, t: Vm, gas0: int, gas1: int)
    requires WellFormed(s) && Frames.Sound(t)
  {
    gas0 < gas1 || (gas1 == gas0 && Closer(s, t))
  }

  lemma PaidGas(price: int, gas0: int, limit: int)
    requires 0 <= gas0 <= limit && 0 <= price <= Room(limit)
    ensures Int64(gas0 + price) == gas0 + price
  {
  }

  lemma StepUses(scripts: Scripts, s: Vm, t: Vm, f: Fetched, gas0: int, gas1: int, limit: int)
    requires WellFormed(s) && !s.halted && StepTo(scripts, s, t) && Frames.Sound(t)
    requires s.estack in s.stacks && NextInstr(s) == Some(f) && !Dear(f.op, s.heap, Current(s), limit)
    requires 0 <= gas0 <= limit <= MAX_GAS_LIMIT && Charged(Advanced(s, f), f.op, true, gas0, gas1)
    ensures GasOrCloser(s, t, gas0, gas1) && gas1 == gas0 + PriceOf(s)
  {
    assert FrameOk(s.frames[0], s.stacks);
    StepCosts(scripts, s, t, f, limit);
    if Top(s).nextip < |Top(s).prog| { PaidGas(GetPrice(f.op, s.heap, Current(s)).value, gas0, limit); }
  }

  lemma SuccessIsAllowed(scripts: Scripts, u: Vm, f: Fetched, t: Vm)
    requires WellFormed(u) && |f.param| >= FixedLength(f.op) && Executes(scripts, u, f, t) && u.estack in u.stacks
    ensures DataAllowed(f.op, u.heap, Current(u))
  {
  }

  // ----- the books behind what data opcodes do

  /** What Booked says of the state. */
  ghost predicate InBooks(heap: Graph, t: Tally, stacks: map<nat, seq<StackItem>>, unheld: bool) {
    && Sane(heap, t) && Small(heap) && StacksKnown(heap, stacks)
    && (!unheld ==> Exact(heap, t.itemCount, t.size, AllSlots(stacks)))
  }

  lemma PutBooked(heap: Graph, t: Tally, stacks: map<nat, seq<StackItem>>, id: nat, x: StackItem, unheld: bool)
    requires InBooks(heap, t, stacks, unheld) && id in stacks && (x.IsContainer() ==> x in heap)
    ensures InBooks(heap, AddOne(heap, t, x), stacks[id := [x] + stacks[id]], unheld)
  {
    KnownWith(heap, stacks, id, x);
    OnePut(stacks, id, x);
    if !unheld { AddIsExact(heap, t, AllSlots(stacks), x); }
  }

  lemma MakeBooked(heap: Graph, t: Tally, stacks: map<nat, seq<StackItem>>, c: StackItem, slots: seq<StackItem>,
                   unheld: bool)
    requires InBooks(heap, t, stacks, unheld) && c.IsContainer() && c !in heap && |slots| <= MAX_ARRAY_SIZE
    requires Covers(heap, slots)
    ensures InBooks(heap[c := slots], t, stacks, unheld) && Extends(heap, heap[c := slots])
  {
    var H := heap[c := slots];
    forall d | d in H ensures Covers(H, H[d]) {
      if d == c { assert Covers(heap, slots); } else { assert Covers(heap, heap[d]); }
    }
    StacksStillKnown(heap, H, stacks);
    if !unheld { ExactExtended(heap, H, t, AllSlots(stacks)); }
  }

  /** Only a cycle keeps a walk going for longer than there are containers. */
  lemma WalkedInCircles(heap: Graph, t: Tally, x: StackItem)
    requires Sane(heap, t) && Walk(heap, t, x, |heap| + 1) == None
    ensures Circular(heap)
  {
    EnoughFuel(heap, t, x);
    EndlessIsCircular(heap, t, x);
  }

  lemma ChangedKnown(heap: Graph, t: Tally, stacks: map<nat, seq<StackItem>>, c: StackItem, e: Edit)
    requires Sane(heap, t) && Small(heap) && StacksKnown(heap, stacks) && c in heap && Fits(e, heap[c])
    requires KnownEdit(heap, e)
    requires |Applied(e, heap[c])| <= MAX_ARRAY_SIZE && Uncounted(heap, t, c, e, |heap| + 1) != None
    ensures var r := Uncounted(heap, t, c, e, |heap| + 1).value; var H := heap[c := Applied(e, heap[c])];
            && Sane(heap, r) && Sane(H, Recounted(heap, r, c, e)) && Small(H) && StacksKnown(H, stacks)
            && Recounted(heap, r, c, e) == After(heap, t, c, e, |heap| + 1)
  {
    UncountedSane(heap, t, c, e, |heap| + 1);
    EditCovered(heap, c, e);
    StacksStillKnown(heap, heap[c := Applied(e, heap[c])], stacks);
  }

  /** A change keeps the books unless it is not safe; if it does not end, it is not safe and the heap has a cycle. */
  lemma ChangeBooked(heap: Graph, t: Tally, stacks: map<nat, seq<StackItem>>, c: StackItem, e: Edit, unheld: bool)
    requires InBooks(heap, t, stacks, unheld) && c in heap && Fits(e, heap[c]) && KnownEdit(heap, e)
    requires |Applied(e, heap[c])| <= MAX_ARRAY_SIZE
    ensures var w := Uncounted(heap, t, c, e, |heap| + 1);
            var after := unheld || !Safe(heap, AllSlots(stacks), t.itemCount.Keys, c, e);
            if w == None then after && Circular(heap)
            else
              && Sane(heap, w.value)
              && InBooks(heap[c := Applied(e, heap[c])], Recounted(heap, w.value, c, e), stacks, after)
  {
    if !unheld && Safe(heap, AllSlots(stacks), t.itemCount.Keys, c, e) { SafeEdit(heap, t, AllSlots(stacks), c, e); }
    if Uncounted(heap, t, c, e, |heap| + 1) != None { ChangedKnown(heap, t, stacks, c, e); }
    else { WalkedInCircles(heap, t, heap[c][e.at]); }
  }

  lemma RearrangeBooked(heap: Graph, t: Tally, stacks: map<nat, seq<StackItem>>, c: StackItem, slots: seq<StackItem>,
                        unheld: bool)
    requires InBooks(heap, t, stacks, unheld) && c in heap && multiset(slots) == multiset(heap[c])
    ensures InBooks(heap[c := slots], t, stacks, unheld)
  {
    var H, R := heap[c := slots], AllSlots(stacks);
    assert |slots| == |multiset(slots)| == |multiset(heap[c])| == |heap[c]|;
    assert Covers(heap, heap[c]);
    forall x | x in slots && x.IsContainer() ensures x in heap { assert x in multiset(slots); }
    ClosedRewritten(heap, c, slots);
    StacksStillKnown(heap, H, stacks);
    if !unheld {
      forall d | d in H ensures BalancedAt(H, t.itemCount, R, multiset{}, d) {
        assert BalancedAt(heap, t.itemCount, R, multiset{}, d);
        SlotsRewritten(heap, t.itemCount.Keys, c, slots, d);
      }
      SlotsRewritten(heap, t.itemCount.Keys, c, slots, c);
    }
  }

  lemma OverwriteBooked(heap: Graph, t: Tally, stacks: map<nat, seq<StackItem>>, id: nat, x: StackItem, unheld: bool)
    requires InBooks(heap, t, stacks, unheld) && id in stacks && stacks[id] != []
    requires !x.IsContainer() && !stacks[id][0].IsContainer()
    ensures InBooks(heap, t, stacks[id := [x] + stacks[id][1..]], unheld)
  {
    var p, rest := stacks[id][0], stacks[id := Without(stacks[id], 0)];
    assert Without(stacks[id], 0) == stacks[id][1..];
    assert rest[id := [x] + rest[id]] == stacks[id := [x] + stacks[id][1..]];
    OneTaken(stacks, id, 0);
    OnePut(rest, id, x);
    KnownWithout(heap, stacks, id, 0);
    KnownWith(heap, rest, id, x);
    if !unheld {
      PrimitiveExchanged(heap, t, AllSlots(stacks), AllSlots(stacks[id := [x] + stacks[id][1..]]), p, x);
    }
  }

  lemma PrimitiveExchanged(heap: Graph, t: Tally, R: multiset<StackItem>, R': multiset<StackItem>, p: StackItem,
                           x: StackItem)
    requires Exact(heap, t.itemCount, t.size, R) && p in R && R' == R - multiset{p} + multiset{x}
    requires !p.IsContainer() && !x.IsContainer()
    ensures Exact(heap, t.itemCount, t.size, R')
  {
    forall c | c in heap ensures BalancedAt(heap, t.itemCount, R', multiset{}, c) {
      assert BalancedAt(heap, t.itemCount, R, multiset{}, c);
    }
  }

  lemma StacksKnownWith(heap: Graph, stacks: map<nat, seq<StackItem>>, id: nat)
    requires StacksKnown(heap, stacks)
    ensures StacksKnown(heap, stacks[id := []])
  {
    assert Covers(heap, []);
  }

  lemma UnusedIsNew(s: Vm)
    requires WellFormed(s)
    ensures s.unused !in s.stacks && s.unused + 1 !in s.stacks && s.estack in s.stacks && s.astack in s.stacks
  {
    assert FrameOk(s.frames[0], s.stacks);
  }

  lemma EnteredStacks(stacks: map<nat, seq<StackItem>>, from: nat, es: nat, alt: nat, rest: seq<StackItem>,
                      args: seq<StackItem>)
    requires from in stacks && es !in stacks && alt !in stacks && es != alt
    ensures stacks[es := []][alt := []][from := rest][es := args] == stacks[from := rest][es := args][alt := []]
  {
  }

  /** With exact books the removal walk for a slot of a stack ends, and the books are exact without the slot. */
  lemma TakenEnds(heap: Graph, t: Tally, stacks: map<nat, seq<StackItem>>, id: nat, n: nat)
    requires id in stacks && n < |stacks[id]| && Exact(heap, t.itemCount, t.size, AllSlots(stacks))
    ensures var r := Walk(heap, t, stacks[id][n], |heap| + 1);
            r != None && Exact(heap, r.value.itemCount, r.value.size, AllSlots(stacks[id := Without(stacks[id], n)]))
  {
    OneTaken(stacks, id, n);
    AccountedExactly(heap, t, AllSlots(stacks), stacks[id][n]);
  }

  lemma NothingOnThem()
    ensures AllSlots(map[0 := [], 1 := [], 2 := []]) == multiset{}
  {
    var a: map<nat, seq<StackItem>>, b: map<nat, seq<StackItem>> := map[], map[0 := []];
    NewStack(a, 0);
    assert a[0 := []] == b;
    NewStack(b, 1);
    NewStack(b[1 := []], 2);
    assert b[1 := []][2 := []] == map[0 := [], 1 := [], 2 := []];
  }

  /** Finding the callee takes at most the hash off the stack. */
  lemma CalleeKeeps(scripts: Scripts, s: Vm, op: byte, param: bytes)
    requires WellFormed(s) && IsIsolated(op) && |param| == FixedLength(op) && s.estack in s.stacks
    requires Callee(scripts, s, op, param) != None
    ensures var t := Callee(scripts, s, op, param).value.1;
            && WellFormed(t) && t.estack == s.estack && t.estack in t.stacks
            && Current(t) == Current(s)[if HashOnStack(op) then 1 else 0..]
  {
    var t := Callee(scripts, s, op, param).value.1;
    forall i | 0 <= i < |t.frames| ensures FrameOk(t.frames[i], t.stacks) { assert FrameOk(s.frames[i], s.stacks); }
  }
}
