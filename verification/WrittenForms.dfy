/**
  The bytes that are written, by range and by kind, in literal numbers: variable-length numbers, emitted integers
  and byte strings, and serialized items.
 */
module WrittenForms {
  import opened Options
  import opened Bytes
  import opened TwosComplement
  import opened Items
  import opened Equality
  import opened BinIO
  import opened Contexts
  import opened Emit
  import opened ItemBytes

  /** The number that bytes stand for, lowest first, by position. */
  function Sum(b: bytes): nat { if b == [] then 0 else Sum(b[..|b| - 1]) + b[|b| - 1] * Weight(|b| - 1) }

  function Weight(i: nat): nat { if i == 0 then 1 else Weight(i - 1) * 256 }

  lemma {:induction false} WeightIsPower(i: nat)
    ensures Weight(i) == Pow256(i)
  {
    if i > 0 { WeightIsPower(i - 1); }
  }

  lemma {:induction false} UnsignedBehind(b: bytes, x: byte)
    ensures Unsigned(b + [x]) == Unsigned(b) + x * Weight(|b|)
  {
    if b == [] {
      assert b + [x] == [x] && Unsigned([x]) == x + 256 * Unsigned([]);
    } else {
      assert (b + [x])[1..] == b[1..] + [x];
      UnsignedBehind(b[1..], x);
      WeightIsPower(|b|);
      WeightIsPower(|b| - 1);
      assert 256 * (x * Weight(|b| - 1)) == x * (256 * Weight(|b| - 1));
    }
  }

  lemma {:induction false} SumIsUnsigned(b: bytes)
    ensures Sum(b) == Unsigned(b)
    decreases |b|
  {
    if b != [] {
      var n := |b| - 1;
      SumIsUnsigned(b[..n]);
      UnsignedBehind(b[..n], b[n]);
      assert b == b[..n] + [b[n]];
    }
  }

  // ----- numbers of variable length

  /** One, three, five or nine bytes; 0xFFFF and 0xFFFFFFFF take the longer form. */
  predicate NumberForm(n: nat, b: bytes) {
    if n <= 252 then b == [n]
    else if n <= 65534 then |b| == 3 && b[0] == 253 && Sum(b[1..]) == n
    else if n <= 4294967294 then |b| == 5 && b[0] == 254 && Sum(b[1..]) == n
    else |b| == 9 && b[0] == 255 && Sum(b[1..]) == n
  }

  lemma VarUintForm(n: uint64)
    ensures NumberForm(n, VarUint(n))
  {
    Powers();
    if n >= 0xfd {
      var k := if n < 0xFFFF then 2 else if n < 0xFFFF_FFFF then 4 else 8;
      assert VarUint(n)[1..] == LittleEndian(n, k);
      LittleEndianValue(n, k);
      SumIsUnsigned(LittleEndian(n, k));
    }
  }

  /** A form belongs to one number, and each number has one form. */
  lemma NumberFormOnce(m: uint64, n: uint64, b: bytes, c: bytes)
    requires NumberForm(m, b) && NumberForm(n, c)
    ensures b == c <==> m == n
  {
    if m == n && n > 252 {
      SumIsUnsigned(b[1..]);
      SumIsUnsigned(c[1..]);
      SameUnsigned(b[1..], c[1..]);
      assert b == [b[0]] + b[1..] && c == [c[0]] + c[1..];
    }
  }

  lemma {:induction false} SameUnsigned(b: bytes, c: bytes)
    requires |b| == |c| && Unsigned(b) == Unsigned(c)
    ensures b == c
  {
    if b != [] {
      var x: int, y: int := b[0], c[0];
      assert x == y && Unsigned(b[1..]) == Unsigned(c[1..]);
      SameUnsigned(b[1..], c[1..]);
      assert b == [b[0]] + b[1..] && c == [c[0]] + c[1..];
    }
  }

  // ----- what is emitted

  /** -1 to 15 are one opcode; any other integer is pushed as its bytes, of which no shorter string will do. */
  predicate IntForm(n: int, code: bytes) {
    if n == -1 then code == [79]
    else if n == 0 then code == [0]
    else if 1 <= n <= 15 then code == [80 + n]
    else 2 <= |code| <= 9 && code[0] == |code| - 1 && Signed(code[1..]) == n && Canonical(code[1..])
  }

  lemma EmittedInt(n: int64)
    ensures IntForm(n, WireOf(PushInt(n)).Code())
  {
    if !(-1 <= n <= 15) {
      Int64Fits(n);
      EncodeNonempty(n);
      SignedEncode(n);
      EncodeIsCanonical(n);
      assert WireOf(PushInt(n)).Code()[1..] == Encode(n);
    }
  }

  /** 16 has an opcode of its own, but is pushed as a byte. */
  lemma SixteenIsBytes()
    ensures WireOf(PushInt(16)).Code() == [1, 16]
  {
    assert Encode(16) == [16];
  }

  lemma IntFormOnce(m: int, n: int, b: bytes, c: bytes)
    requires IntForm(m, b) && IntForm(n, c)
    ensures b == c <==> m == n
  {
    if m == n && !(-1 <= n <= 15) {
      CanonicalIsEncode(b[1..]);
      CanonicalIsEncode(c[1..]);
      assert b == [b[0]] + b[1..] && c == [c[0]] + c[1..];
    }
  }

  /** The length is the opcode up to 75; beyond, one, two or four bytes behind an opcode hold it. */
  predicate DataForm(data: bytes, code: bytes) {
    var n := |data|;
    var k := if n <= 75 then 0 else if n <= 255 then 1 else if n <= 65535 then 2 else 4;
    && |code| == 1 + k + n && code[1 + k..] == data
    && code[0] == (if k == 0 then n else if k == 1 then 76 else if k == 2 then 77 else 78)
    && (k > 0 ==> Sum(code[1..1 + k]) == n)
  }

  lemma CodeParts(x: Wire)
    ensures var code, k := x.Code(), |x.len|;
            && |code| == 1 + k + |x.param| && code[0] == x.op && code[1..1 + k] == x.len && code[1 + k..] == x.param
  {
  }

  lemma LengthWritten(n: nat, k: nat)
    requires n < Pow256(k)
    ensures Sum(LittleEndian(n, k)) == n
  {
    LittleEndianValue(n, k);
    SumIsUnsigned(LittleEndian(n, k));
  }

  lemma BehindLength(data: bytes, op: byte, len: bytes)
    requires |data| > 75 && Sum(len) == |data|
    requires if |data| <= 255 then op == 76 && |len| == 1
             else if |data| <= 65535 then op == 77 && |len| == 2 else op == 78 && |len| == 4
    ensures DataForm(data, Wire(op, len, data).Code())
  {
    CodeParts(Wire(op, len, data));
  }

  lemma EmittedShort(data: bytes)
    requires |data| <= 255
    ensures DataForm(data, WireOfBytes(data).Code())
  {
    var n := |data|;
    if n <= 75 {
      CodeParts(Wire(n, [], data));
    } else {
      SumIsUnsigned([n]);
      OneByte([n]);
      BehindLength(data, 76, [n]);
    }
  }

  lemma EmittedMedium(data: bytes)
    requires 255 < |data| <= 65535
    ensures DataForm(data, WireOfBytes(data).Code())
  {
    Powers();
    LengthWritten(|data|, 2);
    BehindLength(data, 77, LittleEndian(|data|, 2));
  }

  lemma EmittedLong(data: bytes)
    requires 65535 < |data| < 0x1_0000_0000
    ensures DataForm(data, WireOfBytes(data).Code())
  {
    Powers();
    LengthWritten(|data|, 4);
    BehindLength(data, 78, LittleEndian(|data|, 4));
  }

  lemma EmittedData(data: bytes)
    requires |data| < 0x1_0000_0000
    ensures DataForm(data, WireOf(PushData(data)).Code())
  {
    if |data| <= 255 {
      EmittedShort(data);
    } else if |data| <= 65535 {
      EmittedMedium(data);
    } else {
      EmittedLong(data);
    }
  }

  // ----- serialized items

  /** A byte string with its length before it. */
  predicate StringForm(data: bytes, b: bytes) {
    exists k: nat {:trigger b[..k]} :: k <= |b| && NumberForm(|data|, b[..k]) && b[k..] == data
  }

  /** The type in the first byte; a byte string or the shortest bytes of an integer behind their length, or one byte. */
  ghost predicate LeafForm(x: StackItem, b: bytes) {
    match x
    case ByteArray(data) => b != [] && b[0] == 0 && StringForm(data, b[1..])
    case Boolean(v) => b == [1, if v then 1 else 0]
    case BigInteger(n) => b != [] && b[0] == 2 && exists c :: StringForm(c, b[1..]) && Canonical(c) && Signed(c) == n
    case _ => false
  }

  /** The type of a container. */
  function TypeNumber(kind: Kind): byte { if kind.KArray? then 128 else if kind.KStruct? then 129 else 130 }

  /** What stands for a tree: type, number of slots, and the slots in order, in a map each behind its key. */
  ghost predicate Spells(t: Tree, b: bytes)
    decreases t
  {
    match t
    case Leaf(x) => LeafForm(x, b)
    case Node(kind, keys, kids) => exists num, parts :: NodeSpelled(t, num, parts, b)
  }

  ghost predicate NodeSpelled(t: Tree, num: bytes, parts: seq<(bytes, bytes)>, b: bytes)
    requires t.Node?
    decreases t, 0
  {
    && b == [TypeNumber(t.kind)] + num + FlatPairs(parts)
    && NumberForm(|t.kids|, num) && |parts| == |t.kids|
    && (forall i {:trigger parts[i]} :: 0 <= i < |parts| ==> Spells(t.kids[i], parts[i].1))
    && if t.kind.KMap? then
         |t.keys| == |t.kids| && forall i {:trigger parts[i]} :: 0 <= i < |parts| ==> LeafForm(t.keys[i], parts[i].0)
       else forall i {:trigger parts[i]} :: 0 <= i < |parts| ==> parts[i].0 == []
  }

  function FlatPairs(parts: seq<(bytes, bytes)>): bytes {
    if parts == [] then [] else parts[0].0 + parts[0].1 + FlatPairs(parts[1..])
  }

  /** Nothing is longer than the format can say, keys are primitives, and there is one for each value of a map. */
  predicate Writable(t: Tree)
    decreases t
  {
    match t
    case Leaf(x) => LeafWritable(x)
    case Node(kind, keys, kids) =>
      && |kids| < TWO_TO_THE_64 && |keys| == (if kind == KMap then |kids| else 0)
      && (forall i {:trigger keys[i]} :: 0 <= i < |keys| ==> LeafWritable(keys[i]))
      && (forall i {:trigger kids[i]} :: 0 <= i < |kids| ==> Writable(kids[i]))
  }

  predicate LeafWritable(x: StackItem) {
    match x
    case ByteArray(data) => |data| < TWO_TO_THE_64
    case Boolean(_) => true
    case BigInteger(n) => |Encode(n)| < TWO_TO_THE_64
    case _ => false
  }

  lemma BehindItsLength(data: bytes, num: bytes)
    requires NumberForm(|data|, num)
    ensures StringForm(data, num + data)
  {
    assert (num + data)[..|num|] == num && (num + data)[|num|..] == data;
  }

  lemma StringWritten(data: bytes)
    requires |data| < TWO_TO_THE_64
    ensures StringForm(data, VarBytes(data))
  {
    VarUintForm(|data|);
    BehindItsLength(data, VarUint(|data|));
  }

  lemma LeafSpelled(x: StackItem)
    requires LeafWritable(x)
    ensures LeafForm(x, LeafBytes(x))
  {
    match x {
      case ByteArray(data) =>
        StringWritten(data);
        assert LeafBytes(x)[1..] == VarBytes(data);
      case Boolean(v) =>
      case BigInteger(n) =>
        StringWritten(Encode(n));
        SignedEncode(n);
        EncodeIsCanonical(n);
        assert LeafBytes(x)[1..] == VarBytes(Encode(n));
    }
  }

  lemma {:induction false} KidsSpelled(isMap: bool, keys: seq<StackItem>, kids: seq<Tree>)
    returns (parts: seq<(bytes, bytes)>)
    requires |keys| == (if isMap then |kids| else 0)
    requires forall i {:trigger keys[i]} :: 0 <= i < |keys| ==> LeafWritable(keys[i])
    requires forall i {:trigger kids[i]} :: 0 <= i < |kids| ==> Writable(kids[i])
    ensures |parts| == |kids| && FlatPairs(parts) == KidsBytes(keys, kids)
    ensures forall i {:trigger parts[i]} :: 0 <= i < |parts| ==>
              Spells(kids[i], parts[i].1) && if isMap then LeafForm(keys[i], parts[i].0) else parts[i].0 == []
    decreases kids
  {
    parts := [];
    if kids != [] {
      TreeSpelled(kids[0]);
      if isMap { LeafSpelled(keys[0]); }
      var rest := KidsSpelled(isMap, Later(keys), kids[1..]);
      parts := [(KeyFirst(keys), TreeBytes(kids[0]))] + rest;
      assert parts[1..] == rest;
    }
  }

  lemma NodeCode(kind: Kind, keys: seq<StackItem>, kids: seq<Tree>)
    requires |kids| < TWO_TO_THE_64
    ensures TreeBytes(Node(kind, keys, kids)) == [TypeNumber(kind)] + VarUint(|kids|) + KidsBytes(keys, kids)
  {
    NodeHead(kind, |kids|, KidsBytes(keys, kids));
  }

  lemma NodeHead(kind: Kind, n: uint64, body: bytes)
    ensures NodeBytes(kind, n, body) == [TypeNumber(kind)] + VarUint(n) + body
  {
    assert TypeByte(kind) == TypeNumber(kind);
  }

  lemma NodeSo(kind: Kind, keys: seq<StackItem>, kids: seq<Tree>, parts: seq<(bytes, bytes)>)
    requires |parts| == |kids| < TWO_TO_THE_64 && FlatPairs(parts) == KidsBytes(keys, kids)
    requires |keys| == (if kind == KMap then |kids| else 0)
    requires forall i {:trigger parts[i]} :: 0 <= i < |parts| ==>
               Spells(kids[i], parts[i].1) && if kind == KMap then LeafForm(keys[i], parts[i].0) else parts[i].0 == []
    ensures NodeSpelled(Node(kind, keys, kids), VarUint(|kids|), parts, TreeBytes(Node(kind, keys, kids)))
  {
    NodeCode(kind, keys, kids);
    VarUintForm(|kids|);
  }

  /** The bytes of a tree spell it. */
  lemma {:induction false} TreeSpelled(t: Tree)
    requires Writable(t)
    ensures Spells(t, TreeBytes(t))
    decreases t
  {
    match t {
      case Leaf(x) => LeafSpelled(x);
      case Node(kind, keys, kids) =>
        var parts := KidsSpelled(kind == KMap, keys, kids);
        NodeSo(kind, keys, kids, parts);
        assert NodeSpelled(t, VarUint(|kids|), parts, TreeBytes(t));
    }
  }

  lemma EntryAgain(n: nat, b: bytes, keys: seq<StackItem>, kids: seq<Tree>, k: StackItem, t: Tree, middle: bytes,
                   more: bytes)
    requires |keys| == |kids| && IsPrimitive(k) && PlaceOf(keys, k) < |keys|
    requires ParseItem(b) == Good(Leaf(k), middle) && ParseItem(middle) == Good(t, more)
    ensures ParseEntries(n + 1, b, keys, kids) == ParseEntries(n, more, keys, kids[PlaceOf(keys, k) := t])
  {
  }

  lemma EntriesRead(k: StackItem, t: Tree, u: Tree, rest: bytes)
    requires LeafFits(k) && ItemBytes.Fits(t) && ItemBytes.Fits(u)
    ensures ParseEntries(2, LeafBytes(k) + (TreeBytes(t) + (LeafBytes(k) + (TreeBytes(u) + rest))), [], []) ==
            GoodKids([k], [u], rest)
  {
    var last := TreeBytes(u) + rest;
    var second := LeafBytes(k) + last;
    var first := TreeBytes(t) + second;
    LeafRoundTrip(k, first);
    TreeRoundTrip(t, second);
    LeafRoundTrip(k, last);
    TreeRoundTrip(u, rest);
    EntryRead(1, LeafBytes(k) + first, [], [], k, t, first, second);
    assert [] + [k] == [k] && [] + [t] == [t];
    EntryAgain(0, second, [k], [t], k, u, last, rest);
    assert [t][0 := u] == [u];
  }

  lemma TwoEntriesRead(body: bytes)
    ensures ParseItem([130, 2] + body) ==
            match ParseEntries(2, body, [], [])
            case BadKids => Bad
            case GoodKids(keys, kids, more) => Good(Node(KMap, keys, kids), more)
  {
    assert ([130, 2] + body)[1..] == VarUint(2) + body;
    NodeRead([130, 2] + body, KMap, 2, body);
  }

  /** A map that is read with a key twice has it once, with the value that comes last. */
  lemma RepeatedKey(k: StackItem, t: Tree, u: Tree, rest: bytes)
    requires LeafFits(k) && ItemBytes.Fits(t) && ItemBytes.Fits(u)
    ensures ParseItem([130, 2] + (LeafBytes(k) + (TreeBytes(t) + (LeafBytes(k) + (TreeBytes(u) + rest))))) ==
            Good(Node(KMap, [k], [u]), rest)
  {
    var body := LeafBytes(k) + (TreeBytes(t) + (LeafBytes(k) + (TreeBytes(u) + rest)));
    EntriesRead(k, t, u, rest);
    TwoEntriesRead(body);
  }
}
