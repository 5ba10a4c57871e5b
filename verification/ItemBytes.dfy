/**
  The byte format of stack items, on trees: what is written for a tree, and what is read from any bytes.
  Reading undoes writing.
 */
module ItemBytes {
  import opened Options
  import opened Bytes
  import opened TwosComplement
  import opened Items
  import opened Equality
  import opened BinIO

  datatype Kind = KArray | KStruct | KMap

  /** An item with everything below it: a primitive, or a container of the trees in its slots. */
  datatype Tree = Leaf(item: StackItem) | Node(kind: Kind, keys: seq<StackItem>, kids: seq<Tree>)

  function TypeByte(kind: Kind): byte {
    match kind
    case KArray => 0x80
    case KStruct => 0x81
    case KMap => 0x82
  }

  function LeafBytes(x: StackItem): bytes {
    match x
    case ByteArray(data) => [0x00] + VarBytes(data)
    case Boolean(b) => [0x01, if b then 1 else 0]
    case BigInteger(n) => [0x02] + VarBytes(Encode(n))
    case _ => []
  }

  function NodeBytes(kind: Kind, n: nat, body: bytes): bytes { [TypeByte(kind)] + VarUint(Length(n)) + body }

  function TreeBytes(t: Tree): bytes
    decreases t, 0
  {
    match t
    case Leaf(x) => LeafBytes(x)
    case Node(kind, keys, kids) => NodeBytes(kind, |kids|, KidsBytes(keys, kids))
  }

  /** The slots one after the other, in a map each behind its key. */
  function KidsBytes(keys: seq<StackItem>, kids: seq<Tree>): bytes
    decreases kids, 0
  {
    if kids == [] then [] else KidBytes(keys, kids[0]) + KidsBytes(Later(keys), kids[1..])
  }

  function KidBytes(keys: seq<StackItem>, t: Tree): bytes
    decreases t, 1
  {
    KeyFirst(keys) + TreeBytes(t)
  }

  function KeyFirst(keys: seq<StackItem>): bytes { if keys == [] then [] else LeafBytes(keys[0]) }

  function Later(keys: seq<StackItem>): seq<StackItem> { if keys == [] then [] else keys[1..] }

  // ----- reading

  datatype Parsed = Bad | Good(tree: Tree, rest: bytes)
  datatype ParsedKids = BadKids | GoodKids(keys: seq<StackItem>, kids: seq<Tree>, more: bytes)

  /** Where a map files a key; behind the last one if it is new. */
  function PlaceOf(keys: seq<StackItem>, k: StackItem): (p: nat)
    ensures p <= |keys| && (p < |keys| ==> TryBytes(keys[p]) == TryBytes(k))
    ensures forall i :: 0 <= i < p ==> TryBytes(keys[i]) != TryBytes(k)
  {
    if keys == [] || TryBytes(keys[0]) == TryBytes(k) then 0 else PlaceOf(keys[1..], k) + 1
  }

  function ParseItem(b: bytes): (r: Parsed)
    ensures r.Good? ==> |r.rest| < |b|
    decreases |b|, 0
  {
    ParsedIsShorter(if b == [] then b else b[1..]);
    if b == [] then Bad
    else if b[0] == 0x00 then
      match ParseVarBytes(b[1..]) case None => Bad case Some((data, rest)) => Good(Leaf(ByteArray(data)), rest)
    else if b[0] == 0x01 then
      if b[1..] == [] then Bad else Good(Leaf(Boolean(b[1] != 0)), b[2..])
    else if b[0] == 0x02 then
      match ParseVarBytes(b[1..]) case None => Bad case Some((data, rest)) => Good(Leaf(BigInteger(Signed(data))), rest)
    else if b[0] in {0x80, 0x81} then
      match ParseVarUint(b[1..])
      case None => Bad
      case Some((n, rest)) =>
        if n >= TWO_TO_THE_64 / 2 then Bad
        else match ParseSlots(n, rest)
          case BadKids => Bad
          case GoodKids(_, kids, more) => Good(Node(if b[0] == 0x80 then KArray else KStruct, [], kids), more)
    else if b[0] == 0x82 then
      match ParseVarUint(b[1..])
      case None => Bad
      case Some((n, rest)) =>
        match ParseEntries(if n >= TWO_TO_THE_64 / 2 then 0 else n, rest, [], [])
        case BadKids => Bad
        case GoodKids(keys, kids, more) => Good(Node(KMap, keys, kids), more)
    else Bad
  }

  function ParseSlots(n: nat, b: bytes): (r: ParsedKids)
    ensures r.GoodKids? ==> |r.more| <= |b| && |r.kids| == n && r.keys == []
    decreases |b|, n + 1
  {
    if n == 0 then GoodKids([], [], b)
    else match ParseItem(b)
      case Bad => BadKids
      case Good(t, rest) =>
        match ParseSlots(n - 1, rest)
        case BadKids => BadKids
        case GoodKids(_, kids, more) => GoodKids([], [t] + kids, more)
  }

  /** Pairs are filed as they come; a key that is there already keeps its place and gets the new value. */
  function ParseEntries(n: nat, b: bytes, keys: seq<StackItem>, kids: seq<Tree>): (r: ParsedKids)
    requires |keys| == |kids|
    ensures r.GoodKids? ==> |r.more| <= |b| && |r.keys| == |r.kids|
    decreases |b|, n + 1
  {
    if n == 0 then GoodKids(keys, kids, b)
    else match ParseItem(b)
      case Bad => BadKids
      case Good(k, rest) =>
        match ParseItem(rest)
        case Bad => BadKids
        case Good(t, more) =>
          if !(k.Leaf? && IsPrimitive(k.item)) then BadKids
          else
            var p := PlaceOf(keys, k.item);
            if p < |keys| then ParseEntries(n - 1, more, keys, kids[p := t])
            else ParseEntries(n - 1, more, keys + [k.item], kids + [t])
  }

  // ----- reading undoes writing

  predicate LeafFits(x: StackItem) {
    match x
    case ByteArray(data) => |data| <= MAX_BYTES_SIZE
    case Boolean(_) => true
    case BigInteger(n) => |Encode(n)| <= MAX_BYTES_SIZE
    case _ => false
  }

  /** Byte strings within the reader's limit, lengths that fit a signed word, keys of maps pairwise different. */
  predicate Fits(t: Tree)
    decreases t
  {
    match t
    case Leaf(x) => LeafFits(x)
    case Node(kind, keys, kids) => |kids| < TWO_TO_THE_64 / 2 && KeysFit(kind, keys, kids) && KidsFit(kids)
  }

  predicate KidsFit(kids: seq<Tree>)
    decreases kids
  {
    forall i :: 0 <= i < |kids| ==> Fits(kids[i])
  }

  predicate KeysFit(kind: Kind, keys: seq<StackItem>, kids: seq<Tree>) {
    && |keys| == (if kind == KMap then |kids| else 0)
    && (forall i {:trigger keys[i]} :: 0 <= i < |keys| ==> LeafFits(keys[i]))
    && (forall i, j {:trigger keys[i], keys[j]} :: 0 <= i < j < |keys| ==> TryBytes(keys[i]) != TryBytes(keys[j]))
  }

  lemma BytesRead(kind: byte, data: bytes, rest: bytes)
    requires kind in {0x00, 0x02} && |data| <= MAX_BYTES_SIZE
    ensures ParseItem([kind] + VarBytes(data) + rest) ==
            Good(Leaf(if kind == 0x00 then ByteArray(data) else BigInteger(Signed(data))), rest)
  {
    assert ([kind] + VarBytes(data) + rest)[1..] == VarBytes(data) + rest;
    VarBytesRoundTrip(data, rest);
  }

  lemma LeafRoundTrip(x: StackItem, rest: bytes)
    requires LeafFits(x)
    ensures ParseItem(LeafBytes(x) + rest) == Good(Leaf(x), rest)
  {
    match x {
      case ByteArray(data) =>
        BytesRead(0x00, data, rest);
      case Boolean(v) =>
        assert (LeafBytes(x) + rest)[2..] == rest;
      case BigInteger(n) =>
        BytesRead(0x02, Encode(n), rest);
        SignedEncode(n);
    }
  }

  lemma NodeRead(b: bytes, kind: Kind, n: nat, body: bytes)
    requires n < TWO_TO_THE_64 / 2 && b != [] && b[0] == TypeByte(kind) && b[1..] == VarUint(n) + body
    ensures ParseItem(b) ==
            match if kind == KMap then ParseEntries(n, body, [], []) else ParseSlots(n, body)
            case BadKids => Bad
            case GoodKids(keys, kids, more) => Good(Node(kind, keys, kids), more)
  {
    VarUintRoundTrip(n, body);
  }

  lemma NodeParts(kind: Kind, n: nat, body: bytes, rest: bytes)
    requires n < TWO_TO_THE_64 / 2
    ensures var b := NodeBytes(kind, n, body) + rest; b[0] == TypeByte(kind) && b[1..] == VarUint(n) + (body + rest)
  {
  }

  lemma NodeRoundTrip(kind: Kind, keys: seq<StackItem>, kids: seq<Tree>, rest: bytes)
    requires |kids| < TWO_TO_THE_64 / 2
    requires (if kind == KMap then ParseEntries(|kids|, KidsBytes(keys, kids) + rest, [], [])
              else ParseSlots(|kids|, KidsBytes(keys, kids) + rest)) == GoodKids(keys, kids, rest)
    ensures ParseItem(TreeBytes(Node(kind, keys, kids)) + rest) == Good(Node(kind, keys, kids), rest)
  {
    NodeParts(kind, |kids|, KidsBytes(keys, kids), rest);
    NodeRead(TreeBytes(Node(kind, keys, kids)) + rest, kind, |kids|, KidsBytes(keys, kids) + rest);
  }

  /** Whatever follows it, a written tree is read as itself, to its last byte and not further. */
  lemma {:induction false} TreeRoundTrip(t: Tree, rest: bytes)
    requires Fits(t)
    ensures ParseItem(TreeBytes(t) + rest) == Good(t, rest)
    decreases t
  {
    if t.Leaf? {
      LeafRoundTrip(t.item, rest);
    } else if t.kind == KMap {
      assert [] + t.keys == t.keys && [] + t.kids == t.kids;
      EntriesRoundTrip([], [], t.keys, t.kids, rest);
      NodeRoundTrip(t.kind, t.keys, t.kids, rest);
    } else {
      SlotsRoundTrip(t.kids, rest);
      NodeRoundTrip(t.kind, [], t.kids, rest);
    }
  }

  lemma {:induction false} SlotsRoundTrip(kids: seq<Tree>, rest: bytes)
    requires KidsFit(kids)
    ensures ParseSlots(|kids|, KidsBytes([], kids) + rest) == GoodKids([], kids, rest)
    decreases kids
  {
    if kids == [] {
      assert KidsBytes([], kids) + rest == rest;
    } else {
      var tail := KidsBytes([], kids[1..]) + rest;
      assert [] + TreeBytes(kids[0]) == TreeBytes(kids[0]);
      Appended(TreeBytes(kids[0]), KidsBytes([], kids[1..]), rest);
      TreeRoundTrip(kids[0], tail);
      SlotsRoundTrip(kids[1..], rest);
    }
  }

  lemma EntryRead(n: nat, b: bytes, keys: seq<StackItem>, kids: seq<Tree>, k: StackItem, t: Tree, middle: bytes,
                  more: bytes)
    requires |keys| == |kids| && IsPrimitive(k) && PlaceOf(keys, k) == |keys|
    requires ParseItem(b) == Good(Leaf(k), middle) && ParseItem(middle) == Good(t, more)
    ensures ParseEntries(n + 1, b, keys, kids) == ParseEntries(n, more, keys + [k], kids + [t])
  {
  }

  lemma EntryBytes(keys: seq<StackItem>, kids: seq<Tree>, rest: bytes)
    requires keys != [] && kids != []
    ensures KidsBytes(keys, kids) + rest ==
            LeafBytes(keys[0]) + (TreeBytes(kids[0]) + (KidsBytes(keys[1..], kids[1..]) + rest))
  {
    Appended(LeafBytes(keys[0]) + TreeBytes(kids[0]), KidsBytes(keys[1..], kids[1..]), rest);
    Appended(LeafBytes(keys[0]), TreeBytes(kids[0]), KidsBytes(keys[1..], kids[1..]) + rest);
  }

  lemma OneMoreKey(done: seq<StackItem>, keys: seq<StackItem>, kids: seq<Tree>)
    requires keys != [] && kids != [] && KeysFit(KMap, keys, kids) && Apart(done, keys)
    ensures KeysFit(KMap, keys[1..], kids[1..]) && Apart(done + [keys[0]], keys[1..])
    ensures PlaceOf(done, keys[0]) == |done|
  {
  }

  /** No key of the one sequence is equal to one of the other. */
  predicate Apart(done: seq<StackItem>, keys: seq<StackItem>) {
    forall i, j {:trigger done[i], keys[j]} ::
      0 <= i < |done| && 0 <= j < |keys| ==> TryBytes(done[i]) != TryBytes(keys[j])
  }

  lemma Nothing<T>(a: seq<T>)
    ensures a + [] == a
  {
  }

  lemma Regrouped<T>(a: seq<T>, b: seq<T>)
    requires b != []
    ensures a + [b[0]] + b[1..] == a + b
  {
  }

  /** Each pair is appended: no key that was read before is met again. */
  lemma {:induction false} EntriesRoundTrip(done: seq<StackItem>, trees: seq<Tree>, keys: seq<StackItem>,
                                            kids: seq<Tree>, rest: bytes)
    requires KidsFit(kids) && KeysFit(KMap, keys, kids) && |done| == |trees| && Apart(done, keys)
    ensures ParseEntries(|kids|, KidsBytes(keys, kids) + rest, done, trees) == GoodKids(done + keys, trees + kids, rest)
    decreases kids
  {
    if kids == [] {
      assert keys == [];
      Nothing(done);
      Nothing(trees);
      assert KidsBytes(keys, kids) + rest == rest;
    } else {
      var k, t, tail := keys[0], kids[0], KidsBytes(keys[1..], kids[1..]) + rest;
      EntryBytes(keys, kids, rest);
      LeafRoundTrip(k, TreeBytes(t) + tail);
      TreeRoundTrip(t, tail);
      OneMoreKey(done, keys, kids);
      EntryRead(|kids| - 1, KidsBytes(keys, kids) + rest, done, trees, k, t, TreeBytes(t) + tail, tail);
      EntriesRoundTrip(done + [k], trees + [t], keys[1..], kids[1..], rest);
      Regrouped(done, keys);
      Regrouped(trees, kids);
    }
  }
}
