/** Arrays of arguments: the script that emits them, and what executing it leaves on the ring-list stack. */
module Packing {
  import opened Limits
  import opened Options
  import opened Bytes
  import opened TwosComplement
  import opened Items
  import opened SeqOps
  import opened RefCount
  import opened Equality
  import opened Conversions
  import opened ObjectOps
  import opened RingStack
  import opened StackOps
  import opened BinIO
  import opened Opcodes
  import opened Contexts
  import opened Emit

  // ----- PACK

  /** How many items PACK takes; nothing if it faults. */
  function PackCount(s: seq<StackItem>): Option<nat> {
    if s == [] then None
    else
      match NumberOf(s[0])
      case None => None
      case Some(n) => if 0 <= n < |s| && n <= MAX_ARRAY_SIZE then Some(n) else None
  }

  lemma PopOneMore(s: seq<StackItem>, i: nat)
    requires i < |s|
    ensures s[i..][0] == s[i] && s[i..][1..] == s[i + 1..] && s[..i + 1] == s[..i] + [s[i]]
  {
  }

  method PopItems(st: Stack, n: nat, ghost G: Graph, ghost O: multiset<StackItem>) returns (items: seq<StackItem>)
    requires AllContainers(G) && Booked(st, G, O) && n <= |st.Contents()|
    modifies st`ring, st`len, st.Nodes(), st.counters
    ensures Booked(st, G, O) && st.Nodes() <= old(st.Nodes())
    ensures items == old(st.Contents())[..n] && st.Contents() == old(st.Contents())[n..] && Covers(G, items)
    ensures NoContainers(items) ==> st.counters.size == old(st.counters.size) - n
  {
    ghost var s := st.Contents();
    items := [];
    for i := 0 to n
      invariant Booked(st, G, O) && st.Nodes() <= old(st.Nodes())
      invariant items == s[..i] && st.Contents() == s[i..] && Covers(G, items)
      invariant NoContainers(items) ==> st.counters.size == old(st.counters.size) - i
    {
      PopOneMore(s, i);
      var x := PopItem(st, G, O);
      NoContainersGrow(items, x.value);
      items := items + [x.value];
    }
  }

  predicate NoContainers(xs: seq<StackItem>) {
    forall i :: 0 <= i < |xs| ==> !xs[i].IsContainer()
  }

  lemma NoContainersGrow(xs: seq<StackItem>, x: StackItem)
    ensures NoContainers(xs + [x]) <==> NoContainers(xs) && !x.IsContainer()
  {
    assert (xs + [x])[|xs|] == x;
    if NoContainers(xs + [x]) { assert forall i :: 0 <= i < |xs| ==> (xs + [x])[i] == xs[i]; }
  }

  /** Primitive slots count one each. */
  lemma {:induction false} NoContainersCount(G: Graph, t: Tally, xs: seq<StackItem>)
    requires Sane(G, t) && Covers(G, xs) && NoContainers(xs)
    ensures AddAll(G, t, xs) == Tally(t.itemCount, t.size + |xs|)
    decreases |xs|
  {
    if xs != [] { NoContainersCount(G, AddOne(G, t, xs[0]), xs[1..]); }
  }

  lemma NewArrayCount(G: Graph, t: Tally, arr: StackItem)
    requires Sane(G, t) && arr in G && arr !in t.itemCount && NoContainers(G[arr])
    ensures AddOne(G, t, arr).size == t.size + 1 + |G[arr]|
  {
    AddOneOpens(G, t, arr);
    NoContainersCount(G, Alive(t, arr), G[arr]);
  }

  /** Pushes an item; grown is the element that came to the stack. */
  method PushGrown(st: Stack, x: StackItem, ghost G: Graph, ghost O: multiset<StackItem>)
    returns (ghost grown: set<Element>)
    requires AllContainers(G) && Booked(st, G, O) && Covered(G, x)
    modifies st`ring, st`len, st.ring`next, st.ring`prev, st.counters
    ensures Booked(st, G, O) && st.Contents() == [x] + old(st.Contents())
    ensures st.counters.Now() == AddOne(G, old(st.counters.Now()), x)
    ensures fresh(grown) && st.Nodes() <= old(st.Nodes()) + grown
  {
    ghost var before := st.Nodes();
    PushItem(st, x, G, O);
    grown := st.Nodes() - before;
  }

  /** Pushes a new array. */
  method PushArray(st: Stack, items: seq<StackItem>, ghost G: Graph, ghost rank: map<StackItem, nat>,
                   ghost O: multiset<StackItem>)
    returns (ghost arr: StackItem, ghost H: Graph, ghost rank': map<StackItem, nat>, ghost grown: set<Element>)
    requires Ranked(G, rank) && Booked(st, G, O) && Covers(G, items)
    modifies st`ring, st`len, st.Nodes(), st.counters
    ensures Ranked(H, rank') && Booked(st, H, O)
    ensures arr.Array? && arr !in G && H == G[arr := items] && st.Contents() == [arr] + old(st.Contents())
    ensures NoContainers(items) ==> st.counters.size == old(st.counters.size) + 1 + |items|
    ensures fresh(grown) && st.Nodes() <= old(st.Nodes()) + grown && fresh(arr.Obj())
  {
    var a;
    a, H, rank' := Make(st.counters, items, false, G, rank, O + multiset(st.Contents()));
    st.Kept();
    arr := a;
    if NoContainers(items) { NewArrayCount(H, st.counters.Now(), arr); }
    grown := PushGrown(st, a, H, O);
  }

  method PackTop(st: Stack, n: nat, ghost G: Graph, ghost rank: map<StackItem, nat>, ghost O: multiset<StackItem>)
    returns (ghost arr: StackItem, ghost H: Graph, ghost rank': map<StackItem, nat>, ghost grown: set<Element>)
    requires Ranked(G, rank) && Booked(st, G, O) && n <= |st.Contents()|
    modifies st`ring, st`len, st.Nodes(), st.counters
    ensures Ranked(H, rank') && Booked(st, H, O)
    ensures arr.Array? && arr !in G && H == G[arr := old(st.Contents())[..n]]
    ensures st.Contents() == [arr] + old(st.Contents())[n..]
    ensures NoContainers(old(st.Contents())[..n]) ==> st.counters.size == old(st.counters.size) + 1
    ensures fresh(grown) && st.Nodes() <= old(st.Nodes()) + grown && fresh(arr.Obj())
  {
    var items := PopItems(st, n, G, O);
    arr, H, rank', grown := PushArray(st, items, G, rank, O);
  }

  /** arr is a new array of as many items as the number on top says, and lies in their place. */
  ghost predicate IsPacked(G: Graph, s: seq<StackItem>, arr: StackItem, H: Graph, s': seq<StackItem>) {
    && PackCount(s) != None && arr.Array? && arr !in G && H == G[arr := s[1..PackCount(s).value + 1]]
    && H.Keys == G.Keys + {arr}
    && s' == [arr] + s[PackCount(s).value + 1..]
  }

  lemma PackedSo(G: Graph, s: seq<StackItem>, arr: StackItem, H: Graph, s': seq<StackItem>)
    requires PackCount(s) != None && arr.Array? && arr !in G && H == G[arr := s[1..PackCount(s).value + 1]]
    requires s' == [arr] + s[PackCount(s).value + 1..]
    ensures IsPacked(G, s, arr, H, s')
  {
  }

  predicate PacksNoContainers(s: seq<StackItem>) {
    PackCount(s) != None && NoContainers(s[1..PackCount(s).value + 1])
  }

  /** PACK with the number popped; s is what the stack held before. */
  method PackBehind(st: Stack, n: nat, ghost s: seq<StackItem>, ghost G: Graph, ghost rank: map<StackItem, nat>,
                    ghost O: multiset<StackItem>)
    returns (ghost arr: StackItem, ghost H: Graph, ghost rank': map<StackItem, nat>, ghost grown: set<Element>)
    requires Ranked(G, rank) && Booked(st, G, O) && PackCount(s) == Some(n) && st.Contents() == s[1..]
    modifies st`ring, st`len, st.Nodes(), st.counters
    ensures Ranked(H, rank') && Booked(st, H, O)
    ensures fresh(grown) && st.Nodes() <= old(st.Nodes()) + grown
    ensures IsPacked(G, s, arr, H, st.Contents()) && fresh(arr.Obj())
    ensures PacksNoContainers(s) ==> st.counters.size == old(st.counters.size) + 1
  {
    BehindFirst(s, n);
    arr, H, rank', grown := PackTop(st, n, G, rank, O);
    PackedSo(G, s, arr, H, st.Contents());
  }

  method Pack(st: Stack, ghost G: Graph, ghost rank: map<StackItem, nat>, ghost O: multiset<StackItem>)
    returns (ok: bool, ghost arr: StackItem, ghost H: Graph, ghost rank': map<StackItem, nat>,
             ghost grown: set<Element>)
    requires Ranked(G, rank) && Booked(st, G, O)
    modifies st`ring, st`len, st.Nodes(), st.counters
    ensures Ranked(H, rank') && Booked(st, H, O)
    ensures ok <==> PackCount(old(st.Contents())) != None
    ensures !ok ==> H == G
    ensures fresh(grown) && st.Nodes() <= old(st.Nodes()) + grown
    ensures ok ==> IsPacked(G, old(st.Contents()), arr, H, st.Contents()) && fresh(arr.Obj())
    ensures ok && PacksNoContainers(old(st.Contents())) ==> st.counters.size == old(st.counters.size)
  {
    arr, H, rank', grown := Boolean(false), G, rank, {};
    ghost var s := st.Contents();
    var n := PopNumber(st, G, O);
    ok := n != None && 0 <= n.value <= st.len && n.value <= MAX_ARRAY_SIZE;
    PackCountIs(s, n, ok);
    if ok {
      arr, H, rank', grown := PackBehind(st, n.value, s, G, rank, O);
    }
  }

  lemma PackCountIs(s: seq<StackItem>, n: Option<int>, ok: bool)
    requires n == if s == [] then None else NumberOf(s[0])
    requires n != None ==> (ok <==> 0 <= n.value <= |s| - 1 && n.value <= MAX_ARRAY_SIZE)
    requires n == None ==> !ok
    ensures PackCount(s) == if ok then Some(n.value) else None
  {
  }

  lemma BehindFirst(s: seq<StackItem>, n: nat)
    requires n < |s|
    ensures s[1..][..n] == s[1..n + 1] && s[1..][n..] == s[n + 1..]
  {
  }

  // ----- arrays of arguments

  datatype Argument = ArgInt(i: int64) | ArgBytes(b: bytes) | ArgBool(ok: bool) | Unsupported

  function EmissionOf(x: Argument): Emission
    requires !x.Unsupported?
  {
    match x
    case ArgInt(i) => PushInt(i)
    case ArgBytes(b) => PushData(b)
    case ArgBool(ok) => PushBool(ok)
  }

  /** The emissions for the arguments before position k, the last one first. */
  function Pushes(es: seq<Argument>, k: nat): seq<Emission>
    requires k <= |es| && forall i :: 0 <= i < k ==> !es[i].Unsupported?
  {
    if k == 0 then [] else [EmissionOf(es[k - 1])] + Pushes(es, k - 1)
  }

  function PackTail(n: int64): seq<Emission> { [PushInt(n), Opcode(PACK)] }

  function ArrayEmissions(es: seq<Argument>): seq<Emission>
    requires |es| < 0x8000_0000_0000_0000 && forall i :: 0 <= i < |es| ==> !es[i].Unsupported?
  {
    Pushes(es, |es|) + PackTail(|es|)
  }

  /** An argument of unsupported type is an error, and nothing is emitted behind it. */
  method EmitArray(w: BinWriter, es: seq<Argument>)
    requires |es| < 0x8000_0000_0000_0000
    modifies w
    ensures w.err <==> old(w.err) || exists i :: 0 <= i < |es| && es[i].Unsupported?
    ensures !w.err ==> w.buf == old(w.buf) + CodeOf(ArrayEmissions(es))
  {
    ghost var b0 := w.buf;
    var i := |es|;
    while i > 0
      invariant 0 <= i <= |es| && w.err == old(w.err) && forall k :: i <= k < |es| ==> !es[k].Unsupported?
      invariant !w.err && (forall k :: 0 <= k < i ==> !es[k].Unsupported?) ==>
                  b0 + CodeOf(Pushes(es, |es|)) == w.buf + CodeOf(Pushes(es, i))
    {
      i := i - 1;
      if es[i].Unsupported? {
        w.err := true;
        return;
      }
      ghost var b := w.buf;
      var e := EmissionOf(es[i]);
      EmitAny(w, e);
      if !w.err && forall k :: 0 <= k < i ==> !es[k].Unsupported? {
        FirstEmitted(e, Pushes(es, i), b);
      }
    }
    assert CodeOf(Pushes(es, 0)) == [];
    EmitPackTail(w, |es|, b0, Pushes(es, |es|));
  }

  method EmitPackTail(w: BinWriter, n: int64, ghost b0: bytes, ghost es: seq<Emission>)
    requires !w.err ==> b0 + CodeOf(es) == w.buf + []
    modifies w
    ensures w.err == old(w.err) && (!w.err ==> w.buf == b0 + CodeOf(es + PackTail(n)))
  {
    assert w.buf + [] == w.buf;
    TailEmitted(b0, es, PushInt(n), Opcode(PACK));
    EmitInt(w, n);
    EmitOpcode(w, PACK);
  }

  lemma FirstEmitted(e: Emission, rest: seq<Emission>, b: bytes)
    ensures b + CodeOf([e] + rest) == b + WireOf(e).Code() + CodeOf(rest)
  {
    assert ([e] + rest)[1..] == rest;
    Appended(b, WireOf(e).Code(), CodeOf(rest));
  }

  lemma TailEmitted(b: bytes, es: seq<Emission>, x: Emission, y: Emission)
    ensures b + CodeOf(es + [x, y]) == b + CodeOf(es) + WireOf(x).Code() + WireOf(y).Code()
  {
    CodeOfConcat(es, [x, y]);
    assert [x, y][1..] == [y];
    CodeOfOne(y);
    Appended(b + CodeOf(es), WireOf(x).Code(), WireOf(y).Code());
    Appended(b, CodeOf(es), CodeOf([x, y]));
  }

  // ----- executing such a script

  /** The items that arguments become. */
  function ItemsOf(es: seq<Argument>): (r: seq<StackItem>)
    requires forall i :: 0 <= i < |es| ==> !es[i].Unsupported?
    ensures |r| == |es| && forall i :: 0 <= i < |es| ==> r[i] == ItemOf(EmissionOf(es[i]))
  {
    seq(|es|, i requires 0 <= i < |es| => ItemOf(EmissionOf(es[i])))
  }

  lemma ArgumentIsPushed(x: Argument)
    requires !x.Unsupported?
    ensures IsPush(EmissionOf(x))
    ensures x.ArgBytes? ==> ItemOf(EmissionOf(x)) == ByteArray(x.b)
    ensures x.ArgInt? ==> IntegerOf(ItemOf(EmissionOf(x))) == Some(x.i)
    ensures x.ArgBool? ==> IntegerOf(ItemOf(EmissionOf(x))) == Some(if x.ok then 1 else 0)
  {
    match x {
      case ArgInt(i) => EmittedIntIsPushed(i);
      case ArgBytes(b) => EmittedBytesArePushed(b);
      case ArgBool(_) => assert Signed([]) == 0;
    }
  }

  /** Pushed last one first, the arguments lie on the stack in order. */
  lemma {:induction false} ArgumentsInOrder(es: seq<Argument>, k: nat)
    requires k <= |es| && forall i :: 0 <= i < |es| ==> !es[i].Unsupported?
    ensures AllPushes(Pushes(es, k)) && PushedBy(Pushes(es, k)) == ItemsOf(es)[..k]
    decreases k
  {
    if k > 0 {
      ArgumentsInOrder(es, k - 1);
      ArgumentIsPushed(es[k - 1]);
      PrefixGrows(ItemsOf(es), k - 1);
      OnePushMore(EmissionOf(es[k - 1]), Pushes(es, k - 1));
    }
  }

  lemma OnePushMore(e: Emission, es: seq<Emission>)
    requires IsPush(e) && AllPushes(es)
    ensures AllPushes([e] + es) && PushedBy([e] + es) == PushedBy(es) + [ItemOf(e)]
  {
    assert ([e] + es)[1..] == es;
  }

  /** Fetches the instruction of an emission; the stack is not touched. */
  method FetchListed(ctx: Context, st: Stack, ghost e: Emission, ghost rest: seq<Emission>, ghost G: Graph,
                     ghost O: multiset<StackItem>)
    returns (op: byte, param: bytes)
    requires ctx.Valid() && AllContainers(G) && Booked(st, G, O)
    requires Ahead(ctx.prog, ctx.nextip) == ListingOf([e] + rest)
    modifies ctx
    ensures ctx.Valid() && Booked(st, G, O) && st.Nodes() == old(st.Nodes()) && st.Contents() == old(st.Contents())
    ensures Ahead(ctx.prog, ctx.nextip) == ListingOf(rest)
    ensures op == WireOf(e).op && param == WireOf(e).param
  {
    NextEmitted(ctx.prog, ctx.nextip, e, rest);
    ObjectsAreContainers(G, ctx);
    var ok;
    op, param, ok := ctx.Next();
    ShowsKept(G);
    st.Kept();
  }

  /** Fetches and executes a push. */
  method PushNext(ctx: Context, st: Stack, ghost e: Emission, ghost rest: seq<Emission>, ghost G: Graph,
                  ghost O: multiset<StackItem>)
    requires ctx.Valid() && AllContainers(G) && Booked(st, G, O)
    requires Ahead(ctx.prog, ctx.nextip) == ListingOf([e] + rest) && IsPush(e)
    modifies ctx, st`ring, st`len, st.Nodes(), st.counters
    ensures ctx.Valid() && Booked(st, G, O) && fresh(st.Nodes() - old(st.Nodes()))
    ensures Ahead(ctx.prog, ctx.nextip) == ListingOf(rest)
    ensures st.Contents() == [ItemOf(e)] + old(st.Contents()) && st.counters.size == old(st.counters.size) + 1
  {
    var op, param := FetchListed(ctx, st, e, rest, G, O);
    PushIsPrimitive(e);
    PushItem(st, PushedItem(op, param).value, G, O);
  }

  lemma PushesUnrolled(es: seq<Emission>, tail: seq<Emission>, s: seq<StackItem>)
    ensures es == [] ==> es + tail == tail && PushedBy(es) + s == s
    ensures es != [] ==> es + tail == [es[0]] + (es[1..] + tail)
    ensures es != [] ==> PushedBy(es) + s == PushedBy(es[1..]) + ([ItemOf(es[0])] + s)
    ensures es != [] && AllPushes(es) ==> IsPush(es[0]) && AllPushes(es[1..])
  {
  }

  /**
    Executes n pushes, with the check of the size behind each of them; grown holds the elements that came to
    the stack.
   */
  method PushAll(ctx: Context, st: Stack, n: nat, ghost es: seq<Emission>, ghost tail: seq<Emission>,
                 ghost G: Graph, ghost O: multiset<StackItem>)
    returns (ok: bool, ghost grown: set<Element>)
    requires ctx.Valid() && AllContainers(G) && Booked(st, G, O) && st.counters.size <= MAX_STACK_SIZE
    requires Ahead(ctx.prog, ctx.nextip) == ListingOf(es + tail) && n == |es| && AllPushes(es)
    modifies ctx, st`ring, st`len, st.Nodes(), st.counters
    ensures ctx.Valid() && Booked(st, G, O) && fresh(grown) && st.Nodes() <= old(st.Nodes()) + grown
    ensures ok <==> old(st.counters.size) + n <= MAX_STACK_SIZE
    ensures ok ==> st.counters.size == old(st.counters.size) + n
    ensures ok ==> Ahead(ctx.prog, ctx.nextip) == ListingOf(tail) && st.Contents() == PushedBy(es) + old(st.Contents())
    decreases n
  {
    ok, grown := true, {};
    PushesUnrolled(es, tail, st.Contents());
    if n == 0 {
      return;
    }
    ghost var before := st.Nodes();
    PushNext(ctx, st, es[0], es[1..] + tail, G, O);
    ghost var between := st.Nodes();
    grown := between - before;
    if st.counters.size > MAX_STACK_SIZE {
      ok := false;
      return;
    }
    ghost var rest;
    ok, rest := PushAll(ctx, st, n - 1, es[1..], tail, G, O);
    grown := between - before + rest;
    GrownTwice(before, between, st.Nodes(), rest);
  }

  lemma GrownTwice(a: set<Element>, b: set<Element>, c: set<Element>, more: set<Element>)
    requires c <= b + more
    ensures c <= a + (b - a + more)
  {
  }

  /** Pushes the number and executes PACK, with the check of the size behind both. */
  method PackNext(ctx: Context, st: Stack, n: nat, ghost G: Graph, ghost rank: map<StackItem, nat>,
                  ghost O: multiset<StackItem>)
    returns (ok: bool, ghost arr: StackItem, ghost H: Graph, ghost rank': map<StackItem, nat>)
    requires ctx.Valid() && Ranked(G, rank) && Booked(st, G, O) && n <= |st.Contents()| && n < 0x8000_0000_0000_0000
    requires Ahead(ctx.prog, ctx.nextip) == ListingOf(PackTail(n)) && NoContainers(st.Contents()[..n])
    modifies ctx, st`ring, st`len, st.Nodes(), st.counters
    ensures Ranked(H, rank') && Booked(st, H, O)
    ensures ok <==> n <= MAX_ARRAY_SIZE && old(st.counters.size) + 1 <= MAX_STACK_SIZE
    ensures ok ==> arr.Array? && arr !in G && H == G[arr := old(st.Contents())[..n]]
    ensures ok ==> st.Contents() == [arr] + old(st.Contents())[n..] && st.counters.size == old(st.counters.size) + 1
  {
    NumberBefore(ItemOf(PushInt(n)), st.Contents(), n);
    assert PackTail(n) == [PushInt(n)] + [Opcode(PACK)];
    EmittedIntIsPushed(n);
    PushNext(ctx, st, PushInt(n), [Opcode(PACK)], G, O);
    ok, arr, H, rank' := st.counters.size <= MAX_STACK_SIZE, Boolean(false), G, rank;
    if ok {
      ok, arr, H, rank' := FetchAndPack(ctx, st, n, G, rank, O);
    }
  }

  lemma NumberBefore(x: StackItem, s: seq<StackItem>, n: nat)
    requires n <= |s|
    ensures ([x] + s)[0] == x && ([x] + s)[1..n + 1] == s[..n] && ([x] + s)[n + 1..] == s[n..]
  {
  }

  method FetchAndPack(ctx: Context, st: Stack, ghost n: nat, ghost G: Graph, ghost rank: map<StackItem, nat>,
                      ghost O: multiset<StackItem>)
    returns (ok: bool, ghost arr: StackItem, ghost H: Graph, ghost rank': map<StackItem, nat>)
    requires ctx.Valid() && Ranked(G, rank) && Booked(st, G, O) && st.counters.size <= MAX_STACK_SIZE
    requires Ahead(ctx.prog, ctx.nextip) == ListingOf([Opcode(PACK)])
    requires n < |st.Contents()| && n < 0x8000_0000_0000_0000 && IntegerOf(st.Contents()[0]) == Some(n)
    requires NoContainers(st.Contents()[1..n + 1])
    modifies ctx, st`ring, st`len, st.Nodes(), st.counters
    ensures Ranked(H, rank') && Booked(st, H, O)
    ensures ok <==> n <= MAX_ARRAY_SIZE
    ensures ok ==> arr.Array? && arr !in G && H == G[arr := old(st.Contents())[1..n + 1]]
    ensures ok ==> st.Contents() == [arr] + old(st.Contents())[n + 1..] && st.counters.size == old(st.counters.size)
  {
    PackCountOf(st.Contents(), n);
    assert [Opcode(PACK)] == [Opcode(PACK)] + [];
    var op, _ := FetchListed(ctx, st, Opcode(PACK), [], G, O);
    assert op == PACK;
    ghost var grown;
    ok, arr, H, rank', grown := Pack(st, G, rank, O);
    ok := ok && st.counters.size <= MAX_STACK_SIZE;
  }

  lemma PackCountOf(s: seq<StackItem>, n: nat)
    requires n < |s| && n < 0x8000_0000_0000_0000 && IntegerOf(s[0]) == Some(n)
    ensures PackCount(s) == if n <= MAX_ARRAY_SIZE then Some(n) else None
  {
  }

  /**
    Executing the script for an array: an array of the arguments, in order, on top of the stack. It faults
    if and only if there are more of them than an array may have, or they and their number do not fit.
   */
  method ExecuteArray(prog: bytes, st: Stack, n: nat, ghost es: seq<Argument>, ghost G: Graph,
                      ghost rank: map<StackItem, nat>, ghost O: multiset<StackItem>)
    returns (ok: bool, ghost arr: StackItem, ghost H: Graph, ghost rank': map<StackItem, nat>)
    requires n == |es| < 0x8000_0000_0000_0000 && forall k :: 0 <= k < |es| ==>
               !es[k].Unsupported? && Sound(EmissionOf(es[k]))
    requires prog == CodeOf(ArrayEmissions(es))
    requires Ranked(G, rank) && Booked(st, G, O) && st.counters.size <= MAX_STACK_SIZE
    modifies st`ring, st`len, st.Nodes(), st.counters
    ensures Ranked(H, rank') && Booked(st, H, O)
    ensures ok <==> |es| <= MAX_ARRAY_SIZE && old(st.counters.size) + |es| + 1 <= MAX_STACK_SIZE
    ensures ok ==> arr.Array? && arr !in G && H == G[arr := ItemsOf(es)] && st.Contents() == [arr] + old(st.Contents())
  {
    ghost var s0 := st.Contents();
    var ctx := new Context(prog);
    ShowsKept(G);
    st.Kept();
    ArrayListed(es);
    ArgumentsInOrder(es, n);
    assert ItemsOf(es)[..n] == ItemsOf(es);
    InFront(ItemsOf(es), s0);
    ItemsNoContainers(es);
    ghost var grown;
    ok, grown := PushAll(ctx, st, n, Pushes(es, n), PackTail(n), G, O);
    arr, H, rank' := Boolean(false), G, rank;
    if ok {
      ok, arr, H, rank' := PackNext(ctx, st, n, G, rank, O);
    }
  }

  lemma ItemsNoContainers(es: seq<Argument>)
    requires forall i :: 0 <= i < |es| ==> !es[i].Unsupported?
    ensures NoContainers(ItemsOf(es))
  {
    forall i | 0 <= i < |es| ensures !ItemsOf(es)[i].IsContainer() {
      ArgumentIsPushed(es[i]);
      PushIsPrimitive(EmissionOf(es[i]));
    }
  }

  lemma InFront(a: seq<StackItem>, b: seq<StackItem>)
    ensures (a + b)[..|a|] == a && (a + b)[|a|..] == b
  {
  }

  lemma {:induction false} PushesSound(es: seq<Argument>, k: nat)
    requires k <= |es| && forall i :: 0 <= i < k ==> !es[i].Unsupported? && Sound(EmissionOf(es[i]))
    ensures AllSound(Pushes(es, k)) && |Pushes(es, k)| == k
    decreases k
  {
    if k > 0 { PushesSound(es, k - 1); }
  }

  lemma AllSoundBoth(a: seq<Emission>, b: seq<Emission>)
    requires AllSound(a) && AllSound(b)
    ensures AllSound(a + b)
  {
  }

  lemma ArrayListed(es: seq<Argument>)
    requires |es| < 0x8000_0000_0000_0000 && forall k :: 0 <= k < |es| ==>
               !es[k].Unsupported? && Sound(EmissionOf(es[k]))
    ensures Ahead(CodeOf(ArrayEmissions(es)), 0) == ListingOf(Pushes(es, |es|) + PackTail(|es|))
    ensures |Pushes(es, |es|)| == |es|
  {
    var a, b := Pushes(es, |es|), PackTail(|es|);
    PushesSound(es, |es|);
    AllSoundBoth(a, b);
    ScriptListed(a + b);
  }
}
