/**
  Executing CHECKMULTISIG, and the whole of a multi-signature verification: signatures are pushed, the
  created script runs behind them, and what is left is whether the signatures match the sorted keys.
 */
module MultisigRun {
  import opened Limits
  import opened Options
  import opened Bytes
  import opened Items
  import opened Equality
  import opened Conversions
  import opened RingStack
  import opened StackOps
  import opened Opcodes
  import opened Contexts
  import opened Emit
  import opened Matching
  import opened MultisigPar
  import opened MultisigScript
  import opened Packing

  // ----- what the opcode takes off the stack

  function AllBytes(xs: seq<StackItem>): Option<seq<bytes>> {
    if xs == [] then Some([])
    else if TryBytes(xs[0]) == None || AllBytes(xs[1..]) == None then None
    else Some([TryBytes(xs[0]).value] + AllBytes(xs[1..]).value)
  }

  function AllArrays(xs: seq<StackItem>): Option<seq<bytes>> {
    if forall i :: 0 <= i < |xs| ==> xs[i].ByteArray?
    then Some(seq(|xs|, i requires 0 <= i < |xs| => if xs[i].ByteArray? then xs[i].data else []))
    else None
  }

  /** The keys or signatures on top of a stack and what lies below them, if they are well formed. */
  ghost function PoppedElements(G: Graph, s: seq<StackItem>): Option<(seq<bytes>, seq<StackItem>)> {
    if s == [] then None
    else if s[0].Array? && s[0] in G then
      if |G[s[0]]| < 1 || AllArrays(G[s[0]]) == None then None else Some((AllArrays(G[s[0]]).value, s[1..]))
    else CountedFrom(s[0], s[1..])
  }

  /** As many items as the number x says, and what lies below them. */
  function CountedFrom(x: StackItem, s: seq<StackItem>): Option<(seq<bytes>, seq<StackItem>)> {
    if NumberOf(x) == None then None
    else
      var n := NumberOf(x).value;
      if n < 1 || n > |s| || AllBytes(s[..n]) == None then None else Some((AllBytes(s[..n]).value, s[n..]))
  }

  lemma {:induction false} AllBytesOneMore(xs: seq<StackItem>, x: StackItem)
    ensures AllBytes(xs + [x]) == if AllBytes(xs) == None || TryBytes(x) == None then None
                                  else Some(AllBytes(xs).value + [TryBytes(x).value])
    decreases |xs|
  {
    if xs == [] {
      assert xs + [x] == [x] && [x][1..] == [];
      if TryBytes(x) != None {
        var b := TryBytes(x).value;
        assert [b] + [] == [b] && [] + [b] == [b];
      }
    } else {
      assert (xs + [x])[1..] == xs[1..] + [x];
      AllBytesOneMore(xs[1..], x);
      if AllBytes(xs) != None && TryBytes(x) != None {
        var a, r, b := TryBytes(xs[0]).value, AllBytes(xs[1..]).value, TryBytes(x).value;
        assert [a] + (r + [b]) == [a] + r + [b];
      }
    }
  }

  lemma {:induction false} AllBytesPrefix(xs: seq<StackItem>, i: nat)
    requires i <= |xs| && AllBytes(xs) != None
    ensures AllBytes(xs[..i]) != None
    decreases |xs|
  {
    if i > 0 {
      assert xs[..i][1..] == xs[1..][..i - 1];
      AllBytesPrefix(xs[1..], i - 1);
    }
  }

  method PopBytes(st: Stack, n: nat, ghost G: Graph, ghost O: multiset<StackItem>) returns (elems: Option<seq<bytes>>)
    requires AllContainers(G) && Booked(st, G, O) && n <= |st.Contents()|
    modifies st`ring, st`len, st.Nodes(), st.counters
    ensures Booked(st, G, O) && st.Nodes() <= old(st.Nodes())
    ensures elems == AllBytes(old(st.Contents())[..n])
    ensures elems != None ==> st.Contents() == old(st.Contents())[n..]
  {
    ghost var s := st.Contents();
    var list: seq<bytes> := [];
    for i := 0 to n
      invariant Booked(st, G, O) && st.Nodes() <= old(st.Nodes())
      invariant AllBytes(s[..i]) == Some(list) && st.Contents() == s[i..]
    {
      PopOneMore(s, i);
      AllBytesOneMore(s[..i], s[i]);
      var x := PopItem(st, G, O);
      var b := TryBytes(x.value);
      if b == None {
        NoBytes(s, i, n);
        return None;
      }
      list := list + [b.value];
    }
    return Some(list);
  }

  lemma NoBytes(s: seq<StackItem>, i: nat, n: nat)
    requires i < n <= |s| && AllBytes(s[..i + 1]) == None
    ensures AllBytes(s[..n]) == None
  {
    assert s[..n][..i + 1] == s[..i + 1];
    if AllBytes(s[..n]) != None { AllBytesPrefix(s[..n], i + 1); }
  }

  method ArrayElements(st: Stack, x: StackItem, ghost G: Graph, ghost O: multiset<StackItem>)
    returns (elems: Option<seq<bytes>>)
    requires AllContainers(G) && Booked(st, G, O) && x.Array? && x in G
    ensures Booked(st, G, O) && st.Nodes() == old(st.Nodes()) && st.Contents() == old(st.Contents())
    ensures elems == if |G[x]| < 1 then None else AllArrays(G[x])
  {
    var slots := SlotsOf(x, G);
    st.Kept();
    elems := if |slots| < 1 then None else AllArrays(slots);
  }

  /** The number has been popped: that many items follow. */
  method CountedElements(st: Stack, x: StackItem, ghost G: Graph, ghost O: multiset<StackItem>)
    returns (elems: Option<seq<bytes>>)
    requires AllContainers(G) && Booked(st, G, O) && !x.Array?
    modifies st`ring, st`len, st.Nodes(), st.counters
    ensures Booked(st, G, O) && st.Nodes() <= old(st.Nodes())
    ensures match CountedFrom(x, old(st.Contents()))
            case None => elems == None
            case Some((list, rest)) => elems == Some(list) && st.Contents() == rest
  {
    var n := NumberOf(x);
    if n == None || n.value < 1 || n.value > st.len {
      return None;
    }
    elems := PopBytes(st, n.value, G, O);
  }

  lemma ArrayPopped(G: Graph, s: seq<StackItem>)
    requires s != [] && s[0].Array? && s[0] in G
    ensures PoppedElements(G, s) == if |G[s[0]]| < 1 || AllArrays(G[s[0]]) == None then None
                                    else Some((AllArrays(G[s[0]]).value, s[1..]))
  {
  }

  /** Pops keys or signatures: an array of byte arrays, or a number and that many items. */
  method PopSigElements(st: Stack, ghost G: Graph, ghost O: multiset<StackItem>) returns (elems: Option<seq<bytes>>)
    requires AllContainers(G) && Booked(st, G, O)
    modifies st`ring, st`len, st.Nodes(), st.counters
    ensures Booked(st, G, O) && st.Nodes() <= old(st.Nodes())
    ensures match PoppedElements(G, old(st.Contents()))
            case None => elems == None
            case Some((list, rest)) => elems == Some(list) && st.Contents() == rest
  {
    ghost var s := st.Contents();
    var item := PopItem(st, G, O);
    if item == None {
      return None;
    }
    if item.value.Array? {
      ArrayPopped(G, s);
      elems := ArrayElements(st, item.value, G, O);
    } else {
      elems := CountedElements(st, item.value, G, O);
    }
  }

  // ----- CHECKMULTISIG

  /** Keys, signatures and what lies below them, if the opcode can be executed. */
  ghost function CheckOperands(G: Graph, s: seq<StackItem>): Option<(seq<bytes>, seq<bytes>, seq<StackItem>)> {
    match PoppedElements(G, s)
    case None => None
    case Some((pkeys, below)) =>
      match PoppedElements(G, below)
      case None => None
      case Some((sigs, rest)) => if |pkeys| < |sigs| then None else Some((pkeys, sigs, rest))
  }

  lemma {:induction false} AllBytesLength(xs: seq<StackItem>)
    ensures AllBytes(xs) != None ==> |AllBytes(xs).value| == |xs|
    decreases |xs|
  {
    if xs != [] { AllBytesLength(xs[1..]); }
  }

  lemma PoppedSome(G: Graph, s: seq<StackItem>)
    ensures PoppedElements(G, s) != None ==> |PoppedElements(G, s).value.0| >= 1
  {
    if s != [] && !(s[0].Array? && s[0] in G) && NumberOf(s[0]) != None {
      var n := NumberOf(s[0]).value;
      if 1 <= n <= |s[1..]| { AllBytesLength(s[1..][..n]); }
    }
  }

  method PopOperands(st: Stack, ghost G: Graph, ghost O: multiset<StackItem>)
    returns (args: Option<(seq<bytes>, seq<bytes>)>)
    requires AllContainers(G) && Booked(st, G, O)
    modifies st`ring, st`len, st.Nodes(), st.counters
    ensures Booked(st, G, O) && st.Nodes() <= old(st.Nodes())
    ensures match CheckOperands(G, old(st.Contents()))
            case None => args == None
            case Some((pkeys, sigs, rest)) =>
              args == Some((pkeys, sigs)) && |sigs| >= 1 && |pkeys| >= |sigs| && st.Contents() == rest
  {
    var pkeys := PopSigElements(st, G, O);
    if pkeys == None {
      return None;
    }
    PoppedSome(G, st.Contents());
    var sigs := PopSigElements(st, G, O);
    if sigs == None || |pkeys.value| < |sigs.value| {
      return None;
    }
    return Some((pkeys.value, sigs.value));
  }

  /** The verdict on operands, and the stack that it leaves. */
  ghost predicate Verdict(verify: Verifier, args: (seq<bytes>, seq<bytes>, seq<StackItem>), sigok: bool,
                          s: seq<StackItem>) {
    (sigok <==> Matchable(verify, args.0, args.1)) && s == [Boolean(sigok)] + args.2
  }

  /** CHECKMULTISIG, with a hash to check set or not. */
  method CheckMultisig(st: Stack, verify: Verifier, hashSet: bool, ghost G: Graph, ghost O: multiset<StackItem>)
    returns (ok: bool, sigok: bool)
    requires AllContainers(G) && Booked(st, G, O)
    modifies st`ring, st`len, st.Nodes(), st.counters
    ensures Booked(st, G, O)
    ensures ok <==> CheckOperands(G, old(st.Contents())) != None && hashSet
    ensures ok ==> Verdict(verify, CheckOperands(G, old(st.Contents())).value, sigok, st.Contents())
  {
    sigok := false;
    var args := PopOperands(st, G, O);
    if args == None || !hashSet {
      return false, sigok;
    }
    sigok := PushMatch(st, verify, args.value.0, args.value.1, G, O);
    ok := true;
  }

  method PushMatch(st: Stack, verify: Verifier, pkeys: seq<bytes>, sigs: seq<bytes>, ghost G: Graph,
                   ghost O: multiset<StackItem>)
    returns (sigok: bool)
    requires AllContainers(G) && Booked(st, G, O) && 1 <= |sigs| <= |pkeys|
    modifies st`ring, st`len, st.Nodes(), st.counters
    ensures Booked(st, G, O)
    ensures (sigok <==> Matchable(verify, pkeys, sigs)) && st.Contents() == [Boolean(sigok)] + old(st.Contents())
  {
    sigok := CheckMultisigPar(verify, pkeys, sigs);
    st.Kept();
    ShowsKept(G);
    PushItem(st, Boolean(sigok), G, O);
  }

  // ----- the run

  /** Executes a push, with the check of the size behind it. */
  method PushOne(ctx: Context, st: Stack, ghost e: Emission, ghost rest: seq<Emission>, ghost G: Graph,
                 ghost O: multiset<StackItem>)
    returns (ok: bool)
    requires AllContainers(G) && ctx.Valid() && Booked(st, G, O)
    requires Ahead(ctx.prog, ctx.nextip) == ListingOf([e] + rest) && IsPush(e)
    modifies ctx, st`ring, st`len, st.Nodes(), st.counters
    ensures ctx.Valid() && Booked(st, G, O) && fresh(st.Nodes() - old(st.Nodes()))
    ensures st.counters.size == old(st.counters.size) + 1 && (ok <==> st.counters.size <= MAX_STACK_SIZE)
    ensures Ahead(ctx.prog, ctx.nextip) == ListingOf(rest) && st.Contents() == [ItemOf(e)] + old(st.Contents())
  {
    PushNext(ctx, st, e, rest, G, O);
    ok := st.counters.size <= MAX_STACK_SIZE;
  }

  function Wrapped(ks: seq<bytes>): (r: seq<StackItem>)
    ensures |r| == |ks| && forall i :: 0 <= i < |ks| ==> r[i] == ByteArray(ks[i])
  {
    seq(|ks|, i requires 0 <= i < |ks| => ByteArray(ks[i]))
  }

  /** Pushed in order, keys and signatures lie on the stack in reverse. */
  lemma {:induction false} PushedReversed(ks: seq<bytes>)
    ensures AllPushes(KeyPushes(ks)) && PushedBy(KeyPushes(ks)) == Wrapped(Reverse(ks))
    decreases |ks|
  {
    forall i | 0 <= i < |ks| ensures IsPush(KeyPushes(ks)[i]) { EmittedBytesArePushed(ks[i]); }
    if ks != [] {
      PushedReversed(ks[1..]);
      EmittedBytesArePushed(ks[0]);
      assert KeyPushes(ks)[1..] == KeyPushes(ks[1..]);
      assert Wrapped(Reverse(ks)) == Wrapped(Reverse(ks[1..])) + [ByteArray(ks[0])];
    }
  }

  lemma {:induction false} WrappedBytes(ks: seq<bytes>)
    ensures AllBytes(Wrapped(ks)) == Some(ks)
    decreases |ks|
  {
    if ks != [] {
      assert Wrapped(ks)[1..] == Wrapped(ks[1..]);
      WrappedBytes(ks[1..]);
      assert [ks[0]] + ks[1..] == ks;
    }
  }

  lemma CountedPopped(G: Graph, x: StackItem, ks: seq<bytes>, below: seq<StackItem>)
    requires IntegerOf(x) == Some(|ks|) && 1 <= |ks| < 0x8000_0000_0000_0000
    ensures PoppedElements(G, [x] + (Wrapped(ks) + below)) == Some((ks, below))
  {
    assert ([x] + (Wrapped(ks) + below))[1..] == Wrapped(ks) + below;
    assert (Wrapped(ks) + below)[..|ks|] == Wrapped(ks) && (Wrapped(ks) + below)[|ks|..] == below;
    WrappedBytes(ks);
  }

  /** The operands that the pushed signatures and the created script leave for the check. */
  lemma OperandsPushed(G: Graph, sigs: seq<bytes>, ks: seq<bytes>)
    requires 1 <= |sigs| <= |ks| < 0x8000_0000_0000_0000
    ensures CheckOperands(G, [ItemOf(PushInt(|ks|))] +
                             (Wrapped(Reverse(ks)) + ([ItemOf(PushInt(|sigs|))] + Wrapped(Reverse(sigs))))) ==
            Some((Reverse(ks), Reverse(sigs), []))
  {
    EmittedIntIsPushed(|ks|);
    EmittedIntIsPushed(|sigs|);
    CountedPopped(G, ItemOf(PushInt(|sigs|)), Reverse(sigs), []);
    assert Wrapped(Reverse(sigs)) + [] == Wrapped(Reverse(sigs));
    CountedPopped(G, ItemOf(PushInt(|ks|)), Reverse(ks), [ItemOf(PushInt(|sigs|))] + Wrapped(Reverse(sigs)));
  }

  lemma KeyPushesSound(ks: seq<bytes>)
    requires forall i :: 0 <= i < |ks| ==> |ks[i]| <= MAX_ITEM_SIZE
    ensures AllSound(KeyPushes(ks)) && KeyPushes(ks) + [] == KeyPushes(ks)
  {
  }

  function RedeemTail(n: int64): seq<Emission> { [PushInt(n)] + ([Opcode(CHECKMULTISIG)] + []) }

  lemma RedeemListed(m: int64, ks: seq<bytes>)
    requires |ks| < 0x8000_0000_0000_0000 && forall i :: 0 <= i < |ks| ==> |ks[i]| <= MAX_ITEM_SIZE
    ensures Ahead(CodeOf(Redeem(m, ks)), 0) == ListingOf([PushInt(m)] + (KeyPushes(ks) + RedeemTail(|ks|)))
  {
    var es := [PushInt(m)] + (KeyPushes(ks) + RedeemTail(|ks|));
    assert Redeem(m, ks) == es;
    assert AllSound(es);
    ScriptListed(es);
  }

  /** The script with the signatures: they are pushed, and the script ends. */
  method RunSignatures(st: Stack, sigs: seq<bytes>, ghost G: Graph, ghost O: multiset<StackItem>) returns (ok: bool)
    requires AllContainers(G) && Booked(st, G, O) && st.counters.size <= MAX_STACK_SIZE
    requires forall i :: 0 <= i < |sigs| ==> |sigs[i]| <= MAX_ITEM_SIZE
    modifies st`ring, st`len, st.Nodes(), st.counters
    ensures Booked(st, G, O) && fresh(st.Nodes() - old(st.Nodes()))
    ensures ok <==> old(st.counters.size) + |sigs| <= MAX_STACK_SIZE
    ensures ok ==> st.counters.size == old(st.counters.size) + |sigs|
    ensures ok ==> st.Contents() == Wrapped(Reverse(sigs)) + old(st.Contents())
  {
    var ctx := Load(CodeOf(KeyPushes(sigs)), st, G, O);
    KeyPushesSound(sigs);
    ScriptListed(KeyPushes(sigs));
    PushedReversed(sigs);
    ghost var grown;
    ok, grown := PushAll(ctx, st, |sigs|, KeyPushes(sigs), [], G, O);
  }

  method FetchAndCheck(ctx: Context, st: Stack, verify: Verifier, ghost G: Graph, ghost O: multiset<StackItem>)
    returns (sigok: bool)
    requires AllContainers(G) && ctx.Valid() && Booked(st, G, O)
    requires Ahead(ctx.prog, ctx.nextip) == ListingOf([Opcode(CHECKMULTISIG)] + [])
    requires CheckOperands(G, st.Contents()) != None
    modifies ctx, st`ring, st`len, st.Nodes(), st.counters
    ensures Booked(st, G, O)
    ensures Verdict(verify, CheckOperands(G, old(st.Contents())).value, sigok, st.Contents())
  {
    var op, _ := FetchListed(ctx, st, Opcode(CHECKMULTISIG), [], G, O);
    assert op == CHECKMULTISIG;
    var ok;
    ok, sigok := CheckMultisig(st, verify, true, G, O);
  }

  /** The end of it: the number of keys is pushed, and the check is executed. */
  method RunCheck(ctx: Context, st: Stack, n: int64, verify: Verifier, ghost G: Graph, ghost O: multiset<StackItem>)
    returns (ok: bool, sigok: bool)
    requires AllContainers(G) && ctx.Valid() && Booked(st, G, O)
    requires Ahead(ctx.prog, ctx.nextip) == ListingOf([PushInt(n)] + ([Opcode(CHECKMULTISIG)] + []))
    requires CheckOperands(G, [ItemOf(PushInt(n))] + st.Contents()) != None
    modifies ctx, st`ring, st`len, st.Nodes(), st.counters
    ensures Booked(st, G, O)
    ensures ok <==> old(st.counters.size) + 1 <= MAX_STACK_SIZE
    ensures ok ==>
              Verdict(verify, CheckOperands(G, [ItemOf(PushInt(n))] + old(st.Contents())).value, sigok, st.Contents())
  {
    sigok := false;
    EmittedIntIsPushed(n);
    ok := PushOne(ctx, st, PushInt(n), [Opcode(CHECKMULTISIG)] + [], G, O);
    if ok {
      sigok := FetchAndCheck(ctx, st, verify, G, O);
    }
  }

  /**
    The whole verification on an empty stack, with a hash to check set: it leaves whether the signatures
    match the sorted keys in increasing order, unless the pushes do not fit on top of what is counted already.
   */
  method VerifyMultisig(st: Stack, m: int, publicKeys: array<PublicKey>, sigs: seq<bytes>, verify: Verifier,
                        ghost G: Graph, ghost O: multiset<StackItem>)
    returns (ok: bool, sigok: bool)
    requires AllContainers(G) && Booked(st, G, O) && st.Contents() == [] && st.counters.size <= MAX_STACK_SIZE
    requires 1 <= m <= publicKeys.Length < 0x8000_0000_0000_0000 && m <= 1024 && |sigs| == m
    requires forall i :: 0 <= i < |sigs| ==> |sigs[i]| <= MAX_ITEM_SIZE
    modifies st`ring, st`len, st.Nodes(), st.counters, publicKeys
    ensures Booked(st, G, O)
    ensures ok <==> old(st.counters.size) + m + publicKeys.Length + 2 <= MAX_STACK_SIZE
    ensures ok ==>
              (sigok <==> Matchable(verify, BytesOf(SortedKeys(old(publicKeys[..]))), sigs))
              && st.Contents() == [Boolean(sigok)]
  {
    ghost var ks := BytesOf(SortedKeys(publicKeys[..]));
    ObjectsAreContainers(G, publicKeys);
    var script := CreateMultiSigRedeemScript(m, publicKeys);
    st.Kept();
    ShowsKept(G);
    ok, sigok := VerifyScript(st, m, publicKeys.Length, ks, script.value, sigs, verify, G, O);
  }

  method VerifyScript(st: Stack, m: int64, n: nat, ghost ks: seq<bytes>, script: bytes, sigs: seq<bytes>,
                      verify: Verifier, ghost G: Graph, ghost O: multiset<StackItem>)
    returns (ok: bool, sigok: bool)
    requires AllContainers(G) && Booked(st, G, O) && st.Contents() == [] && st.counters.size <= MAX_STACK_SIZE
    requires 1 <= m <= n < 0x8000_0000_0000_0000 && m <= 1024 && |sigs| == m && |ks| == n
    requires script == CodeOf(Redeem(m, ks))
    requires forall i :: 0 <= i < |sigs| ==> |sigs[i]| <= MAX_ITEM_SIZE
    requires forall i :: 0 <= i < |ks| ==> |ks[i]| == 33
    modifies st`ring, st`len, st.Nodes(), st.counters
    ensures Booked(st, G, O)
    ensures ok <==> old(st.counters.size) + m + n + 2 <= MAX_STACK_SIZE
    ensures ok ==> (sigok <==> Matchable(verify, ks, sigs)) && st.Contents() == [Boolean(sigok)]
  {
    sigok := false;
    OnEmpty(Wrapped(Reverse(sigs)));
    ok := RunSignatures(st, sigs, G, O);
    if ok {
      RedeemListed(m, ks);
      OperandsOf(G, verify, m, sigs, ks);
      ok, sigok := RunLoaded(st, m, n, ks, script, verify, G, O);
    }
  }

  lemma OnEmpty(s: seq<StackItem>)
    ensures s + [] == s
  {
  }

  lemma OperandsOf(G: Graph, verify: Verifier, m: int64, sigs: seq<bytes>, ks: seq<bytes>)
    requires 1 <= |sigs| == m <= |ks| < 0x8000_0000_0000_0000
    ensures CheckOperands(G, Pushed(m, |ks|, ks, Wrapped(Reverse(sigs)))) == Some((Reverse(ks), Reverse(sigs), []))
    ensures Matchable(verify, Reverse(ks), Reverse(sigs)) <==> Matchable(verify, ks, sigs)
  {
    OperandsPushed(G, sigs, ks);
    ReverseBoth(verify, ks, sigs);
  }

  /** The keys are pushed, then the end of the script runs. */
  method RunKeys(ctx: Context, st: Stack, n: nat, ghost ks: seq<bytes>, verify: Verifier, ghost G: Graph,
                 ghost O: multiset<StackItem>)
    returns (ok: bool, sigok: bool)
    requires AllContainers(G) && ctx.Valid() && Booked(st, G, O) && st.counters.size <= MAX_STACK_SIZE
    requires |ks| == n < 0x8000_0000_0000_0000
    requires Ahead(ctx.prog, ctx.nextip) == ListingOf(KeyPushes(ks) + RedeemTail(n))
    requires CheckOperands(G, [ItemOf(PushInt(n))] + (Wrapped(Reverse(ks)) + st.Contents())) != None
    modifies ctx, st`ring, st`len, st.Nodes(), st.counters
    ensures Booked(st, G, O)
    ensures ok <==> old(st.counters.size) + n + 1 <= MAX_STACK_SIZE
    ensures ok ==>
              Verdict(verify,
                      CheckOperands(G, [ItemOf(PushInt(n))] + (Wrapped(Reverse(ks)) + old(st.Contents()))).value,
                      sigok, st.Contents())
  {
    sigok := false;
    PushedReversed(ks);
    ghost var grown;
    ok, grown := PushAll(ctx, st, n, KeyPushes(ks), RedeemTail(n), G, O);
    if ok {
      ok, sigok := RunCheck(ctx, st, n, verify, G, O);
    }
  }

  /** The count is pushed, then the keys and the rest. */
  method RunScript(ctx: Context, st: Stack, m: int64, n: nat, ghost ks: seq<bytes>, verify: Verifier, ghost G: Graph,
                   ghost O: multiset<StackItem>)
    returns (ok: bool, sigok: bool)
    requires AllContainers(G) && ctx.Valid() && Booked(st, G, O)
    requires |ks| == n < 0x8000_0000_0000_0000
    requires Ahead(ctx.prog, ctx.nextip) == ListingOf([PushInt(m)] + (KeyPushes(ks) + RedeemTail(n)))
    requires CheckOperands(G, Pushed(m, n, ks, st.Contents())) != None
    modifies ctx, st`ring, st`len, st.Nodes(), st.counters
    ensures Booked(st, G, O)
    ensures ok <==> old(st.counters.size) + n + 2 <= MAX_STACK_SIZE
    ensures ok ==> Verdict(verify, CheckOperands(G, Pushed(m, n, ks, old(st.Contents()))).value, sigok, st.Contents())
  {
    sigok := false;
    EmittedIntIsPushed(m);
    ok := PushOne(ctx, st, PushInt(m), KeyPushes(ks) + RedeemTail(n), G, O);
    if ok {
      ok, sigok := RunKeys(ctx, st, n, ks, verify, G, O);
    }
  }

  /** Loads a script; the stack is not touched. */
  method Load(script: bytes, st: Stack, ghost G: Graph, ghost O: multiset<StackItem>) returns (ctx: Context)
    requires AllContainers(G) && Booked(st, G, O)
    ensures fresh(ctx) && ctx.Valid() && ctx.prog == script && ctx.nextip == 0
    ensures Booked(st, G, O) && st.Contents() == old(st.Contents()) && st.Nodes() == old(st.Nodes())
  {
    ctx := new Context(script);
    ShowsKept(G);
    st.Kept();
  }

  /** Loads the script on the stack that the signatures were left on, and runs it. */
  method RunLoaded(st: Stack, m: int64, n: nat, ghost ks: seq<bytes>, script: bytes, verify: Verifier, ghost G: Graph,
                   ghost O: multiset<StackItem>)
    returns (ok: bool, sigok: bool)
    requires AllContainers(G) && Booked(st, G, O)
    requires |ks| == n < 0x8000_0000_0000_0000
    requires Ahead(script, 0) == ListingOf([PushInt(m)] + (KeyPushes(ks) + RedeemTail(n)))
    requires CheckOperands(G, Pushed(m, n, ks, st.Contents())) != None
    modifies st`ring, st`len, st.Nodes(), st.counters
    ensures Booked(st, G, O)
    ensures ok <==> old(st.counters.size) + n + 2 <= MAX_STACK_SIZE
    ensures ok ==> Verdict(verify, CheckOperands(G, Pushed(m, n, ks, old(st.Contents()))).value, sigok, st.Contents())
  {
    var ctx := Load(script, st, G, O);
    ok, sigok := RunScript(ctx, st, m, n, ks, verify, G, O);
  }

  /** The stack that the created script builds for the check. */
  function Pushed(m: int64, n: int64, ks: seq<bytes>, s: seq<StackItem>): seq<StackItem> {
    [ItemOf(PushInt(n))] + (Wrapped(Reverse(ks)) + ([ItemOf(PushInt(m))] + s))
  }
}
