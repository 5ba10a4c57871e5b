/**
  Recognising verification scripts. A script passes as a multi-signature contract exactly if it is a count,
  keys of 33 bytes, their number and CHECKMULTISIG, and nothing else; the keys are returned in order.
 */
module MultisigParse {
  import opened Limits
  import opened Options
  import opened Bytes
  import opened TwosComplement
  import opened Opcodes
  import opened Contexts
  import opened Emit
  import opened MultisigScript

  type Listed = seq<(byte, bytes)>

  /** The count that an instruction stands for, between 1 and 1024. Bytes count as unsigned here. */
  function GetNumOfThings(op: byte, param: bytes): Option<nat> {
    var n :=
      if PUSH1 <= op <= PUSH16 then op - PUSH1 + 1
      else if op == PUSHBYTES1 || op == PUSHBYTES2 then Unsigned(param)
      else 0;
    if n < 1 || n > MAX_ARRAY_SIZE then None else Some(n)
  }

  /** A count m, keys, their number n with m <= n, CHECKMULTISIG. */
  ghost predicate IsRedeemList(list: Listed, pubs: seq<bytes>) {
    && |list| == |pubs| + 3
    && GetNumOfThings(list[0].0, list[0].1) != None && GetNumOfThings(list[0].0, list[0].1).value <= |pubs|
    && (forall i {:trigger pubs[i]} :: 0 <= i < |pubs| ==> list[i + 1] == (PUSHBYTES33, pubs[i]))
    && GetNumOfThings(list[|pubs| + 1].0, list[|pubs| + 1].1) == Some(|pubs|)
    && list[|pubs| + 2] == (CHECKMULTISIG, [])
  }

  ghost predicate Redeems(script: bytes, pubs: seq<bytes>) {
    Ahead(script, 0) != None && IsRedeemList(Ahead(script, 0).value, pubs)
  }

  // ----- one instruction after the other

  /** What is left to fetch, behind what was fetched. */
  ghost predicate Fetching(ctx: Context, done: Listed)
    reads ctx
  {
    ctx.Valid() && Ahead(ctx.prog, 0) == Prepended(done, Ahead(ctx.prog, ctx.nextip))
  }

  /** Fetches the next instruction. Behind the last one there is a RET that the list does not show. */
  method Fetch(ctx: Context, ghost done: Listed) returns (op: byte, param: bytes, ok: bool)
    requires Fetching(ctx, done)
    modifies ctx`ip, ctx`nextip
    ensures !ok ==> Ahead(ctx.prog, 0) == None
    ensures ok && ctx.ip == |ctx.prog| ==> op == RET && Ahead(ctx.prog, 0) == Some(done)
    ensures ok && ctx.ip != |ctx.prog| ==> Fetching(ctx, done + [(op, param)])
    ensures ok && op == CHECKMULTISIG ==> param == []
    ensures ok && ctx.ip != |ctx.prog| ==> |param| >= FixedLength(op)
  {
    ghost var at := ctx.nextip;
    op, param, ok := ctx.Next();
    if ok {
      if ctx.ip == |ctx.prog| {
        NothingBehind(done);
      } else {
        NextPrepended(done, (op, param), Ahead(ctx.prog, ctx.nextip));
      }
    }
  }

  lemma NothingBehind(done: Listed)
    ensures Prepended(done, Some([])) == Some(done)
  {
    assert done + [] == done;
  }

  /** The list as far as it is known. */
  lemma KnownFront(script: bytes, done: Listed, rest: Option<Listed>)
    requires Ahead(script, 0) == Prepended(done, rest)
    ensures Ahead(script, 0) != None ==>
              |Ahead(script, 0).value| >= |done| && forall i :: 0 <= i < |done| ==> Ahead(script, 0).value[i] == done[i]
  {
  }

  // ----- the recogniser

  /** The instructions fetched so far: the count, and the keys. */
  ghost predicate KeysSoFar(done: Listed, pubs: seq<bytes>) {
    |done| == |pubs| + 1 && forall i {:trigger pubs[i]} :: 0 <= i < |pubs| ==> done[i + 1] == (PUSHBYTES33, pubs[i])
  }

  lemma KeyAt(done: Listed, pubs: seq<bytes>, k: nat)
    requires KeysSoFar(done, pubs) && k < |pubs|
    ensures done[k + 1].0 == PUSHBYTES33
  {
    assert done[k + 1] == (PUSHBYTES33, pubs[k]);
  }

  /** If something else than a key follows, the keys are those that were met. */
  lemma KeysSettled(list: Listed, done: Listed, pubs: seq<bytes>, ps: seq<bytes>)
    requires KeysSoFar(done, pubs) && |list| >= |done| && forall i :: 0 <= i < |done| ==> list[i] == done[i]
    requires IsRedeemList(list, ps)
    ensures |pubs| <= |ps| && |pubs| <= MAX_ARRAY_SIZE && forall i :: 0 <= i < |pubs| ==> ps[i] == pubs[i]
    ensures |list| == |done| || list[|done|].0 != PUSHBYTES33 ==> ps == pubs
  {
    if |pubs| > |ps| {
      KeyAt(done, pubs, |ps|);
    } else {
      forall i | 0 <= i < |pubs| ensures ps[i] == pubs[i] { assert list[i + 1] == (PUSHBYTES33, ps[i]); }
      if |pubs| < |ps| { assert list[|pubs| + 1] == (PUSHBYTES33, ps[|pubs|]); }
    }
  }

  ghost predicate Unredeemable(script: bytes) {
    forall ps {:trigger Redeems(script, ps)} :: !Redeems(script, ps)
  }

  /** Where a fetch has led: behind the last instruction, or one further. */
  ghost predicate LastFetched(ctx: Context, done: Listed, op: byte, param: bytes)
    reads ctx
  {
    if ctx.ip == |ctx.prog| then op == RET && Ahead(ctx.prog, 0) == Some(done) else Fetching(ctx, done + [(op, param)])
  }

  lemma CountMissing(ctx: Context, op: byte, param: bytes)
    requires LastFetched(ctx, [], op, param) && GetNumOfThings(op, param) == None
    ensures Unredeemable(ctx.prog)
  {
    if ctx.ip != |ctx.prog| {
      assert [] + [(op, param)] == [(op, param)];
      KnownFront(ctx.prog, [(op, param)], Ahead(ctx.prog, ctx.nextip));
    }
  }

  lemma TooManyKeys(ctx: Context, done: Listed, pubs: seq<bytes>)
    requires Fetching(ctx, done) && KeysSoFar(done, pubs) && |pubs| > MAX_ARRAY_SIZE
    ensures Unredeemable(ctx.prog)
  {
    KnownFront(ctx.prog, done, Ahead(ctx.prog, ctx.nextip));
    forall ps | Redeems(ctx.prog, ps) ensures false { KeysSettled(Ahead(ctx.prog, 0).value, done, pubs, ps); }
  }

  /** Collects keys up to the first other instruction. */
  method CollectKeys(ctx: Context, ghost first: (byte, bytes))
    returns (ok: bool, pubs: seq<bytes>, op: byte, param: bytes, ghost done: Listed)
    requires Fetching(ctx, [first])
    modifies ctx`ip, ctx`nextip
    ensures !ok ==> Unredeemable(ctx.prog)
    ensures ok ==> LastFetched(ctx, done, op, param) && op != PUSHBYTES33
    ensures ok ==> KeysSoFar(done, pubs) && |pubs| <= MAX_ARRAY_SIZE && done[0] == first
    ensures ok && op == CHECKMULTISIG ==> param == []
  {
    pubs, done := [], [first];
    while true
      invariant Fetching(ctx, done) && KeysSoFar(done, pubs) && |pubs| <= MAX_ARRAY_SIZE && done[0] == first
      decreases MAX_ARRAY_SIZE - |pubs|
    {
      op, param, ok := Fetch(ctx, done);
      if !ok {
        return;
      }
      if op != PUSHBYTES33 {
        break;
      }
      done, pubs := done + [(op, param)], pubs + [param];
      if |pubs| > MAX_ARRAY_SIZE {
        TooManyKeys(ctx, done, pubs);
        ok := false;
        return;
      }
    }
  }

  /** If it is a verification script, the keys are settled, and the instruction behind them is the one fetched. */
  lemma EndSettled(ctx: Context, done: Listed, pubs: seq<bytes>, op: byte, param: bytes, ps: seq<bytes>)
    requires KeysSoFar(done, pubs) && LastFetched(ctx, done, op, param) && op != PUSHBYTES33
    requires Redeems(ctx.prog, ps)
    ensures ps == pubs && GetNumOfThings(op, param) == Some(|pubs|) && GetNumOfThings(done[0].0, done[0].1) != None
    ensures GetNumOfThings(done[0].0, done[0].1).value <= |pubs| && ctx.ip != |ctx.prog|
  {
    var list := Ahead(ctx.prog, 0).value;
    if ctx.ip == |ctx.prog| {
      KeysSettled(list, done, pubs, ps);
    } else {
      KnownFront(ctx.prog, done + [(op, param)], Ahead(ctx.prog, ctx.nextip));
      KeysSettled(list, done, pubs, ps);
      assert list[|done|] == (op, param);
    }
  }

  /** The end of a verification script: CHECKMULTISIG, and nothing behind it. */
  method CheckEnd(ctx: Context, ghost done: Listed) returns (ok: bool)
    requires Fetching(ctx, done)
    modifies ctx`ip, ctx`nextip
    ensures ok <==> Ahead(ctx.prog, 0) == Some(done + [(CHECKMULTISIG, [])])
  {
    var op, param;
    op, param, ok := Fetch(ctx, done);
    if !ok {
      return;
    }
    if op != CHECKMULTISIG {
      LastDiffers(ctx, done, op, param);
      return false;
    }
    ghost var more := done + [(op, param)];
    op, param, ok := Fetch(ctx, more);
    if !ok {
      return;
    }
    ok := op == RET && ctx.ip == |ctx.prog|;
    if !ok { KnownFront(ctx.prog, more + [(op, param)], Ahead(ctx.prog, ctx.nextip)); }
  }

  lemma LastDiffers(ctx: Context, done: Listed, op: byte, param: bytes)
    requires LastFetched(ctx, done, op, param) && op != CHECKMULTISIG
    ensures Ahead(ctx.prog, 0) != Some(done + [(CHECKMULTISIG, [])])
  {
    if ctx.ip != |ctx.prog| {
      KnownFront(ctx.prog, done + [(op, param)], Ahead(ctx.prog, ctx.nextip));
      if Ahead(ctx.prog, 0) != None { assert Ahead(ctx.prog, 0).value[|done|] == (op, param); }
    }
  }

  lemma Redeemed(script: bytes, done: Listed, pubs: seq<bytes>, x: (byte, bytes))
    requires KeysSoFar(done, pubs) && GetNumOfThings(x.0, x.1) == Some(|pubs|)
    requires GetNumOfThings(done[0].0, done[0].1) != None && GetNumOfThings(done[0].0, done[0].1).value <= |pubs|
    requires Ahead(script, 0) == Some(done + [x] + [(CHECKMULTISIG, [])])
    ensures Redeems(script, pubs)
  {
    var list := done + [x] + [(CHECKMULTISIG, [])];
    assert list[..|done|] == done;
    forall i | 0 <= i < |pubs|
      ensures list[i + 1] == (PUSHBYTES33, pubs[i])
    {
      assert done[i + 1] == (PUSHBYTES33, pubs[i]);
    }
  }

  lemma EndForced(ctx: Context, done: Listed, pubs: seq<bytes>, op: byte, param: bytes, ps: seq<bytes>)
    requires KeysSoFar(done, pubs) && LastFetched(ctx, done, op, param) && op != PUSHBYTES33
    requires Redeems(ctx.prog, ps)
    ensures Ahead(ctx.prog, 0) == Some(done + [(op, param)] + [(CHECKMULTISIG, [])])
  {
    EndSettled(ctx, done, pubs, op, param, ps);
    KnownFront(ctx.prog, done + [(op, param)], Ahead(ctx.prog, ctx.nextip));
    var list := Ahead(ctx.prog, 0).value;
    assert list[..|done| + 1] == done + [(op, param)];
    assert list == list[..|done| + 1] + [list[|done| + 1]];
  }

  method ParseMultiSigContract(script: bytes) returns (ok: bool, pubs: seq<bytes>)
    ensures ok ==> Redeems(script, pubs)
    ensures !ok ==> Unredeemable(script)
  {
    pubs := [];
    var ctx := new Context(script);
    NothingPrepended(Ahead(script, 0));
    var op, param, more := Fetch(ctx, []);
    if !more {
      return false, pubs;
    }
    var nsigs := GetNumOfThings(op, param);
    if nsigs == None {
      CountMissing(ctx, op, param);
      return false, pubs;
    }
    ghost var first, done := (op, param), [];
    assert [] + [first] == [first];
    more, pubs, op, param, done := CollectKeys(ctx, first);
    if !more {
      return false, pubs;
    }
    var nkeys2 := GetNumOfThings(op, param);
    if |pubs| < nsigs.value || nkeys2 == None || nkeys2.value != |pubs| {
      forall ps | Redeems(script, ps) ensures false { EndSettled(ctx, done, pubs, op, param, ps); }
      return false, pubs;
    }
    ghost var x := (op, param);
    ghost var all := Some(done + [x] + [(CHECKMULTISIG, [])]);
    forall ps | Redeems(script, ps) ensures Ahead(script, 0) == all { EndForced(ctx, done, pubs, op, param, ps); }
    ok := CheckEnd(ctx, done + [x]);
    if ok { Redeemed(script, done, pubs, x); }
  }

  // ----- what an accepted script looks like

  /** Opcodes and parameters one after the other. */
  function BytesIn(list: Listed): bytes {
    if list == [] then [] else ([list[0].0] + list[0].1) + BytesIn(list[1..])
  }

  /** Parameters of fixed length only. */
  predicate Plain(list: Listed) {
    forall i {:trigger list[i]} :: 0 <= i < |list| ==>
      LengthBytes(list[i].0) == 0 && |list[i].1| == FixedLength(list[i].0)
  }

  lemma PlainDecoded(prog: bytes, ip: nat)
    requires ip < |prog| && LengthBytes(prog[ip]) == 0 && Decode(prog, ip) != None
    ensures var f := Decode(prog, ip).value;
            |f.param| == FixedLength(f.op) && prog[ip..] == ([f.op] + f.param) + prog[f.next..]
  {
    var f := Decode(prog, ip).value;
    assert prog[ip..] == prog[ip..ip + 1] + prog[ip + 1..f.next] + prog[f.next..];
  }

  lemma {:induction false} PlainBytes(prog: bytes, ip: nat)
    requires ip <= |prog| && Disassemble(prog, ip) != None
    requires forall i :: 0 <= i < |Disassemble(prog, ip).value| ==> LengthBytes(Disassemble(prog, ip).value[i].0) == 0
    ensures Plain(Disassemble(prog, ip).value) && prog[ip..] == BytesIn(Disassemble(prog, ip).value)
    decreases |prog| - ip
  {
    if ip < |prog| {
      var f := Decode(prog, ip).value;
      var rest := Disassemble(prog, f.next).value;
      var list := Disassemble(prog, ip).value;
      assert list == [(f.op, f.param)] + rest && list[1..] == rest;
      assert list[0].0 == f.op;
      forall i | 0 <= i < |rest| ensures LengthBytes(rest[i].0) == 0 { assert rest[i] == list[i + 1]; }
      PlainDecoded(prog, ip);
      PlainBytes(prog, f.next);
    }
  }

  /** A plain list, joined, is fetched as itself. */
  lemma {:induction false} JoinedListed(pre: bytes, list: Listed)
    requires Plain(list)
    ensures Disassemble(pre + BytesIn(list), |pre|) == Some(list)
    decreases |list|
  {
    if list == [] {
      assert pre + BytesIn(list) == pre;
    } else {
      var x := Wire(list[0].0, [], list[0].1);
      var rest := BytesIn(list[1..]);
      WireSplit([], x);
      WireDecoded(pre, x, rest);
      OneAndRest(pre, x.Code(), rest);
      JoinedListed(pre + x.Code(), list[1..]);
      DisassembleStep(pre + x.Code() + rest, |pre|, Fetched(x.op, x.param, |pre| + |x.Code()|), list[1..]);
      HeadBack(list);
    }
  }

  lemma HeadBack(list: Listed)
    requires list != []
    ensures [(list[0].0, list[0].1)] + list[1..] == list
  {
  }

  lemma RedeemListPlain(list: Listed, pubs: seq<bytes>)
    requires IsRedeemList(list, pubs)
    ensures forall i :: 0 <= i < |list| ==> LengthBytes(list[i].0) == 0
  {
    forall i | 0 <= i < |list| ensures LengthBytes(list[i].0) == 0 {
      if 1 <= i <= |pubs| { assert list[i] == (PUSHBYTES33, pubs[i - 1]); }
    }
  }

  /** The accepted scripts, byte for byte: count, keys, number and CHECKMULTISIG joined, with nothing left over. */
  lemma RedeemsExactly(script: bytes, pubs: seq<bytes>)
    ensures Redeems(script, pubs) <==> exists list :: Plain(list) && IsRedeemList(list, pubs) && script == BytesIn(list)
  {
    if Redeems(script, pubs) {
      var list := Ahead(script, 0).value;
      RedeemListPlain(list, pubs);
      PlainBytes(script, 0);
      assert script[0..] == script;
    }
    forall list | Plain(list) && IsRedeemList(list, pubs) && script == BytesIn(list) ensures Redeems(script, pubs) {
      JoinedListed([], list);
      assert [] + script == script;
    }
  }

  /** So every key has 33 bytes, and there are as many signatures asked for as keys at most, and 1024 keys at most. */
  lemma RedeemsBounds(script: bytes, pubs: seq<bytes>)
    requires Redeems(script, pubs)
    ensures 1 <= |pubs| <= MAX_ARRAY_SIZE && forall i :: 0 <= i < |pubs| ==> |pubs[i]| == 33
  {
    RedeemsExactly(script, pubs);
    var list :| Plain(list) && IsRedeemList(list, pubs) && script == BytesIn(list);
    forall i | 0 <= i < |pubs| ensures |pubs[i]| == 33 { assert list[i + 1] == (PUSHBYTES33, pubs[i]); }
  }

  /** The keys of a script are unique. */
  lemma RedeemsOnce(script: bytes, ps: seq<bytes>, qs: seq<bytes>)
    requires Redeems(script, ps) && Redeems(script, qs)
    ensures ps == qs
  {
    var list := Ahead(script, 0).value;
    forall i | 0 <= i < |ps|
      ensures ps[i] == qs[i]
    {
      assert list[i + 1] == (PUSHBYTES33, ps[i]) && list[i + 1] == (PUSHBYTES33, qs[i]);
    }
  }

  // ----- recognising what was created

  lemma EncodedCount(n: nat)
    requires 16 <= n < 0x8000
    ensures |Encode(n)| == (if n < 128 then 1 else 2) && Unsigned(Encode(n)) == n
  {
    var e := Encode(n);
    if n < 128 {
      assert e == [n % 256] && Unsigned(e[1..]) == 0;
    } else {
      assert e == [n % 256] + Encode(n / 256) && Encode(n / 256) == [n / 256 % 256];
      assert e[1..] == [n / 256] && Unsigned(e[1..][1..]) == 0;
    }
  }

  /** A number of 0x8000 and more takes more than two bytes. */
  lemma LongCount(n: nat)
    requires n >= 0x8000
    ensures |Encode(n)| > 2
  {
    SignedEncode(n);
    EncodeNonempty(n);
    SignedRange(Encode(n));
    assert Pow256(0) == 1 && Pow256(1) == 256;
  }

  /** An emitted count is understood if it is at most 1024. */
  lemma EmittedCount(n: int64)
    requires n >= 1
    ensures var w := WireOf(PushInt(n)); GetNumOfThings(w.op, w.param) == if n <= MAX_ARRAY_SIZE then Some(n) else None
  {
    if 16 <= n < 0x8000 {
      EncodedCount(n);
    } else if n >= 0x8000 {
      LongCount(n);
      Int64Fits(n);
    }
  }

  lemma {:induction false} ListingAt(es: seq<Emission>, i: nat)
    requires i < |es|
    ensures |Listing(es)| == |es| && Listing(es)[i] == (WireOf(es[i]).op, WireOf(es[i]).param)
    decreases |es|
  {
    if i > 0 {
      ListingAt(es[1..], i - 1);
    } else if |es| > 1 {
      ListingAt(es[1..], 0);
    }
  }

  lemma RedeemListing(m: int64, ks: seq<bytes>)
    requires |ks| < 0x8000_0000_0000_0000 && forall i :: 0 <= i < |ks| ==> |ks[i]| == 33
    ensures var l, es := Listing(Redeem(m, ks)), Redeem(m, ks);
            && AllSound(es) && |l| == |ks| + 3
            && l[0] == (WireOf(PushInt(m)).op, WireOf(PushInt(m)).param)
            && (forall i {:trigger ks[i]} :: 0 <= i < |ks| ==> l[i + 1] == (PUSHBYTES33, ks[i]))
            && l[|ks| + 1] == (WireOf(PushInt(|ks|)).op, WireOf(PushInt(|ks|)).param)
            && l[|ks| + 2] == (CHECKMULTISIG, [])
  {
    var es := Redeem(m, ks);
    ListingAt(es, 0);
    forall i | 0 <= i < |ks| ensures Listing(es)[i + 1] == (PUSHBYTES33, ks[i]) && Sound(es[i + 1]) {
      ListingAt(es, i + 1);
      assert es[i + 1] == PushData(ks[i]);
    }
    ListingAt(es, |ks| + 1);
    ListingAt(es, |ks| + 2);
    forall i | 0 <= i < |es| ensures Sound(es[i]) {
      if 1 <= i <= |ks| { assert Sound(es[(i - 1) + 1]); }
    }
  }

  /** The recogniser undoes the creation, up to 1024 keys; a script with more keys is not recognised. */
  lemma CreatedIsRecognised(m: int64, ks: seq<bytes>)
    requires 1 <= m <= |ks| && m <= 1024 && |ks| < 0x8000_0000_0000_0000
    requires forall i :: 0 <= i < |ks| ==> |ks[i]| == 33
    ensures Redeems(CodeOf(Redeem(m, ks)), ks) <==> |ks| <= MAX_ARRAY_SIZE
    ensures forall ps :: Redeems(CodeOf(Redeem(m, ks)), ps) ==> ps == ks
  {
    var script, l := CodeOf(Redeem(m, ks)), Listing(Redeem(m, ks));
    RedeemListing(m, ks);
    ScriptListed(Redeem(m, ks));
    EmittedCount(m);
    EmittedCount(|ks|);
    forall ps | Redeems(script, ps) ensures ps == ks {
      CreatedOnly(m, ks, ps);
    }
  }

  lemma CreatedOnly(m: int64, ks: seq<bytes>, ps: seq<bytes>)
    requires 1 <= m <= |ks| && |ks| < 0x8000_0000_0000_0000
    requires forall i :: 0 <= i < |ks| ==> |ks[i]| == 33
    requires Redeems(CodeOf(Redeem(m, ks)), ps)
    ensures ps == ks
  {
    var l := Listing(Redeem(m, ks));
    RedeemListing(m, ks);
    ScriptListed(Redeem(m, ks));
    assert Ahead(CodeOf(Redeem(m, ks)), 0) == Some(l);
    assert |ps| + 3 == |l| == |ks| + 3;
    forall i | 0 <= i < |ps|
      ensures ps[i] == ks[i]
    {
      assert l[i + 1] == (PUSHBYTES33, ps[i]) && l[i + 1] == (PUSHBYTES33, ks[i]);
    }
  }

  // ----- the other standard contract

  /** A key of 33 bytes and CHECKSIG, nothing else. */
  method IsSignatureContract(script: bytes) returns (ok: bool)
    ensures ok <==> |script| == 35 && script[0] == PUSHBYTES33 && script[34] == CHECKSIG
  {
    var ctx := new Context(script);
    var op, param, more := ctx.Next();
    if !more || op != PUSHBYTES33 {
      return false;
    }
    op, param, more := ctx.Next();
    if !more || op != CHECKSIG {
      return false;
    }
    op, param, more := ctx.Next();
    if !more || op != RET || ctx.ip != |script| {
      return false;
    }
    return true;
  }

  method IsStandardContract(script: bytes) returns (ok: bool)
    ensures ok <==>
              (|script| == 35 && script[0] == PUSHBYTES33 && script[34] == CHECKSIG) || exists ps :: Redeems(script, ps)
  {
    ok := IsSignatureContract(script);
    if !ok {
      var pubs;
      ok, pubs := ParseMultiSigContract(script);
    }
  }
}
