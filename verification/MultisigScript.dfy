/**
  The verification script of a multi-signature contract: creating it, and recognising it. The recogniser
  accepts a script exactly if it is a count, keys of 33 bytes, their number and CHECKMULTISIG.
 */
module MultisigScript {
  import opened Options
  import opened Bytes
  import opened TwosComplement
  import opened BinIO
  import opened Opcodes
  import opened Emit

  // ----- keys in order

  datatype PublicKey = PublicKey(x: nat, y: nat) {
    /** Compressed form: the parity of y, then x in 32 bytes, highest first. */
    function Bytes(): (b: bytes)
      ensures |b| == 33
    {
      [if y % 2 == 0 then 0x02 else 0x03] + seq(32, i requires 0 <= i < 32 => LittleEndian(x, 32)[31 - i])
    }

    predicate AtMost(other: PublicKey) {
      x < other.x || (x == other.x && y <= other.y)
    }
  }

  predicate Ordered(ks: seq<PublicKey>) {
    forall i, j {:trigger ks[i], ks[j]} :: 0 <= i < j < |ks| ==> ks[i].AtMost(ks[j])
  }

  function Insert(k: PublicKey, ks: seq<PublicKey>): (r: seq<PublicKey>)
    ensures |r| == |ks| + 1
  {
    if ks == [] || k.AtMost(ks[0]) then [k] + ks else [ks[0]] + Insert(k, ks[1..])
  }

  function SortedKeys(ks: seq<PublicKey>): (r: seq<PublicKey>)
    ensures |r| == |ks|
  {
    if ks == [] then [] else Insert(ks[0], SortedKeys(ks[1..]))
  }

  lemma {:induction false} InsertOrdered(k: PublicKey, ks: seq<PublicKey>)
    requires Ordered(ks)
    ensures Ordered(Insert(k, ks)) && multiset(Insert(k, ks)) == multiset(ks) + multiset{k}
    decreases |ks|
  {
    if ks != [] && !k.AtMost(ks[0]) {
      InsertOrdered(k, ks[1..]);
      var rest := Insert(k, ks[1..]);
      assert ks == [ks[0]] + ks[1..];
      forall j | 0 <= j < |rest| ensures ks[0].AtMost(rest[j]) {
        assert rest[j] in multiset(rest);
        if rest[j] != k { assert rest[j] in ks[1..]; }
      }
    }
  }

  lemma {:induction false} SortedOrdered(ks: seq<PublicKey>)
    ensures Ordered(SortedKeys(ks)) && multiset(SortedKeys(ks)) == multiset(ks)
    decreases |ks|
  {
    if ks != [] {
      SortedOrdered(ks[1..]);
      InsertOrdered(ks[0], SortedKeys(ks[1..]));
      assert ks == [ks[0]] + ks[1..];
    }
  }

  lemma TailMultiset(ks: seq<PublicKey>)
    requires ks != []
    ensures multiset(ks[1..]) == multiset(ks) - multiset{ks[0]} && ks[0] in multiset(ks)
  {
    assert ks == [ks[0]] + ks[1..];
  }

  lemma SameFirst(ks: seq<PublicKey>, rs: seq<PublicKey>)
    requires Ordered(ks) && Ordered(rs) && multiset(ks) == multiset(rs) && ks != []
    ensures rs != [] && ks[0] == rs[0]
  {
    assert ks[0] in multiset(rs) && rs != [] && rs[0] in multiset(ks);
    var i :| 0 <= i < |rs| && rs[i] == ks[0];
    var j :| 0 <= j < |ks| && ks[j] == rs[0];
  }

  /** Whatever way of sorting is used, the result is this one: keys that tie are the same key. */
  lemma {:induction false} SortedOnce(ks: seq<PublicKey>, rs: seq<PublicKey>)
    requires Ordered(ks) && Ordered(rs) && multiset(ks) == multiset(rs)
    ensures ks == rs
    decreases |ks|
  {
    assert |multiset(ks)| == |multiset(rs)|;
    if ks != [] {
      SameFirst(ks, rs);
      TailMultiset(ks);
      TailMultiset(rs);
      SortedOnce(ks[1..], rs[1..]);
    }
  }

  /** Sorts in place; which algorithm does it makes no difference. */
  method SortKeys(a: array<PublicKey>)
    modifies a
    ensures a[..] == SortedKeys(old(a[..]))
  {
    var s := SortedKeys(a[..]);
    SortedOrdered(a[..]);
    for i := 0 to a.Length
      invariant a[..i] == s[..i]
    {
      a[i] := s[i];
    }
  }

  // ----- creating the script

  function KeyPushes(ks: seq<bytes>): seq<Emission> {
    seq(|ks|, i requires 0 <= i < |ks| => PushData(ks[i]))
  }

  function BytesOf(ks: seq<PublicKey>): (r: seq<bytes>)
    ensures |r| == |ks| && forall i :: 0 <= i < |ks| ==> r[i] == ks[i].Bytes()
  {
    seq(|ks|, i requires 0 <= i < |ks| => ks[i].Bytes())
  }

  /** The count, the keys, their number, the check. */
  function Redeem(m: int64, ks: seq<bytes>): seq<Emission>
    requires |ks| < 0x8000_0000_0000_0000
  {
    [PushInt(m)] + KeyPushes(ks) + [PushInt(|ks|), Opcode(CHECKMULTISIG)]
  }

  lemma OneMoreKey(ks: seq<bytes>, i: nat)
    requires i < |ks|
    ensures KeyPushes(ks)[..i + 1] == KeyPushes(ks)[..i] + [PushData(ks[i])]
  {
  }

  /** Sorts the keys in place and writes the script; too few or too many signatures asked for is an error. */
  method CreateMultiSigRedeemScript(m: int, publicKeys: array<PublicKey>) returns (script: Option<bytes>)
    requires publicKeys.Length < 0x8000_0000_0000_0000
    modifies publicKeys
    ensures script != None <==> 1 <= m <= publicKeys.Length && m <= 1024
    ensures script != None ==> script.value == CodeOf(Redeem(m, BytesOf(SortedKeys(old(publicKeys[..])))))
    ensures script != None ==> publicKeys[..] == SortedKeys(old(publicKeys[..]))
    ensures script == None ==> publicKeys[..] == old(publicKeys[..])
  {
    if m < 1 {
      return None;
    }
    if m > publicKeys.Length {
      return None;
    }
    if m > 1024 {
      return None;
    }
    var w := new BinWriter();
    EmitInt(w, m);
    SortKeys(publicKeys);
    ghost var ks := BytesOf(publicKeys[..]);
    ghost var pushes := KeyPushes(ks);
    RedeemStarts(m, ks);
    for i := 0 to publicKeys.Length
      invariant !w.err && w.buf == CodeOf([PushInt(m)] + pushes[..i])
      invariant publicKeys[..] == SortedKeys(old(publicKeys[..]))
    {
      assert ks[i] == publicKeys[i].Bytes();
      KeyEmitted(m, ks, i);
      EmitBytes(w, publicKeys[i].Bytes());
    }
    RedeemEnds(m, ks);
    EmitInt(w, publicKeys.Length);
    EmitOpcode(w, CHECKMULTISIG);
    return Some(w.buf);
  }

  lemma RedeemStarts(m: int64, ks: seq<bytes>)
    ensures CodeOf([PushInt(m)] + KeyPushes(ks)[..0]) == [] + WireOf(PushInt(m)).Code()
  {
    assert [PushInt(m)] + KeyPushes(ks)[..0] == [PushInt(m)];
    CodeOfOne(PushInt(m));
  }

  lemma KeyEmitted(m: int64, ks: seq<bytes>, i: nat)
    requires i < |ks|
    ensures CodeOf([PushInt(m)] + KeyPushes(ks)[..i + 1]) ==
            CodeOf([PushInt(m)] + KeyPushes(ks)[..i]) + WireOfBytes(ks[i]).Code()
  {
    var a := [PushInt(m)] + KeyPushes(ks)[..i];
    OneMoreKey(ks, i);
    assert [PushInt(m)] + KeyPushes(ks)[..i + 1] == a + [PushData(ks[i])];
    CodeOfConcat(a, [PushData(ks[i])]);
    CodeOfOne(PushData(ks[i]));
  }

  lemma RedeemEnds(m: int64, ks: seq<bytes>)
    requires |ks| < 0x8000_0000_0000_0000
    ensures CodeOf(Redeem(m, ks)) ==
            CodeOf([PushInt(m)] + KeyPushes(ks)[..|ks|]) + WireOf(PushInt(|ks|)).Code()
            + WireOf(Opcode(CHECKMULTISIG)).Code()
  {
    var a, y, z := [PushInt(m)] + KeyPushes(ks), PushInt(|ks|), Opcode(CHECKMULTISIG);
    assert KeyPushes(ks)[..|ks|] == KeyPushes(ks);
    CodeOfConcat(a, [y, z]);
    CodeOfConcat([y], [z]);
    assert [y, z] == [y] + [z];
    CodeOfOne(y);
    CodeOfOne(z);
    Appended(CodeOf(a), WireOf(y).Code(), WireOf(z).Code());
  }
}
