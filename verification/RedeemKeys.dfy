/**
  The bytes of the script that is created for a list of keys: which number each key's bytes stand for, and where
  in the script the keys lie.
 */
module RedeemKeys {
  import opened Options
  import opened Bytes
  import opened TwosComplement
  import opened Opcodes
  import opened BinIO
  import opened Emit
  import opened MultisigScript
  import opened WrittenForms

  // ----- the bytes of a key

  /** The number whose digits to base 256, highest first, are these. */
  function BigEndian(b: bytes): nat {
    if b == [] then 0 else 256 * BigEndian(b[..|b| - 1]) + b[|b| - 1]
  }

  /** The parity of y in the first byte, x in the others, highest byte first. */
  predicate Compressed(k: PublicKey, b: bytes) {
    |b| == 33 && b[0] == (if k.y % 2 == 0 then 2 else 3) && BigEndian(b[1..]) == k.x
  }

  lemma {:induction false} DigitsDown(x: nat, n: nat, b: bytes)
    requires x < Pow256(n) && |b| == n && forall i :: 0 <= i < n ==> b[i] == LittleEndian(x, n)[n - 1 - i]
    ensures BigEndian(b) == x
    decreases n
  {
    if n > 0 {
      var c := b[..n - 1];
      forall i | 0 <= i < n - 1 ensures c[i] == LittleEndian(x / 256, n - 1)[n - 2 - i] {
        assert LittleEndian(x, n)[n - 1 - i] == LittleEndian(x / 256, n - 1)[n - 2 - i];
      }
      DigitsDown(x / 256, n - 1, c);
    }
  }

  lemma KeyCompressed(k: PublicKey)
    requires k.x < Pow256(32)
    ensures Compressed(k, k.Bytes())
  {
    var b := k.Bytes();
    DigitsDown(k.x, 32, b[1..]);
  }

  lemma {:induction false} SameDigits(b: bytes, c: bytes)
    requires |b| == |c| && BigEndian(b) == BigEndian(c)
    ensures b == c
    decreases |b|
  {
    if b != [] {
      var n := |b| - 1;
      var x: int, y: int := b[n], c[n];
      assert x == y;
      SameDigits(b[..n], c[..n]);
      assert b == b[..n] + [b[n]] && c == c[..n] + [c[n]];
    }
  }

  /** The bytes tell keys apart, but for another y of the same parity, and each key has only one such string. */
  lemma CompressedTells(j: PublicKey, k: PublicKey, b: bytes, c: bytes)
    requires Compressed(j, b) && Compressed(k, c)
    ensures b == c <==> j.x == k.x && j.y % 2 == k.y % 2
  {
    if j.x == k.x && j.y % 2 == k.y % 2 {
      SameDigits(b[1..], c[1..]);
      assert b == [b[0]] + b[1..] && c == [c[0]] + c[1..];
    }
  }

  // ----- the created script

  /** At position at: the length 33 and the bytes of the key. */
  predicate KeyThere(script: bytes, at: nat, k: PublicKey) {
    at + 34 <= |script| && script[at] == 33 && Compressed(k, script[at + 1..at + 34])
  }

  /** One key after the other, from position at on. */
  predicate KeysFrom(script: bytes, at: nat, ks: seq<PublicKey>) {
    && at + 34 * |ks| <= |script|
    && forall i {:trigger ks[i]} :: 0 <= i < |ks| ==> KeyThere(script, at + 34 * i, ks[i])
  }

  lemma KeyCode(b: bytes)
    requires |b| == 33
    ensures WireOf(PushData(b)).Code() == [33] + b
  {
  }

  lemma {:induction false} KeysCode(ks: seq<bytes>, i: nat)
    requires i < |ks| && forall j :: 0 <= j < |ks| ==> |ks[j]| == 33
    ensures var code := CodeOf(KeyPushes(ks));
            |code| == 34 * |ks| && code[34 * i] == 33 && code[34 * i + 1..34 * i + 34] == ks[i]
    decreases |ks|
  {
    var rest := CodeOf(KeyPushes(ks[1..]));
    assert KeyPushes(ks)[1..] == KeyPushes(ks[1..]);
    KeyCode(ks[0]);
    assert CodeOf(KeyPushes(ks)) == [33] + ks[0] + rest;
    if |ks| > 1 {
      KeysCode(ks[1..], if i == 0 then 0 else i - 1);
      if i > 0 {
        assert CodeOf(KeyPushes(ks))[34 * i + 1..34 * i + 34] == rest[34 * (i - 1) + 1..34 * (i - 1) + 34];
      }
    } else {
      assert ks[1..] == [] && rest == [];
    }
    if i == 0 { assert ([33] + ks[0] + rest)[1..34] == ks[0]; }
  }

  lemma BytesHave33(ks: seq<PublicKey>, i: nat)
    requires i < |ks|
    ensures |BytesOf(ks)[i]| == 33
  {
  }

  lemma RedeemParts(m: int64, bs: seq<bytes>)
    requires |bs| < 0x8000_0000_0000_0000
    ensures CodeOf(Redeem(m, bs)) ==
            WireOf(PushInt(m)).Code() + CodeOf(KeyPushes(bs)) + (WireOf(PushInt(|bs|)).Code() + [174])
  {
    var x, y, z := PushInt(m), PushInt(|bs|), Opcode(CHECKMULTISIG);
    CodeOfConcat([x] + KeyPushes(bs), [y, z]);
    CodeOfConcat([x], KeyPushes(bs));
    assert [y, z] == [y] + [z];
    CodeOfConcat([y], [z]);
    CodeOfOne(x);
    CodeOfOne(y);
    CodeOfOne(z);
    assert WireOf(z).Code() == [174];
  }

  /** Front, keys and end of the script. */
  ghost predicate RedeemBytes(script: bytes, m: int, ks: seq<PublicKey>, at: nat) {
    && KeysFrom(script, at, ks) && IntForm(m, script[..at])
    && |script| > at + 34 * |ks| && script[|script| - 1] == 174
    && IntForm(|ks|, script[at + 34 * |ks|..|script| - 1])
  }

  lemma KeyShifted(front: bytes, code: bytes, tail: bytes, at: nat, k: PublicKey)
    requires KeyThere(code, at, k)
    ensures KeyThere(front + code + tail, |front| + at, k)
  {
    var script := front + code + tail;
    assert script[|front| + at + 1..|front| + at + 34] == code[at + 1..at + 34];
  }

  lemma KeysCoded(ks: seq<PublicKey>)
    requires forall i :: 0 <= i < |ks| ==> ks[i].x < Pow256(32)
    ensures var code := CodeOf(KeyPushes(BytesOf(ks))); KeysFrom(code, 0, ks) && |code| == 34 * |ks|
  {
    var bs := BytesOf(ks);
    forall i | 0 <= i < |bs| ensures |bs[i]| == 33 { BytesHave33(ks, i); }
    if ks == [] { assert CodeOf(KeyPushes(bs)) == []; } else { KeysCode(bs, 0); }
    forall i | 0 <= i < |ks| ensures KeyThere(CodeOf(KeyPushes(bs)), 34 * i, ks[i]) {
      KeysCode(bs, i);
      KeyCompressed(ks[i]);
    }
  }

  lemma KeysWithin(front: bytes, code: bytes, ks: seq<PublicKey>, tail: bytes)
    requires KeysFrom(code, 0, ks)
    ensures KeysFrom(front + code + tail, |front|, ks)
  {
    forall i | 0 <= i < |ks| ensures KeyThere(front + code + tail, |front| + 34 * i, ks[i]) {
      assert KeyThere(code, 34 * i, ks[i]);
      KeyShifted(front, code, tail, 34 * i, ks[i]);
    }
  }

  lemma ThreeParts(a: bytes, b: bytes, c: bytes, x: byte)
    ensures var s := a + b + (c + [x]);
            s[..|a|] == a && s[|a| + |b|..|s| - 1] == c && s[|s| - 1] == x && |s| == |a| + |b| + |c| + 1
  {
  }

  /**
    The created script: the count, for each key the length 33 and the bytes that stand for it, the number of keys,
    and CHECKMULTISIG.
   */
  lemma CreatedBytes(m: int64, ks: seq<PublicKey>, script: bytes) returns (at: nat)
    requires |ks| < 0x8000_0000_0000_0000 && forall i :: 0 <= i < |ks| ==> ks[i].x < Pow256(32)
    requires script == CodeOf(Redeem(m, BytesOf(ks)))
    ensures RedeemBytes(script, m, ks, at)
  {
    var front, end, code := WireOf(PushInt(m)).Code(), WireOf(PushInt(|ks|)).Code(), CodeOf(KeyPushes(BytesOf(ks)));
    at := |front|;
    RedeemParts(m, BytesOf(ks));
    EmittedInt(m);
    EmittedInt(|ks|);
    KeysCoded(ks);
    KeysWithin(front, code, ks, end + [174]);
    PutTogether(script, m, ks, front, code, end);
  }

  lemma PutTogether(script: bytes, m: int, ks: seq<PublicKey>, front: bytes, code: bytes, end: bytes)
    requires script == front + code + (end + [174]) && |code| == 34 * |ks| && KeysFrom(script, |front|, ks)
    requires IntForm(m, front) && IntForm(|ks|, end)
    ensures RedeemBytes(script, m, ks, |front|)
  {
    ThreeParts(front, code, end, 174);
  }

  /** The number that 32 bytes at a position stand for. */
  function NumberAt(script: bytes, at: nat): nat
    requires at + 32 <= |script|
  {
    BigEndian(script[at..at + 32])
  }

  lemma NumberThere(script: bytes, at: nat, k: PublicKey)
    requires KeyThere(script, at, k)
    ensures NumberAt(script, at + 2) == k.x
  {
    assert script[at + 1..at + 34][1..] == script[at + 2..at + 34];
  }

  /** The numbers that the bytes of sorted keys stand for never fall from one key to the next. */
  lemma KeysNeverFall(script: bytes, ks: seq<PublicKey>, at: nat, i: nat, j: nat)
    requires KeysFrom(script, at, ks) && Ordered(ks) && i < j < |ks|
    ensures NumberAt(script, at + 34 * i + 2) <= NumberAt(script, at + 34 * j + 2)
  {
    var p, q := at + 34 * i, at + 34 * j;
    assert KeyThere(script, p, ks[i]) && KeyThere(script, q, ks[j]) && ks[i].AtMost(ks[j]);
    NumberThere(script, p, ks[i]);
    NumberThere(script, q, ks[j]);
  }

  /** The numbers of the keys from a position on, one after the other. */
  predicate NeverFall(script: bytes, at: nat, n: nat)
    requires at + 34 * n <= |script|
  {
    forall i, j {:trigger KeyNumber(script, at, n, i), KeyNumber(script, at, n, j)} ::
      0 <= i < j < n ==> KeyNumber(script, at, n, i) <= KeyNumber(script, at, n, j)
  }

  function KeyNumber(script: bytes, at: nat, n: nat, i: nat): nat
    requires at + 34 * n <= |script| && i < n
  {
    NumberAt(script, at + 34 * i + 2)
  }

  lemma AllNeverFall(script: bytes, ks: seq<PublicKey>, at: nat)
    requires KeysFrom(script, at, ks) && Ordered(ks)
    ensures NeverFall(script, at, |ks|)
  {
    forall i, j | 0 <= i < j < |ks| ensures KeyNumber(script, at, |ks|, i) <= KeyNumber(script, at, |ks|, j) {
      KeysNeverFall(script, ks, at, i, j);
    }
  }

  lemma SortedBounded(given: seq<PublicKey>)
    requires forall i :: 0 <= i < |given| ==> given[i].x < Pow256(32)
    ensures var ks := SortedKeys(given);
            multiset(ks) == multiset(given) && Ordered(ks) && forall i :: 0 <= i < |ks| ==> ks[i].x < Pow256(32)
  {
    var ks := SortedKeys(given);
    SortedOrdered(given);
    forall i | 0 <= i < |ks| ensures ks[i].x < Pow256(32) {
      assert ks[i] in multiset(given);
      var j :| 0 <= j < |given| && given[j] == ks[i];
    }
  }

  /**
    The script that is created for a list of keys, in any order: it has the bytes of just these keys, and the
    numbers that they stand for never fall.
   */
  lemma CreatedScript(m: int64, given: seq<PublicKey>, script: bytes) returns (at: nat, ks: seq<PublicKey>)
    requires |given| < 0x8000_0000_0000_0000 && forall i :: 0 <= i < |given| ==> given[i].x < Pow256(32)
    requires script == CodeOf(Redeem(m, BytesOf(SortedKeys(given))))
    ensures multiset(ks) == multiset(given) && |ks| == |given| && RedeemBytes(script, m, ks, at)
    ensures NeverFall(script, at, |ks|)
  {
    ks := SortedKeys(given);
    SortedBounded(given);
    at := CreatedBytes(m, ks, script);
    AllNeverFall(script, ks, at);
  }
}
