/**
  Integers as little-endian two's-complement byte strings: the meaning of a string, the shortest string
  for an integer, and the facts that tie the two together.
 */
module TwosComplement {
  import opened Bytes

  /** The unsigned value of a little-endian string. */
  function Unsigned(b: bytes): nat {
    if b == [] then 0 else b[0] + 256 * Unsigned(b[1..])
  }

  function Pow256(n: nat): (p: nat)
    ensures p >= 1
  {
    if n == 0 then 1 else 256 * Pow256(n - 1)
  }

  /** The k lowest bytes of a number, lowest first. */
  function LittleEndian(w: nat, k: nat): (b: bytes)
    ensures |b| == k
  {
    if k == 0 then [] else [w % 256] + LittleEndian(w / 256, k - 1)
  }

  lemma {:induction false} LittleEndianValue(w: nat, k: nat)
    requires w < Pow256(k)
    ensures Unsigned(LittleEndian(w, k)) == w
  {
    if k > 0 {
      LittleEndianValue(w / 256, k - 1);
      assert LittleEndian(w, k)[1..] == LittleEndian(w / 256, k - 1);
    }
  }

  lemma {:induction false} UnsignedBound(b: bytes)
    ensures Unsigned(b) < Pow256(|b|)
  {
    if b != [] { UnsignedBound(b[1..]); }
  }

  function Negative(b: bytes): bool { b != [] && b[|b| - 1] >= 128 }

  /** The two's-complement value; the empty string stands for zero. */
  function Signed(b: bytes): int {
    Unsigned(b) - if Negative(b) then Pow256(|b|) else 0
  }

  /** No byte could be dropped without changing the value; zero takes one byte. */
  predicate Canonical(b: bytes) {
    && b != []
    && (|b| >= 2 && b[|b| - 1] == 0 ==> b[|b| - 2] >= 128)
    && (|b| >= 2 && b[|b| - 1] == 255 ==> b[|b| - 2] < 128)
  }

  function Abs(n: int): nat { if n < 0 then -n else n }

  /** The canonical string of an integer, lowest byte first. */
  function Encode(n: int): bytes
    decreases Abs(n)
  {
    if -128 <= n < 128 then [n % 256] else [n % 256] + Encode(n / 256)
  }

  lemma SignedStep(x: byte, rest: bytes)
    requires rest != []
    ensures Signed([x] + rest) == x + 256 * Signed(rest)
  {
    var b := [x] + rest;
    assert b[1..] == rest && b[|b| - 1] == rest[|rest| - 1];
  }

  lemma {:induction false} EncodeNonempty(n: int)
    ensures Encode(n) != []
  {
  }

  /** The encoding is canonical ... */
  lemma {:induction false} EncodeIsCanonical(n: int)
    ensures Canonical(Encode(n))
    decreases Abs(n)
  {
    if !(-128 <= n < 128) {
      var rest := Encode(n / 256);
      EncodeIsCanonical(n / 256);
      if -128 <= n / 256 < 128 { assert rest == [n / 256 % 256]; } else { EncodeNonempty(n / 256 / 256); }
    }
  }

  /** ... and means the integer it encodes. */
  lemma {:induction false} SignedEncode(n: int)
    ensures Signed(Encode(n)) == n
    decreases Abs(n)
  {
    if -128 <= n < 128 {
      assert Unsigned([n % 256]) == n % 256 + 256 * Unsigned([]);
      assert Pow256(1) == 256 * Pow256(0);
    } else {
      EncodeNonempty(n / 256);
      SignedEncode(n / 256);
      SignedStep(n % 256, Encode(n / 256));
    }
  }

  /** Between -2^(8k-1) and 2^(8k-1). */
  lemma {:induction false} SignedRange(b: bytes)
    requires b != []
    ensures -(Pow256(|b| - 1) * 128) <= Signed(b) < Pow256(|b| - 1) * 128
  {
    if |b| == 1 {
      assert Unsigned(b) == b[0] + 256 * Unsigned(b[1..]) == b[0];
      assert Pow256(1) == 256 * Pow256(0);
    } else {
      assert b == [b[0]] + b[1..];
      SignedStep(b[0], b[1..]);
      SignedRange(b[1..]);
    }
  }

  /** A canonical string is the encoding of its value: canonical strings are unique. */
  lemma {:induction false} CanonicalIsEncode(b: bytes)
    requires Canonical(b)
    ensures b == Encode(Signed(b))
  {
    var n := Signed(b);
    SignedRange(b);
    if |b| == 1 {
      assert Unsigned(b) == b[0] + 256 * Unsigned(b[1..]) == b[0];
      assert Pow256(1) == 256 * Pow256(0);
    } else {
      var rest := b[1..];
      assert b == [b[0]] + rest;
      SignedStep(b[0], rest);
      assert Canonical(rest) by {
        if |rest| >= 2 { assert rest[|rest| - 1] == b[|b| - 1] && rest[|rest| - 2] == b[|b| - 2]; }
      }
      CanonicalIsEncode(rest);
      assert n % 256 == b[0] && n / 256 == Signed(rest);
      LongIsLarge(b);
    }
  }

  /** A canonical string of two bytes or more is needed: its value does not fit one byte less. */
  lemma {:induction false} LongIsLarge(b: bytes)
    requires Canonical(b) && |b| >= 2
    ensures Signed(b) < -(Pow256(|b| - 2) * 128) || Signed(b) >= Pow256(|b| - 2) * 128
  {
    assert b == [b[0]] + b[1..];
    SignedStep(b[0], b[1..]);
    if |b| == 2 {
      assert Unsigned(b[1..]) == b[1] + 256 * Unsigned(b[1..][1..]) == b[1];
      assert Pow256(1) == 256 * Pow256(0);
    } else {
      assert Canonical(b[1..]);
      LongIsLarge(b[1..]);
    }
  }

  lemma {:induction false} Pow256Monotone(i: nat, j: nat)
    requires i <= j
    ensures Pow256(i) <= Pow256(j)
    decreases j
  {
    if i < j { Pow256Monotone(i, j - 1); }
  }

  /** The encoding is the shortest string with its value (the empty string apart). */
  lemma EncodeIsShortest(b: bytes)
    requires b != []
    ensures |Encode(Signed(b))| <= |b|
  {
    var c := Encode(Signed(b));
    EncodeIsCanonical(Signed(b));
    SignedEncode(Signed(b));
    SignedRange(b);
    if |c| > |b| {
      LongIsLarge(c);
      Pow256Monotone(|b| - 1, |c| - 2);
    }
  }

  lemma EncodeInjective(m: int, n: int)
    requires Encode(m) == Encode(n)
    ensures m == n
  {
    SignedEncode(m);
    SignedEncode(n);
  }
}
