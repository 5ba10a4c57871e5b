/** Which number an item names for an opcode that takes one, said without the conversions that compute it. */
module NumberNames {
  import opened Options
  import opened Bytes
  import opened TwosComplement
  import opened Conversions
  import opened Items

  const WORD := 0x1_0000_0000_0000_0000

  /** j is the one 64-bit integer that agrees with the item in its low 64 bits. */
  predicate Names(x: StackItem, j: int) {
    && -(WORD / 2) <= j < WORD / 2
    && match x
       case BigInteger(n) => (n - j) % WORD == 0
       case Boolean(b) => j == if b then 1 else 0
       case ByteArray(data) => (Signed(data) - j) % WORD == 0
       case _ => false
  }

  lemma LowWord(n: int, j: int)
    requires -(WORD / 2) <= j < WORD / 2 && (n - j) % WORD == 0
    ensures Int64(n) == j
  {
    var q := (n - j) / WORD;
    assert n == j + q * WORD;
    assert n % WORD == j % WORD;
  }

  lemma NamedNumber(x: StackItem, j: int)
    requires Names(x, j)
    ensures NumberOf(x) == Some(j)
  {
    match x {
      case BigInteger(n) => LowWord(n, j);
      case Boolean(b) =>
      case ByteArray(data) => LowWord(Signed(data), j);
    }
  }

  /** Every primitive names a number, and only one; nothing else does. */
  lemma NamesOne(x: StackItem) returns (j: int)
    requires x.BigInteger? || x.Boolean? || x.ByteArray?
    ensures forall i :: Names(x, i) <==> i == j
  {
    j := NumberOf(x).value;
    var n := IntegerOf(x).value;
    assert (n - j) % WORD == 0;
    forall i | Names(x, i) ensures i == j { NamedNumber(x, i); }
  }

  /** A 64-bit integer names itself, and so do its bytes; an integer one word higher names the same. */
  lemma SmallNames(j: int)
    requires -(WORD / 2) <= j < WORD / 2
    ensures Names(BigInteger(j), j) && Names(ByteArray(Encode(j)), j) && Names(BigInteger(j + WORD), j)
  {
    SignedEncode(j);
  }

  /** A byte stands for itself, or for a negative number from 128 on. */
  function SignedByte(b: byte): int { if b < 128 then b else b - 256 }

  /** Strings of one and two bytes: the low byte comes first. */
  lemma ShortStrings(a: byte, b: byte)
    ensures Signed([a]) == SignedByte(a) && Signed([a, b]) == a + 256 * SignedByte(b)
  {
    assert Pow256(1) == 256 * Pow256(0) && Unsigned([a]) == a + 256 * Unsigned([]);
    assert Pow256(1) == 256 * Pow256(0) && Unsigned([b]) == b + 256 * Unsigned([]);
    assert [a, b] == [a] + [b];
    SignedStep(a, [b]);
  }
}
