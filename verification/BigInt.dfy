/**
  The conversions between byte strings and big integers, in 64-bit words. A big integer is a sign and a
  magnitude; its words are the little-endian base-2^64 digits of the magnitude.
 */
module BigInt {
  import opened Bytes
  import opened TwosComplement

  const WORD_BYTES := 8
  const WORD_BASE := 0x1_0000_0000_0000_0000

  type Word = x: int | 0 <= x < WORD_BASE

  /** The magnitude that words stand for. */
  function WordsValue(ws: seq<Word>): nat {
    if ws == [] then 0 else ws[0] + WORD_BASE * WordsValue(ws[1..])
  }

  /** The words of a magnitude, without leading zero words. */
  function WordsOf(m: nat): (ws: seq<Word>)
    ensures WordsValue(ws) == m
  {
    if m == 0 then [] else
    var rest := WordsOf(m / WORD_BASE);
    assert ([m % WORD_BASE] + rest)[1..] == rest;
    [m % WORD_BASE] + rest
  }

  // ----- words and bytes

  lemma Scale(k: int, y: int, p: int, u: int)
    ensures k * (y + p * u) == k * y + (k * p) * u
  {
    assert k * (p * u) == (k * p) * u;
  }

  lemma {:induction false} UnsignedConcat(a: bytes, b: bytes)
    ensures Unsigned(a + b) == Unsigned(a) + Pow256(|a|) * Unsigned(b)
  {
    if a == [] {
      assert a + b == b;
    } else {
      assert (a + b)[1..] == a[1..] + b;
      UnsignedConcat(a[1..], b);
      Scale(256, Unsigned(a[1..]), Pow256(|a| - 1), Unsigned(b));
    }
  }

  lemma Pow256Eight()
    ensures Pow256(8) == WORD_BASE
  {
    assert Pow256(4) == 0x1_0000_0000;
  }

  /** Bytes i..8 of a word shifted in from the top, highest byte first. */
  lemma ShiftIn(b: bytes, w: Word)
    requires 1 <= |b| <= 8 && w == Unsigned(b[1..])
    ensures (w * 256) % WORD_BASE + b[0] == Unsigned(b) && Unsigned(b) < WORD_BASE
  {
    UnsignedBound(b);
    UnsignedBound(b[1..]);
    Pow256Eight();
    Pow256Monotone(|b|, 8);
  }

  /** Trailing filler: zeros add nothing; 0xFF bytes add all but one of the next power. */
  lemma {:induction false} Filler(b: bytes, x: byte)
    requires forall i :: 0 <= i < |b| ==> b[i] == x
    requires x == 0 || x == 255
    ensures Unsigned(b) == if x == 0 then 0 else Pow256(|b|) - 1
  {
    if b != [] { Filler(b[1..], x); }
  }

  // ----- the code

  /** The size without the trailing bytes that only repeat the sign. */
  method GetEffectiveSize(buf: bytes, isNeg: bool) returns (size: nat)
    ensures size <= |buf|
    ensures forall i :: size <= i < |buf| ==> buf[i] == if isNeg then 255 else 0
    ensures size > 0 ==> buf[size - 1] != if isNeg then 255 else 0
  {
    var b: byte := 0;
    if isNeg {
      b := 255;
    }
    size := |buf|;
    while size > 0
      invariant size <= |buf|
      invariant forall i :: size <= i < |buf| ==> buf[i] == b
    {
      if buf[size - 1] != b {
        break;
      }
      size := size - 1;
    }
  }

  lemma Minus(p: int, q: int)
    ensures p * (q - 1) == p * q - p
  {
  }

  /** Dropping the filler costs a power of 256 exactly when it stands for a sign. */
  lemma SignedOfTrimmed(b: bytes, size: nat, isNeg: bool)
    requires b != [] && size <= |b| && isNeg == Negative(b)
    requires forall i :: size <= i < |b| ==> b[i] == if isNeg then 255 else 0
    ensures Signed(b) == Unsigned(b[..size]) - if isNeg then Pow256(size) else 0
  {
    var low, high := b[..size], b[size..];
    assert b == low + high;
    UnsignedConcat(low, high);
    Filler(high, if isNeg then 255 else 0);
    Pow256Sum(size, |high|);
    if isNeg { Minus(Pow256(size), Pow256(|high|)); }
  }

  lemma {:induction false} Pow256Sum(i: nat, j: nat)
    ensures Pow256(i + j) == Pow256(i) * Pow256(j)
    decreases i
  {
    if i > 0 {
      Pow256Sum(i - 1, j);
      var p, q := Pow256(i - 1), Pow256(j);
      assert 256 * (p * q) == (256 * p) * q;
    }
  }

  lemma {:induction false} WordsConcat(a: seq<Word>, b: seq<Word>)
    ensures WordsValue(a + b) == WordsValue(a) + Pow256(8 * |a|) * WordsValue(b)
  {
    if a == [] {
      assert a + b == b;
    } else {
      assert (a + b)[1..] == a[1..] + b;
      WordsConcat(a[1..], b);
      Pow256Words(|a| - 1);
      Scale(WORD_BASE, WordsValue(a[1..]), Pow256(8 * (|a| - 1)), WordsValue(b));
    }
  }

  lemma Pow256Words(n: nat)
    ensures Pow256(8 * (n + 1)) == WORD_BASE * Pow256(8 * n)
  {
    Pow256Eight();
    Pow256Sum(8, 8 * n);
  }

  lemma OneWord(w: Word)
    ensures WordsValue([w]) == w
  {
    assert [w][1..] == [];
    assert WordsValue([]) == 0;
  }

  /** One more word holds the bytes that follow. */
  lemma AppendWord(ws: seq<Word>, w: Word, front: bytes, back: bytes)
    requires |front| == 8 * |ws| && WordsValue(ws) == Unsigned(front) && w == Unsigned(back)
    ensures WordsValue(ws + [w]) == Unsigned(front + back)
  {
    WordsConcat(ws, [w]);
    UnsignedConcat(front, back);
    OneWord(w);
  }

  /** Inverting every word turns the value v into the all-ones value less v. */
  function Inverted(ws: seq<Word>): (r: seq<Word>)
    ensures |r| == |ws| && forall i :: 0 <= i < |ws| ==> r[i] == WORD_BASE - 1 - ws[i]
  {
    seq(|ws|, i requires 0 <= i < |ws| => WORD_BASE - 1 - ws[i])
  }

  lemma {:induction false} InvertedValue(ws: seq<Word>)
    ensures WordsValue(Inverted(ws)) == Pow256(8 * |ws|) - 1 - WordsValue(ws)
  {
    if ws != [] {
      assert Inverted(ws)[1..] == Inverted(ws[1..]);
      InvertedValue(ws[1..]);
      Pow256Words(|ws| - 1);
    }
  }

  /** The top word holds only r bytes; masking it after the inversion keeps r bytes of ones. */
  lemma MaskTop(top: Word, r: nat)
    requires r < 8 && top < Pow256(r)
    ensures (WORD_BASE - 1 - top) % Pow256(r) == Pow256(r) - 1 - top
  {
    SmallPowers();
    if r < 4 { MaskTopLow(top, r); } else { MaskTopHigh(top, r); }
  }

  lemma MaskTopLow(top: Word, r: nat)
    requires r < 4 && top < [1, 0x100, 0x1_0000, 0x100_0000][r]
    ensures var p := [1, 0x100, 0x1_0000, 0x100_0000][r]; (WORD_BASE - 1 - top) % p == p - 1 - top
  {
    if r == 0 { } else if r == 1 { } else if r == 2 { } else { }
  }

  lemma MaskTopHigh(top: Word, r: nat)
    requires 4 <= r < 8 && top < [0x1_0000_0000, 0x100_0000_0000, 0x1_0000_0000_0000, 0x100_0000_0000_0000][r - 4]
    ensures var p := [0x1_0000_0000, 0x100_0000_0000, 0x1_0000_0000_0000, 0x100_0000_0000_0000][r - 4];
            (WORD_BASE - 1 - top) % p == p - 1 - top
  {
    if r == 4 { } else if r == 5 { } else if r == 6 { } else { }
  }

  lemma SmallPowers()
    ensures Pow256(0) == 1 && Pow256(1) == 0x100 && Pow256(2) == 0x1_0000 && Pow256(3) == 0x100_0000
    ensures Pow256(4) == 0x1_0000_0000 && Pow256(5) == 0x100_0000_0000
    ensures Pow256(6) == 0x1_0000_0000_0000 && Pow256(7) == 0x100_0000_0000_0000
  {
  }

  lemma PowerFits(r: nat)
    requires r < 8
    ensures Pow256(r) <= WORD_BASE
  {
    SmallPowers();
    Pow256Monotone(r, 7);
  }

  /** The whole string sits in the words: size / 8 full ones and the rest in one more. */
  ghost predicate Packed(ws: seq<Word>, data: bytes) {
    && |ws| == |data| / 8 + 1
    && ws[|data| / 8] < Pow256(|data| % 8)
    && WordsValue(ws) == Unsigned(data)
  }

  /** Inverting the words, the top one only as far as its r bytes go; q is what they can count to. */
  lemma {:induction false} InvertSplit(low: seq<Word>, top: Word, q: nat)
    requires top < q <= WORD_BASE
    ensures WordsValue(Inverted(low) + [q - 1 - top]) == Pow256(8 * |low|) * q - 1 - WordsValue(low + [top])
    decreases |low|
  {
    var u: Word := q - 1 - top;
    if low == [] {
      OneWord(u);
      OneWord(top);
      assert [] + [u] == [u] && [] + [top] == [top];
    } else {
      InvertSplit(low[1..], top, q);
      FirstInverted(low, u, top);
      Pow256Words(|low| - 1);
      Longer(Pow256(8 * (|low| - 1)), q, low[0], WordsValue(low[1..] + [top]));
    }
  }

  /** The first word apart. */
  lemma FirstInverted(low: seq<Word>, u: Word, top: Word)
    requires low != []
    ensures WordsValue(Inverted(low) + [u]) == WORD_BASE - 1 - low[0] + WORD_BASE * WordsValue(Inverted(low[1..]) + [u])
    ensures WordsValue(low + [top]) == low[0] + WORD_BASE * WordsValue(low[1..] + [top])
  {
    InvertedRest(low, u);
    WordsFirst(Inverted(low) + [u]);
    WordsFirst(low + [top]);
    assert (low + [top])[1..] == low[1..] + [top];
  }

  lemma InvertedRest(low: seq<Word>, u: Word)
    requires low != []
    ensures (Inverted(low) + [u])[0] == WORD_BASE - 1 - low[0]
    ensures (Inverted(low) + [u])[1..] == Inverted(low[1..]) + [u]
  {
  }

  lemma WordsFirst(ws: seq<Word>)
    requires ws != []
    ensures WordsValue(ws) == ws[0] + WORD_BASE * WordsValue(ws[1..])
  {
  }

  lemma Longer(p: int, q: int, x: int, w: int)
    ensures WORD_BASE - 1 - x + WORD_BASE * (p * q - 1 - w) == WORD_BASE * p * q - 1 - (x + WORD_BASE * w)
  {
  }

  /** That inverts the bytes of the string they hold. */
  lemma InvertPacked(ws: seq<Word>, data: bytes)
    requires Packed(ws, data)
    ensures var lw, r := |data| / 8, |data| % 8;
            && 0 <= Pow256(r) - 1 - ws[lw] < WORD_BASE
            && WordsValue(Inverted(ws[..lw]) + [Pow256(r) - 1 - ws[lw]]) == Pow256(|data|) - 1 - Unsigned(data)
  {
    var lw, r := |data| / 8, |data| % 8;
    PowerFits(r);
    WholeOf(|data|, lw, r);
    InvertAll(ws, lw, Pow256(r), Pow256(|data|));
  }

  lemma InvertAll(ws: seq<Word>, lw: nat, q: nat, whole: nat)
    requires |ws| == lw + 1 && ws[lw] < q <= WORD_BASE && IsProduct(whole, Pow256(8 * lw), q)
    ensures 0 <= q - 1 - ws[lw] < WORD_BASE
    ensures WordsValue(Inverted(ws[..lw]) + [q - 1 - ws[lw]]) == whole - 1 - WordsValue(ws)
  {
    TopApart(ws, lw);
    InvertWords(ws[..lw], lw, ws[lw], q, whole);
  }

  lemma TopApart(ws: seq<Word>, lw: nat)
    requires |ws| == lw + 1
    ensures ws == ws[..lw] + [ws[lw]]
  {
  }

  lemma WholeOf(n: nat, lw: nat, r: nat)
    requires n == 8 * lw + r
    ensures IsProduct(Pow256(n), Pow256(8 * lw), Pow256(r))
  {
    Pow256Sum(8 * lw, r);
  }

  predicate IsProduct(whole: int, p: int, q: int) { whole == p * q }

  lemma InvertWords(low: seq<Word>, lw: nat, top: Word, q: nat, whole: nat)
    requires |low| == lw && top < q <= WORD_BASE && IsProduct(whole, Pow256(8 * lw), q)
    ensures WordsValue(Inverted(low) + [q - 1 - top]) == whole - 1 - WordsValue(low + [top])
  {
    InvertSplit(low, top, q);
  }

  /** Shifts at most eight bytes into one word, highest byte first. */
  method PackWord(b: bytes) returns (w: Word)
    requires |b| <= WORD_BYTES
    ensures w == Unsigned(b)
  {
    w := 0;
    var j := |b| - 1;
    while j >= 0
      invariant -1 <= j < |b|
      invariant w == Unsigned(b[j + 1..])
    {
      ShiftIn(b[j..], w);
      assert b[j..][1..] == b[j + 1..];
      // the low byte is clear after the shift, so the xor of the code is a sum
      w := (w * 256) % WORD_BASE + b[j];
      j := j - 1;
    }
  }

  /** Full words first; the last word takes the bytes that are left over, perhaps none. */
  method PackWords(data: bytes) returns (ws: array<Word>)
    ensures fresh(ws) && Packed(ws[..], data)
  {
    var lw := |data| / WORD_BYTES;
    ws := new Word[lw + 1](_ => 0);
    for i := 0 to lw
      invariant WordsValue(ws[..i]) == Unsigned(data[..8 * i])
    {
      var base := i * WORD_BYTES;
      ghost var front := ws[..i];
      ws[i] := PackWord(data[base..base + 8]);
      AppendWord(front, ws[i], data[..8 * i], data[base..base + 8]);
      assert ws[..i + 1] == front + [ws[i]];
      assert data[..8 * (i + 1)] == data[..8 * i] + data[base..base + 8];
    }
    ghost var front := ws[..lw];
    ws[lw] := PackWord(data[lw * WORD_BYTES..]);
    AppendWord(front, ws[lw], data[..8 * lw], data[8 * lw..]);
    UnsignedBound(data[8 * lw..]);
    assert ws[..] == front + [ws[lw]];
    assert data == data[..8 * lw] + data[8 * lw..];
  }

  /** Inverts every word. */
  method InvertWordByWord(ws: array<Word>)
    modifies ws
    ensures ws[..] == Inverted(old(ws[..]))
  {
    for i := 0 to ws.Length
      invariant forall k :: 0 <= k < ws.Length ==> ws[k] == if k < i then WORD_BASE - 1 - old(ws[k]) else old(ws[k])
    {
      ws[i] := WORD_BASE - 1 - ws[i];
    }
  }

  /** Inverts the bytes that the words hold; the bits behind the last byte are masked. */
  method InvertWithin(ws: array<Word>, lw: nat, r: nat, ghost data: bytes)
    requires Packed(ws[..], data) && lw == |data| / WORD_BYTES && r == |data| % WORD_BYTES
    modifies ws
    ensures WordsValue(ws[..]) == Pow256(|data|) - 1 - Unsigned(data)
  {
    ghost var packed := ws[..];
    InvertWordByWord(ws);
    InvertPacked(packed, data);
    MaskTop(packed[lw], r);
    // keeping the low bits that the mask of the code leaves is a remainder
    ws[lw] := ws[lw] % Pow256(r);
    assert ws[..] == Inverted(packed[..lw]) + [Pow256(r) - 1 - packed[lw]];
  }

  /** The signed value of a byte string. */
  method BytesToInt(data: bytes) returns (n: int)
    ensures n == Signed(data)
  {
    var size := |data|;
    if size == 0 {
      return 0;
    }

    var isNeg := data[size - 1] >= 0x80;

    size := GetEffectiveSize(data, isNeg);
    SignedOfTrimmed(data, size, isNeg);
    if size == 0 {
      if isNeg {
        return -1;
      }
      return 0;
    }

    var lw := size / WORD_BYTES;
    var ws := PackWords(data[..size]);

    if isNeg {
      InvertWithin(ws, lw, size % WORD_BYTES, data[..size]);
      n := WordsValue(ws[..]);
      n := -n;
      return n - 1;
    }

    return WordsValue(ws[..]);
  }

  // ----- the other direction

  method WordsToBytes(ws: seq<Word>) returns (bs: bytes)
    ensures |bs| == 8 * |ws| && Unsigned(bs) == WordsValue(ws)
  {
    bs := [];
    for i := 0 to |ws|
      invariant |bs| == 8 * i && Unsigned(bs) == WordsValue(ws[..i])
    {
      Pow256Eight();
      LittleEndianValue(ws[i], 8);
      AppendWord(ws[..i], ws[i], bs, LittleEndian(ws[i], 8));
      assert ws[..i + 1] == ws[..i] + [ws[i]];
      bs := bs + LittleEndian(ws[i], 8);
    }
    assert ws[..|ws|] == ws;
  }

  /** Inverting all bytes of a string turns its value n into -n - 1 and keeps it canonical. */
  function Flipped(b: bytes): (r: bytes)
    ensures |r| == |b| && forall i :: 0 <= i < |b| ==> r[i] == 255 - b[i]
  {
    seq(|b|, i requires 0 <= i < |b| => 255 - b[i])
  }

  lemma {:induction false} FlippedUnsigned(b: bytes)
    ensures Unsigned(Flipped(b)) == Pow256(|b|) - 1 - Unsigned(b)
  {
    if b != [] {
      assert Flipped(b)[1..] == Flipped(b[1..]);
      FlippedUnsigned(b[1..]);
    }
  }

  lemma FlippedSigned(b: bytes)
    requires b != []
    ensures Signed(Flipped(b)) == -Signed(b) - 1
    ensures Canonical(b) ==> Canonical(Flipped(b))
  {
    FlippedUnsigned(b);
  }

  /** The canonical string of n, by way of the words of |n| or |n + 1|. */
  method IntToBytes(n: int) returns (data: bytes)
    ensures data == Encode(n)
  {
    if n == 0 {
      return [0];
    }

    var ws;
    if n > 0 {
      ws := WordsOf(n);
    } else {
      var n1 := n + 1;
      if n1 == 0 {
        return [0xFF];
      }
      ws := WordsOf(-n1);
    }

    data := WordsToBytes(ws);
    ghost var m := if n > 0 then n else -(n + 1);

    var size := |data|;
    assert data[..size] == data;
    while data[size - 1] == 0
      decreases size
      invariant 0 < size <= |data|
      invariant Unsigned(data[..size]) == m
    {
      Trim(data[..size]);
      assert data[..size][..size - 1] == data[..size - 1];
      size := size - 1;
    }
    data := data[..size];

    if data[size - 1] >= 0x80 {
      AppendZero(data);
      data := data + [0];
    }
    assert Signed(data) == m && Canonical(data);

    if n < 0 {
      ghost var plain := data;
      for i := 0 to |data|
        invariant |data| == |plain|
        invariant forall k :: 0 <= k < |data| ==> data[k] == if k < i then Flipped(plain)[k] else plain[k]
      {
        var x: byte := data[i];
        data := data[i := 255 - x];
      }
      assert data == Flipped(plain);
      FlippedSigned(plain);
    }
    CanonicalIsValue(data, n);
  }

  lemma CanonicalIsValue(b: bytes, n: int)
    requires Canonical(b) && Signed(b) == n
    ensures b == Encode(n)
  {
    CanonicalIsEncode(b);
  }

  lemma Trim(b: bytes)
    requires b != [] && b[|b| - 1] == 0
    ensures Unsigned(b[..|b| - 1]) == Unsigned(b) && (|b| == 1 ==> Unsigned(b) == 0)
  {
    assert b == b[..|b| - 1] + [0];
    UnsignedConcat(b[..|b| - 1], [0]);
  }

  lemma AppendZero(b: bytes)
    ensures Unsigned(b + [0]) == Unsigned(b)
  {
    UnsignedConcat(b, [0]);
  }
}
