/**
  The binary writer and reader. Both carry a sticky error: after the first failure nothing is written or
  read any more. Numbers of variable length take one, three, five or nine bytes.
 */
module BinIO {
  import opened Options
  import opened Bytes
  import opened TwosComplement

  const TWO_TO_THE_64 := 0x1_0000_0000_0000_0000

  /** The longest byte string that is read. */
  const MAX_BYTES_SIZE := 0x100_0000

  type uint64 = x: int | 0 <= x < TWO_TO_THE_64

  // ----- the formats

  function VarUint(n: uint64): bytes {
    if n < 0xfd then [n]
    else if n < 0xFFFF then [0xfd] + LittleEndian(n, 2)
    else if n < 0xFFFF_FFFF then [0xfe] + LittleEndian(n, 4)
    else [0xff] + LittleEndian(n, 8)
  }

  /** The length of a byte string as the writer puts it. */
  function Length(n: nat): uint64 { n % TWO_TO_THE_64 }

  function VarBytes(b: bytes): bytes { VarUint(Length(|b|)) + b }

  /** The first n bytes and what follows them. */
  function Split(n: nat, b: bytes): Option<(bytes, bytes)> {
    if n <= |b| then Some((b[..n], b[n..])) else None
  }

  function ParseLittleEndian(n: nat, b: bytes): Option<(nat, bytes)> {
    match Split(n, b)
    case None => None
    case Some((front, rest)) => Some((Unsigned(front), rest))
  }

  function ParseVarUint(b: bytes): Option<(nat, bytes)> {
    if b == [] then None
    else if b[0] == 0xfd then ParseLittleEndian(2, b[1..])
    else if b[0] == 0xfe then ParseLittleEndian(4, b[1..])
    else if b[0] == 0xff then ParseLittleEndian(8, b[1..])
    else Some((b[0], b[1..]))
  }

  function ParseVarBytes(b: bytes): Option<(bytes, bytes)> {
    match ParseVarUint(b)
    case None => None
    case Some((n, rest)) => if n > MAX_BYTES_SIZE then None else Split(n, rest)
  }

  // ----- round trips

  lemma Powers()
    ensures Pow256(2) == 0x1_0000 && Pow256(4) == 0x1_0000_0000 && Pow256(8) == TWO_TO_THE_64
  {
    assert Pow256(2) == 0x1_0000;
    assert Pow256(4) == 0x1_0000_0000;
    assert Pow256(6) == 0x1_0000_0000_0000;
  }

  lemma ParseWritten(n: nat, k: nat, rest: bytes)
    requires n < Pow256(k)
    ensures ParseLittleEndian(k, LittleEndian(n, k) + rest) == Some((n, rest))
  {
    LittleEndianValue(n, k);
    assert (LittleEndian(n, k) + rest)[..k] == LittleEndian(n, k);
    assert (LittleEndian(n, k) + rest)[k..] == rest;
  }

  /** What was written as a number is read as that number, whatever follows it. */
  lemma VarUintRoundTrip(n: uint64, rest: bytes)
    ensures ParseVarUint(VarUint(n) + rest) == Some((n, rest))
  {
    Powers();
    var k := if n < 0xFFFF then 2 else if n < 0xFFFF_FFFF then 4 else 8;
    assert (VarUint(n) + rest)[1..] == (if n < 0xfd then rest else LittleEndian(n, k) + rest);
    if n >= 0xfd { ParseWritten(n, k, rest); }
  }

  /** The same for byte strings; one that is longer than the reader's limit is refused. */
  lemma VarBytesRoundTrip(b: bytes, rest: bytes)
    requires |b| < TWO_TO_THE_64
    ensures ParseVarBytes(VarBytes(b) + rest) == if |b| <= MAX_BYTES_SIZE then Some((b, rest)) else None
  {
    assert VarBytes(b) + rest == VarUint(|b|) + (b + rest);
    VarUintRoundTrip(|b|, b + rest);
    assert (b + rest)[..|b|] == b && (b + rest)[|b|..] == rest;
  }

  lemma ParsedIsShorter(b: bytes)
    ensures ParseVarUint(b).Some? ==> |ParseVarUint(b).value.1| < |b| && ParseVarUint(b).value.0 < TWO_TO_THE_64
    ensures ParseVarBytes(b).Some? ==> |ParseVarBytes(b).value.1| < |b|
  {
    Powers();
    if b != [] {
      forall k | k in {2, 4, 8} && k <= |b[1..]|
        ensures Unsigned(b[1..][..k]) < TWO_TO_THE_64
      {
        UnsignedBound(b[1..][..k]);
      }
    }
  }

  // ----- the writer

  lemma Appended(a: bytes, b: bytes, c: bytes)
    ensures (a + b) + c == a + (b + c)
  {
  }

  class BinWriter {
    var buf: bytes
    var err: bool

    constructor ()
      ensures buf == [] && !err
    {
      buf, err := [], false;
    }

    method WriteBytes(b: bytes)
      modifies this
      ensures err == old(err) && buf == if err then old(buf) else old(buf) + b
    {
      if err {
        return;
      }
      buf := buf + b;
    }

    method WriteB(b: byte)
      modifies this
      ensures err == old(err) && buf == if err then old(buf) else old(buf) + [b]
    {
      WriteBytes([b]);
    }

    method WriteBool(b: bool)
      modifies this
      ensures err == old(err) && buf == if err then old(buf) else old(buf) + [if b then 1 else 0]
    {
      var i: byte := 0;
      if b {
        i := 1;
      }
      WriteB(i);
    }

    method WriteVarUint(n: uint64)
      modifies this
      ensures err == old(err) && buf == if err then old(buf) else old(buf) + VarUint(n)
    {
      if err {
        return;
      }
      if n < 0xfd {
        WriteB(n);
        return;
      }
      if n < 0xFFFF {
        Appended(buf, [0xfd], LittleEndian(n, 2));
        WriteB(0xfd);
        WriteBytes(LittleEndian(n, 2));
        return;
      }
      if n < 0xFFFF_FFFF {
        Appended(buf, [0xfe], LittleEndian(n, 4));
        WriteB(0xfe);
        WriteBytes(LittleEndian(n, 4));
        return;
      }
      Appended(buf, [0xff], LittleEndian(n, 8));
      WriteB(0xff);
      WriteBytes(LittleEndian(n, 8));
    }

    method WriteVarBytes(b: bytes)
      modifies this
      ensures err == old(err) && buf == if err then old(buf) else old(buf) + VarBytes(b)
    {
      Appended(buf, VarUint(Length(|b|)), b);
      WriteVarUint(Length(|b|));
      WriteBytes(b);
    }
  }

  // ----- the reader

  class BinReader {
    var rest: bytes
    var err: bool

    constructor (data: bytes)
      ensures rest == data && !err
    {
      rest, err := data, false;
    }

    /** Fills a buffer of n bytes; too short an input is used up, and the buffer keeps zeros behind it. */
    method ReadBytes(n: nat) returns (b: bytes)
      modifies this
      ensures |b| == n && |rest| <= |old(rest)|
      ensures old(err) ==> err && rest == old(rest)
      ensures !old(err) ==>
                match Split(n, old(rest))
                case None => err
                case Some((front, back)) => !err && b == front && rest == back
    {
      b := seq(n, _ => 0);
      if err {
        return;
      }
      if |rest| < n {
        b := rest + b[|rest|..];
        rest, err := [], true;
      } else {
        b := rest[..n];
        rest := rest[n..];
      }
    }

    method ReadB() returns (b: byte)
      modifies this
      ensures |rest| <= |old(rest)|
      ensures old(err) ==> err && rest == old(rest) && b == 0
      ensures !old(err) && old(rest) == [] ==> err && b == 0
      ensures !old(err) && old(rest) != [] ==> !err && b == old(rest)[0] && rest == old(rest)[1..]
    {
      var u8 := ReadBytes(1);
      if err {
        return 0;
      }
      return u8[0];
    }

    method ReadBool() returns (b: bool)
      modifies this
      ensures |rest| <= |old(rest)|
      ensures old(err) ==> err && rest == old(rest)
      ensures !old(err) && old(rest) == [] ==> err
      ensures !old(err) && old(rest) != [] ==> !err && b == (old(rest)[0] != 0) && rest == old(rest)[1..]
    {
      var i := ReadB();
      return i != 0;
    }

    method ReadLittleEndian(k: nat) returns (n: nat)
      modifies this
      ensures |rest| <= |old(rest)|
      ensures old(err) ==> err && rest == old(rest) && n == 0
      ensures !old(err) ==> match ParseLittleEndian(k, old(rest))
                            case None => err && n == 0
                            case Some((v, back)) => !err && n == v && rest == back
    {
      var b := ReadBytes(k);
      if err {
        return 0;
      }
      return Unsigned(b);
    }

    method ReadVarUint() returns (n: nat)
      modifies this
      ensures |rest| <= |old(rest)|
      ensures old(err) ==> err && rest == old(rest) && n == 0
      ensures !old(err) ==> match ParseVarUint(old(rest))
                            case None => err && n == 0
                            case Some((v, back)) => !err && n == v && rest == back
    {
      if err {
        return 0;
      }
      var b := ReadB();
      if b == 0xfd {
        n := ReadLittleEndian(2);
        return;
      }
      if b == 0xfe {
        n := ReadLittleEndian(4);
        return;
      }
      if b == 0xff {
        n := ReadLittleEndian(8);
        return;
      }
      return b;
    }

    method ReadVarBytes() returns (b: bytes)
      modifies this
      ensures |rest| <= |old(rest)|
      ensures old(err) ==> err && rest == old(rest)
      ensures !old(err) ==> match ParseVarBytes(old(rest))
                            case None => err
                            case Some((v, back)) => !err && b == v && rest == back
    {
      var n := ReadVarUint();
      if n > MAX_BYTES_SIZE {
        err := true;
        return [];
      }
      b := ReadBytes(n);
    }
  }
}
