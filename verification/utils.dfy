/** Little-endian field decoders (java.nio.ByteBuffer in little-endian
    order) and the upper-case hex dump used in diagnostics. */
module Utils {
  import opened JavaTypes

  /** The unsigned number whose little-endian bytes are `bs`. */
  function LittleEndian(bs: seq<i8>): (r: int)
    ensures 0 <= r < Pow256(|bs|)
  {
    if bs == [] then 0 else Unsigned8(bs[0]) + 0x100 * LittleEndian(bs[1..])
  }

  /** A ByteBuffer over `buffer[offset .. offset + length]` can be created
      and holds at least `width` bytes; otherwise Java throws. */
  predicate Window(buffer: seq<i8>, offset: int, length: int, width: nat)
  {
    0 <= offset <= |buffer| && 0 <= length <= |buffer| - offset && width <= length
  }

  /** `getShort(buffer, offset, length)`: the signed 16-bit number whose
      low byte is buffer[offset] and high byte buffer[offset + 1]. */
  function GetShort(buffer: seq<i8>, offset: int, length: int): (r: i16)
    requires Window(buffer, offset, length, 2)
    ensures r % 0x1_0000 == Unsigned8(buffer[offset]) + 0x100 * Unsigned8(buffer[offset + 1])
  {
    var x := LittleEndian(buffer[offset..offset + 2]);
    LittleEndian2(buffer[offset..offset + 2]);
    WrapResidue(ToI16(x), x, 0x1_0000);
    ToI16(x)
  }

  /** `getInt(buffer, offset, length)`: the signed 32-bit number whose
      bytes, least significant first, are buffer[offset .. offset + 4]. */
  function GetInt(buffer: seq<i8>, offset: int, length: int): (r: i32)
    requires Window(buffer, offset, length, 4)
    ensures r % 0x1_0000_0000 == Unsigned8(buffer[offset]) + 0x100 * Unsigned8(buffer[offset + 1])
                                 + 0x1_0000 * Unsigned8(buffer[offset + 2])
                                 + 0x100_0000 * Unsigned8(buffer[offset + 3])
  {
    var x := LittleEndian(buffer[offset..offset + 4]);
    LittleEndian4(buffer[offset..offset + 4]);
    WrapResidue(ToI32(x), x, 0x1_0000_0000);
    ToI32(x)
  }

  /** `getInt(buffer)`: the same decoding over the whole array, so at
      offset 0. */
  function GetIntAtStart(buffer: seq<i8>): (r: i32)
    requires |buffer| >= 4
    ensures r == GetInt(buffer, 0, |buffer|)
    ensures r % 0x1_0000_0000 == LittleEndian(buffer[..4])
  {
    assert buffer[0..4] == buffer[..4];
    var x := LittleEndian(buffer[..4]);
    LittleEndian4(buffer[..4]);
    WrapResidue(ToI32(x), x, 0x1_0000_0000);
    ToI32(x)
  }

  /** `getLong(buffer, offset, length)`: the signed 64-bit number whose
      bytes, least significant first, are buffer[offset .. offset + 8]. */
  function GetLong(buffer: seq<i8>, offset: int, length: int): (r: i64)
    requires Window(buffer, offset, length, 8)
    ensures r % 0x1_0000_0000_0000_0000 == LittleEndian(buffer[offset..offset + 8])
  {
    var x := LittleEndian(buffer[offset..offset + 8]);
    Pow256Values();
    WrapResidue(ToI64(x), x, 0x1_0000_0000_0000_0000);
    ToI64(x)
  }

  lemma Pow256Values()
    ensures Pow256(1) == 0x100 && Pow256(2) == 0x1_0000
    ensures Pow256(4) == 0x1_0000_0000 && Pow256(8) == 0x1_0000_0000_0000_0000
  {
  }

  lemma LittleEndian2(bs: seq<i8>)
    requires |bs| == 2
    ensures LittleEndian(bs) == Unsigned8(bs[0]) + 0x100 * Unsigned8(bs[1])
  {
    assert bs[1..][1..] == [];
  }

  lemma LittleEndian4(bs: seq<i8>)
    requires |bs| == 4
    ensures LittleEndian(bs) == Unsigned8(bs[0]) + 0x100 * Unsigned8(bs[1])
                                + 0x1_0000 * Unsigned8(bs[2]) + 0x100_0000 * Unsigned8(bs[3])
  {
    LittleEndian2(bs[2..]);
    assert bs[1..][1..] == bs[2..];
  }

  /** Splitting a little-endian number into its low k bytes and the rest. */
  lemma {:induction false} LittleEndianSplit(bs: seq<i8>, k: nat)
    requires k <= |bs|
    ensures LittleEndian(bs) == LittleEndian(bs[..k]) + Pow256(k) * LittleEndian(bs[k..])
  {
    if k == 0 {
      assert bs[..0] == [] && bs[0..] == bs;
    } else {
      var t := bs[1..];
      LittleEndianSplit(t, k - 1);
      var b, hi := Unsigned8(bs[0]), LittleEndian(bs[k..]);
      var mid := LittleEndian(t[..k - 1]);
      assert t[k - 1..] == bs[k..];
      assert LittleEndian(t) == mid + Pow256(k - 1) * hi;
      assert LittleEndian(bs[..k]) == b + 0x100 * mid by {
        assert bs[..k][1..] == t[..k - 1];
      }
      MulAssoc(0x100, Pow256(k - 1), hi);
    }
  }

  lemma MulAssoc(a: int, b: int, c: int)
    ensures a * (b * c) == (a * b) * c
  {
  }

  /** The low k bytes of a little-endian number are its value modulo 256^k. */
  lemma LittleEndianLow(bs: seq<i8>, k: nat)
    requires k <= |bs|
    ensures LittleEndian(bs) % Pow256(k) == LittleEndian(bs[..k])
  {
    LittleEndianSplit(bs, k);
    DivModUnique(LittleEndian(bs), Pow256(k), LittleEndian(bs[k..]), LittleEndian(bs[..k]));
  }

  /** The bytes `ByteOf(x, 0), ByteOf(x, 1), ...` that the frame encoders
      write are the little-endian representation of x modulo 256^n. */
  lemma {:induction false} LittleEndianOfBytes(x: int, bs: seq<i8>)
    requires forall k :: 0 <= k < |bs| ==> bs[k] == ByteOf(x, k)
    ensures LittleEndian(bs) == x % Pow256(|bs|)
    decreases |bs|
  {
    if bs != [] {
      var t := bs[1..];
      forall k | 0 <= k < |t|
        ensures t[k] == ByteOf(x / 0x100, k)
      {
        ByteOfShift(x, k);
      }
      LittleEndianOfBytes(x / 0x100, t);
      assert Unsigned8(bs[0]) == x % 0x100 by {
        assert bs[0] == ByteOf(x, 0);
        ToI8Unsigned(x % 0x100);
      }
      assert Pow256(|bs|) == 0x100 * Pow256(|t|);
      DivMulSplit(x, 0x100, Pow256(|t|));
    }
  }

  /** Byte k + 1 of x is byte k of x shifted right by eight bits. */
  lemma ByteOfShift(x: int, k: nat)
    ensures ByteOf(x, k + 1) == ByteOf(x / 0x100, k)
  {
    assert Pow256(k + 1) == 0x100 * Pow256(k);
    DivMulSplit(x, 0x100, Pow256(k));
  }

  /** Reading back a byte cast from an unsigned byte value gives the value. */
  lemma ToI8Unsigned(v: int)
    requires 0 <= v < 0x100
    ensures Unsigned8(ToI8(v)) == v
  {
  }

  /** A value of n bytes' width survives a trip through its n low bytes and
      back through the signed reading of those bytes. */
  lemma SignedRoundTrip(x: int, u: int, modulus: int)
    requires modulus > 0 && modulus % 2 == 0
    requires -modulus / 2 <= x < modulus / 2
    requires u == x % modulus
    ensures (if u < modulus / 2 then u else u - modulus) == x
  {
    if x >= 0 {
      DivModUnique(x, modulus, 0, x);
    } else {
      DivModUnique(x, modulus, -1, x + modulus);
    }
  }

  const HEX_ARRAY: string := "0123456789ABCDEF"

  /** The value (0 to 15) of an upper-case hex digit. */
  function HexValue(c: char): (v: int)
    ensures 0 <= v < 16
    ensures c in HEX_ARRAY ==> HEX_ARRAY[v] == c
  {
    if '0' <= c <= '9' then c as int - '0' as int
    else if 'A' <= c <= 'F' then c as int - 'A' as int + 10
    else 0
  }

  /** `bytesToHex`: two upper-case hex digits per byte, high nibble first. */
  method BytesToHex(bytes: seq<i8>) returns (hex: string)
    ensures |hex| == 2 * |bytes|
    ensures forall i :: 0 <= i < |bytes| ==>
              hex[2 * i] == HEX_ARRAY[Unsigned8(bytes[i]) / 16] &&
              hex[2 * i + 1] == HEX_ARRAY[Unsigned8(bytes[i]) % 16]
    ensures forall i :: 0 <= i < |bytes| ==>
              16 * HexValue(hex[2 * i]) + HexValue(hex[2 * i + 1]) == Unsigned8(bytes[i])
  {
    var hexChars := new char[|bytes| * 2];
    for i := 0 to |bytes|
      invariant forall k :: 0 <= k < i ==>
                  hexChars[2 * k] == HEX_ARRAY[Unsigned8(bytes[k]) / 16] &&
                  hexChars[2 * k + 1] == HEX_ARRAY[Unsigned8(bytes[k]) % 16]
    {
      var v := Unsigned8(bytes[i]);
      hexChars[i * 2 + 0] := HEX_ARRAY[v / 16];
      hexChars[i * 2 + 1] := HEX_ARRAY[v % 16];
    }
    hex := hexChars[..];
    forall i | 0 <= i < |bytes|
      ensures 16 * HexValue(hex[2 * i]) + HexValue(hex[2 * i + 1]) == Unsigned8(bytes[i])
    {
      HexDigitValue(Unsigned8(bytes[i]) / 16);
      HexDigitValue(Unsigned8(bytes[i]) % 16);
    }
  }

  lemma HexDigitValue(d: int)
    requires 0 <= d < 16
    ensures HexValue(HEX_ARRAY[d]) == d
  {
  }
}
