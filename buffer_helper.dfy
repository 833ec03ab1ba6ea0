/** Little- and big-endian access to byte buffers (src/shared/helper/BufferHelper.h).
    The C++ helpers combine bytes with shifts and bitwise or; as the shifted
    bytes never overlap, the or is the sum written here. */
module BufferHelper {

  type Byte = b: int | 0 <= b < 0x100
  type U16 = x: int | 0 <= x < 0x1_0000
  type U32 = x: int | 0 <= x < 0x1_0000_0000
  type U64 = x: int | 0 <= x < 0x1_0000_0000_0000_0000

  /** 256 to the power n. */
  function Pow256(n: nat): (p: nat)
    ensures p > 0
  {
    if n == 0 then 1 else 0x100 * Pow256(n - 1)
  }

  /** The value of a byte sequence read least significant byte first. */
  function LeValue(bs: seq<Byte>): (v: nat)
    ensures v < Pow256(|bs|)
  {
    if bs == [] then 0 else bs[0] + 0x100 * LeValue(bs[1..])
  }

  /** The n low bytes of v, least significant first. */
  function LeBytes(v: nat, n: nat): (bs: seq<Byte>)
    ensures |bs| == n
  {
    if n == 0 then [] else [v % 0x100] + LeBytes(v / 0x100, n - 1)
  }

  /** The bytes of s in the opposite order. */
  function Reverse(s: seq<Byte>): (r: seq<Byte>)
    ensures |r| == |s|
    ensures forall k :: 0 <= k < |s| ==> r[k] == s[|s| - 1 - k]
  {
    if s == [] then [] else Reverse(s[1..]) + [s[0]]
  }

  // ---------------------------------------------------------------------
  // Arithmetic facts about division by a product

  lemma MulNonneg(a: int, b: int)
    requires a >= 0 && b >= 0
    ensures a * b >= 0
  {}

  /** Euclidean division is unique: a quotient and remainder in range are the ones. */
  lemma DivUnique(v: int, d: int, q: int, r: int)
    requires d > 0 && 0 <= r < d && v == q * d + r
    ensures v / d == q && v % d == r
  {
    var q', r' := v / d, v % d;
    assert v == q' * d + r';
    assert (q' - q) * d == r - r' by {
      assert q' * d - q * d == (q' - q) * d;
    }
    if q' > q {
      MulNonneg(q' - q - 1, d);
      assert false;
    } else if q' < q {
      MulNonneg(q - q' - 1, d);
      assert false;
    }
  }

  lemma DivModMul(v: nat, a: nat, b: nat)
    requires a > 0 && b > 0
    ensures v / (a * b) == v / a / b
    ensures v % (a * b) == v % a + a * (v / a % b)
  {
    var q := v / a;
    var q2, r2 := q / b, q % b;
    assert v == q * a + v % a;
    assert q == q2 * b + r2;
    MulNonneg(a, b - 1 - r2);
    assert a * (b - 1 - r2) == a * b - a - a * r2;
    assert v == q2 * (a * b) + (a * r2 + v % a) by {
      assert q * a == (q2 * b + r2) * a == q2 * (a * b) + a * r2;
    }
    MulNonneg(a, r2);
    DivUnique(v, a * b, q2, a * r2 + v % a);
  }

  // ---------------------------------------------------------------------
  // Properties of the little-endian encoding

  /** Byte k of the encoding of v is bits 8k..8k+7 of v, as the writers shift it out. */
  lemma {:induction false} LeBytesAt(v: nat, n: nat, k: nat)
    requires k < n
    ensures LeBytes(v, n)[k] == v / Pow256(k) % 0x100
  {
    if k > 0 {
      LeBytesAt(v / 0x100, n - 1, k - 1);
      DivModMul(v, 0x100, Pow256(k - 1));
    }
  }

  /** Decoding the n-byte encoding of v gives v back, reduced modulo 256^n. */
  lemma {:induction false} LeValueOfLeBytes(v: nat, n: nat)
    ensures LeValue(LeBytes(v, n)) == v % Pow256(n)
  {
    if n > 0 {
      var bs := LeBytes(v, n);
      assert bs[1..] == LeBytes(v / 0x100, n - 1);
      LeValueOfLeBytes(v / 0x100, n - 1);
      DivModMul(v, 0x100, Pow256(n - 1));
    }
  }

  /** Encoding a value that fits in n bytes and decoding it is the identity. */
  lemma LeRoundTrip(v: nat, n: nat)
    requires v < Pow256(n)
    ensures LeValue(LeBytes(v, n)) == v
  {
    LeValueOfLeBytes(v, n);
  }

  /** Re-encoding the value of a byte sequence gives the same bytes. */
  lemma {:induction false} LeBytesOfLeValue(bs: seq<Byte>)
    ensures LeBytes(LeValue(bs), |bs|) == bs
  {
    if bs != [] {
      var v := LeValue(bs);
      DivUnique(v, 0x100, LeValue(bs[1..]), bs[0]);
      LeBytesOfLeValue(bs[1..]);
    }
  }

  lemma LeValue2(w: seq<Byte>)
    requires |w| == 2
    ensures LeValue(w) == w[0] + w[1] as int * 0x100
  {
    assert w[1..][1..] == [];
  }

  lemma LeValue4(w: seq<Byte>)
    requires |w| == 4
    ensures LeValue(w) == w[0] + w[1] as int * 0x100 + w[2] as int * 0x1_0000 + w[3] as int * 0x100_0000
  {
    LeValue2(w[2..]);
    assert w[1..][1..] == w[2..];
  }

  lemma LeValue8(w: seq<Byte>)
    requires |w| == 8
    ensures LeValue(w) == w[0] + w[1] as int * 0x100 + w[2] as int * 0x1_0000 + w[3] as int * 0x100_0000
                        + w[4] as int * 0x1_0000_0000 + w[5] as int * 0x100_0000_0000
                        + w[6] as int * 0x1_0000_0000_0000 + w[7] as int * 0x100_0000_0000_0000
  {
    LeValue4(w[4..]);
    LeValue4(w[..4]);
    assert w[1..][1..][1..][1..] == w[4..];
    assert LeValue(w[1..][1..][1..]) == w[3] + 0x100 * LeValue(w[4..]);
    assert LeValue(w[1..][1..]) == w[2] + 0x100 * LeValue(w[1..][1..][1..]);
  }

  // ---------------------------------------------------------------------
  // Readers

  function Read8(buffer: seq<Byte>, offset: nat): (r: Byte)
    requires offset + 1 <= |buffer|
    ensures r == LeValue(buffer[offset..offset + 1])
  {
    assert buffer[offset..offset + 1][1..] == [];
    buffer[offset]
  }

  function Read16Le(buffer: seq<Byte>, offset: nat): (r: U16)
    requires offset + 2 <= |buffer|
    ensures r == LeValue(buffer[offset..offset + 2])
  {
    LeValue2(buffer[offset..offset + 2]);
    buffer[offset] as int + buffer[offset + 1] as int * 0x100
  }

  function Read16Be(buffer: seq<Byte>, offset: nat): (r: U16)
    requires offset + 2 <= |buffer|
    ensures r == LeValue(Reverse(buffer[offset..offset + 2]))
  {
    LeValue2(Reverse(buffer[offset..offset + 2]));
    buffer[offset] as int * 0x100 + buffer[offset + 1]
  }

  function Read32Le(buffer: seq<Byte>, offset: nat): (r: U32)
    requires offset + 4 <= |buffer|
    ensures r == LeValue(buffer[offset..offset + 4])
  {
    LeValue4(buffer[offset..offset + 4]);
    buffer[offset] as int + buffer[offset + 1] as int * 0x100
      + buffer[offset + 2] as int * 0x1_0000 + buffer[offset + 3] as int * 0x100_0000
  }

  function Read32Be(buffer: seq<Byte>, offset: nat): (r: U32)
    requires offset + 4 <= |buffer|
    ensures r == LeValue(Reverse(buffer[offset..offset + 4]))
  {
    LeValue4(Reverse(buffer[offset..offset + 4]));
    buffer[offset] as int * 0x100_0000 + buffer[offset + 1] as int * 0x1_0000
      + buffer[offset + 2] as int * 0x100 + buffer[offset + 3]
  }

  function Read64Le(buffer: seq<Byte>, offset: nat): (r: U64)
    requires offset + 8 <= |buffer|
    ensures r == LeValue(buffer[offset..offset + 8])
  {
    LeValue8(buffer[offset..offset + 8]);
    buffer[offset] as int + buffer[offset + 1] as int * 0x100
      + buffer[offset + 2] as int * 0x1_0000 + buffer[offset + 3] as int * 0x100_0000
      + buffer[offset + 4] as int * 0x1_0000_0000 + buffer[offset + 5] as int * 0x100_0000_0000
      + buffer[offset + 6] as int * 0x1_0000_0000_0000 + buffer[offset + 7] as int * 0x100_0000_0000_0000
  }

  function Read64Be(buffer: seq<Byte>, offset: nat): (r: U64)
    requires offset + 8 <= |buffer|
    ensures r == LeValue(Reverse(buffer[offset..offset + 8]))
  {
    LeValue8(Reverse(buffer[offset..offset + 8]));
    buffer[offset] as int * 0x100_0000_0000_0000 + buffer[offset + 1] as int * 0x1_0000_0000_0000
      + buffer[offset + 2] as int * 0x100_0000_0000 + buffer[offset + 3] as int * 0x1_0000_0000
      + buffer[offset + 4] as int * 0x100_0000 + buffer[offset + 5] as int * 0x1_0000
      + buffer[offset + 6] as int * 0x100 + buffer[offset + 7]
  }

  // ---------------------------------------------------------------------
  // Writers: each stores the little-endian encoding of value at offset
  // and leaves every other byte of the buffer as it was.

  method Write8(buffer: array<Byte>, offset: nat, value: Byte)
    requires offset + 1 <= buffer.Length
    modifies buffer
    ensures buffer[..] == old(buffer[..])[..offset] + LeBytes(value, 1) + old(buffer[..])[offset + 1..]
  {
    buffer[offset] := value % 0x100;
  }

  method Write16Le(buffer: array<Byte>, offset: nat, value: U16)
    requires offset + 2 <= buffer.Length
    modifies buffer
    ensures buffer[..] == old(buffer[..])[..offset] + LeBytes(value, 2) + old(buffer[..])[offset + 2..]
  {
    buffer[offset] := value % 0x100;
    buffer[offset + 1] := value / 0x100 % 0x100;
    WrittenWindow(buffer[..], old(buffer[..]), offset, value, 2);
  }

  method Write32Le(buffer: array<Byte>, offset: nat, value: U32)
    requires offset + 4 <= buffer.Length
    modifies buffer
    ensures buffer[..] == old(buffer[..])[..offset] + LeBytes(value, 4) + old(buffer[..])[offset + 4..]
  {
    buffer[offset] := value % 0x100;
    buffer[offset + 1] := value / 0x100 % 0x100;
    buffer[offset + 2] := value / 0x1_0000 % 0x100;
    buffer[offset + 3] := value / 0x100_0000 % 0x100;
    assert Pow256(1) == 0x100;
    assert Pow256(2) == 0x1_0000;
    assert Pow256(3) == 0x100_0000;
    WrittenWindow(buffer[..], old(buffer[..]), offset, value, 4);
  }

  method Write64Le(buffer: array<Byte>, offset: nat, value: U64)
    requires offset + 8 <= buffer.Length
    modifies buffer
    ensures buffer[..] == old(buffer[..])[..offset] + LeBytes(value, 8) + old(buffer[..])[offset + 8..]
  {
    buffer[offset] := value % 0x100;
    buffer[offset + 1] := value / 0x100 % 0x100;
    buffer[offset + 2] := value / 0x1_0000 % 0x100;
    buffer[offset + 3] := value / 0x100_0000 % 0x100;
    buffer[offset + 4] := value / 0x1_0000_0000 % 0x100;
    buffer[offset + 5] := value / 0x100_0000_0000 % 0x100;
    buffer[offset + 6] := value / 0x1_0000_0000_0000 % 0x100;
    buffer[offset + 7] := value / 0x100_0000_0000_0000 % 0x100;
    assert Pow256(1) == 0x100;
    assert Pow256(2) == 0x1_0000;
    assert Pow256(3) == 0x100_0000;
    assert Pow256(4) == 0x1_0000_0000;
    assert Pow256(5) == 0x100_0000_0000;
    assert Pow256(6) == 0x1_0000_0000_0000;
    assert Pow256(7) == 0x100_0000_0000_0000;
    WrittenWindow(buffer[..], old(buffer[..]), offset, value, 8);
  }

  /** A buffer whose window [offset, offset + n) holds bits 8k..8k+7 of value
      at position offset + k, and agrees with before elsewhere, is before with
      the window replaced by the encoding. */
  lemma WrittenWindow(after: seq<Byte>, before: seq<Byte>, offset: nat, value: nat, n: nat)
    requires |after| == |before| && offset + n <= |before|
    requires forall k :: 0 <= k < n ==> after[offset + k] == value / Pow256(k) % 0x100
    requires forall i :: 0 <= i < |before| && !(offset <= i < offset + n) ==> after[i] == before[i]
    ensures after == before[..offset] + LeBytes(value, n) + before[offset + n..]
  {
    var rhs := before[..offset] + LeBytes(value, n) + before[offset + n..];
    forall i | 0 <= i < |after| ensures after[i] == rhs[i] {
      if offset <= i < offset + n {
        LeBytesAt(value, n, i - offset);
      }
    }
  }

  /** Reading back what a writer stored gives the written value. */
  lemma ReadAfterWrite8(buffer: seq<Byte>, offset: nat, value: Byte)
    requires offset + 1 <= |buffer|
    ensures Read8(buffer[..offset] + LeBytes(value, 1) + buffer[offset + 1..], offset) == value
  {
    var b := buffer[..offset] + LeBytes(value, 1) + buffer[offset + 1..];
    assert b[offset..offset + 1] == LeBytes(value, 1);
    LeRoundTrip(value, 1);
  }

  lemma ReadAfterWrite16(buffer: seq<Byte>, offset: nat, value: U16)
    requires offset + 2 <= |buffer|
    ensures Read16Le(buffer[..offset] + LeBytes(value, 2) + buffer[offset + 2..], offset) == value
  {
    var b := buffer[..offset] + LeBytes(value, 2) + buffer[offset + 2..];
    assert b[offset..offset + 2] == LeBytes(value, 2);
    LeRoundTrip(value, 2);
  }

  lemma ReadAfterWrite32(buffer: seq<Byte>, offset: nat, value: U32)
    requires offset + 4 <= |buffer|
    ensures Read32Le(buffer[..offset] + LeBytes(value, 4) + buffer[offset + 4..], offset) == value
  {
    var b := buffer[..offset] + LeBytes(value, 4) + buffer[offset + 4..];
    assert b[offset..offset + 4] == LeBytes(value, 4);
    LeRoundTrip(value, 4);
  }

  lemma ReadAfterWrite64(buffer: seq<Byte>, offset: nat, value: U64)
    requires offset + 8 <= |buffer|
    ensures Read64Le(buffer[..offset] + LeBytes(value, 8) + buffer[offset + 8..], offset) == value
  {
    var b := buffer[..offset] + LeBytes(value, 8) + buffer[offset + 8..];
    assert b[offset..offset + 8] == LeBytes(value, 8);
    LeRoundTrip(value, 8);
  }
}
