/** Bytes and big-endian numbers, as the backup archive's framing writes them. */
module Bytes {

  type byte = b: int | 0 <= b < 256

  const TWO_63: int := 0x8000_0000_0000_0000
  const TWO_64: int := 0x1_0000_0000_0000_0000

  /** The k low bytes of n, most significant first. */
  function BigEndian(n: nat, k: nat): (s: seq<byte>)
    ensures |s| == k
  {
    if k == 0 then [] else BigEndian(n / 256, k - 1) + [n % 256]
  }

  function Number(s: seq<byte>): nat {
    if s == [] then 0 else Number(s[..|s| - 1]) * 256 + s[|s| - 1]
  }

  function Pow256(k: nat): nat {
    if k == 0 then 1 else 256 * Pow256(k - 1)
  }

  lemma {:induction false} NumberOfBigEndian(n: nat, k: nat)
    requires n < Pow256(k)
    ensures Number(BigEndian(n, k)) == n
  {
    if k > 0 {
      NumberOfBigEndian(n / 256, k - 1);
      assert BigEndian(n, k)[..k - 1] == BigEndian(n / 256, k - 1);
    }
  }

  lemma {:induction false} BigEndianOfNumber(s: seq<byte>)
    ensures Number(s) < Pow256(|s|)
    ensures BigEndian(Number(s), |s|) == s
  {
    if s != [] {
      var front, last := s[..|s| - 1], s[|s| - 1];
      BigEndianOfNumber(front);
      assert Number(s) / 256 == Number(front) && Number(s) % 256 == last;
      assert s == front + [last];
    }
  }

  lemma {:induction false} Shifted(first: int, pow: int, front: int, last: int)
    ensures (first * pow + front) * 256 + last == first * (256 * pow) + (front * 256 + last)
  {
  }

  lemma {:induction false} EightBytes()
    ensures Pow256(8) == TWO_64
  {
    assert Pow256(2) == 65536;
    assert Pow256(4) == 0x1_0000_0000;
    assert Pow256(6) == 0x1_0000_0000_0000;
  }

  /** The 64-bit word of an int64, and back. */
  function ToUint64(x: int): (u: nat)
    requires -TWO_63 <= x < TWO_63
    ensures u < TWO_64
  {
    if x < 0 then x + TWO_64 else x
  }

  function ToInt64(u: nat): int
    requires u < TWO_64
  {
    if u < TWO_63 then u else u - TWO_64
  }

  function Word(x: int): (s: seq<byte>)
    requires -TWO_63 <= x < TWO_63
    ensures |s| == 8
  {
    BigEndian(ToUint64(x), 8)
  }

  function ReadWord(s: seq<byte>): int
    requires |s| == 8
  {
    EightBytes();
    BigEndianOfNumber(s);
    ToInt64(Number(s))
  }

  lemma {:induction false} WordRoundTrip(x: int)
    requires -TWO_63 <= x < TWO_63
    ensures ReadWord(Word(x)) == x
  {
    EightBytes();
    NumberOfBigEndian(ToUint64(x), 8);
  }

  /** Four bytes, the most significant first. */
  function Quad(a: int, b: int, c: int, d: int): int {
    ((a * 256 + b) * 256 + c) * 256 + d
  }

  lemma {:induction false} FourBytes(s: seq<byte>)
    requires |s| == 4
    ensures Number(s) == Quad(s[0], s[1], s[2], s[3])
  {
    assert Number(s[..1]) == s[0] by { assert s[..1][..0] == []; }
    assert Number(s[..2]) == Number(s[..1]) * 256 + s[1] by { assert s[..2][..1] == s[..1]; }
    assert Number(s[..3]) == Number(s[..2]) * 256 + s[2] by { assert s[..3][..2] == s[..2]; }
  }

  lemma {:induction false} NumberAppend(front: seq<byte>, back: seq<byte>)
    ensures Number(front + back) == Number(front) * Pow256(|back|) + Number(back)
  {
    if back == [] {
      assert front + back == front;
    } else {
      var n := |back| - 1;
      NumberAppend(front, back[..n]);
      assert (front + back)[..|front + back| - 1] == front + back[..n];
      Shifted(Number(front), Pow256(n), Number(back[..n]), back[n]);
    }
  }

  /** Eight bytes, most significant first; the top bit is the sign. */
  lemma {:induction false} WordIsTwosComplement(s: seq<byte>)
    requires |s| == 8
    ensures ReadWord(s) == Quad(s[0], s[1], s[2], s[3]) * 0x1_0000_0000 + Quad(s[4], s[5], s[6], s[7])
                           - (if s[0] >= 128 then 0x1_0000_0000_0000_0000 else 0)
  {
    var front, back := s[..4], s[4..];
    assert s == front + back;
    NumberAppend(front, back);
    FourBytes(front);
    FourBytes(back);
    assert Pow256(2) == 65536;
    assert Pow256(4) == 0x1_0000_0000;
  }

  lemma {:induction false} WordOfReadWord(s: seq<byte>)
    requires |s| == 8
    ensures -TWO_63 <= ReadWord(s) < TWO_63 && Word(ReadWord(s)) == s
  {
    EightBytes();
    BigEndianOfNumber(s);
  }
}
