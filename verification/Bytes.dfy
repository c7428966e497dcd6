/** Bytes, big-endian numbers and hexadecimal text. */
module Bytes {

  type Byte = b: int | 0 <= b < 256

  // ----- big-endian numbers

  function Pow256(n: nat): (r: nat)
    ensures r > 0
  {
    if n == 0 then 1 else 256 * Pow256(n - 1)
  }

  function FromBytesBE(bs: seq<Byte>): (v: nat)
    ensures v < Pow256(|bs|)
  {
    if bs == [] then 0 else FromBytesBE(bs[..|bs| - 1]) * 256 + bs[|bs| - 1]
  }

  function ToBytesBE(v: nat, n: nat): (bs: seq<Byte>)
    ensures |bs| == n
  {
    if n == 0 then [] else ToBytesBE(v / 256, n - 1) + [v % 256]
  }

  /** The first byte is the most significant one. */
  lemma {:induction false} MostSignificantFirst(b: Byte, rest: seq<Byte>)
    ensures FromBytesBE([b] + rest) == b * Pow256(|rest|) + FromBytesBE(rest)
    decreases |rest|
  {
    if rest == [] {
      assert [b] + rest == [b] && [b][..0] == [];
      assert FromBytesBE([b]) == FromBytesBE([b][..0]) * 256 + b;
    } else {
      var n := |rest| - 1;
      assert ([b] + rest)[..n + 1] == [b] + rest[..n];
      MostSignificantFirst(b, rest[..n]);
      Shift(b, Pow256(n));
    }
  }

  lemma Shift(b: int, p: int)
    ensures (b * p) * 256 == b * (256 * p)
  {
  }

  lemma TwoBytes(bytes: seq<Byte>)
    requires |bytes| == 2
    ensures FromBytesBE(bytes) == bytes[0] as int * 256 + bytes[1] as int
  {
    assert bytes[..1] == [bytes[0]] && bytes[..1][..0] == [];
    assert FromBytesBE(bytes[..1]) == bytes[0];
  }

  lemma {:induction false} NumberRoundTrip(v: nat, n: nat)
    requires v < Pow256(n)
    ensures FromBytesBE(ToBytesBE(v, n)) == v
  {
    if n > 0 {
      NumberRoundTrip(v / 256, n - 1);
      assert ToBytesBE(v, n)[..n - 1] == ToBytesBE(v / 256, n - 1);
    }
  }

  lemma {:induction false} BytesRoundTrip(bs: seq<Byte>)
    ensures ToBytesBE(FromBytesBE(bs), |bs|) == bs
  {
    if bs != [] {
      var n := |bs| - 1;
      BytesRoundTrip(bs[..n]);
      assert (FromBytesBE(bs[..n]) * 256 + bs[n]) / 256 == FromBytesBE(bs[..n]);
      assert bs == bs[..n] + [bs[n]];
    }
  }

  lemma Powers()
    ensures Pow256(2) == 0x1_0000 && Pow256(8) == 0x1_0000_0000_0000_0000
    ensures Pow256(16) == 0x1_0000_0000_0000_0000_0000_0000_0000_0000
  {
    assert Pow256(2) == 0x1_0000;
    assert Pow256(4) == 0x1_0000_0000;
    assert Pow256(6) == 0x1_0000_0000_0000;
    assert Pow256(8) == 0x1_0000_0000_0000_0000;
    assert Pow256(10) == 0x1_0000_0000_0000_0000_0000;
    assert Pow256(12) == 0x1_0000_0000_0000_0000_0000_0000;
    assert Pow256(14) == 0x1_0000_0000_0000_0000_0000_0000_0000;
  }

  // ----- hexadecimal

  predicate IsHex(c: char) {
    '0' <= c <= '9' || 'a' <= c <= 'f' || 'A' <= c <= 'F'
  }

  predicate AllHex(s: string) {
    forall i :: 0 <= i < |s| ==> IsHex(s[i])
  }

  function HexValue(c: char): (v: nat)
    requires IsHex(c)
    ensures v < 16
  {
    if '0' <= c <= '9' then c as int - '0' as int
    else if 'a' <= c <= 'f' then c as int - 'a' as int + 10
    else c as int - 'A' as int + 10
  }

  /** Hexadecimal is written in lower case. */
  function HexChar(v: nat): (c: char)
    requires v < 16
    ensures IsHex(c) && HexValue(c) == v && LowerHexChar(c) == c
  {
    if v < 10 then '0' + v as char else 'a' + (v - 10) as char
  }

  function LowerHexChar(c: char): char {
    if 'A' <= c <= 'F' then c - 'A' + 'a' else c
  }

  function LowerHex(s: string): (r: string)
    ensures |r| == |s| && forall i :: 0 <= i < |s| ==> r[i] == LowerHexChar(s[i])
  {
    seq(|s|, i requires 0 <= i < |s| => LowerHexChar(s[i]))
  }

  function HexPair(b: Byte): (s: string)
    ensures |s| == 2 && AllHex(s)
  {
    [HexChar(b / 16), HexChar(b % 16)]
  }

  function PairValue(c: char, d: char): Byte
    requires IsHex(c) && IsHex(d)
  {
    HexValue(c) * 16 + HexValue(d)
  }

  function ToHex(bytes: seq<Byte>): (s: string)
    ensures |s| == 2 * |bytes| && AllHex(s)
  {
    if bytes == [] then "" else ToHex(bytes[..|bytes| - 1]) + HexPair(bytes[|bytes| - 1])
  }

  function FromHex(s: string): (bytes: seq<Byte>)
    requires AllHex(s) && |s| % 2 == 0
    ensures |bytes| == |s| / 2
  {
    if s == "" then []
    else FromHex(s[..|s| - 2]) + [PairValue(s[|s| - 2], s[|s| - 1])]
  }

  lemma PairRoundTrip(b: Byte)
    ensures PairValue(HexPair(b)[0], HexPair(b)[1]) == b
  {
  }

  lemma LowerChar(c: char)
    requires IsHex(c)
    ensures HexChar(HexValue(c)) == LowerHexChar(c)
  {
  }

  lemma PairText(c: char, d: char)
    requires IsHex(c) && IsHex(d)
    ensures HexPair(PairValue(c, d)) == [LowerHexChar(c), LowerHexChar(d)]
  {
    LowerChar(c);
    LowerChar(d);
    hide HexChar, HexValue, LowerHexChar;
    assert PairValue(c, d) / 16 == HexValue(c) && PairValue(c, d) % 16 == HexValue(d);
  }

  lemma {:induction false} HexRoundTrip(bytes: seq<Byte>)
    ensures FromHex(ToHex(bytes)) == bytes
  {
    if bytes != [] {
      var n := |bytes| - 1;
      HexRoundTrip(bytes[..n]);
      PairRoundTrip(bytes[n]);
      var s := ToHex(bytes);
      hide HexPair, PairValue;
      assert s[..2 * n] == ToHex(bytes[..n]) && s[2 * n] == HexPair(bytes[n])[0] && s[2 * n + 1] == HexPair(bytes[n])[1];
      assert bytes == bytes[..n] + [bytes[n]];
    }
  }

  lemma LowerHexAppend(s: string, c: char, d: char)
    ensures LowerHex(s + [c, d]) == LowerHex(s) + [LowerHexChar(c), LowerHexChar(d)]
  {
    hide LowerHexChar;
  }

  /** Reading hexadecimal and writing it back only lowers its case. */
  lemma {:induction false} TextRoundTrip(s: string)
    requires AllHex(s) && |s| % 2 == 0
    ensures ToHex(FromHex(s)) == LowerHex(s)
  {
    if s != "" {
      var n := |s| - 2;
      TextRoundTrip(s[..n]);
      PairText(s[n], s[n + 1]);
      hide HexPair, PairValue, LowerHexChar, LowerHex;
      var bytes := FromHex(s);
      assert bytes[..|bytes| - 1] == FromHex(s[..n]) && bytes[|bytes| - 1] == PairValue(s[n], s[n + 1]);
      LowerHexAppend(s[..n], s[n], s[n + 1]);
      assert s == s[..n] + [s[n], s[n + 1]];
    }
  }
}
