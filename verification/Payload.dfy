/** The signed fast payload: a 65-byte signature, a 2-byte taxonomy id, an 8-byte timestamp and
    one or more 18-byte assets, all big-endian, with 128-bit two's-complement values.
 */
module Payload {
  import opened Bytes

  const SIGNATURE_BYTES := 65
  const ASSET_BYTES := 18
  const ASSETS_OFFSET := 75

  datatype AssetValue = AssetValue(assetId: nat, value: int)
  datatype FastPayload = FastPayload(raw: seq<Byte>, taxonomy: nat, timestampNs: nat, assets: seq<AssetValue>)
  datatype PayloadError = Hex | TooShort(len: nat, min: nat) | Misaligned(trailing: nat) | NoAssets
  datatype Result = Ok(payload: FastPayload) | Err(error: PayloadError)

  // ----- signed values

  /** A 128-bit word read as a two's-complement number, and back. */
  function Signed(v: nat): int {
    if v < Pow256(16) / 2 then v else v - Pow256(16)
  }

  function Unsigned(x: int): int {
    if x >= 0 then x else x + Pow256(16)
  }

  predicate Int128(x: int) {
    -(Pow256(16) / 2) <= x < Pow256(16) / 2
  }

  // ----- the wire format, as its documentation describes it

  predicate ValidAsset(a: AssetValue) {
    a.assetId < 0x1_0000 && Int128(a.value)
  }

  function EncodeAsset(a: AssetValue): (bs: seq<Byte>)
    requires ValidAsset(a)
    ensures |bs| == ASSET_BYTES
  {
    ToBytesBE(a.assetId, 2) + ToBytesBE(Unsigned(a.value), 16)
  }

  predicate ValidAssets(assets: seq<AssetValue>) {
    forall i :: 0 <= i < |assets| ==> ValidAsset(assets[i])
  }

  function EncodeAssets(assets: seq<AssetValue>): (bs: seq<Byte>)
    requires ValidAssets(assets)
    ensures |bs| == ASSET_BYTES * |assets|
  {
    if assets == [] then []
    else EncodeAssets(assets[..|assets| - 1]) + EncodeAsset(assets[|assets| - 1])
  }

  predicate ValidFields(taxonomy: nat, timestampNs: nat, assets: seq<AssetValue>) {
    taxonomy < 0x1_0000 && timestampNs < 0x1_0000_0000_0000_0000 && ValidAssets(assets)
  }

  function Encode(signature: seq<Byte>, taxonomy: nat, timestampNs: nat, assets: seq<AssetValue>): (bs: seq<Byte>)
    requires |signature| == SIGNATURE_BYTES && ValidFields(taxonomy, timestampNs, assets)
    ensures |bs| == ASSETS_OFFSET + ASSET_BYTES * |assets|
  {
    signature + ToBytesBE(taxonomy, 2) + ToBytesBE(timestampNs, 8) + EncodeAssets(assets)
  }

  /** Words with the top bit set are the negative numbers. */
  lemma SignedIs(v: nat)
    requires v < 0x1_0000_0000_0000_0000_0000_0000_0000_0000
    ensures Signed(v) == if v < 0x8000_0000_0000_0000_0000_0000_0000_0000 then v else v - 0x1_0000_0000_0000_0000_0000_0000_0000_0000
  {
    Powers();
  }

  lemma SignedRoundTrip(v: nat, x: int)
    ensures v < Pow256(16) ==> Int128(Signed(v)) && Unsigned(Signed(v)) == v
    ensures Int128(x) ==> 0 <= Unsigned(x) < Pow256(16) && Signed(Unsigned(x)) == x
  {
    Powers();
  }

  function DecodeAsset(bs: seq<Byte>): AssetValue
    requires |bs| == ASSET_BYTES
  {
    AssetValue(FromBytesBE(bs[..2]), Signed(FromBytesBE(bs[2..])))
  }

  lemma AssetBytesRoundTrip(bs: seq<Byte>)
    requires |bs| == ASSET_BYTES
    ensures ValidAsset(DecodeAsset(bs)) && EncodeAsset(DecodeAsset(bs)) == bs
  {
    Powers();
    BytesRoundTrip(bs[..2]);
    BytesRoundTrip(bs[2..]);
    SignedRoundTrip(FromBytesBE(bs[2..]), 0);
  }

  lemma AssetRoundTrip(a: AssetValue)
    requires ValidAsset(a)
    ensures DecodeAsset(EncodeAsset(a)) == a
  {
    Powers();
    SignedRoundTrip(0, a.value);
    NumberRoundTrip(a.assetId, 2);
    NumberRoundTrip(Unsigned(a.value), 16);
    assert EncodeAsset(a)[..2] == ToBytesBE(a.assetId, 2);
    assert EncodeAsset(a)[2..] == ToBytesBE(Unsigned(a.value), 16);
  }

  lemma SameSplit(a: seq<Byte>, b: seq<Byte>, c: seq<Byte>, d: seq<Byte>)
    requires a + b == c + d && |b| == |d|
    ensures a == c && b == d
  {
    assert |a| == |c|;
    assert a == (a + b)[..|a|] && c == (c + d)[..|a|];
    assert b == (a + b)[|a|..] && d == (c + d)[|a|..];
  }

  lemma {:induction false} AssetsInjective(a: seq<AssetValue>, b: seq<AssetValue>)
    requires ValidAssets(a) && ValidAssets(b) && EncodeAssets(a) == EncodeAssets(b)
    ensures a == b
  {
    assert |a| == |b|;
    if a != [] {
      var n := |a| - 1;
      SameSplit(EncodeAssets(a[..n]), EncodeAsset(a[n]), EncodeAssets(b[..n]), EncodeAsset(b[n]));
      AssetsInjective(a[..n], b[..n]);
      AssetRoundTrip(a[n]);
      AssetRoundTrip(b[n]);
      assert a == a[..n] + [a[n]] && b == b[..n] + [b[n]];
    }
  }

  /** Two encodings are equal only if every field is. */
  lemma EncodeInjective(s: seq<Byte>, t: nat, ts: nat, a: seq<AssetValue>, s': seq<Byte>, t': nat, ts': nat, a': seq<AssetValue>)
    requires |s| == |s'| == SIGNATURE_BYTES && ValidFields(t, ts, a) && ValidFields(t', ts', a')
    requires Encode(s, t, ts, a) == Encode(s', t', ts', a')
    ensures s == s' && t == t' && ts == ts' && a == a'
  {
    var x, y := Encode(s, t, ts, a), Encode(s', t', ts', a');
    Powers();
    assert x[..65] == s && y[..65] == s';
    assert x[65..67] == ToBytesBE(t, 2) && y[65..67] == ToBytesBE(t', 2);
    assert x[67..75] == ToBytesBE(ts, 8) && y[67..75] == ToBytesBE(ts', 8);
    assert x[75..] == EncodeAssets(a) && y[75..] == EncodeAssets(a');
    NumberRoundTrip(t, 2);
    NumberRoundTrip(t', 2);
    NumberRoundTrip(ts, 8);
    NumberRoundTrip(ts', 8);
    AssetsInjective(a, a');
  }

  lemma EncodeNone()
    ensures EncodeAssets([]) == []
  {
  }

  lemma AppendAsset(bytes: seq<Byte>, i: nat, assets: seq<AssetValue>, asset: AssetValue)
    requires ASSETS_OFFSET <= i && i + ASSET_BYTES <= |bytes|
    requires ValidAssets(assets) && EncodeAssets(assets) == bytes[ASSETS_OFFSET..i]
    requires asset.assetId == FromBytesBE(bytes[i..i + 2])
    requires asset.value == Signed(FromBytesBE(bytes[i + 2..i + ASSET_BYTES]))
    ensures ValidAssets(assets + [asset]) && EncodeAssets(assets + [asset]) == bytes[ASSETS_OFFSET..i + ASSET_BYTES]
  {
    var slice := bytes[i..i + ASSET_BYTES];
    assert slice[..2] == bytes[i..i + 2] && slice[2..] == bytes[i + 2..i + ASSET_BYTES];
    AssetBytesRoundTrip(slice);
    assert (assets + [asset])[..|assets|] == assets;
    assert bytes[ASSETS_OFFSET..i] + slice == bytes[ASSETS_OFFSET..i + ASSET_BYTES];
  }

  lemma Reassembles(bytes: seq<Byte>, assets: seq<AssetValue>)
    requires |bytes| >= ASSETS_OFFSET && ValidAssets(assets) && EncodeAssets(assets) == bytes[ASSETS_OFFSET..]
    ensures ValidFields(FromBytesBE(bytes[65..67]), FromBytesBE(bytes[67..75]), assets)
    ensures Encode(bytes[..SIGNATURE_BYTES], FromBytesBE(bytes[65..67]), FromBytesBE(bytes[67..75]), assets) == bytes
  {
    Powers();
    BytesRoundTrip(bytes[65..67]);
    BytesRoundTrip(bytes[67..75]);
    assert bytes == bytes[..65] + bytes[65..67] + bytes[67..75] + bytes[75..];
  }

  /** Each asset is two bytes of id and sixteen of value, behind 65 bytes of signature, two of taxonomy
      and eight of time. */
  predicate AssetAt(bytes: seq<Byte>, k: nat, asset: AssetValue)
    requires |bytes| >= 75 + 18 * (k + 1)
  {
    var i := 75 + 18 * k;
    asset.assetId == bytes[i] as int * 256 + bytes[i + 1] as int && asset.value == Signed(FromBytesBE(bytes[i + 2..i + 18]))
  }

  /** The decoder. It accepts exactly the lengths 75 + 18n with n >= 1, and what it accepts
      re-encodes, behind the same signature, to the bytes it was given. */
  method FromBytes(bytes: seq<Byte>) returns (r: Result)
    ensures r.Ok? <==> |bytes| > ASSETS_OFFSET && (|bytes| - ASSETS_OFFSET) % ASSET_BYTES == 0
    ensures |bytes| < ASSETS_OFFSET ==> r == Err(TooShort(|bytes|, ASSETS_OFFSET))
    ensures |bytes| == ASSETS_OFFSET ==> r == Err(NoAssets)
    ensures |bytes| > ASSETS_OFFSET && (|bytes| - ASSETS_OFFSET) % ASSET_BYTES != 0
            ==> r == Err(Misaligned((|bytes| - ASSETS_OFFSET) % ASSET_BYTES))
    ensures r.Ok? ==>
              var p := r.payload;
              && p.raw == bytes && p.assets != [] && ValidFields(p.taxonomy, p.timestampNs, p.assets)
              && Encode(bytes[..SIGNATURE_BYTES], p.taxonomy, p.timestampNs, p.assets) == bytes
              && p.taxonomy == bytes[65] as int * 256 + bytes[66] as int && p.timestampNs == FromBytesBE(bytes[67..75])
              && |bytes| == 75 + 18 * |p.assets|
              && forall k :: 0 <= k < |p.assets| ==> AssetAt(bytes, k, p.assets[k])
  {
    hide EncodeAssets, FromBytesBE, ToBytesBE, Encode, Signed, Int128;
    if |bytes| < ASSETS_OFFSET {
      return Err(TooShort(|bytes|, ASSETS_OFFSET));
    }
    var body := |bytes| - ASSETS_OFFSET;
    if body % ASSET_BYTES != 0 {
      return Err(Misaligned(body % ASSET_BYTES));
    }
    if body == 0 {
      return Err(NoAssets);
    }
    var taxonomy := FromBytesBE(bytes[65..67]);
    TwoBytes(bytes[65..67]);
    var timestampNs := FromBytesBE(bytes[67..75]);
    var assets: seq<AssetValue> := [];
    var i := ASSETS_OFFSET;
    EncodeNone();
    while i < |bytes|
      invariant ASSETS_OFFSET <= i <= |bytes| && i == ASSETS_OFFSET + ASSET_BYTES * |assets|
      invariant ValidAssets(assets) && EncodeAssets(assets) == bytes[ASSETS_OFFSET..i]
      invariant forall k :: 0 <= k < |assets| ==> AssetAt(bytes, k, assets[k])
    {
      var asset := AssetValue(FromBytesBE(bytes[i..i + 2]), Signed(FromBytesBE(bytes[i + 2..i + ASSET_BYTES])));
      AppendAsset(bytes, i, assets, asset);
      TwoBytes(bytes[i..i + 2]);
      assets := assets + [asset];
      i := i + ASSET_BYTES;
    }
    assert bytes[ASSETS_OFFSET..i] == bytes[ASSETS_OFFSET..];
    Reassembles(bytes, assets);
    return Ok(FastPayload(bytes, taxonomy, timestampNs, assets));
  }

  function Unprefixed(raw: string): string {
    if "0x" <= raw then raw[2..] else raw
  }

  predicate IsHexBytes(s: string) {
    |s| % 2 == 0 && AllHex(s)
  }

  /** The message as it arrives: hexadecimal text, with or without the prefix. */
  method FromText(raw: string) returns (r: Result)
    ensures r == Err(Hex) <==> !IsHexBytes(Unprefixed(raw))
    ensures IsHexBytes(Unprefixed(raw)) ==>
              var bytes := FromHex(Unprefixed(raw));
              && (r.Ok? <==> |bytes| > ASSETS_OFFSET && (|bytes| - ASSETS_OFFSET) % ASSET_BYTES == 0)
              && (r.Ok? ==>
                    var p := r.payload;
                    && p.raw == bytes && p.assets != [] && ValidFields(p.taxonomy, p.timestampNs, p.assets)
                    && Encode(bytes[..SIGNATURE_BYTES], p.taxonomy, p.timestampNs, p.assets) == bytes)
    ensures r.Ok? ==> ToHex(r.payload.raw) == LowerHex(Unprefixed(raw))
  {
    hide FromHex, ToHex, LowerHex, Encode, ValidFields;
    var text := Unprefixed(raw);
    if !IsHexBytes(text) {
      return Err(Hex);
    }
    TextRoundTrip(text);
    r := FromBytes(FromHex(text));
  }

  lemma PrefixStripped(t: string)
    ensures Unprefixed("0x" + t) == t && (AllHex(t) ==> Unprefixed(t) == t)
  {
    assert ("0x" + t)[2..] == t && "0x" <= "0x" + t;
    if "0x" <= t { assert t[1] == 'x'; }
  }

  /** Two texts carry the same bytes exactly if they differ at most in case and prefix. */
  lemma SameTextIff(raw: string, raw': string)
    requires IsHexBytes(Unprefixed(raw)) && IsHexBytes(Unprefixed(raw'))
    ensures FromHex(Unprefixed(raw)) == FromHex(Unprefixed(raw')) <==> LowerHex(Unprefixed(raw)) == LowerHex(Unprefixed(raw'))
  {
    hide FromHex, ToHex, LowerHex;
    var s, t := Unprefixed(raw), Unprefixed(raw');
    TextRoundTrip(s);
    TextRoundTrip(t);
    HexRoundTrip(FromHex(s));
    HexRoundTrip(FromHex(t));
  }

  /** Decoding inverts encoding for every signature, header and non-empty asset list. */
  method EncodeThenDecode(signature: seq<Byte>, taxonomy: nat, timestampNs: nat, assets: seq<AssetValue>)
    returns (r: Result)
    requires |signature| == SIGNATURE_BYTES && ValidFields(taxonomy, timestampNs, assets) && assets != []
    ensures r == Ok(FastPayload(Encode(signature, taxonomy, timestampNs, assets), taxonomy, timestampNs, assets))
  {
    hide FromBytesBE, ToBytesBE, EncodeAssets, AssetAt, ValidAssets, Signed;
    var bytes := Encode(signature, taxonomy, timestampNs, assets);
    r := FromBytes(bytes);
    assert bytes[..65] == signature;
    var p := r.payload;
    EncodeInjective(bytes[..65], p.taxonomy, p.timestampNs, p.assets, signature, taxonomy, timestampNs, assets);
  }
}
