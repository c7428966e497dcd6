/** The 20-byte Hedera address slot: long-zero addresses for entity ids, everything else an EVM
    alias, and the three textual forms that are accepted for them.
 */
module Address {
  import opened Wrappers
  import opened Bytes
  import opened Decimal
  import opened EntityId

  const SLOT_BYTES := 20
  const PREFIX_BYTES := 12

  datatype Address = Entity(id: Id) | Alias(text: string)

  const ZERO_PREFIX: seq<Byte> := [0, 0, 0, 0, 0, 0, 0, 0, 0, 0, 0, 0]

  predicate LongZero(bytes: seq<Byte>)
    requires |bytes| == SLOT_BYTES
  {
    bytes[..PREFIX_BYTES] == ZERO_PREFIX
  }

  function Number(bytes: seq<Byte>): nat
    requires |bytes| == SLOT_BYTES
  {
    FromBytesBE(bytes[PREFIX_BYTES..])
  }

  function HexText(bytes: seq<Byte>): string {
    "0x" + ToHex(bytes)
  }

  // ----- entity ids and slots

  const TWO_64 := 0x1_0000_0000_0000_0000

  /** Twelve zero bytes and the number in eight: its low 64 bits, in two's complement. */
  function LongZeroBytes(num: int): (bytes: seq<Byte>)
    ensures |bytes| == SLOT_BYTES && LongZero(bytes)
  {
    ZERO_PREFIX + ToBytesBE(num % TWO_64, 8)
  }

  /** Only shard 0, realm 0 fits. */
  function ToSlot(id: Id): Option<seq<Byte>> {
    if id.shard != 0 || id.realm != 0 then None else Some(LongZeroBytes(id.num))
  }

  /** What a slot identifies; a long-zero number beyond int64 is rejected. */
  function FromSlot(bytes: seq<Byte>): Option<Address>
    requires |bytes| == SLOT_BYTES
  {
    if !LongZero(bytes) then Some(Alias(HexText(bytes)))
    else if Number(bytes) > COMPONENT_MAX then None
    else Some(Entity(Id(0, 0, Number(bytes))))
  }

  /** Masking and shifting a number sees only its low bits. */
  lemma LowByte(rest: int, low: nat, high: int)
    requires rest == low + 256 * high
    ensures rest % 256 == low % 256 && rest / 256 == low / 256 + high
  {
  }

  lemma NextByte(low: nat, n: nat, tail: seq<Byte>)
    requires n > 0
    ensures ToBytesBE(low, n) + tail == ToBytesBE(low / 256, n - 1) + ([low % 256] + tail)
  {
  }

  lemma Shifted(rest: int, low: nat, n: nat, high: int)
    requires n > 0 && rest == low + Pow256(n) * high
    ensures rest == low + 256 * (Pow256(n - 1) * high)
  {
  }

  /** The byte loop that writes a number from the right. */
  method WriteSlot(num: int) returns (bytes: seq<Byte>)
    ensures bytes == LongZeroBytes(num)
  {
    bytes := seq(SLOT_BYTES, _ => 0);
    var rest := num;
    var i := SLOT_BYTES - 1;
    ghost var low, high := num % TWO_64, num / TWO_64;
    Powers();
    hide ToBytesBE, Pow256;
    while i >= PREFIX_BYTES
      invariant PREFIX_BYTES - 1 <= i < SLOT_BYTES && |bytes| == SLOT_BYTES
      invariant bytes[..i + 1] == seq(i + 1, _ => 0)
      invariant low >= 0 && rest == low + Pow256(i - 11) * high
      invariant ToBytesBE(low, i - 11) + bytes[i + 1..] == ToBytesBE(num % TWO_64, 8)
    {
      ghost var before := bytes;
      Shifted(rest, low, i - 11, high);
      LowByte(rest, low, Pow256(i - 12) * high);
      NextByte(low, i - 11, before[i + 1..]);
      bytes := bytes[i := rest % 256];
      assert bytes[i..] == [rest % 256] + before[i + 1..];
      assert bytes[..i] == before[..i];
      rest, low := rest / 256, low / 256;
      i := i - 1;
    }
    assert bytes == bytes[..PREFIX_BYTES] + bytes[PREFIX_BYTES..];
    assert bytes[..PREFIX_BYTES] == ZERO_PREFIX;
    NoBytes(low, bytes[PREFIX_BYTES..]);
  }

  lemma NoBytes(low: nat, tail: seq<Byte>)
    ensures ToBytesBE(low, 0) + tail == tail
  {
  }

  /** The byte loop that reads a number from the left. */
  method ReadSlot(bytes: seq<Byte>) returns (num: nat)
    requires |bytes| == SLOT_BYTES
    ensures num == Number(bytes)
  {
    num := 0;
    for i := PREFIX_BYTES to SLOT_BYTES
      invariant num == FromBytesBE(bytes[PREFIX_BYTES..i])
    {
      assert bytes[PREFIX_BYTES..i + 1][..i - PREFIX_BYTES] == bytes[PREFIX_BYTES..i];
      num := num * 256 + bytes[i];
    }
    assert bytes[PREFIX_BYTES..SLOT_BYTES] == bytes[PREFIX_BYTES..];
  }

  /** A slot carries the number of an id modulo 2^64, whatever its sign and size. */
  lemma SlotNumber(num: int)
    ensures Number(LongZeroBytes(num)) == num % TWO_64
  {
    Powers();
    assert LongZeroBytes(num)[PREFIX_BYTES..] == ToBytesBE(num % TWO_64, 8);
    NumberRoundTrip(num % TWO_64, 8);
  }

  predicate ComesBack(num: int) {
    var back := FromSlot(LongZeroBytes(num));
    back.Some? && back.value.Entity? && back.value.id.shard == 0 && back.value.id.realm == 0 && back.value.id.num == num
  }

  /** Encoding an id and decoding the slot gives the id back exactly if its number is one that
      int64 can hold and not negative; any other comes back as a different number or not at all. */
  lemma SlotRoundTripIff(num: int)
    ensures ComesBack(num) <==> 0 <= num <= COMPONENT_MAX
  {
    SlotNumber(num);
  }

  /** Numbers that an entity-id object can carry and that do not come back. */
  lemma SlotLoses()
    ensures FromSlot(LongZeroBytes(COMPONENT_MAX + 1)) == None && FromSlot(LongZeroBytes(-1)) == None
    ensures FromSlot(LongZeroBytes(TWO_64)) == Some(Entity(Id(0, 0, 0)))
  {
    SlotNumber(COMPONENT_MAX + 1);
    SlotNumber(-1);
    SlotNumber(TWO_64);
  }

  /** A long-zero slot is the encoding of its number. */
  lemma NumberSlot(bytes: seq<Byte>)
    requires |bytes| == SLOT_BYTES && LongZero(bytes)
    ensures LongZeroBytes(Number(bytes)) == bytes
  {
    hide Pow256, ToBytesBE, FromBytesBE;
    BytesRoundTrip(bytes[PREFIX_BYTES..]);
    Powers();
    assert bytes == bytes[..PREFIX_BYTES] + bytes[PREFIX_BYTES..];
  }

  // ----- the accepted texts

  /** Forty hex digits, with or without 0x. */
  function EvmText(s: string): Option<string> {
    if |s| == 40 && AllHex(s) then Some(s)
    else if |s| == 42 && s[..2] == "0x" && AllHex(s[2..]) then Some(s[2..])
    else None
  }

  datatype Prefixed = Prefixed(shard: string, realm: string, hex: string)

  /** shard.realm.<40 hex digits> */
  function PrefixedText(s: string): Option<Prefixed> {
    match Cut(s, '.')
    case Whole => None
    case Parts(shard, rest) =>
      match Cut(rest, '.')
      case Whole => None
      case Parts(realm, hex) =>
        if Canonical(shard) && Canonical(realm) && |hex| == 40 && AllHex(hex)
        then Some(Prefixed(shard, realm, hex)) else None
  }

  function ParseAddress(s: string, network: Option<Network>): Option<Address> {
    if EvmText(s).Some? then FromSlot(FromHex(EvmText(s).value))
    else if PrefixedText(s).Some? then
      var p := PrefixedText(s).value;
      if p.shard != "0" || p.realm != "0" then None else FromSlot(FromHex(p.hex))
    else
      match Parse(s, network)
      case None => None
      case Some(id) => Some(Entity(id))
  }

  function FormatAddress(a: Address): string {
    match a
    case Entity(id) => Format(id)
    case Alias(text) => text
  }

  function Encode(s: string): Option<seq<Byte>> {
    match ParseAddress(s, None)
    case None => None
    case Some(Alias(text)) => if EvmText(text).Some? then Some(FromHex(EvmText(text).value)) else None
    case Some(Entity(id)) => ToSlot(id)
  }

  function Decode(bytes: seq<Byte>): Option<string> {
    if |bytes| != SLOT_BYTES then None
    else
      match FromSlot(bytes)
      case None => None
      case Some(a) => Some(FormatAddress(a))
  }

  // ----- the three grammars are disjoint

  lemma EvmHasNoDot(s: string)
    requires EvmText(s).Some?
    ensures Cut(s, '.') == Whole
  {
    CutNone(s, '.');
    if |s| == 42 {
      assert forall i :: 2 <= i < 42 ==> s[i] == s[2..][i - 2];
      assert s[0] == s[..2][0] && s[1] == s[..2][1];
    }
  }

  lemma Pow19()
    ensures Pow10(19) == 10_000_000_000_000_000_000
  {
    assert Pow10(4) == 10_000;
    assert Pow10(8) == 100_000_000;
    assert Pow10(12) == 1_000_000_000_000;
    assert Pow10(16) == 10_000_000_000_000_000;
  }

  /** An id in range has at most 19 digits to a component. */
  lemma ShortComponents(id: Id)
    requires InRange(id)
    ensures |Digits(id.num)| <= 19
  {
    Pow19();
    DigitsLength(id.num, 19);
  }

  /** No string is accepted by two of the grammars, so the order of the branches does not matter;
      for the prefixed form this is because no int64 has forty digits. */
  lemma GrammarsDisjoint(s: string, network: Option<Network>)
    ensures EvmText(s).Some? ==> PrefixedText(s).None? && Parse(s, network).None?
    ensures PrefixedText(s).Some? ==> Parse(s, network).None?
  {
    if EvmText(s).Some? {
      EvmHasNoDot(s);
    }
    if PrefixedText(s).Some? && Parse(s, network).Some? {
      PrefixedNotEntity(s, network);
    }
  }

  lemma PrefixedNotEntity(s: string, network: Option<Network>)
    requires PrefixedText(s).Some?
    ensures Parse(s, network).None?
  {
    if Parse(s, network).Some? {
      var hex := PrefixedText(s).value.hex;
      var f := Match(s).value;
      MatchIff(s, f);
      CutNone(hex, '-');
      assert f.num == hex && f.checksum.None?;
      DigitsValue(f.num);
      SpellsIff(FromFields(f), None, f, s);
      ShortComponents(FromFields(f));
    }
  }

  // ----- the codec is a bijection

  lemma ParseAlias(bytes: seq<Byte>, network: Option<Network>)
    requires |bytes| == SLOT_BYTES
    ensures EvmText(HexText(bytes)) == Some(ToHex(bytes)) && FromHex(ToHex(bytes)) == bytes
    ensures ParseAddress(HexText(bytes), network) == FromSlot(bytes)
  {
    hide EvmText, ToHex, FromHex, FromSlot, PrefixedText;
    HexRoundTrip(bytes);
    EvmPrefixed(ToHex(bytes));
  }

  lemma EvmPrefixed(hex: string)
    requires |hex| == 40 && AllHex(hex)
    ensures EvmText("0x" + hex) == Some(hex)
  {
    assert ("0x" + hex)[2..] == hex && ("0x" + hex)[..2] == "0x";
  }

  lemma ParseEntity(id: Id, network: Option<Network>)
    requires InRange(id)
    ensures ParseAddress(Format(id), network) == Some(Entity(id))
  {
    ParseIff(Format(id), network, id);
    GrammarsDisjoint(Format(id), network);
  }

  /** Exactly the 20-byte slots that are no long-zero number beyond int64 decode. */
  lemma DecodeIff(bytes: seq<Byte>)
    ensures Decode(bytes).Some? <==>
              |bytes| == 20 && ((forall i :: 0 <= i < 12 ==> bytes[i] == 0) ==> FromBytesBE(bytes[12..]) <= 9_223_372_036_854_775_807)
  {
    if |bytes| == 20 {
      assert LongZero(bytes) <==> forall i :: 0 <= i < 12 ==> bytes[i] == 0 by {
        assert bytes[..12] == ZERO_PREFIX <==> forall i :: 0 <= i < 12 ==> bytes[..12][i] == ZERO_PREFIX[i];
      }
    }
  }

  /** Encoding what a slot decodes to gives the slot back. */
  lemma EncodeDecode(bytes: seq<Byte>)
    requires Decode(bytes).Some?
    ensures Encode(Decode(bytes).value) == Some(bytes)
  {
    if LongZero(bytes) {
      NumberSlot(bytes);
      ParseEntity(Id(0, 0, Number(bytes)), None);
    } else {
      ParseAlias(bytes, None);
    }
  }

  lemma SlotShape(bytes: seq<Byte>)
    requires |bytes| == SLOT_BYTES && FromSlot(bytes).Some?
    ensures var a := FromSlot(bytes).value;
            (a.Entity? && InRange(a.id)) || (a.Alias? && !LongZero(bytes) && a.text == HexText(bytes))
  {
  }

  /** What any accepted text, other than a plain id, parses to came out of a slot. */
  lemma ParseShape(s: string, network: Option<Network>)
    requires ParseAddress(s, network).Some?
    ensures var a := ParseAddress(s, network).value;
            || (a.Entity? && InRange(a.id))
            || (a.Alias? && exists bytes :: |bytes| == SLOT_BYTES && !LongZero(bytes) && a.text == HexText(bytes))
  {
    hide FromSlot, FromHex, Parse, Cut, Canonical;
    if EvmText(s).Some? {
      SlotShape(FromHex(EvmText(s).value));
    } else if PrefixedText(s).Some? {
      SlotShape(FromHex(PrefixedText(s).value.hex));
    } else {
      ParseIff(s, network, Parse(s, network).value);
    }
  }

  /** Decoding what a text encodes to gives its canonical spelling. */
  lemma DecodeEncode(s: string)
    requires Encode(s).Some?
    ensures ParseAddress(s, None).Some?
    ensures Decode(Encode(s).value) == Some(FormatAddress(ParseAddress(s, None).value))
  {
    ParseShape(s, None);
    var a := ParseAddress(s, None).value;
    if a.Entity? {
      SlotRoundTripIff(a.id.num);
    } else {
      var bytes :| |bytes| == SLOT_BYTES && !LongZero(bytes) && a.text == HexText(bytes);
      ParseAlias(bytes, None);
    }
  }

  /** Two texts share a slot exactly if they name the same identity. */
  lemma SameSlotIff(s: string, t: string)
    requires Encode(s).Some? && Encode(t).Some?
    ensures Encode(s) == Encode(t) <==> ParseAddress(s, None) == ParseAddress(t, None)
  {
    if Encode(s) == Encode(t) {
      DecodeEncode(s);
      DecodeEncode(t);
      SlotOf(s);
      SlotOf(t);
    }
  }

  lemma SlotOf(s: string)
    requires Encode(s).Some?
    ensures |Encode(s).value| == SLOT_BYTES && FromSlot(Encode(s).value) == ParseAddress(s, None)
  {
    ParseShape(s, None);
    var a := ParseAddress(s, None).value;
    if a.Entity? {
      SlotRoundTripIff(a.id.num);
    } else {
      var bytes :| |bytes| == SLOT_BYTES && !LongZero(bytes) && a.text == HexText(bytes);
      ParseAlias(bytes, None);
    }
  }

  /** Formatting is a canonical spelling: it parses to the same identity, on any network. */
  lemma FormatCanonical(s: string, network: Option<Network>, other: Option<Network>)
    requires ParseAddress(s, network).Some?
    ensures ParseAddress(FormatAddress(ParseAddress(s, network).value), other) == ParseAddress(s, network)
  {
    ParseShape(s, network);
    var a := ParseAddress(s, network).value;
    if a.Entity? {
      ParseEntity(a.id, other);
    } else {
      var bytes :| |bytes| == SLOT_BYTES && !LongZero(bytes) && a.text == HexText(bytes);
      ParseAlias(bytes, other);
    }
  }

  // ----- exactly which texts are accepted

  /** Forty hexadecimal digits, plain, with 0x, or behind shard and realm zero. */
  predicate HexSpelling(s: string, hex: string) {
    |hex| == 40 && AllHex(hex) && (s == hex || s == "0x" + hex || s == "0.0." + hex)
  }

  lemma PlainIsEvm(hex: string)
    requires |hex| == 40 && AllHex(hex)
    ensures EvmText(hex) == Some(hex)
  {
  }

  lemma DottedIsPrefixed(hex: string)
    requires |hex| == 40 && AllHex(hex)
    ensures PrefixedText("0.0." + hex) == Some(Prefixed("0", "0", hex)) && EvmText("0.0." + hex).None?
  {
    var s, rest := "0.0." + hex, "0." + hex;
    assert s == Joined("0", '.', rest) && rest == Joined("0", '.', hex);
    assert Free("0", '.');
    CutIff(s, '.', "0", rest);
    CutIff(rest, '.', "0", hex);
    assert |s| == 44;
  }

  lemma EvmSpelling(s: string)
    ensures EvmText(s).Some? ==> HexSpelling(s, EvmText(s).value)
  {
    if |s| == 42 && s[..2] == "0x" { assert s == "0x" + s[2..]; }
  }

  lemma PrefixedSpelling(s: string)
    requires PrefixedText(s).Some? && PrefixedText(s).value.shard == "0" && PrefixedText(s).value.realm == "0"
    ensures HexSpelling(s, PrefixedText(s).value.hex)
  {
    var hex := PrefixedText(s).value.hex;
    var Parts(shard, rest) := Cut(s, '.');
    CutIff(s, '.', shard, rest);
    CutIff(rest, '.', "0", hex);
    assert s == "0" + ['.'] + ("0" + ['.'] + hex) == "0.0." + hex;
  }

  /** A text names an identity exactly if it is a hexadecimal spelling of a slot that does, or a
      spelling of an entity id. */
  lemma AddressIff(s: string, network: Option<Network>, a: Address)
    ensures ParseAddress(s, network) == Some(a) <==>
              || (exists hex :: HexSpelling(s, hex) && FromSlot(FromHex(hex)) == Some(a))
              || (a.Entity? && Parse(s, network) == Some(a.id))
  {
    hide Parse, FromSlot, FromHex, Cut;
    GrammarsDisjoint(s, network);
    EvmSpelling(s);
    if PrefixedText(s).Some? && PrefixedText(s).value.shard == "0" && PrefixedText(s).value.realm == "0" {
      PrefixedSpelling(s);
    }
    forall hex | HexSpelling(s, hex)
      ensures ParseAddress(s, network) == FromSlot(FromHex(hex))
    {
      PlainIsEvm(hex);
      EvmPrefixed(hex);
      DottedIsPrefixed(hex);
    }
  }

  lemma {:induction false} ZeroBytes(n: nat)
    ensures ToBytesBE(0, n) == seq(n, _ => 0)
  {
    if n > 0 { ZeroBytes(n - 1); }
  }

  lemma LowByteLast(v: nat, n: nat)
    ensures ToBytesBE(v, n + 1) == ToBytesBE(v / 256, n) + [v % 256]
  {
  }

  lemma UsdcBytes()
    ensures ToBytesBE(456_858, 8) == [0, 0, 0, 0, 0, 6, 248, 154]
  {
    ZeroBytes(5);
    LowByteLast(6, 5);
    LowByteLast(1_784, 6);
    LowByteLast(456_858, 7);
    hide ToBytesBE;
    assert seq(5, _ => 0) == [0, 0, 0, 0, 0];
  }

  lemma UsdcBack()
    requires ComesBack(456_858)
    ensures FromSlot(LongZeroBytes(456_858)) == Some(Entity(Id(0, 0, 456_858)))
  {
    hide FromSlot;
  }

  /** The documented example: 0.0.456858 and its long-zero address. */
  lemma UsdcSlot(network: Option<Network>)
    ensures LongZeroBytes(456_858) == [0, 0, 0, 0, 0, 0, 0, 0, 0, 0, 0, 0, 0, 0, 0, 0, 0, 6, 248, 154]
    ensures FromSlot([0, 0, 0, 0, 0, 0, 0, 0, 0, 0, 0, 0, 0, 0, 0, 0, 0, 6, 248, 154]) == Some(Entity(Id(0, 0, 456_858)))
  {
    UsdcBytes();
    SlotRoundTripIff(456_858);
    hide ToBytesBE, FromSlot, ComesBack;
    assert ZERO_PREFIX + [0, 0, 0, 0, 0, 6, 248, 154] == [0, 0, 0, 0, 0, 0, 0, 0, 0, 0, 0, 0, 0, 0, 0, 0, 0, 6, 248, 154];
    UsdcBack();
  }
}
