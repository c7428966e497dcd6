/** Hedera timestamps, transaction ids in their native and mirror-node spellings, transaction
    hashes in hex or base64, and the reference that combines them.
 */
module Transaction {
  import opened Wrappers
  import opened Bytes
  import opened Decimal
  import opened EntityId

  const NANOS_PER_SECOND := 1_000_000_000
  const MAX_NONCE := 2_147_483_647

  // ----- timestamps

  datatype Timestamp = Timestamp(seconds: nat, nanos: nat)

  predicate ValidTimestamp(t: Timestamp) {
    t.nanos < NANOS_PER_SECOND
  }

  /** Nanoseconds are always spelled with nine digits. */
  function FormatTimestamp(t: Timestamp): Option<string> {
    if !ValidTimestamp(t) then None else Some(Joined(Digits(t.seconds), '.', PadStart(t.nanos, 9)))
  }

  predicate NanosText(s: string) {
    |s| == 9 && AllDigits(s)
  }

  function ParseTimestamp(s: string): Option<Timestamp> {
    match Cut(s, '.')
    case Whole => None
    case Parts(seconds, nanos) =>
      if Canonical(seconds) && NanosText(nanos) then Some(Timestamp(Value(seconds), Value(nanos))) else None
  }

  lemma Pow9()
    ensures Pow10(9) == NANOS_PER_SECOND
  {
    assert Pow10(3) == 1_000;
    assert Pow10(6) == 1_000_000;
  }

  lemma NanosIff(nanos: string, n: nat)
    ensures NanosText(nanos) && Value(nanos) == n <==> n < NANOS_PER_SECOND && nanos == PadStart(n, 9)
  {
    Pow9();
    if NanosText(nanos) {
      ValueBound(nanos);
      PaddedValue(nanos);
    }
    if n < NANOS_PER_SECOND {
      Padded(n, 9);
    }
  }

  lemma SecondsIff(seconds: string, n: nat)
    ensures Canonical(seconds) && Value(seconds) == n <==> seconds == Digits(n)
  {
    if Canonical(seconds) { DigitsValue(seconds); }
    DigitsCanonical(n);
    ValueDigits(n);
  }

  /** Parsing accepts exactly what formatting writes. */
  lemma TimestampIff(s: string, t: Timestamp)
    ensures ParseTimestamp(s) == Some(t) <==> FormatTimestamp(t) == Some(s)
  {
    var seconds, nanos := Digits(t.seconds), PadStart(t.nanos, 9);
    DigitsCanonical(t.seconds);
    DigitsFree(seconds, '.');
    CutIff(s, '.', seconds, nanos);
    SecondsIff(seconds, t.seconds);
    NanosIff(nanos, t.nanos);
    if ParseTimestamp(s) == Some(t) {
      var Parts(a, b) := Cut(s, '.');
      SecondsIff(a, t.seconds);
      NanosIff(b, t.nanos);
    }
    hide Digits, PadStart, Cut, Joined, Canonical, Value, NanosText;
  }

  // ----- transaction ids

  datatype TransactionId = TransactionId(payer: Id, validStart: Timestamp, scheduled: bool, nonce: nat)

  predicate ValidId(t: TransactionId) {
    InRange(t.payer) && ValidTimestamp(t.validStart) && t.nonce <= MAX_NONCE
  }

  const SCHEDULED := "?scheduled"

  function NonceText(nonce: nat): string {
    if nonce == 0 then "" else "/" + Digits(nonce)
  }

  function Flags(scheduled: bool, nonce: nat): string {
    (if scheduled then SCHEDULED else "") + NonceText(nonce)
  }

  function FormatId(t: TransactionId): Option<string> {
    if t.nonce > MAX_NONCE || FormatTimestamp(t.validStart).None? then None
    else Some(Joined(Format(t.payer), '@', FormatTimestamp(t.validStart).value + Flags(t.scheduled, t.nonce)))
  }

  /** [0-9]+\.[0-9]+\.[0-9]+(-[a-z]{5})?, without the canonical-numeral rule. */
  predicate LoosePayer(s: string) {
    match Cut(s, '.')
    case Whole => false
    case Parts(shard, rest) =>
      match Cut(rest, '.')
      case Whole => false
      case Parts(realm, tail) =>
        && Numeral(shard) && Numeral(realm) && Numeral(Last(tail).0)
        && (Last(tail).1.Some? ==> ChecksumText(Last(tail).1.value))
  }

  predicate Numeral(s: string) {
    s != "" && AllDigits(s)
  }

  /** [0-9]+\.[0-9]{9} */
  predicate LooseTime(s: string) {
    match Cut(s, '.')
    case Whole => false
    case Parts(seconds, nanos) => Numeral(seconds) && NanosText(nanos)
  }

  /** Where the time ends: at the first '?' or '/'. */
  function TimeEnd(s: string): (i: nat)
    ensures i <= |s|
  {
    var q, p := Find(s, '?'), Find(s, '/');
    if q < p then q else p
  }

  datatype Groups = Groups(payer: string, time: string, scheduled: bool, nonce: Option<string>)

  /** The optional flag and the optional nonce after it; None if there is anything else. */
  function MatchFlags(s: string): Option<(bool, Option<string>)> {
    var scheduled := |s| >= 10 && s[..10] == SCHEDULED;
    var rest := if scheduled then s[10..] else s;
    if rest == "" then Some((scheduled, None))
    else if rest[0] == '/' && Canonical(rest[1..]) then Some((scheduled, Some(rest[1..])))
    else None
  }

  function MatchNative(s: string): Option<Groups> {
    match Cut(s, '@')
    case Whole => None
    case Parts(payer, rest) =>
      var i := TimeEnd(rest);
      var flags := MatchFlags(rest[i..]);
      if LoosePayer(payer) && LooseTime(rest[..i]) && flags.Some?
      then Some(Groups(payer, rest[..i], flags.value.0, flags.value.1)) else None
  }

  /** The string before and after its last c. */
  function CutLast(s: string, c: char): Parts {
    if s == "" then Whole
    else if s[|s| - 1] == c then Parts(s[..|s| - 1], "")
    else
      match CutLast(s[..|s| - 1], c)
      case Whole => Whole
      case Parts(a, b) => Parts(a, b + [s[|s| - 1]])
  }

  datatype Dashed = Dashed(payer: string, seconds: string, nanos: string)

  /** payer-seconds-nanos; the last two dashes are the separators. */
  function MatchMirror(s: string): Option<Dashed> {
    match CutLast(s, '-')
    case Whole => None
    case Parts(front, nanos) =>
      match CutLast(front, '-')
      case Whole => None
      case Parts(payer, seconds) =>
        if LoosePayer(payer) && Numeral(seconds) && NanosText(nanos) then Some(Dashed(payer, seconds, nanos)) else None
  }

  function ParseNonce(nonce: Option<string>): Option<nat> {
    if nonce.None? then Some(0)
    else if !Canonical(nonce.value) || Value(nonce.value) > MAX_NONCE then None
    else Some(Value(nonce.value))
  }

  function FromNative(g: Groups, network: Option<Network>): Option<TransactionId> {
    var payer, start, nonce := Parse(g.payer, network), ParseTimestamp(g.time), ParseNonce(g.nonce);
    if payer.None? || start.None? || nonce.None? then None
    else Some(TransactionId(payer.value, start.value, g.scheduled, nonce.value))
  }

  function FromMirror(d: Dashed, network: Option<Network>): Option<TransactionId> {
    var payer, start := Parse(d.payer, network), ParseTimestamp(Joined(d.seconds, '.', d.nanos));
    if payer.None? || start.None? then None else Some(TransactionId(payer.value, start.value, false, 0))
  }

  function ParseId(s: string, network: Option<Network>): Option<TransactionId> {
    match MatchNative(s)
    case Some(g) => FromNative(g, network)
    case None =>
      match MatchMirror(s)
      case Some(d) => FromMirror(d, network)
      case None => None
  }

  datatype MirrorId = MirrorId(text: string, scheduled: bool, nonce: nat)

  function ToMirror(t: TransactionId): Option<MirrorId> {
    if t.nonce > MAX_NONCE || !ValidTimestamp(t.validStart) then None
    else Some(MirrorId(Joined(Joined(Format(t.payer), '-', Digits(t.validStart.seconds)), '-', PadStart(t.validStart.nanos, 9)),
                       t.scheduled, t.nonce))
  }

  // ----- exactly which texts are accepted

  predicate PayerText(p: string, id: Id, network: Option<Network>) {
    InRange(id) && (p == Format(id) || (network.Some? && p == FormatWithChecksum(id, network.value)))
  }

  /** Zero may be left out or written as /0. */
  predicate NonceSpelling(nonce: Option<string>, n: nat) {
    n <= MAX_NONCE && (nonce == Some(Digits(n)) || (n == 0 && nonce == None))
  }

  function FlagsText(scheduled: bool, nonce: Option<string>): string {
    (if scheduled then SCHEDULED else "") + (if nonce.None? then "" else "/" + nonce.value)
  }

  ghost predicate NativeSpelling(s: string, t: TransactionId, network: Option<Network>) {
    exists p: string, nonce: Option<string> ::
      && PayerText(p, t.payer, network) && NonceSpelling(nonce, t.nonce) && ValidTimestamp(t.validStart)
      && s == Joined(p, '@', FormatTimestamp(t.validStart).value + FlagsText(t.scheduled, nonce))
  }

  function DashedText(p: string, t: Timestamp): string {
    Joined(Joined(p, '-', Digits(t.seconds)), '-', PadStart(t.nanos, 9))
  }

  ghost predicate MirrorSpelling(s: string, t: TransactionId, network: Option<Network>) {
    && !t.scheduled && t.nonce == 0 && ValidTimestamp(t.validStart)
    && exists p: string :: PayerText(p, t.payer, network) && s == DashedText(p, t.validStart)
  }

  lemma PayerIsLoose(p: string, network: Option<Network>)
    requires Parse(p, network).Some?
    ensures LoosePayer(p)
  {
    hide Cut, Checksum;
  }

  lemma LooseFree(p: string, c: char)
    requires LoosePayer(p) && !IsDigit(c) && c != '.' && c != '-' && !('a' <= c <= 'z')
    ensures Free(p, c)
  {
    var Parts(shard, rest) := Cut(p, '.');
    var Parts(realm, tail) := Cut(rest, '.');
    var (num, checksum) := Last(tail);
    CutIff(p, '.', shard, rest);
    CutIff(rest, '.', realm, tail);
    LastIff(tail, num, checksum);
    DigitsFree(shard, c);
    DigitsFree(realm, c);
    DigitsFree(num, c);
    TailFree(num, checksum, c);
    FreeJoined(realm, '.', tail, c);
    FreeJoined(shard, '.', rest, c);
    hide Cut, Last, Joined, Free, AllDigits;
  }

  lemma TailFree(num: string, checksum: Option<string>, c: char)
    requires Free(num, c) && (checksum.Some? ==> ChecksumText(checksum.value)) && c != '-' && !('a' <= c <= 'z')
    ensures Free(num + Suffix(checksum), c)
  {
    if checksum.Some? {
      assert num + Suffix(checksum) == Joined(num, '-', checksum.value);
      FreeJoined(num, '-', checksum.value, c);
    }
  }

  lemma TimeText(t: Timestamp)
    requires ValidTimestamp(t)
    ensures LooseTime(FormatTimestamp(t).value)
  {
    hide Cut, Digits, PadStart, Value, Joined;
    var seconds, nanos := Digits(t.seconds), PadStart(t.nanos, 9);
    DigitsCanonical(t.seconds);
    NanosIff(nanos, t.nanos);
    DigitsFree(seconds, '.');
    CutIff(Joined(seconds, '.', nanos), '.', seconds, nanos);
  }

  lemma LooseTimeFree(s: string)
    requires LooseTime(s)
    ensures Free(s, '?') && Free(s, '/')
  {
    var Parts(seconds, nanos) := Cut(s, '.');
    CutIff(s, '.', seconds, nanos);
    hide Cut;
  }

  /** The time ends where the flags begin. */
  lemma TimeEndIff(rest: string, time: string, flags: string)
    requires Free(time, '?') && Free(time, '/') && (flags != "" ==> flags[0] == '?' || flags[0] == '/')
    ensures rest == time + flags ==> TimeEnd(rest) == |time| && rest[..|time|] == time && rest[|time|..] == flags
  {
    if rest == time + flags {
      assert forall i :: 0 <= i < |time| ==> rest[i] == time[i];
      if flags != "" { assert rest[|time|] == flags[0]; }
    }
  }

  lemma FlagsIff(f: string, scheduled: bool, nonce: Option<string>)
    ensures MatchFlags(f) == Some((scheduled, nonce)) <==> (nonce.Some? ==> Canonical(nonce.value)) && f == FlagsText(scheduled, nonce)
    ensures f == FlagsText(scheduled, nonce) && f != "" ==> f[0] == '?' || f[0] == '/'
  {
    var text := if nonce.None? then "" else "/" + nonce.value;
    assert nonce.Some? ==> text[0] == '/' && text[1..] == nonce.value;
    assert (SCHEDULED + text)[..10] == SCHEDULED && (SCHEDULED + text)[10..] == text && "" + text == text;
    var flagged := |f| >= 10 && f[..10] == SCHEDULED;
    if flagged { assert f == SCHEDULED + f[10..]; }
    if f == text && |f| >= 10 { assert f[..10][0] == '/' && SCHEDULED[0] == '?'; }
    var rest := if flagged then f[10..] else f;
    if rest != "" && rest[0] == '/' { assert rest == "/" + rest[1..]; }
  }

  predicate GroupsSpell(g: Groups, s: string) {
    && LoosePayer(g.payer) && LooseTime(g.time) && (g.nonce.Some? ==> Canonical(g.nonce.value))
    && s == Joined(g.payer, '@', g.time + FlagsText(g.scheduled, g.nonce))
  }

  lemma NativeSound(s: string)
    requires MatchNative(s).Some?
    ensures GroupsSpell(MatchNative(s).value, s)
  {
    hide Cut, MatchFlags, FlagsText, LoosePayer, LooseTime, TimeEnd;
    var g := MatchNative(s).value;
    var Parts(payer, rest) := Cut(s, '@');
    var i := TimeEnd(rest);
    CutIff(s, '@', payer, rest);
    FlagsIff(rest[i..], g.scheduled, g.nonce);
    assert rest == rest[..i] + rest[i..];
  }

  lemma NativeComplete(s: string, g: Groups)
    requires GroupsSpell(g, s)
    ensures MatchNative(s) == Some(g)
  {
    hide Cut, MatchFlags, FlagsText, LoosePayer, LooseTime, TimeEnd, Canonical;
    var flags := FlagsText(g.scheduled, g.nonce);
    FlagsIff(flags, g.scheduled, g.nonce);
    LooseFree(g.payer, '@');
    CutIff(s, '@', g.payer, g.time + flags);
    LooseTimeFree(g.time);
    TimeEndIff(g.time + flags, g.time, flags);
  }

  lemma NativeIff(s: string, g: Groups)
    ensures MatchNative(s) == Some(g) <==> GroupsSpell(g, s)
  {
    hide MatchNative, GroupsSpell;
    if MatchNative(s) == Some(g) { NativeSound(s); }
    if GroupsSpell(g, s) { NativeComplete(s, g); }
  }

  lemma NonceIff(nonce: Option<string>, n: nat)
    ensures ParseNonce(nonce) == Some(n) <==> NonceSpelling(nonce, n)
  {
    if nonce.Some? { SecondsIff(nonce.value, n); }
    hide Digits, Value, Canonical;
  }

  lemma FromNativeIff(g: Groups, network: Option<Network>, t: TransactionId)
    ensures FromNative(g, network) == Some(t) <==>
              && PayerText(g.payer, t.payer, network) && FormatTimestamp(t.validStart) == Some(g.time)
              && NonceSpelling(g.nonce, t.nonce) && g.scheduled == t.scheduled
  {
    hide Parse, ParseTimestamp, ParseNonce, FormatTimestamp, NonceSpelling, Format, FormatWithChecksum;
    ParseIff(g.payer, network, t.payer);
    TimestampIff(g.time, t.validStart);
    NonceIff(g.nonce, t.nonce);
  }

  lemma JoinedLast(a: string, c: char, b: string)
    ensures b != "" ==> Joined(a, c, b)[|Joined(a, c, b)| - 1] == b[|b| - 1]
  {
  }

  lemma {:induction false} CutLastIff(s: string, c: char, a: string, b: string)
    ensures CutLast(s, c) == Parts(a, b) <==> Free(b, c) && s == Joined(a, c, b)
    decreases |s|
  {
    if s == "" {
    } else {
      var n := |s| - 1;
      assert s == s[..n] + [s[n]];
      if s[n] == c {
        if Free(b, c) && s == Joined(a, c, b) {
          JoinedLast(a, c, b);
          assert a == s[..n];
        }
        if b == "" && a == s[..n] { assert s == Joined(a, c, b); }
      } else if b == "" {
        assert Joined(a, c, b)[|a|] == c && |Joined(a, c, b)| == |a| + 1;
      } else {
        var m := |b| - 1;
        CutLastIff(s[..n], c, a, b[..m]);
        assert b == b[..m] + [b[m]];
        assert Joined(a, c, b) == Joined(a, c, b[..m]) + [b[m]];
      }
    }
  }

  lemma NativeParses(s: string, network: Option<Network>, t: TransactionId, p: string, nonce: Option<string>)
    requires PayerText(p, t.payer, network) && NonceSpelling(nonce, t.nonce) && ValidTimestamp(t.validStart)
    requires s == Joined(p, '@', FormatTimestamp(t.validStart).value + FlagsText(t.scheduled, nonce))
    ensures MatchNative(s).Some? && ParseId(s, network) == Some(t)
  {
    var g := Groups(p, FormatTimestamp(t.validStart).value, t.scheduled, nonce);
    ParseIff(p, network, t.payer);
    PayerIsLoose(p, network);
    TimeText(t.validStart);
    DigitsCanonical(t.nonce);
    NativeIff(s, g);
    FromNativeIff(g, network, t);
    hide MatchNative, FromNative;
  }

  /** A text with '@' is accepted exactly if it is a native spelling of the id. */
  lemma NativeParseIff(s: string, network: Option<Network>, t: TransactionId)
    ensures MatchNative(s).Some? && ParseId(s, network) == Some(t) <==> NativeSpelling(s, t, network)
  {
    hide MatchNative, FromNative, PayerText, NonceSpelling, FlagsText, Joined, Digits, PadStart;
    if MatchNative(s).Some? && ParseId(s, network) == Some(t) {
      var g := MatchNative(s).value;
      NativeIff(s, g);
      FromNativeIff(g, network, t);
    }
    if NativeSpelling(s, t, network) {
      var p: string, nonce: Option<string> :|
        && PayerText(p, t.payer, network) && NonceSpelling(nonce, t.nonce) && ValidTimestamp(t.validStart)
        && s == Joined(p, '@', FormatTimestamp(t.validStart).value + FlagsText(t.scheduled, nonce));
      NativeParses(s, network, t, p, nonce);
    }
  }

  lemma MirrorIff(s: string, d: Dashed)
    ensures MatchMirror(s) == Some(d) <==>
              && LoosePayer(d.payer) && Numeral(d.seconds) && NanosText(d.nanos)
              && s == Joined(Joined(d.payer, '-', d.seconds), '-', d.nanos)
  {
    var front := Joined(d.payer, '-', d.seconds);
    CutLastIff(s, '-', front, d.nanos);
    CutLastIff(front, '-', d.payer, d.seconds);
    if MatchMirror(s) == Some(d) {
      var front' := CutLast(s, '-').left;
      CutLastIff(s, '-', front', d.nanos);
      CutLastIff(front', '-', d.payer, d.seconds);
    }
    hide CutLast, Joined, LoosePayer;
  }

  lemma SameTime(seconds: string, nanos: string, t: Timestamp)
    requires Numeral(seconds)
    ensures FormatTimestamp(t) == Some(Joined(seconds, '.', nanos))
            <==> ValidTimestamp(t) && seconds == Digits(t.seconds) && nanos == PadStart(t.nanos, 9)
  {
    var s := Joined(seconds, '.', nanos);
    DigitsFree(seconds, '.');
    DigitsCanonical(t.seconds);
    DigitsFree(Digits(t.seconds), '.');
    CutIff(s, '.', seconds, nanos);
    CutIff(s, '.', Digits(t.seconds), PadStart(t.nanos, 9));
    hide Cut, Digits, PadStart, Joined;
  }

  lemma FromMirrorIff(d: Dashed, network: Option<Network>, t: TransactionId)
    requires Numeral(d.seconds)
    ensures FromMirror(d, network) == Some(t) <==>
              && PayerText(d.payer, t.payer, network) && ValidTimestamp(t.validStart) && !t.scheduled && t.nonce == 0
              && d.seconds == Digits(t.validStart.seconds) && d.nanos == PadStart(t.validStart.nanos, 9)
  {
    hide Parse, ParseTimestamp, Format, FormatWithChecksum, Digits, PadStart, Joined, FormatTimestamp;
    ParseIff(d.payer, network, t.payer);
    TimestampIff(Joined(d.seconds, '.', d.nanos), t.validStart);
    SameTime(d.seconds, d.nanos, t.validStart);
  }

  /** No text matches both grammars. */
  lemma GrammarsDisjoint(s: string)
    requires MatchNative(s).Some?
    ensures MatchMirror(s).None?
  {
    var g := MatchNative(s).value;
    NativeIff(s, g);
    FreeJoined(g.payer, '@', g.time + FlagsText(g.scheduled, g.nonce), '@');
    if MatchMirror(s).Some? {
      var d := MatchMirror(s).value;
      MirrorIff(s, d);
      LooseFree(d.payer, '@');
      DigitsFree(d.seconds, '@');
      DigitsFree(d.nanos, '@');
      FreeJoined(d.payer, '-', d.seconds, '@');
      FreeJoined(Joined(d.payer, '-', d.seconds), '-', d.nanos, '@');
    }
    hide MatchNative, MatchMirror, LoosePayer, LooseTime, Joined, Free;
  }

  lemma MirrorParses(s: string, network: Option<Network>, t: TransactionId, p: string)
    requires !t.scheduled && t.nonce == 0 && ValidTimestamp(t.validStart)
    requires PayerText(p, t.payer, network) && s == DashedText(p, t.validStart)
    ensures MatchMirror(s).Some? && ParseId(s, network) == Some(t)
  {
    var d := Dashed(p, Digits(t.validStart.seconds), PadStart(t.validStart.nanos, 9));
    ParseIff(p, network, t.payer);
    PayerIsLoose(p, network);
    DigitsCanonical(t.validStart.seconds);
    NanosIff(d.nanos, t.validStart.nanos);
    hide MatchNative, FromNative, FromMirror, Digits, PadStart;
    MirrorIff(s, d);
    FromMirrorIff(d, network, t);
    if MatchNative(s).Some? { GrammarsDisjoint(s); }
  }

  lemma MirrorParseIff(s: string, network: Option<Network>, t: TransactionId)
    ensures MatchMirror(s).Some? && ParseId(s, network) == Some(t) <==> MirrorSpelling(s, t, network)
  {
    hide MatchNative, MatchMirror, FromNative, FromMirror, PayerText, Digits, PadStart, Joined;
    if MatchMirror(s).Some? && ParseId(s, network) == Some(t) {
      if MatchNative(s).Some? { GrammarsDisjoint(s); }
      var d := MatchMirror(s).value;
      MirrorIff(s, d);
      FromMirrorIff(d, network, t);
    }
    if MirrorSpelling(s, t, network) {
      var p: string :| PayerText(p, t.payer, network) && s == DashedText(p, t.validStart);
      MirrorParses(s, network, t, p);
    }
  }

  /** A text parses to an id exactly if it is one of its spellings: native, with the payer's
      checksum if the network is given, with a zero nonce written or not; or, for an id with
      neither flag nor nonce, dashed. */
  lemma ParseIdIff(s: string, network: Option<Network>, t: TransactionId)
    ensures ParseId(s, network) == Some(t) <==> NativeSpelling(s, t, network) || MirrorSpelling(s, t, network)
  {
    NativeParseIff(s, network, t);
    MirrorParseIff(s, network, t);
    hide MatchNative, MatchMirror, FromNative, FromMirror, NativeSpelling, MirrorSpelling;
  }

  /** Only valid ids are ever parsed. */
  lemma ParsedValid(s: string, network: Option<Network>)
    requires ParseId(s, network).Some?
    ensures ValidId(ParseId(s, network).value)
  {
    ParseIdIff(s, network, ParseId(s, network).value);
  }

  /** Parsing the native spelling of a valid id gives it back, whatever the network. */
  lemma NativeRoundTrip(t: TransactionId, network: Option<Network>)
    requires ValidId(t)
    ensures FormatId(t).Some? && ParseId(FormatId(t).value, network) == Some(t)
  {
    var nonce := if t.nonce == 0 then None else Some(Digits(t.nonce));
    assert FlagsText(t.scheduled, nonce) == Flags(t.scheduled, t.nonce);
    NativeParses(FormatId(t).value, network, t, Format(t.payer), nonce);
  }

  /** The dashed text, the flag and the nonce together recover the id, whatever the network. */
  lemma MirrorRoundTrip(t: TransactionId, network: Option<Network>)
    requires ValidId(t)
    ensures ToMirror(t).Some?
    ensures var m := ToMirror(t).value;
            && ParseId(m.text, network).Some?
            && ParseId(m.text, network).value.(scheduled := m.scheduled, nonce := m.nonce) == t
  {
    MirrorParses(ToMirror(t).value.text, network, t.(scheduled := false, nonce := 0), Format(t.payer));
  }

  // ----- what the canonical forms look like

  /** An id has a canonical form exactly if its nonce fits int32 and its nanoseconds a second. */
  lemma FormatIdIff(t: TransactionId)
    ensures FormatId(t).Some? <==> t.nonce <= 2_147_483_647 && t.validStart.nanos < 1_000_000_000
    ensures ToMirror(t).Some? <==> FormatId(t).Some?
  {
    hide Digits, PadStart, Joined, Format;
  }

  lemma FlagChars(scheduled: bool, nonce: nat)
    ensures '/' in Flags(scheduled, nonce) <==> nonce != 0
    ensures '?' in Flags(scheduled, nonce) <==> scheduled
  {
    var flag, text := if scheduled then SCHEDULED else "", NonceText(nonce);
    DigitsCanonical(nonce);
    hide Digits;
    assert scheduled ==> flag[0] == '?';
    assert nonce != 0 ==> text[0] == '/';
    assert Free(flag, '/') && Free(text, '?');
  }

  /** The canonical form has a nonce part exactly if the nonce is not zero, and the flag exactly if
      the transaction is a scheduled one. */
  lemma CanonicalFlags(t: TransactionId)
    requires ValidId(t)
    ensures '/' in FormatId(t).value <==> t.nonce != 0
    ensures '?' in FormatId(t).value <==> t.scheduled
  {
    hide Format, FormatTimestamp, Flags, LoosePayer, LooseTime, Parse, Free, Joined;
    FormatParts(t);
    var payer, time, flags := Format(t.payer), FormatTimestamp(t.validStart).value, Flags(t.scheduled, t.nonce);
    FlagChars(t.scheduled, t.nonce);
    ParseIff(payer, None, t.payer);
    PayerIsLoose(payer, None);
    LooseFree(payer, '/');
    LooseFree(payer, '?');
    TimeText(t.validStart);
    LooseTimeFree(time);
    FreeIn(payer, '/');
    FreeIn(payer, '?');
    FreeIn(time, '/');
    FreeIn(time, '?');
  }

  lemma FreeIn(s: string, c: char)
    ensures Free(s, c) ==> c !in s
  {
  }

  lemma FormatParts(t: TransactionId)
    requires ValidId(t)
    ensures FormatTimestamp(t.validStart).Some? && FormatId(t).Some?
    ensures forall c :: c in FormatId(t).value <==>
                          c in Format(t.payer) || c == '@' || c in FormatTimestamp(t.validStart).value || c in Flags(t.scheduled, t.nonce)
  {
    hide Format, Flags, Digits, PadStart;
  }

  lemma Pads()
    ensures PadStart(5, 9) == "000000005" && Digits(12) == "12" && Digits(7) == "7" && Digits(3) == "3" && Digits(0) == "0"
  {
    assert Digits(1) == "1" && Digits(5) == "5";
    assert Zeros(8) == "00000000" by {
      assert Zeros(2) == "00" && Zeros(4) == "0000" && Zeros(6) == "000000";
    }
  }

  lemma ExampleParts()
    ensures Format(Id(0, 0, 3)) == "0.0.3" && FormatTimestamp(Timestamp(12, 5)) == Some("12.000000005")
  {
    Pads();
    hide Digits, PadStart;
    assert "0" + ['.'] + ("0" + ['.'] + "3") == "0.0.3";
    assert "12" + ['.'] + "000000005" == "12.000000005";
  }

  lemma ExampleFlags()
    ensures Flags(false, 0) == "" && Flags(true, 7) == "?scheduled/7"
  {
    Pads();
    hide Digits, PadStart;
    assert "?scheduled" + ("/" + "7") == "?scheduled/7";
  }

  lemma ExampleJoined()
    ensures Joined("0.0.3", '@', "12.000000005" + "") == "0.0.3@12.000000005"
    ensures Joined("0.0.3", '@', "12.000000005" + "?scheduled/7") == "0.0.3@12.000000005?scheduled/7"
    ensures Joined(Joined("0.0.3", '-', "12"), '-', "000000005") == "0.0.3-12-000000005"
  {
  }

  /** One id in each of its forms. */
  lemma Examples()
    ensures FormatTimestamp(Timestamp(12, 5)) == Some("12.000000005")
    ensures FormatId(TransactionId(Id(0, 0, 3), Timestamp(12, 5), false, 0)) == Some("0.0.3@12.000000005")
    ensures FormatId(TransactionId(Id(0, 0, 3), Timestamp(12, 5), true, 7)) == Some("0.0.3@12.000000005?scheduled/7")
    ensures ToMirror(TransactionId(Id(0, 0, 3), Timestamp(12, 5), true, 7)) == Some(MirrorId("0.0.3-12-000000005", true, 7))
  {
    hide Digits, PadStart, Format, FormatTimestamp, Flags, Joined;
    Pads();
    ExampleParts();
    ExampleFlags();
    ExampleJoined();
  }

  // ----- transaction hashes

  const HASH_BYTES := 48

  predicate IsBase64(c: char) {
    'A' <= c <= 'Z' || 'a' <= c <= 'z' || '0' <= c <= '9' || c == '+' || c == '/'
  }

  predicate AllBase64(s: string) {
    forall i :: 0 <= i < |s| ==> IsBase64(s[i])
  }

  function Sextet(c: char): (v: nat)
    requires IsBase64(c)
    ensures v < 64
  {
    if 'A' <= c <= 'Z' then c as int - 'A' as int
    else if 'a' <= c <= 'z' then c as int - 'a' as int + 26
    else if '0' <= c <= '9' then c as int - '0' as int + 52
    else if c == '+' then 62 else 63
  }

  function SextetChar(v: nat): (c: char)
    requires v < 64
    ensures IsBase64(c) && Sextet(c) == v
  {
    if v < 26 then 'A' + v as char
    else if v < 52 then 'a' + (v - 26) as char
    else if v < 62 then '0' + (v - 52) as char
    else if v == 62 then '+' else '/'
  }

  /** Three bytes are four sextets, section 4 of RFC 4648. */
  function EncodeTriple(a: Byte, b: Byte, c: Byte): (s: string)
    ensures |s| == 4 && AllBase64(s)
  {
    [SextetChar(a / 4), SextetChar(a % 4 * 16 + b / 16), SextetChar(b % 16 * 4 + c / 64), SextetChar(c % 64)]
  }

  function DecodeQuad(s: string): (r: seq<Byte>)
    requires |s| == 4 && AllBase64(s)
    ensures |r| == 3
  {
    var v, w, x, y := Sextet(s[0]), Sextet(s[1]), Sextet(s[2]), Sextet(s[3]);
    [v * 4 + w / 16, w % 16 * 16 + x / 4, x % 4 * 64 + y]
  }

  function ToBase64(bytes: seq<Byte>): (s: string)
    requires |bytes| % 3 == 0
    ensures |s| == |bytes| / 3 * 4 && AllBase64(s)
  {
    if bytes == [] then "" else EncodeTriple(bytes[0], bytes[1], bytes[2]) + ToBase64(bytes[3..])
  }

  function FromBase64(s: string): (bytes: seq<Byte>)
    requires |s| % 4 == 0 && AllBase64(s)
    ensures |bytes| == |s| / 4 * 3
  {
    if s == "" then [] else DecodeQuad(s[..4]) + FromBase64(s[4..])
  }

  /** Sextets are spelled with the alphabet of section 4 of RFC 4648: A to Z, a to z, 0 to 9, + and /. */
  lemma SextetIs(v: nat)
    requires v < 64
    ensures SextetChar(v) as int
            == if v < 26 then 65 + v else if v < 52 then 71 + v else if v < 62 then v - 4 else if v == 62 then 43 else 47
  {
  }

  /** A quad spells the 24 bits of its three bytes, most significant first. */
  lemma QuadIs(a: Byte, b: Byte, c: Byte)
    ensures var s := EncodeTriple(a, b, c);
            Sextet(s[0]) * 262_144 + Sextet(s[1]) * 4_096 + Sextet(s[2]) * 64 + Sextet(s[3]) == a * 65_536 + b * 256 + c
  {
  }

  lemma Sextets(v: nat, w: nat, x: nat, y: nat)
    requires v < 64 && w < 64 && x < 64 && y < 64
    ensures var a, b, c := v * 4 + w / 16, w % 16 * 16 + x / 4, x % 4 * 64 + y;
            a / 4 == v && a % 4 * 16 + b / 16 == w && b % 16 * 4 + c / 64 == x && c % 64 == y
  {
  }

  lemma SextetText(c: char)
    requires IsBase64(c)
    ensures SextetChar(Sextet(c)) == c
  {
  }

  lemma QuadText(s: string)
    requires |s| == 4 && AllBase64(s)
    ensures var r := DecodeQuad(s); EncodeTriple(r[0], r[1], r[2]) == s
  {
    hide SextetChar, Sextet;
    Sextets(Sextet(s[0]), Sextet(s[1]), Sextet(s[2]), Sextet(s[3]));
    SextetText(s[0]);
    SextetText(s[1]);
    SextetText(s[2]);
    SextetText(s[3]);
  }

  /** Every base64 text of whole quads is the encoding of what it decodes to. */
  lemma {:induction false} Base64Text(s: string)
    requires |s| % 4 == 0 && AllBase64(s)
    ensures ToBase64(FromBase64(s)) == s
    decreases |s|
  {
    if s != "" {
      Base64Text(s[4..]);
      QuadText(s[..4]);
      hide EncodeTriple, DecodeQuad;
      var r := FromBase64(s);
      assert r[..3] == DecodeQuad(s[..4]) && r[3..] == FromBase64(s[4..]);
      assert s == s[..4] + s[4..];
    }
  }

  lemma QuadRoundTrip(a: Byte, b: Byte, c: Byte)
    ensures DecodeQuad(EncodeTriple(a, b, c)) == [a, b, c]
  {
  }

  lemma {:induction false} Base64RoundTrip(bytes: seq<Byte>)
    requires |bytes| % 3 == 0
    ensures FromBase64(ToBase64(bytes)) == bytes
    decreases |bytes|
  {
    if bytes != [] {
      Base64RoundTrip(bytes[3..]);
      QuadRoundTrip(bytes[0], bytes[1], bytes[2]);
      var s := ToBase64(bytes);
      hide EncodeTriple, DecodeQuad;
      assert s[..4] == EncodeTriple(bytes[0], bytes[1], bytes[2]) && s[4..] == ToBase64(bytes[3..]);
      assert bytes == [bytes[0], bytes[1], bytes[2]] + bytes[3..];
    }
  }

  function HexDigits(s: string): Option<string> {
    if |s| == 96 && AllHex(s) then Some(s)
    else if |s| == 98 && s[..2] == "0x" && AllHex(s[2..]) then Some(s[2..])
    else None
  }

  function ParseHash(s: string): Option<string> {
    if HexDigits(s).Some? then Some("0x" + LowerHex(HexDigits(s).value))
    else if |s| == 64 && AllBase64(s) then Some("0x" + ToHex(FromBase64(s)))
    else None
  }

  lemma HexSpellings(bytes: seq<Byte>)
    requires |bytes| == HASH_BYTES
    ensures HexDigits(ToHex(bytes)) == HexDigits("0x" + ToHex(bytes)) == Some(ToHex(bytes))
    ensures LowerHex(ToHex(bytes)) == ToHex(bytes)
  {
    HexRoundTrip(bytes);
    TextRoundTrip(ToHex(bytes));
    hide ToHex, FromHex, LowerHex;
    var s := ToHex(bytes);
    assert ("0x" + s)[2..] == s && ("0x" + s)[..2] == "0x";
  }

  lemma HashFromHex(s: string, digits: string)
    requires HexDigits(s) == Some(digits)
    ensures ParseHash(s) == Some("0x" + LowerHex(digits))
  {
  }

  lemma HashFromBase64(s: string)
    requires |s| == 64 && AllBase64(s)
    ensures ParseHash(s) == Some("0x" + ToHex(FromBase64(s)))
  {
  }

  /** All three spellings of the same 48 bytes parse to the same text. */
  lemma HashSpellings(bytes: seq<Byte>)
    requires |bytes| == HASH_BYTES
    ensures ParseHash(ToHex(bytes)) == Some("0x" + ToHex(bytes))
    ensures ParseHash("0x" + ToHex(bytes)) == Some("0x" + ToHex(bytes))
    ensures ParseHash(ToBase64(bytes)) == Some("0x" + ToHex(bytes))
  {
    hide ParseHash, HexDigits, ToHex, ToBase64, FromBase64, LowerHex, AllBase64;
    HexSpellings(bytes);
    Base64RoundTrip(bytes);
    HashFromHex(ToHex(bytes), ToHex(bytes));
    HashFromHex("0x" + ToHex(bytes), ToHex(bytes));
    HashFromBase64(ToBase64(bytes));
  }

  /** Whatever is accepted stands for 48 bytes. */
  lemma HashIsBytes(s: string) returns (bytes: seq<Byte>)
    requires ParseHash(s).Some?
    ensures |bytes| == HASH_BYTES && ParseHash(s) == Some("0x" + ToHex(bytes))
  {
    if HexDigits(s).Some? {
      bytes := FromHex(HexDigits(s).value);
      TextRoundTrip(HexDigits(s).value);
    } else {
      bytes := FromBase64(s);
    }
  }

  lemma HexInjective(a: seq<Byte>, b: seq<Byte>)
    ensures ToHex(a) == ToHex(b) <==> a == b
  {
    HexRoundTrip(a);
    HexRoundTrip(b);
  }

  lemma SamePrefixed(a: string, b: string)
    ensures "0x" + a == "0x" + b <==> a == b
  {
    assert ("0x" + a)[2..] == a && ("0x" + b)[2..] == b;
  }

  lemma Base64Of(s: string, bytes: seq<Byte>)
    requires |s| == 64 && AllBase64(s) && |bytes| == 48
    ensures ToHex(FromBase64(s)) == ToHex(bytes) <==> s == ToBase64(bytes)
  {
    hide ToHex, FromBase64, ToBase64, AllBase64;
    HexInjective(FromBase64(s), bytes);
    Base64Text(s);
    Base64RoundTrip(bytes);
  }

  /** A text is accepted for 48 bytes exactly if it is their hexadecimal, in any case and with or
      without the prefix, or their base64. */
  lemma HashIff(s: string, bytes: seq<Byte>)
    requires |bytes| == 48
    ensures ParseHash(s) == Some("0x" + ToHex(bytes)) <==>
              || (|s| == 96 && AllHex(s) && LowerHex(s) == ToHex(bytes))
              || (|s| == 98 && s[..2] == "0x" && AllHex(s[2..]) && LowerHex(s[2..]) == ToHex(bytes))
              || s == ToBase64(bytes)
  {
    hide ToHex, FromBase64, ToBase64, LowerHex, AllBase64, AllHex;
    var text := ToHex(bytes);
    if HexDigits(s).Some? {
      SamePrefixed(LowerHex(HexDigits(s).value), text);
    } else if |s| == 64 && AllBase64(s) {
      SamePrefixed(ToHex(FromBase64(s)), text);
      Base64Of(s, bytes);
    }
  }

  // ----- references

  datatype Reference = Reference(id: string, hash: Option<string>, consensus: Option<string>)

  function NormalizeTime(s: string): Option<string> {
    match ParseTimestamp(s) case None => None case Some(t) => FormatTimestamp(t)
  }

  function Normalize(r: Reference, network: Option<Network>): Option<Reference> {
    var t := ParseId(r.id, network);
    if t.None? || FormatId(t.value).None?
       || (r.hash.Some? && ParseHash(r.hash.value).None?)
       || (r.consensus.Some? && NormalizeTime(r.consensus.value).None?) then None
    else
      Some(Reference(FormatId(t.value).value,
                     if r.hash.None? then None else ParseHash(r.hash.value),
                     if r.consensus.None? then None else NormalizeTime(r.consensus.value)))
  }

  lemma HashIdempotent(s: string)
    requires ParseHash(s).Some?
    ensures ParseHash(ParseHash(s).value) == ParseHash(s)
  {
    var bytes := HashIsBytes(s);
    HashSpellings(bytes);
  }

  lemma TimeIdempotent(s: string)
    requires NormalizeTime(s).Some?
    ensures NormalizeTime(s) == Some(s)
  {
    TimestampIff(s, ParseTimestamp(s).value);
  }

  /** Normalizing a normalized reference changes nothing, even for another network or none. */
  lemma NormalizeIdempotent(r: Reference, network: Option<Network>, other: Option<Network>)
    requires Normalize(r, network).Some?
    ensures Normalize(Normalize(r, network).value, other) == Normalize(r, network)
  {
    var t := ParseId(r.id, network).value;
    ParsedValid(r.id, network);
    NativeRoundTrip(t, other);
    if r.hash.Some? { HashIdempotent(r.hash.value); }
    if r.consensus.Some? { TimeIdempotent(r.consensus.value); }
    hide ParseId, FormatId, ParseHash, NormalizeTime;
  }

  /** Two texts name the same transaction exactly if they normalize alike. */
  lemma SameNormalFormIff(s: string, t: string, network: Option<Network>)
    requires ParseId(s, network).Some? && ParseId(t, network).Some?
    ensures ParseId(s, network) == ParseId(t, network)
            <==> FormatId(ParseId(s, network).value) == FormatId(ParseId(t, network).value)
  {
    ParsedValid(s, network);
    ParsedValid(t, network);
    NativeRoundTrip(ParseId(s, network).value, network);
    NativeRoundTrip(ParseId(t, network).value, network);
    hide ParseId, FormatId;
  }
}
