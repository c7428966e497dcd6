/** Hedera entity ids: the canonical shard.realm.num grammar, the HIP-15 network checksum, and the
    parser that accepts an id with or without it.
 */
module EntityId {
  import opened Wrappers
  import opened Decimal

  datatype Network = Mainnet | Testnet | Previewnet | LocalNode

  datatype Id = Id(shard: nat, realm: nat, num: nat)

  const COMPONENT_MAX := 0x7FFF_FFFF_FFFF_FFFF

  predicate InRange(id: Id) {
    id.shard <= COMPONENT_MAX && id.realm <= COMPONENT_MAX && id.num <= COMPONENT_MAX
  }

  function Format(id: Id): string {
    Joined(Digits(id.shard), '.', Joined(Digits(id.realm), '.', Digits(id.num)))
  }

  // ----- checksum

  const P3 := 17_576       // 26^3
  const P5 := 11_881_376   // 26^5
  const M := 1_000_003
  const W := 31

  function LedgerId(n: Network): nat {
    match n case Mainnet => 0 case Testnet => 1 case Previewnet => 2 case LocalNode => 3
  }

  /** "." counts as the digit 10. */
  function CharDigit(c: char): (d: nat)
    ensures IsDigit(c) || c == '.' ==> d <= 10
  {
    if c == '.' then 10 else if IsDigit(c) then c as int - '0' as int else 11
  }

  predicate AddressText(s: string) {
    forall i :: 0 <= i < |s| ==> IsDigit(s[i]) || s[i] == '.'
  }

  /** The weighted sum of all digits, modulo 26^3. */
  function Weighted(s: string): (r: nat)
    ensures r < P3
  {
    if s == [] then 0 else (W * Weighted(s[..|s| - 1]) + CharDigit(s[|s| - 1])) % P3
  }

  /** The sum modulo 11 of the digits at even (parity 0) or odd (parity 1) positions. */
  function ParitySum(s: string, parity: nat): (r: nat)
    ensures r < 11
  {
    if s == [] then 0
    else
      var n := |s| - 1;
      var rest := ParitySum(s[..n], parity);
      if n % 2 == parity then (rest + CharDigit(s[n])) % 11 else rest
  }

  /** The hash of the ledger id followed by six zero bytes. */
  function LedgerHash(bytes: seq<nat>): (r: nat)
    ensures r < P5
  {
    if bytes == [] then 0 else (W * LedgerHash(bytes[..|bytes| - 1]) + bytes[|bytes| - 1]) % P5
  }

  function LedgerBytes(n: Network): seq<nat> {
    [LedgerId(n), 0, 0, 0, 0, 0, 0]
  }

  function Pack(len: nat, s0: nat, s1: nat, s: nat): nat {
    (((len % 5) * 11 + s0) * 11 + s1) * P3 + s
  }

  function Digest(text: string): (r: nat)
    ensures r < P5
  {
    Pack(|text|, ParitySum(text, 0), ParitySum(text, 1), Weighted(text))
  }

  function Mixed(text: string, n: Network): (r: nat)
    ensures r < P5
  {
    (Digest(text) + LedgerHash(LedgerBytes(n))) % P5
  }

  function Scramble(text: string, n: Network): (r: nat)
    ensures r < P5
  {
    (Mixed(text, n) * M) % P5
  }

  function Letter(d: nat): (c: char)
    requires d < 26
    ensures 'a' <= c <= 'z' && c as int - 'a' as int == d
  {
    'a' + d as char
  }

  /** The k lowest base-26 digits as letters, most significant first. */
  function Letters(c: nat, k: nat): (r: string)
    ensures |r| == k && forall i :: 0 <= i < k ==> 'a' <= r[i] <= 'z'
  {
    if k == 0 then "" else Letters(c / 26, k - 1) + [Letter(c % 26)]
  }

  function Checksum(id: Id, n: Network): (r: string)
    ensures |r| == 5 && forall i :: 0 <= i < 5 ==> 'a' <= r[i] <= 'z'
  {
    Letters(Scramble(Format(id), n), 5)
  }

  lemma FormatText(id: Id)
    ensures AddressText(Format(id))
  {
    DigitsCanonical(id.shard);
    DigitsCanonical(id.realm);
    DigitsCanonical(id.num);
  }

  const SAFE_INTEGER := 0x20_0000_0000_0000  // 2^53

  /** Every value the checksum loops compute, before each reduction, is exact in a double. */
  lemma ExactInDoubles(address: string, n: Network, i: nat, j: nat)
    requires AddressText(address) && i < |address| && j < |LedgerBytes(n)|
    ensures W * Weighted(address[..i]) + CharDigit(address[i]) < SAFE_INTEGER
    ensures ParitySum(address[..i], i % 2) + CharDigit(address[i]) < SAFE_INTEGER
    ensures W * LedgerHash(LedgerBytes(n)[..j]) + LedgerBytes(n)[j] < SAFE_INTEGER
    ensures Digest(address) + LedgerHash(LedgerBytes(n)) < SAFE_INTEGER
    ensures Mixed(address, n) * M < SAFE_INTEGER
  {
    hide Weighted, ParitySum, LedgerHash, Digest, Mixed;
    assert LedgerBytes(n)[j] <= 3;
  }

  method DigitSums(address: string) returns (s: nat, s0: nat, s1: nat)
    requires AddressText(address)
    ensures s == Weighted(address) && s0 == ParitySum(address, 0) && s1 == ParitySum(address, 1)
  {
    s, s0, s1 := 0, 0, 0;
    for i := 0 to |address|
      invariant s == Weighted(address[..i])
      invariant s0 == ParitySum(address[..i], 0) && s1 == ParitySum(address[..i], 1)
    {
      assert address[..i + 1][..i] == address[..i];
      var digit := CharDigit(address[i]);
      s := (W * s + digit) % P3;
      if i % 2 == 0 {
        s0 := (s0 + digit) % 11;
      } else {
        s1 := (s1 + digit) % 11;
      }
    }
    assert address[..|address|] == address;
  }

  method HashLedger(h: seq<nat>) returns (sh: nat)
    requires forall i :: 0 <= i < |h| ==> h[i] < 256
    ensures sh == LedgerHash(h)
  {
    sh := 0;
    for i := 0 to |h|
      invariant sh == LedgerHash(h[..i])
    {
      assert h[..i + 1][..i] == h[..i];
      sh := (W * sh + h[i]) % P5;
    }
    assert h[..|h|] == h;
  }

  method SpellLetters(value: nat) returns (checksum: string)
    ensures checksum == Letters(value, 5)
  {
    var c := value;
    checksum := "";
    for i := 0 to 5
      invariant Letters(c, 5 - i) + checksum == Letters(value, 5)
    {
      assert Letters(c, 5 - i) + checksum == Letters(c / 26, 4 - i) + ([Letter(c % 26)] + checksum);
      checksum := [Letter(c % 26)] + checksum;
      c := c / 26;
    }
    assert Letters(c, 0) + checksum == checksum;
  }

  /** The checksum as the loops compute it. */
  method ComputeChecksum(id: Id, n: Network) returns (checksum: string)
    ensures checksum == Checksum(id, n)
  {
    hide LedgerHash, Weighted, ParitySum, Letters;
    var address := Format(id);
    FormatText(id);
    var s, s0, s1 := DigitSums(address);
    var sh := HashLedger([LedgerId(n), 0, 0, 0, 0, 0, 0]);
    var c := ((((|address| % 5) * 11 + s0) * 11 + s1) * P3 + s + sh) % P5;
    c := (c * M) % P5;
    checksum := SpellLetters(c);
  }

  // ----- what the checksum distinguishes

  const M_INVERSE := 8_610_443
  const M_QUOTIENT := 724_703  // M * M_INVERSE == M_QUOTIENT * P5 + 1

  lemma ModUnique(a: int, k: int, x: nat)
    requires x < P5 && a == P5 * k + x
    ensures a % P5 == x
  {
  }

  /** Multiplying by M is undone by its inverse modulo 26^5. */
  lemma Unscramble(x: nat)
    requires x < P5
    ensures ((x * M) % P5 * M_INVERSE) % P5 == x
  {
    var q, r := (x * M) / P5, (x * M) % P5;
    assert r == x * M - q * P5;
    var k := M_QUOTIENT * x - q * M_INVERSE;
    assert r * M_INVERSE == P5 * k + x;
    ModUnique(r * M_INVERSE, k, x);
  }

  lemma ScrambleInjective(x: nat, y: nat)
    requires x < P5 && y < P5 && (x * M) % P5 == (y * M) % P5
    ensures x == y
  {
    Unscramble(x);
    Unscramble(y);
  }

  function Pow26(k: nat): (r: nat)
    ensures r >= 1
  {
    if k == 0 then 1 else 26 * Pow26(k - 1)
  }

  /** The number that letters spell in base 26. */
  function Unspell(s: string): nat
    requires forall i :: 0 <= i < |s| ==> 'a' <= s[i] <= 'z'
  {
    if s == [] then 0 else Unspell(s[..|s| - 1]) * 26 + (s[|s| - 1] as int - 'a' as int)
  }

  lemma {:induction false} LettersRoundTrip(c: nat, k: nat)
    requires c < Pow26(k)
    ensures Unspell(Letters(c, k)) == c
  {
    if k > 0 {
      LettersRoundTrip(c / 26, k - 1);
      assert Letters(c, k)[..k - 1] == Letters(c / 26, k - 1);
    }
  }

  lemma Pow26Five()
    ensures Pow26(5) == P5
  {
    assert Pow26(2) == 676;
    assert Pow26(4) == 456_976;
  }

  lemma FiveLetters(x: nat, y: nat)
    requires x < P5 && y < P5 && Letters(x, 5) == Letters(y, 5)
    ensures x == y
  {
    Pow26Five();
    LettersRoundTrip(x, 5);
    LettersRoundTrip(y, 5);
  }

  /** Equal checksums mean equal values before the final permutation, and conversely. */
  lemma ChecksumDetermines(a: Id, n: Network, b: Id, m: Network)
    ensures Checksum(a, n) == Checksum(b, m) <==> Mixed(Format(a), n) == Mixed(Format(b), m)
  {
    hide Mixed, Letters;
    if Checksum(a, n) == Checksum(b, m) {
      FiveLetters(Scramble(Format(a), n), Scramble(Format(b), m));
      ScrambleInjective(Mixed(Format(a), n), Mixed(Format(b), m));
    }
  }

  /** One zero byte multiplies the hash by 31 modulo 26^5. */
  lemma ZeroByte(h: seq<nat>, i: nat, q: nat, w: nat)
    requires i < |h| && h[i] == 0 && w < P5 && W * LedgerHash(h[..i]) == q * P5 + w
    ensures LedgerHash(h[..i + 1]) == w
  {
    assert h[..i + 1][..i] == h[..i];
    hide LedgerHash;
  }

  lemma LedgerByte(h: seq<nat>)
    requires h != [] && h[0] < P5
    ensures LedgerHash(h[..1]) == h[0]
  {
    assert h[..1][..0] == [];
  }

  /** The hash is the ledger id times 31^6; the reductions modulo 26^5 are in the last two steps. */
  lemma LedgerHashIs(n: Network, q5: nat, w5: nat, q6: nat, w6: nat)
    requires w5 < P5 && w6 < P5 && W * (923_521 * LedgerId(n)) == q5 * P5 + w5 && W * w5 == q6 * P5 + w6
    ensures LedgerHash(LedgerBytes(n)) == w6
  {
    var h, l := LedgerBytes(n), LedgerId(n);
    hide LedgerHash;
    LedgerByte(h);
    ZeroByte(h, 1, 0, 31 * l);
    ZeroByte(h, 2, 0, 961 * l);
    ZeroByte(h, 3, 0, 29_791 * l);
    ZeroByte(h, 4, 0, 923_521 * l);
    ZeroByte(h, 5, q5, w5);
    ZeroByte(h, 6, q6, w6);
    assert h[..7] == h;
  }

  lemma LedgerHashOf(n: Network)
    ensures LedgerHash(LedgerBytes(n))
            == match n case Mainnet => 0 case Testnet => 8_281_857 case Previewnet => 4_682_338 case LocalNode => 1_082_819
  {
    hide LedgerHash, LedgerBytes;
    match n
    case Mainnet => LedgerHashIs(n, 0, 0, 0, 0);
    case Testnet => LedgerHashIs(n, 2, 4866399, 12, 8281857);
    case Previewnet => LedgerHashIs(n, 4, 9732798, 25, 4682338);
    case LocalNode => LedgerHashIs(n, 7, 2717821, 7, 1082819);
  }

  lemma LedgerHashesDiffer(n: Network, m: Network)
    requires n != m
    ensures LedgerHash(LedgerBytes(n)) != LedgerHash(LedgerBytes(m))
  {
    LedgerHashOf(n);
    LedgerHashOf(m);
  }

  // ----- what the checksum computes

  function Pow(base: nat, n: nat): nat {
    if n == 0 then 1 else base * Pow(base, n - 1)
  }

  /** The number that digits, most significant first, stand for in a base. */
  function PowerSum(digits: seq<nat>, base: nat): nat {
    if digits == [] then 0 else digits[0] * Pow(base, |digits| - 1) + PowerSum(digits[1..], base)
  }

  /** The sum of every second digit, beginning with the given one. */
  function EverySecond(digits: seq<nat>, first: nat): nat
    decreases |digits| - first
  {
    if first >= |digits| then 0 else digits[first] + EverySecond(digits, first + 2)
  }

  function DigitsOf(s: string): seq<nat> {
    seq(|s|, i requires 0 <= i < |s| => CharDigit(s[i]))
  }

  lemma {:induction false} PowerSumAppend(digits: seq<nat>, base: nat, d: nat)
    ensures PowerSum(digits + [d], base) == base * PowerSum(digits, base) + d
  {
    if digits == [] {
      assert digits + [d] == [d] && [d][1..] == [] && Pow(base, 0) == 1;
    } else {
      assert (digits + [d])[1..] == digits[1..] + [d];
      PowerSumAppend(digits[1..], base, d);
      Distribute(digits[0], base, Pow(base, |digits| - 1), PowerSum(digits[1..], base));
    }
  }

  lemma Distribute(d: nat, base: nat, p: nat, rest: nat)
    ensures d * (base * p) + base * rest == base * (d * p + rest)
  {
  }

  lemma {:induction false} EverySecondAppend(digits: seq<nat>, first: nat, d: nat)
    ensures EverySecond(digits + [d], first)
            == EverySecond(digits, first) + if first <= |digits| && (|digits| - first) % 2 == 0 then d else 0
    decreases |digits| - first
  {
    if first < |digits| {
      EverySecondAppend(digits, first + 2, d);
    }
  }

  lemma ReducedBelow3(x: nat, d: nat)
    ensures (31 * (x % 17_576) + d) % 17_576 == (31 * x + d) % 17_576
  {
    var q := x / 17_576;
    assert 31 * x + d == 17_576 * (31 * q) + (31 * (x % 17_576) + d);
  }

  lemma ReducedBelow5(x: nat, d: nat)
    ensures (31 * (x % 11_881_376) + d) % 11_881_376 == (31 * x + d) % 11_881_376
  {
    var q := x / 11_881_376;
    assert 31 * x + d == 11_881_376 * (31 * q) + (31 * (x % 11_881_376) + d);
  }

  lemma ReducedBelow11(x: nat, d: nat)
    ensures (x % 11 + d) % 11 == (x + d) % 11
  {
  }

  lemma FrontDigits(s: string)
    requires s != ""
    ensures DigitsOf(s) == DigitsOf(s[..|s| - 1]) + [CharDigit(s[|s| - 1])]
  {
  }

  /** The weighted sum is that of the digits in base 31, modulo 26^3. */
  lemma {:induction false} WeightedIs(s: string)
    ensures Weighted(s) == PowerSum(DigitsOf(s), 31) % 17_576
  {
    if s != "" {
      var front, d := s[..|s| - 1], CharDigit(s[|s| - 1]);
      WeightedIs(front);
      FrontDigits(s);
      hide PowerSum, DigitsOf;
      PowerSumAppend(DigitsOf(front), 31, d);
      ReducedBelow3(PowerSum(DigitsOf(front), 31), d);
    }
  }

  /** The parity sums are those of the digits at even and odd positions, modulo 11. */
  lemma {:induction false} ParitySumIs(s: string, parity: nat)
    requires parity < 2
    ensures ParitySum(s, parity) == EverySecond(DigitsOf(s), parity) % 11
  {
    if s != "" {
      var front, d := s[..|s| - 1], CharDigit(s[|s| - 1]);
      ParitySumIs(front, parity);
      FrontDigits(s);
      hide EverySecond;
      EverySecondAppend(DigitsOf(front), parity, d);
      ReducedBelow11(EverySecond(DigitsOf(front), parity), d);
      hide DigitsOf;
    }
  }

  /** The ledger hash is that of its bytes in base 31, modulo 26^5. */
  lemma {:induction false} LedgerHashSum(bytes: seq<nat>)
    ensures LedgerHash(bytes) == PowerSum(bytes, 31) % 11_881_376
  {
    if bytes != [] {
      var front, d := bytes[..|bytes| - 1], bytes[|bytes| - 1];
      LedgerHashSum(front);
      assert bytes == front + [d];
      hide PowerSum;
      PowerSumAppend(front, 31, d);
      ReducedBelow5(PowerSum(front, 31), d);
    }
  }

  /** The five letters, read in base 26, are the length modulo 5, the sum of the even and of the odd
      digits modulo 11 and the weighted sum modulo 26^3, packed in this order, plus the ledger hash,
      times 1000003, modulo 26^5. */
  lemma ChecksumIs(id: Id, n: Network)
    ensures var ds := DigitsOf(Format(id));
            var even, odd, weighted := EverySecond(ds, 0) % 11, EverySecond(ds, 1) % 11, PowerSum(ds, 31) % 17_576;
            var ledger := PowerSum([LedgerId(n), 0, 0, 0, 0, 0, 0], 31) % 11_881_376;
            Unspell(Checksum(id, n))
            == ((((|ds| % 5) * 11 + even) * 11 + odd) * 17_576 + weighted + ledger) % 11_881_376 * 1_000_003 % 11_881_376
  {
    hide Weighted, ParitySum, LedgerHash, PowerSum, EverySecond, Letters, Format, Unspell, Pow26, CharDigit;
    var text := Format(id);
    WeightedIs(text);
    ParitySumIs(text, 0);
    ParitySumIs(text, 1);
    LedgerHashSum(LedgerBytes(n));
    Pow26Five();
    LettersRoundTrip(Scramble(text, n), 5);
  }

  lemma Five(c: nat, c1: nat, c2: nat, c3: nat, c4: nat, letters: string)
    requires |letters| == 5 && forall i :: 0 <= i < 5 ==> 'a' <= letters[i] <= 'z'
    requires c == 26 * c1 + (letters[4] as int - 'a' as int) && c1 == 26 * c2 + (letters[3] as int - 'a' as int)
    requires c2 == 26 * c3 + (letters[2] as int - 'a' as int) && c3 == 26 * c4 + (letters[1] as int - 'a' as int)
    requires c4 == letters[0] as int - 'a' as int
    ensures Letters(c, 5) == letters
  {
    hide Letters;
    NextLetter(c4, 0, letters, 0);
    NextLetter(c3, c4, letters, 1);
    NextLetter(c2, c3, letters, 2);
    NextLetter(c1, c2, letters, 3);
    NextLetter(c, c1, letters, 4);
    NoLetters(0);
    assert letters[..0] == "" && letters[..5] == letters;
  }

  lemma NoLetters(c: nat)
    ensures Letters(c, 0) == ""
  {
  }

  lemma NextLetter(c: nat, front: nat, letters: string, k: nat)
    requires k < |letters| && 'a' <= letters[k] <= 'z' && c == 26 * front + (letters[k] as int - 'a' as int)
    ensures Letters(front, k) == letters[..k] ==> Letters(c, k + 1) == letters[..k + 1]
  {
    assert c / 26 == front && c % 26 == letters[k] as int - 'a' as int;
    assert letters[..k + 1] == letters[..k] + [letters[k]];
  }

  lemma Text123()
    ensures Format(Id(0, 0, 123)) == "0.0.123"
  {
    assert Digits(1) == "1" && Digits(12) == "12" && Digits(123) == "123" && Digits(0) == "0";
  }

  lemma Weighted123()
    ensures Weighted("0.0.123") == 13_766
  {
    var t := "0.0.123";
    assert t[..1] == "0" && Weighted(t[..1]) == 0 by { assert t[..1][..0] == ""; }
    assert t[..2][..1] == t[..1] && Weighted(t[..2]) == 10;
    assert t[..3][..2] == t[..2] && Weighted(t[..3]) == 310;
    assert t[..4][..3] == t[..3] && Weighted(t[..4]) == 9_620;
    assert t[..5][..4] == t[..4] && Weighted(t[..5]) == 17_005;
    assert t[..6][..5] == t[..5] && Weighted(t[..6]) == 17_453;
    assert t[..7][..6] == t[..6] && t[..7] == t;
  }

  lemma Parity123()
    ensures ParitySum("0.0.123", 0) == 4 && ParitySum("0.0.123", 1) == 0
  {
    ParitySumIs("0.0.123", 0);
    ParitySumIs("0.0.123", 1);
    var ds := DigitsOf("0.0.123");
    assert ds == [0, 10, 0, 10, 1, 2, 3];
    assert EverySecond(ds, 6) == 3 && EverySecond(ds, 4) == 4 && EverySecond(ds, 2) == 4 && EverySecond(ds, 0) == 4;
    assert EverySecond(ds, 5) == 2 && EverySecond(ds, 3) == 12 && EverySecond(ds, 1) == 22;
  }

  lemma ScrambleIs(text: string, n: Network, digest: nat, ledger: nat, over: nat, mixed: nat, quotient: nat, result: nat)
    requires Digest(text) == digest && LedgerHash(LedgerBytes(n)) == ledger && mixed < P5 && result < P5
    requires digest + ledger == P5 * over + mixed && mixed * M == P5 * quotient + result
    ensures Scramble(text, n) == result
  {
    hide Digest, LedgerHash, LedgerBytes;
    ModUnique(digest + ledger, over, mixed);
    ModUnique(mixed * M, quotient, result);
  }

  lemma Digest123()
    ensures Digest("0.0.123") == 5_040_502
  {
    hide Weighted, ParitySum;
    Weighted123();
    Parity123();
  }

  /** A published vector: the checksums of 0.0.123. */
  lemma ChecksumOf123(n: Network)
    ensures Checksum(Id(0, 0, 123), n)
            == match n case Mainnet => "vfmkw" case Testnet => "esxsf" case Previewnet => "ogizo" case LocalNode => "xtugx"
  {
    hide Digest, LedgerHash, LedgerBytes, Scramble, Format, Letters;
    var text, d := "0.0.123", 5_040_502;
    Text123();
    Digest123();
    LedgerHashOf(n);
    match n
    case Mainnet =>
      ScrambleIs(text, n, d, 0, 0, 5_040_502, 424_236, 9_692_770);
      Five(9_692_770, 372_798, 14_338, 551, 21, "vfmkw");
    case Testnet =>
      ScrambleIs(text, n, d, 8_281_857, 1, 1_440_983, 121_281, 2_160_293);
      Five(2_160_293, 83_088, 3_195, 122, 4, "esxsf");
    case Previewnet =>
      ScrambleIs(text, n, d, 4_682_338, 0, 9_722_840, 818_328, 6_509_192);
      Five(6_509_192, 250_353, 9_628, 370, 14, "ogizo");
    case LocalNode =>
      ScrambleIs(text, n, d, 1_082_819, 0, 6_123_321, 515_372, 10_858_091);
      Five(10_858_091, 417_618, 16_062, 617, 23, "xtugx");
  }

  lemma MixDiffers(d: nat, x: nat, y: nat)
    requires d < P5 && x < P5 && y < P5 && x != y
    ensures (d + x) % P5 != (d + y) % P5
  {
  }

  /** For every id, the checksums on two different networks differ. */
  lemma NetworksDiffer(id: Id, n: Network, m: Network)
    requires n != m
    ensures Checksum(id, n) != Checksum(id, m)
  {
    hide Digest, LedgerHash, Checksum, LedgerBytes, Format;
    LedgerHashesDiffer(n, m);
    ChecksumDetermines(id, n, id, m);
    MixDiffers(Digest(Format(id)), LedgerHash(LedgerBytes(n)), LedgerHash(LedgerBytes(m)));
  }

  lemma PackInjective(l: nat, s0: nat, s1: nat, s: nat, l': nat, s0': nat, s1': nat, s': nat)
    requires s0 < 11 && s1 < 11 && s < P3 && s0' < 11 && s1' < 11 && s' < P3
    requires Pack(l, s0, s1, s) == Pack(l', s0', s1', s')
    ensures l % 5 == l' % 5 && s0 == s0' && s1 == s1' && s == s'
  {
  }

  /** On one network, two ids share a checksum exactly if they agree on their length modulo 5,
      both parity sums and the weighted sum. */
  lemma SameChecksumIff(a: Id, b: Id, n: Network)
    ensures Checksum(a, n) == Checksum(b, n) <==>
              var x, y := Format(a), Format(b);
              && |x| % 5 == |y| % 5 && Weighted(x) == Weighted(y)
              && ParitySum(x, 0) == ParitySum(y, 0) && ParitySum(x, 1) == ParitySum(y, 1)
  {
    hide Weighted, ParitySum, LedgerHash, Checksum, Format;
    ChecksumDetermines(a, n, b, n);
    var x, y := Format(a), Format(b);
    if Mixed(x, n) == Mixed(y, n) {
      if Digest(x) != Digest(y) {
        MixDiffers(LedgerHash(LedgerBytes(n)), Digest(x), Digest(y));
      }
      hide Pack, Mixed;
      PackInjective(|x|, ParitySum(x, 0), ParitySum(x, 1), Weighted(x), |y|, ParitySum(y, 0), ParitySum(y, 1), Weighted(y));
    }
  }

  // ----- typing errors

  /** The strings differ in the one position i. */
  predicate OneCharacterApart(a: string, b: string, i: nat) {
    |a| == |b| && i < |a| && a[i] != b[i] && forall j :: 0 <= j < |a| && j != i ==> a[j] == b[j]
  }

  /** b is a with the unequal characters at i and i + 1 exchanged. */
  predicate AdjacentSwap(a: string, b: string, i: nat) {
    && |a| == |b| && i + 1 < |a| && a[i] != a[i + 1] && a[i] == b[i + 1] && a[i + 1] == b[i]
    && forall j :: 0 <= j < |a| && j != i && j != i + 1 ==> a[j] == b[j]
  }

  lemma CharDigits(c: char, d: char)
    requires (IsDigit(c) || c == '.') && (IsDigit(d) || d == '.')
    ensures CharDigit(c) < 11 && CharDigit(d) < 11 && (CharDigit(c) == CharDigit(d) <==> c == d)
  {
  }

  lemma SumsDiffer(x: nat, y: nat, d: nat, e: nat)
    requires x < 11 && y < 11 && d < 11 && e < 11 && ((x == y && d != e) || (x != y && d == e))
    ensures (x + d) % 11 != (y + e) % 11
  {
  }

  /** Two texts that differ, among positions of one parity, only at i, have parity sums that
      differ. */
  lemma {:induction false} ParityCatches(a: string, b: string, i: nat, parity: nat)
    requires AddressText(a) && AddressText(b) && |a| == |b| && parity < 2
    requires forall j :: 0 <= j < |a| && j % 2 == parity && j != i ==> a[j] == b[j]
    ensures i < |a| && i % 2 == parity && a[i] != b[i] ==> ParitySum(a, parity) != ParitySum(b, parity)
    ensures i >= |a| ==> ParitySum(a, parity) == ParitySum(b, parity)
  {
    if a != [] {
      var n := |a| - 1;
      ParityCatches(a[..n], b[..n], i, parity);
      hide CharDigit;
      CharDigits(a[n], b[n]);
      if i <= n && i % 2 == parity && a[i] != b[i] && n % 2 == parity {
        SumsDiffer(ParitySum(a[..n], parity), ParitySum(b[..n], parity), CharDigit(a[n]), CharDigit(b[n]));
      }
    }
  }

  /** On every network, mistyping one character of an id changes its checksum. */
  lemma SubstitutionCaught(a: Id, b: Id, n: Network, i: nat)
    requires OneCharacterApart(Format(a), Format(b), i)
    ensures Checksum(a, n) != Checksum(b, n)
  {
    hide Checksum, Format, Weighted, ParitySum;
    FormatText(a);
    FormatText(b);
    ParityCatches(Format(a), Format(b), i, i % 2);
    SameChecksumIff(a, b, n);
  }

  /** On every network, exchanging two unequal neighbours changes the checksum. */
  lemma TranspositionCaught(a: Id, b: Id, n: Network, i: nat)
    requires AdjacentSwap(Format(a), Format(b), i)
    ensures Checksum(a, n) != Checksum(b, n)
  {
    hide Checksum, Format, Weighted, ParitySum;
    FormatText(a);
    FormatText(b);
    ParityCatches(Format(a), Format(b), i, i % 2);
    SameChecksumIff(a, b, n);
  }

  // ----- grammar

  datatype Fields = Fields(shard: string, realm: string, num: string, checksum: Option<string>)

  predicate ChecksumText(s: string) {
    |s| == 5 && forall i :: 0 <= i < |s| ==> 'a' <= s[i] <= 'z'
  }

  function Suffix(checksum: Option<string>): string {
    if checksum.None? then "" else "-" + checksum.value
  }

  predicate FieldsOk(f: Fields) {
    && Canonical(f.shard) && Canonical(f.realm) && Canonical(f.num)
    && (f.checksum.Some? ==> ChecksumText(f.checksum.value))
  }

  /** The grammar, said declaratively: three numerals joined by dots, then an optional checksum. */
  predicate Spells(f: Fields, s: string) {
    FieldsOk(f) && s == Joined(f.shard, '.', Joined(f.realm, '.', f.num + Suffix(f.checksum)))
  }

  function Last(tail: string): (string, Option<string>) {
    match Cut(tail, '-')
    case Whole => (tail, None)
    case Parts(num, checksum) => (num, Some(checksum))
  }

  /** The matcher: split at the first two dots and the first dash after them. */
  function Match(s: string): Option<Fields> {
    match Cut(s, '.')
    case Whole => None
    case Parts(shard, rest) =>
      match Cut(rest, '.')
      case Whole => None
      case Parts(realm, tail) =>
        var f := Fields(shard, realm, Last(tail).0, Last(tail).1);
        if FieldsOk(f) then Some(f) else None
  }

  lemma LastIff(tail: string, num: string, checksum: Option<string>)
    ensures Free(num, '-') && tail == num + Suffix(checksum) <==> Last(tail) == (num, checksum)
  {
    if checksum.Some? {
      CutIff(tail, '-', num, checksum.value);
      assert num + Suffix(checksum) == Joined(num, '-', checksum.value);
    } else {
      CutNone(tail, '-');
      CutNone(num, '-');
      assert num + "" == num;
    }
  }

  /** A string is spelled by at most one set of fields, and the matcher finds it. */
  lemma MatchIff(s: string, f: Fields)
    ensures Match(s) == Some(f) <==> Spells(f, s)
  {
    var tail := f.num + Suffix(f.checksum);
    var rest := Joined(f.realm, '.', tail);
    if FieldsOk(f) {
      DigitsFree(f.shard, '.');
      DigitsFree(f.realm, '.');
      DigitsFree(f.num, '-');
    }
    LastIff(tail, f.num, f.checksum);
    CutIff(s, '.', f.shard, rest);
    CutIff(rest, '.', f.realm, tail);
    if Match(s) == Some(f) {
      var rest' := Cut(s, '.').right;
      var tail' := Cut(rest', '.').right;
      LastIff(tail', f.num, f.checksum);
      CutIff(rest', '.', f.realm, tail');
      CutIff(s, '.', f.shard, rest');
    }
    hide Cut, Joined, Last, Canonical, ChecksumText, Free;
  }

  // ----- parser

  function FromFields(f: Fields): Id
    requires Canonical(f.shard) && Canonical(f.realm) && Canonical(f.num)
  {
    Id(Value(f.shard), Value(f.realm), Value(f.num))
  }

  /** A checksum is accepted only if a network is given and it is that network's. */
  function Parse(s: string, network: Option<Network>): Option<Id> {
    var m := Match(s);
    if m.None? then None
    else
      assert Spells(m.value, s) by { MatchIff(s, m.value); }
      var id := FromFields(m.value);
      if !InRange(id) then None
      else if m.value.checksum.None? then Some(id)
      else if network.None? || m.value.checksum.value != Checksum(id, network.value) then None
      else Some(id)
  }

  function FormatWithChecksum(id: Id, n: Network): string {
    Format(id) + "-" + Checksum(id, n)
  }

  function FieldsOf(id: Id, checksum: Option<string>): Fields {
    Fields(Digits(id.shard), Digits(id.realm), Digits(id.num), checksum)
  }

  lemma FormatSuffix(id: Id, checksum: Option<string>)
    ensures Format(id) + Suffix(checksum)
            == Joined(Digits(id.shard), '.', Joined(Digits(id.realm), '.', Digits(id.num) + Suffix(checksum)))
  {
    JoinedAppend(Digits(id.realm), '.', Digits(id.num), Suffix(checksum));
    JoinedAppend(Digits(id.shard), '.', Joined(Digits(id.realm), '.', Digits(id.num)), Suffix(checksum));
  }

  /** Fields spell a string exactly if they are the fields of an id and it is their format. */
  lemma SpellsIff(id: Id, checksum: Option<string>, f: Fields, s: string)
    requires checksum.Some? ==> ChecksumText(checksum.value)
    ensures Spells(f, s) && FromFields(f) == id && f.checksum == checksum
            <==> f == FieldsOf(id, checksum) && s == Format(id) + Suffix(checksum)
  {
    FormatSuffix(id, checksum);
    DigitsCanonical(id.shard);
    DigitsCanonical(id.realm);
    DigitsCanonical(id.num);
    ValueDigits(id.shard);
    ValueDigits(id.realm);
    ValueDigits(id.num);
    if FieldsOk(f) {
      DigitsValue(f.shard);
      DigitsValue(f.realm);
      DigitsValue(f.num);
    }
    hide Digits, Value, Joined, Canonical, Format;
  }

  lemma ParseSpelled(id: Id, checksum: Option<string>, network: Option<Network>, s: string)
    requires checksum.Some? ==> ChecksumText(checksum.value)
    requires s == Format(id) + Suffix(checksum)
    ensures Parse(s, network)
            == if InRange(id) && (checksum.None? || (network.Some? && checksum.value == Checksum(id, network.value)))
               then Some(id) else None
  {
    hide Checksum, Match, Format, Spells;
    SpellsIff(id, checksum, FieldsOf(id, checksum), s);
    MatchIff(s, FieldsOf(id, checksum));
  }

  lemma NoSuffix(id: Id)
    ensures Format(id) + Suffix(None) == Format(id)
  {
  }

  lemma ChecksumSuffix(id: Id, n: Network)
    ensures Format(id) + Suffix(Some(Checksum(id, n))) == FormatWithChecksum(id, n)
  {
  }

  /** Exactly the canonical spelling and, with a network, the one carrying that network's checksum
      are accepted; every other string is rejected. */
  lemma InRangeIff(id: Id)
    ensures InRange(id) <==>
              && id.shard <= 9_223_372_036_854_775_807 && id.realm <= 9_223_372_036_854_775_807
              && id.num <= 9_223_372_036_854_775_807
  {
  }

  lemma ParseIff(s: string, network: Option<Network>, id: Id)
    ensures Parse(s, network) == Some(id) <==>
              InRange(id) && (s == Format(id) || (network.Some? && s == FormatWithChecksum(id, network.value)))
  {
    NoSuffix(id);
    if network.Some? { ChecksumSuffix(id, network.value); }
    if Parse(s, network) == Some(id) {
      var f := Match(s).value;
      MatchIff(s, f);
      SpellsIff(id, f.checksum, f, s);
    } else {
      hide Parse, Format, FormatWithChecksum, Checksum;
      if s == Format(id) {
        ParseSpelled(id, None, network, s);
      } else if network.Some? && s == FormatWithChecksum(id, network.value) {
        ParseSpelled(id, Some(Checksum(id, network.value)), network, s);
      }
    }
  }

  /** An id carrying one network's checksum parses on that network and on no other. */
  lemma WrongNetworkRejected(id: Id, n: Network, m: Network)
    requires InRange(id)
    ensures Parse(FormatWithChecksum(id, n), Some(m)) == if n == m then Some(id) else None
    ensures Parse(FormatWithChecksum(id, n), None) == None
  {
    ChecksumSuffix(id, n);
    hide Parse, Format, FormatWithChecksum, Checksum;
    ParseSpelled(id, Some(Checksum(id, n)), Some(m), FormatWithChecksum(id, n));
    ParseSpelled(id, Some(Checksum(id, n)), None, FormatWithChecksum(id, n));
    if n != m { NetworksDiffer(id, n, m); }
  }
}
