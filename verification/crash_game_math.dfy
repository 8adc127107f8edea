/** The integer part of the provably-fair crash-point derivation of
    `services/crash_game_math.rs`. HMAC-SHA256 is passed in as a function
    from (key, message) to a 64-character hex digest: the model never looks
    inside it, and since it is a function, equal seeds give equal crash
    points. Crash points are integer hundredths (142 means 1.42x). */
module CrashGameMath {
  import opened Ints
  import opened Wrappers

  predicate IsHexDigit(c: char) {
    ('0' <= c <= '9') || ('a' <= c <= 'f') || ('A' <= c <= 'F')
  }

  function HexDigitValue(c: char): (v: nat)
    requires IsHexDigit(c)
    ensures v < 16
  {
    if '0' <= c <= '9' then c as int - '0' as int
    else if 'a' <= c <= 'f' then c as int - 'a' as int + 10
    else c as int - 'A' as int + 10
  }

  predicate IsHex(s: string) {
    forall i :: 0 <= i < |s| ==> IsHexDigit(s[i])
  }

  function Pow16(n: nat): (p: nat)
    ensures p >= 1
  {
    if n == 0 then 1 else 16 * Pow16(n - 1)
  }

  /** `u64::from_str_radix(s, 16)` on a string of hex digits, read
      most-significant digit first; an `n`-digit string is below 16^n. */
  function HexValue(s: string): (v: nat)
    requires IsHex(s)
    ensures v < Pow16(|s|)
    decreases |s|
  {
    if |s| == 0 then 0
    else HexValue(s[..|s| - 1]) * 16 + HexDigitValue(s[|s| - 1])
  }

  /** Length of the hex encoding of a 32-byte HMAC-SHA256 tag. */
  const DIGEST_LENGTH: nat := 64

  predicate IsHexDigest(s: string) {
    |s| == DIGEST_LENGTH && IsHex(s)
  }

  type HexDigest = s: string | IsHexDigest(s)
    witness seq(DIGEST_LENGTH, _ => '0')

  /** Bits of an IEEE-754 double's mantissa field: 64 - 12. */
  const PRECISION: nat := 52
  /** Number of leading hex digits read as `h`: `PRECISION / 4`. */
  const PREFIX_DIGITS: nat := 13
  /** `e = 2^PRECISION`. */
  const E: nat := 0x10_0000_0000_0000

  /** Decimal rendering of an unsigned integer, as `format!("{}", n)` does. */
  function Decimal(n: nat): (s: string)
    ensures |s| >= 1
    ensures forall i :: 0 <= i < |s| ==> '0' <= s[i] <= '9'
    ensures s[0] == '0' ==> n == 0
    decreases n
  {
    if n < 10 then [('0' as int + n) as char]
    else Decimal(n / 10) + [('0' as int + n % 10) as char]
  }

  /** The number a string of decimal digits denotes. */
  function DecimalValue(s: string): nat
    requires forall i :: 0 <= i < |s| ==> '0' <= s[i] <= '9'
    decreases |s|
  {
    if |s| == 0 then 0
    else DecimalValue(s[..|s| - 1]) * 10 + (s[|s| - 1] as int - '0' as int)
  }

  /** Reading back the rendered round id gives the round id. */
  lemma {:induction false} DecimalRoundTrip(n: nat)
    ensures DecimalValue(Decimal(n)) == n
    decreases n
  {
    if n >= 10 {
      DecimalRoundTrip(n / 10);
      var s := Decimal(n);
      assert s[..|s| - 1] == Decimal(n / 10);
    }
  }

  /** The HMAC message: the client seed followed by the decimal round id. */
  function RoundMessage(clientSeed: string, roundId: uint32): (m: string)
    ensures |m| > |clientSeed| && m[..|clientSeed|] == clientSeed
    ensures m[|clientSeed|..] == Decimal(roundId)
  {
    clientSeed + Decimal(roundId)
  }

  /** Two rounds with the same client seed hash distinct messages. */
  lemma RoundMessageInjective(clientSeed: string, r1: uint32, r2: uint32)
    requires RoundMessage(clientSeed, r1) == RoundMessage(clientSeed, r2)
    ensures r1 == r2
  {
    var m1 := RoundMessage(clientSeed, r1);
    assert Decimal(r1) == m1[|clientSeed|..];
    assert Decimal(r2) == RoundMessage(clientSeed, r2)[|clientSeed|..];
    DecimalRoundTrip(r1);
    DecimalRoundTrip(r2);
  }

  /** `generate_round_hex_hash`: HMAC keyed by the server seed. */
  function RoundHexHash(mac: (string, string) -> HexDigest, serverSeed: string,
                        clientSeed: string, roundId: uint32): (h: HexDigest)
    ensures |h| == DIGEST_LENGTH
    ensures h == mac(serverSeed, clientSeed + Decimal(roundId))
  {
    mac(serverSeed, RoundMessage(clientSeed, roundId))
  }

  /** Value of the 4-digit chunk number `i` of `hash`. */
  function ChunkValue(hash: string, i: nat): (v: nat)
    requires IsHex(hash)
    requires 4 * i + 4 <= |hash|
    ensures v < 0x1_0000
  {
    assert Pow16(4) == 0x1_0000;
    HexValue(hash[4 * i..4 * i + 4])
  }

  /** A non-negative value reduced modulo `m` stays below both `m` and the value's own bound. */
  function Reduce(x: nat, m: nat, bound: nat): (r: nat)
    requires m > 0 && x < bound
    ensures r == x % m
    ensures r < m && r < bound
  {
    var q := x / m;
    MulNonNegative(m, q);
    assert x == m * q + x % m;
    x % m
  }

  /** Each chunk reduced modulo `modVal`, in order. */
  function Residues(hash: string, modVal: nat): (rs: seq<nat>)
    requires IsHex(hash) && |hash| % 4 == 0
    requires modVal > 0
    ensures |rs| == |hash| / 4
    ensures forall i :: 0 <= i < |rs| ==> rs[i] == ChunkValue(hash, i) % modVal
    ensures forall i :: 0 <= i < |rs| ==> rs[i] < modVal && rs[i] < 0x1_0000
  {
    var n := |hash| / 4;
    assert 4 * n == |hash|;
    seq(n, i requires 0 <= i < n => Reduce(ChunkValue(hash, i), modVal, 0x1_0000))
  }

  predicate AllBelow16Bits(rs: seq<nat>) {
    forall i :: 0 <= i < |rs| ==> rs[i] < 0x1_0000
  }

  /** `val << 16` on a `u64`: the top 16 bits fall off, the low 48 move up. */
  function Shl16(x: uint64): (r: uint64)
    ensures r == (x % 0x1_0000_0000_0000) * 0x1_0000
    ensures r % 0x1_0000 == 0
    ensures r <= TWO_TO_THE_64 - 0x1_0000
  {
    var hi := x / 0x1_0000_0000_0000;
    var lo := x % 0x1_0000_0000_0000;
    assert x * 0x1_0000 == hi * TWO_TO_THE_64 + lo * 0x1_0000;
    ModOfMultiplePlus(hi, lo * 0x1_0000, TWO_TO_THE_64);
    (x * 0x1_0000) % TWO_TO_THE_64
  }

  lemma ModOfMultiplePlus(q: int, y: int, m: int)
    requires m == TWO_TO_THE_64 || m == 0x1_0000_0000_0000 || m == 0x1_0000
    requires 0 <= y < m
    ensures (q * m + y) % m == y
  {
  }

  /** The loop of `divisible` over residues: `val = (val << 16) + h`. Adding
      the residue never carries, since the shifted value ends in 16 zero bits
      and the residue is below 2^16. */
  function ShiftFold(rs: seq<nat>): (v: uint64)
    requires AllBelow16Bits(rs)
    ensures |rs| == 0 ==> v == 0
    ensures |rs| > 0 ==> v % 0x1_0000 == rs[|rs| - 1]
    decreases |rs|
  {
    if |rs| == 0 then 0
    else
      var shifted := Shl16(ShiftFold(rs[..|rs| - 1]));
      ModOfMultiplePlus(shifted / 0x1_0000, rs[|rs| - 1], 0x1_0000);
      shifted + rs[|rs| - 1]
  }

  /** Residue `k` places from the end, 0 past the beginning. */
  function FromEnd(rs: seq<nat>, k: nat): nat {
    if k < |rs| then rs[|rs| - 1 - k] else 0
  }

  /** The last four residues packed as 16-bit fields of a 64-bit word. */
  function LastFour(rs: seq<nat>): nat {
    FromEnd(rs, 3) * 0x1_0000_0000_0000 + FromEnd(rs, 2) * 0x1_0000_0000
      + FromEnd(rs, 1) * 0x1_0000 + FromEnd(rs, 0)
  }

  /** Exact meaning of the 64-bit shift fold: it holds precisely the last four
      residues; every earlier residue has been shifted out. */
  lemma {:induction false} ShiftFoldIsLastFour(rs: seq<nat>)
    requires AllBelow16Bits(rs)
    ensures ShiftFold(rs) == LastFour(rs)
    decreases |rs|
  {
    if |rs| > 0 {
      var p := rs[..|rs| - 1];
      var r := rs[|rs| - 1];
      ShiftFoldIsLastFour(p);
      var low := FromEnd(p, 2) * 0x1_0000_0000 + FromEnd(p, 1) * 0x1_0000 + FromEnd(p, 0);
      assert FromEnd(p, 0) < 0x1_0000 && FromEnd(p, 1) < 0x1_0000 && FromEnd(p, 2) < 0x1_0000;
      assert 0 <= low < 0x1_0000_0000_0000;
      ModOfMultiplePlus(FromEnd(p, 3), low, 0x1_0000_0000_0000);
      assert LastFour(p) % 0x1_0000_0000_0000 == low;
      assert FromEnd(rs, 0) == r;
      assert FromEnd(rs, 1) == FromEnd(p, 0);
      assert FromEnd(rs, 2) == FromEnd(p, 1);
      assert FromEnd(rs, 3) == FromEnd(p, 2);
    }
  }

  /** `divisible(hash, mod_val)`: the shift fold of the chunk residues is 0.
      The hash length must be a multiple of 4 (see README). */
  function Divisible(hash: string, modVal: nat): (r: bool)
    requires IsHex(hash) && |hash| % 4 == 0
    requires modVal > 0
    ensures |hash| == 0 ==> r
    ensures r && |hash| > 0 ==> ChunkValue(hash, |hash| / 4 - 1) % modVal == 0
  {
    ShiftFold(Residues(hash, modVal)) == 0
  }

  /** `divisible` holds exactly when the residues of the last four chunks
      (of however many there are) are all zero. */
  lemma DivisibleIffLastFourResiduesZero(hash: string, modVal: nat)
    requires IsHex(hash) && |hash| % 4 == 0
    requires modVal > 0
    ensures Divisible(hash, modVal) <==>
      forall i :: 0 <= i < |hash| / 4 && |hash| / 4 - 4 <= i ==> ChunkValue(hash, i) % modVal == 0
  {
    var rs := Residues(hash, modVal);
    ShiftFoldIsLastFour(rs);
    LastFourZeroIff(rs);
  }

  /** The packed word is zero exactly when each of the last four residues is. */
  lemma LastFourZeroIff(rs: seq<nat>)
    ensures LastFour(rs) == 0 <==> forall i :: 0 <= i < |rs| && |rs| - 4 <= i ==> rs[i] == 0
  {
    var n := |rs|;
    if LastFour(rs) == 0 {
      forall i | 0 <= i < n && n - 4 <= i
        ensures rs[i] == 0
      {
        assert FromEnd(rs, n - 1 - i) == rs[i];
      }
    } else {
      var k :| 0 <= k < 4 && FromEnd(rs, k) != 0;
      assert rs[n - 1 - k] != 0;
    }
  }

  /** In particular, a hash every chunk of which is a multiple of `modVal`
      is divisible. */
  lemma DivisibleWhenEveryChunkDivisible(hash: string, modVal: nat)
    requires IsHex(hash) && |hash| % 4 == 0
    requires modVal > 0
    requires forall i :: 0 <= i < |hash| / 4 ==> ChunkValue(hash, i) % modVal == 0
    ensures Divisible(hash, modVal)
  {
    DivisibleIffLastFourResiduesZero(hash, modVal);
  }

  /** `h`: the first 13 hex digits, below 2^52 = `E`. */
  function Prefix(hash: HexDigest): (h: nat)
    ensures h < E
  {
    PrefixBound(hash[..PREFIX_DIGITS]);
    HexValue(hash[..PREFIX_DIGITS])
  }

  lemma PrefixBound(s: string)
    requires IsHex(s) && |s| == PREFIX_DIGITS
    ensures HexValue(s) < E
  {
    assert Pow16(4) == 0x1_0000;
    assert Pow16(8) == 0x1_0000_0000 by {
      assert Pow16(5) == 16 * Pow16(4);
      assert Pow16(6) == 16 * Pow16(5);
      assert Pow16(7) == 16 * Pow16(6);
    }
    assert Pow16(13) == E by {
      assert Pow16(9) == 16 * Pow16(8);
      assert Pow16(10) == 16 * Pow16(9);
      assert Pow16(11) == 16 * Pow16(10);
      assert Pow16(12) == 16 * Pow16(11);
    }
  }

  /** `(100 * e - h) / (e - h)` in hundredths: `e - h` is positive, `100 * e`
      fits in a `u64`, and the multiplier is never below 1.00. */
  function CrashHundredths(h: nat): (r: uint64)
    requires h < E
    ensures r >= 100
    ensures h == 0 ==> r == 100
  {
    var numerator: uint64 := 100 * E - h;
    var denominator: uint64 := E - h;
    DivAtLeast(numerator, denominator, 100);
    DivAtMost(numerator, denominator);
    numerator / denominator
  }

  lemma DivAtLeast(n: nat, d: nat, q: nat)
    requires d > 0 && q * d <= n
    ensures q <= n / d
  {
    var k := n / d;
    assert n == k * d + n % d;
    if k < q {
      assert k + 1 <= q;
      MulMono(k + 1, q, d);
    }
  }

  lemma DivAtMost(n: nat, d: nat)
    requires d > 0
    ensures n / d <= n
  {
    var k := n / d;
    assert n == k * d + n % d;
    MulMono(1, d, k);
  }

  lemma MulMono(a: nat, b: nat, c: nat)
    requires a <= b
    ensures a * c <= b * c
  {
    assert b * c - a * c == (b - a) * c;
  }

  /** A larger prefix `h` never gives a lower crash point. */
  lemma CrashHundredthsMonotone(h1: nat, h2: nat)
    requires h1 <= h2 < E
    ensures CrashHundredths(h1) <= CrashHundredths(h2)
  {
    var d1, d2 := E - h1, E - h2;
    var q := CrashHundredths(h1);
    assert q == (99 * E + d1) / d1;
    assert (99 * E + d1) == q * d1 + (99 * E + d1) % d1;
    assert (q - 1) * d1 <= 99 * E;
    MulMono(d2, d1, q - 1);
    assert (q - 1) * d2 <= 99 * E;
    assert q * d2 <= 99 * E + d2;
    DivAtLeast(99 * E + d2, d2, q);
  }

  /** `generate_crash_point` with the house-edge divisor `hs` given as a
      positive integer: 1.00 when the hash is `Divisible`, otherwise the
      formula on the 13-digit prefix. It never yields `None`. */
  function GenerateCrashPoint(mac: (string, string) -> HexDigest, serverSeed: string,
                              clientSeed: string, hs: uint32, roundId: uint32): (r: Option<uint64>)
    requires hs > 0
    ensures r.Some? && r.value >= 100
    ensures Divisible(RoundHexHash(mac, serverSeed, clientSeed, roundId), hs) ==> r.value == 100
    ensures !Divisible(RoundHexHash(mac, serverSeed, clientSeed, roundId), hs) ==>
      r.value == CrashHundredths(Prefix(RoundHexHash(mac, serverSeed, clientSeed, roundId)))
  {
    var hash := RoundHexHash(mac, serverSeed, clientSeed, roundId);
    if Divisible(hash, hs) then Some(100)
    else Some(CrashHundredths(Prefix(hash)))
  }

  /** For a 64-digit HMAC digest the instant crash happens exactly when the
      last 16 hex digits, read as four chunks, are all multiples of `hs`. */
  lemma InstantCrashIffTailDivisible(mac: (string, string) -> HexDigest, serverSeed: string,
                                     clientSeed: string, hs: uint32, roundId: uint32)
    requires hs > 0
    ensures
      var hash := RoundHexHash(mac, serverSeed, clientSeed, roundId);
      Divisible(hash, hs) <==> forall i :: 12 <= i < 16 ==> ChunkValue(hash, i) % hs == 0
  {
    var hash := RoundHexHash(mac, serverSeed, clientSeed, roundId);
    DivisibleIffLastFourResiduesZero(hash, hs);
  }
}
