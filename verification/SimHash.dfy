/** SimHash fingerprints, Hamming distance and bands: the pure part of
    `pipeline/steps/dedup/simhash.py`. */
module SimHash {
  import opened Bits
  import opened DedupTypes

  // ---------------------------------------------------------------- Hamming distance

  function HammingDistance(a: nat, b: nat): nat {
    PopCount(Xor(a, b))
  }

  lemma HammingStep(a: nat, b: nat)
    ensures HammingDistance(a, b) == (if a % 2 == b % 2 then 0 else 1) + HammingDistance(a / 2, b / 2)
  {
    if a == 0 && b == 0 {
    } else if Xor(a, b) == 0 {
      assert Xor(a / 2, b / 2) == 0;
    } else {
      var rest := Xor(a / 2, b / 2);
      assert Xor(a, b) / 2 == rest;
    }
  }

  /** The distance vanishes exactly on equal fingerprints. */
  lemma {:induction false} HammingZero(a: nat, b: nat)
    ensures HammingDistance(a, b) == 0 <==> a == b
    decreases a + b
  {
    HammingStep(a, b);
    if a != 0 || b != 0 {
      HammingZero(a / 2, b / 2);
    }
  }

  lemma {:induction false} HammingSymmetric(a: nat, b: nat)
    ensures HammingDistance(a, b) == HammingDistance(b, a)
    decreases a + b
  {
    HammingStep(a, b);
    HammingStep(b, a);
    if a != 0 || b != 0 {
      HammingSymmetric(a / 2, b / 2);
    }
  }

  lemma {:induction false} HammingTriangle(a: nat, b: nat, c: nat)
    ensures HammingDistance(a, c) <= HammingDistance(a, b) + HammingDistance(b, c)
    decreases a + b + c
  {
    HammingStep(a, b);
    HammingStep(b, c);
    HammingStep(a, c);
    if a != 0 || b != 0 || c != 0 {
      HammingTriangle(a / 2, b / 2, c / 2);
    }
  }

  /** The distance splits at every bit position into a low and a high part. */
  lemma {:induction false} HammingSplit(a: nat, b: nat, n: nat)
    ensures HammingDistance(a, b) == HammingDistance(Low(a, n), Low(b, n)) + HammingDistance(Shr(a, n), Shr(b, n))
  {
    if n > 0 {
      HammingStep(a, b);
      HammingStep(Low(a, n), Low(b, n));
      HammingSplit(a / 2, b / 2, n - 1);
    }
  }

  // ---------------------------------------------------------------- bands

  /** The value of band `i`: the slice `(simhash >> (i * bandBits)) & mask`. */
  function BandValue(simhash: nat, i: nat, bandBits: nat): nat {
    Low(Shr(simhash, i * bandBits), bandBits)
  }

  /** In arithmetic: the slice is a quotient and a remainder by powers of two. */
  lemma BandIsSlice(simhash: nat, i: nat, bandBits: nat)
    ensures BandValue(simhash, i, bandBits) == simhash / Pow2(i * bandBits) % Pow2(bandBits)
  {
    hide Shr, Low, Pow2;
    var n := i * bandBits;
    ShrLowSplit(simhash, n);
    QuotientIs(simhash, Pow2(n), Shr(simhash, n), Low(simhash, n));
    ShrLowSplit(Shr(simhash, n), bandBits);
    QuotientIs(Shr(simhash, n), Pow2(bandBits), Shr(Shr(simhash, n), bandBits), Low(Shr(simhash, n), bandBits));
  }

  lemma QuotientIs(v: nat, p: nat, q: nat, r: nat)
    requires v == q * p + r && r < p
    ensures v / p == q && v % p == r
  {
    var d := v / p - q;
    assert d * p == r - v % p;
    MultipleIsFar(d, p);
  }

  lemma MultipleIsFar(d: int, p: int)
    requires p >= 0
    ensures d >= 1 ==> d * p >= p
    ensures d <= -1 ==> d * p <= -p
  {
    if d >= 1 {
      assert (d - 1) * p >= 0;
    } else if d <= -1 {
      assert (-d - 1) * p >= 0;
    }
  }

  predicate SharesBand(a: nat, b: nat, numBands: nat, bandBits: nat) {
    exists i: nat :: i < numBands && BandValue(a, i, bandBits) == BandValue(b, i, bandBits)
  }

  lemma BandOfShifted(v: nat, i: nat, w: nat)
    ensures BandValue(Shr(v, w), i, w) == BandValue(v, i + 1, w)
  {
    hide Shr, Low;
    ShrShr(v, w, i * w);
    assert w + i * w == (i + 1) * w;
  }

  /** Pigeonhole: every band that differs costs at least one differing bit. */
  lemma {:induction false} DistinctBandsCost(a: nat, b: nat, numBands: nat, w: nat)
    requires !SharesBand(a, b, numBands, w)
    ensures HammingDistance(a, b) >= numBands
    decreases numBands
  {
    if numBands > 0 {
      HammingSplit(a, b, w);
      HammingZero(Low(a, w), Low(b, w));
      assert BandValue(a, 0, w) == Low(a, w) && BandValue(b, 0, w) == Low(b, w) by {
        assert 0 * w == 0;
      }
      forall i: nat | i < numBands - 1
        ensures BandValue(Shr(a, w), i, w) != BandValue(Shr(b, w), i, w)
      {
        BandOfShifted(a, i, w);
        BandOfShifted(b, i, w);
      }
      DistinctBandsCost(Shr(a, w), Shr(b, w), numBands - 1, w);
    }
  }

  /** One bit set at the bottom of each of `k` bands of width `w`. */
  function Comb(k: nat, w: nat): nat {
    if k == 0 then 0 else 1 + Shl(Comb(k - 1, w), w)
  }

  function Shl(v: nat, n: nat): nat {
    if n == 0 then v else 2 * Shl(v, n - 1)
  }

  lemma {:induction false} ShlIsUndone(v: nat, n: nat)
    requires n > 0
    ensures Shr(1 + Shl(v, n), n) == v && Low(1 + Shl(v, n), n) == 1
  {
    ShlCleared(v, n - 1);
    assert (1 + Shl(v, n)) / 2 == Shl(v, n - 1);
  }

  lemma {:induction false} ShlCleared(v: nat, n: nat)
    ensures Shr(Shl(v, n), n) == v && Low(Shl(v, n), n) == 0
  {
    if n > 0 {
      assert Shl(v, n) / 2 == Shl(v, n - 1);
      ShlCleared(v, n - 1);
    }
  }

  lemma {:induction false} LowOfZero(n: nat)
    ensures Low(0, n) == 0 && Shr(0, n) == 0
  {
    if n > 0 {
      LowOfZero(n - 1);
    }
  }

  /** The comb lies at distance `k` from zero and shares none of its `k` bands with zero. */
  lemma {:induction false} CombEvadesBands(k: nat, w: nat)
    requires w > 0
    ensures HammingDistance(Comb(k, w), 0) == k
    ensures !SharesBand(Comb(k, w), 0, k, w)
  {
    if k == 0 {
    } else {
      var v := Comb(k, w);
      CombEvadesBands(k - 1, w);
      ShlIsUndone(Comb(k - 1, w), w);
      LowOfZero(w);
      HammingSplit(v, 0, w);
      assert HammingDistance(1, 0) == 1 by { HammingStep(1, 0); HammingZero(0, 0); }
      forall i: nat | i < k
        ensures BandValue(v, i, w) != BandValue(0, i, w)
      {
        if i == 0 {
          assert 0 * w == 0;
        } else {
          BandOfShifted(v, i - 1, w);
          BandOfShifted(0, i - 1, w);
          assert BandValue(Comb(k - 1, w), i - 1, w) != BandValue(0, i - 1, w);
        }
      }
    }
  }

  lemma {:induction false} ShlBelow(v: nat, n: nat, m: nat)
    requires v < Pow2(m)
    ensures Shl(v, n) + Pow2(n) <= Pow2(m + n)
  {
    if n > 0 {
      ShlBelow(v, n - 1, m);
    }
  }

  lemma {:induction false} Pow2Monotone(m: nat, n: nat)
    requires m <= n
    ensures Pow2(m) <= Pow2(n)
    decreases n
  {
    if m < n {
      Pow2Monotone(m, n - 1);
    }
  }

  lemma {:induction false} CombBelow(k: nat, w: nat)
    requires w > 0
    ensures Comb(k, w) < Pow2(k * w)
  {
    if k == 0 {
    } else {
      CombBelow(k - 1, w);
      ShlBelow(Comb(k - 1, w), w, (k - 1) * w);
      assert (k - 1) * w + w == k * w;
      assert Pow2(w) >= 2;
    }
  }

  /** Every pair of fingerprints within `threshold` bits of each other shares a band. */
  ghost predicate BandingComplete(bits: nat, numBands: nat, threshold: nat)
    requires numBands > 0
  {
    forall a: nat, b: nat :: a < Pow2(bits) && b < Pow2(bits) && HammingDistance(a, b) <= threshold
      ==> SharesBand(a, b, numBands, bits / numBands)
  }

  lemma WidthFits(bits: nat, numBands: nat)
    requires 0 < numBands <= bits
    ensures bits / numBands > 0 && numBands * (bits / numBands) <= bits
  {
  }

  /** The band index stands in for the scan exactly when the threshold is below the number of bands. */
  lemma BandingCompleteIff(bits: nat, numBands: nat, threshold: nat)
    requires 0 < numBands <= bits
    ensures BandingComplete(bits, numBands, threshold) <==> threshold < numBands
  {
    hide SharesBand, Pow2, HammingDistance, Comb;
    var w := bits / numBands;
    WidthFits(bits, numBands);
    if threshold < numBands {
      forall a: nat, b: nat | a < Pow2(bits) && b < Pow2(bits) && HammingDistance(a, b) <= threshold
        ensures SharesBand(a, b, numBands, w)
      {
        if !SharesBand(a, b, numBands, w) {
          DistinctBandsCost(a, b, numBands, w);
        }
      }
    } else {
      CombEvadesBands(numBands, w);
      CombBelow(numBands, w);
      Pow2Monotone(numBands * w, bits);
      assert !SharesBand(Comb(numBands, w), 0, numBands, w);
    }
  }

  // ---------------------------------------------------------------- band values as text

  function HexDigit(d: nat): char
    requires d < 16
  {
    "0123456789abcdef"[d]
  }

  function DigitValue(c: char): nat {
    if '0' <= c <= '9' then c as nat - '0' as nat
    else if 'a' <= c <= 'f' then c as nat - 'a' as nat + 10
    else 0
  }

  function HexDigits(v: nat): string {
    if v < 16 then [HexDigit(v)] else HexDigits(v / 16) + [HexDigit(v % 16)]
  }

  function Zeros(n: nat): string {
    if n == 0 then "" else Zeros(n - 1) + "0"
  }

  /** `format(v, f"0{width}x")`: lower-case hexadecimal, padded on the left to `width`. */
  function FormatHex(v: nat, width: nat): string {
    var digits := HexDigits(v);
    if |digits| < width then Zeros(width - |digits|) + digits else digits
  }

  /** `int(s, 16)`. */
  function ParseHex(s: string): nat {
    if s == "" then 0 else 16 * ParseHex(s[..|s| - 1]) + DigitValue(s[|s| - 1])
  }

  lemma {:induction false} ParseZeros(n: nat)
    ensures ParseHex(Zeros(n)) == 0
  {
    if n > 0 {
      assert Zeros(n)[..|Zeros(n)| - 1] == Zeros(n - 1);
      ParseZeros(n - 1);
    }
  }

  lemma DigitRoundTrip(d: nat)
    requires d < 16
    ensures DigitValue(HexDigit(d)) == d
  {
    assert d < 10 || d == 10 || d == 11 || d == 12 || d == 13 || d == 14 || d == 15;
    if d < 10 {
      assert d == 0 || d == 1 || d == 2 || d == 3 || d == 4 || d == 5 || d == 6 || d == 7 || d == 8 || d == 9;
    }
  }

  lemma ParseAppend(front: string, c: char)
    ensures ParseHex(front + [c]) == 16 * ParseHex(front) + DigitValue(c)
  {
    assert (front + [c])[..|front|] == front;
  }

  lemma HexDigitsEnd(v: nat)
    ensures HexDigits(v) == (if v < 16 then [] else HexDigits(v / 16)) + [HexDigit(v % 16)]
  {
  }

  lemma {:induction false} ParsePadded(n: nat, v: nat)
    ensures ParseHex(Zeros(n) + HexDigits(v)) == v
  {
    hide HexDigits, ParseHex, Zeros, DigitValue, HexDigit;
    DigitRoundTrip(v % 16);
    HexDigitsEnd(v);
    if v < 16 {
      assert Zeros(n) + HexDigits(v) == Zeros(n) + [HexDigit(v % 16)];
      ParseAppend(Zeros(n), HexDigit(v % 16));
      ParseZeros(n);
    } else {
      assert Zeros(n) + HexDigits(v) == (Zeros(n) + HexDigits(v / 16)) + [HexDigit(v % 16)];
      ParseAppend(Zeros(n) + HexDigits(v / 16), HexDigit(v % 16));
      ParsePadded(n, v / 16);
    }
  }

  lemma NoZeros()
    ensures Zeros(0) == []
  {
  }

  /** A band value survives the trip through its hexadecimal text, whatever the padding. */
  lemma HexRoundTrip(v: nat, width: nat)
    ensures ParseHex(FormatHex(v, width)) == v
  {
    hide HexDigits, ParseHex, Zeros;
    var digits := HexDigits(v);
    if |digits| < width {
      ParsePadded(width - |digits|, v);
    } else {
      ParsePadded(0, v);
      NoZeros();
      assert [] + digits == digits;
    }
  }

  // ---------------------------------------------------------------- BIGINT storage

  const TWO_63: int := 0x8000_0000_0000_0000
  const TWO_64: int := 0x1_0000_0000_0000_0000

  function U64ToI64(value: int): int {
    if value < TWO_63 then value else value - TWO_64
  }

  function I64ToU64(value: BigInt): nat {
    if value >= 0 then value else value + TWO_64
  }

  /** The signed column holds a fingerprint, and gives it back unchanged, exactly when it fits
      in 64 bits. */
  lemma SignedRoundTripIff(v: nat)
    ensures v < Pow2(64) <==> -TWO_63 <= U64ToI64(v) < TWO_63 && I64ToU64(U64ToI64(v)) == v
  {
    Pow2Of64();
  }

  lemma {:induction false} Pow2Add(m: nat, n: nat)
    ensures Pow2(m + n) == Pow2(m) * Pow2(n)
  {
    if m > 0 {
      Pow2Add(m - 1, n);
      TwiceProduct(Pow2(m - 1), Pow2(n));
    }
  }

  lemma TwiceProduct(p: nat, q: nat)
    ensures 2 * (p * q) == (2 * p) * q
  {
  }

  lemma Pow2Double(n: nat, v: nat)
    requires Pow2(n) == v
    ensures Pow2(2 * n) == v * v
  {
    Pow2Add(n, n);
  }

  lemma Pow2One()
    ensures Pow2(1) == 2
  {
    assert Pow2(0) == 1;
  }

  lemma Pow2Of31()
    ensures Pow2(31) == 0x8000_0000
  {
    hide Pow2;
    Pow2One();
    Pow2Double(1, 2);
    Pow2Double(2, 0x4);
    Pow2Double(4, 0x10);
    Pow2Double(8, 0x100);
    Pow2Add(16, 8);
    Pow2Add(24, 4);
    Pow2Add(28, 2);
    Pow2Add(30, 1);
  }

  lemma Pow2Of64()
    ensures Pow2(64) == TWO_64
  {
    hide Pow2;
    Pow2One();
    Pow2Double(1, 2);
    Pow2Double(2, 0x4);
    Pow2Double(4, 0x10);
    Pow2Double(8, 0x100);
    Pow2Double(16, 0x1_0000);
    Pow2Double(32, 0x1_0000_0000);
  }

  // ---------------------------------------------------------------- fingerprints

  function Window(text: string, i: nat, ngram: nat): string
    requires i + ngram <= |text|
  {
    text[i..i + ngram]
  }

  /** The distinct windows of `ngram` characters. */
  function Shingles(text: string, ngram: nat): set<string> {
    set i | 0 <= i < |text| - ngram + 1 :: Window(text, i, ngram)
  }

  /** The shingles whose masked md5 digest has bit `j` set. */
  function Voters(shingles: set<string>, md5: string -> nat, bits: nat, j: nat): set<string> {
    set s | s in shingles && Bit(Low(md5(s), bits), j)
  }

  predicate Majority(shingles: set<string>, md5: string -> nat, bits: nat, j: nat) {
    2 * |Voters(shingles, md5, bits, j)| > |shingles|
  }

  /** The fingerprint restricted to its lowest `n` bits. */
  function Fingerprint(shingles: set<string>, md5: string -> nat, bits: nat, n: nat): nat {
    if n == 0 then 0
    else
      var rest := Fingerprint(shingles, md5, bits, n - 1);
      if Majority(shingles, md5, bits, n - 1) then SetBit(rest, n - 1) else rest
  }

  /** A fingerprint bit is set exactly when more than half of the distinct shingles vote for it. */
  lemma {:induction false} FingerprintIsMajority(shingles: set<string>, md5: string -> nat, bits: nat, n: nat, j: nat)
    ensures Fingerprint(shingles, md5, bits, n) < Pow2(n)
    ensures Bit(Fingerprint(shingles, md5, bits, n), j) <==> j < n && Majority(shingles, md5, bits, j)
  {
    if n == 0 {
      BitOfZero(j);
    } else {
      FingerprintIsMajority(shingles, md5, bits, n - 1, j);
      var rest := Fingerprint(shingles, md5, bits, n - 1);
      BitOfSetBit(rest, n - 1, j);
      SetBitBelow(rest, n - 1, n);
    }
  }

  lemma {:induction false} BitOfShift(v: nat, i: nat)
    ensures Bit(v, i) <==> Shr(v, i) % 2 == 1
  {
    if i > 0 {
      BitOfShift(v / 2, i - 1);
    }
  }

  /** A bit is the digit of its power of two. */
  lemma BitIsDigit(v: nat, i: nat)
    ensures Bit(v, i) <==> v / Pow2(i) % 2 == 1
  {
    hide Bit, Shr, Low, Pow2;
    BitOfShift(v, i);
    ShrLowSplit(v, i);
    QuotientIs(v, Pow2(i), Shr(v, i), Low(v, i));
  }

  lemma {:induction false} BitOfLow(v: nat, n: nat, j: nat)
    ensures Bit(Low(v, n), j) <==> j < n && Bit(v, j)
  {
    if n == 0 {
      BitOfZero(j);
    } else if j > 0 {
      BitOfLow(v / 2, n - 1, j - 1);
    }
  }

  /** The shingles with digit 1 at bit `j` of their digest. */
  ghost function Voting(shingles: set<string>, md5: string -> nat, j: nat): set<string> {
    set s | s in shingles && md5(s) / Pow2(j) % 2 == 1
  }

  /** In arithmetic: bit `j` of the fingerprint is the digit that more than half of the digests have there. */
  lemma FingerprintDigits(shingles: set<string>, md5: string -> nat, bits: nat, j: nat)
    ensures Fingerprint(shingles, md5, bits, bits) / Pow2(j) % 2 == 1 <==> j < bits && 2 * |Voting(shingles, md5, j)| > |shingles|
  {
    hide Bit, Low, Pow2, Fingerprint;
    FingerprintIsMajority(shingles, md5, bits, bits, j);
    BitIsDigit(Fingerprint(shingles, md5, bits, bits), j);
    if j < bits {
      forall s | s in shingles
        ensures Bit(Low(md5(s), bits), j) <==> md5(s) / Pow2(j) % 2 == 1
      {
        BitOfLow(md5(s), bits, j);
        BitIsDigit(md5(s), j);
      }
      assert Voters(shingles, md5, bits, j) == Voting(shingles, md5, j);
    }
  }

  /** The shingles are the substrings of one window's length. */
  lemma ShinglesAreSubstrings(text: string, ngram: nat, w: string)
    ensures w in Shingles(text, ngram) <==> |w| == ngram && exists a, b :: text == a + w + b
  {
    if w in Shingles(text, ngram) {
      var i :| 0 <= i < |text| - ngram + 1 && Window(text, i, ngram) == w;
      assert text == text[..i] + w + text[i + ngram..];
    }
    if a, b :| text == a + w + b && |w| == ngram {
      assert Window(text, |a|, ngram) == w;
    }
  }

  /** In how many of their lowest `n` binary digits two numbers differ. */
  ghost function Differences(a: nat, b: nat, n: nat): nat {
    if n == 0 then 0 else Differences(a, b, n - 1) + if a / Pow2(n - 1) % 2 == b / Pow2(n - 1) % 2 then 0 else 1
  }

  lemma DigitOfHalf(a: nat, n: nat)
    ensures a / 2 / Pow2(n) % 2 == a / Pow2(n + 1) % 2
  {
    hide Bit, Pow2;
    BitIsDigit(a / 2, n);
    BitIsDigit(a, n + 1);
    BitOfHalf(a, n);
  }

  lemma BitOfHalf(a: nat, n: nat)
    ensures Bit(a / 2, n) <==> Bit(a, n + 1)
  {
  }

  lemma {:induction false} DifferencesFromBelow(a: nat, b: nat, n: nat)
    requires n > 0
    ensures Differences(a, b, n) == (if a % 2 == b % 2 then 0 else 1) + Differences(a / 2, b / 2, n - 1)
  {
    hide Pow2;
    if n > 1 {
      DifferencesFromBelow(a, b, n - 1);
      DigitOfHalf(a, n - 2);
      DigitOfHalf(b, n - 2);
    } else {
      Pow2One();
      Pow2Zero();
    }
  }

  lemma Pow2Zero()
    ensures Pow2(0) == 1
  {
  }

  /** The distance is the number of binary digits in which the two differ. */
  lemma {:induction false} HammingCountsDigits(a: nat, b: nat, n: nat)
    requires a < Pow2(n) && b < Pow2(n)
    ensures HammingDistance(a, b) == Differences(a, b, n)
    decreases n
  {
    if n == 0 {
      HammingZero(a, b);
    } else {
      HammingCountsDigits(a / 2, b / 2, n - 1);
      HammingStep(a, b);
      DifferencesFromBelow(a, b, n);
    }
  }

  /** Bodies shorter than one window all get fingerprint 0, so they are mutually identical. */
  lemma ShortBodiesCollide(text: string, other: string, ngram: nat, md5: string -> nat, bits: nat)
    requires |text| < ngram && |other| < ngram
    ensures HammingDistance(Fingerprint(Shingles(text, ngram), md5, bits, bits),
                            Fingerprint(Shingles(other, ngram), md5, bits, bits)) == 0
  {
    assert Shingles(text, ngram) == {} == Shingles(other, ngram);
    HammingZero(Fingerprint({}, md5, bits, bits), Fingerprint({}, md5, bits, bits));
  }

  /** The vote counter of bit `j` after the shingles in `counted`. */
  function Balance(counted: set<string>, md5: string -> nat, bits: nat, j: nat): int {
    2 * |Voters(counted, md5, bits, j)| - |counted|
  }

  lemma BalanceOfOneMore(counted: set<string>, s: string, md5: string -> nat, bits: nat, j: nat)
    requires s !in counted
    ensures Balance(counted + {s}, md5, bits, j)
         == Balance(counted, md5, bits, j) + (if Bit(Low(md5(s), bits), j) then 1 else -1)
  {
    var before, after := Voters(counted, md5, bits, j), Voters(counted + {s}, md5, bits, j);
    assert after == if Bit(Low(md5(s), bits), j) then before + {s} else before;
  }

  /** One shingle's votes: each counter moves up or down by one. */
  method CastVotes(v: array<int>, shingle: string, md5: string -> nat, ghost counted: set<string>)
    requires shingle !in counted
    requires forall j :: 0 <= j < v.Length ==> v[j] == Balance(counted, md5, v.Length, j)
    modifies v
    ensures forall j :: 0 <= j < v.Length ==> v[j] == Balance(counted + {shingle}, md5, v.Length, j)
  {
    var h := Low(md5(shingle), v.Length);
    for bit := 0 to v.Length
      invariant forall j :: 0 <= j < bit ==> v[j] == Balance(counted + {shingle}, md5, v.Length, j)
      invariant forall j :: bit <= j < v.Length ==> v[j] == Balance(counted, md5, v.Length, j)
    {
      BalanceOfOneMore(counted, shingle, md5, v.Length, bit);
      if Bit(h, bit) {
        v[bit] := v[bit] + 1;
      } else {
        v[bit] := v[bit] - 1;
      }
    }
  }

  method TallyVotes(shingles: set<string>, bits: nat, md5: string -> nat) returns (v: array<int>)
    ensures v.Length == bits
    ensures forall j :: 0 <= j < bits ==> v[j] == Balance(shingles, md5, bits, j)
  {
    v := new int[bits](_ => 0);
    var todo := shingles;
    ghost var counted: set<string> := {};
    BalanceOfNone(md5, bits);
    while todo != {}
      invariant counted == shingles - todo && todo <= shingles
      invariant fresh(v) && v.Length == bits
      invariant forall j :: 0 <= j < bits ==> v[j] == Balance(counted, md5, bits, j)
      decreases todo
    {
      var shingle :| shingle in todo;
      CastVotes(v, shingle, md5, counted);
      counted, todo := counted + {shingle}, todo - {shingle};
    }
    assert counted == shingles;
  }

  method ComputeSimhash(text: string, ngram: nat, bits: nat, md5: string -> nat) returns (result: nat)
    ensures result == Fingerprint(Shingles(text, ngram), md5, bits, bits)
  {
    var shingles := Shingles(text, ngram);
    var v := TallyVotes(shingles, bits, md5);
    result := 0;
    for bit := 0 to bits
      invariant result == Fingerprint(shingles, md5, bits, bit)
    {
      if v[bit] > 0 {
        result := SetBit(result, bit);
      }
    }
  }

  lemma BalanceOfNone(md5: string -> nat, bits: nat)
    ensures forall j: nat :: Balance({}, md5, bits, j) == 0
  {
    forall j: nat
      ensures Balance({}, md5, bits, j) == 0
    {
      assert Voters({}, md5, bits, j) == {};
    }
  }

  /** The (band index, band value in hex) pairs a fingerprint is looked up and stored under. */
  function BandList(simhash: nat, numBands: nat, bits: nat): seq<(nat, string)>
    requires numBands > 0
  {
    var w := bits / numBands;
    seq(numBands, i requires 0 <= i < numBands => (i, FormatHex(BandValue(simhash, i, w), w / 4)))
  }

  /** Read back as numbers, the pairs are the band values, in order. */
  lemma BandListParses(simhash: nat, numBands: nat, bits: nat)
    requires numBands > 0
    ensures var bands := BandList(simhash, numBands, bits);
      |bands| == numBands
      && forall i :: 0 <= i < numBands ==> bands[i].0 == i && ParseHex(bands[i].1) == BandValue(simhash, i, bits / numBands)
  {
    hide ParseHex, FormatHex, BandValue;
    var w := bits / numBands;
    forall i | 0 <= i < numBands
      ensures ParseHex(BandList(simhash, numBands, bits)[i].1) == BandValue(simhash, i, w)
    {
      HexRoundTrip(BandValue(simhash, i, w), w / 4);
    }
  }

  method GetBands(simhash: nat, numBands: nat, bits: nat) returns (bands: seq<(nat, string)>)
    requires numBands > 0
    ensures bands == BandList(simhash, numBands, bits)
  {
    var bandBits := bits / numBands;
    bands := [];
    for i := 0 to numBands
      invariant bands == BandList(simhash, numBands, bits)[..i]
    {
      bands := bands + [(i, FormatHex(BandValue(simhash, i, bandBits), bandBits / 4))];
    }
  }
}
