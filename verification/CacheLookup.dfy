/** Looking up a cached answer: `cosine_similarity`, `lookup` and the key builders of
    `query/search_cache.py`, and the composite keys of `infra/search_cache.py`. Vectors are real. */
module CacheLookup {
  import opened SearchCache
  import opened SearchCacheLaws
  import opened Wrappers

  // ---------------------------------------------------------------- composite keys

  function FullKey(bucketHash: string, queryHash: string): string {
    bucketHash + ":" + queryHash
  }

  /** `s.partition(":")`, without the separator. */
  function Partition(s: string): (string, string) {
    if s == "" then ("", "")
    else if s[0] == ':' then ("", s[1..])
    else
      var (head, tail) := Partition(s[1..]);
      ([s[0]] + head, tail)
  }

  /** Splitting a full key recovers its two hashes exactly when the bucket hash has no colon, as
      every hexadecimal digest has none. */
  lemma {:induction false} FullKeyRoundTripIff(b: string, q: string)
    ensures Partition(FullKey(b, q)) == (b, q) <==> ':' !in b
  {
    var s := FullKey(b, q);
    if b == "" {
      assert s[1..] == q;
    } else if b[0] != ':' {
      assert s[0] == b[0] && s[1..] == FullKey(b[1..], q);
      FullKeyRoundTripIff(b[1..], q);
      assert [b[0]] + b[1..] == b;
      var (head, tail) := Partition(s[1..]);
      assert ([b[0]] + head)[1..] == head;
    } else {
      assert s[0] == ':';
    }
  }

  // ---------------------------------------------------------------- cosine similarity

  function Dot(a: seq<real>, b: seq<real>): real
    requires |a| == |b|
  {
    if a == [] then 0.0 else a[0] * b[0] + Dot(a[1..], b[1..])
  }

  /** `x ** 0.5` on the non-negative reals. */
  ghost predicate IsSquareRoot(sqrt: real -> real) {
    forall x: real :: x >= 0.0 ==> sqrt(x) >= 0.0 && sqrt(x) * sqrt(x) == x
  }

  /** Cosine similarity; None where the source raises on vectors of different length. */
  function CosineSimilarity(a: seq<real>, b: seq<real>, sqrt: real -> real): Option<real> {
    if |a| != |b| then None
    else Some(Normalized(Dot(a, b), sqrt(Dot(a, a)), sqrt(Dot(b, b))))
  }

  function Normalized(dot: real, normA: real, normB: real): real {
    if normA == 0.0 || normB == 0.0 then 0.0 else ProductNonZero(normA, normB); dot / (normA * normB)
  }

  lemma ProductNonZero(x: real, y: real)
    requires x != 0.0 && y != 0.0
    ensures x * y != 0.0
  {
  }

  lemma {:induction false} DotSelf(a: seq<real>)
    ensures Dot(a, a) >= 0.0
  {
    if a != [] {
      DotSelf(a[1..]);
    }
  }

  /** The dot product adds up the products, entry by entry. */
  lemma {:induction false} DotConcat(a: seq<real>, b: seq<real>, c: seq<real>, d: seq<real>)
    requires |a| == |b| && |c| == |d|
    ensures Dot(a + c, b + d) == Dot(a, b) + Dot(c, d)
  {
    if a == [] {
      assert a + c == c && b + d == d;
    } else {
      assert (a + c)[1..] == a[1..] + c && (b + d)[1..] == b[1..] + d;
      DotConcat(a[1..], b[1..], c, d);
    }
  }

  lemma DotOfOne(x: real, y: real)
    ensures Dot([x], [y]) == x * y
  {
    assert [x][1..] == [] && [y][1..] == [];
  }

  function Product(x: real, y: real): real {
    x * y
  }

  lemma ProductSigns(x: real, y: real)
    ensures x > 0.0 && y > 0.0 ==> Product(x, y) > 0.0
    ensures Product(-x, -y) == Product(x, y) && Product(0.0, y) == 0.0
  {
    if x > 0.0 && y > 0.0 {
      PositiveProduct(x, y);
    }
  }

  lemma SquareZeroIff(x: real)
    ensures Product(x, x) >= 0.0 && (Product(x, x) == 0.0 <==> x == 0.0)
  {
    hide Product;
    ProductSigns(x, x);
    ProductSigns(-x, -x);
  }

  lemma DotOfHead(a: seq<real>)
    requires a != []
    ensures Dot(a, a) == Product(a[0], a[0]) + Dot(a[1..], a[1..])
  {
  }

  /** Only the zero vector has length 0. */
  lemma {:induction false} DotSelfZeroIff(a: seq<real>)
    ensures Dot(a, a) == 0.0 <==> forall i :: 0 <= i < |a| ==> a[i] == 0.0
  {
    if a != [] {
      hide Dot, Product;
      DotOfHead(a);
      DotSelf(a[1..]);
      DotSelfZeroIff(a[1..]);
      SquareZeroIff(a[0]);
      assert forall i :: 0 < i < |a| ==> a[i] == a[1..][i - 1];
      if forall i :: 0 <= i < |a| ==> a[i] == 0.0 {
        assert forall i :: 0 <= i < |a[1..]| ==> a[1..][i] == a[i + 1];
      }
    }
  }

  lemma SquareOfDifference(x: real, y: real, s: real, t: real)
    ensures s * s * (x * x) - 2.0 * s * t * (x * y) + t * t * (y * y) >= 0.0
  {
    var d := s * x - t * y;
    assert d * d == s * s * (x * x) - 2.0 * s * t * (x * y) + t * t * (y * y);
  }

  /** The squared length of s*a - t*b, expanded, is not negative. */
  lemma {:induction false} QuadraticForm(a: seq<real>, b: seq<real>, s: real, t: real)
    requires |a| == |b|
    ensures s * s * Dot(a, a) - 2.0 * s * t * Dot(a, b) + t * t * Dot(b, b) >= 0.0
  {
    if a != [] {
      var (x, y) := (a[0], b[0]);
      var (aa, ab, bb) := (Dot(a[1..], a[1..]), Dot(a[1..], b[1..]), Dot(b[1..], b[1..]));
      QuadraticForm(a[1..], b[1..], s, t);
      SquareOfDifference(x, y, s, t);
      Distributes(s * s, x * x, aa);
      Distributes(2.0 * s * t, x * y, ab);
      Distributes(t * t, y * y, bb);
    }
  }

  lemma Distributes(c: real, u: real, v: real)
    ensures c * (u + v) == c * u + c * v
  {
  }

  lemma {:induction false} ZeroVector(a: seq<real>, b: seq<real>)
    requires |a| == |b| && Dot(a, a) == 0.0
    ensures Dot(a, b) == 0.0
  {
    if a != [] {
      DotSelf(a[1..]);
      ZeroSquare(a[0], b[0]);
      ZeroVector(a[1..], b[1..]);
    }
  }

  lemma ZeroSquare(x: real, y: real)
    ensures x * x >= 0.0 && (x * x == 0.0 ==> x * y == 0.0)
  {
    if x > 0.0 {
      assert x * x > 0.0;
    } else if x < 0.0 {
      assert (-x) * (-x) > 0.0;
    }
  }

  /** Cauchy-Schwarz. */
  lemma CauchySchwarz(a: seq<real>, b: seq<real>)
    requires |a| == |b|
    ensures Dot(a, b) * Dot(a, b) <= Dot(a, a) * Dot(b, b)
  {
    hide Dot;
    var (aa, ab, bb) := (Dot(a, a), Dot(a, b), Dot(b, b));
    DotSelf(a);
    if aa == 0.0 {
      ZeroVector(a, b);
    } else {
      QuadraticForm(a, b, ab, aa);
      DiscriminantBound(aa, ab, bb);
    }
  }

  lemma DiscriminantBound(aa: real, ab: real, bb: real)
    requires aa > 0.0 && ab * ab * aa - 2.0 * ab * aa * ab + aa * aa * bb >= 0.0
    ensures ab * ab <= aa * bb
  {
    var gap := aa * bb - ab * ab;
    assert ab * ab * aa - 2.0 * ab * aa * ab + aa * aa * bb == aa * gap;
    assert gap < 0.0 ==> aa * gap < 0.0;
  }

  lemma PositiveProduct(x: real, y: real)
    requires x > 0.0 && y > 0.0
    ensures x * y > 0.0
  {
  }

  lemma SquareMonotone(x: real, y: real)
    requires y >= 0.0 && x > y
    ensures x * x > y * y
  {
    PositiveProduct(x - y, x + y);
    assert (x - y) * (x + y) == x * x - y * y;
  }

  lemma QuotientBound(d: real, n: real)
    requires n > 0.0 && -n <= d <= n
    ensures -1.0 <= d / n <= 1.0
  {
    var r := d / n;
    assert r * n == d;
    assert (r - 1.0) * n == d - n && (-1.0 - r) * n == -n - d;
    if r > 1.0 {
      PositiveProduct(r - 1.0, n);
    }
    if r < -1.0 {
      PositiveProduct(-1.0 - r, n);
    }
  }

  lemma RatioBound(d: real, n: real)
    requires n > 0.0 && d * d <= n * n
    ensures -1.0 <= d / n <= 1.0
  {
    if d > n {
      SquareMonotone(d, n);
    }
    if -d > n {
      SquareMonotone(-d, n);
    }
    QuotientBound(d, n);
  }

  lemma ProductOfSquares(x: real, y: real)
    requires x > 0.0 && y > 0.0
    ensures x * y > 0.0 && (x * y) * (x * y) == (x * x) * (y * y)
  {
    assert (x * y) * (x * y) == x * (y * (x * y));
    assert y * (x * y) == x * (y * y);
  }

  /** The similarity of vectors of equal length always lies between -1 and 1. */
  lemma CosineInRange(a: seq<real>, b: seq<real>, sqrt: real -> real)
    requires IsSquareRoot(sqrt) && |a| == |b|
    ensures CosineSimilarity(a, b, sqrt).Some? && -1.0 <= CosineSimilarity(a, b, sqrt).value <= 1.0
  {
    hide Dot, Normalized;
    DotSelf(a);
    DotSelf(b);
    CauchySchwarz(a, b);
    BoundFromRoots(Dot(a, a), Dot(a, b), Dot(b, b), sqrt(Dot(a, a)), sqrt(Dot(b, b)));
  }

  lemma BoundFromRoots(aa: real, ab: real, bb: real, x: real, y: real)
    requires x >= 0.0 && y >= 0.0 && x * x == aa && y * y == bb && ab * ab <= aa * bb
    ensures -1.0 <= Normalized(ab, x, y) <= 1.0
  {
    if x != 0.0 && y != 0.0 {
      ProductOfSquares(x, y);
      RatioBound(ab, x * y);
    }
  }

  /** A vector has similarity 1 to itself exactly when it is not zero, and 0 otherwise. */
  lemma CosineOfSelf(a: seq<real>, sqrt: real -> real)
    requires IsSquareRoot(sqrt)
    ensures CosineSimilarity(a, a, sqrt) == Some(if forall i :: 0 <= i < |a| ==> a[i] == 0.0 then 0.0 else 1.0)
  {
    hide Dot, Normalized;
    DotSelf(a);
    DotSelfZeroIff(a);
    SelfFromRoot(Dot(a, a), sqrt(Dot(a, a)));
  }

  lemma SelfFromRoot(aa: real, x: real)
    requires x >= 0.0 && x * x == aa
    ensures Normalized(aa, x, x) == if aa == 0.0 then 0.0 else 1.0
  {
    if x > 0.0 {
      SquareMonotone(x, 0.0);
      assert aa > 0.0;
      SelfQuotient(aa);
    } else {
      assert aa == x * 0.0;
    }
  }

  lemma SelfQuotient(x: real)
    requires x != 0.0
    ensures x / x == 1.0
  {
  }

  function Scaled(a: seq<real>, c: real): (b: seq<real>)
    ensures |b| == |a|
  {
    if a == [] then [] else [c * a[0]] + Scaled(a[1..], c)
  }

  lemma {:induction false} DotScaled(a: seq<real>, b: seq<real>, c: real)
    requires |a| == |b|
    ensures Dot(a, Scaled(b, c)) == c * Dot(a, b)
    ensures Dot(Scaled(b, c), Scaled(b, c)) == c * c * Dot(b, b)
  {
    if a != [] {
      assert Scaled(b, c)[1..] == Scaled(b[1..], c);
      DotScaled(a[1..], b[1..], c);
      ScaleTerms(a[0], b[0], c, Dot(a[1..], b[1..]), Dot(b[1..], b[1..]));
    }
  }

  lemma ScaleTerms(x: real, y: real, c: real, ab: real, bb: real)
    ensures x * (c * y) + c * ab == c * (x * y + ab)
    ensures (c * y) * (c * y) + c * c * bb == c * c * (y * y + bb)
  {
    Distributes(c, x * y, ab);
    Distributes(c * c, y * y, bb);
    assert (c * y) * (c * y) == c * c * (y * y);
  }

  lemma {:induction false} DotSymmetric(a: seq<real>, b: seq<real>)
    requires |a| == |b|
    ensures Dot(a, b) == Dot(b, a)
  {
    if a != [] {
      DotSymmetric(a[1..], b[1..]);
    }
  }

  function Abs(c: real): real {
    if c < 0.0 then -c else c
  }

  /** A non-negative root is the only one. */
  lemma RootOfScaled(x: real, y: real, c: real, sqrt: real -> real)
    requires IsSquareRoot(sqrt) && x >= 0.0 && y == c * c * x
    ensures y >= 0.0 && sqrt(y) == Abs(c) * sqrt(x)
  {
    var r, s := sqrt(x), Abs(c) * sqrt(x);
    assert s * s == Abs(c) * Abs(c) * (r * r) && Abs(c) * Abs(c) == c * c;
    ZeroSquare(c, 0.0);
    NonNegativeProduct(c * c, x);
    NonNegativeProduct(Abs(c), r);
    var q := sqrt(y);
    if q > s {
      SquareMonotone(q, s);
    } else if s > q {
      SquareMonotone(s, q);
    }
  }

  lemma NonNegativeProduct(x: real, y: real)
    requires x >= 0.0 && y >= 0.0
    ensures x * y >= 0.0
  {
  }

  lemma NormalizedScales(dot: real, normA: real, normB: real, c: real, dot': real, norm': real)
    requires c != 0.0 && dot' == c * dot && norm' == Abs(c) * normB
    ensures Normalized(dot', normA, norm') == if c > 0.0 then Normalized(dot, normA, normB) else -Normalized(dot, normA, normB)
  {
    if normA != 0.0 && normB != 0.0 {
      ProductNonZero(normA, normB);
      ProductNonZero(Abs(c), normB);
      ProductNonZero(normA, norm');
      var n, q := normA * normB, dot / (normA * normB);
      assert q * n == dot;
      var m := normA * norm';
      assert m == Abs(c) * n;
      var p := dot' / m;
      assert p * m == dot';
      SameQuotient(p, q, n, c);
    }
  }

  lemma SameQuotient(p: real, q: real, n: real, c: real)
    requires n != 0.0 && c != 0.0 && p * (Abs(c) * n) == c * (q * n)
    ensures p == if c > 0.0 then q else -q
  {
    var s := if c > 0.0 then q else -q;
    ProductNonZero(Abs(c), n);
    var k := Abs(c) * n;
    assert s * k == c * (q * n) by {
      assert c > 0.0 ==> s * k == q * (c * n);
      assert c < 0.0 ==> s * k == (-q) * (-c * n);
    }
    assert (p - s) * k == 0.0;
    if p != s {
      ProductNonZero(p - s, k);
    }
  }

  /** The similarity depends on directions only, and turns its sign with one of the vectors; and it does
      not depend on which vector is the query. */
  lemma CosineOfScaled(a: seq<real>, b: seq<real>, c: real, sqrt: real -> real)
    requires IsSquareRoot(sqrt) && |a| == |b| && c != 0.0
    ensures CosineSimilarity(a, b, sqrt).Some? && CosineSimilarity(a, b, sqrt) == CosineSimilarity(b, a, sqrt)
    ensures CosineSimilarity(a, Scaled(b, c), sqrt) ==
      var s := CosineSimilarity(a, b, sqrt).value; Some(if c > 0.0 then s else -s)
  {
    hide Dot, Scaled, Normalized, Abs;
    DotScaled(a, b, c);
    DotSymmetric(a, b);
    DotSelf(b);
    RootOfScaled(Dot(b, b), Dot(Scaled(b, c), Scaled(b, c)), c, sqrt);
    NormalizedScales(Dot(a, b), sqrt(Dot(a, a)), sqrt(Dot(b, b)), c, Dot(a, Scaled(b, c)), sqrt(Dot(Scaled(b, c), Scaled(b, c))));
    NormalizedCommutes(Dot(a, b), sqrt(Dot(a, a)), sqrt(Dot(b, b)));
  }

  lemma NormalizedCommutes(dot: real, normA: real, normB: real)
    ensures Normalized(dot, normA, normB) == Normalized(dot, normB, normA)
  {
    assert normA * normB == normB * normA;
  }

  // ---------------------------------------------------------------- lookup

  datatype CacheConfig = CacheConfig(enabled: bool, semantic: bool, semanticThreshold: real)

  /** Bucket and query hashes: sha256 of the sorted KB ids with the options, and of bucket and query. */
  datatype Hashes = Hashes(bucket: (multiset<string>, string) -> string, query: (string, string) -> string)

  /** A cached response, or the query embedding computed along the way, or neither. */
  datatype Lookup = Hit(response: string, embedding: Option<seq<real>>) | Miss(embedding: Option<seq<real>>)

  /** The similarity a stored entry of the bucket would be judged by, if it is live and has a vector. */
  function Judged(s: State, bucket: string, q: string, embedding: seq<real>, sqrt: real -> real): Option<Option<real>> {
    match GetEntry(s, bucket, q)
    case None => None
    case Some(p) => if p.queryEmbedding == None then None else Some(CosineSimilarity(embedding, p.queryEmbedding.value, sqrt))
  }

  /** Some entry of the bucket carries a vector of another length, which makes the scan fail. */
  ghost predicate LengthMismatch(s: State, bucket: string, embedding: seq<real>, sqrt: real -> real) {
    exists q :: q in BucketQueries(s, bucket) && Judged(s, bucket, q, embedding, sqrt) == Some(None)
  }

  /** A live entry of the bucket close enough to be served. */
  ghost predicate Qualifies(s: State, bucket: string, q: string, embedding: seq<real>, threshold: real, sqrt: real -> real) {
    && q in BucketQueries(s, bucket)
    && Judged(s, bucket, q, embedding, sqrt).Some? && Judged(s, bucket, q, embedding, sqrt).value.Some?
    && var score := Judged(s, bucket, q, embedding, sqrt).value.value;
       score >= threshold && score > 0.0
  }

  ghost predicate IsNearest(s: State, bucket: string, q: string, embedding: seq<real>, threshold: real, sqrt: real -> real) {
    && Qualifies(s, bucket, q, embedding, threshold, sqrt)
    && forall other :: Qualifies(s, bucket, other, embedding, threshold, sqrt) ==>
         Judged(s, bucket, other, embedding, sqrt).value.value <= Judged(s, bucket, q, embedding, sqrt).value.value
  }

  /** What a lookup answers: the exact entry first; else, in semantic mode, a nearest qualifying entry;
      a miss when the cache is unusable, when the scan fails, or when nothing qualifies. */
  ghost predicate IsAnswer(r: Lookup, s: State, query: string, kbIds: seq<string>, options: string, cfg: CacheConfig,
                           gate: Option<seq<string> -> bool>, hashes: Hashes, vector: seq<real>, sqrt: real -> real)
  {
    var usable := cfg.enabled && (gate == None || gate.value(kbIds));
    var bucket := hashes.bucket(multiset(kbIds), options);
    var exact := GetEntry(s, bucket, hashes.query(bucket, query));
    if !usable then r == Miss(None)
    else if exact.Some? then r == Hit(exact.value.response, None)
    else if !cfg.semantic then r == Miss(None)
    else if LengthMismatch(s, bucket, vector, sqrt) then r == Miss(None)
    else if exists q :: Qualifies(s, bucket, q, vector, cfg.semanticThreshold, sqrt) then
      exists q :: IsNearest(s, bucket, q, vector, cfg.semanticThreshold, sqrt)
                  && r == Hit(GetEntry(s, bucket, q).value.response, Some(vector))
    else r == Miss(Some(vector))
  }

  /** Scans the bucket for the qualifying entry of greatest similarity. `gate` is the registered cache
      hook, if any; `embed` the embedding model. */
  method LookUp(s: State, query: string, kbIds: seq<string>, options: string, cfg: CacheConfig, gate: Option<seq<string> -> bool>,
                hashes: Hashes, embed: string -> seq<real>, sqrt: real -> real)
    returns (r: Lookup)
    ensures IsAnswer(r, s, query, kbIds, options, cfg, gate, hashes, embed(query), sqrt)
  {
    if !cfg.enabled || (gate.Some? && !gate.value(kbIds)) {
      return Miss(None);
    }
    var bucket := hashes.bucket(multiset(kbIds), options);
    var entry := GetEntry(s, bucket, hashes.query(bucket, query));
    if entry.Some? {
      return Hit(entry.value.response, None);
    }
    if !cfg.semantic {
      return Miss(None);
    }
    var embedding := embed(query);
    var failed, best := ScanBucket(s, bucket, embedding, cfg.semanticThreshold, sqrt);
    if failed {
      return Miss(None);
    }
    match best
    case Some(q) =>
      r := Hit(GetEntry(s, bucket, q).value.response, Some(embedding));
    case None =>
      r := Miss(Some(embedding));
  }

  /** The scan loop; `failed` when a vector of another length raises. */
  method ScanBucket(s: State, bucket: string, embedding: seq<real>, threshold: real, sqrt: real -> real)
    returns (failed: bool, best: Option<string>)
    ensures failed <==> LengthMismatch(s, bucket, embedding, sqrt)
    ensures !failed && best.Some? ==> IsNearest(s, bucket, best.value, embedding, threshold, sqrt)
    ensures !failed && best == None ==> forall q :: !Qualifies(s, bucket, q, embedding, threshold, sqrt)
  {
    failed, best := false, None;
    var bestScore := 0.0;
    var todo := BucketQueries(s, bucket);
    ghost var seen: set<string> := {};
    while todo != {}
      invariant seen == BucketQueries(s, bucket) - todo && todo <= BucketQueries(s, bucket)
      invariant forall q :: q in seen ==> Judged(s, bucket, q, embedding, sqrt) != Some(None)
      invariant best == None ==> bestScore == 0.0
      invariant best.Some? ==>
        Qualifies(s, bucket, best.value, embedding, threshold, sqrt) && bestScore == Judged(s, bucket, best.value, embedding, sqrt).value.value
      invariant forall q :: q in seen && Qualifies(s, bucket, q, embedding, threshold, sqrt) ==>
        Judged(s, bucket, q, embedding, sqrt).value.value <= bestScore
      decreases todo
    {
      var q :| q in todo;
      var candidate := GetEntry(s, bucket, q);
      if candidate.Some? && candidate.value.queryEmbedding.Some? {
        var score := CosineSimilarity(embedding, candidate.value.queryEmbedding.value, sqrt);
        if score == None {
          return true, None;
        }
        if score.value >= threshold && score.value > bestScore {
          best, bestScore := Some(q), score.value;
        }
      }
      seen, todo := seen + {q}, todo - {q};
    }
    assert seen == BucketQueries(s, bucket);
  }

  /** In any run with one TTL, from the invalidation of a KB until the next store for a search covering
      it, no search covering it hits the cache. */
  lemma NoHitAfterInvalidation(states: seq<State>, steps: seq<Step>, ttl: nat, m: nat, n: nat, kbId: string, r: Lookup,
                               query: string, kbIds: seq<string>, options: string, cfg: CacheConfig,
                               gate: Option<seq<string> -> bool>, hashes: Hashes, vector: seq<real>, sqrt: real -> real)
    requires ttl > 0 && Injective(hashes.bucket) && IsRun(states, steps, hashes.bucket, ttl) && m < n <= |steps|
    requires steps[m] == InvalidateOne(kbId) && kbId in kbIds
    requires forall i :: m < i < n && steps[i].Store? ==> kbId !in steps[i].kbIds
    requires IsAnswer(r, states[n], query, kbIds, options, cfg, gate, hashes, vector, sqrt)
    ensures r.Miss?
  {
    var s, bucket := states[n], hashes.bucket(multiset(kbIds), options);
    StaysInvalidated(states, steps, hashes.bucket, ttl, m, n, kbId);
    RunKeepsInv(states, steps, hashes.bucket, ttl, n);
    forall q
      ensures GetEntry(s, bucket, q) == None
    {
      UncoveredBucket(s, hashes.bucket, ttl, kbId, kbIds, options, q);
    }
  }

  /** A usable cache answers a repeated search with the stored response as long as its entry reads. */
  lemma RepeatedSearchHits(s: State, r: Lookup, query: string, kbIds: seq<string>, options: string, cfg: CacheConfig,
                           gate: Option<seq<string> -> bool>, hashes: Hashes, vector: seq<real>, sqrt: real -> real)
    requires IsAnswer(r, s, query, kbIds, options, cfg, gate, hashes, vector, sqrt)
    requires cfg.enabled && (gate.Some? ==> gate.value(kbIds))
    ensures var bucket := hashes.bucket(multiset(kbIds), options);
      var stored := GetEntry(s, bucket, hashes.query(bucket, query));
      stored.Some? ==> r.Hit? && r.response == stored.value.response
  {
  }

  /** A semantic lookup that finds no exact entry serves an entry stored under a vector of the same direction,
      or one as near, whatever the threshold up to 1; all vectors of the bucket being of one length. */
  lemma SimilarSearchHits(s: State, r: Lookup, query: string, kbIds: seq<string>, options: string, cfg: CacheConfig,
                          gate: Option<seq<string> -> bool>, hashes: Hashes, vector: seq<real>, sqrt: real -> real, q: string, c: real)
    requires IsSquareRoot(sqrt) && IsAnswer(r, s, query, kbIds, options, cfg, gate, hashes, vector, sqrt)
    requires cfg.enabled && cfg.semantic && cfg.semanticThreshold <= 1.0 && (gate.Some? ==> gate.value(kbIds))
    requires var bucket := hashes.bucket(multiset(kbIds), options);
      && GetEntry(s, bucket, hashes.query(bucket, query)) == None
      && (forall x :: x in BucketQueries(s, bucket) && GetEntry(s, bucket, x).Some? && GetEntry(s, bucket, x).value.queryEmbedding.Some? ==>
            |GetEntry(s, bucket, x).value.queryEmbedding.value| == |vector|)
      && q in BucketQueries(s, bucket) && GetEntry(s, bucket, q).Some?
      && c > 0.0 && GetEntry(s, bucket, q).value.queryEmbedding == Some(Scaled(vector, c))
    requires exists i :: 0 <= i < |vector| && vector[i] != 0.0
    ensures r.Hit? && r.embedding == Some(vector)
    ensures exists x :: x in BucketQueries(s, hashes.bucket(multiset(kbIds), options))
                     && var p := GetEntry(s, hashes.bucket(multiset(kbIds), options), x);
                        p.Some? && p.value.response == r.response && p.value.queryEmbedding.Some?
                        && CosineSimilarity(vector, p.value.queryEmbedding.value, sqrt) == Some(1.0)
  {
    hide CosineSimilarity, Scaled;
    var bucket := hashes.bucket(multiset(kbIds), options);
    CosineOfSelf(vector, sqrt);
    CosineOfScaled(vector, vector, c, sqrt);
    forall x | x in BucketQueries(s, bucket) && GetEntry(s, bucket, x).Some? && GetEntry(s, bucket, x).value.queryEmbedding.Some?
      ensures var other := CosineSimilarity(vector, GetEntry(s, bucket, x).value.queryEmbedding.value, sqrt);
        other.Some? && -1.0 <= other.value <= 1.0
    {
      CosineInRange(vector, GetEntry(s, bucket, x).value.queryEmbedding.value, sqrt);
    }
    assert !LengthMismatch(s, bucket, vector, sqrt);
    assert Qualifies(s, bucket, q, vector, cfg.semanticThreshold, sqrt);
    var x :| IsNearest(s, bucket, x, vector, cfg.semanticThreshold, sqrt) && r == Hit(GetEntry(s, bucket, x).value.response, Some(vector));
    assert Judged(s, bucket, x, vector, sqrt).value.value == 1.0;
  }
}
