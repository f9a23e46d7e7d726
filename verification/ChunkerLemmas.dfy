/** What the recursive split promises: tiling, a short window, local edits. */
module ChunkerLemmas {
  import opened Basics
  import opened Chunker

  // ----- chunks tile the contents -----------------------------------------

  /** `cs` covers s[offset..] in order, without gap or overlap, each chunk carrying
      the digest of its own bytes. */
  ghost predicate Tiles(hash: HashFn, cs: seq<Chunk>, s: Bytes, offset: nat) {
    if cs == [] then offset == |s|
    else
      && cs[0].offset == offset
      && cs[0].length > 0
      && offset + cs[0].length <= |s|
      && cs[0].hash == hash(s[offset..offset + cs[0].length])
      && Tiles(hash, cs[1..], s, offset + cs[0].length)
  }

  lemma {:induction false} ChunksTile(c: ValidConfig, gear: Gear, hash: HashFn, s: Bytes, p: nat)
    requires p <= |s|
    ensures Tiles(hash, ChunksFrom(c, gear, hash, s, p), s, p)
    decreases |s| - p
  {
    if p < |s| {
      ChunksTile(c, gear, hash, s, p + Boundary(c, gear, s, p));
    }
  }

  /** Every chunk but the last has at least `min` bytes and none more than `max`. */
  lemma {:induction false} ChunkSizes(c: ValidConfig, gear: Gear, hash: HashFn, s: Bytes, p: nat, i: nat)
    requires p <= |s| && i < |ChunksFrom(c, gear, hash, s, p)|
    ensures var cs := ChunksFrom(c, gear, hash, s, p);
            cs[i].length <= c.max && (i < |cs| - 1 ==> cs[i].length >= c.min)
    decreases i
  {
    if i > 0 {
      ChunkSizes(c, gear, hash, s, p + Boundary(c, gear, s, p), i - 1);
    }
  }

  // ----- the cut test sees a short window ---------------------------------

  /** The gear words of the `n` bytes at `p` weighted by age, without any wrap-around. */
  function WindowSum(gear: Gear, s: Bytes, p: nat, n: nat): nat
    requires p + n <= |s|
  {
    if n == 0 then 0 else 2 * WindowSum(gear, s, p, n - 1) + gear[s[p + n - 1] as int]
  }

  lemma ModStep(x: int, y: int, g: int, m: int)
    requires m > 0 && x % m == y % m
    ensures (2 * x + g) % m == (2 * y + g) % m
  {
    var k := x / m - y / m;
    assert x == y + m * k;
    assert 2 * x + g == 2 * y + g + m * (2 * k);
    ModShift(2 * y + g, 2 * k, m);
  }

  lemma ModShift(x: int, k: int, m: int)
    requires m > 0
    ensures (x + m * k) % m == x % m
  {
    var q, r := x / m, x % m;
    assert x + m * k == m * (q + k) + r;
    DivModUnique(x + m * k, m, q + k, r);
  }

  lemma DivModUnique(x: int, m: int, q: int, r: int)
    requires m > 0 && x == m * q + r && 0 <= r < m
    ensures x % m == r
  {
    var q', r' := x / m, x % m;
    assert x == m * q' + r';
    if q > q' {
      MulAtLeast(m, q - q');
    } else if q < q' {
      MulAtLeast(m, q' - q);
    }
  }

  lemma MulAtLeast(m: int, d: int)
    requires m > 0 && d > 0
    ensures m * d >= m
  {
  }

  lemma {:induction false} FingerprintIsWrappedSum(gear: Gear, s: Bytes, p: nat, n: nat)
    requires p + n <= |s|
    ensures Fingerprint(gear, s, p, n) == WindowSum(gear, s, p, n) % WORD
  {
    if n > 0 {
      FingerprintIsWrappedSum(gear, s, p, n - 1);
      ModStep(Fingerprint(gear, s, p, n - 1), WindowSum(gear, s, p, n - 1), gear[s[p + n - 1] as int], WORD);
    }
  }

  lemma {:induction false} WindowSumSplits(gear: Gear, s: Bytes, p: nat, m: nat, k: nat)
    requires p + m + k <= |s|
    ensures WindowSum(gear, s, p, m + k) == Pow2(k) * WindowSum(gear, s, p, m) + WindowSum(gear, s, p + m, k)
  {
    if k > 0 {
      WindowSumSplits(gear, s, p, m, k - 1);
      Double(Pow2(k - 1), WindowSum(gear, s, p, m));
    }
  }

  lemma Double(x: int, y: int)
    ensures (2 * x) * y == 2 * (x * y)
  {
  }

  lemma {:induction false} Pow2Divides(j: nat, k: nat)
    requires j <= k
    ensures Pow2(k) == Pow2(j) * Pow2(k - j)
  {
    if j > 0 {
      Pow2Divides(j - 1, k - 1);
    }
  }

  lemma ModMod(x: int, a: int, b: int)
    requires a > 0 && b > 0
    ensures (x % (a * b)) % a == x % a
  {
    var q := x / (a * b);
    assert a * b > 0;
    assert x == x % (a * b) + a * (b * q);
    ModShift(x % (a * b), b * q, a);
  }

  lemma WordIsPow2()
    ensures WORD == Pow2(64)
  {
    assert Pow2(8) == 256;
    assert Pow2(16) == 256 * Pow2(8);
    assert Pow2(24) == 256 * Pow2(16);
    assert Pow2(32) == 256 * Pow2(24);
    assert Pow2(40) == 256 * Pow2(32);
    assert Pow2(48) == 256 * Pow2(40);
    assert Pow2(56) == 256 * Pow2(48);
    assert Pow2(64) == 256 * Pow2(56);
  }

  /** The low k bits of the wrapped fingerprint are those of the plain sum over the
      last k bytes. */
  lemma MaskedFingerprintIsWindowSum(gear: Gear, s: Bytes, p: nat, n: nat, k: nat)
    requires k <= 64 && k <= n && p + n <= |s|
    ensures Fingerprint(gear, s, p, n) % Pow2(k) == WindowSum(gear, s, p + n - k, k) % Pow2(k)
  {
    var m, r := Pow2(k), Pow2(64 - k);
    var sum := WindowSum(gear, s, p, n);
    assert m * r == WORD by {
      WordIsPow2();
      Pow2Divides(k, 64);
    }
    FingerprintIsWrappedSum(gear, s, p, n);
    ModMod(sum, m, r);
    WindowSumSplits(gear, s, p, n - k, k);
    ModShift(WindowSum(gear, s, p + n - k, k), WindowSum(gear, s, p, n - k), m);
  }

  lemma {:induction false} NoOnesMeansZero(n: nat)
    requires OnesCount(n) == 0
    ensures n == 0
  {
    if n > 0 {
      NoOnesMeansZero(n / 2);
    }
  }

  /** The validated average is the power of two whose exponent the mask is built from. */
  lemma {:induction false} OneBitIsPowerOfTwo(n: nat)
    requires OnesCount(n) == 1
    ensures n == Pow2(TrailingZeros(n))
  {
    if n % 2 == 1 {
      NoOnesMeansZero(n / 2);
    } else {
      OneBitIsPowerOfTwo(n / 2);
    }
  }

  lemma {:induction false} PowerOfTwoHasOneBit(k: nat)
    ensures OnesCount(Pow2(k)) == 1
  {
    if k > 0 {
      PowerOfTwoHasOneBit(k - 1);
    }
  }

  /** `Validate` accepts ordered sizes whose average is a power of two, and nothing else. */
  lemma ValidateAcceptsExactly(c: Config)
    ensures Validate(c) == None <==> 1 <= c.min <= c.avg <= c.max && exists k :: c.avg == Pow2(k)
  {
    if 1 <= c.min <= c.avg <= c.max {
      if OnesCount(c.avg) == 1 {
        OneBitIsPowerOfTwo(c.avg);
      }
      if k :| c.avg == Pow2(k) {
        PowerOfTwoHasOneBit(k);
      }
    }
  }

  /** The default configuration is valid, and its chunks are small. */
  lemma DefaultConfigIsValid()
    ensures Validate(DefaultConfig()) == None && DefaultConfig().max == 0x20_0000
  {
    PowerOfTwoHasOneBit(19);
    assert Pow2(19) == 512 * KIB by {
      assert Pow2(4) == 16;
      assert Pow2(8) == 16 * Pow2(4);
      assert Pow2(12) == 16 * Pow2(8);
      assert Pow2(16) == 16 * Pow2(12);
      assert Pow2(19) == 8 * Pow2(16);
    }
  }

  lemma {:induction false} LowBitsAreRemainder(w: nat, k: nat)
    ensures LowBitsZero(w, k) <==> w % Pow2(k) == 0
  {
    if k > 0 {
      LowBitsAreRemainder(w / 2, k - 1);
      if w % 2 == 0 {
        EvenRemainder(w, w / 2, Pow2(k - 1));
      } else {
        OddRemainder(w, Pow2(k - 1));
      }
    }
  }

  lemma EvenRemainder(w: nat, h: nat, m: nat)
    requires w == 2 * h && m > 0
    ensures w % (2 * m) == 2 * (h % m)
  {
    assert h == m * (h / m) + h % m;
    Double(m, h / m);
    DivModUnique(w, 2 * m, h / m, 2 * (h % m));
  }

  lemma OddRemainder(w: nat, m: nat)
    requires w % 2 == 1 && m > 0
    ensures w % (2 * m) != 0
  {
    var n, q := 2 * m, w / (2 * m);
    assert w == n * q + w % n;
    Double(m, q);
    EvenProduct(m * q);
  }

  lemma EvenProduct(x: int)
    ensures 2 * x % 2 == 0
  {
  }

  /** Two chunks so far that are both at least `min` long and end in the same
      log2(avg) bytes either both cut here or both do not. The Go `int` keeps
      log2(avg) below 63. */
  lemma CutDependsOnWindow(c: ValidConfig, gear: Gear, a: Bytes, p: nat, m: nat, b: Bytes, q: nat, n: nat, k: nat)
    requires Validate(c) == None && k == TrailingZeros(c.avg) <= 64
    requires c.min <= m && k <= m && p + m <= |a|
    requires c.min <= n && k <= n && q + n <= |b|
    requires a[p + m - k..p + m] == b[q + n - k..q + n]
    ensures CutsAfter(c, gear, a, p, m) <==> CutsAfter(c, gear, b, q, n)
    ensures CutsAfter(c, gear, a, p, m) <==> WindowSum(gear, a, p + m - k, k) % c.avg == 0
  {
    OneBitIsPowerOfTwo(c.avg);
    MaskedFingerprintIsWindowSum(gear, a, p, m, k);
    MaskedFingerprintIsWindowSum(gear, b, q, n, k);
    SameBytesSameSum(gear, a, p + m - k, b, q + n - k, k);
    LowBitsAreRemainder(Fingerprint(gear, a, p, m), k);
    LowBitsAreRemainder(Fingerprint(gear, b, q, n), k);
  }

  lemma {:induction false} SameBytesSameSum(gear: Gear, a: Bytes, p: nat, b: Bytes, q: nat, n: nat)
    requires p + n <= |a| && q + n <= |b| && a[p..p + n] == b[q..q + n]
    ensures WindowSum(gear, a, p, n) == WindowSum(gear, b, q, n)
  {
    if n > 0 {
      assert a[p..p + n - 1] == a[p..p + n][..n - 1] == b[q..q + n - 1];
      assert a[p + n - 1] == a[p..p + n][n - 1] == b[q + n - 1];
      SameBytesSameSum(gear, a, p, b, q, n - 1);
    }
  }

  /** The oldest byte counts most: each gear word is doubled once for every byte behind it. */
  lemma WindowSumByAge(gear: Gear, s: Bytes, p: nat, n: nat)
    requires 0 < n && p + n <= |s|
    ensures WindowSum(gear, s, p, n) == Pow2(n - 1) * gear[s[p] as int] + WindowSum(gear, s, p + 1, n - 1)
  {
    WindowSumSplits(gear, s, p, 1, n - 1);
    assert WindowSum(gear, s, p, 1) == gear[s[p] as int];
  }

  /** The cut test in plain arithmetic, for chunks of any length. */
  lemma CutsExactly(c: ValidConfig, gear: Gear, s: Bytes, p: nat, n: nat)
    requires Validate(c) == None && TrailingZeros(c.avg) <= 64 && p + n <= |s|
    ensures CutsAfter(c, gear, s, p, n) <==> n >= c.min && WindowSum(gear, s, p, n) % c.avg == 0
  {
    var k := TrailingZeros(c.avg);
    OneBitIsPowerOfTwo(c.avg);
    assert Pow2(k) * Pow2(64 - k) == WORD by {
      WordIsPow2();
      Pow2Divides(k, 64);
    }
    FingerprintIsWrappedSum(gear, s, p, n);
    ModMod(WindowSum(gear, s, p, n), Pow2(k), Pow2(64 - k));
    LowBitsAreRemainder(Fingerprint(gear, s, p, n), k);
  }

  /** Where chunks end: a rest of at most `min` bytes is one chunk, any other chunk ends where
      the sum is first divisible by `avg` from `min` bytes on, at the end of the input, or
      at `max` bytes. */
  ghost predicate EndsAtCut(c: ValidConfig, gear: Gear, s: Bytes, offset: nat, length: nat)
    requires offset + length <= |s|
  {
    var rest := |s| - offset;
    && (rest <= c.min ==> length == rest)
    && (rest > c.min ==>
          && (length == Min(rest, c.max) || (length >= c.min && WindowSum(gear, s, offset, length) % c.avg == 0))
          && forall j :: c.min <= j < length ==> WindowSum(gear, s, offset, j) % c.avg != 0)
  }

  lemma BoundaryIsCut(c: ValidConfig, gear: Gear, s: Bytes, p: nat)
    requires Validate(c) == None && TrailingZeros(c.avg) <= 64 && p < |s|
    ensures EndsAtCut(c, gear, s, p, Boundary(c, gear, s, p))
  {
    var b := Boundary(c, gear, s, p);
    assert IsBoundary(c, gear, s, p, b);
    CutsExactly(c, gear, s, p, b);
    forall j | c.min <= j < b
      ensures |s| - p > c.min ==> WindowSum(gear, s, p, j) % c.avg != 0
    {
      CutsExactly(c, gear, s, p, j);
    }
  }

  /** So does every chunk of the split. */
  lemma ChunksEndAtCuts(c: ValidConfig, gear: Gear, hash: HashFn, s: Bytes, i: nat)
    requires Validate(c) == None && TrailingZeros(c.avg) <= 64 && i < |Chunks(c, gear, hash, s)|
    ensures var chunk := Chunks(c, gear, hash, s)[i];
            chunk.offset + chunk.length <= |s| && EndsAtCut(c, gear, s, chunk.offset, chunk.length)
  {
    var cs := Chunks(c, gear, hash, s);
    ChunksAreWellCut(c, gear, hash, s, 0);
    assert CutAt(c, gear, hash, s, cs, i);
    BoundaryIsCut(c, gear, s, cs[i].offset);
  }

  // ----- edits stay local --------------------------------------------------

  /** A boundary with more bytes behind it is settled by the bytes before it. */
  lemma BoundaryIgnoresTail(c: ValidConfig, gear: Gear, s: Bytes, t: Bytes, p: nat)
    requires p < |s| && p + Boundary(c, gear, s, p) < |s|
    requires var e := p + Boundary(c, gear, s, p); e <= |t| && s[p..e] == t[p..e]
    ensures Boundary(c, gear, t, p) == Boundary(c, gear, s, p)
  {
    var b := Boundary(c, gear, s, p);
    SameBytesSameCuts(c, gear, s, p, t, p, b);
    assert IsBoundary(c, gear, t, p, b);
    BoundaryIsUnique(c, gear, t, p, b, Boundary(c, gear, t, p));
  }

  lemma {:induction false} ChunkEndsGrow(c: ValidConfig, gear: Gear, hash: HashFn, s: Bytes, p: nat, cs: seq<Chunk>, i: nat)
    requires p <= |s| && cs == ChunksFrom(c, gear, hash, s, p) && i < |cs|
    ensures p < |s| && p + Boundary(c, gear, s, p) <= cs[i].offset + cs[i].length
    decreases i
  {
    if i > 0 {
      ChunkEndsGrow(c, gear, hash, s, p + Boundary(c, gear, s, p), cs[1..], i - 1);
    }
  }

  lemma SamePrefixSlice(s: Bytes, t: Bytes, n: nat, p: nat, e: nat)
    requires p <= e <= n <= |s| && n <= |t| && s[..n] == t[..n]
    ensures s[p..e] == t[p..e]
  {
    assert s[p..e] == s[..n][p..e] && t[p..e] == t[..n][p..e];
  }

  /** Non-final chunks inside a common prefix of `n` bytes are chunks of both inputs. */
  lemma {:induction false} PrefixChunksSurvive(c: ValidConfig, gear: Gear, hash: HashFn, s: Bytes, t: Bytes, n: nat,
                                               p: nat, cs: seq<Chunk>, ds: seq<Chunk>, i: nat)
    requires p <= n <= |s| && n <= |t| && s[..n] == t[..n]
    requires cs == ChunksFrom(c, gear, hash, s, p) && ds == ChunksFrom(c, gear, hash, t, p)
    requires i < |cs| - 1 && cs[i].offset + cs[i].length <= n
    ensures i < |ds| && ds[i] == cs[i]
    decreases i
  {
    ChunkEndsGrow(c, gear, hash, s, p, cs, i);
    var e := p + Boundary(c, gear, s, p);
    SamePrefixSlice(s, t, n, p, e);
    BoundaryIgnoresTail(c, gear, s, t, p);
    assert cs[1..] == ChunksFrom(c, gear, hash, s, e) && ds[1..] == ChunksFrom(c, gear, hash, t, e);
    if i > 0 {
      PrefixChunksSurvive(c, gear, hash, s, t, n, e, cs[1..], ds[1..], i - 1);
    }
  }

  /** The chunks from the i-th on are those of the bytes from its offset on. */
  lemma {:induction false} LaterChunks(c: ValidConfig, gear: Gear, hash: HashFn, s: Bytes, p: nat, cs: seq<Chunk>, i: nat)
    requires p <= |s| && cs == ChunksFrom(c, gear, hash, s, p) && i < |cs|
    ensures p <= cs[i].offset < |s| && cs[i..] == ChunksFrom(c, gear, hash, s, cs[i].offset)
    decreases i
  {
    if i == 0 {
      assert cs[0..] == cs;
    } else {
      LaterChunks(c, gear, hash, s, p + Boundary(c, gear, s, p), cs[1..], i - 1);
      assert cs[1..][i - 1..] == cs[i..] && cs[1..][i - 1] == cs[i];
    }
  }

  /** The two chunk lists agree but for their positions. */
  ghost predicate SameBlocks(cs: seq<Chunk>, ds: seq<Chunk>) {
    |cs| == |ds| && forall i :: 0 <= i < |cs| ==> cs[i].length == ds[i].length && cs[i].hash == ds[i].hash
  }

  lemma SameSuffixSameBoundary(c: ValidConfig, gear: Gear, s: Bytes, p: nat, t: Bytes, q: nat)
    requires p < |s| && q < |t| && s[p..] == t[q..]
    ensures Boundary(c, gear, s, p) == Boundary(c, gear, t, q)
  {
    assert s[p..|s|] == s[p..] == t[q..] == t[q..|t|];
    SameBytesSameCuts(c, gear, s, p, t, q, |s| - p);
    var b := Boundary(c, gear, s, p);
    assert IsBoundary(c, gear, t, q, b);
    BoundaryIsUnique(c, gear, t, q, b, Boundary(c, gear, t, q));
  }

  lemma SuffixFrom(s: Bytes, p: nat, t: Bytes, q: nat, b: nat)
    requires p + b <= |s| && q <= |t| && s[p..] == t[q..]
    ensures |s| - p == |t| - q && s[p..p + b] == t[q..q + b] && s[p + b..] == t[q + b..]
  {
    assert |s[p..]| == |t[q..]|;
    assert s[p..p + b] == s[p..][..b] && t[q..q + b] == t[q..][..b];
    assert s[p + b..] == s[p..][b..] && t[q + b..] == t[q..][b..];
  }

  lemma {:induction false} SameSuffixSameBlocks(c: ValidConfig, gear: Gear, hash: HashFn, s: Bytes, p: nat, t: Bytes, q: nat)
    requires p <= |s| && q <= |t| && s[p..] == t[q..]
    ensures SameBlocks(ChunksFrom(c, gear, hash, s, p), ChunksFrom(c, gear, hash, t, q))
    decreases |s| - p
  {
    SuffixFrom(s, p, t, q, 0);
    if p < |s| {
      SameSuffixSameBoundary(c, gear, s, p, t, q);
      var b := Boundary(c, gear, s, p);
      SuffixFrom(s, p, t, q, b);
      SameSuffixSameBlocks(c, gear, hash, s, p + b, t, q + b);
      OneMoreSameBlock(ChunkAt(c, gear, hash, s, p), ChunksFrom(c, gear, hash, s, p + b),
                       ChunkAt(c, gear, hash, t, q), ChunksFrom(c, gear, hash, t, q + b));
    }
  }

  lemma OneMoreSameBlock(x: Chunk, cs: seq<Chunk>, y: Chunk, ds: seq<Chunk>)
    requires SameBlocks(cs, ds) && x.length == y.length && x.hash == y.hash
    ensures SameBlocks([x] + cs, [y] + ds)
  {
  }

  /** Where two inputs with a common suffix `v` both start a chunk at the same place
      of it, all chunks from there on have equal lengths and digests. */
  lemma SuffixChunksResynchronize(c: ValidConfig, gear: Gear, hash: HashFn, a: Bytes, b: Bytes, v: Bytes,
                                  cs: seq<Chunk>, ds: seq<Chunk>, i: nat, j: nat)
    requires cs == Chunks(c, gear, hash, a + v) && ds == Chunks(c, gear, hash, b + v)
    requires i < |cs| && j < |ds| && cs[i].offset - |a| == ds[j].offset - |b| >= 0
    ensures SameBlocks(cs[i..], ds[j..])
  {
    LaterChunks(c, gear, hash, a + v, 0, cs, i);
    LaterChunks(c, gear, hash, b + v, 0, ds, j);
    var m, n := cs[i].offset, ds[j].offset;
    assert (a + v)[m..] == v[m - |a|..] == (b + v)[n..];
    SameSuffixSameBlocks(c, gear, hash, a + v, m, b + v, n);
  }
}
