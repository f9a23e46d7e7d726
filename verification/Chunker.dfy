/** Content-defined chunking: a gear hash rolls over a refilled buffer and cuts
    where its low bits are zero (`engine/internal/chunker/chunker.go`). */
module Chunker {
  import opened Basics

  const KIB := 1024
  const MIB := 1024 * KIB

  type Word = w: int | 0 <= w < WORD

  /** The 256 random words mixed into the fingerprint. Nothing here depends on which. */
  type Gear = g: seq<Word> | |g| == 256 witness seq(256, _ => 0)

  datatype Config = Config(min: int, avg: int, max: int)

  function DefaultConfig(): Config {
    Config(128 * KIB, 512 * KIB, 2 * MIB)
  }

  function OnesCount(n: nat): nat {
    if n == 0 then 0 else n % 2 + OnesCount(n / 2)
  }

  function TrailingZeros(n: nat): nat
    requires n > 0
  {
    if n % 2 == 1 then 0 else 1 + TrailingZeros(n / 2)
  }

  function Pow2(k: nat): nat
    ensures Pow2(k) > 0
  {
    if k == 0 then 1 else 2 * Pow2(k - 1)
  }

  datatype ConfigError = MinBelowOne | AvgBelowMin | MaxBelowAvg | AvgNotPowerOfTwo

  function Validate(c: Config): Option<ConfigError> {
    if c.min < 1 then Some(MinBelowOne)
    else if c.avg < c.min then Some(AvgBelowMin)
    else if c.max < c.avg then Some(MaxBelowAvg)
    else if OnesCount(c.avg) != 1 then Some(AvgNotPowerOfTwo)
    else None
  }

  /** The size bounds of a validated configuration. That `avg` is also a power of
      two matters only to the window of the cut test. */
  type ValidConfig = c: Config | 1 <= c.min <= c.avg <= c.max witness Config(1, 1, 1)

  datatype Chunk = Chunk(offset: nat, length: nat, hash: Hash)

  // ----- the simple recursive split ---------------------------------------

  /** One step of the gear hash, wrapping at 64 bits. */
  function Roll(gear: Gear, fp: Word, b: byte): Word {
    (2 * fp + gear[b as int]) % WORD
  }

  /** The fingerprint of the `n` bytes at `p`. */
  function Fingerprint(gear: Gear, s: Bytes, p: nat, n: nat): Word
    requires p + n <= |s|
  {
    if n == 0 then 0 else Roll(gear, Fingerprint(gear, s, p, n - 1), s[p + n - 1])
  }

  /** `w & (2^k - 1) == 0`: the low k bits are all zero. */
  predicate LowBitsZero(w: nat, k: nat) {
    k == 0 || (w % 2 == 0 && LowBitsZero(w / 2, k - 1))
  }

  /** The cut test for a chunk that starts at `p` and has `n` bytes so far. The mask
      has one bit for each trailing zero of `avg`. */
  predicate CutsAfter(c: ValidConfig, gear: Gear, s: Bytes, p: nat, n: nat)
    requires p + n <= |s|
  {
    n >= c.min && LowBitsZero(Fingerprint(gear, s, p, n), TrailingZeros(c.avg))
  }

  /** The chunk that starts at `p` has `b` bytes: all that remain when these are at
      most `min`, else those up to the first cut, and `max` at most. */
  ghost predicate IsBoundary(c: ValidConfig, gear: Gear, s: Bytes, p: nat, b: nat)
    requires p < |s|
  {
    var n := Min(|s| - p, c.max);
    && 0 < b <= n
    && (|s| - p <= c.min ==> b == n)
    && (|s| - p > c.min ==>
          && (b == n || CutsAfter(c, gear, s, p, b))
          && forall j :: 0 < j < b ==> !CutsAfter(c, gear, s, p, j))
  }

  lemma BoundaryExists(c: ValidConfig, gear: Gear, s: Bytes, p: nat)
    requires p < |s|
    ensures exists b :: IsBoundary(c, gear, s, p, b)
  {
    var n := Min(|s| - p, c.max);
    var b := 1;
    while b < n && (|s| - p <= c.min || !CutsAfter(c, gear, s, p, b))
      invariant 0 < b <= n
      invariant |s| - p > c.min ==> forall j :: 0 < j < b ==> !CutsAfter(c, gear, s, p, j)
    {
      b := b + 1;
    }
    assert IsBoundary(c, gear, s, p, b);
  }

  lemma BoundaryIsUnique(c: ValidConfig, gear: Gear, s: Bytes, p: nat, a: nat, b: nat)
    requires p < |s| && IsBoundary(c, gear, s, p, a) && IsBoundary(c, gear, s, p, b)
    ensures a == b
  {
  }

  ghost function Boundary(c: ValidConfig, gear: Gear, s: Bytes, p: nat): (b: nat)
    requires p < |s|
    ensures 0 < b <= Min(|s| - p, c.max)
  {
    BoundaryExists(c, gear, s, p);
    var b :| IsBoundary(c, gear, s, p, b);
    b
  }

  lemma {:induction false} SameBytesSameFingerprint(gear: Gear, a: Bytes, p: nat, b: Bytes, q: nat, n: nat)
    requires p + n <= |a| && q + n <= |b| && a[p..p + n] == b[q..q + n]
    ensures Fingerprint(gear, a, p, n) == Fingerprint(gear, b, q, n)
  {
    if n > 0 {
      assert a[p..p + n - 1] == a[p..p + n][..n - 1] == b[q..q + n - 1];
      assert a[p + n - 1] == a[p..p + n][n - 1] == b[q + n - 1];
      SameBytesSameFingerprint(gear, a, p, b, q, n - 1);
    }
  }

  /** The cut test looks at nothing behind the bytes it has seen. */
  lemma SameBytesSameCuts(c: ValidConfig, gear: Gear, a: Bytes, p: nat, b: Bytes, q: nat, n: nat)
    requires p + n <= |a| && q + n <= |b| && a[p..p + n] == b[q..q + n]
    ensures forall j :: 0 <= j <= n ==> CutsAfter(c, gear, a, p, j) == CutsAfter(c, gear, b, q, j)
  {
    forall j | 0 <= j <= n
      ensures CutsAfter(c, gear, a, p, j) == CutsAfter(c, gear, b, q, j)
    {
      assert a[p..p + j] == a[p..p + n][..j] == b[q..q + j];
      SameBytesSameFingerprint(gear, a, p, b, q, j);
    }
  }

  /** A buffer of `max` bytes, or of all that remain, is enough to find a boundary. */
  lemma BoundaryInWindow(c: ValidConfig, gear: Gear, s: Bytes, p: nat, window: Bytes)
    requires p < |s| && |window| == Min(|s| - p, c.max) && window == s[p..p + |window|]
    ensures Boundary(c, gear, window, 0) == Boundary(c, gear, s, p)
  {
    var b := Boundary(c, gear, s, p);
    assert window[0..|window|] == window;
    SameBytesSameCuts(c, gear, s, p, window, 0, |window|);
    assert IsBoundary(c, gear, window, 0, b);
    BoundaryIsUnique(c, gear, window, 0, b, Boundary(c, gear, window, 0));
  }

  ghost function ChunkAt(c: ValidConfig, gear: Gear, hash: HashFn, s: Bytes, p: nat): Chunk
    requires p < |s|
  {
    var b := Boundary(c, gear, s, p);
    Chunk(p, b, hash(s[p..p + b]))
  }

  /** Cut one chunk off at `p`, then split what is behind it. */
  ghost function ChunksFrom(c: ValidConfig, gear: Gear, hash: HashFn, s: Bytes, p: nat): seq<Chunk>
    requires p <= |s|
    decreases |s| - p
  {
    if p == |s| then []
    else [ChunkAt(c, gear, hash, s, p)] + ChunksFrom(c, gear, hash, s, p + Boundary(c, gear, s, p))
  }

  ghost function Chunks(c: ValidConfig, gear: Gear, hash: HashFn, s: Bytes): seq<Chunk> {
    ChunksFrom(c, gear, hash, s, 0)
  }

  ghost function StartOf(cs: seq<Chunk>, s: Bytes, n: nat): nat {
    if n < |cs| then cs[n].offset else |s|
  }

  /** The i-th chunk is cut where it starts, and the next one starts where it ends. */
  ghost predicate CutAt(c: ValidConfig, gear: Gear, hash: HashFn, s: Bytes, cs: seq<Chunk>, i: nat)
    requires i < |cs|
  {
    && cs[i].offset < |s|
    && cs[i] == ChunkAt(c, gear, hash, s, cs[i].offset)
    && StartOf(cs, s, i + 1) == cs[i].offset + cs[i].length
  }

  /** The recursive split, seen chunk by chunk. */
  ghost predicate WellCut(c: ValidConfig, gear: Gear, hash: HashFn, s: Bytes, cs: seq<Chunk>) {
    forall i :: 0 <= i < |cs| ==> CutAt(c, gear, hash, s, cs, i)
  }

  lemma {:induction false} ChunksAreWellCut(c: ValidConfig, gear: Gear, hash: HashFn, s: Bytes, p: nat)
    requires p <= |s|
    ensures WellCut(c, gear, hash, s, ChunksFrom(c, gear, hash, s, p))
    ensures StartOf(ChunksFrom(c, gear, hash, s, p), s, 0) == p
    decreases |s| - p
  {
    if p < |s| {
      var q := p + Boundary(c, gear, s, p);
      ChunksAreWellCut(c, gear, hash, s, q);
      WellCutFront(c, gear, hash, s, p, ChunksFrom(c, gear, hash, s, q));
    }
  }

  lemma WellCutFront(c: ValidConfig, gear: Gear, hash: HashFn, s: Bytes, p: nat, rest: seq<Chunk>)
    requires p < |s| && WellCut(c, gear, hash, s, rest)
    requires StartOf(rest, s, 0) == p + Boundary(c, gear, s, p)
    ensures WellCut(c, gear, hash, s, [ChunkAt(c, gear, hash, s, p)] + rest)
  {
    var cs := [ChunkAt(c, gear, hash, s, p)] + rest;
    forall i | 0 <= i < |cs|
      ensures CutAt(c, gear, hash, s, cs, i)
    {
      if i > 0 {
        assert CutAt(c, gear, hash, s, rest, i - 1) && cs[i] == rest[i - 1];
        assert StartOf(cs, s, i + 1) == StartOf(rest, s, i);
      } else {
        assert StartOf(cs, s, 1) == StartOf(rest, s, 0);
      }
    }
  }

  // ----- readers and the callback -----------------------------------------

  datatype ReadStatus = More | Eof | Broken

  /** One scripted answer: at most `n` bytes, possibly with an early end of file,
      or an error after them. */
  datatype ReadStep = ReadStep(n: nat, eager: bool, broken: bool)

  /** An `io.Reader` over `all`. The script says how it fragments its data; after
      the script it hands out whatever fits. */
  class Reader {
    const all: Bytes
    var pos: nat
    var script: seq<ReadStep>

    constructor (contents: Bytes, steps: seq<ReadStep>)
      ensures all == contents && pos == 0 && script == steps
    {
      all, pos, script := contents, 0, steps;
    }

    ghost predicate Valid()
      reads this
    {
      pos <= |all|
    }

    method Read(buf: array<byte>, from: nat) returns (n: nat, status: ReadStatus)
      requires Valid() && from < buf.Length
      modifies `pos, `script, buf
      ensures Valid() && n <= buf.Length - from && pos == old(pos) + n
      ensures buf[..] == old(buf[..from]) + all[old(pos)..pos] + old(buf[from + n..])
      ensures status == Eof ==> pos == |all|
      ensures status == Broken ==> exists s :: s in old(script) && s.broken
      ensures forall s :: s in script ==> s in old(script)
      ensures |script| < old(|script|) || (script == old(script) && (n > 0 || status != More))
    {
      var step := ReadStep(|all|, false, false);
      var scripted := script != [];
      if scripted {
        step, script := script[0], script[1..];
      }
      n := Min(step.n, Min(buf.Length - from, |all| - pos));
      forall i | 0 <= i < n {
        buf[from + i] := all[pos + i];
      }
      pos := pos + n;
      if step.broken {
        status := Broken;
      } else if pos == |all| && (step.eager || n == 0) {
        status := Eof;
      } else {
        status := More;
      }
    }
  }

  /** The callback of `Split`, as the closure of `scanFile` that appends to a list. It may
      have a limit, and refusing a chunk beyond that stands for a callback error. */
  class Sink {
    const limit: Option<nat>
    var got: seq<Chunk>

    constructor (limit: Option<nat>)
      ensures got == [] && this.limit == limit
    {
      this.limit, got := limit, [];
    }

    predicate Full()
      reads this
    {
      limit.Some? && |got| >= limit.value
    }

    method Emit(chunk: Chunk) returns (ok: bool)
      modifies `got
      ensures ok == !old(Full())
      ensures got == if ok then old(got) + [chunk] else old(got)
    {
      ok := !Full();
      if ok {
        got := got + [chunk];
      }
    }
  }

  datatype SplitResult = Done | ReadFailed | CallbackFailed

  // ----- the imperative chunker -------------------------------------------

  /** `New`: refuses a configuration that `Validate` refuses. */
  method New(c: Config, g: Gear, h: HashFn) returns (chunker: Option<Chunker>)
    ensures chunker == None <==> Validate(c) != None
    ensures chunker != None ==> chunker.value.cfg == c && chunker.value.gear == g && chunker.value.hash == h
  {
    if Validate(c) != None {
      return None;
    }
    var made := new Chunker(c, g, h);
    return Some(made);
  }

  class Chunker {
    const cfg: ValidConfig
    const gear: Gear
    const hash: HashFn

    constructor (c: ValidConfig, g: Gear, h: HashFn)
      ensures cfg == c && gear == g && hash == h
    {
      cfg, gear, hash := c, g, h;
    }

    method FindBoundary(data: Bytes) returns (b: nat)
      requires data != []
      ensures b == Boundary(cfg, gear, data, 0)
      ensures |data| <= cfg.min ==> b == |data|
      ensures |data| > cfg.min ==>
                && (b == Min(|data|, cfg.max) || CutsAfter(cfg, gear, data, 0, b))
                && forall j :: 0 < j < b ==> !CutsAfter(cfg, gear, data, 0, j)
    {
      var n := |data|;
      if n <= cfg.min {
        BoundaryIsUnique(cfg, gear, data, 0, n, Boundary(cfg, gear, data, 0));
        return n;
      }
      if n > cfg.max {
        n := cfg.max;
      }
      var fp: Word := 0;
      for i := 0 to n
        invariant fp == Fingerprint(gear, data, 0, i)
        invariant forall j :: 0 < j <= i ==> !CutsAfter(cfg, gear, data, 0, j)
      {
        fp := (2 * fp + gear[data[i] as int]) % WORD;
        if i + 1 >= cfg.min && LowBitsZero(fp, TrailingZeros(cfg.avg)) {
          BoundaryIsUnique(cfg, gear, data, 0, i + 1, Boundary(cfg, gear, data, 0));
          return i + 1;
        }
      }
      BoundaryIsUnique(cfg, gear, data, 0, n, Boundary(cfg, gear, data, 0));
      return n;
    }

    /** `n` of the chunks `goal` have been emitted after those in `before`, and the
        next one starts at `p`. */
    ghost predicate Emitted(got: seq<Chunk>, before: seq<Chunk>, data: Bytes, goal: seq<Chunk>, n: nat, p: nat) {
      && WellCut(cfg, gear, hash, data, goal)
      && n <= |goal| && got == before + goal[..n]
      && p == StartOf(goal, data, n)
    }

    lemma EmittedOneMore(got: seq<Chunk>, before: seq<Chunk>, data: Bytes, goal: seq<Chunk>, n: nat, p: nat)
      requires Emitted(got, before, data, goal, n, p) && p < |data|
      ensures n < |goal|
      ensures Emitted(got + [ChunkAt(cfg, gear, hash, data, p)], before, data, goal, n + 1, p + Boundary(cfg, gear, data, p))
    {
      assert CutAt(cfg, gear, hash, data, goal, n);
      assert goal[..n + 1] == goal[..n] + [goal[n]];
    }

    lemma EmittedAll(got: seq<Chunk>, before: seq<Chunk>, data: Bytes, goal: seq<Chunk>, n: nat, p: nat)
      requires Emitted(got, before, data, goal, n, p)
      ensures got <= before + goal && (p == |data| ==> got == before + goal)
    {
      if n < |goal| {
        assert CutAt(cfg, gear, hash, data, goal, n);
      } else {
        assert goal[..n] == goal;
      }
    }

    /** The buffer holds the next `filled` bytes of `data` after `p`, and the reader
        will deliver the others. */
    ghost predicate Holds(r: Reader, buf: array<byte>, filled: nat, data: Bytes, p: nat)
      reads r, buf
    {
      && filled <= buf.Length && p + filled <= |data| <= |r.all|
      && r.pos == |r.all| - |data| + p + filled
      && buf[..filled] == data[p..p + filled]
    }

    /** The inner loop of `Split`: reads until the buffer is full or the input ends. */
    method Fill(r: Reader, buf: array<byte>, have: nat, before: ReadStatus, ghost data: Bytes, ghost p: nat)
      returns (filled: nat, status: ReadStatus)
      requires |data| <= |r.all| && data == r.all[|r.all| - |data|..] && Holds(r, buf, have, data, p)
      requires before != Broken && (before == Eof ==> p + have == |data|)
      modifies r, buf
      ensures Holds(r, buf, filled, data, p)
      ensures status == More ==> filled == buf.Length
      ensures status == Eof ==> p + filled == |data|
      ensures status == Broken ==> exists s :: s in old(r.script) && s.broken
      ensures forall s :: s in r.script ==> s in old(r.script)
    {
      filled, status := have, before;
      while filled < buf.Length && status == More
        invariant Holds(r, buf, filled, data, p)
        invariant status == Eof ==> p + filled == |data|
        invariant status == Broken ==> exists s :: s in old(r.script) && s.broken
        invariant forall s :: s in r.script ==> s in old(r.script)
        decreases status == More, |r.script|, |r.all| - r.pos
      {
        ghost var from := r.pos;
        var n;
        n, status := r.Read(buf, filled);
        assert data[p + filled..p + filled + n] == r.all[from..r.pos];
        assert buf[..filled + n] == data[p..p + filled] + r.all[from..r.pos];
        filled := filled + n;
      }
    }

    /** Emits the first chunk of the buffered bytes and moves the others to the front. */
    method EmitFirst(buf: array<byte>, filled: nat, offset: nat, sink: Sink, ghost r: Reader, ghost data: Bytes)
      returns (b: nat, ok: bool)
      requires 0 < filled && Holds(r, buf, filled, data, offset) && filled == Min(|data| - offset, cfg.max)
      modifies buf, sink`got
      ensures b == Boundary(cfg, gear, data, offset) <= filled && ok == !old(sink.Full())
      ensures sink.got == old(sink.got) + if ok then [ChunkAt(cfg, gear, hash, data, offset)] else []
      ensures ok ==> Holds(r, buf, filled - b, data, offset + b)
    {
      BoundaryInWindow(cfg, gear, data, offset, buf[..filled]);
      b := FindBoundary(buf[..filled]);
      assert buf[..b] == buf[..filled][..b] == data[offset..offset + b];
      ok := sink.Emit(Chunk(offset, b, hash(buf[..b])));
      if ok {
        ShiftDown(buf, b, filled - b);
        assert buf[..filled - b] == data[offset..offset + filled][b..];
      }
    }

    /** Moves the `n` bytes at `b` to the front of the buffer. */
    method ShiftDown(buf: array<byte>, b: nat, n: nat)
      requires b + n <= buf.Length
      modifies buf
      ensures buf[..n] == old(buf[b..b + n])
    {
      forall i | 0 <= i < n {
        buf[i] := buf[i + b];
      }
    }

    /** Reads everything, cutting as the buffer fills. */
    method Split(r: Reader, sink: Sink) returns (res: SplitResult)
      requires r.Valid()
      modifies r, sink`got
      ensures r.Valid()
      ensures res == Done ==>
                && r.pos == |r.all|
                && sink.got == old(sink.got) + Chunks(cfg, gear, hash, old(r.all[r.pos..]))
      ensures |old(sink.got)| <= |sink.got|
      ensures sink.got <= old(sink.got) + Chunks(cfg, gear, hash, old(r.all[r.pos..]))
      ensures res == ReadFailed ==> exists s :: s in old(r.script) && s.broken
      ensures res == CallbackFailed ==>
                sink.Full() && sink.got != old(sink.got) + Chunks(cfg, gear, hash, old(r.all[r.pos..]))
    {
      ghost var data := r.all[r.pos..];
      ChunksAreWellCut(cfg, gear, hash, data, 0);
      res := SplitLoop(r, sink, data, Chunks(cfg, gear, hash, data));
    }

    /** One turn of the loop of `Split`: fills the buffer up and emits a chunk. `n` of the
        chunks `goal` have been emitted after those in `got`. */
    method Turn(r: Reader, buf: array<byte>, sink: Sink, offset: nat, have: nat, before: ReadStatus, ghost data: Bytes,
                ghost goal: seq<Chunk>, ghost got: seq<Chunk>, ghost n: nat)
      returns (b: nat, left: nat, status: ReadStatus, res: Option<SplitResult>)
      requires buf.Length == cfg.max && |data| <= |r.all| && data == r.all[|r.all| - |data|..]
      requires Holds(r, buf, have, data, offset) && Emitted(sink.got, got, data, goal, n, offset)
      requires before != Broken && (before == Eof ==> offset + have == |data|)
      modifies r, buf, sink`got
      ensures forall s :: s in r.script ==> s in old(r.script)
      ensures res == None ==>
                && 0 < b && Holds(r, buf, left, data, offset + b) && Emitted(sink.got, got, data, goal, n + 1, offset + b)
                && status != Broken && (status == Eof ==> offset + b + left == |data|)
      ensures res.Some? ==> sink.got == old(sink.got)
      ensures res == Some(Done) ==> r.pos == |r.all| && offset == |data|
      ensures res == Some(ReadFailed) ==> exists s :: s in old(r.script) && s.broken
      ensures res == Some(CallbackFailed) ==> sink.Full() && n < |goal|
      ensures r.pos <= |r.all|
    {
      b, res := 0, None;
      left, status := Fill(r, buf, have, before, data, offset);
      if status == Broken {
        return b, left, status, Some(ReadFailed);
      }
      if left == 0 {
        return b, left, status, Some(Done);
      }
      EmittedOneMore(sink.got, got, data, goal, n, offset);
      var ok;
      b, ok := EmitFirst(buf, left, offset, sink, r, data);
      if !ok {
        return b, left, status, Some(CallbackFailed);
      }
      left := left - b;
    }

    /** The loop of `Split`, which is to emit the chunks `goal`. */
    method SplitLoop(r: Reader, sink: Sink, ghost data: Bytes, ghost goal: seq<Chunk>) returns (res: SplitResult)
      requires r.Valid() && data == r.all[r.pos..]
      requires WellCut(cfg, gear, hash, data, goal) && StartOf(goal, data, 0) == 0
      modifies r, sink`got
      ensures r.Valid() && |old(sink.got)| <= |sink.got| && sink.got <= old(sink.got) + goal
      ensures res == Done ==> r.pos == |r.all| && sink.got == old(sink.got) + goal
      ensures res == ReadFailed ==> exists s :: s in old(r.script) && s.broken
      ensures res == CallbackFailed ==> sink.Full() && sink.got != old(sink.got) + goal
    {
      var buf := new byte[cfg.max];
      var offset: nat, filled: nat, status := 0, 0, More;
      ghost var n: nat := 0;
      EmittedAll(sink.got, old(sink.got), data, goal, n, offset);
      while true
        invariant Holds(r, buf, filled, data, offset)
        invariant status != Broken && (status == Eof ==> offset + filled == |data|)
        invariant Emitted(sink.got, old(sink.got), data, goal, n, offset)
        invariant sink.got <= old(sink.got) + goal && (offset == |data| ==> sink.got == old(sink.got) + goal)
        invariant forall s :: s in r.script ==> s in old(r.script)
        decreases |data| - offset
      {
        var b, end;
        b, filled, status, end := Turn(r, buf, sink, offset, filled, status, data, goal, old(sink.got), n);
        if end.Some? {
          return end.value;
        }
        n, offset := n + 1, offset + b;
        EmittedAll(sink.got, old(sink.got), data, goal, n, offset);
        if filled == 0 && status == Eof {
          return Done;
        }
      }
    }

    /** Splitting a byte slice cannot fail. */
    method SplitBytes(s: Bytes) returns (chunks: seq<Chunk>)
      ensures chunks == Chunks(cfg, gear, hash, s)
    {
      var r := new Reader(s, []);
      var sink := new Sink(None);
      assert r.all[r.pos..] == s;
      var res := Split(r, sink);
      chunks := sink.got;
    }
  }
}
