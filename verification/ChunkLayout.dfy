/** How the file corruption tool divides a region of a file into chunks and picks every mod-th of them. */
module ChunkLayout {

  datatype Opts = Opts(start: int, end: int, chunkSize: int, index: int, mod: int, probability: real)

  datatype ExitCode = ExitOk | ExitArgs

  const OFF_MAX := 0x7FFF_FFFF_FFFF_FFFF

  /** What the tool goes on to rely on; index and mod are unsigned. */
  predicate ValidOpts(o: Opts) {
    && 0 <= o.start <= o.end <= OFF_MAX
    && 0 <= o.index < o.mod
    && 0.0 <= o.probability <= 1.0
    && 0 < o.chunkSize
  }

  function ValidateOpts(o: Opts): (code: ExitCode)
    requires 0 <= o.index && 0 <= o.mod
    ensures code == ExitOk <==> ValidOpts(o)
    ensures code == ExitOk <==>
            && o.start >= 0 && o.end >= o.start && o.end < 0x8000_0000_0000_0000
            && o.index < o.mod && o.chunkSize > 0 && !(o.probability < 0.0) && !(o.probability > 1.0)
  {
    if o.start < 0 then ExitArgs
    else if o.end < 0 then ExitArgs
    else if OFF_MAX < o.end then ExitArgs
    else if o.end < o.start then ExitArgs
    else if o.mod <= o.index then ExitArgs
    else if o.probability < 0.0 || 1.0 < o.probability then ExitArgs
    else if o.chunkSize <= 0 then ExitArgs
    else ExitOk
  }

  function Min(a: int, b: int): int {
    if b < a then b else a
  }

  function ChunkOffset(o: Opts, chunk: int): int {
    o.start + chunk * o.chunkSize
  }

  /** Where corruption stops in a file of this size. */
  function Limit(o: Opts, size: int): int {
    Min(o.end, size)
  }

  method ChunkCount(o: Opts, size: nat) returns (chunks: int)
    requires ValidOpts(o)
    ensures chunks == Chunks(o, size)
  {
    var end := o.end;
    if size < end { end := size; }
    if end < o.start { return 0; }
    var region := end - o.start;
    CountIsQuotient(region, o.chunkSize);
    chunks := region / o.chunkSize;
    if region % o.chunkSize != 0 { chunks := chunks + 1; }
  }

  /** How many chunks start in a region of this length. */
  function Count(region: int, chunkSize: int): nat
    requires 0 < chunkSize
    decreases region
  {
    if region <= 0 then 0 else 1 + Count(region - chunkSize, chunkSize)
  }

  function Chunks(o: Opts, size: nat): nat
    requires ValidOpts(o)
  {
    Count(Limit(o, size) - o.start, o.chunkSize)
  }

  lemma {:induction false} CountExact(region: int, chunkSize: int, c: nat)
    requires 0 < chunkSize
    ensures c < Count(region, chunkSize) <==> c * chunkSize < region
    decreases c
  {
    if region > 0 && c > 0 {
      CountExact(region - chunkSize, chunkSize, c - 1);
      assert c * chunkSize == (c - 1) * chunkSize + chunkSize;
    } else if c > 0 {
      MulMono(0, c, chunkSize);
    }
  }

  lemma OneMore(n: int, m: int)
    requires 0 < m
    ensures n / m == (n - m) / m + 1 && n % m == (n - m) % m
  {
    var q, r := (n - m) / m, (n - m) % m;
    assert n == (q + 1) * m + r;
    DivUnique(n, m, q + 1, r);
  }

  /** Division, rounded up. */
  lemma {:induction false} CountIsQuotient(region: int, chunkSize: int)
    requires 0 < chunkSize && 0 <= region
    ensures Count(region, chunkSize) == region / chunkSize + if region % chunkSize != 0 then 1 else 0
    decreases region
  {
    if region >= chunkSize {
      CountIsQuotient(region - chunkSize, chunkSize);
      OneMore(region, chunkSize);
    } else if region > 0 {
      DivUnique(region, chunkSize, 0, region);
    } else {
      DivUnique(region, chunkSize, 0, 0);
    }
  }

  /** End of a chunk, not past the end of the file or region. */
  function ChunkEnd(o: Opts, size: nat, chunk: int): int {
    Min(Min(ChunkOffset(o, chunk) + o.chunkSize, size), o.end)
  }

  /** The chunk a byte of the region lies in. */
  function ChunkOf(o: Opts, b: int): (c: int)
    requires ValidOpts(o)
    ensures o.start <= b ==> 0 <= c
  {
    (b - o.start) / o.chunkSize
  }

  /** Bytes of the region that lie in a chunk the options select. */
  predicate Affected(o: Opts, size: nat, b: int)
    requires ValidOpts(o)
  {
    o.start <= b < Limit(o, size) && ChunkOf(o, b) % o.mod == o.index
  }

  /** What the random number generator returns. */
  type Chance = r: real | 0.0 <= r < 1.0

  /** Whether each draw makes a loop over chunks skip one. */
  function Skipped(o: Opts, draws: seq<Chance>): (skips: seq<bool>)
    ensures |skips| == |draws|
  {
    seq(|draws|, k requires 0 <= k < |draws| => o.probability < draws[k])
  }

  /** Whether the k-th chunk visited is skipped; a run uses finitely many draws. */
  predicate Skips(skips: seq<bool>, k: nat) {
    k < |skips| && skips[k]
  }

  /** The chunk visited k-th is skipped when the k-th draw exceeds the probability. */
  lemma SkippedIff(o: Opts, draws: seq<Chance>, k: nat)
    ensures Skips(Skipped(o, draws), k) <==> k < |draws| && draws[k] > o.probability
  {
  }

  /** Below probability 1 any pattern of skips is possible, at 1 nothing is skipped. */
  lemma PossibleSkips(o: Opts, skips: seq<bool>)
    requires ValidOpts(o)
    ensures (exists draws :: Skipped(o, draws) == skips) <==>
            o.probability < 1.0 || forall k :: 0 <= k < |skips| ==> !skips[k]
  {
    if o.probability < 1.0 || forall k :: 0 <= k < |skips| ==> !skips[k] {
      var high: Chance := if o.probability < 1.0 then (o.probability + 1.0) / 2.0 else 0.0;
      var draws: seq<Chance> := seq(|skips|, k requires 0 <= k < |skips| => if skips[k] then high else 0.0);
      assert Skipped(o, draws) == skips;
    }
  }

  // ---------------------------------------------------------------- arithmetic

  lemma MulMono(a: int, b: int, m: nat)
    requires a <= b
    ensures a * m <= b * m
  {
  }

  lemma OffsetMono(o: Opts, c: int, d: int)
    requires ValidOpts(o) && c < d
    ensures ChunkOffset(o, c) + o.chunkSize <= ChunkOffset(o, d)
  {
    MulMono(c + 1, d, o.chunkSize);
    assert (c + 1) * o.chunkSize == c * o.chunkSize + o.chunkSize;
  }

  lemma DivUnique(n: int, m: int, q: int, r: int)
    requires 0 < m && 0 <= r < m && n == q * m + r
    ensures n / m == q && n % m == r
  {
    var d := n / m - q;
    assert d * m == r - n % m;
    MulMono(if d < 0 then d else 1, if d < 0 then -1 else if d > 0 then d else 1, m);
  }

  /** A byte lies in chunk c exactly when it lies between its offset and the next. */
  lemma ChunkOfIff(o: Opts, b: int, c: int)
    requires ValidOpts(o)
    ensures ChunkOf(o, b) == c <==> ChunkOffset(o, c) <= b < ChunkOffset(o, c) + o.chunkSize
  {
    var n := b - o.start;
    if ChunkOffset(o, c) <= b < ChunkOffset(o, c) + o.chunkSize {
      DivUnique(n, o.chunkSize, c, n - c * o.chunkSize);
    }
  }

  /** The chunks counted are exactly those that start inside the region and the file. */
  lemma ChunksExact(o: Opts, size: nat, c: nat)
    requires ValidOpts(o)
    ensures c < Chunks(o, size) <==> ChunkOffset(o, c) < Limit(o, size)
  {
    CountExact(Limit(o, size) - o.start, o.chunkSize, c);
  }

  /** Every selected chunk: what an affected byte's chunk can be, and what its bytes are. */
  lemma AffectedIff(o: Opts, size: nat, b: int)
    requires ValidOpts(o)
    ensures Affected(o, size, b) <==>
            var c := ChunkOf(o, b);
            0 <= c < Chunks(o, size) && c % o.mod == o.index && ChunkOffset(o, c) <= b < ChunkEnd(o, size, c)
  {
    var c := ChunkOf(o, b);
    ChunkOfIff(o, b, c);
    if c >= 0 {
      ChunksExact(o, size, c);
      MulMono(0, c, o.chunkSize);
    } else {
      MulMono(c, -1, o.chunkSize);
    }
  }

  /** Stepping by mod from index keeps selecting. */
  lemma StepSelects(o: Opts, c: int)
    requires ValidOpts(o) && c % o.mod == o.index
    ensures (c + o.mod) % o.mod == o.index
  {
    DivUnique(c + o.mod, o.mod, c / o.mod + 1, o.index);
  }

  lemma IndexSelects(o: Opts)
    requires ValidOpts(o)
    ensures o.index % o.mod == o.index
  {
    DivUnique(o.index, o.mod, 0, o.index);
  }

  /** Between one selected chunk and the next there is no other. */
  lemma NoneBetween(o: Opts, c: int, d: int)
    requires ValidOpts(o) && c % o.mod == o.index && d % o.mod == o.index && c < d
    ensures c + o.mod <= d
  {
    var k := d / o.mod - c / o.mod;
    assert d - c == k * o.mod;
    MulMono(if k < 1 then k else 1, if k < 1 then 0 else k, o.mod);
  }
}
