/**
 Overwriting selected chunks with other chunks of the same file, one after the other and in place.
 Unless every chunk is selected, that is the same as copying them all at once from the original.
 */
module ChunkCopy {
  import opened ChunkLayout

  // ---------------------------------------------------------------- choosing a source

  /** When the reroll loop stops. */
  predicate LegalSource(o: Opts, dest: int, chunk: int)
    requires ValidOpts(o)
  {
    if o.mod == 1 then chunk != dest else chunk % o.mod != o.index
  }

  /** With two or more chunks there is always one to copy from, even among the first two. */
  lemma LegalSourceExists(o: Opts, dest: int, count: nat) returns (chunk: nat)
    requires ValidOpts(o) && count >= 2
    ensures chunk < 2 && chunk < count && LegalSource(o, dest, chunk)
  {
    chunk := if o.mod == 1 then (if dest == 0 then 1 else 0) else if o.index == 0 then 1 else 0;
    if o.mod > 1 {
      DivUnique(chunk, o.mod, 0, chunk);
    }
  }

  /**
   The n-th random chunk number. A run that ends uses finitely many; past those given, the first
   two chunks come up in turn.
   */
  function Roll(rolls: seq<nat>, count: nat, n: nat): (chunk: nat)
    requires count >= 2
    ensures chunk < count
  {
    if n < |rolls| then rolls[n] % count else n % 2
  }

  /** From every point on, a legal chunk comes up. */
  lemma LegalComesUp(o: Opts, dest: int, count: nat, rolls: seq<nat>, from: nat) returns (n: nat)
    requires ValidOpts(o) && count >= 2
    ensures n >= from && LegalSource(o, dest, Roll(rolls, count, n))
  {
    var chunk := LegalSourceExists(o, dest, count);
    n := 2 * (|rolls| + from) + chunk;
  }

  /** A chunk to overwrite and the chunk to overwrite it with. */
  datatype Copy = Copy(dest: nat, source: nat)

  /** The source is the first legal one rolled from `from` on, and `next` is the roll after it. */
  ghost predicate FirstLegal(o: Opts, count: nat, c: Copy, rolls: seq<nat>, from: nat, next: nat)
    requires ValidOpts(o) && count >= 2
  {
    && from < next && c.source == Roll(rolls, count, next - 1) && LegalSource(o, c.dest, c.source)
    && forall n: nat :: from <= n < next - 1 ==> !LegalSource(o, c.dest, Roll(rolls, count, n))
  }

  /** Rerolls until the chunk is another one. */
  method RollOther(o: Opts, dest: nat, count: nat, rolls: seq<nat>, from: nat) returns (chunk: nat, next: nat)
    requires ValidOpts(o) && count >= 2 && o.mod == 1
    ensures chunk < count && FirstLegal(o, count, Copy(dest, chunk), rolls, from, next)
  {
    ghost var stop := LegalComesUp(o, dest, count, rolls, from);
    chunk, next := Roll(rolls, count, from), from + 1;
    SameOffset(o, chunk, dest);
    while ChunkOffset(o, chunk) == ChunkOffset(o, dest)
      invariant from < next <= stop + 1 && chunk == Roll(rolls, count, next - 1)
      invariant ChunkOffset(o, chunk) == ChunkOffset(o, dest) <==> chunk == dest
      invariant forall n: nat :: from <= n < next - 1 ==> Roll(rolls, count, n) == dest
      decreases stop + 1 - next
    {
      chunk, next := Roll(rolls, count, next), next + 1;
      SameOffset(o, chunk, dest);
    }
  }

  /** Rerolls until the chunk is not one of those selected. */
  method RollUnselected(o: Opts, dest: nat, count: nat, rolls: seq<nat>, from: nat) returns (chunk: nat, next: nat)
    requires ValidOpts(o) && count >= 2 && o.mod != 1
    ensures chunk < count && FirstLegal(o, count, Copy(dest, chunk), rolls, from, next)
  {
    ghost var stop := LegalComesUp(o, dest, count, rolls, from);
    chunk, next := Roll(rolls, count, from), from + 1;
    while chunk % o.mod == o.index
      invariant from < next <= stop + 1 && chunk == Roll(rolls, count, next - 1)
      invariant forall n: nat :: from <= n < next - 1 ==> !LegalSource(o, dest, Roll(rolls, count, n))
      decreases stop + 1 - next
    {
      chunk, next := Roll(rolls, count, next), next + 1;
    }
  }

  /**
   The offset of a source chunk, or -1 if there is none. The chunk is the first legal one rolled;
   `next` is the first unused roll.
   */
  method RandSourceOffset(o: Opts, dest: nat, size: nat, rolls: seq<nat>, from: nat)
    returns (offset: int, chunk: nat, next: nat)
    requires ValidOpts(o)
    ensures Chunks(o, size) < 2 ==> offset == -1 && next == from
    ensures Chunks(o, size) >= 2 ==>
              && 0 <= offset == ChunkOffset(o, chunk)
              && chunk < Chunks(o, size) && FirstLegal(o, Chunks(o, size), Copy(dest, chunk), rolls, from, next)
  {
    var count := ChunkCount(o, size);
    if count < 2 { return -1, 0, from; }
    if o.mod == 1 {
      chunk, next := RollOther(o, dest, count, rolls, from);
    } else {
      chunk, next := RollUnselected(o, dest, count, rolls, from);
    }
    offset := ChunkOffset(o, chunk);
    MulMono(0, chunk, o.chunkSize);
  }

  lemma SameOffset(o: Opts, c: int, d: int)
    requires ValidOpts(o)
    ensures ChunkOffset(o, c) == ChunkOffset(o, d) <==> c == d
  {
    if c < d {
      OffsetMono(o, c, d);
    } else if d < c {
      OffsetMono(o, d, c);
    }
  }

  // ---------------------------------------------------------------- copying

  /** How much is copied: the destination chunk, or less if the file ends in the source. */
  function CopyLength(o: Opts, size: nat, c: Copy): int {
    Min(ChunkEnd(o, size, c.dest) - ChunkOffset(o, c.dest), size - ChunkOffset(o, c.source))
  }

  predicate InBounds(o: Opts, size: nat, c: Copy)
    requires ValidOpts(o)
  {
    c.dest < Chunks(o, size) && c.source < Chunks(o, size)
  }

  lemma CopyFits(o: Opts, size: nat, c: Copy)
    requires ValidOpts(o) && InBounds(o, size, c)
    ensures 0 <= ChunkOffset(o, c.dest) && 0 <= ChunkOffset(o, c.source)
    ensures 0 < CopyLength(o, size, c) <= o.chunkSize
    ensures ChunkOffset(o, c.dest) + CopyLength(o, size, c) <= Limit(o, size)
    ensures ChunkOffset(o, c.source) + CopyLength(o, size, c) <= size
  {
    MulMono(0, c.dest, o.chunkSize);
    MulMono(0, c.source, o.chunkSize);
    ChunksExact(o, size, c.dest);
    ChunksExact(o, size, c.source);
  }

  /** n bytes read at one place and written at another. */
  function Spliced(f: seq<bv8>, from: nat, to: nat, n: nat): (g: seq<bv8>)
    requires from + n <= |f| && to + n <= |f|
    ensures |g| == |f|
  {
    f[..to] + f[from..from + n] + f[to + n..]
  }

  /** One copy, reading and writing the same file. */
  function CopyOne(o: Opts, f: seq<bv8>, c: Copy): (g: seq<bv8>)
    requires ValidOpts(o) && InBounds(o, |f|, c)
    ensures |g| == |f|
  {
    CopyFits(o, |f|, c);
    Spliced(f, ChunkOffset(o, c.source), ChunkOffset(o, c.dest), CopyLength(o, |f|, c))
  }

  predicate AllInBounds(o: Opts, size: nat, plan: seq<Copy>)
    requires ValidOpts(o)
  {
    forall i :: 0 <= i < |plan| ==> InBounds(o, size, plan[i])
  }

  /** The copies one after the other, each seeing what the earlier ones wrote. */
  function CopyAll(o: Opts, f: seq<bv8>, plan: seq<Copy>): (g: seq<bv8>)
    requires ValidOpts(o) && AllInBounds(o, |f|, plan)
    ensures |g| == |f|
  {
    if plan == [] then f else CopyOne(o, CopyAll(o, f, plan[..|plan| - 1]), plan[|plan| - 1])
  }

  /** A selected destination and a legal source. */
  predicate Legal(o: Opts, c: Copy)
    requires ValidOpts(o)
  {
    c.dest % o.mod == o.index && LegalSource(o, c.dest, c.source)
  }

  /** Every copy overwrites an earlier chunk than this one. */
  ghost predicate Below(plan: seq<Copy>, chunk: int) {
    forall i :: 0 <= i < |plan| ==> plan[i].dest < chunk
  }

  /** What a run may decide: ascending selected destinations, each with a legal source. */
  ghost predicate LegalPlan(o: Opts, size: nat, plan: seq<Copy>)
    requires ValidOpts(o)
  {
    AllInBounds(o, size, plan) && LegalInOrder(o, plan)
  }

  ghost predicate LegalInOrder(o: Opts, plan: seq<Copy>)
    requires ValidOpts(o)
  {
    plan != [] ==>
      var before, c := plan[..|plan| - 1], plan[|plan| - 1];
      LegalInOrder(o, before) && Below(before, c.dest) && Legal(o, c)
  }

  lemma {:induction false} LegalPrefix(o: Opts, size: nat, plan: seq<Copy>, n: nat)
    requires ValidOpts(o) && LegalPlan(o, size, plan) && n <= |plan|
    ensures LegalPlan(o, size, plan[..n])
  {
    if n < |plan| {
      var before := plan[..|plan| - 1];
      LegalPrefix(o, size, before, n);
      assert before[..n] == plan[..n];
    } else {
      assert plan[..n] == plan;
    }
  }

  /** Byte b is written by this copy. */
  ghost predicate Writes(o: Opts, size: nat, c: Copy, b: int) {
    ChunkOffset(o, c.dest) <= b < ChunkOffset(o, c.dest) + CopyLength(o, size, c)
  }

  function Moved(o: Opts, c: Copy, b: int): int {
    ChunkOffset(o, c.source) + (b - ChunkOffset(o, c.dest))
  }

  /** Where byte b comes from when all copies are made at once. */
  ghost function Origin(o: Opts, size: nat, plan: seq<Copy>, b: int): int {
    if plan == [] then b
    else
      var c := plan[|plan| - 1];
      if Writes(o, size, c, b) then Moved(o, c, b) else Origin(o, size, plan[..|plan| - 1], b)
  }

  /** All copies made at once from f: each byte is the original's at its origin. */
  ghost predicate IsSimultaneous(o: Opts, f: seq<bv8>, g: seq<bv8>, plan: seq<Copy>) {
    && |g| == |f|
    && forall b :: 0 <= b < |g| ==> 0 <= Origin(o, |f|, plan, b) < |f| && g[b] == f[Origin(o, |f|, plan, b)]
  }

  lemma CopyOneAt(o: Opts, f: seq<bv8>, c: Copy, b: int)
    requires ValidOpts(o) && InBounds(o, |f|, c) && 0 <= b < |f|
    ensures Writes(o, |f|, c, b) ==> 0 <= Moved(o, c, b) < |f| && CopyOne(o, f, c)[b] == f[Moved(o, c, b)]
    ensures !Writes(o, |f|, c, b) ==> CopyOne(o, f, c)[b] == f[b]
  {
    CopyFits(o, |f|, c);
  }

  /** Different chunks do not share bytes. */
  lemma ChunksDisjoint(o: Opts, c: nat, d: nat, x: int, y: int)
    requires ValidOpts(o) && c != d
    requires ChunkOffset(o, c) <= x < ChunkOffset(o, c) + o.chunkSize
    requires ChunkOffset(o, d) <= y < ChunkOffset(o, d) + o.chunkSize
    ensures x != y
  {
    if c < d { OffsetMono(o, c, d); } else { OffsetMono(o, d, c); }
  }

  /** Source and destination of a legal copy never overlap. */
  lemma SourceApart(o: Opts, size: nat, c: Copy, b: int, b': int)
    requires ValidOpts(o) && InBounds(o, size, c)
    requires Legal(o, c)
    ensures Writes(o, size, c, b) && Writes(o, size, c, b') ==> b != Moved(o, c, b')
  {
    if Writes(o, size, c, b) && Writes(o, size, c, b') {
      CopyFits(o, size, c);
      ChunksDisjoint(o, c.dest, c.source, b, Moved(o, c, b'));
    }
  }

  lemma CopyAllSnoc(o: Opts, f: seq<bv8>, plan: seq<Copy>, c: Copy)
    requires ValidOpts(o) && AllInBounds(o, |f|, plan) && InBounds(o, |f|, c)
    ensures AllInBounds(o, |f|, plan + [c])
    ensures CopyAll(o, f, plan + [c]) == CopyOne(o, CopyAll(o, f, plan), c)
  {
    assert (plan + [c])[..|plan|] == plan;
  }

  /** No copy writes where a later one reads. */
  lemma {:induction false} SourceUntouched(o: Opts, size: nat, plan: seq<Copy>, c: Copy, m: int)
    requires ValidOpts(o) && o.mod >= 2 && LegalPlan(o, size, plan)
    requires c.source % o.mod != o.index
    requires ChunkOffset(o, c.source) <= m < ChunkOffset(o, c.source) + o.chunkSize
    ensures Origin(o, size, plan, m) == m
  {
    if plan != [] {
      var d := plan[|plan| - 1];
      SourceUntouched(o, size, plan[..|plan| - 1], c, m);
      CopyFits(o, size, d);
      if d.dest < c.source { OffsetMono(o, d.dest, c.source); } else { OffsetMono(o, c.source, d.dest); }
    }
  }

  /** Copying chunk after chunk in place is copying them all at once from the original. */
  lemma {:induction false} CopyAllIsSimultaneous(o: Opts, f: seq<bv8>, plan: seq<Copy>)
    requires ValidOpts(o) && o.mod >= 2 && LegalPlan(o, |f|, plan)
    ensures IsSimultaneous(o, f, CopyAll(o, f, plan), plan)
  {
    if plan != [] {
      var most, c := plan[..|plan| - 1], plan[|plan| - 1];
      CopyAllIsSimultaneous(o, f, most);
      var h := CopyAll(o, f, most);
      CopyFits(o, |f|, c);
      forall b | 0 <= b < |f|
        ensures 0 <= Origin(o, |f|, plan, b) < |f| && CopyOne(o, h, c)[b] == f[Origin(o, |f|, plan, b)]
      {
        CopyOneAt(o, h, c, b);
        if Writes(o, |f|, c, b) {
          SourceUntouched(o, |f|, most, c, Moved(o, c, b));
        }
      }
    }
  }

  // ---------------------------------------------------------------- what a run decides

  /** `done`, then every mod-th of `count` chunks from c on that is not skipped. */
  function Chosen(mod: nat, count: nat, skips: seq<bool>, c: nat, tick: nat, done: seq<nat>): seq<nat>
    requires mod > 0
    decreases count - c
  {
    if c >= count then done
    else Chosen(mod, count, skips, c + mod, tick + 1, Added(done, Skips(skips, tick), c))
  }

  function Added(done: seq<nat>, skip: bool, c: nat): seq<nat> {
    if skip then done else done + [c]
  }

  function Dests(plan: seq<Copy>): (ds: seq<nat>)
    ensures |ds| == |plan|
  {
    if plan == [] then [] else Dests(plan[..|plan| - 1]) + [plan[|plan| - 1].dest]
  }

  /** The sources are the successive first legal rolls, and `next` is the first unused roll. */
  ghost predicate Rolled(o: Opts, count: nat, plan: seq<Copy>, rolls: seq<nat>, next: nat)
    requires ValidOpts(o)
    decreases |plan|, 1
  {
    if plan == [] then next == 0
    else count >= 2 && exists from: nat :: RolledLast(o, count, plan, rolls, from, next)
  }

  ghost predicate RolledLast(o: Opts, count: nat, plan: seq<Copy>, rolls: seq<nat>, from: nat, next: nat)
    requires ValidOpts(o) && count >= 2 && plan != []
    decreases |plan|, 0
  {
    FirstLegal(o, count, plan[|plan| - 1], rolls, from, next) && Rolled(o, count, plan[..|plan| - 1], rolls, from)
  }

  lemma RolledSnoc(o: Opts, count: nat, plan: seq<Copy>, c: Copy, rolls: seq<nat>, from: nat, next: nat)
    requires ValidOpts(o) && count >= 2 && Rolled(o, count, plan, rolls, from) && FirstLegal(o, count, c, rolls, from, next)
    ensures Rolled(o, count, plan + [c], rolls, next)
  {
    assert (plan + [c])[..|plan|] == plan;
    assert RolledLast(o, count, plan + [c], rolls, from, next);
  }

  /** The rolls leave no choice. */
  lemma {:induction false} RolledUnique(o: Opts, count: nat, rolls: seq<nat>, p: seq<Copy>, m: nat, q: seq<Copy>, n: nat)
    requires ValidOpts(o) && Rolled(o, count, p, rolls, m) && Rolled(o, count, q, rolls, n) && Dests(p) == Dests(q)
    ensures p == q && m == n
  {
    if p != [] {
      var l := |p| - 1;
      var from :| RolledLast(o, count, p, rolls, from, m);
      var from' :| RolledLast(o, count, q, rolls, from', n);
      assert Dests(p)[..l] == Dests(p[..l]) && Dests(q)[..l] == Dests(q[..l]);
      RolledUnique(o, count, rolls, p[..l], from, q[..l], from');
      assert p[l].dest == Dests(p)[l] == q[l].dest;
      assert m == n;
      assert p == p[..l] + [p[l]] && q == q[..l] + [q[l]];
    }
  }

  /** The chunks a run overwrites, given which ones it skips. */
  function ToCopy(o: Opts, size: nat, draws: seq<Chance>): seq<nat>
    requires ValidOpts(o)
  {
    if Chunks(o, size) < 2 then [] else Chosen(o.mod, Chunks(o, size), Skipped(o, draws), o.index, 0, [])
  }

  /** The plan is what a run with these draws and rolls carries out. */
  ghost predicate Runs(o: Opts, size: nat, draws: seq<Chance>, rolls: seq<nat>, plan: seq<Copy>)
    requires ValidOpts(o)
  {
    && LegalPlan(o, size, plan)
    && Dests(plan) == ToCopy(o, size, draws)
    && exists next :: Rolled(o, Chunks(o, size), plan, rolls, next)
  }

  /** Draws and rolls determine what a run carries out. */
  lemma RunsUnique(o: Opts, size: nat, draws: seq<Chance>, rolls: seq<nat>, p: seq<Copy>, q: seq<Copy>)
    requires ValidOpts(o) && Runs(o, size, draws, rolls, p) && Runs(o, size, draws, rolls, q)
    ensures p == q
  {
    var m :| Rolled(o, Chunks(o, size), p, rolls, m);
    var n :| Rolled(o, Chunks(o, size), q, rolls, n);
    RolledUnique(o, Chunks(o, size), rolls, p, m, q, n);
  }

  // ---------------------------------------------------------------- the loop over chunks

  method CopyFileRange(file: array<bv8>, from: nat, to: nat, n: nat)
    requires from + n <= file.Length && to + n <= file.Length
    modifies file
    ensures file[..] == Spliced(old(file[..]), from, to, n)
  {
    forall i | 0 <= i < n { file[to + i] := file[from + i]; }
  }

  /** Copies one chunk over another. */
  method CopyChunk(o: Opts, file: array<bv8>, c: Copy)
    requires ValidOpts(o) && InBounds(o, file.Length, c)
    modifies file
    ensures file[..] == CopyOne(o, old(file[..]), c)
  {
    var size := file.Length;
    var start, sourceOffset := ChunkOffset(o, c.dest), ChunkOffset(o, c.source);
    var end := start + o.chunkSize;
    if size < end { end := size; }
    if o.end < end { end := o.end; }
    var length := Min(end - start, size - sourceOffset);
    assert length == CopyLength(o, size, c);
    CopyFits(o, size, c);
    CopyFileRange(file, sourceOffset, start, length);
  }

  lemma DestsSnoc(plan: seq<Copy>, c: Copy)
    ensures Dests(plan + [c]) == Dests(plan) + [c.dest]
  {
    assert (plan + [c])[..|plan|] == plan;
  }

  lemma BelowSnoc(plan: seq<Copy>, c: Copy, mod: nat)
    requires Below(plan, c.dest) && mod > 0
    ensures Below(plan + [c], c.dest + mod)
  {
  }

  lemma LegalSnoc(o: Opts, size: nat, plan: seq<Copy>, c: Copy)
    requires ValidOpts(o) && LegalPlan(o, size, plan) && InBounds(o, size, c) && Legal(o, c)
    requires Below(plan, c.dest)
    ensures LegalPlan(o, size, plan + [c]) && Below(plan + [c], c.dest + o.mod)
    ensures Dests(plan + [c]) == Dests(plan) + [c.dest]
  {
    assert (plan + [c])[..|plan|] == plan;
    BelowSnoc(plan, c, o.mod);
    DestsSnoc(plan, c);
  }

  /** The file is what the plan makes of the original, and the plan is legal and below `chunk`. */
  ghost predicate Done(o: Opts, was: seq<bv8>, now: seq<bv8>, plan: seq<Copy>, chunk: int)
    requires ValidOpts(o)
  {
    LegalPlan(o, |was|, plan) && Below(plan, chunk) && now == CopyAll(o, was, plan)
  }

  lemma DoneNext(o: Opts, was: seq<bv8>, now: seq<bv8>, plan: seq<Copy>, c: Copy)
    requires ValidOpts(o) && Done(o, was, now, plan, c.dest) && InBounds(o, |was|, c)
    requires Legal(o, c)
    ensures Done(o, was, CopyOne(o, now, c), plan + [c], c.dest + o.mod)
    ensures Dests(plan + [c]) == Dests(plan) + [c.dest]
  {
    LegalSnoc(o, |was|, plan, c);
    CopyAllSnoc(o, was, plan, c);
  }

  lemma ChosenStep(mod: nat, count: nat, skips: seq<bool>, c: nat, tick: nat, done: seq<nat>)
    requires mod > 0 && c < count
    ensures Chosen(mod, count, skips, c, tick, done) ==
            Chosen(mod, count, skips, c + mod, tick + 1, Added(done, Skips(skips, tick), c))
  {
  }

  /** What the loop has decided and done so far: the copies, the next roll to use, the file. */
  datatype Progress = Progress(plan: seq<Copy>, roll: nat, now: seq<bv8>)

  /** One iteration: the chunk is skipped, or has no source, or is overwritten. */
  ghost predicate Steps(o: Opts, skip: bool, rolls: seq<nat>, chunk: int, p: Progress, q: Progress)
    requires ValidOpts(o)
  {
    if skip || Chunks(o, |p.now|) < 2 then q == p
    else exists c :: Copies(o, rolls, chunk, p, c, q)
  }

  ghost predicate Copies(o: Opts, rolls: seq<nat>, chunk: int, p: Progress, c: Copy, q: Progress)
    requires ValidOpts(o)
  {
    && Chunks(o, |p.now|) >= 2
    && c.dest == chunk && InBounds(o, |p.now|, c) && FirstLegal(o, Chunks(o, |p.now|), c, rolls, p.roll, q.roll)
    && q.plan == p.plan + [c] && q.now == CopyOne(o, p.now, c)
  }

  /** The loop gets to this chunk and this progress in `tick` iterations. */
  ghost predicate Gets(o: Opts, was: seq<bv8>, skips: seq<bool>, rolls: seq<nat>, tick: nat, chunk: int, q: Progress)
    requires ValidOpts(o)
    decreases tick, 1
  {
    if tick == 0 then chunk == o.index && q == Progress([], 0, was)
    else exists p :: GetsFrom(o, was, skips, rolls, tick, chunk, p, q)
  }

  ghost predicate GetsFrom(o: Opts, was: seq<bv8>, skips: seq<bool>, rolls: seq<nat>, tick: nat, chunk: int, p: Progress, q: Progress)
    requires ValidOpts(o) && tick > 0
    decreases tick, 0
  {
    && Gets(o, was, skips, rolls, tick - 1, chunk - o.mod, p)
    && chunk - o.mod < Chunks(o, |was|)
    && Steps(o, Skips(skips, tick - 1), rolls, chunk - o.mod, p, q)
  }

  lemma GetsNext(o: Opts, was: seq<bv8>, skips: seq<bool>, rolls: seq<nat>, tick: nat, chunk: int, p: Progress, q: Progress)
    requires ValidOpts(o) && Gets(o, was, skips, rolls, tick, chunk, p) && chunk < Chunks(o, |was|)
    requires Steps(o, Skips(skips, tick), rolls, chunk, p, q)
    ensures Gets(o, was, skips, rolls, tick + 1, chunk + o.mod, q)
  {
    assert GetsFrom(o, was, skips, rolls, tick + 1, chunk + o.mod, p, q);
  }

  /** What is done stays done when nothing more is. */
  lemma DoneStays(o: Opts, was: seq<bv8>, p: Progress, d: int)
    requires ValidOpts(o) && Done(o, was, p.now, p.plan, d)
    ensures Done(o, was, p.now, p.plan, d + o.mod)
  {
  }

  lemma Advance(o: Opts, was: seq<bv8>, skip: bool, rolls: seq<nat>, d: nat, p: Progress, q: Progress)
    requires ValidOpts(o) && |p.now| == |was| && d % o.mod == o.index
    requires Done(o, was, p.now, p.plan, d) && Rolled(o, Chunks(o, |was|), p.plan, rolls, p.roll)
    requires Steps(o, skip, rolls, d, p, q)
    ensures Done(o, was, q.now, q.plan, d + o.mod) && Rolled(o, Chunks(o, |was|), q.plan, rolls, q.roll)
  {
    if skip || Chunks(o, |was|) < 2 {
      DoneStays(o, was, p, d);
    } else {
      var c :| Copies(o, rolls, d, p, c, q);
      DoneNext(o, was, p.now, p.plan, c);
      RolledSnoc(o, Chunks(o, |was|), p.plan, c, rolls, p.roll, q.roll);
    }
  }

  lemma StepDests(o: Opts, skip: bool, rolls: seq<nat>, d: nat, p: Progress, q: Progress)
    requires ValidOpts(o) && Steps(o, skip, rolls, d, p, q)
    ensures Dests(q.plan) == Added(Dests(p.plan), skip || Chunks(o, |p.now|) < 2, d)
  {
    if !skip && Chunks(o, |p.now|) >= 2 {
      var c :| Copies(o, rolls, d, p, c, q);
      DestsSnoc(p.plan, c);
    }
  }

  lemma {:induction false} AtChunk(o: Opts, was: seq<bv8>, skips: seq<bool>, rolls: seq<nat>, tick: nat, chunk: int, q: Progress)
    requires ValidOpts(o) && Gets(o, was, skips, rolls, tick, chunk, q)
    ensures chunk >= 0 && chunk % o.mod == o.index && |q.now| == |was|
    decreases tick
  {
    if tick == 0 {
      IndexSelects(o);
    } else {
      var p :| GetsFrom(o, was, skips, rolls, tick, chunk, p, q);
      AtChunk(o, was, skips, rolls, tick - 1, chunk - o.mod, p);
      StepSelects(o, chunk - o.mod);
    }
  }

  /** What the iterations up to the last amount to, with the last. */
  lemma AdvanceTo(o: Opts, was: seq<bv8>, skips: seq<bool>, rolls: seq<nat>, tick: nat, chunk: int, p: Progress, q: Progress)
    requires ValidOpts(o) && tick > 0 && GetsFrom(o, was, skips, rolls, tick, chunk, p, q)
    requires Done(o, was, p.now, p.plan, chunk - o.mod) && Rolled(o, Chunks(o, |was|), p.plan, rolls, p.roll)
    ensures Done(o, was, q.now, q.plan, chunk) && Rolled(o, Chunks(o, |was|), q.plan, rolls, q.roll)
  {
    AtChunk(o, was, skips, rolls, tick - 1, chunk - o.mod, p);
    Advance(o, was, Skips(skips, tick - 1), rolls, chunk - o.mod, p, q);
  }

  /** What the iterations so far amount to. */
  lemma {:induction false} Accomplished(o: Opts, was: seq<bv8>, skips: seq<bool>, rolls: seq<nat>, tick: nat, chunk: int, q: Progress)
    requires ValidOpts(o) && Gets(o, was, skips, rolls, tick, chunk, q)
    ensures Done(o, was, q.now, q.plan, chunk) && Rolled(o, Chunks(o, |was|), q.plan, rolls, q.roll)
    decreases tick
  {
    if tick > 0 {
      var p :| GetsFrom(o, was, skips, rolls, tick, chunk, p, q);
      Accomplished(o, was, skips, rolls, tick - 1, chunk - o.mod, p);
      AdvanceTo(o, was, skips, rolls, tick, chunk, p, q);
    }
  }

  /** The last iteration copies its chunk, unless that is skipped or has no source. */
  lemma LastDests(o: Opts, was: seq<bv8>, skips: seq<bool>, rolls: seq<nat>, tick: nat, chunk: int, p: Progress, q: Progress)
    requires ValidOpts(o) && tick > 0 && GetsFrom(o, was, skips, rolls, tick, chunk, p, q)
    ensures 0 <= chunk - o.mod < Chunks(o, |was|)
    ensures Dests(q.plan) == Added(Dests(p.plan), Skips(skips, tick - 1) || Chunks(o, |was|) < 2, chunk - o.mod)
  {
    AtChunk(o, was, skips, rolls, tick - 1, chunk - o.mod, p);
    StepDests(o, Skips(skips, tick - 1), rolls, chunk - o.mod, p, q);
  }

  lemma {:induction false} NothingCopied(o: Opts, was: seq<bv8>, skips: seq<bool>, rolls: seq<nat>, tick: nat, chunk: int, q: Progress)
    requires ValidOpts(o) && Gets(o, was, skips, rolls, tick, chunk, q) && Chunks(o, |was|) < 2
    ensures Dests(q.plan) == []
    decreases tick
  {
    if tick > 0 {
      var p :| GetsFrom(o, was, skips, rolls, tick, chunk, p, q);
      NothingCopied(o, was, skips, rolls, tick - 1, chunk - o.mod, p);
      LastDests(o, was, skips, rolls, tick, chunk, p, q);
    }
  }

  /** The chunks copied so far, with those still to be, are those to copy. */
  ghost predicate OnCourse(o: Opts, count: nat, skips: seq<bool>, tick: nat, chunk: int, plan: seq<Copy>)
    requires ValidOpts(o)
  {
    chunk >= 0 && Chosen(o.mod, count, skips, chunk, tick, Dests(plan)) == Chosen(o.mod, count, skips, o.index, 0, [])
  }

  lemma KeepsCourse(o: Opts, count: nat, skips: seq<bool>, tick: nat, chunk: int, plan: seq<Copy>, plan': seq<Copy>)
    requires ValidOpts(o) && tick > 0 && 0 <= chunk - o.mod < count
    requires OnCourse(o, count, skips, tick - 1, chunk - o.mod, plan)
    requires Dests(plan') == Added(Dests(plan), Skips(skips, tick - 1), chunk - o.mod)
    ensures OnCourse(o, count, skips, tick, chunk, plan')
  {
    ChosenStep(o.mod, count, skips, chunk - o.mod, tick - 1, Dests(plan));
  }

  lemma {:induction false} AlwaysOnCourse(o: Opts, was: seq<bv8>, skips: seq<bool>, rolls: seq<nat>, tick: nat, chunk: int, q: Progress)
    requires ValidOpts(o) && Gets(o, was, skips, rolls, tick, chunk, q) && Chunks(o, |was|) >= 2
    ensures OnCourse(o, Chunks(o, |was|), skips, tick, chunk, q.plan)
    decreases tick
  {
    if tick > 0 {
      var p :| GetsFrom(o, was, skips, rolls, tick, chunk, p, q);
      AlwaysOnCourse(o, was, skips, rolls, tick - 1, chunk - o.mod, p);
      LastDests(o, was, skips, rolls, tick, chunk, p, q);
      KeepsCourse(o, Chunks(o, |was|), skips, tick, chunk, p.plan, q.plan);
    }
  }

  /** Overwrites a chunk with a random legal one, unless it is skipped or there is none. */
  method CopyOver(o: Opts, file: array<bv8>, skip: bool, rolls: seq<nat>, chunk: nat, plan: seq<Copy>, from: nat)
    returns (plan': seq<Copy>, next: nat)
    requires ValidOpts(o) && chunk < Chunks(o, file.Length)
    modifies file
    ensures Steps(o, skip, rolls, chunk, Progress(plan, from, old(file[..])), Progress(plan', next, file[..]))
  {
    plan', next := plan, from;
    if skip { return; }
    var sourceOffset, source;
    sourceOffset, source, next := RandSourceOffset(o, chunk, file.Length, rolls, from);
    if 0 <= sourceOffset {
      var c := Copy(chunk, source);
      CopyChunk(o, file, c);
      plan' := plan + [c];
      assert Copies(o, rolls, chunk, Progress(plan, from, old(file[..])), c, Progress(plan', next, file[..]));
    }
  }

  /** A loop that ran to the end has carried out a plan. */
  lemma Finished(o: Opts, was: seq<bv8>, draws: seq<Chance>, rolls: seq<nat>, tick: nat, chunk: int, q: Progress)
    requires ValidOpts(o) && Gets(o, was, Skipped(o, draws), rolls, tick, chunk, q) && Chunks(o, |was|) <= chunk
    ensures Runs(o, |was|, draws, rolls, q.plan) && q.now == CopyAll(o, was, q.plan)
  {
    Accomplished(o, was, Skipped(o, draws), rolls, tick, chunk, q);
    if Chunks(o, |was|) < 2 {
      NothingCopied(o, was, Skipped(o, draws), rolls, tick, chunk, q);
    } else {
      AlwaysOnCourse(o, was, Skipped(o, draws), rolls, tick, chunk, q);
    }
  }

  /** The loop, given which of the chunks it visits are skipped. */
  method CopySelected(o: Opts, file: array<bv8>, skips: seq<bool>, rolls: seq<nat>)
    returns (plan: seq<Copy>, roll: nat, tick: nat, chunk: nat)
    requires ValidOpts(o)
    modifies file
    ensures Chunks(o, file.Length) <= chunk
    ensures Gets(o, old(file[..]), skips, rolls, tick, chunk, Progress(plan, roll, file[..]))
  {
    var count := ChunkCount(o, file.Length);
    plan, roll, tick, chunk := [], 0, 0, o.index;
    ghost var was, p := file[..], Progress(plan, roll, file[..]);
    while chunk < count
      invariant p == Progress(plan, roll, file[..])
      invariant Gets(o, was, skips, rolls, tick, chunk, p)
      decreases count - chunk
    {
      plan, roll := CopyOver(o, file, Skips(skips, tick), rolls, chunk, plan, roll);
      ghost var q := Progress(plan, roll, file[..]);
      GetsNext(o, was, skips, rolls, tick, chunk, p, q);
      chunk, tick, p := chunk + o.mod, tick + 1, q;
    }
  }

  /** Overwrites each selected chunk that is not skipped, if there is any other chunk to copy from. */
  method CorruptCopy(o: Opts, file: array<bv8>, draws: seq<Chance>, rolls: seq<nat>) returns (plan: seq<Copy>)
    requires ValidOpts(o)
    modifies file
    ensures Runs(o, file.Length, draws, rolls, plan)
    ensures file[..] == CopyAll(o, old(file[..]), plan)
  {
    var roll, tick, chunk;
    plan, roll, tick, chunk := CopySelected(o, file, Skipped(o, draws), rolls);
    Finished(o, old(file[..]), draws, rolls, tick, chunk, Progress(plan, roll, file[..]));
  }

  // ---------------------------------------------------------------- exactly when the order is irrelevant

  /** For this run on this file, copying in order is copying at once. */
  ghost predicate AsIfAtOnce(o: Opts, f: seq<bv8>, draws: seq<Chance>, rolls: seq<nat>, plan: seq<Copy>)
    requires ValidOpts(o)
  {
    Runs(o, |f|, draws, rolls, plan) ==> IsSimultaneous(o, f, CopyAll(o, f, plan), plan)
  }

  /** For every run on every file of this size. */
  ghost predicate OrderIrrelevant(o: Opts, size: nat)
    requires ValidOpts(o)
  {
    forall f: seq<bv8>, draws: seq<Chance>, rolls: seq<nat>, plan: seq<Copy> ::
      |f| == size ==> AsIfAtOnce(o, f, draws, rolls, plan)
  }

  /** Rolling a legal plan's sources one by one makes the run follow it. */
  lemma {:induction false} RollsFor(o: Opts, size: nat, plan: seq<Copy>, rolls: seq<nat>, n: nat)
    requires ValidOpts(o) && LegalPlan(o, size, plan) && Chunks(o, size) >= 2 && n <= |plan| == |rolls|
    requires forall i :: 0 <= i < |plan| ==> rolls[i] == plan[i].source
    ensures Rolled(o, Chunks(o, size), plan[..n], rolls, n)
  {
    if n > 0 {
      RollsFor(o, size, plan, rolls, n - 1);
      var c := plan[n - 1];
      LegalPrefix(o, size, plan, n);
      assert plan[..n][n - 1] == c && Legal(o, c) && InBounds(o, size, c);
      DivUnique(c.source, Chunks(o, size), 0, c.source);
      assert Roll(rolls, Chunks(o, size), n - 1) == c.source;
      assert FirstLegal(o, Chunks(o, size), c, rolls, n - 1, n);
      RolledSnoc(o, Chunks(o, size), plan[..n - 1], c, rolls, n - 1, n);
      assert plan[..n - 1] + [c] == plan[..n];
    }
  }

  /** Every legal plan for the chunks to copy is one that some rolls lead to. */
  lemma PossiblePlans(o: Opts, size: nat, draws: seq<Chance>, plan: seq<Copy>) returns (rolls: seq<nat>)
    requires ValidOpts(o) && LegalPlan(o, size, plan) && Dests(plan) == ToCopy(o, size, draws)
    ensures Runs(o, size, draws, rolls, plan)
  {
    rolls := seq(|plan|, i requires 0 <= i < |plan| => plan[i].source);
    if Chunks(o, size) >= 2 {
      RollsFor(o, size, plan, rolls, |plan|);
      assert plan[..|plan|] == plan;
    } else {
      assert Rolled(o, Chunks(o, size), [], rolls, 0);
    }
  }

  /** The first two of n chunks onto each other, the first onto every other. */
  function Swap(n: nat): (plan: seq<Copy>)
    ensures |plan| == n
  {
    if n == 0 then [] else Swap(n - 1) + [Copy(n - 1, if n == 1 then 1 else 0)]
  }

  lemma {:induction false} SwapIsLegal(o: Opts, size: nat, n: nat)
    requires ValidOpts(o) && o.mod == 1 && 2 <= Chunks(o, size) && n <= Chunks(o, size)
    ensures LegalPlan(o, size, Swap(n)) && Below(Swap(n), n)
  {
    if n > 0 {
      SwapIsLegal(o, size, n - 1);
      LegalSnoc(o, size, Swap(n - 1), Copy(n - 1, if n == 1 then 1 else 0));
    }
  }

  /** Nothing is skipped in it. */
  lemma {:induction false} SwapIsWhole(count: nat, c: nat)
    requires c <= count
    ensures Chosen(1, count, [], c, c, Dests(Swap(c))) == Dests(Swap(count))
    decreases count - c
  {
    if c < count {
      SwapIsWhole(count, c + 1);
      assert Swap(c + 1)[..c] == Swap(c);
    }
  }

  /** Later copies leave the second chunk alone. */
  lemma SwapElsewhere(o: Opts, size: nat, n: nat)
    requires ValidOpts(o) && 2 < n <= Chunks(o, size)
    ensures !Writes(o, size, Copy(n - 1, 0), ChunkOffset(o, 1))
  {
    OffsetMono(o, 1, n - 1);
  }

  /** One after the other, the first byte of the second chunk comes back to itself. */
  lemma {:induction false} SwapInOrder(o: Opts, f: seq<bv8>, n: nat)
    requires ValidOpts(o) && 2 <= n <= Chunks(o, |f|) && AllInBounds(o, |f|, Swap(n))
    ensures 0 <= ChunkOffset(o, 0) < ChunkOffset(o, 1) < |f|
    ensures CopyAll(o, f, Swap(n))[ChunkOffset(o, 1)] == f[ChunkOffset(o, 1)]
  {
    var before, c := Swap(n - 1), Swap(n)[n - 1];
    assert Swap(n)[..n - 1] == before;
    assert InBounds(o, |f|, c);
    OffsetMono(o, 0, 1);
    ChunksExact(o, |f|, 1);
    var h := CopyAll(o, f, before);
    CopyOneAt(o, h, c, ChunkOffset(o, 1));
    if n == 2 {
      assert before == [Copy(0, 1)] && before[..0] == [];
      assert CopyAll(o, f, []) == f;
      ThereAndBack(o, f);
    } else {
      SwapInOrder(o, f, n - 1);
      SwapElsewhere(o, |f|, n);
    }
  }

  /** The second chunk onto the first, then the first onto the second. */
  lemma ThereAndBack(o: Opts, f: seq<bv8>)
    requires ValidOpts(o) && 2 <= Chunks(o, |f|) && 0 <= ChunkOffset(o, 1) < |f|
    ensures CopyOne(o, CopyOne(o, f, Copy(0, 1)), Copy(1, 0))[ChunkOffset(o, 1)] == f[ChunkOffset(o, 1)]
  {
    CopyFits(o, |f|, Copy(0, 1));
    CopyFits(o, |f|, Copy(1, 0));
    CopyOneAt(o, f, Copy(0, 1), ChunkOffset(o, 0));
    CopyOneAt(o, CopyOne(o, f, Copy(0, 1)), Copy(1, 0), ChunkOffset(o, 1));
  }

  /** At once, it is the first byte of the first chunk. */
  lemma {:induction false} SwapAtOnce(o: Opts, size: nat, n: nat)
    requires ValidOpts(o) && 2 <= n <= Chunks(o, size)
    ensures Origin(o, size, Swap(n), ChunkOffset(o, 1)) == ChunkOffset(o, 0)
  {
    assert Swap(n)[..n - 1] == Swap(n - 1);
    if n == 2 {
      CopyFits(o, size, Copy(1, 0));
    } else {
      SwapElsewhere(o, size, n);
      SwapAtOnce(o, size, n - 1);
    }
  }

  /** Without skips, the plan that copies the first two chunks onto each other is a run's. */
  lemma SwapRuns(o: Opts, size: nat) returns (rolls: seq<nat>)
    requires ValidOpts(o) && o.mod == 1 && Chunks(o, size) >= 2
    ensures Runs(o, size, [], rolls, Swap(Chunks(o, size)))
  {
    SwapIsLegal(o, size, Chunks(o, size));
    SwapIsWhole(Chunks(o, size), 0);
    assert Skipped(o, []) == [];
    rolls := PossiblePlans(o, size, [], Swap(Chunks(o, size)));
  }

  lemma SwapDiffers(o: Opts, f: seq<bv8>, rolls: seq<nat>, plan: seq<Copy>)
    requires ValidOpts(o) && 2 <= Chunks(o, |f|) && plan == Swap(Chunks(o, |f|)) && Runs(o, |f|, [], rolls, plan)
    requires 0 <= ChunkOffset(o, 0) < ChunkOffset(o, 1) < |f| && f[ChunkOffset(o, 0)] != f[ChunkOffset(o, 1)]
    ensures !AsIfAtOnce(o, f, [], rolls, plan)
  {
    SwapInOrder(o, f, Chunks(o, |f|));
    SwapAtOnce(o, |f|, Chunks(o, |f|));
  }

  /** With every chunk selected, and two of them, some run is not copying at once, at any probability. */
  lemma OrderMatters(o: Opts, size: nat)
    requires ValidOpts(o) && o.mod == 1 && Chunks(o, size) >= 2
    ensures !OrderIrrelevant(o, size)
  {
    var x, y := ChunkOffset(o, 0), ChunkOffset(o, 1);
    OffsetMono(o, 0, 1);
    ChunksExact(o, size, 1);
    var f: seq<bv8> := seq(size, i => if i == x then 1 else 0);
    assert f[x] == 1 && f[y] == 0;
    var rolls := SwapRuns(o, size);
    SwapDiffers(o, f, rolls, Swap(Chunks(o, size)));
  }

  lemma NoLegalCopy(o: Opts, size: nat, plan: seq<Copy>)
    requires ValidOpts(o) && o.mod == 1 && Chunks(o, size) < 2 && LegalPlan(o, size, plan)
    ensures plan == []
  {
    if plan != [] {
      NoSource(o, size, plan[|plan| - 1]);
    }
  }

  lemma NoSource(o: Opts, size: nat, c: Copy)
    requires ValidOpts(o) && o.mod == 1 && Chunks(o, size) < 2
    ensures !(InBounds(o, size, c) && LegalSource(o, c.dest, c.source))
  {
  }

  /** Over all runs the options allow: exactly when copying in order is copying at once. */
  lemma OrderIrrelevantIff(o: Opts, size: nat)
    requires ValidOpts(o)
    ensures OrderIrrelevant(o, size) <==> o.mod >= 2 || Chunks(o, size) < 2
  {
    if o.mod >= 2 || Chunks(o, size) < 2 {
      forall f: seq<bv8>, draws: seq<Chance>, rolls: seq<nat>, plan: seq<Copy> | |f| == size
        ensures AsIfAtOnce(o, f, draws, rolls, plan)
      {
        if Runs(o, |f|, draws, rolls, plan) {
          if o.mod >= 2 {
            CopyAllIsSimultaneous(o, f, plan);
          } else {
            NoLegalCopy(o, |f|, plan);
          }
        }
      }
    } else {
      OrderMatters(o, size);
    }
  }

  // ---------------------------------------------------------------- byte by byte

  /** What a copy puts at byte b of its destination: the byte as far into the source, if the file has one. */
  function FromSource(o: Opts, f: seq<bv8>, c: Copy, b: nat): bv8
    requires b < |f|
  {
    var m := b - ChunkOffset(o, c.dest) + ChunkOffset(o, c.source);
    if 0 <= m < |f| then f[m] else f[b]
  }

  predicate InChunk(o: Opts, size: nat, b: int, chunk: int)
    requires ValidOpts(o)
  {
    o.start <= b < Limit(o, size) && ChunkOf(o, b) == chunk
  }

  /** A copy overwrites the whole destination chunk, up to the end of region and file, and nothing else. */
  lemma CopyOneIs(o: Opts, f: seq<bv8>, c: Copy, b: nat)
    requires ValidOpts(o) && InBounds(o, |f|, c) && b < |f|
    ensures CopyOne(o, f, c)[b] == if InChunk(o, |f|, b, c.dest) then FromSource(o, f, c, b) else f[b]
  {
    CopyOneAt(o, f, c, b);
    WritesIff(o, |f|, c, b);
  }

  lemma WritesIff(o: Opts, size: nat, c: Copy, b: nat)
    requires ValidOpts(o) && InBounds(o, size, c) && b < size
    ensures Writes(o, size, c, b) <==> InChunk(o, size, b, c.dest) && Moved(o, c, b) < size
    ensures InChunk(o, size, b, c.dest) ==> 0 <= Moved(o, c, b)
  {
    ChunkOfIff(o, b, c.dest);
    MulMono(0, c.dest, o.chunkSize);
    MulMono(0, c.source, o.chunkSize);
  }

  /** In a run, each overwritten byte comes from the file as it was just before its chunk was copied. */
  lemma {:induction false} CopiedBytes(o: Opts, f: seq<bv8>, plan: seq<Copy>, i: nat, b: nat)
    requires ValidOpts(o) && LegalPlan(o, |f|, plan) && i < |plan| && b < |f| && InChunk(o, |f|, b, plan[i].dest)
    ensures LegalPlan(o, |f|, plan[..i])
    ensures CopyAll(o, f, plan)[b] == FromSource(o, CopyAll(o, f, plan[..i]), plan[i], b)
  {
    LegalPrefix(o, |f|, plan, i);
    var l := |plan| - 1;
    var before := plan[..l];
    CopyOneIs(o, CopyAll(o, f, before), plan[l], b);
    if i < l {
      assert before[i] == plan[i] && before[..i] == plan[..i];
      CopiedBytes(o, f, before, i, b);
    }
  }

  /** A byte of no copied chunk stays as it was. */
  lemma {:induction false} UntouchedBytes(o: Opts, f: seq<bv8>, plan: seq<Copy>, b: nat)
    requires ValidOpts(o) && LegalPlan(o, |f|, plan) && b < |f|
    requires forall i :: 0 <= i < |plan| ==> !InChunk(o, |f|, b, plan[i].dest)
    ensures CopyAll(o, f, plan)[b] == f[b]
  {
    if plan != [] {
      var l := |plan| - 1;
      UntouchedBytes(o, f, plan[..l], b);
      CopyOneIs(o, CopyAll(o, f, plan[..l]), plan[l], b);
    }
  }

  lemma {:induction false} DestsAre(plan: seq<Copy>, i: nat)
    requires i < |plan|
    ensures Dests(plan)[i] == plan[i].dest
  {
    if i < |plan| - 1 {
      DestsAre(plan[..|plan| - 1], i);
    }
  }

  /** Which chunks are chosen: every mod-th from c on, unless skipped at its turn. */
  lemma {:induction false} ChosenIff(mod: nat, count: nat, skips: seq<bool>, c: nat, tick: nat, done: seq<nat>, d: nat)
    requires mod > 0
    ensures d in Chosen(mod, count, skips, c, tick, done) <==>
            d in done || (c <= d < count && (d - c) % mod == 0 && !Skips(skips, tick + (d - c) / mod))
    decreases count - c
  {
    if c < count {
      ChosenIff(mod, count, skips, c + mod, tick + 1, Added(done, Skips(skips, tick), c), d);
      if c < d {
        if d < c + mod {
          DivUnique(d - c, mod, 0, d - c);
        } else {
          OneMore(d - c, mod);
        }
      } else if c == d {
        DivUnique(0, mod, 0, 0);
      }
    }
  }

  lemma SameStride(o: Opts, d: nat)
    requires ValidOpts(o)
    ensures d % o.mod == o.index <==> o.index <= d && (d - o.index) % o.mod == 0
    ensures d % o.mod == o.index ==> (d - o.index) / o.mod == d / o.mod
  {
    var q := d / o.mod;
    assert d == q * o.mod + d % o.mod;
    MulMono(0, q, o.mod);
    if d % o.mod == o.index {
      DivUnique(d - o.index, o.mod, q, 0);
    } else if o.index <= d && (d - o.index) % o.mod == 0 {
      DivUnique(d, o.mod, (d - o.index) / o.mod, o.index);
    }
  }

  /** The draw at the chunk's turn exceeds the probability. */
  predicate Passed(o: Opts, draws: seq<Chance>, d: int)
    requires ValidOpts(o)
  {
    var turn := d / o.mod;
    0 <= turn < |draws| && draws[turn] > o.probability
  }

  /** A chunk is overwritten if it is selected and its draw does not exceed the probability. */
  lemma ToCopyIff(o: Opts, size: nat, draws: seq<Chance>, d: nat)
    requires ValidOpts(o)
    ensures d in ToCopy(o, size, draws) <==>
            && 2 <= Chunks(o, size) && d < Chunks(o, size) && d % o.mod == o.index
            && !Passed(o, draws, d)
  {
    SameStride(o, d);
    SkippedIff(o, draws, d / o.mod);
    ChosenIff(o.mod, Chunks(o, size), Skipped(o, draws), o.index, 0, [], d);
  }

  /**
   A run, byte by byte: the bytes of every selected chunk not skipped come from one other chunk,
   as the file was just before, and no other byte changes.
   */
  lemma RunBytes(o: Opts, f: seq<bv8>, draws: seq<Chance>, rolls: seq<nat>, plan: seq<Copy>, b: nat)
    requires ValidOpts(o) && Runs(o, |f|, draws, rolls, plan) && b < |f|
    ensures if Affected(o, |f|, b) && 2 <= Chunks(o, |f|) && !Passed(o, draws, ChunkOf(o, b))
            then exists i :: CopiedFrom(o, f, plan, i, b)
            else CopyAll(o, f, plan)[b] == f[b]
  {
    AffectedIff(o, |f|, b);
    var d := ChunkOf(o, b);
    if d >= 0 {
      ToCopyIff(o, |f|, draws, d);
    }
    if i :| 0 <= i < |plan| && InChunk(o, |f|, b, plan[i].dest) {
      DestsAre(plan, i);
      CopiedBytes(o, f, plan, i, b);
      LegalAt(o, |f|, plan, i);
      assert CopiedFrom(o, f, plan, i, b);
    } else {
      UntouchedBytes(o, f, plan, b);
      if d >= 0 && d in Dests(plan) {
        var i :| 0 <= i < |Dests(plan)| && Dests(plan)[i] == d;
        DestsAre(plan, i);
      }
    }
  }

  /** The i-th copy of the plan, from a legal source, is what is at byte b in the end. */
  ghost predicate CopiedFrom(o: Opts, f: seq<bv8>, plan: seq<Copy>, i: int, b: nat)
    requires ValidOpts(o) && LegalPlan(o, |f|, plan) && b < |f|
  {
    && 0 <= i < |plan| && plan[i].dest == ChunkOf(o, b) && LegalPlan(o, |f|, plan[..i])
    && plan[i].source < Chunks(o, |f|) && plan[i].source != plan[i].dest
    && (o.mod > 1 ==> plan[i].source % o.mod != o.index)
    && CopyAll(o, f, plan)[b] == FromSource(o, CopyAll(o, f, plan[..i]), plan[i], b)
  }

  lemma LegalAt(o: Opts, size: nat, plan: seq<Copy>, i: nat)
    requires ValidOpts(o) && LegalPlan(o, size, plan) && i < |plan|
    ensures Legal(o, plan[i]) && LegalPlan(o, size, plan[..i])
  {
    LegalPrefix(o, size, plan, i);
    LegalPrefix(o, size, plan, i + 1);
    assert plan[..i + 1][i] == plan[i];
  }
}
