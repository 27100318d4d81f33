/**
 Saving selected chunks to snapshots and writing them back. Saving names a chunk's snapshot by where
 the chunk starts and ends; restoring adds up chunk sizes to find the end instead, and adds none for
 a chunk it skips, so it looks for the right names only for some options and some skips. The main
 theorems say exactly which.
 */
module Snapshots {
  import opened ChunkLayout

  /** Snapshot contents by (start, end). */
  type Store = map<(int, int), seq<bv8>>

  /** A file on disk: writing past its end makes it longer. */
  class DiskFile {
    var bytes: seq<bv8>

    constructor (bytes: seq<bv8>)
      ensures this.bytes == bytes
    {
      this.bytes := bytes;
    }

    method WriteAt(at: nat, bs: seq<bv8>)
      requires at <= |bytes|
      modifies this
      ensures bytes == Paste(old(bytes), at, bs)
    {
      bytes := Paste(bytes, at, bs);
    }
  }

  function Paste(g: seq<bv8>, at: nat, bs: seq<bv8>): (h: seq<bv8>)
    requires at <= |g|
    ensures |h| == if at + |bs| < |g| then |g| else at + |bs|
    ensures forall b :: 0 <= b < |h| ==> h[b] == if at <= b < at + |bs| then bs[b - at] else g[b]
  {
    g[..at] + bs + if at + |bs| < |g| then g[at + |bs|..] else []
  }

  function SnapshotEnd(o: Opts, c: int): int {
    Min(ChunkOffset(o, c) + o.chunkSize, o.end)
  }

  function SnapshotKey(o: Opts, c: int): (int, int) {
    (ChunkOffset(o, c), SnapshotEnd(o, c))
  }

  lemma ChunkBounds(o: Opts, size: nat, c: nat)
    requires ValidOpts(o) && c < Chunks(o, size)
    ensures 0 <= ChunkOffset(o, c) < ChunkEnd(o, size, c) <= size
    ensures ChunkEnd(o, size, c) <= SnapshotEnd(o, c)
  {
    MulMono(0, c, o.chunkSize);
    ChunksExact(o, size, c);
  }

  function ChunkBytes(o: Opts, f: seq<bv8>, c: nat): seq<bv8>
    requires ValidOpts(o) && c < Chunks(o, |f|)
  {
    ChunkBounds(o, |f|, c);
    f[ChunkOffset(o, c)..ChunkEnd(o, |f|, c)]
  }

  /** The store after saving chunk c and every mod-th chunk after it. */
  function Saved(o: Opts, f: seq<bv8>, store: Store, c: nat): Store
    requires ValidOpts(o)
    decreases Chunks(o, |f|) - c
  {
    if c >= Chunks(o, |f|) then store
    else Saved(o, f, store[SnapshotKey(o, c) := ChunkBytes(o, f, c)], c + o.mod)
  }

  /** No snapshot is longer than its name says; saving makes no other. */
  ghost predicate Named(store: Store) {
    forall k :: k in store ==> 0 <= k.0 && |store[k]| <= k.1 - k.0
  }

  /**
   The file after restoring from chunk c on, `end` being what the sizes have added up to. The
   chunks are those of the file as it was found, `size` bytes long.
   */
  ghost function Restored(o: Opts, size: nat, g: seq<bv8>, store: Store, skips: seq<bool>, c: nat, end: int, tick: nat): (h: seq<bv8>)
    requires ValidOpts(o) && size <= |g|
    ensures |g| <= |h|
    decreases Chunks(o, size) - c
  {
    if c >= Chunks(o, size) then g
    else if Skips(skips, tick) then Restored(o, size, g, store, skips, c + o.mod, end, tick + 1)
    else
      ChunkBounds(o, size, c);
      var end' := Min(end + o.chunkSize, o.end);
      var key := (ChunkOffset(o, c), end');
      var g' := if key in store then Paste(g, key.0, store[key]) else g;
      Restored(o, size, g', store, skips, c + o.mod, end', tick + 1)
  }

  // ---------------------------------------------------------------- the two loops

  method CorruptSnapshot(o: Opts, file: DiskFile, store: Store) returns (saved: Store)
    requires ValidOpts(o)
    ensures saved == Saved(o, file.bytes, store, o.index)
  {
    var size := |file.bytes|;
    var count := ChunkCount(o, size);
    saved := store;
    var chunk := o.index;
    while chunk < count
      invariant 0 <= chunk
      invariant Saved(o, file.bytes, saved, chunk) == Saved(o, file.bytes, store, o.index)
      decreases count - chunk
    {
      var start := ChunkOffset(o, chunk);
      var end := start + o.chunkSize;
      if o.end < end { end := o.end; }
      ChunkBounds(o, size, chunk);
      var copied := file.bytes[start..Min(end, size)];
      saved := saved[(start, end) := copied];
      chunk := chunk + o.mod;
    }
  }

  method CorruptRestore(o: Opts, file: DiskFile, store: Store, draws: seq<Chance>)
    requires ValidOpts(o) && Named(store)
    modifies file
    ensures file.bytes == Restored(o, |old(file.bytes)|, old(file.bytes), store, Skipped(o, draws), o.index, 0, 0)
  {
    RestoreSelected(o, file, store, Skipped(o, draws));
  }

  /** At most n bytes. */
  function Copied(bs: seq<bv8>, n: nat): seq<bv8> {
    bs[..Min(n, |bs|)]
  }

  lemma CopiedWhole(bs: seq<bv8>, n: int)
    requires |bs| <= n
    ensures Copied(bs, n) == bs
  {
  }

  /** The loop, given which of the chunks it visits are skipped. */
  method RestoreSelected(o: Opts, file: DiskFile, store: Store, skips: seq<bool>)
    requires ValidOpts(o) && Named(store)
    modifies file
    ensures file.bytes == Restored(o, |old(file.bytes)|, old(file.bytes), store, skips, o.index, 0, 0)
  {
    var size := |file.bytes|;
    var count := ChunkCount(o, size);
    var start, end, chunk, tick := 0, 0, o.index, 0;
    ghost var final := Restored(o, size, file.bytes, store, skips, o.index, 0, 0);
    while chunk < count
      invariant 0 <= chunk && 0 <= tick && size <= |file.bytes|
      invariant Restored(o, size, file.bytes, store, skips, chunk, end, tick) == final
      decreases count - chunk
    {
      tick := tick + 1;
      if !Skips(skips, tick - 1) {
        start := ChunkOffset(o, chunk);
        end := end + o.chunkSize;
        if o.end < end { end := o.end; }
        if (start, end) in store {
          var snapshot := store[(start, end)];
          ChunkBounds(o, size, chunk);
          CopiedWhole(snapshot, end - start);
          file.WriteAt(start, Copied(snapshot, end - start));
        }
      }
      chunk := chunk + o.mod;
    }
  }

  // ---------------------------------------------------------------- what is in the store

  lemma {:induction false} SavedNamed(o: Opts, f: seq<bv8>, store: Store, c: nat)
    requires ValidOpts(o) && Named(store)
    ensures Named(Saved(o, f, store, c))
    decreases Chunks(o, |f|) - c
  {
    if c < Chunks(o, |f|) {
      ChunkBounds(o, |f|, c);
      SavedNamed(o, f, store[SnapshotKey(o, c) := ChunkBytes(o, f, c)], c + o.mod);
    }
  }

  /** Saving from chunk c on leaves snapshots that start earlier alone. */
  lemma {:induction false} SavedKeeps(o: Opts, f: seq<bv8>, store: Store, c: nat, k: (int, int))
    requires ValidOpts(o) && k.0 < ChunkOffset(o, c)
    ensures k in Saved(o, f, store, c) <==> k in store
    ensures k in store ==> Saved(o, f, store, c)[k] == store[k]
    decreases Chunks(o, |f|) - c
  {
    if c < Chunks(o, |f|) {
      OffsetMono(o, c, c + o.mod);
      SavedKeeps(o, f, store[SnapshotKey(o, c) := ChunkBytes(o, f, c)], c + o.mod, k);
    }
  }

  /** For a selected chunk, the store holds its bytes under its key. */
  lemma {:induction false} SavedChunk(o: Opts, f: seq<bv8>, store: Store, c: nat, d: nat)
    requires ValidOpts(o) && c % o.mod == o.index && d % o.mod == o.index && c <= d < Chunks(o, |f|)
    ensures SnapshotKey(o, d) in Saved(o, f, store, c)
    ensures Saved(o, f, store, c)[SnapshotKey(o, d)] == ChunkBytes(o, f, d)
    decreases Chunks(o, |f|) - c
  {
    var store' := store[SnapshotKey(o, c) := ChunkBytes(o, f, c)];
    StepSelects(o, c);
    if c == d {
      OffsetMono(o, c, c + o.mod);
      SavedKeeps(o, f, store', c + o.mod, SnapshotKey(o, d));
    } else {
      NoneBetween(o, c, d);
      SavedChunk(o, f, store', c + o.mod, d);
    }
  }

  /** Under other names that start at a selected chunk, nothing changes. */
  lemma {:induction false} SavedOther(o: Opts, f: seq<bv8>, store: Store, c: nat, d: nat, k: (int, int))
    requires ValidOpts(o) && c % o.mod == o.index && d % o.mod == o.index && c <= d < Chunks(o, |f|)
    requires k.0 == ChunkOffset(o, d) && k != SnapshotKey(o, d)
    ensures k in Saved(o, f, store, c) <==> k in store
    ensures k in store ==> Saved(o, f, store, c)[k] == store[k]
    decreases Chunks(o, |f|) - c
  {
    var store' := store[SnapshotKey(o, c) := ChunkBytes(o, f, c)];
    StepSelects(o, c);
    if c == d {
      OffsetMono(o, c, c + o.mod);
      SavedKeeps(o, f, store', c + o.mod, k);
    } else {
      NoneBetween(o, c, d);
      OffsetMono(o, c, d);
      SavedOther(o, f, store', c + o.mod, d, k);
    }
  }

  /** The key is that of a selected chunk, from c on. */
  ghost predicate KeyOfChunk(o: Opts, size: nat, c: nat, d: nat, k: (int, int))
    requires ValidOpts(o)
  {
    c <= d < Chunks(o, size) && d % o.mod == o.index && k == SnapshotKey(o, d)
  }

  ghost predicate OtherKey(o: Opts, size: nat, c: nat, k: (int, int))
    requires ValidOpts(o)
  {
    forall d: nat :: !KeyOfChunk(o, size, c, d, k)
  }

  lemma OtherKeyRest(o: Opts, size: nat, c: nat, k: (int, int))
    requires ValidOpts(o) && c < Chunks(o, size) && c % o.mod == o.index && OtherKey(o, size, c, k)
    ensures k != SnapshotKey(o, c) && OtherKey(o, size, c + o.mod, k)
  {
    assert !KeyOfChunk(o, size, c, c, k);
    var next := c + o.mod;
    forall d: nat
      ensures !KeyOfChunk(o, size, next, d, k)
    {
      assert !KeyOfChunk(o, size, c, d, k);
    }
  }

  lemma {:induction false} SavedElse(o: Opts, f: seq<bv8>, store: Store, c: nat, k: (int, int))
    requires ValidOpts(o) && c % o.mod == o.index && OtherKey(o, |f|, c, k)
    ensures k in Saved(o, f, store, c) <==> k in store
    ensures k in store ==> Saved(o, f, store, c)[k] == store[k]
    decreases Chunks(o, |f|) - c
  {
    if c < Chunks(o, |f|) {
      StepSelects(o, c);
      OtherKeyRest(o, |f|, c, k);
      SavedElse(o, f, store[SnapshotKey(o, c) := ChunkBytes(o, f, c)], c + o.mod, k);
    }
  }

  /** What is saved: the selected chunks, each under its own key, and otherwise what the store had. */
  lemma SavedIff(o: Opts, f: seq<bv8>, store: Store, k: (int, int))
    requires ValidOpts(o)
    ensures var saved := Saved(o, f, store, o.index);
            && (forall d: nat :: KeyOfChunk(o, |f|, 0, d, k) ==> k in saved && saved[k] == ChunkBytes(o, f, d))
            && (OtherKey(o, |f|, 0, k) ==> (k in saved <==> k in store) && (k in store ==> saved[k] == store[k]))
  {
    IndexSelects(o);
    forall d: nat | KeyOfChunk(o, |f|, 0, d, k)
      ensures k in Saved(o, f, store, o.index) && Saved(o, f, store, o.index)[k] == ChunkBytes(o, f, d)
    {
      LeastSelected(o, d);
      SavedChunk(o, f, store, o.index, d);
    }
    if OtherKey(o, |f|, 0, k) {
      forall d: nat
        ensures !KeyOfChunk(o, |f|, o.index, d, k)
      {
        assert !KeyOfChunk(o, |f|, 0, d, k);
      }
      SavedElse(o, f, store, o.index, k);
    }
  }

  // ---------------------------------------------------------------- what restoring looks up

  /** The chunk comes up when so many selected chunks have come up before it. */
  function Turn(o: Opts, c: nat): nat
    requires ValidOpts(o)
  {
    c / o.mod
  }

  lemma TurnNext(o: Opts, c: nat)
    requires ValidOpts(o) && c % o.mod == o.index
    ensures Turn(o, c + o.mod) == Turn(o, c) + 1 && (c + o.mod) % o.mod == o.index
  {
    assert c + o.mod == (c / o.mod + 1) * o.mod + o.index;
    DivUnique(c + o.mod, o.mod, c / o.mod + 1, o.index);
  }

  lemma FirstTurn(o: Opts)
    requires ValidOpts(o)
    ensures Turn(o, o.index) == 0 && o.index % o.mod == o.index
  {
    DivUnique(o.index, o.mod, 0, o.index);
  }

  lemma TurnAtMost(o: Opts, c: nat)
    requires ValidOpts(o)
    ensures Turn(o, c) <= c
  {
    MulMono(1, o.mod, c / o.mod);
  }

  /** How many of the first t chunks visited are not skipped. */
  function Taken(skips: seq<bool>, t: nat): (n: nat)
    ensures n <= t
  {
    if t == 0 then 0 else Taken(skips, t - 1) + if Skips(skips, t - 1) then 0 else 1
  }

  /** The name restoring looks for when it comes to chunk c. */
  function LookedUp(o: Opts, skips: seq<bool>, c: nat): (int, int)
    requires ValidOpts(o)
  {
    (ChunkOffset(o, c), Min((Taken(skips, Turn(o, c)) + 1) * o.chunkSize, o.end))
  }

  ghost predicate Visits(o: Opts, size: nat, c: int)
    requires ValidOpts(o)
  {
    0 <= c < Chunks(o, size) && c % o.mod == o.index
  }

  /** Restoring writes byte b. */
  ghost predicate Covers(o: Opts, size: nat, store: Store, skips: seq<bool>, b: int)
    requires ValidOpts(o)
  {
    var c := ChunkOf(o, b);
    && Visits(o, size, c) && !Skips(skips, Turn(o, c))
    && LookedUp(o, skips, c) in store && b < ChunkOffset(o, c) + |store[LookedUp(o, skips, c)]|
  }

  ghost function Written(o: Opts, size: nat, store: Store, skips: seq<bool>, b: int): bv8
    requires ValidOpts(o) && Covers(o, size, store, skips, b)
  {
    var c := ChunkOf(o, b);
    ChunkOfIff(o, b, c);
    store[LookedUp(o, skips, c)][b - ChunkOffset(o, c)]
  }

  /** h is g with the covered bytes written. */
  ghost predicate IsAt(o: Opts, size: nat, g: seq<bv8>, store: Store, skips: seq<bool>, from: int, h: seq<bv8>, b: nat)
    requires ValidOpts(o)
  {
    var covered := Covers(o, size, store, skips, b) && from <= ChunkOf(o, b);
    && (b < |h| <==> b < |g| || covered)
    && (b < |h| ==> h[b] == if covered then Written(o, size, store, skips, b) else g[b])
  }

  /** What is found for chunk c does not reach past it. */
  lemma FoundFits(o: Opts, store: Store, skips: seq<bool>, c: nat)
    requires ValidOpts(o) && Named(store) && LookedUp(o, skips, c) in store
    ensures |store[LookedUp(o, skips, c)]| <= o.chunkSize
  {
    var t := Taken(skips, Turn(o, c));
    TurnAtMost(o, c);
    SizesUpTo(o.chunkSize, t, c);
  }

  lemma SizesUpTo(m: nat, t: nat, c: nat)
    requires t <= c
    ensures (t + 1) * m <= c * m + m
  {
    MulMono(t, c, m);
    assert (t + 1) * m == t * m + m;
  }

  lemma NextEnd(o: Opts, t: nat)
    requires ValidOpts(o)
    ensures Min(Min(t * o.chunkSize, o.end) + o.chunkSize, o.end) == Min((t + 1) * o.chunkSize, o.end)
  {
    assert (t + 1) * o.chunkSize == t * o.chunkSize + o.chunkSize;
  }

  /** One chunk written: its own covered bytes, and nothing else. */
  lemma WriteOne(o: Opts, size: nat, g: seq<bv8>, store: Store, skips: seq<bool>, c: nat, h: seq<bv8>, b: nat)
    requires ValidOpts(o) && Named(store) && size <= |g| && Visits(o, size, c) && !Skips(skips, Turn(o, c))
    requires 0 <= ChunkOffset(o, c) <= |g|
    requires var key := LookedUp(o, skips, c);
             IsAt(o, size, if key in store then Paste(g, key.0, store[key]) else g, store, skips, c + o.mod, h, b)
    ensures IsAt(o, size, g, store, skips, c, h, b)
  {
    var d := ChunkOf(o, b);
    ChunkOfIff(o, b, c);
    if LookedUp(o, skips, c) in store {
      FoundFits(o, store, skips, c);
    }
    if c < d && Covers(o, size, store, skips, b) {
      NoneBetween(o, c, d);
    }
  }

  lemma SkipOne(o: Opts, size: nat, g: seq<bv8>, store: Store, skips: seq<bool>, c: nat, h: seq<bv8>, b: nat)
    requires ValidOpts(o) && Visits(o, size, c) && Skips(skips, Turn(o, c))
    requires IsAt(o, size, g, store, skips, c + o.mod, h, b)
    ensures IsAt(o, size, g, store, skips, c, h, b)
  {
    var d := ChunkOf(o, b);
    if c < d && Covers(o, size, store, skips, b) {
      NoneBetween(o, c, d);
    }
  }

  lemma {:induction false} RestoredFrom(o: Opts, size: nat, g: seq<bv8>, store: Store, skips: seq<bool>, c: nat, end: int, tick: nat, b: nat)
    requires ValidOpts(o) && Named(store) && size <= |g| && c % o.mod == o.index && tick == Turn(o, c)
    requires end == Min(Taken(skips, tick) * o.chunkSize, o.end)
    ensures IsAt(o, size, g, store, skips, c, Restored(o, size, g, store, skips, c, end, tick), b)
    decreases Chunks(o, size) - c
  {
    if c < Chunks(o, size) {
      TurnNext(o, c);
      if Skips(skips, tick) {
        RestoredFrom(o, size, g, store, skips, c + o.mod, end, tick + 1, b);
        SkipOne(o, size, g, store, skips, c, Restored(o, size, g, store, skips, c + o.mod, end, tick + 1), b);
      } else {
        NextEnd(o, Taken(skips, tick));
        ChunkBounds(o, size, c);
        var key := LookedUp(o, skips, c);
        var g' := if key in store then Paste(g, key.0, store[key]) else g;
        RestoredFrom(o, size, g', store, skips, c + o.mod, key.1, tick + 1, b);
        WriteOne(o, size, g, store, skips, c, Restored(o, size, g', store, skips, c + o.mod, key.1, tick + 1), b);
      }
    }
  }

  /** Byte by byte, for every store, file, options and skips: what a restore run makes of the file. */
  lemma RestoredAt(o: Opts, g: seq<bv8>, store: Store, skips: seq<bool>, b: nat)
    requires ValidOpts(o) && Named(store)
    ensures var h := Restored(o, |g|, g, store, skips, o.index, 0, 0);
            && (b < |h| <==> b < |g| || Covers(o, |g|, store, skips, b))
            && (b < |h| ==> h[b] == if Covers(o, |g|, store, skips, b) then Written(o, |g|, store, skips, b) else g[b])
  {
    FirstTurn(o);
    RestoredFrom(o, |g|, g, store, skips, o.index, 0, 0, b);
    if Covers(o, |g|, store, skips, b) {
      LeastSelected(o, ChunkOf(o, b));
    }
  }

  lemma LeastSelected(o: Opts, c: nat)
    requires ValidOpts(o) && c % o.mod == o.index
    ensures o.index <= c
  {
    MulMono(0, c / o.mod, o.mod);
  }

  // ---------------------------------------------------------------- which chunks come back

  /** Restoring looks for chunk c under the name it was saved under. */
  predicate Finds(o: Opts, skips: seq<bool>, c: nat)
    requires ValidOpts(o)
  {
    !Skips(skips, Turn(o, c)) && LookedUp(o, skips, c) == SnapshotKey(o, c)
  }

  lemma SelectedBytes(o: Opts, size: nat, c: nat, b: int)
    requires ValidOpts(o) && c < Chunks(o, size) && c % o.mod == o.index
    ensures ChunkOffset(o, c) <= b < ChunkEnd(o, size, c) <==> Affected(o, size, b) && ChunkOf(o, b) == c
  {
    AffectedIff(o, size, b);
    ChunkOfIff(o, b, c);
  }

  /** A found chunk is written whole with what was saved, and within the file. */
  lemma FoundIsCovered(o: Opts, f: seq<bv8>, store: Store, skips: seq<bool>, c: nat, b: int)
    requires ValidOpts(o) && Visits(o, |f|, c) && ChunkOf(o, b) == c && Finds(o, skips, c)
    ensures var saved := Saved(o, f, store, o.index);
            && (Covers(o, |f|, saved, skips, b) <==> Affected(o, |f|, b))
            && (Affected(o, |f|, b) ==> 0 <= b < |f| && Written(o, |f|, saved, skips, b) == f[b])
  {
    FirstTurn(o);
    LeastSelected(o, c);
    SavedChunk(o, f, store, o.index, c);
    ChunkBounds(o, |f|, c);
    SelectedBytes(o, |f|, c, b);
    ChunkOfIff(o, b, c);
  }

  /** An older snapshot lies under the wrong name that restoring looks for when it comes to b's chunk. */
  ghost predicate Stale(o: Opts, size: nat, store: Store, skips: seq<bool>, b: int)
    requires ValidOpts(o)
  {
    Covers(o, size, store, skips, b) && !Finds(o, skips, ChunkOf(o, b))
  }

  /** Of a chunk not found, restoring writes what an older snapshot says, if there is one. */
  lemma NotFound(o: Opts, f: seq<bv8>, store: Store, skips: seq<bool>, c: nat, b: int)
    requires ValidOpts(o) && Visits(o, |f|, c) && ChunkOf(o, b) == c && !Finds(o, skips, c)
    ensures var saved := Saved(o, f, store, o.index);
            && (Covers(o, |f|, saved, skips, b) <==> Stale(o, |f|, store, skips, b))
            && (Stale(o, |f|, store, skips, b) ==> Written(o, |f|, saved, skips, b) == Written(o, |f|, store, skips, b))
  {
    if LookedUp(o, skips, c) != SnapshotKey(o, c) {
      FirstTurn(o);
      LeastSelected(o, c);
      SavedOther(o, f, store, o.index, c, LookedUp(o, skips, c));
    }
  }

  lemma ComesBack(o: Opts, f: seq<bv8>, store: Store, skips: seq<bool>, b: nat)
    requires ValidOpts(o)
    ensures var saved := Saved(o, f, store, o.index);
            var found := Affected(o, |f|, b) && Finds(o, skips, ChunkOf(o, b));
            && (Covers(o, |f|, saved, skips, b) <==> found || Stale(o, |f|, store, skips, b))
            && (Covers(o, |f|, saved, skips, b) ==>
                  if found then b < |f| && Written(o, |f|, saved, skips, b) == f[b]
                  else Written(o, |f|, saved, skips, b) == Written(o, |f|, store, skips, b))
  {
    var c := ChunkOf(o, b);
    AffectedIff(o, |f|, b);
    if Visits(o, |f|, c) {
      if Finds(o, skips, c) {
        FoundIsCovered(o, f, store, skips, c, b);
      } else {
        NotFound(o, f, store, skips, c, b);
      }
    }
  }

  /** Byte b of h, when f was saved, g was found, and h was left behind. */
  ghost predicate CameBack(o: Opts, f: seq<bv8>, g: seq<bv8>, store: Store, skips: seq<bool>, h: seq<bv8>, b: nat)
    requires ValidOpts(o) && |f| == |g|
  {
    && (b < |h| <==> b < |g| || Stale(o, |f|, store, skips, b))
    && (b < |h| ==> h[b] == if Affected(o, |f|, b) && Finds(o, skips, ChunkOf(o, b)) then f[b]
                            else if Stale(o, |f|, store, skips, b) then Written(o, |f|, store, skips, b)
                            else g[b])
  }

  /**
   Snapshot, any edits that keep the length, restore, for any options, skips and older snapshots:
   the bytes of exactly the selected chunks that are found come back, the others keep their values
   unless an older snapshot happens to lie under the wrong name.
   */
  lemma WhatComesBack(o: Opts, f: seq<bv8>, g: seq<bv8>, store: Store, skips: seq<bool>, b: nat)
    requires ValidOpts(o) && |f| == |g| && Named(store)
    ensures CameBack(o, f, g, store, skips, Restored(o, |g|, g, Saved(o, f, store, o.index), skips, o.index, 0, 0), b)
  {
    SavedNamed(o, f, store, o.index);
    RestoredAt(o, g, Saved(o, f, store, o.index), skips, b);
    ComesBack(o, f, store, skips, b);
  }

  // ---------------------------------------------------------------- exactly when all of them do

  /**
   No chunk is selected; or the region starts the file and its first chunk is selected, either
   with all others or alone; or one chunk covers everything up to the region's end.
   */
  predicate CanRestore(o: Opts, size: nat)
    requires ValidOpts(o)
  {
    || Chunks(o, size) <= o.index
    || (o.start == 0 && o.index == 0 && (o.mod == 1 || Chunks(o, size) <= o.mod))
    || o.end <= o.chunkSize
  }

  ghost predicate NoSkipUpTo(skips: seq<bool>, t: nat) {
    forall s: nat :: s <= t ==> !Skips(skips, s)
  }

  lemma {:induction false} TakenAll(skips: seq<bool>, t: nat)
    ensures Taken(skips, t) == t <==> forall s: nat :: s < t ==> !Skips(skips, s)
  {
    if t > 0 {
      TakenAll(skips, t - 1);
    }
  }

  /** For these options, each selected chunk is all of them up to it, or the only one. */
  lemma SelectedThen(o: Opts, size: nat, c: nat)
    requires ValidOpts(o) && CanRestore(o, size) && Visits(o, size, c)
    ensures (o.start == 0 && Turn(o, c) == c) || (Turn(o, c) == 0 && o.end <= o.chunkSize)
  {
    FirstTurn(o);
    LeastSelected(o, c);
    if o.end <= o.chunkSize {
      ChunksExact(o, size, 1);
    } else if o.mod > 1 {
      DivUnique(c, o.mod, 0, c);
    }
  }

  /** Ends that add up from fewer chunks fall short. */
  lemma SameEnd(m: nat, t: nat, c: nat, end: int)
    requires m > 0 && t <= c && c * m < end
    ensures Min((t + 1) * m, end) == Min(c * m + m, end) <==> t == c
  {
    SizesUpTo(m, t, c);
    if t < c {
      SizesUpTo(m, t, c - 1);
      assert (c - 1) * m + m == c * m;
    } else {
      assert (c + 1) * m == c * m + m;
    }
  }

  lemma OneEnd(m: nat, t: nat, end: int)
    requires end <= m
    ensures Min((t + 1) * m, end) == end
  {
    MulMono(1, t + 1, m);
  }

  /** Chunk c is looked up under its own name if and only if all chunks before it were taken. */
  lemma LooksRight(o: Opts, size: nat, skips: seq<bool>, c: nat)
    requires ValidOpts(o) && CanRestore(o, size) && Visits(o, size, c)
    ensures LookedUp(o, skips, c) == SnapshotKey(o, c) <==> Taken(skips, Turn(o, c)) == Turn(o, c)
  {
    SelectedThen(o, size, c);
    ChunksExact(o, size, c);
    var t := Taken(skips, Turn(o, c));
    if o.end <= o.chunkSize && Turn(o, c) == 0 {
      OneEnd(o.chunkSize, t, o.end);
      MulMono(0, c, o.chunkSize);
    } else {
      SameEnd(o.chunkSize, t, c, o.end);
    }
  }

  /** For these options, the chunks that come back are those before the first one skipped. */
  lemma FoundUpToFirstSkip(o: Opts, size: nat, skips: seq<bool>, c: nat)
    requires ValidOpts(o) && CanRestore(o, size) && Visits(o, size, c)
    ensures Finds(o, skips, c) <==> NoSkipUpTo(skips, Turn(o, c))
  {
    LooksRight(o, size, skips, c);
    TakenAll(skips, Turn(o, c));
  }

  /** So exactly their bytes come back, whatever was done to the file. */
  lemma RestoredUpToFirstSkip(o: Opts, f: seq<bv8>, g: seq<bv8>, skips: seq<bool>)
    requires ValidOpts(o) && |f| == |g| && CanRestore(o, |f|)
    ensures var h := Restored(o, |g|, g, Saved(o, f, map[], o.index), skips, o.index, 0, 0);
            && |h| == |g|
            && forall b :: 0 <= b < |h| ==>
                 h[b] == if Affected(o, |f|, b) && NoSkipUpTo(skips, Turn(o, ChunkOf(o, b))) then f[b] else g[b]
  {
    var h := Restored(o, |g|, g, Saved(o, f, map[], o.index), skips, o.index, 0, 0);
    ByteUpToSkip(o, f, g, skips, h, |g|);
    forall b | 0 <= b < |h|
      ensures h[b] == if Affected(o, |f|, b) && NoSkipUpTo(skips, Turn(o, ChunkOf(o, b))) then f[b] else g[b]
    {
      ByteUpToSkip(o, f, g, skips, h, b);
    }
  }

  lemma ByteUpToSkip(o: Opts, f: seq<bv8>, g: seq<bv8>, skips: seq<bool>, h: seq<bv8>, b: nat)
    requires ValidOpts(o) && |f| == |g| && CanRestore(o, |f|)
    requires h == Restored(o, |g|, g, Saved(o, f, map[], o.index), skips, o.index, 0, 0)
    ensures b < |h| <==> b < |g|
    ensures b < |h| ==> h[b] == if Affected(o, |f|, b) && NoSkipUpTo(skips, Turn(o, ChunkOf(o, b))) then f[b] else g[b]
  {
    WhatComesBack(o, f, g, map[], skips, b);
    if Affected(o, |f|, b) {
      AffectedIff(o, |f|, b);
      FoundUpToFirstSkip(o, |f|, skips, ChunkOf(o, b));
    }
  }

  /** For other options, some selected chunk is not found although none is skipped. */
  lemma CannotRestoreLosesTrack(o: Opts, size: nat) returns (c: nat)
    requires ValidOpts(o) && !CanRestore(o, size)
    ensures Visits(o, size, c) && !Finds(o, [], c)
  {
    FirstTurn(o);
    c := o.index;
    if o.start == 0 && o.index == 0 {
      // the second selected chunk starts at least two chunks in, but only two sizes are added up
      c := o.mod;
      TurnNext(o, 0);
      ChunksExact(o, size, c);
      MulMono(2, c, o.chunkSize);
      assert Taken([], 1) == 1;
    } else {
      MulMono(if o.index == 0 then 0 else 1, o.index, o.chunkSize);
    }
  }

  /** Every selected byte not skipped is f's, every other byte is g's. */
  ghost predicate IsRestored(o: Opts, f: seq<bv8>, g: seq<bv8>, skips: seq<bool>, h: seq<bv8>)
    requires ValidOpts(o) && |f| == |g|
  {
    && |h| == |f|
    && forall b :: 0 <= b < |h| ==> h[b] == if Affected(o, |f|, b) && !Skips(skips, Turn(o, ChunkOf(o, b))) then f[b] else g[b]
  }

  /**
   Snapshot, then any edits that keep the length, then restore with nothing skipped: for these
   options every selected byte is back and no other byte is touched, whatever older snapshots exist.
   */
  lemma SnapshotThenRestore(o: Opts, f: seq<bv8>, g: seq<bv8>, store: Store)
    requires ValidOpts(o) && |f| == |g| && Named(store) && CanRestore(o, |f|)
    ensures IsRestored(o, f, g, [], Restored(o, |g|, g, Saved(o, f, store, o.index), [], o.index, 0, 0))
  {
    var h := Restored(o, |g|, g, Saved(o, f, store, o.index), [], o.index, 0, 0);
    RestoredByte(o, f, g, store, h, |g|);
    forall b | 0 <= b < |h|
      ensures h[b] == if Affected(o, |f|, b) then f[b] else g[b]
    {
      RestoredByte(o, f, g, store, h, b);
    }
  }

  lemma RestoredByte(o: Opts, f: seq<bv8>, g: seq<bv8>, store: Store, h: seq<bv8>, b: nat)
    requires ValidOpts(o) && |f| == |g| && Named(store) && CanRestore(o, |f|)
    requires h == Restored(o, |g|, g, Saved(o, f, store, o.index), [], o.index, 0, 0)
    ensures b < |h| <==> b < |g|
    ensures b < |h| ==> h[b] == if Affected(o, |f|, b) then f[b] else g[b]
  {
    WhatComesBack(o, f, g, store, [], b);
    AffectedIff(o, |f|, b);
    if Visits(o, |f|, ChunkOf(o, b)) {
      FoundUpToFirstSkip(o, |f|, [], ChunkOf(o, b));
    }
  }

  /** Whatever was done to this file, and whatever the draws: restoring brings back what it does not skip. */
  ghost predicate AlwaysRestores(o: Opts, f: seq<bv8>)
    requires ValidOpts(o)
  {
    forall g, draws :: |g| == |f| ==> RestoresFrom(o, f, g, draws)
  }

  ghost predicate RestoresFrom(o: Opts, f: seq<bv8>, g: seq<bv8>, draws: seq<Chance>)
    requires ValidOpts(o) && |f| == |g|
  {
    IsRestored(o, f, g, Skipped(o, draws), Restored(o, |g|, g, Saved(o, f, map[], o.index), Skipped(o, draws), o.index, 0, 0))
  }

  /** A selected chunk that is neither skipped nor found stays as it was, so some edit is not undone. */
  lemma Unrestored(o: Opts, f: seq<bv8>, draws: seq<Chance>, c: nat)
    requires ValidOpts(o) && Visits(o, |f|, c)
    requires !Skips(Skipped(o, draws), Turn(o, c)) && !Finds(o, Skipped(o, draws), c)
    ensures !AlwaysRestores(o, f)
  {
    var g := seq(|f|, i requires 0 <= i < |f| => f[i] ^ 0xFF);
    var b := ChunkOffset(o, c);
    ChunkBounds(o, |f|, c);
    SelectedBytes(o, |f|, c, b);
    WhatComesBack(o, f, g, map[], Skipped(o, draws), b);
    assert g[b] != f[b];
    assert !RestoresFrom(o, f, g, draws);
  }

  /** Skipping the first chunk loses everything. */
  lemma FirstSkipLosesAll(o: Opts, f: seq<bv8>, g: seq<bv8>, skips: seq<bool>)
    requires ValidOpts(o) && |f| == |g| && CanRestore(o, |f|) && Skips(skips, 0)
    ensures Restored(o, |g|, g, Saved(o, f, map[], o.index), skips, o.index, 0, 0) == g
  {
    RestoredUpToFirstSkip(o, f, g, skips);
  }

  /** Two chunks of one byte, the first skipped: the second does not come back either. */
  lemma SkippedFirst() returns (o: Opts, f: seq<bv8>, g: seq<bv8>, draws: seq<Chance>)
    ensures o == Opts(0, 2, 1, 0, 1, 0.5) && f == [1, 2] && g == [0, 0] && draws == [0.75]
    ensures Skips(Skipped(o, draws), 0) && !Skips(Skipped(o, draws), 1)
    ensures Restored(o, |g|, g, Saved(o, f, map[], o.index), Skipped(o, draws), o.index, 0, 0) == g
  {
    o, f, g, draws := Opts(0, 2, 1, 0, 1, 0.5), [1, 2], [0, 0], [0.75];
    FirstSkipLosesAll(o, f, g, Skipped(o, draws));
  }

  /** At most one chunk is selected. */
  predicate SelectsOne(o: Opts, size: nat)
    requires ValidOpts(o)
  {
    Chunks(o, size) <= o.index + o.mod
  }

  /** With two selected chunks, skipping the first loses the second. */
  lemma SkipLoses(o: Opts, f: seq<bv8>)
    requires ValidOpts(o) && CanRestore(o, |f|) && !SelectsOne(o, |f|) && o.probability < 1.0
    ensures !AlwaysRestores(o, f)
  {
    PossibleSkips(o, [true]);
    var draws :| Skipped(o, draws) == [true];
    FirstTurn(o);
    TurnNext(o, o.index);
    var c := o.index + o.mod;
    FoundUpToFirstSkip(o, |f|, [true], c);
    assert Skips([true], 0);
    Unrestored(o, f, draws, c);
  }

  lemma OneTurn(o: Opts, size: nat, c: nat)
    requires ValidOpts(o) && SelectsOne(o, size) && Visits(o, size, c)
    ensures Turn(o, c) == 0
  {
    FirstTurn(o);
    LeastSelected(o, c);
    if o.index < c {
      NoneBetween(o, o.index, c);
    }
  }

  /** When no skip can come before a chunk that is not skipped, every such chunk is found. */
  lemma FoundUnlessSkipped(o: Opts, size: nat, draws: seq<Chance>, c: nat)
    requires ValidOpts(o) && CanRestore(o, size) && Visits(o, size, c)
    requires o.probability == 1.0 || SelectsOne(o, size)
    ensures Finds(o, Skipped(o, draws), c) <==> !Skips(Skipped(o, draws), Turn(o, c))
  {
    FoundUpToFirstSkip(o, size, Skipped(o, draws), c);
    if o.probability < 1.0 {
      OneTurn(o, size, c);
    }
  }

  lemma RestoresAll(o: Opts, f: seq<bv8>, g: seq<bv8>, draws: seq<Chance>)
    requires ValidOpts(o) && |f| == |g| && CanRestore(o, |f|)
    requires o.probability == 1.0 || SelectsOne(o, |f|)
    ensures RestoresFrom(o, f, g, draws)
  {
    var h := Restored(o, |g|, g, Saved(o, f, map[], o.index), Skipped(o, draws), o.index, 0, 0);
    ByteUnlessSkipped(o, f, g, draws, h, |g|);
    forall b | 0 <= b < |h|
      ensures h[b] == if Affected(o, |f|, b) && !Skips(Skipped(o, draws), Turn(o, ChunkOf(o, b))) then f[b] else g[b]
    {
      ByteUnlessSkipped(o, f, g, draws, h, b);
    }
  }

  lemma ByteUnlessSkipped(o: Opts, f: seq<bv8>, g: seq<bv8>, draws: seq<Chance>, h: seq<bv8>, b: nat)
    requires ValidOpts(o) && |f| == |g| && CanRestore(o, |f|) && (o.probability == 1.0 || SelectsOne(o, |f|))
    requires h == Restored(o, |g|, g, Saved(o, f, map[], o.index), Skipped(o, draws), o.index, 0, 0)
    ensures b < |h| <==> b < |g|
    ensures b < |h| ==>
              h[b] == if Affected(o, |f|, b) && !Skips(Skipped(o, draws), Turn(o, ChunkOf(o, b))) then f[b] else g[b]
  {
    WhatComesBack(o, f, g, map[], Skipped(o, draws), b);
    if Affected(o, |f|, b) {
      AffectedIff(o, |f|, b);
      FoundUnlessSkipped(o, |f|, draws, ChunkOf(o, b));
    }
  }

  /** Exactly the options and sizes for which snapshot and restore round-trip on what is not skipped. */
  lemma RestoreIff(o: Opts, f: seq<bv8>)
    requires ValidOpts(o)
    ensures AlwaysRestores(o, f) <==> CanRestore(o, |f|) && (o.probability == 1.0 || SelectsOne(o, |f|))
  {
    if !CanRestore(o, |f|) {
      var c := CannotRestoreLosesTrack(o, |f|);
      assert Skipped(o, []) == [];
      Unrestored(o, f, [], c);
    } else if o.probability == 1.0 || SelectsOne(o, |f|) {
      forall g: seq<bv8>, draws: seq<Chance> | |g| == |f|
        ensures RestoresFrom(o, f, g, draws)
      {
        RestoresAll(o, f, g, draws);
      }
    } else {
      SkipLoses(o, f);
    }
  }
}
