/**
 Flipping random bits in the selected chunks. The draws are arbitrary; the loop over chunks is
 proved to flip a strictly ascending sequence of bits of the concatenation of those chunks.
 */
module BitFlip {
  import opened ChunkLayout

  // ---------------------------------------------------------------- bits of a file

  /** 0x01 shifted left i times. */
  function Mask(i: nat): bv8 {
    if i == 0 then 0x01 else Mask(i - 1) << 1
  }

  lemma Masks()
    ensures Mask(0) == 0x01 && Mask(1) == 0x02 && Mask(2) == 0x04 && Mask(3) == 0x08
    ensures Mask(4) == 0x10 && Mask(5) == 0x20 && Mask(6) == 0x40 && Mask(7) == 0x80
  {
    assert Mask(1) == 0x02;
    assert Mask(2) == 0x04;
    assert Mask(3) == 0x08;
    assert Mask(4) == 0x10;
    assert Mask(5) == 0x20;
    assert Mask(6) == 0x40;
  }

  predicate Bit(x: bv8, i: nat)
    requires i < 8
  {
    x & Mask(i) != 0
  }

  predicate OneHot(m: bv8) {
    m == 0x01 || m == 0x02 || m == 0x04 || m == 0x08 || m == 0x10 || m == 0x20 || m == 0x40 || m == 0x80
  }

  lemma XorMask(x: bv8, m: bv8, n: bv8)
    requires OneHot(m) && OneHot(n)
    ensures ((x ^ m) & n != 0) == ((x & n != 0) != (m == n))
  {
  }

  lemma MasksDiffer(i: nat, j: nat)
    requires i < 8 && j < 8
    ensures OneHot(Mask(i)) && (Mask(i) == Mask(j) <==> i == j)
  {
    Masks();
  }

  lemma FlipsOneBit(x: bv8, i: nat, j: nat)
    requires i < 8 && j < 8
    ensures Bit(x ^ Mask(i), j) == (Bit(x, j) != (i == j))
  {
    MasksDiffer(i, j);
    MasksDiffer(j, i);
    XorMask(x, Mask(i), Mask(j));
  }

  lemma SameBits(x: bv8, y: bv8)
    requires forall i :: 0 <= i < 8 ==> Bit(x, i) == Bit(y, i)
    ensures x == y
  {
    Masks();
    assert Bit(x, 0) == Bit(y, 0) && Bit(x, 1) == Bit(y, 1) && Bit(x, 2) == Bit(y, 2) && Bit(x, 3) == Bit(y, 3);
    assert Bit(x, 4) == Bit(y, 4) && Bit(x, 5) == Bit(y, 5) && Bit(x, 6) == Bit(y, 6) && Bit(x, 7) == Bit(y, 7);
  }

  /** A bit of a file: which byte, and which bit of it. */
  datatype Place = Place(at: int, bit: int)

  predicate InFile(p: Place, size: nat) {
    0 <= p.at < size && 0 <= p.bit < 8
  }

  predicate Before(p: Place, q: Place) {
    p.at < q.at || (p.at == q.at && p.bit < q.bit)
  }

  predicate BitAt(f: seq<bv8>, p: Place)
    requires InFile(p, |f|)
  {
    Bit(f[p.at], p.bit)
  }

  function Flip(f: seq<bv8>, p: Place): (g: seq<bv8>)
    requires InFile(p, |f|)
    ensures |g| == |f|
  {
    f[p.at := f[p.at] ^ Mask(p.bit)]
  }

  predicate AllInFile(ps: seq<Place>, size: nat) {
    forall i :: 0 <= i < |ps| ==> InFile(ps[i], size)
  }

  predicate Ascending(ps: seq<Place>) {
    forall i, j :: 0 <= i < j < |ps| ==> Before(ps[i], ps[j])
  }

  /** Flips the listed bits one after the other. */
  function FlipAll(f: seq<bv8>, ps: seq<Place>): (g: seq<bv8>)
    requires AllInFile(ps, |f|)
    ensures |g| == |f|
    decreases |ps|
  {
    if ps == [] then f else FlipAll(Flip(f, ps[0]), ps[1..])
  }

  lemma FlipOtherByte(f: seq<bv8>, p: Place, q: Place)
    requires InFile(p, |f|) && InFile(q, |f|) && p.at != q.at
    ensures BitAt(Flip(f, p), q) == BitAt(f, q)
  {
  }

  lemma FlipSameByte(f: seq<bv8>, p: Place, q: Place)
    requires InFile(p, |f|) && InFile(q, |f|) && p.at == q.at
    requires Bit(f[p.at] ^ Mask(p.bit), q.bit) == (Bit(f[p.at], q.bit) != (p.bit == q.bit))
    ensures BitAt(Flip(f, p), q) == (BitAt(f, q) != (p.bit == q.bit))
  {
  }

  lemma FlipBitAt(f: seq<bv8>, p: Place, q: Place)
    requires InFile(p, |f|) && InFile(q, |f|)
    ensures BitAt(Flip(f, p), q) == (BitAt(f, q) != (p == q))
  {
    if p.at == q.at {
      FlipsOneBit(f[p.at], p.bit, q.bit);
      FlipSameByte(f, p, q);
    } else {
      FlipOtherByte(f, p, q);
    }
  }

  /** Afterwards a bit differs from the original exactly if it was listed. */
  lemma {:induction false} FlipAllBitAt(f: seq<bv8>, ps: seq<Place>, q: Place)
    requires AllInFile(ps, |f|) && Ascending(ps) && InFile(q, |f|)
    ensures BitAt(FlipAll(f, ps), q) == (BitAt(f, q) != (q in ps))
    decreases |ps|
  {
    if ps != [] {
      var p, rest := ps[0], ps[1..];
      FlipBitAt(f, p, q);
      FlipAllBitAt(Flip(f, p), rest, q);
      assert p !in rest;
      assert ps == [p] + rest;
    }
  }

  lemma EqualByBits(f: seq<bv8>, g: seq<bv8>)
    requires |f| == |g|
    requires forall q :: InFile(q, |f|) ==> BitAt(f, q) == BitAt(g, q)
    ensures f == g
  {
    forall b | 0 <= b < |f|
      ensures f[b] == g[b]
    {
      forall i | 0 <= i < 8
        ensures Bit(f[b], i) == Bit(g[b], i)
      {
        assert InFile(Place(b, i), |f|);
        assert BitAt(f, Place(b, i)) == BitAt(g, Place(b, i));
      }
      SameBits(f[b], g[b]);
    }
  }

  // ---------------------------------------------------------------- distance and undoing

  function DifferingBits(f: seq<bv8>, g: seq<bv8>): set<Place>
    requires |f| == |g|
  {
    set b, i | 0 <= b < |f| && 0 <= i < 8 && BitAt(f, Place(b, i)) != BitAt(g, Place(b, i)) :: Place(b, i)
  }

  function Members(ps: seq<Place>): (ms: set<Place>)
    ensures forall p :: p in ms <==> p in ps
  {
    if ps == [] then {} else {ps[0]} + Members(ps[1..])
  }

  lemma {:induction false} AscendingSize(ps: seq<Place>)
    requires Ascending(ps)
    ensures |Members(ps)| == |ps|
  {
    if ps != [] {
      AscendingSize(ps[1..]);
      assert ps[0] !in ps[1..];
    }
  }

  /** The Hamming distance from the original is the number of flips. */
  lemma FlipDistance(f: seq<bv8>, ps: seq<Place>)
    requires AllInFile(ps, |f|) && Ascending(ps)
    ensures |DifferingBits(f, FlipAll(f, ps))| == |ps|
  {
    var g, flipped := FlipAll(f, ps), Members(ps);
    forall q
      ensures q in flipped <==> q in DifferingBits(f, g)
    {
      if InFile(q, |f|) {
        FlipAllBitAt(f, ps, q);
        assert q == Place(q.at, q.bit);
      }
    }
    assert DifferingBits(f, g) == flipped;
    AscendingSize(ps);
  }

  /** Flipping the same bits again restores the file. */
  lemma FlipTwice(f: seq<bv8>, ps: seq<Place>)
    requires AllInFile(ps, |f|) && Ascending(ps)
    ensures FlipAll(FlipAll(f, ps), ps) == f
  {
    var g := FlipAll(f, ps);
    forall q | InFile(q, |f|)
      ensures BitAt(FlipAll(g, ps), q) == BitAt(f, q)
    {
      FlipAllBitAt(f, ps, q);
      FlipAllBitAt(g, ps, q);
    }
    EqualByBits(FlipAll(g, ps), f);
  }

  /** Bytes none of whose bits are listed keep their value. */
  lemma {:induction false} FlipFrame(f: seq<bv8>, ps: seq<Place>, b: nat)
    requires AllInFile(ps, |f|) && b < |f|
    requires forall i :: 0 <= i < |ps| ==> ps[i].at != b
    ensures FlipAll(f, ps)[b] == f[b]
    decreases |ps|
  {
    if ps != [] {
      FlipFrame(Flip(f, ps[0]), ps[1..], b);
    }
  }

  // ---------------------------------------------------------------- the virtual concatenation

  /** Where byte v of the concatenated selected chunks is in the file. */
  function Locate(o: Opts, v: nat): int
    requires ValidOpts(o)
    decreases v
  {
    if v < o.chunkSize then ChunkOffset(o, o.index) + v
    else Locate(o, v - o.chunkSize) + o.mod * o.chunkSize
  }

  function PlaceOf(o: Opts, v: nat): Place
    requires ValidOpts(o)
  {
    Place(Locate(o, v / 8), v % 8)
  }

  /** The k-th random number; a run over a file uses finitely many, and the rest do not matter. */
  function Draw(draws: seq<nat>, k: nat): nat {
    if k < |draws| then draws[k] else 0
  }

  function Gap(draw: nat): nat {
    if draw == 0 then 1 else draw
  }

  lemma {:induction false} LocateAtLeast(o: Opts, v: nat)
    requires ValidOpts(o)
    ensures Locate(o, v) >= v
  {
    if v < o.chunkSize {
      MulMono(0, o.index, o.chunkSize);
    } else {
      LocateAtLeast(o, v - o.chunkSize);
      MulMono(1, o.mod, o.chunkSize);
    }
  }

  /**
   The bits flipped from virtual bit v on, when the k-th draw led to v: v itself if it is inside
   the region, then those after it at gaps given by the later draws.
   */
  function Flips(o: Opts, size: nat, draws: seq<nat>, v: nat, k: nat): (ps: seq<Place>)
    requires ValidOpts(o)
    decreases 8 * size - v
  {
    LocateAtLeast(o, v / 8);
    if Locate(o, v / 8) >= Limit(o, size) then []
    else [PlaceOf(o, v)] + Flips(o, size, draws, v + Gap(Draw(draws, k + 1)), k + 1)
  }

  /** Every bit a run over a file of this size flips. */
  function AllFlips(o: Opts, size: nat, draws: seq<nat>): seq<Place>
    requires ValidOpts(o)
  {
    Flips(o, size, draws, Draw(draws, 0), 0)
  }

  lemma {:induction false} LocateIn(o: Opts, q: nat, r: nat)
    requires ValidOpts(o) && r < o.chunkSize
    ensures q * o.chunkSize >= 0
    ensures Locate(o, q * o.chunkSize + r) == ChunkOffset(o, o.index + q * o.mod) + r
    decreases q
  {
    if q > 0 {
      LocateIn(o, q - 1, r);
      assert q * o.chunkSize == (q - 1) * o.chunkSize + o.chunkSize;
      Spread(o.index + (q - 1) * o.mod, o.mod, o.chunkSize);
      assert o.index + q * o.mod == o.index + (q - 1) * o.mod + o.mod;
    }
  }

  lemma Spread(a: int, b: int, m: int)
    ensures (a + b) * m == a * m + b * m
  {
  }

  lemma {:induction false} LocateMono(o: Opts, v: nat, w: nat)
    requires ValidOpts(o) && v < w
    ensures Locate(o, v) < Locate(o, w)
    decreases v
  {
    if o.chunkSize <= v {
      LocateMono(o, v - o.chunkSize, w - o.chunkSize);
    } else if o.chunkSize <= w {
      LocateBase(o, w - o.chunkSize);
      MulMono(1, o.mod, o.chunkSize);
    }
  }

  lemma {:induction false} LocateBase(o: Opts, v: nat)
    requires ValidOpts(o)
    ensures Locate(o, v) >= ChunkOffset(o, o.index)
  {
    if o.chunkSize <= v {
      LocateBase(o, v - o.chunkSize);
      MulMono(0, o.mod, o.chunkSize);
    }
  }

  /** What Locate reaches is selected. */
  lemma LocateSelects(o: Opts, size: nat, v: nat)
    requires ValidOpts(o) && Locate(o, v) < Limit(o, size)
    ensures Affected(o, size, Locate(o, v))
  {
    var q, r := Split(v, o.chunkSize);
    LocateIn(o, q, r);
    var c := o.index + q * o.mod;
    Selects(o, q, c);
    InChunk(o, c, r, Locate(o, v));
  }

  lemma Split(v: nat, m: nat) returns (q: nat, r: nat)
    requires m > 0
    ensures v == q * m + r && r < m
  {
    q, r := v / m, v % m;
  }

  lemma Selects(o: Opts, q: nat, c: int)
    requires ValidOpts(o) && c == o.index + q * o.mod
    ensures 0 <= c && c % o.mod == o.index
  {
    MulMono(0, q, o.mod);
    DivUnique(c, o.mod, q, o.index);
  }

  lemma InChunk(o: Opts, c: nat, r: nat, b: int)
    requires ValidOpts(o) && r < o.chunkSize && b == ChunkOffset(o, c) + r
    ensures ChunkOf(o, b) == c && o.start <= b
  {
    ChunkOfIff(o, b, c);
    MulMono(0, c, o.chunkSize);
  }

  lemma PlaceMono(o: Opts, v: nat, w: nat)
    requires ValidOpts(o) && v < w
    ensures Before(PlaceOf(o, v), PlaceOf(o, w))
  {
    if v / 8 < w / 8 {
      LocateMono(o, v / 8, w / 8);
    }
  }

  /** The flips are in the file, strictly ascending, and all in selected chunks. */
  lemma {:induction false} FlipsAreSelected(o: Opts, size: nat, draws: seq<nat>, v: nat, k: nat)
    requires ValidOpts(o)
    ensures var ps := Flips(o, size, draws, v, k);
            && AllInFile(ps, size)
            && Ascending(ps)
            && (forall i :: 0 <= i < |ps| ==> ps[i] == PlaceOf(o, v) || Before(PlaceOf(o, v), ps[i]))
            && (forall i :: 0 <= i < |ps| ==> Affected(o, size, ps[i].at))
    decreases 8 * size - v
  {
    LocateAtLeast(o, v / 8);
    if Locate(o, v / 8) < Limit(o, size) {
      var w := v + Gap(Draw(draws, k + 1));
      FlipsAreSelected(o, size, draws, w, k + 1);
      LocateSelects(o, size, v / 8);
      PlaceMono(o, v, w);
    }
  }

  /** The concatenation covers every selected byte. */
  lemma LocateOnto(o: Opts, size: nat, b: nat) returns (v: nat)
    requires ValidOpts(o) && Affected(o, size, b)
    ensures Locate(o, v) == b
  {
    var c := ChunkOf(o, b);
    ChunkOfIff(o, b, c);
    AffectedIff(o, size, b);
    var q, r := c / o.mod, b - ChunkOffset(o, c);
    assert c == q * o.mod + o.index;
    LocateIn(o, q, r);
    v := q * o.chunkSize + r;
  }

  // ---------------------------------------------------------------- which draws give which flips

  /** The i-th virtual bit to flip: the first draw, then at least one further for every later draw. */
  function Position(draws: seq<nat>, i: nat): nat {
    if i == 0 then Draw(draws, 0)
    else Position(draws, i - 1) + if Draw(draws, i) < 1 then 1 else Draw(draws, i)
  }

  lemma {:induction false} FlipsFromAt(o: Opts, size: nat, draws: seq<nat>, k: nat, i: nat)
    requires ValidOpts(o)
    ensures var ps := Flips(o, size, draws, Position(draws, k), k);
            && (i < |ps| ==> ps[i] == PlaceOf(o, Position(draws, k + i)) && ps[i].at < Limit(o, size))
            && (i == |ps| ==> Locate(o, Position(draws, k + i) / 8) >= Limit(o, size))
    decreases i
  {
    var v := Position(draws, k);
    LocateAtLeast(o, v / 8);
    if Locate(o, v / 8) < Limit(o, size) && i > 0 {
      assert Position(draws, k + 1) == v + Gap(Draw(draws, k + 1));
      FlipsFromAt(o, size, draws, k + 1, i - 1);
    }
  }

  /** The i-th flip is at the i-th position, and the flips go on until a position lies beyond the region. */
  lemma FlipAt(o: Opts, size: nat, draws: seq<nat>, i: nat)
    requires ValidOpts(o) && i <= |AllFlips(o, size, draws)|
    ensures var ps := AllFlips(o, size, draws);
            if i < |ps| then ps[i] == PlaceOf(o, Position(draws, i)) && ps[i].at < Limit(o, size)
            else Locate(o, Position(draws, i) / 8) >= Limit(o, size)
  {
    FlipsFromAt(o, size, draws, 0, i);
  }

  // ---------------------------------------------------------------- which flips are possible

  ghost predicate Selected(o: Opts, size: nat, ps: seq<Place>)
    requires ValidOpts(o)
  {
    AllInFile(ps, size) && Ascending(ps) && forall i :: 0 <= i < |ps| ==> Affected(o, size, ps[i].at)
  }

  /** Flips only looks at the draws from its own on. */
  lemma {:induction false} FlipsShift(o: Opts, size: nat, d: nat, draws: seq<nat>, v: nat, k: nat)
    requires ValidOpts(o)
    ensures Flips(o, size, [d] + draws, v, k + 1) == Flips(o, size, draws, v, k)
    decreases 8 * size - v
  {
    LocateAtLeast(o, v / 8);
    if Locate(o, v / 8) < Limit(o, size) {
      assert Draw([d] + draws, k + 2) == Draw(draws, k + 1);
      FlipsShift(o, size, d, draws, v + Gap(Draw(draws, k + 1)), k + 1);
    }
  }

  lemma BitOnto(o: Opts, size: nat, p: Place) returns (v: nat)
    requires ValidOpts(o) && InFile(p, size) && Affected(o, size, p.at)
    ensures PlaceOf(o, v) == p && Locate(o, v / 8) < Limit(o, size)
  {
    var b := LocateOnto(o, size, p.at);
    v := 8 * b + p.bit;
    assert v / 8 == b && v % 8 == p.bit;
  }

  /** Draws that lead from virtual bit v through the listed bits and then past the end. */
  lemma {:induction false} DrawsFrom(o: Opts, size: nat, ps: seq<Place>, v: nat, first: nat) returns (draws: seq<nat>)
    requires ValidOpts(o) && Selected(o, size, ps)
    requires if ps == [] then v >= 8 * size else PlaceOf(o, v) == ps[0]
    ensures draws != [] && draws[0] == first
    ensures Flips(o, size, draws, v, 0) == ps
    decreases |ps|
  {
    if ps == [] {
      draws := [first];
      LocateAtLeast(o, v / 8);
    } else {
      var rest, w := ps[1..], v + 8 * size + 1;
      if rest != [] {
        w := BitOnto(o, size, rest[0]);
        assert Before(ps[0], ps[1]);
        if w < v {
          PlaceMono(o, w, v);
        }
      }
      var tail := DrawsFrom(o, size, rest, w, w - v);
      draws := [first] + tail;
      FlipsShift(o, size, first, tail, w, 0);
      assert Draw(draws, 1) == w - v;
      assert Flips(o, size, draws, v, 0) == [PlaceOf(o, v)] + Flips(o, size, draws, w, 1);
    }
  }

  /** The lists of bits some draws flip are exactly the ascending ones in affected bytes. */
  lemma PossibleFlips(o: Opts, size: nat, ps: seq<Place>)
    requires ValidOpts(o)
    ensures (exists draws :: AllFlips(o, size, draws) == ps) <==> Selected(o, size, ps)
  {
    if draws :| AllFlips(o, size, draws) == ps {
      FlipsAreSelected(o, size, draws, Draw(draws, 0), 0);
    }
    if Selected(o, size, ps) {
      var v := 8 * size;
      if ps != [] {
        v := BitOnto(o, size, ps[0]);
      }
      var draws := DrawsFrom(o, size, ps, v, v);
      assert AllFlips(o, size, draws) == ps;
    }
  }

  // ---------------------------------------------------------------- the loop over chunks

  /** Chunk c is the q-th selected one, and its first byte is byte `base` of the concatenation. */
  ghost predicate Numbered(o: Opts, c: int, q: nat, base: nat) {
    c == o.index + q * o.mod && base == q * o.chunkSize
  }

  lemma NumberNext(o: Opts, c: int, q: nat, base: nat)
    requires ValidOpts(o) && Numbered(o, c, q, base)
    ensures Numbered(o, c + o.mod, q + 1, base + o.chunkSize) && c >= 0
  {
    MulMono(0, q, o.mod);
  }

  /** Past the last selected chunk, nothing is flipped. */
  lemma PastTheEnd(o: Opts, size: nat, draws: seq<nat>, c: int, q: nat, base: nat, b: nat, k: nat)
    requires ValidOpts(o) && Numbered(o, c, q, base) && c >= Chunks(o, size)
    ensures Flips(o, size, draws, 8 * base + b, k) == []
  {
    ChunksExact(o, size, c);
    LocateIn(o, q, 0);
    var v := (8 * base + b) / 8;
    if v > base {
      LocateMono(o, base, v);
    }
  }

  /** Leaving a chunk loses no flips: a full one hands the rest on, a cut-off one has no rest. */
  lemma LeaveChunk(o: Opts, size: nat, draws: seq<nat>, c: int, q: nat, base: nat, b: nat, k: nat)
    requires ValidOpts(o) && Numbered(o, c, q, base) && 0 <= c < Chunks(o, size)
    requires b / 8 >= ChunkEnd(o, size, c) - ChunkOffset(o, c) >= 0
    ensures Flips(o, size, draws, 8 * base + b, k) ==
            Flips(o, size, draws, 8 * (base + o.chunkSize) + (b - 8 * (ChunkEnd(o, size, c) - ChunkOffset(o, c))), k)
  {
    var chunk := ChunkEnd(o, size, c) - ChunkOffset(o, c);
    NumberNext(o, c, q, base);
    if chunk < o.chunkSize {
      LocateIn(o, q, chunk);
      assert Locate(o, base + chunk) == Limit(o, size);
      var v := (8 * base + b) / 8;
      if base + chunk < v {
        LocateMono(o, base + chunk, v);
      }
      OffsetMono(o, c, c + o.mod);
      ChunksExact(o, size, c + o.mod);
      PastTheEnd(o, size, draws, c + o.mod, q + 1, base + o.chunkSize, b - 8 * chunk, k);
    }
  }

  /** Reads one byte, flips one of its bits, writes it back. */
  method FlipInPlace(file: array<bv8>, at: nat, targetBit: nat)
    requires at < file.Length && targetBit < 8
    modifies file
    ensures file[..] == Flip(old(file[..]), Place(at, targetBit))
  {
    var buf := file[at];
    buf := buf ^ Mask(targetBit);
    file[at] := buf;
  }

  /** The run from virtual bit v on turns f into `final` with so many flips. */
  ghost predicate Owes(o: Opts, draws: seq<nat>, f: seq<bv8>, v: nat, k: nat, final: seq<bv8>, flips: int)
    requires ValidOpts(o)
  {
    var ps := Flips(o, |f|, draws, v, k);
    AllInFile(ps, |f|) && FlipAll(f, ps) == final && |ps| == flips
  }

  /** One flip is one step of the run. */
  lemma StepRun(o: Opts, draws: seq<nat>, f: seq<bv8>, v: nat, k: nat, at: nat, bit: nat,
                final: seq<bv8>, flips: int, w: nat)
    requires w == v + Gap(Draw(draws, k + 1))
    requires ValidOpts(o) && Locate(o, v / 8) == at < Limit(o, |f|) && bit == v % 8
    requires Owes(o, draws, f, v, k, final, flips)
    ensures at < |f| && flips > 0
    ensures Owes(o, draws, Flip(f, Place(at, bit)), w, k + 1, final, flips - 1)
  {
    var ps := Flips(o, |f|, draws, v, k);
    assert ps[1..] == Flips(o, |f|, draws, v + Gap(Draw(draws, k + 1)), k + 1);
  }

  /** Flips the bit the run has come to. */
  method FlipNext(o: Opts, file: array<bv8>, at: nat, targetBit: nat, ghost draws: seq<nat>, ghost v: nat, ghost k: nat,
                  ghost final: seq<bv8>, ghost due: int)
    requires ValidOpts(o) && Locate(o, v / 8) == at < Limit(o, file.Length) && targetBit == v % 8
    requires Owes(o, draws, file[..], v, k, final, due)
    modifies file
    ensures due > 0 && Owes(o, draws, file[..], v + Gap(Draw(draws, k + 1)), k + 1, final, due - 1)
  {
    StepRun(o, draws, file[..], v, k, at, targetBit, final, due, v + Gap(Draw(draws, k + 1)));
    FlipInPlace(file, at, targetBit);
  }

  lemma InBits(base: nat, bits: nat)
    ensures (8 * base + bits) / 8 == base + bits / 8 && (8 * base + bits) % 8 == bits % 8
  {
  }

  /** The inner loop: flips within one chunk until the next flip lies beyond it. */
  method FlipChunk(o: Opts, file: array<bv8>, draws: seq<nat>, start: nat, chunkSize: nat,
                   bitOffset0: nat, k0: nat, ghost base: nat, ghost final: seq<bv8>, ghost owed: nat)
    returns (bitOffset: nat, k: nat, flipped: nat)
    requires ValidOpts(o)
    requires forall x :: base <= x < base + chunkSize ==> Locate(o, x) == start + (x - base) < Limit(o, file.Length)
    requires Owes(o, draws, file[..], 8 * base + bitOffset0, k0, final, owed)
    modifies file
    ensures flipped <= owed && bitOffset / 8 >= chunkSize
    ensures Owes(o, draws, file[..], 8 * base + bitOffset, k, final, owed - flipped)
  {
    bitOffset, k, flipped := bitOffset0, k0, 0;
    var byteOffset := bitOffset / 8;
    ghost var v, due := 8 * base + bitOffset, owed;
    while byteOffset < chunkSize
      invariant byteOffset == bitOffset / 8 && v == 8 * base + bitOffset
      invariant due >= 0 && due + flipped == owed
      invariant Owes(o, draws, file[..], v, k, final, due)
      decreases 8 * chunkSize - bitOffset
    {
      var targetBit := bitOffset % 8;
      InBits(base, bitOffset);
      var delta := Draw(draws, k + 1);
      FlipNext(o, file, start + byteOffset, targetBit, draws, v, k, final, due);
      flipped := flipped + 1;
      v, due := v + Gap(delta), due - 1;
      if delta == 0 { delta := 1; }
      k := k + 1;
      bitOffset := bitOffset + delta;
      byteOffset := bitOffset / 8;
    }
  }

  /** Where the bytes of a selected chunk are in the concatenation. */
  lemma ChunkBytes(o: Opts, size: nat, c: int, q: nat, base: nat)
    requires ValidOpts(o) && Numbered(o, c, q, base) && 0 <= c < Chunks(o, size)
    ensures 0 <= ChunkOffset(o, c) < ChunkEnd(o, size, c)
    ensures forall x :: base <= x < base + (ChunkEnd(o, size, c) - ChunkOffset(o, c)) ==>
              Locate(o, x) == ChunkOffset(o, c) + (x - base) < Limit(o, size)
  {
    MulMono(0, c, o.chunkSize);
    ChunksExact(o, size, c);
    forall x | base <= x < base + (ChunkEnd(o, size, c) - ChunkOffset(o, c))
      ensures Locate(o, x) == ChunkOffset(o, c) + (x - base) < Limit(o, size)
    {
      LocateIn(o, q, x - base);
    }
  }

  /** Leaving a chunk changes nothing about the rest of the run. */
  lemma LeaveOwing(o: Opts, draws: seq<nat>, f: seq<bv8>, c: int, q: nat, base: nat, b: nat, w: nat, k: nat,
                   final: seq<bv8>, flips: nat)
    requires ValidOpts(o) && Numbered(o, c, q, base) && 0 <= c < Chunks(o, |f|)
    requires b / 8 >= ChunkEnd(o, |f|, c) - ChunkOffset(o, c) >= 0
    requires w == 8 * (base + o.chunkSize) + (b - 8 * (ChunkEnd(o, |f|, c) - ChunkOffset(o, c)))
    ensures Owes(o, draws, f, 8 * base + b, k, final, flips) ==> Owes(o, draws, f, w, k, final, flips)
  {
    LeaveChunk(o, |f|, draws, c, q, base, b, k);
  }

  method CorruptBitflip(o: Opts, file: array<bv8>, draws: seq<nat>) returns (bitsFlipped: nat)
    requires ValidOpts(o)
    modifies file
    ensures AllInFile(AllFlips(o, file.Length, draws), file.Length)
    ensures file[..] == FlipAll(old(file[..]), AllFlips(o, file.Length, draws))
    ensures bitsFlipped == |AllFlips(o, file.Length, draws)|
  {
    var size := file.Length;
    var count := ChunkCount(o, size);
    FlipsAreSelected(o, size, draws, Draw(draws, 0), 0);
    ghost var final, total := FlipAll(file[..], AllFlips(o, size, draws)), |AllFlips(o, size, draws)|;
    bitsFlipped := 0;
    var chunk := o.index;
    var k := 0;
    var bitOffset: nat := Draw(draws, 0);
    ghost var q: nat, base: nat, v: nat, owed: nat := 0, 0, bitOffset, total;
    while chunk < count
      invariant Numbered(o, chunk, q, base) && v == 8 * base + bitOffset
      invariant bitsFlipped + owed == total
      invariant Owes(o, draws, file[..], v, k, final, owed)
      decreases count - chunk
    {
      var start := ChunkOffset(o, chunk);
      var end := start + o.chunkSize;
      if size < end { end := size; }
      if o.end < end { end := o.end; }
      NumberNext(o, chunk, q, base);
      ChunkBytes(o, size, chunk, q, base);
      var flipped;
      bitOffset, k, flipped := FlipChunk(o, file, draws, start, end - start, bitOffset, k, base, final, owed);
      bitsFlipped := bitsFlipped + flipped;
      owed := owed - flipped;
      v := 8 * (base + o.chunkSize) + (bitOffset - 8 * (end - start));
      LeaveOwing(o, draws, file[..], chunk, q, base, bitOffset, v, k, final, owed);
      bitOffset := bitOffset - (end - start) * 8;
      chunk, q, base := chunk + o.mod, q + 1, base + o.chunkSize;
    }
    PastTheEnd(o, size, draws, chunk, q, base, bitOffset, k);
  }

  /** What a run does to a file, for any draws. */
  lemma BitflipEffect(o: Opts, f: seq<bv8>, draws: seq<nat>)
    requires ValidOpts(o)
    ensures var ps := AllFlips(o, |f|, draws);
            && AllInFile(ps, |f|)
            && var g := FlipAll(f, ps);
               && |DifferingBits(f, g)| == |ps|
               && (forall b :: 0 <= b < |f| && !Affected(o, |f|, b) ==> g[b] == f[b])
               && FlipAll(g, AllFlips(o, |g|, draws)) == f
  {
    var ps := AllFlips(o, |f|, draws);
    FlipsAreSelected(o, |f|, draws, Draw(draws, 0), 0);
    FlipDistance(f, ps);
    FlipTwice(f, ps);
    forall b | 0 <= b < |f| && !Affected(o, |f|, b)
      ensures FlipAll(f, ps)[b] == f[b]
    {
      FlipFrame(f, ps, b);
    }
  }
}
