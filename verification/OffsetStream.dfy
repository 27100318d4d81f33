/**
 An output stream tied to a file channel at an offset, with a running count and checksum. However
 the three write methods are mixed, the file is its old self with one contiguous run of bytes laid
 over it: the log of everything written.
 */
module OffsetStream {

  type Byte = n: int | 0 <= n < 256

  /** `base` with `bs` laid over it from `at` on; a gap past the end reads as zeros. */
  function Overlay(base: seq<Byte>, at: nat, bs: seq<Byte>): (r: seq<Byte>) {
    if bs == [] then base else Front(base, at) + bs + Tail(base, at + |bs|)
  }

  function Front(base: seq<Byte>, n: nat): (r: seq<Byte>)
    ensures |r| == n && forall i :: 0 <= i < n && i < |base| ==> r[i] == base[i]
  {
    if n <= |base| then base[..n] else base + seq(n - |base|, _ => 0)
  }

  function Tail(base: seq<Byte>, n: nat): (r: seq<Byte>) {
    if n < |base| then base[n..] else []
  }

  lemma OverlayParts(base: seq<Byte>, at: nat, a: seq<Byte>, end: nat)
    requires a != [] && at + |a| <= end
    ensures var once := Overlay(base, at, a);
            Front(once, at + |a|) == Front(base, at) + a && Tail(once, end) == Tail(base, end)
  {
  }

  /** Overlaying in two goes, the second right after the first, is overlaying once. */
  lemma OverlayTwice(base: seq<Byte>, at: nat, a: seq<Byte>, b: seq<Byte>)
    ensures Overlay(Overlay(base, at, a), at + |a|, b) == Overlay(base, at, a + b)
  {
    if a == [] {
      assert a + b == b;
    } else if b == [] {
      assert a + b == a;
    } else {
      OverlayParts(base, at, a, at + |a| + |b|);
      OverlayOnto(base, at, a, b, Overlay(base, at, a));
    }
  }

  lemma OverlayOnto(base: seq<Byte>, at: nat, a: seq<Byte>, b: seq<Byte>, once: seq<Byte>)
    requires a != [] && b != []
    requires Front(once, at + |a|) == Front(base, at) + a
    requires Tail(once, at + |a| + |b|) == Tail(base, at + |a| + |b|)
    ensures Overlay(once, at + |a|, b) == Overlay(base, at, a + b)
  {
    Associates(Front(base, at), a, b, Tail(base, at + |a| + |b|));
  }

  lemma Associates(w: seq<Byte>, x: seq<Byte>, y: seq<Byte>, z: seq<Byte>)
    ensures (w + x) + y + z == w + (x + y) + z
  {
    assert (w + x) + y == w + (x + y);
  }

  /** What an overlay is, byte by byte: the region holds the bytes laid over it, the rest is as before. */
  lemma OverlayIff(base: seq<Byte>, at: nat, bs: seq<Byte>, r: seq<Byte>)
    requires bs != []
    ensures r == Overlay(base, at, bs) <==>
            && |r| == (if at + |bs| < |base| then |base| else at + |bs|)
            && r[at..at + |bs|] == bs
            && forall i :: 0 <= i < |r| && !(at <= i < at + |bs|) ==> r[i] == if i < |base| then base[i] else 0
  {
    var over := Overlay(base, at, bs);
    assert over[at..at + |bs|] == bs;
    if |r| == |over| && r[at..at + |bs|] == bs {
      forall i | at <= i < at + |bs|
        ensures r[i] == over[i]
      {
        assert r[i] == r[at..at + |bs|][i - at];
      }
    }
  }

  /** A checksum fed one byte at a time. */
  function Fold(step: (nat, Byte) -> nat, sum: nat, bs: seq<Byte>): nat {
    if bs == [] then sum else step(Fold(step, sum, bs[..|bs| - 1]), bs[|bs| - 1])
  }

  /** One byte is one step. */
  lemma FoldByte(step: (nat, Byte) -> nat, sum: nat, bs: seq<Byte>, b: Byte)
    ensures Fold(step, sum, []) == sum && Fold(step, sum, [b]) == step(sum, b)
    ensures Fold(step, sum, bs + [b]) == step(Fold(step, sum, bs), b)
  {
    assert [b][..0] == [] && (bs + [b])[..|bs|] == bs;
  }

  lemma {:induction false} FoldConcat(step: (nat, Byte) -> nat, sum: nat, a: seq<Byte>, b: seq<Byte>)
    ensures Fold(step, sum, a + b) == Fold(step, Fold(step, sum, a), b)
  {
    if b == [] {
      assert a + b == a;
    } else {
      FoldConcat(step, sum, a, b[..|b| - 1]);
      assert (a + b)[..|a + b| - 1] == a + b[..|b| - 1];
    }
  }

  class FileChannel {
    var bytes: seq<Byte>

    constructor (bytes: seq<Byte>)
      ensures this.bytes == bytes
    {
      this.bytes := bytes;
    }

    method Write(buf: seq<Byte>, position: nat) returns (written: nat)
      modifies this
      ensures bytes == Overlay(old(bytes), position, buf) && written == |buf|
    {
      bytes := Overlay(bytes, position, buf);
      written := |buf|;
    }
  }

  class Checksum {
    const step: (nat, Byte) -> nat
    var sum: nat

    constructor (step: (nat, Byte) -> nat, sum: nat)
      ensures this.step == step && this.sum == sum
    {
      this.step := step;
      this.sum := sum;
    }

    method Update(bs: seq<Byte>)
      modifies this
      ensures sum == Fold(step, old(sum), bs)
    {
      for i := 0 to |bs|
        invariant sum == Fold(step, old(sum), bs[..i])
      {
        assert bs[..i + 1][..i] == bs[..i];
        sum := step(sum, bs[i]);
      }
      assert bs[..|bs|] == bs;
    }
  }

  class FileOffsetOutputStream {
    const file: FileChannel
    const offset: nat
    const checksum: Checksum
    var singleByteBuffer: Byte
    var currentOffset: nat
    ghost const base: seq<Byte>
    ghost const initialSum: nat
    ghost var log: seq<Byte>

    ghost predicate Valid()
      reads this, file, checksum
    {
      && currentOffset == offset + |log|
      && file.bytes == Overlay(base, offset, log)
      && checksum.sum == Fold(checksum.step, initialSum, log)
    }

    constructor (file: FileChannel, offset: nat, checksum: Checksum)
      ensures Valid() && log == [] && this.file == file && this.offset == offset && this.checksum == checksum
      ensures base == file.bytes && initialSum == checksum.sum
    {
      this.file, this.offset, this.checksum := file, offset, checksum;
      currentOffset, singleByteBuffer := offset, 0;
      base, initialSum, log := file.bytes, checksum.sum, [];
    }

    method BytesWritten() returns (n: int)
      requires Valid()
      ensures n == |log|
    {
      n := currentOffset - offset;
    }

    /** What the log becomes with more bytes, and what the file and checksum must then be. */
    lemma Log(bs: seq<Byte>) returns (longer: seq<Byte>)
      requires Valid()
      ensures longer == log + bs
      ensures Overlay(file.bytes, currentOffset, bs) == Overlay(base, offset, longer)
      ensures Fold(checksum.step, checksum.sum, bs) == Fold(checksum.step, initialSum, longer)
    {
      longer := log + bs;
      OverlayTwice(base, offset, log, bs);
      FoldConcat(checksum.step, initialSum, log, bs);
    }

    /** One byte, through the one-byte buffer; only the low eight bits count. */
    method Write(b: int)
      requires Valid()
      modifies this, file, checksum
      ensures Valid() && log == old(log) + [b % 256]
    {
      ghost var longer := Log([b % 256]);
      singleByteBuffer := b % 256;
      var written := file.Write([singleByteBuffer], currentOffset);
      currentOffset := currentOffset + written;
      checksum.Update([b % 256]);
      log := longer;
    }

    method WriteAll(bs: seq<Byte>)
      requires Valid()
      modifies this, file, checksum
      ensures Valid() && log == old(log) + bs
    {
      ghost var longer := Log(bs);
      var written := file.Write(bs, currentOffset);
      currentOffset := currentOffset + written;
      checksum.Update(bs);
      log := longer;
    }

    /**
     Part of an array; a range outside it throws and changes nothing. `asserted` is the source's
     own check, which compares the bytes written with the buffer's limit (start plus len): it
     holds exactly for ranges that start at 0.
     */
    method WriteRange(bs: seq<Byte>, start: int, len: int) returns (threw: bool, asserted: bool)
      requires Valid()
      modifies this, file, checksum
      ensures Valid()
      ensures threw <==> !(0 <= start && 0 <= len && start + len <= |bs|)
      ensures log == if threw then old(log) else old(log) + bs[start..start + len]
      ensures !threw ==> (asserted <==> start == 0)
    {
      if start < 0 || len < 0 || start + len > |bs| { return true, false; }
      var part := bs[start..start + len];
      var limit := start + len;
      ghost var longer := Log(part);
      var written := file.Write(part, currentOffset);
      asserted := written == limit;
      currentOffset := currentOffset + written;
      checksum.Update(part);
      log := longer;
      threw := false;
    }
  }
}
