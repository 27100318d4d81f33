/**
 The reader itself: an object that moves a position through its input and updates two caches, a
 byte count and a scratch buffer. Every method is proved to do what the decoder function of its
 state says, on every input, and to end in a value or an exception.
 */
module FressianReader {
  import opened FressianFormat
  import opened FressianDecoder
  import FressianRuns

  datatype Outcome<T> = Returned(value: T) | Threw {
    predicate IsFailure() { Threw? }
    function PropagateFailure<U>(): Outcome<U>
      requires Threw?
    {
      Threw
    }
    function Extract(): T
      requires Returned?
    {
      value
    }
  }

  /** The method returned what the function says, in the state the function says, or both failed. */
  ghost predicate Agrees<T>(o: Outcome<T>, r: Result<T>, now: State) {
    if o.Returned? then r == Ok(o.value, now) else r.Fail?
  }

  /** An object read that has to yield an integer. */
  ghost function AsInt(r: Result<Value>): Result<int> {
    if r.Ok? && r.value.Int? then Ok(r.value.n, r.st) else Fail
  }

  /** A result that has to fit a Java array. */
  ghost function Capped(r: Result<seq<Byte>>): Result<seq<Byte>> {
    if r.Ok? && |r.value| < 0x8000_0000 then r else Fail
  }

  function Flatten(chunks: seq<seq<Byte>>): seq<Byte> {
    if chunks == [] then [] else Flatten(chunks[..|chunks| - 1]) + chunks[|chunks| - 1]
  }

  /** Java int addition of a length. */
  function Add32(a: int, b: nat): (c: int)
    requires IsInt32(a) && IsInt32(b)
    ensures IsInt32(c)
  {
    if a + b < 0x8000_0000 then a + b else a + b - 0x1_0000_0000
  }

  lemma FlattenTake(chunks: seq<seq<Byte>>, n: nat)
    requires n < |chunks|
    ensures Flatten(chunks[..n + 1]) == Flatten(chunks[..n]) + chunks[n]
  {
    assert chunks[..n + 1][..n] == chunks[..n];
  }

  lemma FlattenGrows(chunks: seq<seq<Byte>>, n: nat)
    requires n <= |chunks|
    ensures |Flatten(chunks[..n])| <= |Flatten(chunks)|
    decreases |chunks| - n
  {
    if n == |chunks| {
      assert chunks[..n] == chunks;
    } else {
      FlattenTake(chunks, n);
      FlattenGrows(chunks, n + 1);
    }
  }

  /** The sum of the chunk lengths, in Java's int: right until it overflows. */
  method TotalLength(chunks: seq<seq<Byte>>) returns (length: int)
    requires forall i :: 0 <= i < |chunks| ==> |chunks[i]| < 0x8000_0000
    ensures IsInt32(length)
    ensures |Flatten(chunks)| < 0x8000_0000 ==> length == |Flatten(chunks)|
  {
    length := 0;
    for n := 0 to |chunks|
      invariant IsInt32(length)
      invariant |Flatten(chunks[..n])| < 0x8000_0000 ==> length == |Flatten(chunks[..n])|
    {
      FlattenTake(chunks, n);
      length := Add32(length, |chunks[n]|);
    }
    assert chunks[..|chunks|] == chunks;
  }

  /** Joins byte chunks; fails exactly when the total does not fit a Java array. */
  method JoinChunks(chunks: seq<seq<Byte>>) returns (r: Outcome<seq<Byte>>)
    requires forall i :: 0 <= i < |chunks| ==> |chunks[i]| < 0x8000_0000
    ensures r == if |Flatten(chunks)| < 0x8000_0000 then Returned(Flatten(chunks)) else Threw
  {
    var length := TotalLength(chunks);
    if length < 0 { return Threw; }
    var result := new Byte[length];
    var pos := 0;
    for n := 0 to |chunks|
      invariant pos == |Flatten(chunks[..n])| <= length
      invariant result[..pos] == Flatten(chunks[..n])
    {
      FlattenTake(chunks, n);
      FlattenGrows(chunks, n + 1);
      if pos + |chunks[n]| > length { return Threw; }
      forall i | 0 <= i < |chunks[n]| { result[pos + i] := chunks[n][i]; }
      assert result[..pos + |chunks[n]|] == Flatten(chunks[..n]) + chunks[n];
      pos := pos + |chunks[n]|;
    }
    assert chunks[..|chunks|] == chunks;
    return Returned(result[..pos]);
  }

  class FressianReader {
    const input: seq<Byte>
    var pos: nat
    var bytesRead: nat
    var priorityCache: seq<Value>
    var structCache: seq<StructType>
    var byteBuffer: seq<Byte>
    ghost var resets: nat
    ghost var gets: seq<nat>
    ghost var puts: nat
    ghost var openPuts: seq<nat>
    ghost var irregular: bool
    ghost var clearedInPut: bool

    /**
     Kept at every depth, in success and failure: until a reset or footer inside a PUT, the slots
     that hold the placeholder are exactly those of the PUTs being read.
     */
    ghost predicate Valid()
      reads this
    {
      pos <= |input| && (clearedInPut || PutsAccounted())
    }

    ghost predicate PutsAccounted()
      reads this
    {
      forall i :: (0 <= i < |priorityCache| && priorityCache[i] == UnderConstruction) <==> i in openPuts
    }

    /** Only clearing the caches can part the pending slots from the open PUTs, and nothing mends that. */
    ghost predicate Accounts(resetsBefore: nat, clearedBefore: bool)
      reads this
    {
      && resetsBefore <= resets
      && (clearedBefore ==> clearedInPut)
      && (clearedInPut ==> clearedBefore || resetsBefore < resets)
    }

    ghost function Now(): State
      requires Valid()
      reads this
    {
      State(input[pos..], bytesRead, priorityCache, structCache, resets, gets, puts, openPuts, irregular)
    }

    constructor (input: seq<Byte>)
      ensures Valid() && Now() == Fresh(input) && !clearedInPut
    {
      this.input := input;
      pos, bytesRead := 0, 0;
      priorityCache, structCache, byteBuffer := [], [], [];
      resets, gets, puts, openPuts, irregular, clearedInPut := 0, [], 0, [], false, false;
    }

    method ReadNextCode() returns (r: Outcome<Byte>)
      requires Valid()
      modifies this
      ensures Valid() && Agrees(r, NextCode(old(Now())), Now())
      ensures Accounts(old(resets), old(clearedInPut))
      ensures r.Threw? ==> Now() == old(Now())
    {
      if pos == |input| { return Threw; }
      r := Returned(input[pos]);
      pos, bytesRead := pos + 1, bytesRead + 1;
      assert input[old(pos)..][1..] == input[pos..];
    }

    method ReadFully(n: int) returns (r: Outcome<seq<Byte>>)
      requires Valid()
      modifies `pos, `bytesRead
      ensures Valid() && Agrees(r, TakeBytes(old(Now()), n), Now())
    {
      if n < 0 || pos + n > |input| { return Threw; }
      r := Returned(input[pos..pos + n]);
      pos, bytesRead := pos + n, bytesRead + n;
      assert input[old(pos)..][n..] == input[pos..];
      assert input[old(pos)..][..n] == input[old(pos)..pos];
    }

    /** Reads into the scratch buffer, which only grows; stale bytes past `n` stay behind. */
    method ReadStringBytes(n: int) returns (r: Outcome<seq<Byte>>)
      requires Valid()
      modifies this
      ensures Valid() && Agrees(r, TakeBytes(old(Now()), n), Now())
      ensures Accounts(old(resets), old(clearedInPut))
    {
      if n < 0 { return Threw; }
      if |byteBuffer| < n { byteBuffer := seq(n, _ => 0); }
      var bs :- ReadFully(n);
      byteBuffer := bs + byteBuffer[n..];
      assert byteBuffer[..n] == bs;
      return Returned(byteBuffer[..n]);
    }

    method ResetCaches()
      requires Valid()
      modifies this
      ensures Valid() && Now() == ClearCaches(old(Now())) && pos == old(pos)
      ensures clearedInPut <==> old(clearedInPut) || old(openPuts) != []
    {
      priorityCache, structCache := [], [];
      clearedInPut := clearedInPut || openPuts != [];
      resets, puts := resets + 1, 0;
    }

    method LookupPriority(index: int) returns (r: Outcome<Value>)
      requires Valid()
      modifies this
      ensures Valid() && Agrees(r, Lookup(old(Now()), index), Now())
      ensures Accounts(old(resets), old(clearedInPut))
    {
      if index < 0 || |priorityCache| <= index || priorityCache[index] == UnderConstruction { return Threw; }
      gets := gets + [index];
      return Returned(priorityCache[index]);
    }

    method ValidateFooter() returns (r: Outcome<()>)
      requires Valid()
      modifies this
      ensures Valid() && Agrees(r, CheckFooter(old(Now())), Now())
      ensures Accounts(old(resets), old(clearedInPut))
    {
      var calculatedLength := bytesRead - 1;
      var magic :- ReadFully(3);
      if FromBigEndian(magic) != FOOTER_MAGIC_TAIL { return Threw; }
      var length :- ReadFully(4);
      if FromBigEndian(length) != calculatedLength % 0x1_0000_0000 { return Threw; }
      var _ :- ReadFully(4);
      bytesRead, irregular := 0, true;
      ResetCaches();
      return Returned(());
    }

    method ReadObject() returns (r: Outcome<Value>)
      requires Valid()
      modifies this
      ensures Valid() && Agrees(r, FressianDecoder.ReadObject(old(Now())), Now())
      ensures Accounts(old(resets), old(clearedInPut))
      decreases |input| - pos, 0
    {
      var code :- ReadNextCode();
      r := Read(code);
    }

    method Read(code: Byte) returns (r: Outcome<Value>)
      requires Valid()
      modifies this
      ensures Valid() && Agrees(r, ReadKind(Classify(code), old(Now())), Now())
      ensures Accounts(old(resets), old(clearedInPut))
      decreases |input| - pos, 6
    {
      match Classify(code)
      case KCountedBlob(_) => r := ReadBlob(code);
      case KChunkedBlob(_) => r := ReadBlob(code);
      case KList(_) => r := ReadList(code);
      case KCountedList => r := ReadList(code);
      case KDelimitedList(_) => r := ReadList(code);
      case KPut => r := ReadAndCacheObject();
      case KGet => r := ReadReference();
      case KGetPacked(i) => r := LookupPriority(i);
      case KStructType => r := ReadStructType();
      case KStruct => r := ReadIndexedStruct();
      case KStructPacked(i) => r := ReadKnownStruct(i);
      case KPredefined(name, n) => r := HandleStruct(Str(Ascii(name)), n);
      case KFooter => r := ReadRestarted(code);
      case KReset => r := ReadRestarted(code);
      case KUnexpected => return Threw;
      case _ => r := ReadScalar(code);
    }

    /** The arms of Read that clear the caches and read on. */
    method ReadRestarted(code: Byte) returns (r: Outcome<Value>)
      requires Valid() && (Classify(code).KFooter? || Classify(code).KReset?)
      modifies this
      ensures Valid() && Agrees(r, ReadKind(Classify(code), old(Now())), Now())
      ensures Accounts(old(resets), old(clearedInPut))
      decreases |input| - pos, 5
    {
      if Classify(code).KFooter? {
        var _ :- ValidateFooter();
        r := ReadObject();
      } else {
        ResetCaches();
        r := ReadObject();
      }
    }

    /** The list arms of Read. */
    method ReadList(code: Byte) returns (r: Outcome<Value>)
      requires Valid() && (Classify(code).KList? || Classify(code).KCountedList? || Classify(code).KDelimitedList?)
      modifies this
      ensures Valid() && Agrees(r, ReadKind(Classify(code), old(Now())), Now())
      ensures Accounts(old(resets), old(clearedInPut))
      decreases |input| - pos, 5
    {
      var items: seq<Value>;
      match Classify(code) {
        case KList(length) => items :- ReadObjects(length);
        case KCountedList =>
          var n :- ReadCount();
          items :- ReadObjects(n);
        case KDelimitedList(open) =>
          if open { items :- ReadOpenList(); } else { items :- ReadClosedList(); }
      }
      return Returned(Vector(items));
    }

    /** The arms of Read that read no other object. */
    method ReadScalar(code: Byte) returns (r: Outcome<Value>)
      requires Valid()
      requires match Classify(code)
               case KInt(_) => true
               case KPackedInt(_, _) => true
               case KInt64 => true
               case KNull => true
               case KBool(_) => true
               case KDouble => true
               case KDoubleConst(_) => true
               case KFloat => true
               case KBlob(_, _) => true
               case _ => false
      modifies this
      ensures Valid() && Agrees(r, ReadKind(Classify(code), old(Now())), Now())
      ensures Accounts(old(resets), old(clearedInPut))
    {
      match Classify(code)
      case KInt(_) =>
        var n :- ReadInteger(code);
        return Returned(Int(n));
      case KPackedInt(_, _) =>
        var n :- ReadInteger(code);
        return Returned(Int(n));
      case KInt64 =>
        var n :- ReadInteger(code);
        return Returned(Int(n));
      case KNull => return Returned(Null);
      case KBool(b) => return Returned(Bool(b));
      case KDouble =>
        var raw :- ReadFully(8);
        return Returned(Double(raw));
      case KDoubleConst(bits) => return Returned(Double(bits));
      case KFloat =>
        var raw :- ReadFully(4);
        return Returned(Float(raw));
      case KBlob(text, length) =>
        var bs: seq<Byte>;
        if text { bs :- ReadStringBytes(length); } else { bs :- ReadFully(length); }
        return Returned(Blob(text, bs));
    }

    method ReadBlob(code: Byte) returns (r: Outcome<Value>)
      requires Valid() && (Classify(code).KCountedBlob? || Classify(code).KChunkedBlob?)
      modifies this
      ensures Valid() && Agrees(r, ReadKind(Classify(code), old(Now())), Now())
      ensures Accounts(old(resets), old(clearedInPut))
      decreases |input| - pos, 5
    {
      match Classify(code)
      case KCountedBlob(text) =>
        var bs :- ReadCountedBytes(text);
        return Returned(Blob(text, bs));
      case KChunkedBlob(text) =>
        var bs: seq<Byte>;
        if text {
          bs :- InternalReadChunkedString();
          if |bs| >= 0x8000_0000 { return Threw; }
        } else {
          bs :- InternalReadChunkedBytes();
        }
        return Returned(Blob(text, bs));
    }

    /** The integer arms, which Read and InternalReadInt have in common. */
    method ReadInteger(code: Byte) returns (r: Outcome<int>)
      requires Valid() && (Classify(code).KInt? || Classify(code).KPackedInt? || Classify(code).KInt64?)
      modifies `pos, `bytesRead
      ensures Valid() && Agrees(r, AsInt(ReadKind(Classify(code), old(Now()))), Now())
    {
      match Classify(code)
      case KInt(n) => return Returned(n);
      case KPackedInt(high, width) =>
        var raw :- ReadFully(width);
        return Returned(high * Pow256(width) + FromBigEndian(raw));
      case KInt64 =>
        var raw :- ReadFully(8);
        return Returned(Signed64(FromBigEndian(raw)));
    }

    /** Integers in place, anything else through Read. */
    method InternalReadInt() returns (r: Outcome<int>)
      requires Valid()
      modifies this
      ensures Valid() && Agrees(r, AsInt(FressianDecoder.ReadObject(old(Now()))), Now())
      ensures Accounts(old(resets), old(clearedInPut))
      decreases |input| - pos, 1
    {
      ghost var before := Now();
      var code :- ReadNextCode();
      assert FressianDecoder.ReadObject(before) == ReadKind(Classify(code), Now());
      var k := Classify(code);
      if k.KInt? || k.KPackedInt? || k.KInt64? {
        r := ReadInteger(code);
      } else {
        var v :- Read(code);
        if v.Int? { return Returned(v.n); } else { return Threw; }
      }
    }

    method ReadCount() returns (r: Outcome<int>)
      requires Valid()
      modifies this
      ensures Valid() && Agrees(r, ReadInt32(old(Now())), Now())
      ensures Accounts(old(resets), old(clearedInPut))
      decreases |input| - pos, 2
    {
      var n :- InternalReadInt();
      if IsInt32(n) { return Returned(n); } else { return Threw; }
    }

    method ReadCountedBytes(text: bool) returns (r: Outcome<seq<Byte>>)
      requires Valid()
      modifies this
      ensures Valid() && Agrees(r, ReadCounted(old(Now())), Now())
      ensures Accounts(old(resets), old(clearedInPut))
      ensures r.Returned? ==> |r.value| < 0x8000_0000
      decreases |input| - pos, 3
    {
      var n :- ReadCount();
      if text { r := ReadStringBytes(n); } else { r := ReadFully(n); }
    }

    /** One turn of the loop over byte chunks: a chunk, and the code after it. */
    method ReadChunkAndCode(ghost chunks: seq<seq<Byte>>) returns (r: Outcome<(seq<Byte>, Byte)>)
      requires Valid()
      modifies this
      ensures Valid() && Accounts(old(resets), old(clearedInPut))
      ensures var spec := ReadChunks(false, Classify(BYTES_CHUNK), old(Now()));
              if r.Threw? then spec.Fail?
              else
                && old(pos) < pos && |r.value.0| < 0x8000_0000
                && Prepend(Flatten(chunks + [r.value.0]), ReadChunks(false, Classify(r.value.1), Now())) ==
                   Prepend(Flatten(chunks), spec)
      decreases |input| - pos, 4, 0
    {
      ghost var before := Now();
      var chunk :- ReadCountedBytes(false);
      ghost var between := Now();
      var code :- ReadNextCode();
      ChunkStep(before, chunk, between, code, Now(), chunks);
      return Returned((chunk, code));
    }

    /** The last chunk, and all of them joined. */
    method ReadLastChunk(chunks: seq<seq<Byte>>, code: Byte) returns (r: Outcome<seq<Byte>>)
      requires Valid() && code != BYTES_CHUNK && forall i :: 0 <= i < |chunks| ==> |chunks[i]| < 0x8000_0000
      modifies this
      ensures Valid() && Accounts(old(resets), old(clearedInPut))
      ensures Agrees(r, Capped(Prepend(Flatten(chunks), ReadChunks(false, Classify(code), old(Now())))), Now())
      decreases |input| - pos, 4, 0
    {
      if code != BYTES {
        NotFinal(code, Now());
        return Threw;
      }
      var chunk :- ReadCountedBytes(false);
      Append(chunks, chunk);
      r := JoinChunks(chunks + [chunk]);
    }

    method InternalReadChunkedBytes() returns (r: Outcome<seq<Byte>>)
      requires Valid()
      modifies this
      ensures Valid() && Accounts(old(resets), old(clearedInPut))
      ensures Agrees(r, Capped(ReadChunks(false, Classify(BYTES_CHUNK), old(Now()))), Now())
      decreases |input| - pos, 4
    {
      var chunks: seq<seq<Byte>> := [];
      var code: Byte := BYTES_CHUNK;
      ghost var spec := ReadChunks(false, Classify(BYTES_CHUNK), Now());
      PrependNothing(spec);
      while code == BYTES_CHUNK
        invariant Valid() && old(pos) <= pos
        invariant Accounts(old(resets), old(clearedInPut))
        invariant code != BYTES_CHUNK ==> old(pos) < pos
        invariant forall i :: 0 <= i < |chunks| ==> |chunks[i]| < 0x8000_0000
        invariant Prepend(Flatten(chunks), ReadChunks(false, Classify(code), Now())) == spec
        decreases |input| - pos, code == BYTES_CHUNK
      {
        var next :- ReadChunkAndCode(chunks);
        chunks, code := chunks + [next.0], next.1;
      }
      r := ReadLastChunk(chunks, code);
    }

    /** The chunk that ends a text. */
    method ReadLastString(code: Byte) returns (r: Outcome<seq<Byte>>)
      requires Valid() && code != STRING_CHUNK
      modifies this
      ensures Valid() && Agrees(r, ReadChunks(true, Classify(code), old(Now())), Now())
      ensures Accounts(old(resets), old(clearedInPut))
      decreases |input| - pos, 4
    {
      match Classify(code)
      case KBlob(text, length) => if text { r := ReadStringBytes(length); } else { return Threw; }
      case KCountedBlob(text) => if text { r := ReadCountedBytes(true); } else { return Threw; }
      case _ => return Threw;
    }

    /** One turn of the loop over the chunks of a text: the text so far, and whether it is complete. */
    method ReadNextString(buf: seq<Byte>) returns (r: Outcome<(seq<Byte>, bool)>)
      requires Valid()
      modifies this
      ensures Valid() && Accounts(old(resets), old(clearedInPut))
      ensures var spec := Prepend(buf, AfterChunk(old(Now())));
              if r.Threw? then spec.Fail?
              else old(pos) < pos && spec == if r.value.1 then Ok(r.value.0, Now()) else Prepend(r.value.0, AfterChunk(Now()))
      decreases |input| - pos, 4
    {
      var code :- ReadNextCode();
      if code == STRING_CHUNK {
        ghost var before := Now();
        var more :- ReadCountedBytes(true);
        StringChunk(before, more, Now(), buf);
        return Returned((buf + more, false));
      } else {
        var more :- ReadLastString(code);
        return Returned((buf + more, true));
      }
    }

    method InternalReadChunkedString() returns (r: Outcome<seq<Byte>>)
      requires Valid()
      modifies this
      ensures Valid() && Agrees(r, ReadChunks(true, KChunkedBlob(true), old(Now())), Now())
      ensures Accounts(old(resets), old(clearedInPut))
      decreases |input| - pos, 4
    {
      ghost var spec := ReadChunks(true, KChunkedBlob(true), Now());
      ghost var before := Now();
      var buf :- ReadCountedBytes(true);
      StringChunk(before, buf, Now(), []);
      PrependNothing(spec);
      assert [] + buf == buf;
      var done := false;
      while !done
        invariant Valid() && old(pos) < pos
        invariant Accounts(old(resets), old(clearedInPut))
        invariant if done then spec == Ok(buf, Now()) else Prepend(buf, AfterChunk(Now())) == spec
        decreases |input| - pos, !done
      {
        var next :- ReadNextString(buf);
        buf, done := next.0, next.1;
      }
      return Returned(buf);
    }

    method ReadObjects(n: int) returns (r: Outcome<seq<Value>>)
      requires Valid()
      modifies this
      ensures Valid() && Agrees(r, FressianDecoder.ReadObjects(n, old(Now())), Now())
      ensures Accounts(old(resets), old(clearedInPut))
      decreases |input| - pos, 1
    {
      if n < 0 { return Threw; }
      ghost var spec := FressianDecoder.ReadObjects(n, Now());
      var objects: seq<Value> := [];
      PrependNothing(spec);
      for i := 0 to n
        invariant Valid() && old(pos) <= pos
        invariant Accounts(old(resets), old(clearedInPut))
        invariant Prepend(objects, FressianDecoder.ReadObjects(n - i, Now())) == spec
      {
        var v :- ReadObject();
        PrependTwice(objects, [v], FressianDecoder.ReadObjects(n - i - 1, Now()));
        objects := objects + [v];
      }
      assert objects + [] == objects;
      return Returned(objects);
    }

    method ReadClosedList() returns (r: Outcome<seq<Value>>)
      requires Valid()
      modifies this
      ensures Valid() && Agrees(r, ReadUntilEnd(false, old(Now())), Now())
      ensures Accounts(old(resets), old(clearedInPut))
      decreases |input| - pos, 1
    {
      ghost var spec := ReadUntilEnd(false, Now());
      var objects: seq<Value> := [];
      PrependNothing(spec);
      while true
        invariant Valid() && old(pos) <= pos
        invariant Accounts(old(resets), old(clearedInPut))
        invariant Prepend(objects, ReadUntilEnd(false, Now())) == spec
        decreases |input| - pos
      {
        ghost var before := Now();
        var code :- ReadNextCode();
        if code == END_COLLECTION {
          assert objects + [] == objects;
          return Returned(objects);
        }
        assert FressianDecoder.ReadObject(before) == ReadKind(Classify(code), Now());
        var v :- Read(code);
        PrependTwice(objects, [v], ReadUntilEnd(false, Now()));
        objects := objects + [v];
      }
    }

    /** As ReadClosedList, but the end of input reads as the end of the list. */
    method ReadOpenList() returns (r: Outcome<seq<Value>>)
      requires Valid()
      modifies this
      ensures Valid() && Agrees(r, ReadUntilEnd(true, old(Now())), Now())
      ensures Accounts(old(resets), old(clearedInPut))
      decreases |input| - pos, 1
    {
      ghost var spec := ReadUntilEnd(true, Now());
      var objects: seq<Value> := [];
      PrependNothing(spec);
      while true
        invariant Valid() && old(pos) <= pos
        invariant Accounts(old(resets), old(clearedInPut))
        invariant Prepend(objects, ReadUntilEnd(true, Now())) == spec
        decreases |input| - pos
      {
        ghost var before := Now();
        var next := ReadNextCode();
        var code := if next.Returned? then next.value else END_COLLECTION;
        if code == END_COLLECTION {
          assert objects + [] == objects;
          return Returned(objects);
        }
        assert FressianDecoder.ReadObject(before) == ReadKind(Classify(code), Now());
        var v :- Read(code);
        PrependTwice(objects, [v], ReadUntilEnd(true, Now()));
        objects := objects + [v];
      }
    }

    method ReserveSlot() returns (index: nat)
      requires Valid()
      modifies this
      ensures Valid() && Now() == OpenSlot(old(Now())) && index == |old(priorityCache)|
      ensures pos == old(pos) && resets == old(resets) && clearedInPut == old(clearedInPut)
      ensures clearedInPut || index !in old(openPuts)
    {
      index := |priorityCache|;
      priorityCache := priorityCache + [UnderConstruction];
      puts, openPuts := puts + 1, openPuts + [index];
    }

    method FillSlot(index: nat, v: Value, ghost before: State)
      requires Valid() && index == |before.priority| < |priorityCache| && v != UnderConstruction
      requires openPuts == before.openPuts + [index] && (clearedInPut || index !in before.openPuts)
      modifies this
      ensures Valid() && Now() == CloseSlot(before, old(Now()), v)
      ensures resets == old(resets) && clearedInPut == old(clearedInPut)
    {
      assert forall i :: i in openPuts <==> i in before.openPuts || i == index;
      priorityCache := priorityCache[index := v];
      openPuts, irregular := before.openPuts, irregular || resets != before.resets;
    }

    method ReadAndCacheObject() returns (r: Outcome<Value>)
      requires Valid()
      modifies this
      ensures Valid() && Agrees(r, ReadKind(KPut, old(Now())), Now())
      ensures Accounts(old(resets), old(clearedInPut))
      decreases |input| - pos, 1
    {
      ghost var before := Now();
      var index := ReserveSlot();
      var v :- ReadObject();
      FressianRuns.ObjectEvolves(OpenSlot(before));
      if |priorityCache| <= index { return Threw; }
      FillSlot(index, v, before);
      return Returned(v);
    }

    method ReadReference() returns (r: Outcome<Value>)
      requires Valid()
      modifies this
      ensures Valid() && Agrees(r, ReadKind(KGet, old(Now())), Now())
      ensures Accounts(old(resets), old(clearedInPut))
      decreases |input| - pos, 4
    {
      var i :- ReadCount();
      r := LookupPriority(i);
    }

    method ReadIndexedStruct() returns (r: Outcome<Value>)
      requires Valid()
      modifies this
      ensures Valid() && Agrees(r, ReadKind(KStruct, old(Now())), Now())
      ensures Accounts(old(resets), old(clearedInPut))
      decreases |input| - pos, 4
    {
      var i :- ReadCount();
      r := ReadKnownStruct(i);
    }

    method ReadStructType() returns (r: Outcome<Value>)
      requires Valid()
      modifies this
      ensures Valid() && Agrees(r, ReadKind(KStructType, old(Now())), Now())
      ensures Accounts(old(resets), old(clearedInPut))
      decreases |input| - pos, 4
    {
      var tag :- ReadObject();
      var n :- ReadCount();
      structCache := structCache + [StructType(tag, n)];
      r := HandleStruct(tag, n);
    }

    method ReadKnownStruct(i: int) returns (r: Outcome<Value>)
      requires Valid()
      modifies this
      ensures Valid() && Agrees(r, ReadCachedStruct(i, old(Now())), Now())
      ensures Accounts(old(resets), old(clearedInPut))
      decreases |input| - pos, 3
    {
      if i < 0 || |structCache| <= i { return Threw; }
      r := HandleStruct(structCache[i].tag, structCache[i].fields);
    }

    method HandleStruct(tag: Value, n: int) returns (r: Outcome<Value>)
      requires Valid()
      modifies this
      ensures Valid() && Agrees(r, ReadStruct(tag, n, old(Now())), Now())
      ensures Accounts(old(resets), old(clearedInPut))
      decreases |input| - pos, 2
    {
      var fields :- ReadObjects(n);
      return Returned(Tagged(tag, fields));
    }
  }

  lemma Append(chunks: seq<seq<Byte>>, chunk: seq<Byte>)
    ensures Flatten(chunks + [chunk]) == Flatten(chunks) + chunk
  {
    assert (chunks + [chunk])[..|chunks|] == chunks;
  }

  /** One more chunk read: the rest of the stream owes exactly what the whole did, less that chunk. */
  lemma ChunkStep(s: State, chunk: seq<Byte>, s1: State, code: Byte, s2: State, chunks: seq<seq<Byte>>)
    requires ReadCounted(s) == Ok(chunk, s1) && NextCode(s1) == Ok(code, s2)
    ensures Prepend(Flatten(chunks + [chunk]), ReadChunks(false, Classify(code), s2)) ==
            Prepend(Flatten(chunks), ReadChunks(false, Classify(BYTES_CHUNK), s))
  {
    Append(chunks, chunk);
    ChunksUnfold(false, s, chunk, s1, code, s2);
    PrependTwice(Flatten(chunks), chunk, ReadChunks(false, Classify(code), s2));
  }

  /** One more chunk of text read. */
  lemma StringChunk(s: State, chunk: seq<Byte>, s1: State, buf: seq<Byte>)
    requires ReadCounted(s) == Ok(chunk, s1)
    ensures Prepend(buf + chunk, AfterChunk(s1)) == Prepend(buf, ReadChunks(true, KChunkedBlob(true), s))
  {
    var r := NextCode(s1);
    if r.Ok? {
      ChunksUnfold(true, s, chunk, s1, r.value, r.st);
    }
    PrependTwice(buf, chunk, AfterChunk(s1));
  }

  lemma NotFinal(code: Byte, s: State)
    requires code != BYTES && code != BYTES_CHUNK
    ensures ReadChunks(false, Classify(code), s).Fail?
  {
  }

  /** What ReadChunks does once a chunk of text has been read. */
  ghost function AfterChunk(s: State): Result<seq<Byte>> {
    var r := NextCode(s);
    if r.Ok? then ReadChunks(true, Classify(r.value), r.st) else Fail
  }
}
