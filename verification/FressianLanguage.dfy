/**
 The converse of what the writer's theorems say: the reader accepts nothing but legal encodings.
 Whatever it reads, footers and caches cleared inside a PUT aside, is what some legal encoding of
 the returned value emits. Together with the writer's theorems this is the accepted language.
 */
module FressianLanguage {
  import opened FressianFormat
  import opened FressianDecoder
  import opened FressianWriter
  import opened FressianRuns

  /** No footer, no caches cleared inside a PUT, and none cleared at all if this is inside one. */
  ghost predicate Regular(s: State, s': State, inPut: bool) {
    !s'.irregular && (inPut ==> s'.resets == s.resets)
  }

  lemma RegularSplit(s: State, s1: State, s2: State, inPut: bool)
    requires Regular(s, s2, inPut) && Evolves(s, s1) && Evolves(s1, s2)
    ensures Regular(s, s1, inPut) && Regular(s1, s2, inPut)
  {
  }

  /** e is a legal encoding of v that starts where s stands and ends where s' stands. */
  ghost predicate Spells(e: Enc, s: State, v: Value, s': State, inPut: bool) {
    && s.rest == Emit(e) + s'.rest
    && Place(e, CachesOf(s), inPut, s'.rest == []) == Some(CachesOf(s'))
    && ValueOf(e) == v
  }

  /** The same when the code has been read already, and s stands after it. */
  ghost predicate Follows(e: Enc, code: Byte, s: State, v: Value, s': State, inPut: bool) {
    && [code] + s.rest == Emit(e) + s'.rest
    && Place(e, CachesOf(s), inPut, s'.rest == []) == Some(CachesOf(s'))
    && ValueOf(e) == v
  }

  // ---------------------------------------------------------------- codes and bytes

  lemma Coded(code: Byte, body: seq<Byte>, rest: seq<Byte>)
    ensures [code] + (body + rest) == ([code] + body) + rest
  {
  }

  lemma TakenIs(s: State, n: int)
    requires TakeBytes(s, n).Ok?
    ensures s.rest == TakeBytes(s, n).value + TakeBytes(s, n).st.rest && |TakeBytes(s, n).value| == n
  {
  }

  lemma PackedIntCode(code: Byte)
    requires Classify(code).KPackedInt?
    ensures var k := Classify(code);
            1 <= k.width <= 6 && code == ZeroCode(k.width) + k.high && 0 - HighLimit(k.width) <= k.high < HighLimit(k.width)
  {
  }

  lemma Multiples(d: int, p: nat)
    ensures d >= 1 ==> d * p >= p
    ensures d <= -1 ==> d * p <= 0 - p
  {
  }

  lemma PackedIntParts(high: int, low: nat, p: nat)
    requires low < p
    ensures (high * p + low) / p == high && (high * p + low) % p == low
  {
    var n := high * p + low;
    var d := n / p - high;
    assert d * p == low - n % p;
    Multiples(d, p);
  }

  lemma SpellsPackedInt(code: Byte, high: int, width: nat, s: State, inPut: bool) returns (e: Enc)
    requires ReadKind(KPackedInt(high, width), s).Ok?
    requires 1 <= width <= 6 && code == ZeroCode(width) + high && 0 - HighLimit(width) <= high < HighLimit(width)
    ensures Follows(e, code, s, ReadKind(KPackedInt(high, width), s).value, ReadKind(KPackedInt(high, width), s).st, inPut)
  {
    var raw := TakeBytes(s, width).value;
    TakenIs(s, width);
    e := EInt(high * Pow256(width) + FromBigEndian(raw), width);
    PackedIntBytes(code, high, width, raw);
    Coded(code, raw, TakeBytes(s, width).st.rest);
  }

  lemma PackedIntBytes(code: Byte, high: int, width: nat, raw: seq<Byte>)
    requires 1 <= width <= 6 && code == ZeroCode(width) + high && 0 - HighLimit(width) <= high < HighLimit(width) && |raw| == width
    ensures var n := high * Pow256(width) + FromBigEndian(raw); FitsWidth(n, width) && EmitInt(n, width) == [code] + raw
  {
    BigEndianInverse(raw);
    PackedIntParts(high, FromBigEndian(raw), Pow256(width));
  }

  lemma SpellsInt64(s: State, inPut: bool) returns (e: Enc)
    requires ReadKind(KInt64, s).Ok?
    ensures Follows(e, INT, s, ReadKind(KInt64, s).value, ReadKind(KInt64, s).st, inPut)
  {
    var raw := TakeBytes(s, 8).value;
    TakenIs(s, 8);
    Pow256Values();
    BigEndianInverse(raw);
    e := EInt(Signed64(FromBigEndian(raw)), 8);
    assert Signed64(FromBigEndian(raw)) % 0x1_0000_0000_0000_0000 == FromBigEndian(raw);
    Coded(INT, raw, TakeBytes(s, 8).st.rest);
  }

  ghost predicate IsConstant(k: Kind) {
    k.KInt? || k.KNull? || k.KBool? || k.KDoubleConst? || k.KGetPacked?
  }

  /** The code is the one such a kind is written with. */
  ghost predicate Codes(code: Byte, k: Kind) {
    match k
    case KInt(n) => FitsWidth(n, 0) && EmitInt(n, 0) == [code]
    case KPackedInt(high, width) =>
      1 <= width <= 6 && code == ZeroCode(width) + high && 0 - HighLimit(width) <= high < HighLimit(width)
    case KInt64 => code == INT
    case KNull => code == NULL
    case KBool(b) => code == if b then TRUE else FALSE
    case KDouble => code == DOUBLE
    case KDoubleConst(bits) => (code == DOUBLE_0 && bits == ZERO_BITS) || (code == DOUBLE_1 && bits == ONE_BITS)
    case KFloat => code == FLOAT
    case KBlob(text, n) => n < 8 && code == (if text then STRING_PACKED_LENGTH_START else BYTES_PACKED_LENGTH_START) + n
    case KCountedBlob(text) => code == if text then STRING else BYTES
    case KChunkedBlob(text) => code == if text then STRING_CHUNK else BYTES_CHUNK
    case KList(n) => n < 8 && code == LIST_PACKED_LENGTH_START + n
    case KCountedList => code == LIST
    case KDelimitedList(open) => code == if open then BEGIN_OPEN_LIST else BEGIN_CLOSED_LIST
    case KPut => code == PUT_PRIORITY_CACHE
    case KGet => code == GET_PRIORITY_CACHE
    case KGetPacked(i) => i < 32 && code == PRIORITY_CACHE_PACKED_START + i
    case KStructType => code == STRUCTTYPE
    case KStruct => code == STRUCT
    case KStructPacked(i) => i < 16 && code == STRUCT_CACHE_PACKED_START + i
    case KReset => code == RESET_CACHES
    case _ => true
  }

  /** What a code is classified as determines the code. */
  lemma ClassifiedCodes(code: Byte)
    ensures Codes(code, Classify(code))
  {
    if Classify(code).KPackedInt? {
      PackedIntCode(code);
    }
  }

  lemma SpellsConstant(code: Byte, k: Kind, s: State, inPut: bool) returns (e: Enc)
    requires ReadKind(k, s).Ok? && IsConstant(k) && Codes(code, k)
    ensures Follows(e, code, s, ReadKind(k, s).value, ReadKind(k, s).st, inPut)
  {
    e := match k
      case KInt(n) => EInt(n, 0)
      case KNull => ENull
      case KBool(b) => EBool(b)
      case KDoubleConst(bits) => EDoubleConst(code == DOUBLE_1)
      case KGetPacked(i) => EGetPacked(i, ReadKind(k, s).value)
      case _ => ENull;
  }

  lemma SpellsPayload(code: Byte, k: Kind, s: State, inPut: bool) returns (e: Enc)
    requires ReadKind(k, s).Ok? && (k == KDouble || k == KFloat) && Codes(code, k)
    ensures Follows(e, code, s, ReadKind(k, s).value, ReadKind(k, s).st, inPut)
  {
    var n := if k == KDouble then 8 else 4;
    TakenIs(s, n);
    e := if k == KDouble then EDouble(TakeBytes(s, n).value) else EFloat(TakeBytes(s, n).value);
    Coded(code, TakeBytes(s, n).value, TakeBytes(s, n).st.rest);
  }

  lemma SpellsShortBlob(code: Byte, k: Kind, s: State, inPut: bool) returns (e: Enc)
    requires ReadKind(k, s).Ok? && k.KBlob? && Codes(code, k)
    ensures Follows(e, code, s, ReadKind(k, s).value, ReadKind(k, s).st, inPut)
  {
    TakenIs(s, k.length);
    var bs := TakeBytes(s, k.length).value;
    e := EBlob(k.text, Packed(bs));
    Coded(code, bs, TakeBytes(s, k.length).st.rest);
  }

  lemma SpellsScalar(code: Byte, k: Kind, s: State, inPut: bool) returns (e: Enc)
    requires ReadKind(k, s).Ok? && IsScalar(k) && Codes(code, k)
    ensures Follows(e, code, s, ReadKind(k, s).value, ReadKind(k, s).st, inPut)
  {
    match k
    case KPackedInt(high, width) => e := SpellsPackedInt(code, high, width, s, inPut);
    case KInt64 => e := SpellsInt64(s, inPut);
    case KDouble => e := SpellsPayload(code, k, s, inPut);
    case KFloat => e := SpellsPayload(code, k, s, inPut);
    case KBlob(_, _) => e := SpellsShortBlob(code, k, s, inPut);
    case _ => e := SpellsConstant(code, k, s, inPut);
  }

  // ---------------------------------------------------------------- what objects are made of

  /** It makes no difference to an integer whether anything follows it. */
  lemma {:induction false} IntAnywhere(e: Enc, c: Caches, inPut: bool)
    requires ValueOf(e).Int?
    ensures Place(e, c, inPut, true) == Place(e, c, inPut, false)
  {
    match e
    case EPut(body) => IntAnywhere(body, c.(priority := c.priority + [UnderConstruction]), true);
    case EReset(body) => IntAnywhere(body, Cleared(c), false);
    case _ =>
  }

  lemma {:induction false} SpellsIndex(s: State, inPut: bool) returns (e: Enc)
    requires ReadInt32(s).Ok? && Regular(s, ReadInt32(s).st, inPut)
    ensures s.rest == Emit(e) + ReadInt32(s).st.rest
    ensures PlaceInt(e, ReadInt32(s).value, CachesOf(s), inPut) == Some(CachesOf(ReadInt32(s).st))
    ensures ValueOf(e) == Int(ReadInt32(s).value)
    decreases |s.rest|, 1
  {
    e := SpellsObject(s, inPut);
    IntAnywhere(e, CachesOf(s), inPut);
  }

  lemma IndexEvolves(s: State)
    requires ReadInt32(s).Ok?
    ensures Evolves(s, ReadInt32(s).st)
  {
    ObjectEvolves(s);
  }

  lemma {:induction false} SpellsObjects(n: int, s: State, inPut: bool) returns (es: Encs)
    requires ReadObjects(n, s).Ok? && Regular(s, ReadObjects(n, s).st, inPut)
    ensures Length(es) == n && ValuesOf(es) == ReadObjects(n, s).value
    ensures s.rest == EmitAll(es) + ReadObjects(n, s).st.rest
    ensures PlaceAll(es, CachesOf(s), inPut, ReadObjects(n, s).st.rest == []) == Some(CachesOf(ReadObjects(n, s).st))
    decreases |s.rest|, 1
  {
    if n == 0 {
      es := Nil;
    } else {
      var s1 := ReadObject(s).st;
      ObjectEvolves(s);
      ObjectsEvolve(n - 1, s1);
      RegularSplit(s, s1, ReadObjects(n, s).st, inPut);
      var e := SpellsObject(s, inPut);
      var tail := SpellsObjects(n - 1, s1, inPut);
      es := Cons(e, tail);
      ConsObject(e, tail, s, ReadObject(s).value, s1, ReadObjects(n - 1, s1).st, inPut);
    }
  }

  lemma ConsObject(e: Enc, tail: Encs, s: State, v: Value, s1: State, s2: State, inPut: bool)
    requires Spells(e, s, v, s1, inPut) && (s1.rest == [] ==> tail.Nil?)
    requires s1.rest == EmitAll(tail) + s2.rest
    requires PlaceAll(tail, CachesOf(s1), inPut, s2.rest == []) == Some(CachesOf(s2))
    ensures s.rest == EmitAll(Cons(e, tail)) + s2.rest
    ensures PlaceAll(Cons(e, tail), CachesOf(s), inPut, s2.rest == []) == Some(CachesOf(s2))
  {
    Regroup(Emit(e), EmitAll(tail), s2.rest);
    if tail.Nil? {
      assert s1.rest == s2.rest;
    } else {
      assert s1.rest != [];
    }
  }

  /** The items es stand at s, followed by the end of the list, if it has one, and by what s' stands at. */
  ghost predicate Itemizes(es: Encs, ended: bool, s: State, vs: seq<Value>, s': State, inPut: bool) {
    && ValuesOf(es) == vs
    && s.rest == EmitAll(es) + (Ending(ended) + s'.rest)
    && PlaceAll(es, CachesOf(s), inPut, !ended) == Some(CachesOf(s'))
    && (ended || s'.rest == [])
  }

  function Ending(ended: bool): seq<Byte> {
    if ended then [END_COLLECTION] else []
  }

  lemma ConsItems(e: Enc, tail: Encs, ended: bool, s: State, v: Value, s1: State, vs: seq<Value>, s2: State, inPut: bool)
    requires Spells(e, s, v, s1, inPut) && Itemizes(tail, ended, s1, vs, s2, inPut) && (s1.rest == [] ==> vs == [])
    ensures Itemizes(Cons(e, tail), ended, s, [v] + vs, s2, inPut)
  {
    Regroup(Emit(e), EmitAll(tail), Ending(ended) + s2.rest);
    assert (s1.rest == []) == (!ended && tail.Nil?);
  }

  lemma {:induction false} SpellsUntilEnd(open: bool, s: State, inPut: bool) returns (es: Encs, ended: bool)
    requires ReadUntilEnd(open, s).Ok? && Regular(s, ReadUntilEnd(open, s).st, inPut)
    ensures Itemizes(es, ended, s, ReadUntilEnd(open, s).value, ReadUntilEnd(open, s).st, inPut) && (ended || open)
    decreases |s.rest|, 1
  {
    if s.rest == [] {
      es, ended := Nil, false;
    } else if s.rest[0] == END_COLLECTION {
      es, ended := Nil, true;
      assert s.rest == [END_COLLECTION] + s.rest[1..];
    } else {
      var s1 := ReadObject(s).st;
      ObjectEvolves(s);
      UntilEndEvolves(open, s1);
      RegularSplit(s, s1, ReadUntilEnd(open, s).st, inPut);
      var e := SpellsObject(s, inPut);
      var tail;
      tail, ended := SpellsUntilEnd(open, s1, inPut);
      es := Cons(e, tail);
      ConsItems(e, tail, ended, s, ReadObject(s).value, s1, ReadUntilEnd(open, s1).value, ReadUntilEnd(open, s1).st, inPut);
    }
  }

  lemma {:induction false} SpellsCounted(s: State, inPut: bool) returns (count: Enc)
    requires ReadCounted(s).Ok? && Regular(s, ReadCounted(s).st, inPut)
    ensures var r := ReadCounted(s);
            && s.rest == Emit(count) + (r.value + r.st.rest)
            && PlaceInt(count, |r.value|, CachesOf(s), inPut) == Some(CachesOf(r.st))
            && |r.value| < 0x8000_0000
    decreases |s.rest|, 2
  {
    var s1 := ReadInt32(s).st;
    IndexEvolves(s);
    TakeEvolves(s1, ReadInt32(s).value);
    RegularSplit(s, s1, ReadCounted(s).st, inPut);
    count := SpellsIndex(s, inPut);
    TakenIs(s1, ReadInt32(s).value);
  }

  /** The chunks stand at s, the code of the first having been read already. */
  ghost predicate Chunked(text: bool, chunks: Chunks, code: Byte, s: State, bs: seq<Byte>, s': State, inPut: bool) {
    && [code] + s.rest == EmitChunks(text, chunks) + s'.rest
    && PlaceChunks(text, chunks, text, CachesOf(s), inPut) == Some(CachesOf(s'))
    && Joined(chunks) == bs
  }

  lemma {:induction false} SpellsChunks(text: bool, code: Byte, k: Kind, s: State, inPut: bool) returns (chunks: Chunks)
    requires ReadChunks(text, k, s).Ok? && Regular(s, ReadChunks(text, k, s).st, inPut) && Codes(code, k)
    ensures Chunked(text, chunks, code, s, ReadChunks(text, k, s).value, ReadChunks(text, k, s).st, inPut)
    decreases |s.rest|, 3
  {
    var r := ReadChunks(text, k, s);
    match k
    case KBlob(_, n) =>
      TakenIs(s, n);
      chunks := Packed(r.value);
      Coded(code, r.value, r.st.rest);
    case KCountedBlob(_) =>
      var count := SpellsCounted(s, inPut);
      chunks := Last(count, r.value);
      Regroup(Emit(count), r.value, r.st.rest);
      Coded(code, Emit(count) + r.value, r.st.rest);
    case KChunkedBlob(_) => chunks := SpellsMoreChunks(text, code, s, inPut);
  }

  lemma {:induction false} SpellsMoreChunks(text: bool, code: Byte, s: State, inPut: bool) returns (chunks: Chunks)
    requires ReadChunks(text, KChunkedBlob(text), s).Ok? && code == (if text then STRING_CHUNK else BYTES_CHUNK)
    requires Regular(s, ReadChunks(text, KChunkedBlob(text), s).st, inPut)
    ensures Chunked(text, chunks, code, s, ReadChunks(text, KChunkedBlob(text), s).value,
                    ReadChunks(text, KChunkedBlob(text), s).st, inPut)
    ensures chunks.More?
    decreases |s.rest|, 3, 0
  {
    var r := ReadChunks(text, KChunkedBlob(text), s);
    var chunk, s1 := ReadCounted(s).value, ReadCounted(s).st;
    var next, s2 := NextCode(s1).value, NextCode(s1).st;
    ChunksUnfold(text, s, chunk, s1, next, s2);
    CountedEvolves(s);
    ChunksEvolve(text, Classify(next), s2);
    SteppedRegular(s, s1, s2, r.st, inPut);
    var count := SpellsCounted(s, inPut);
    ClassifiedCodes(next);
    var more := SpellsChunks(text, next, Classify(next), s2, inPut);
    chunks := More(count, chunk, more);
    ConsChunk(text, code, count, chunk, more, next, s, s1, s2, ReadChunks(text, Classify(next), s2).value, r.st, inPut);
  }

  lemma SteppedRegular(s: State, s1: State, s2: State, s3: State, inPut: bool)
    requires Regular(s, s3, inPut) && Evolves(s, s1) && NextCode(s1).Ok? && NextCode(s1).st == s2 && Evolves(s2, s3)
    ensures Regular(s, s1, inPut) && Regular(s2, s3, inPut)
  {
  }

  lemma ConsChunk(text: bool, code: Byte, count: Enc, chunk: seq<Byte>, more: Chunks, next: Byte,
                  s: State, s1: State, s2: State, bs: seq<Byte>, s3: State, inPut: bool)
    requires code == (if text then STRING_CHUNK else BYTES_CHUNK)
    requires s.rest == Emit(count) + (chunk + s1.rest) && s1.rest == [next] + s2.rest && CachesOf(s2) == CachesOf(s1)
    requires PlaceInt(count, |chunk|, CachesOf(s), inPut) == Some(CachesOf(s1))
    requires Chunked(text, more, next, s2, bs, s3, inPut)
    ensures Chunked(text, More(count, chunk, more), code, s, chunk + bs, s3, inPut)
  {
    Regroup(chunk, EmitChunks(text, more), s3.rest);
    Regroup(Emit(count), chunk + EmitChunks(text, more), s3.rest);
    Coded(code, Emit(count) + (chunk + EmitChunks(text, more)), s3.rest);
  }

  // ---------------------------------------------------------------- objects

  lemma {:induction false} SpellsBlob(code: Byte, k: Kind, s: State, inPut: bool) returns (e: Enc)
    requires ReadKind(k, s).Ok? && Regular(s, ReadKind(k, s).st, inPut) && Codes(code, k)
    requires k.KCountedBlob? || k.KChunkedBlob?
    ensures Follows(e, code, s, ReadKind(k, s).value, ReadKind(k, s).st, inPut)
    decreases |s.rest|, 4
  {
    if k.KCountedBlob? {
      var bs, s1 := ReadCounted(s).value, ReadCounted(s).st;
      var count := SpellsCounted(s, inPut);
      e := EBlob(k.text, Last(count, bs));
      Regroup(Emit(count), bs, s1.rest);
      Coded(code, Emit(count) + bs, s1.rest);
    } else {
      var chunks := SpellsMoreChunks(k.text, code, s, inPut);
      e := EBlob(k.text, chunks);
    }
  }

  lemma {:induction false} SpellsList(n: nat, s: State, inPut: bool) returns (e: Enc)
    requires n < 8 && ReadKind(KList(n), s).Ok? && Regular(s, ReadKind(KList(n), s).st, inPut)
    ensures Follows(e, LIST_PACKED_LENGTH_START + n, s, ReadKind(KList(n), s).value, ReadKind(KList(n), s).st, inPut)
    decreases |s.rest|, 4
  {
    var items := SpellsObjects(n, s, inPut);
    e := EList(items);
    Coded(LIST_PACKED_LENGTH_START + n, EmitAll(items), ReadObjects(n, s).st.rest);
  }

  lemma {:induction false} SpellsCountedList(s: State, inPut: bool) returns (e: Enc)
    requires ReadKind(KCountedList, s).Ok? && Regular(s, ReadKind(KCountedList, s).st, inPut)
    ensures Follows(e, LIST, s, ReadKind(KCountedList, s).value, ReadKind(KCountedList, s).st, inPut)
    decreases |s.rest|, 4
  {
    var n, s1 := ReadInt32(s).value, ReadInt32(s).st;
    var s2 := ReadObjects(n, s1).st;
    IndexEvolves(s);
    ObjectsEvolve(n, s1);
    RegularSplit(s, s1, s2, inPut);
    var count := SpellsIndex(s, inPut);
    var items := SpellsObjects(n, s1, inPut);
    e := ECountedList(count, items);
    Regroup(Emit(count), EmitAll(items), s2.rest);
    Coded(LIST, Emit(count) + EmitAll(items), s2.rest);
  }

  lemma {:induction false} SpellsDelimited(open: bool, s: State, inPut: bool) returns (e: Enc)
    requires ReadKind(KDelimitedList(open), s).Ok? && Regular(s, ReadKind(KDelimitedList(open), s).st, inPut)
    ensures Follows(e, if open then BEGIN_OPEN_LIST else BEGIN_CLOSED_LIST, s,
                    ReadKind(KDelimitedList(open), s).value, ReadKind(KDelimitedList(open), s).st, inPut)
    decreases |s.rest|, 4
  {
    var s1 := ReadUntilEnd(open, s).st;
    var items, ended := SpellsUntilEnd(open, s, inPut);
    e := if open then EOpenList(items, ended) else EClosedList(items);
    Regroup(EmitAll(items), Ending(ended), s1.rest);
    Coded(if open then BEGIN_OPEN_LIST else BEGIN_CLOSED_LIST, EmitAll(items) + Ending(ended), s1.rest);
  }

  lemma {:induction false} SpellsPut(s: State, inPut: bool) returns (e: Enc)
    requires ReadKind(KPut, s).Ok? && Regular(s, ReadKind(KPut, s).st, inPut)
    ensures Follows(e, PUT_PRIORITY_CACHE, s, ReadKind(KPut, s).value, ReadKind(KPut, s).st, inPut)
    decreases |s.rest|, 4
  {
    var inner := OpenSlot(s);
    assert ReadKind(KPut, s).st == CloseSlot(s, ReadObject(inner).st, ReadObject(inner).value);
    var body := SpellsObject(inner, true);
    e := EPut(body);
    Coded(PUT_PRIORITY_CACHE, Emit(body), ReadObject(inner).st.rest);
  }

  lemma {:induction false} SpellsGet(s: State, inPut: bool) returns (e: Enc)
    requires ReadKind(KGet, s).Ok? && Regular(s, ReadKind(KGet, s).st, inPut)
    ensures Follows(e, GET_PRIORITY_CACHE, s, ReadKind(KGet, s).value, ReadKind(KGet, s).st, inPut)
    decreases |s.rest|, 4
  {
    var index := SpellsIndex(s, inPut);
    e := EGet(index, ReadKind(KGet, s).value);
    Coded(GET_PRIORITY_CACHE, Emit(index), ReadInt32(s).st.rest);
  }

  lemma {:induction false} SpellsReset(s: State, inPut: bool) returns (e: Enc)
    requires ReadKind(KReset, s).Ok? && Regular(s, ReadKind(KReset, s).st, inPut)
    ensures Follows(e, RESET_CACHES, s, ReadKind(KReset, s).value, ReadKind(KReset, s).st, inPut)
    decreases |s.rest|, 4
  {
    var cleared := ClearCaches(s);
    var r := ReadObject(cleared);
    assert ReadKind(KReset, s) == r;
    ObjectEvolves(cleared);
    var body := SpellsObject(cleared, false);
    e := EReset(body);
    AfterReset(body, s, r.value, r.st, inPut);
  }

  lemma AfterReset(body: Enc, s: State, v: Value, s': State, inPut: bool)
    requires Spells(body, ClearCaches(s), v, s', false) && !inPut
    ensures Follows(EReset(body), RESET_CACHES, s, v, s', inPut)
  {
    Coded(RESET_CACHES, Emit(body), s'.rest);
  }

  lemma {:induction false} SpellsStructType(s: State, inPut: bool) returns (e: Enc)
    requires ReadKind(KStructType, s).Ok? && Regular(s, ReadKind(KStructType, s).st, inPut)
    ensures Follows(e, STRUCTTYPE, s, ReadKind(KStructType, s).value, ReadKind(KStructType, s).st, inPut)
    decreases |s.rest|, 4
  {
    var tag, s1 := ReadObject(s).value, ReadObject(s).st;
    var n, s2 := ReadInt32(s1).value, ReadInt32(s1).st;
    var s3 := s2.(structs := s2.structs + [StructType(tag, n)]);
    ReadsStructType(s, tag, s1, n, s2);
    var s4 := ReadStruct(tag, n, s3).st;
    ObjectEvolves(s);
    IndexEvolves(s1);
    StructBodyEvolves(tag, n, s3);
    RegularThroughout(s, s1, s2, s3, s4, inPut);
    var tagEnc := SpellsObject(s, inPut);
    var count := SpellsIndex(s1, inPut);
    var fields := SpellsObjects(n, s3, inPut);
    e := EStructType(tagEnc, count, fields);
    TypedStruct(tagEnc, count, fields, s, tag, s1, n, s2, s4, inPut);
  }

  lemma TypedStruct(tagEnc: Enc, count: Enc, fields: Encs, s: State, tag: Value, s1: State, n: int, s2: State, s4: State, inPut: bool)
    requires Spells(tagEnc, s, tag, s1, inPut) && s1.rest != []
    requires s1.rest == Emit(count) + s2.rest && PlaceInt(count, n, CachesOf(s1), inPut) == Some(CachesOf(s2))
    requires Length(fields) == n && s2.rest == EmitAll(fields) + s4.rest
    requires PlaceAll(fields, CachesOf(s2).(structs := s2.structs + [StructType(tag, n)]), inPut, s4.rest == []) == Some(CachesOf(s4))
    ensures Follows(EStructType(tagEnc, count, fields), STRUCTTYPE, s, Tagged(tag, ValuesOf(fields)), s4, inPut)
  {
    PlaceStructType(tagEnc, count, fields, CachesOf(s), inPut, s4.rest == [], CachesOf(s1), CachesOf(s2));
    Regroup(Emit(count), EmitAll(fields), s4.rest);
    Regroup(Emit(tagEnc), Emit(count) + EmitAll(fields), s4.rest);
    Coded(STRUCTTYPE, Emit(tagEnc) + (Emit(count) + EmitAll(fields)), s4.rest);
  }

  lemma RegularThroughout(s1: State, s2: State, s3: State, s4: State, s5: State, inPut: bool)
    requires Evolves(s1, s2) && Evolves(s2, s3) && Evolves(s4, s5)
    requires s4.resets == s3.resets && s4.irregular == s3.irregular && Regular(s1, s5, inPut)
    ensures Regular(s1, s2, inPut) && Regular(s2, s3, inPut) && Regular(s4, s5, inPut)
  {
  }

  lemma KnownStruct(i: int, s: State)
    requires ReadCachedStruct(i, s).Ok?
    ensures 0 <= i < |s.structs| && ReadCachedStruct(i, s) == ReadStruct(s.structs[i].tag, s.structs[i].fields, s)
  {
  }

  lemma {:induction false} SpellsKnownStruct(i: nat, s: State, inPut: bool) returns (e: Enc)
    requires i < 16 && ReadCachedStruct(i, s).Ok? && Regular(s, ReadCachedStruct(i, s).st, inPut)
    ensures Follows(e, STRUCT_CACHE_PACKED_START + i, s, ReadCachedStruct(i, s).value, ReadCachedStruct(i, s).st, inPut)
    decreases |s.rest|, 4
  {
    KnownStruct(i, s);
    var t := s.structs[i];
    var fields := SpellsObjects(t.fields, s, inPut);
    e := EStructPacked(i, t.tag, fields);
    Coded(STRUCT_CACHE_PACKED_START + i, EmitAll(fields), ReadObjects(t.fields, s).st.rest);
  }

  lemma {:induction false} SpellsStruct(s: State, inPut: bool) returns (e: Enc)
    requires ReadKind(KStruct, s).Ok? && Regular(s, ReadKind(KStruct, s).st, inPut)
    ensures Follows(e, STRUCT, s, ReadKind(KStruct, s).value, ReadKind(KStruct, s).st, inPut)
    decreases |s.rest|, 4
  {
    var i, s1 := ReadInt32(s).value, ReadInt32(s).st;
    assert ReadKind(KStruct, s) == ReadCachedStruct(i, s1);
    KnownStruct(i, s1);
    var t := s1.structs[i];
    var s2 := ReadObjects(t.fields, s1).st;
    IndexEvolves(s);
    ObjectsEvolve(t.fields, s1);
    RegularSplit(s, s1, s2, inPut);
    var index := SpellsIndex(s, inPut);
    var fields := SpellsObjects(t.fields, s1, inPut);
    e := EStruct(index, t.tag, fields);
    IndexedStruct(index, t.tag, fields, s, i, s1, s2, inPut);
  }

  lemma IndexedStruct(index: Enc, tag: Value, fields: Encs, s: State, i: int, s1: State, s2: State, inPut: bool)
    requires s.rest == Emit(index) + s1.rest && PlaceInt(index, i, CachesOf(s), inPut) == Some(CachesOf(s1))
    requires ValueOf(index) == Int(i) && HoldsStruct(CachesOf(s1), i, tag, Length(fields))
    requires s1.rest == EmitAll(fields) + s2.rest
    requires PlaceAll(fields, CachesOf(s1), inPut, s2.rest == []) == Some(CachesOf(s2))
    ensures Follows(EStruct(index, tag, fields), STRUCT, s, Tagged(tag, ValuesOf(fields)), s2, inPut)
  {
    Regroup(Emit(index), EmitAll(fields), s2.rest);
    Coded(STRUCT, Emit(index) + EmitAll(fields), s2.rest);
  }

  lemma PredefinedCode(code: Byte)
    requires Classify(code).KPredefined?
    ensures IsPredefined(Predefined(Classify(code).name, code, Classify(code).fields))
  {
  }

  lemma NamedStruct(t: Predefined, fields: Encs, s: State, s': State, inPut: bool)
    requires IsPredefined(t) && Length(fields) == t.fields && s.rest == EmitAll(fields) + s'.rest
    requires PlaceAll(fields, CachesOf(s), inPut, s'.rest == []) == Some(CachesOf(s'))
    ensures Follows(EPredefined(t, fields), t.code, s, Tagged(Str(Ascii(t.name)), ValuesOf(fields)), s', inPut)
  {
    Coded(t.code, EmitAll(fields), s'.rest);
  }

  lemma {:induction false} SpellsFields(tag: Value, n: nat, s: State, inPut: bool) returns (fields: Encs)
    requires ReadStruct(tag, n, s).Ok? && Regular(s, ReadStruct(tag, n, s).st, inPut)
    ensures Length(fields) == n && ReadStruct(tag, n, s).value == Tagged(tag, ValuesOf(fields))
    ensures var s' := ReadStruct(tag, n, s).st;
            && s.rest == EmitAll(fields) + s'.rest
            && PlaceAll(fields, CachesOf(s), inPut, s'.rest == []) == Some(CachesOf(s'))
    decreases |s.rest|, 2
  {
    fields := SpellsObjects(n, s, inPut);
  }

  lemma {:induction false} SpellsPredefined(t: Predefined, s: State, inPut: bool) returns (e: Enc)
    requires IsPredefined(t)
    requires var r := ReadStruct(Str(Ascii(t.name)), t.fields, s); r.Ok? && Regular(s, r.st, inPut)
    ensures var r := ReadStruct(Str(Ascii(t.name)), t.fields, s); Follows(e, t.code, s, r.value, r.st, inPut)
    decreases |s.rest|, 4
  {
    var fields := SpellsFields(Str(Ascii(t.name)), t.fields, s, inPut);
    e := EPredefined(t, fields);
    NamedStruct(t, fields, s, ReadStruct(Str(Ascii(t.name)), t.fields, s).st, inPut);
  }

  lemma NoFooter(s: State)
    requires ReadKind(KFooter, s).Ok?
    ensures ReadKind(KFooter, s).st.irregular
  {
    ObjectEvolves(CheckFooter(s).st);
  }

  /** The codes the reader has no use for: between the struct types, after them, and the end of a list. */
  predicate IsUnused(code: Byte) {
    0xB6 <= code <= 0xBF || code == 0xC2 || code == 0xCB || code == 0xCE || 0xF1 <= code <= 0xF4 || code == END_COLLECTION
  }

  /** An object never starts with one, and any other code is read as something. */
  lemma UnusedCodes(s: State)
    requires s.rest != []
    ensures IsUnused(s.rest[0]) ==> ReadObject(s).Fail?
    ensures Classify(s.rest[0]) == KUnexpected <==> IsUnused(s.rest[0])
  {
  }

  /** What follows a code. */
  lemma {:induction false} SpellsKind(code: Byte, s: State, inPut: bool) returns (e: Enc)
    requires ReadKind(Classify(code), s).Ok? && Regular(s, ReadKind(Classify(code), s).st, inPut)
    ensures Follows(e, code, s, ReadKind(Classify(code), s).value, ReadKind(Classify(code), s).st, inPut)
    decreases |s.rest|, 5
  {
    var k := Classify(code);
    ClassifiedCodes(code);
    if IsScalar(k) {
      e := SpellsScalar(code, k, s, inPut);
    } else {
      match k
      case KCountedBlob(_) => e := SpellsBlob(code, k, s, inPut);
      case KChunkedBlob(_) => e := SpellsBlob(code, k, s, inPut);
      case KList(n) => e := SpellsList(n, s, inPut);
      case KCountedList => e := SpellsCountedList(s, inPut);
      case KDelimitedList(open) => e := SpellsDelimited(open, s, inPut);
      case KPut => e := SpellsPut(s, inPut);
      case KGet => e := SpellsGet(s, inPut);
      case KStructType => e := SpellsStructType(s, inPut);
      case KStruct => e := SpellsStruct(s, inPut);
      case KStructPacked(i) => e := SpellsKnownStruct(i, s, inPut);
      case KPredefined(name, n) =>
        PredefinedCode(code);
        ReadsPredefined(name, n, s);
        e := SpellsPredefined(Predefined(name, code, n), s, inPut);
      case KReset => e := SpellsReset(s, inPut);
      case KFooter => NoFooter(s);
    }
  }

  /** Whatever the reader accepts is what some legal encoding of the value emits. */
  lemma {:induction false} SpellsObject(s: State, inPut: bool) returns (e: Enc)
    requires ReadObject(s).Ok? && Regular(s, ReadObject(s).st, inPut)
    ensures Spells(e, s, ReadObject(s).value, ReadObject(s).st, inPut)
    decreases |s.rest|, 0
  {
    e := SpellsKind(s.rest[0], NextCode(s).st, inPut);
    assert s.rest == [s.rest[0]] + s.rest[1..];
  }

  // ---------------------------------------------------------------- the accepted language

  /** Some legal encoding of v, written with empty caches, makes up the input before `rest`. */
  ghost predicate Legible(input: seq<Byte>, v: Value, rest: seq<Byte>) {
    exists e :: LegibleAs(e, input, v, rest)
  }

  ghost predicate LegibleAs(e: Enc, input: seq<Byte>, v: Value, rest: seq<Byte>) {
    && input == Emit(e) + rest && ValueOf(e) == v
    && Place(e, CachesOf(Fresh(input)), false, rest == []).Some?
  }

  /**
   The accepted language: a fresh reader reads v and stops at `rest`, having met no footer and
   cleared no caches inside a PUT, if and only if what it read is a legal encoding of v.
   */
  lemma AcceptedIff(input: seq<Byte>, v: Value, rest: seq<Byte>)
    ensures (var r := ReadObject(Fresh(input)); r.Ok? && r.value == v && r.st.rest == rest && !r.st.irregular) <==>
            Legible(input, v, rest)
  {
    var s := Fresh(input);
    var r := ReadObject(s);
    if r.Ok? && r.value == v && r.st.rest == rest && !r.st.irregular {
      var e := SpellsObject(s, false);
      assert LegibleAs(e, input, v, rest);
    }
    if e :| LegibleAs(e, input, v, rest) {
      Decodes(e, s, rest, false, rest == []);
    }
  }
}
