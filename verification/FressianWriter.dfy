/**
 Everything a writer may emit for a value, as a syntax tree of encodings: any integer width, any
 list form, any chunking, any use of the two caches that refers only to completed entries. The
 theorems say the reader inverts all of it, and that the caches never change what is read.
 */
module FressianWriter {
  import opened FressianFormat
  import opened FressianDecoder

  datatype Option<T> = None | Some(value: T) {
    predicate IsFailure() { None? }
    function PropagateFailure<U>(): Option<U>
      requires None?
    {
      None
    }
    function Extract(): T
      requires Some?
    {
      value
    }
  }

  // ---------------------------------------------------------------- encodings

  /** References carry the value (or tag) the writer means by them. */
  datatype Enc =
    | EInt(n: int, width: nat)
    | ENull
    | EBool(b: bool)
    | EDouble(bits: seq<Byte>)
    | EDoubleConst(one: bool)
    | EFloat(bits: seq<Byte>)
    | EBlob(text: bool, chunks: Chunks)
    | EList(items: Encs)
    | ECountedList(count: Enc, items: Encs)
    | EClosedList(items: Encs)
    | EOpenList(items: Encs, ended: bool)
    | EPut(body: Enc)
    | EGet(index: Enc, v: Value)
    | EGetPacked(i: nat, v: Value)
    | EStructType(tagEnc: Enc, count: Enc, fields: Encs)
    | EStruct(index: Enc, tag: Value, fields: Encs)
    | EStructPacked(i: nat, tag: Value, fields: Encs)
    | EPredefined(t: Predefined, fields: Encs)
    | EReset(body: Enc)

  /** A struct type that a writer need not describe: its name, its code and its number of fields. */
  datatype Predefined = Predefined(name: string, code: Byte, fields: nat)

  predicate IsPredefined(t: Predefined) {
    TypeAt(t.code) == Some(t)
  }

  /** The predefined types, by code. */
  function TypeAt(code: Byte): Option<Predefined> {
    match code
    case 0xC0 => Some(Predefined("map", code, 1))
    case 0xC1 => Some(Predefined("set", code, 1))
    case 0xC3 => Some(Predefined("uuid", code, 2))
    case 0xC4 => Some(Predefined("regex", code, 1))
    case 0xC5 => Some(Predefined("uri", code, 1))
    case 0xC6 => Some(Predefined("bigint", code, 1))
    case 0xC7 => Some(Predefined("bigdec", code, 2))
    case 0xC8 => Some(Predefined("inst", code, 1))
    case 0xC9 => Some(Predefined("sym", code, 2))
    case 0xCA => Some(Predefined("key", code, 2))
    case 0xB3 => Some(Predefined("int[]", code, 2))
    case 0xB0 => Some(Predefined("long[]", code, 2))
    case 0xB4 => Some(Predefined("float[]", code, 2))
    case 0xB2 => Some(Predefined("boolean[]", code, 2))
    case 0xB1 => Some(Predefined("double[]", code, 2))
    case 0xB5 => Some(Predefined("Object[]", code, 2))
    case _ => None
  }

  datatype Encs = Nil | Cons(head: Enc, tail: Encs)

  datatype Chunks =
    | Packed(bytes: seq<Byte>)
    | Last(count: Enc, bytes: seq<Byte>)
    | More(count: Enc, bytes: seq<Byte>, rest: Chunks)

  function Length(es: Encs): nat {
    match es
    case Nil => 0
    case Cons(_, tail) => 1 + Length(tail)
  }

  /** The value meant; caches play no part in it. */
  function ValueOf(e: Enc): Value {
    match e
    case EInt(n, _) => Int(n)
    case ENull => Null
    case EBool(b) => Bool(b)
    case EDouble(bits) => Double(bits)
    case EDoubleConst(one) => Double(if one then ONE_BITS else ZERO_BITS)
    case EFloat(bits) => Float(bits)
    case EBlob(text, chunks) => Blob(text, Joined(chunks))
    case EList(items) => Vector(ValuesOf(items))
    case ECountedList(_, items) => Vector(ValuesOf(items))
    case EClosedList(items) => Vector(ValuesOf(items))
    case EOpenList(items, _) => Vector(ValuesOf(items))
    case EPut(body) => ValueOf(body)
    case EGet(_, v) => v
    case EGetPacked(_, v) => v
    case EStructType(tagEnc, _, fields) => Tagged(ValueOf(tagEnc), ValuesOf(fields))
    case EStruct(_, tag, fields) => Tagged(tag, ValuesOf(fields))
    case EStructPacked(_, tag, fields) => Tagged(tag, ValuesOf(fields))
    case EPredefined(t, fields) => Tagged(Str(Ascii(t.name)), ValuesOf(fields))
    case EReset(body) => ValueOf(body)
  }

  function ValuesOf(es: Encs): (vs: seq<Value>)
    ensures |vs| == Length(es)
  {
    match es
    case Nil => []
    case Cons(head, tail) => [ValueOf(head)] + ValuesOf(tail)
  }

  function Joined(chunks: Chunks): seq<Byte> {
    match chunks
    case Packed(bytes) => bytes
    case Last(_, bytes) => bytes
    case More(_, bytes, rest) => bytes + Joined(rest)
  }

  // ---------------------------------------------------------------- bytes

  function ByteOf(n: int): Byte {
    if 0 <= n < 256 then n else 0
  }

  function ZeroCode(width: nat): Byte {
    match width
    case 1 => 0x50
    case 2 => 0x68
    case 3 => 0x72
    case 4 => 0x76
    case 5 => 0x7A
    case 6 => 0x7E
    case _ => 0
  }

  function EmitInt(n: int, width: nat): seq<Byte> {
    if width == 0 then [if n == -1 then 0xFF else ByteOf(n)]
    else if width == 8 then [INT] + ToBigEndian(n % 0x1_0000_0000_0000_0000, 8)
    else [ByteOf(ZeroCode(width) + n / Pow256(width))] + ToBigEndian(n % Pow256(width), width)
  }

  function Emit(e: Enc): seq<Byte> {
    match e
    case EInt(n, width) => EmitInt(n, width)
    case ENull => [NULL]
    case EBool(b) => [if b then TRUE else FALSE]
    case EDouble(bits) => [DOUBLE] + bits
    case EDoubleConst(one) => [if one then DOUBLE_1 else DOUBLE_0]
    case EFloat(bits) => [FLOAT] + bits
    case EBlob(text, chunks) => EmitChunks(text, chunks)
    case EList(items) => [ByteOf(LIST_PACKED_LENGTH_START + Length(items))] + EmitAll(items)
    case ECountedList(count, items) => [LIST] + (Emit(count) + EmitAll(items))
    case EClosedList(items) => [BEGIN_CLOSED_LIST] + (EmitAll(items) + [END_COLLECTION])
    case EOpenList(items, ended) =>
      [BEGIN_OPEN_LIST] + (EmitAll(items) + if ended then [END_COLLECTION] else [])
    case EPut(body) => [PUT_PRIORITY_CACHE] + Emit(body)
    case EGet(index, _) => [GET_PRIORITY_CACHE] + Emit(index)
    case EGetPacked(i, _) => [ByteOf(PRIORITY_CACHE_PACKED_START + i)]
    case EStructType(tagEnc, count, fields) => [STRUCTTYPE] + (Emit(tagEnc) + (Emit(count) + EmitAll(fields)))
    case EStruct(index, _, fields) => [STRUCT] + (Emit(index) + EmitAll(fields))
    case EStructPacked(i, _, fields) => [ByteOf(STRUCT_CACHE_PACKED_START + i)] + EmitAll(fields)
    case EPredefined(t, fields) => [t.code] + EmitAll(fields)
    case EReset(body) => [RESET_CACHES] + Emit(body)
  }

  function EmitAll(es: Encs): seq<Byte> {
    match es
    case Nil => []
    case Cons(head, tail) => Emit(head) + EmitAll(tail)
  }

  function EmitChunks(text: bool, chunks: Chunks): seq<Byte>
    decreases chunks
  {
    match chunks
    case Packed(bytes) =>
      [ByteOf((if text then STRING_PACKED_LENGTH_START else BYTES_PACKED_LENGTH_START) + |bytes|)] + bytes
    case Last(count, bytes) => [if text then STRING else BYTES] + (Emit(count) + bytes)
    case More(count, bytes, rest) =>
      [if text then STRING_CHUNK else BYTES_CHUNK] + (Emit(count) + (bytes + EmitChunks(text, rest)))
  }

  // ---------------------------------------------------------------- legal placements

  /** The two caches, how often they were cleared, and whether that was ever done where it may not be. */
  datatype Caches = Caches(priority: seq<Value>, structs: seq<StructType>, resets: nat, irregular: bool)

  function CachesOf(s: State): Caches {
    Caches(s.priority, s.structs, s.resets, s.irregular)
  }

  function Cleared(c: Caches): Caches {
    c.(priority := [], structs := [], resets := c.resets + 1)
  }

  /** How far the high part may be from zero in a packed integer of this width. */
  function HighLimit(width: nat): nat {
    if width == 1 then 16 else if width == 2 then 8 else if 3 <= width <= 6 then 2 else 0
  }

  predicate FitsWidth(n: int, width: nat) {
    if width == 0 then -1 <= n < 0x40
    else if width == 8 then IsInt64(n)
    else 0 - HighLimit(width) <= n / Pow256(width) < HighLimit(width)
  }

  predicate Holds(c: Caches, i: int, v: Value) {
    0 <= i < |c.priority| && c.priority[i] == v && v != UnderConstruction
  }

  predicate HoldsStruct(c: Caches, i: int, tag: Value, n: nat) {
    0 <= i < |c.structs| && c.structs[i] == StructType(tag, n)
  }

  /**
   The caches after an encoding, if it may be written with caches `c`: lengths fit, every
   reference names an entry that is complete and means what the writer means, caches are not
   reset inside an object being cached (`inPut`), and an open list is left unended only where
   nothing follows (`atEnd`).
   */
  function Place(e: Enc, c: Caches, inPut: bool, atEnd: bool): (r: Option<Caches>)
    ensures inPut && r.Some? ==> c.priority <= r.value.priority && r.value.resets == c.resets
    ensures r.Some? ==> r.value.irregular == c.irregular
    decreases e, 0
  {
    match e
    case EInt(n, width) => if FitsWidth(n, width) then Some(c) else None
    case ENull => Some(c)
    case EBool(b) => Some(c)
    case EDouble(bits) => if |bits| == 8 then Some(c) else None
    case EDoubleConst(_) => Some(c)
    case EFloat(bits) => if |bits| == 4 then Some(c) else None
    case EBlob(text, chunks) =>
      var c1 :- PlaceChunks(text, chunks, true, c, inPut);
      if |Joined(chunks)| < 0x8000_0000 then Some(c1) else None
    case EList(items) => if Length(items) < 8 then PlaceAll(items, c, inPut, atEnd) else None
    case ECountedList(count, items) =>
      var c1 :- PlaceInt(count, Length(items), c, inPut);
      PlaceAll(items, c1, inPut, atEnd)
    case EClosedList(items) => PlaceAll(items, c, inPut, false)
    case EOpenList(items, ended) =>
      if ended then PlaceAll(items, c, inPut, false)
      else if atEnd then PlaceAll(items, c, inPut, true)
      else None
    case EPut(body) =>
      var c1 :- Place(body, c.(priority := c.priority + [UnderConstruction]), true, atEnd);
      Some(c1.(priority := c1.priority[|c.priority| := ValueOf(body)]))
    case EGet(index, v) =>
      var i := ValueOf(index);
      if !i.Int? then None else
      var c1 :- PlaceInt(index, i.n, c, inPut);
      if Holds(c1, i.n, v) then Some(c1) else None
    case EGetPacked(i, v) => if i < 32 && Holds(c, i, v) then Some(c) else None
    case EStructType(tagEnc, count, fields) =>
      var c1 :- Place(tagEnc, c, inPut, false);
      var c2 :- PlaceInt(count, Length(fields), c1, inPut);
      var entry := StructType(ValueOf(tagEnc), Length(fields));
      PlaceAll(fields, c2.(structs := c2.structs + [entry]), inPut, atEnd)
    case EStruct(index, tag, fields) =>
      var i := ValueOf(index);
      if !i.Int? then None else
      var c1 :- PlaceInt(index, i.n, c, inPut);
      if HoldsStruct(c1, i.n, tag, Length(fields)) then PlaceAll(fields, c1, inPut, atEnd) else None
    case EStructPacked(i, tag, fields) =>
      if i < 16 && HoldsStruct(c, i, tag, Length(fields)) then PlaceAll(fields, c, inPut, atEnd) else None
    case EPredefined(t, fields) =>
      if IsPredefined(t) && Length(fields) == t.fields then PlaceAll(fields, c, inPut, atEnd) else None
    case EReset(body) => if inPut then None else Place(body, Cleared(c), false, atEnd)
  }

  /** A count or index, itself written in any legal way. */
  function PlaceInt(e: Enc, n: int, c: Caches, inPut: bool): (r: Option<Caches>)
    ensures inPut && r.Some? ==> c.priority <= r.value.priority && r.value.resets == c.resets
    ensures r.Some? ==> r.value.irregular == c.irregular
    decreases e, 1
  {
    if ValueOf(e) == Int(n) && IsInt32(n) then Place(e, c, inPut, false) else None
  }

  function PlaceAll(es: Encs, c: Caches, inPut: bool, atEnd: bool): (r: Option<Caches>)
    ensures inPut && r.Some? ==> c.priority <= r.value.priority && r.value.resets == c.resets
    ensures r.Some? ==> r.value.irregular == c.irregular
    decreases es
  {
    match es
    case Nil => Some(c)
    case Cons(head, tail) =>
      var c1 :- Place(head, c, inPut, atEnd && tail.Nil?);
      PlaceAll(tail, c1, inPut, atEnd)
  }

  /** `packable`: a packed chunk may stand here (alone, or last in a text). */
  function PlaceChunks(text: bool, chunks: Chunks, packable: bool, c: Caches, inPut: bool): (r: Option<Caches>)
    ensures inPut && r.Some? ==> c.priority <= r.value.priority && r.value.resets == c.resets
    ensures r.Some? ==> r.value.irregular == c.irregular
    decreases chunks
  {
    match chunks
    case Packed(bytes) => if packable && |bytes| < 8 then Some(c) else None
    case Last(count, bytes) => PlaceInt(count, |bytes|, c, inPut)
    case More(count, bytes, rest) =>
      var c1 :- PlaceInt(count, |bytes|, c, inPut);
      PlaceChunks(text, rest, text, c1, inPut)
  }

  // ---------------------------------------------------------------- the reader inverts the writer

  /** The read succeeded with `v`, left exactly `rest`, and left the caches as the writer has them. */
  ghost predicate Yields<T>(r: Result<T>, v: T, c: Caches, rest: seq<Byte>) {
    r.Ok? && r.value == v && r.st.rest == rest && CachesOf(r.st) == c
  }

  lemma Dispatch(s: State, code: Byte, tail: seq<Byte>, rest: seq<Byte>)
    requires s.rest == ([code] + tail) + rest
    ensures NextCode(s) == Ok(code, s.(rest := tail + rest, count := s.count + 1))
    ensures ReadObject(s) == ReadKind(Classify(code), s.(rest := tail + rest, count := s.count + 1))
  {
    assert s.rest[1..] == tail + rest;
  }

  lemma Regroup(a: seq<Byte>, b: seq<Byte>, rest: seq<Byte>)
    ensures (a + b) + rest == a + (b + rest)
  {
  }

  /** Encodings whose whole meaning is in their own bytes. */
  ghost predicate IsAtom(e: Enc) {
    e.EInt? || e.ENull? || e.EBool? || e.EDouble? || e.EDoubleConst? || e.EFloat? || e.EGetPacked?
  }

  lemma {:induction false} Decodes(e: Enc, s: State, rest: seq<Byte>, inPut: bool, atEnd: bool)
    requires Place(e, CachesOf(s), inPut, atEnd).Some?
    requires s.rest == Emit(e) + rest
    requires atEnd ==> rest == []
    ensures Yields(ReadObject(s), ValueOf(e), Place(e, CachesOf(s), inPut, atEnd).value, rest)
    decreases e, 2
  {
    match e
    case EBlob(text, chunks) => DecodesBlob(text, chunks, s, rest, inPut);
    case EList(_) => DecodesList(e, s, rest, inPut, atEnd);
    case ECountedList(_, _) => DecodesCountedList(e, s, rest, inPut, atEnd);
    case EClosedList(_) => DecodesDelimited(e, s, rest, inPut, atEnd);
    case EOpenList(_, _) => DecodesDelimited(e, s, rest, inPut, atEnd);
    case EPut(_) => DecodesPut(e, s, rest, inPut, atEnd);
    case EGet(_, _) => DecodesGet(e, s, rest, inPut, atEnd);
    case EStructType(_, _, _) => DecodesStructType(e, s, rest, inPut, atEnd);
    case EStruct(_, _, _) => DecodesStruct(e, s, rest, inPut, atEnd);
    case EStructPacked(_, _, _) => DecodesStructPacked(e, s, rest, inPut, atEnd);
    case EPredefined(_, _) => DecodesPredefined(e, s, rest, inPut, atEnd);
    case EReset(_) => DecodesReset(e, s, rest, inPut, atEnd);
    case _ => DecodesAtom(e, s, rest, inPut, atEnd);
  }

  lemma DecodesAtom(e: Enc, s: State, rest: seq<Byte>, inPut: bool, atEnd: bool)
    requires IsAtom(e)
    requires Place(e, CachesOf(s), inPut, atEnd).Some?
    requires s.rest == Emit(e) + rest
    ensures Yields(ReadObject(s), ValueOf(e), Place(e, CachesOf(s), inPut, atEnd).value, rest)
  {
    match e
    case EInt(n, width) => DecodesInt(n, width, s, rest);
    case ENull => DecodesConstant(s, NULL, Null, rest);
    case EBool(b) => DecodesConstant(s, if b then TRUE else FALSE, Bool(b), rest);
    case EDouble(bits) => DecodesDouble(s, bits, rest);
    case EDoubleConst(one) => DecodesConstant(s, if one then DOUBLE_1 else DOUBLE_0, ValueOf(e), rest);
    case EFloat(bits) => DecodesFloat(s, bits, rest);
    case EGetPacked(i, v) => DecodesGetPacked(i, v, s, rest);
  }

  lemma DecodesConstant(s: State, code: Byte, v: Value, rest: seq<Byte>)
    requires s.rest == [code] + rest
    requires match Classify(code)
             case KInt(n) => v == Int(n)
             case KNull => v == Null
             case KBool(b) => v == Bool(b)
             case KDoubleConst(bits) => v == Double(bits)
             case _ => false
    ensures Yields(ReadObject(s), v, CachesOf(s), rest)
  {
    assert [code] + [] == [code];
    Dispatch(s, code, [], rest);
  }

  lemma DecodesDouble(s: State, bits: seq<Byte>, rest: seq<Byte>)
    requires s.rest == ([DOUBLE] + bits) + rest && |bits| == 8
    ensures Yields(ReadObject(s), Double(bits), CachesOf(s), rest)
  {
    Dispatch(s, DOUBLE, bits, rest);
    TakePrefix(NextCode(s).st, bits, rest);
  }

  lemma DecodesFloat(s: State, bits: seq<Byte>, rest: seq<Byte>)
    requires s.rest == ([FLOAT] + bits) + rest && |bits| == 4
    ensures Yields(ReadObject(s), Float(bits), CachesOf(s), rest)
  {
    Dispatch(s, FLOAT, bits, rest);
    TakePrefix(NextCode(s).st, bits, rest);
  }

  lemma DecodesGetPacked(i: nat, v: Value, s: State, rest: seq<Byte>)
    requires i < 32 && Holds(CachesOf(s), i, v)
    requires s.rest == [PRIORITY_CACHE_PACKED_START + i] + rest
    ensures Yields(ReadObject(s), v, CachesOf(s), rest)
  {
    var code: Byte := PRIORITY_CACHE_PACKED_START + i;
    assert [code] + [] == [code];
    Dispatch(s, code, [], rest);
    assert Classify(code) == KGetPacked(i);
  }

  lemma {:induction false} DecodesPut(e: Enc, s: State, rest: seq<Byte>, inPut: bool, atEnd: bool)
    requires e.EPut?
    requires Place(e, CachesOf(s), inPut, atEnd).Some?
    requires s.rest == Emit(e) + rest
    requires atEnd ==> rest == []
    ensures Yields(ReadObject(s), ValueOf(e), Place(e, CachesOf(s), inPut, atEnd).value, rest)
    decreases e, 1
  {
    Dispatch(s, PUT_PRIORITY_CACHE, Emit(e.body), rest);
    Decodes(e.body, OpenSlot(NextCode(s).st), rest, true, atEnd);
  }

  lemma {:induction false} DecodesReset(e: Enc, s: State, rest: seq<Byte>, inPut: bool, atEnd: bool)
    requires e.EReset?
    requires Place(e, CachesOf(s), inPut, atEnd).Some?
    requires s.rest == Emit(e) + rest
    requires atEnd ==> rest == []
    ensures Yields(ReadObject(s), ValueOf(e), Place(e, CachesOf(s), inPut, atEnd).value, rest)
    decreases e, 1
  {
    Dispatch(s, RESET_CACHES, Emit(e.body), rest);
    Decodes(e.body, ClearCaches(NextCode(s).st), rest, false, atEnd);
  }

  lemma {:induction false} DecodesGet(e: Enc, s: State, rest: seq<Byte>, inPut: bool, atEnd: bool)
    requires e.EGet?
    requires Place(e, CachesOf(s), inPut, atEnd).Some?
    requires s.rest == Emit(e) + rest
    ensures Yields(ReadObject(s), ValueOf(e), Place(e, CachesOf(s), inPut, atEnd).value, rest)
    decreases e, 1
  {
    Dispatch(s, GET_PRIORITY_CACHE, Emit(e.index), rest);
    DecodesIndex(e.index, ValueOf(e.index).n, NextCode(s).st, rest, inPut);
  }

  lemma ReadsList(n: nat, s: State)
    requires ReadObjects(n, s).Ok?
    ensures ReadKind(KList(n), s) == Ok(Vector(ReadObjects(n, s).value), ReadObjects(n, s).st)
  {
  }

  lemma ListCode(n: nat)
    requires n < 8
    ensures ByteOf(LIST_PACKED_LENGTH_START + n) == LIST_PACKED_LENGTH_START + n
    ensures Classify(LIST_PACKED_LENGTH_START + n) == KList(n)
  {
  }

  lemma {:induction false} DecodesList(e: Enc, s: State, rest: seq<Byte>, inPut: bool, atEnd: bool)
    requires e.EList?
    requires Place(e, CachesOf(s), inPut, atEnd).Some?
    requires s.rest == Emit(e) + rest
    requires atEnd ==> rest == []
    ensures Yields(ReadObject(s), ValueOf(e), Place(e, CachesOf(s), inPut, atEnd).value, rest)
    decreases e, 1
  {
    var n, s1 := Length(e.items), s.(rest := EmitAll(e.items) + rest, count := s.count + 1);
    ListCode(n);
    Dispatch(s, LIST_PACKED_LENGTH_START + n, EmitAll(e.items), rest);
    DecodesAll(e.items, s1, rest, inPut, atEnd);
    ReadsList(n, s1);
  }

  lemma {:induction false} DecodesStructPacked(e: Enc, s: State, rest: seq<Byte>, inPut: bool, atEnd: bool)
    requires e.EStructPacked?
    requires Place(e, CachesOf(s), inPut, atEnd).Some?
    requires s.rest == Emit(e) + rest
    requires atEnd ==> rest == []
    ensures Yields(ReadObject(s), ValueOf(e), Place(e, CachesOf(s), inPut, atEnd).value, rest)
    decreases e, 1
  {
    var s1 := s.(rest := EmitAll(e.fields) + rest, count := s.count + 1);
    Dispatch(s, STRUCT_CACHE_PACKED_START + e.i, EmitAll(e.fields), rest);
    DecodesFields(e.tag, e.fields, s1, rest, inPut, atEnd);
    assert ReadCachedStruct(e.i, s1) == ReadStruct(e.tag, Length(e.fields), s1);
  }

  /** The reader knows each predefined type by its own code, under its own name, with its own fields. */
  lemma TypeCodes(t: Predefined)
    requires IsPredefined(t)
    ensures Classify(t.code) == KPredefined(t.name, t.fields)
  {
  }

  lemma {:induction false} DecodesPredefined(e: Enc, s: State, rest: seq<Byte>, inPut: bool, atEnd: bool)
    requires e.EPredefined?
    requires Place(e, CachesOf(s), inPut, atEnd).Some?
    requires s.rest == Emit(e) + rest
    requires atEnd ==> rest == []
    ensures Yields(ReadObject(s), ValueOf(e), Place(e, CachesOf(s), inPut, atEnd).value, rest)
    decreases e, 1
  {
    var s1 := s.(rest := EmitAll(e.fields) + rest, count := s.count + 1);
    TypeCodes(e.t);
    Dispatch(s, e.t.code, EmitAll(e.fields), rest);
    DecodesFields(Str(Ascii(e.t.name)), e.fields, s1, rest, inPut, atEnd);
    ReadsPredefined(e.t.name, e.t.fields, s1);
  }

  lemma ReadsPredefined(name: string, n: nat, s: State)
    ensures ReadKind(KPredefined(name, n), s) == ReadStruct(Str(Ascii(name)), n, s)
  {
  }

  lemma DecodesInt(n: int, width: nat, s: State, rest: seq<Byte>)
    requires FitsWidth(n, width)
    requires s.rest == EmitInt(n, width) + rest
    ensures Yields(ReadObject(s), Int(n), CachesOf(s), rest)
  {
    if width == 0 {
      DecodesConstant(s, if n == -1 then 0xFF else ByteOf(n), Int(n), rest);
    } else if width == 8 {
      DecodesInt64(n, s, rest);
    } else {
      DecodesPackedInt(n, width, s, rest);
    }
  }

  lemma DecodesInt64(n: int, s: State, rest: seq<Byte>)
    requires IsInt64(n)
    requires s.rest == EmitInt(n, 8) + rest
    ensures Yields(ReadObject(s), Int(n), CachesOf(s), rest)
  {
    var m := n % 0x1_0000_0000_0000_0000;
    var bs := ToBigEndian(m, 8);
    var s1 := s.(rest := bs + rest, count := s.count + 1);
    Dispatch(s, INT, bs, rest);
    TakePrefix(s1, bs, rest);
    assert FromBigEndian(bs) == m by {
      Pow256Values();
      BigEndianRoundTrip(m, 8);
    }
    assert Signed64(m) == n;
  }

  lemma DivMod(n: int, p: nat)
    requires p > 0
    ensures (n / p) * p + n % p == n
  {
  }

  lemma PackedCode(high: int, width: nat)
    requires 0 - HighLimit(width) <= high < HighLimit(width)
    ensures 0 <= ZeroCode(width) + high < 256
    ensures Classify(ZeroCode(width) + high) == KPackedInt(high, width)
  {
  }

  lemma DecodesPackedInt(n: int, width: nat, s: State, rest: seq<Byte>)
    requires width != 0 && width != 8 && FitsWidth(n, width)
    requires s.rest == EmitInt(n, width) + rest
    ensures Yields(ReadObject(s), Int(n), CachesOf(s), rest)
  {
    var p := Pow256(width);
    PackedCode(n / p, width);
    DecodesPacked(ZeroCode(width) + n / p, n / p, n % p, width, s, rest);
    DivMod(n, p);
  }

  lemma DecodesPacked(code: Byte, high: int, low: nat, width: nat, s: State, rest: seq<Byte>)
    requires Classify(code) == KPackedInt(high, width) && low < Pow256(width)
    requires s.rest == ([code] + ToBigEndian(low, width)) + rest
    ensures Yields(ReadObject(s), Int(high * Pow256(width) + low), CachesOf(s), rest)
  {
    var bs := ToBigEndian(low, width);
    Dispatch(s, code, bs, rest);
    TakePrefix(s.(rest := bs + rest, count := s.count + 1), bs, rest);
    BigEndianRoundTrip(low, width);
  }

  lemma {:induction false} DecodesIndex(e: Enc, n: int, s: State, rest: seq<Byte>, inPut: bool)
    requires PlaceInt(e, n, CachesOf(s), inPut).Some?
    requires s.rest == Emit(e) + rest
    ensures Yields(ReadInt32(s), n, PlaceInt(e, n, CachesOf(s), inPut).value, rest)
    decreases e, 3
  {
    Decodes(e, s, rest, inPut, false);
  }

  lemma {:induction false} DecodesCounted(e: Enc, bs: seq<Byte>, s: State, rest: seq<Byte>, inPut: bool)
    requires PlaceInt(e, |bs|, CachesOf(s), inPut).Some?
    requires s.rest == Emit(e) + (bs + rest)
    ensures Yields(ReadCounted(s), bs, PlaceInt(e, |bs|, CachesOf(s), inPut).value, rest)
    decreases e, 4
  {
    DecodesIndex(e, |bs|, s, bs + rest, inPut);
    TakePrefix(ReadInt32(s).st, bs, rest);
  }

  lemma {:induction false} DecodesCountedList(e: Enc, s: State, rest: seq<Byte>, inPut: bool, atEnd: bool)
    requires e.ECountedList?
    requires Place(e, CachesOf(s), inPut, atEnd).Some?
    requires s.rest == Emit(e) + rest
    requires atEnd ==> rest == []
    ensures Yields(ReadObject(s), ValueOf(e), Place(e, CachesOf(s), inPut, atEnd).value, rest)
    decreases e, 1
  {
    var items := EmitAll(e.items);
    Dispatch(s, LIST, Emit(e.count) + items, rest);
    Regroup(Emit(e.count), items, rest);
    var s1 := NextCode(s).st;
    DecodesIndex(e.count, Length(e.items), s1, items + rest, inPut);
    DecodesAll(e.items, ReadInt32(s1).st, rest, inPut, atEnd);
  }

  /** A struct's fields, once its tag and their number are known. */
  lemma {:induction false} DecodesFields(tag: Value, fields: Encs, s: State, rest: seq<Byte>, inPut: bool, atEnd: bool)
    requires PlaceAll(fields, CachesOf(s), inPut, atEnd).Some?
    requires s.rest == EmitAll(fields) + rest
    requires atEnd ==> rest == []
    ensures Yields(ReadStruct(tag, Length(fields), s), Tagged(tag, ValuesOf(fields)),
                   PlaceAll(fields, CachesOf(s), inPut, atEnd).value, rest)
    decreases fields, 1
  {
    DecodesAll(fields, s, rest, inPut, atEnd);
  }

  /** What placing a struct with its type comes to. */
  lemma PlaceStructType(tagEnc: Enc, count: Enc, fields: Encs, c: Caches, inPut: bool, atEnd: bool, c1: Caches, c2: Caches)
    requires Place(tagEnc, c, inPut, false) == Some(c1)
    requires PlaceInt(count, Length(fields), c1, inPut) == Some(c2)
    ensures Place(EStructType(tagEnc, count, fields), c, inPut, atEnd) ==
            PlaceAll(fields, c2.(structs := c2.structs + [StructType(ValueOf(tagEnc), Length(fields))]), inPut, atEnd)
  {
  }

  lemma ReadsStructType(s: State, tag: Value, s1: State, n: int, s2: State)
    requires ReadObject(s) == Ok(tag, s1) && ReadInt32(s1) == Ok(n, s2)
    ensures ReadKind(KStructType, s) == ReadStruct(tag, n, s2.(structs := s2.structs + [StructType(tag, n)]))
  {
  }

  lemma {:induction false} DecodesStructType(e: Enc, s: State, rest: seq<Byte>, inPut: bool, atEnd: bool)
    requires e.EStructType?
    requires Place(e, CachesOf(s), inPut, atEnd).Some?
    requires s.rest == Emit(e) + rest
    requires atEnd ==> rest == []
    ensures Yields(ReadObject(s), ValueOf(e), Place(e, CachesOf(s), inPut, atEnd).value, rest)
    decreases e, 1
  {
    var fields := EmitAll(e.fields);
    Dispatch(s, STRUCTTYPE, Emit(e.tagEnc) + (Emit(e.count) + fields), rest);
    Regroup(Emit(e.tagEnc), Emit(e.count) + fields, rest);
    Regroup(Emit(e.count), fields, rest);
    DecodesTyped(e.tagEnc, e.count, e.fields, NextCode(s).st, rest, inPut, atEnd);
  }

  lemma {:induction false} DecodesTyped(tagEnc: Enc, count: Enc, fields: Encs, s: State, rest: seq<Byte>, inPut: bool, atEnd: bool)
    requires Place(EStructType(tagEnc, count, fields), CachesOf(s), inPut, atEnd).Some?
    requires s.rest == Emit(tagEnc) + (Emit(count) + (EmitAll(fields) + rest))
    requires atEnd ==> rest == []
    ensures Yields(ReadKind(KStructType, s), Tagged(ValueOf(tagEnc), ValuesOf(fields)),
                   Place(EStructType(tagEnc, count, fields), CachesOf(s), inPut, atEnd).value, rest)
    decreases EStructType(tagEnc, count, fields), 0
  {
    var n := Length(fields);
    Decodes(tagEnc, s, Emit(count) + (EmitAll(fields) + rest), inPut, false);
    var s1 := ReadObject(s).st;
    DecodesIndex(count, n, s1, EmitAll(fields) + rest, inPut);
    var s2 := ReadInt32(s1).st;
    ReadsStructType(s, ValueOf(tagEnc), s1, n, s2);
    PlaceStructType(tagEnc, count, fields, CachesOf(s), inPut, atEnd, CachesOf(s1), CachesOf(s2));
    DecodesFields(ValueOf(tagEnc), fields, s2.(structs := s2.structs + [StructType(ValueOf(tagEnc), n)]), rest, inPut, atEnd);
  }

  lemma {:induction false} DecodesStruct(e: Enc, s: State, rest: seq<Byte>, inPut: bool, atEnd: bool)
    requires e.EStruct?
    requires Place(e, CachesOf(s), inPut, atEnd).Some?
    requires s.rest == Emit(e) + rest
    requires atEnd ==> rest == []
    ensures Yields(ReadObject(s), ValueOf(e), Place(e, CachesOf(s), inPut, atEnd).value, rest)
    decreases e, 1
  {
    var fields := EmitAll(e.fields);
    Dispatch(s, STRUCT, Emit(e.index) + fields, rest);
    Regroup(Emit(e.index), fields, rest);
    var s1 := NextCode(s).st;
    var i := ValueOf(e.index).n;
    DecodesIndex(e.index, i, s1, fields + rest, inPut);
    var s2 := ReadInt32(s1).st;
    DecodesFields(e.tag, e.fields, s2, rest, inPut, atEnd);
    assert ReadKind(KStruct, s1) == ReadCachedStruct(i, s2);
    assert ReadCachedStruct(i, s2) == ReadStruct(e.tag, Length(e.fields), s2);
  }

  lemma {:induction false} DecodesAll(es: Encs, s: State, rest: seq<Byte>, inPut: bool, atEnd: bool)
    requires PlaceAll(es, CachesOf(s), inPut, atEnd).Some?
    requires s.rest == EmitAll(es) + rest
    requires atEnd ==> rest == []
    ensures Yields(ReadObjects(Length(es), s), ValuesOf(es), PlaceAll(es, CachesOf(s), inPut, atEnd).value, rest)
    decreases es, 0
  {
    match es
    case Nil =>
    case Cons(head, tail) =>
      Regroup(Emit(head), EmitAll(tail), rest);
      Decodes(head, s, EmitAll(tail) + rest, inPut, atEnd && tail.Nil?);
      DecodesAll(tail, ReadObject(s).st, rest, inPut, atEnd);
  }

  lemma {:induction false} DecodesBlob(text: bool, chunks: Chunks, s: State, rest: seq<Byte>, inPut: bool)
    requires PlaceChunks(text, chunks, true, CachesOf(s), inPut).Some?
    requires |Joined(chunks)| < 0x8000_0000
    requires s.rest == EmitChunks(text, chunks) + rest
    ensures Yields(ReadObject(s), Blob(text, Joined(chunks)), PlaceChunks(text, chunks, true, CachesOf(s), inPut).value, rest)
    decreases chunks, 1
  {
    match chunks
    case Packed(bytes) => DecodesShort(text, bytes, s, rest);
    case Last(count, bytes) => DecodesWhole(text, count, bytes, s, rest, inPut);
    case More(_, _, _) =>
      ChunkCodeIs(text, chunks);
      Dispatch(s, ChunkCode(text, chunks), ChunkTail(text, chunks), rest);
      DecodesChunks(text, chunks, true, NextCode(s).st, rest, inPut);
  }

  lemma DecodesShort(text: bool, bytes: seq<Byte>, s: State, rest: seq<Byte>)
    requires |bytes| < 8 && s.rest == EmitChunks(text, Packed(bytes)) + rest
    ensures Yields(ReadObject(s), Blob(text, bytes), CachesOf(s), rest)
  {
    Dispatch(s, (if text then STRING_PACKED_LENGTH_START else BYTES_PACKED_LENGTH_START) + |bytes|, bytes, rest);
    TakePrefix(NextCode(s).st, bytes, rest);
  }

  lemma {:induction false} DecodesWhole(text: bool, count: Enc, bytes: seq<Byte>, s: State, rest: seq<Byte>, inPut: bool)
    requires PlaceInt(count, |bytes|, CachesOf(s), inPut).Some?
    requires s.rest == EmitChunks(text, Last(count, bytes)) + rest
    ensures Yields(ReadObject(s), Blob(text, bytes), PlaceInt(count, |bytes|, CachesOf(s), inPut).value, rest)
    decreases count, 5
  {
    Dispatch(s, if text then STRING else BYTES, Emit(count) + bytes, rest);
    Regroup(Emit(count), bytes, rest);
    DecodesCounted(count, bytes, NextCode(s).st, rest, inPut);
  }

  /** The code each chunk starts with, and what follows that code. */
  function ChunkCode(text: bool, chunks: Chunks): Byte {
    match chunks
    case Packed(bytes) => ByteOf((if text then STRING_PACKED_LENGTH_START else BYTES_PACKED_LENGTH_START) + |bytes|)
    case Last(_, _) => if text then STRING else BYTES
    case More(_, _, _) => if text then STRING_CHUNK else BYTES_CHUNK
  }

  function ChunkTail(text: bool, chunks: Chunks): seq<Byte> {
    match chunks
    case Packed(bytes) => bytes
    case Last(count, bytes) => Emit(count) + bytes
    case More(count, bytes, rest) => Emit(count) + (bytes + EmitChunks(text, rest))
  }

  function ChunkKind(text: bool, chunks: Chunks): Kind {
    match chunks
    case Packed(bytes) => KBlob(text, |bytes|)
    case Last(_, _) => KCountedBlob(text)
    case More(_, _, _) => KChunkedBlob(text)
  }

  lemma ChunkCodeIs(text: bool, chunks: Chunks)
    requires chunks.Packed? ==> |chunks.bytes| < 8
    ensures Classify(ChunkCode(text, chunks)) == ChunkKind(text, chunks)
    ensures EmitChunks(text, chunks) == [ChunkCode(text, chunks)] + ChunkTail(text, chunks)
  {
  }

  /** What follows the code of a chunk. */
  lemma {:induction false} DecodesChunks(text: bool, chunks: Chunks, packable: bool, s: State, rest: seq<Byte>, inPut: bool)
    requires PlaceChunks(text, chunks, packable, CachesOf(s), inPut).Some?
    requires chunks.Packed? ==> text
    requires s.rest == ChunkTail(text, chunks) + rest
    ensures Yields(ReadChunks(text, ChunkKind(text, chunks), s), Joined(chunks),
                   PlaceChunks(text, chunks, packable, CachesOf(s), inPut).value, rest)
    decreases chunks, 0
  {
    match chunks
    case Packed(bytes) => TakePrefix(s, bytes, rest);
    case Last(count, bytes) =>
      Regroup(Emit(count), bytes, rest);
      DecodesCounted(count, bytes, s, rest, inPut);
    case More(count, bytes, next) =>
      var after := EmitChunks(text, next) + rest;
      Regroup(Emit(count), bytes + EmitChunks(text, next), rest);
      Regroup(bytes, EmitChunks(text, next), rest);
      DecodesCounted(count, bytes, s, after, inPut);
      var s1 := ReadCounted(s).st;
      ChunkCodeIs(text, next);
      Dispatch(s1, ChunkCode(text, next), ChunkTail(text, next), rest);
      var s2 := s1.(rest := ChunkTail(text, next) + rest, count := s1.count + 1);
      DecodesChunks(text, next, text, s2, rest, inPut);
      ChunksUnfold(text, s, bytes, s1, ChunkCode(text, next), s2);
  }

  lemma {:induction false} DecodesDelimited(e: Enc, s: State, rest: seq<Byte>, inPut: bool, atEnd: bool)
    requires e.EClosedList? || e.EOpenList?
    requires Place(e, CachesOf(s), inPut, atEnd).Some?
    requires s.rest == Emit(e) + rest
    requires atEnd ==> rest == []
    ensures Yields(ReadObject(s), ValueOf(e), Place(e, CachesOf(s), inPut, atEnd).value, rest)
    decreases e, 1
  {
    var ended := e.EOpenList? ==> e.ended;
    var end := if ended then [END_COLLECTION] else [];
    Dispatch(s, if e.EOpenList? then BEGIN_OPEN_LIST else BEGIN_CLOSED_LIST, EmitAll(e.items) + end, rest);
    Regroup(EmitAll(e.items), end, rest);
    DecodesUntilEnd(e.EOpenList?, e.items, ended, NextCode(s).st, rest, inPut);
  }

  lemma {:induction false} DecodesUntilEnd(open: bool, es: Encs, ended: bool, s: State, rest: seq<Byte>, inPut: bool)
    requires PlaceAll(es, CachesOf(s), inPut, !ended).Some?
    requires s.rest == EmitAll(es) + ((if ended then [END_COLLECTION] else []) + rest)
    requires ended || (open && rest == [])
    ensures Yields(ReadUntilEnd(open, s), ValuesOf(es), PlaceAll(es, CachesOf(s), inPut, !ended).value, rest)
    decreases es
  {
    var end := (if ended then [END_COLLECTION] else []) + rest;
    match es
    case Nil =>
      if ended { Dispatch(s, END_COLLECTION, [], rest); }
    case Cons(head, tail) =>
      Regroup(Emit(head), EmitAll(tail), end);
      EmitHead(head, CachesOf(s), inPut, !ended && tail.Nil?);
      Decodes(head, s, EmitAll(tail) + end, inPut, !ended && tail.Nil?);
      DecodesUntilEnd(open, tail, ended, ReadObject(s).st, rest, inPut);
  }

  /** No encoding starts like the end of a collection. */
  lemma EmitHead(e: Enc, c: Caches, inPut: bool, atEnd: bool)
    requires Place(e, c, inPut, atEnd).Some?
    ensures Emit(e) != [] && Emit(e)[0] != END_COLLECTION
  {
    if e.EInt? {
      IntHead(e.n, e.width);
    }
  }

  lemma IntHead(n: int, width: nat)
    requires FitsWidth(n, width)
    ensures EmitInt(n, width) != [] && EmitInt(n, width)[0] != END_COLLECTION
  {
    if width != 0 && width != 8 {
      PackedCode(n / Pow256(width), width);
    }
  }

  // ---------------------------------------------------------------- the plain, cache-free writer

  predicate Encodable(v: Value) {
    match v
    case Null => true
    case Bool(_) => true
    case Int(n) => IsInt64(n)
    case Double(bits) => |bits| == 8
    case Float(bits) => |bits| == 4
    case Bytes(bs) => |bs| < 0x8000_0000
    case Str(bs) => |bs| < 0x8000_0000
    case Vector(items) => forall i :: 0 <= i < |items| ==> Encodable(items[i])
    case Tagged(tag, fields) =>
      Encodable(tag) && |fields| < 0x8000_0000 && forall i :: 0 <= i < |fields| ==> Encodable(fields[i])
    case UnderConstruction => false
  }

  function WidthFor(n: int): nat {
    if FitsWidth(n, 0) then 0
    else if FitsWidth(n, 1) then 1
    else if FitsWidth(n, 2) then 2
    else if FitsWidth(n, 3) then 3
    else if FitsWidth(n, 4) then 4
    else if FitsWidth(n, 5) then 5
    else if FitsWidth(n, 6) then 6
    else 8
  }

  function PlainInt(n: int): Enc {
    EInt(n, WidthFor(n))
  }

  function PlainBlob(text: bool, bs: seq<Byte>): Enc {
    EBlob(text, if |bs| < 8 then Packed(bs) else Last(PlainInt(|bs|), bs))
  }

  /** The shortest integers, the shortest list form, every struct with its type, no references. */
  function Plain(v: Value): Enc {
    match v
    case Null => ENull
    case Bool(b) => EBool(b)
    case Int(n) => PlainInt(n)
    case Double(bits) => EDouble(bits)
    case Float(bits) => EFloat(bits)
    case Bytes(bs) => PlainBlob(false, bs)
    case Str(bs) => PlainBlob(true, bs)
    case Vector(items) =>
      if |items| < 8 then EList(PlainAll(items))
      else if |items| < 0x8000_0000 then ECountedList(PlainInt(|items|), PlainAll(items))
      else EClosedList(PlainAll(items))
    case Tagged(tag, fields) => EStructType(Plain(tag), PlainInt(|fields|), PlainAll(fields))
    case UnderConstruction => ENull
  }

  function PlainAll(vs: seq<Value>): (es: Encs)
    ensures Length(es) == |vs|
  {
    if vs == [] then Nil else Cons(Plain(vs[0]), PlainAll(vs[1..]))
  }

  function Write(v: Value): seq<Byte> {
    Emit(Plain(v))
  }

  lemma PlainIntPlaces(n: int, c: Caches, inPut: bool, atEnd: bool)
    requires IsInt64(n)
    ensures Place(PlainInt(n), c, inPut, atEnd) == Some(c)
  {
  }

  lemma PlainBlobPlaces(text: bool, bs: seq<Byte>, c: Caches, inPut: bool, atEnd: bool)
    requires |bs| < 0x8000_0000
    ensures ValueOf(PlainBlob(text, bs)) == Blob(text, bs)
    ensures Place(PlainBlob(text, bs), c, inPut, atEnd) == Some(c)
  {
    if |bs| >= 8 {
      PlainIntPlaces(|bs|, c, inPut, false);
      assert PlaceInt(PlainInt(|bs|), |bs|, c, inPut) == Some(c);
    }
  }

  /** Plain encodings mean their value, may stand anywhere, and leave the priority cache alone. */
  lemma {:induction false} PlainPlaces(v: Value, c: Caches, inPut: bool, atEnd: bool)
    requires Encodable(v)
    ensures ValueOf(Plain(v)) == v
    ensures Place(Plain(v), c, inPut, atEnd).Some?
    ensures Place(Plain(v), c, inPut, atEnd).value.priority == c.priority
    decreases v, 1
  {
    match v
    case Int(n) => PlainIntPlaces(n, c, inPut, atEnd);
    case Bytes(bs) => PlainBlobPlaces(false, bs, c, inPut, atEnd);
    case Str(bs) => PlainBlobPlaces(true, bs, c, inPut, atEnd);
    case Vector(_) => PlainVectorPlaces(v, c, inPut, atEnd);
    case Tagged(_, _) => PlainTaggedPlaces(v, c, inPut, atEnd);
    case _ =>
  }

  lemma {:induction false} PlainVectorPlaces(v: Value, c: Caches, inPut: bool, atEnd: bool)
    requires v.Vector? && Encodable(v)
    ensures ValueOf(Plain(v)) == v
    ensures Place(Plain(v), c, inPut, atEnd).Some?
    ensures Place(Plain(v), c, inPut, atEnd).value.priority == c.priority
    decreases v, 0
  {
    var n := |v.items|;
    PlainAllPlaces(v.items, c, inPut, atEnd && n < 0x8000_0000);
    if 8 <= n < 0x8000_0000 {
      PlainIntPlaces(n, c, inPut, false);
      assert PlaceInt(PlainInt(n), n, c, inPut) == Some(c);
    }
  }

  lemma {:induction false} PlainTaggedPlaces(v: Value, c: Caches, inPut: bool, atEnd: bool)
    requires v.Tagged? && Encodable(v)
    ensures ValueOf(Plain(v)) == v
    ensures Place(Plain(v), c, inPut, atEnd).Some?
    ensures Place(Plain(v), c, inPut, atEnd).value.priority == c.priority
    decreases v, 0
  {
    var n := |v.fields|;
    PlainPlaces(v.tag, c, inPut, false);
    var c1 := Place(Plain(v.tag), c, inPut, false).value;
    PlainIntPlaces(n, c1, inPut, false);
    assert PlaceInt(PlainInt(n), n, c1, inPut) == Some(c1);
    PlaceStructType(Plain(v.tag), PlainInt(n), PlainAll(v.fields), c, inPut, atEnd, c1, c1);
    PlainAllPlaces(v.fields, c1.(structs := c1.structs + [StructType(v.tag, n)]), inPut, atEnd);
  }

  lemma {:induction false} PlainAllPlaces(vs: seq<Value>, c: Caches, inPut: bool, atEnd: bool)
    requires forall i :: 0 <= i < |vs| ==> Encodable(vs[i])
    ensures ValuesOf(PlainAll(vs)) == vs
    ensures PlaceAll(PlainAll(vs), c, inPut, atEnd).Some?
    ensures PlaceAll(PlainAll(vs), c, inPut, atEnd).value.priority == c.priority
    decreases vs
  {
    if vs != [] {
      var last := PlainAll(vs[1..]).Nil?;
      PlainPlaces(vs[0], c, inPut, atEnd && last);
      PlainAllPlaces(vs[1..], Place(Plain(vs[0]), c, inPut, atEnd && last).value, inPut, atEnd);
    }
  }

  // ---------------------------------------------------------------- main results

  /** Reading back what the plain writer wrote gives the value and leaves exactly what follows. */
  lemma RoundTrip(v: Value, s: State, rest: seq<Byte>)
    requires Encodable(v)
    requires s.rest == Write(v) + rest
    ensures ReadObject(s).Ok?
    ensures ReadObject(s).value == v && ReadObject(s).st.rest == rest && ReadObject(s).st.priority == s.priority
  {
    PlainPlaces(v, CachesOf(s), false, false);
    Decodes(Plain(v), s, rest, false, false);
  }

  ghost predicate EncodableCaches(c: Caches) {
    && (forall i :: 0 <= i < |c.priority| ==> c.priority[i] == UnderConstruction || Encodable(c.priority[i]))
    && (forall i :: 0 <= i < |c.structs| ==> Encodable(c.structs[i].tag) && IsInt32(c.structs[i].fields))
  }

  /** What can be written in any legal way at all can be written plainly. */
  lemma {:induction false} PlacedIsEncodable(e: Enc, c: Caches, inPut: bool, atEnd: bool)
    requires EncodableCaches(c) && Place(e, c, inPut, atEnd).Some?
    ensures Encodable(ValueOf(e)) && EncodableCaches(Place(e, c, inPut, atEnd).value)
    decreases e, 1
  {
    match e
    case EInt(n, width) => FittingIsInt64(n, width);
    case EBlob(text, chunks) => PlacedChunks(text, chunks, true, c, inPut);
    case EList(items) => PlacedAll(items, c, inPut, atEnd);
    case ECountedList(_, _) => PlacedCounted(e, c, inPut, atEnd);
    case EClosedList(items) => PlacedAll(items, c, inPut, false);
    case EOpenList(items, ended) => PlacedAll(items, c, inPut, !ended);
    case EPut(_) => PlacedPut(e, c, inPut, atEnd);
    case EGet(index, v) => PlacedIsEncodable(index, c, inPut, false);
    case EStructType(_, _, _) => PlacedStructType(e, c, inPut, atEnd);
    case EStruct(_, _, _) => PlacedStruct(e, c, inPut, atEnd);
    case EStructPacked(_, _, _) => PlacedStruct(e, c, inPut, atEnd);
    case EPredefined(_, _) => PlacedStruct(e, c, inPut, atEnd);
    case EReset(body) => PlacedIsEncodable(body, Cleared(c), false, atEnd);
    case _ =>
  }

  lemma {:induction false} PlacedCounted(e: Enc, c: Caches, inPut: bool, atEnd: bool)
    requires e.ECountedList? && EncodableCaches(c) && Place(e, c, inPut, atEnd).Some?
    ensures Encodable(ValueOf(e)) && EncodableCaches(Place(e, c, inPut, atEnd).value)
    decreases e, 0
  {
    PlacedIsEncodable(e.count, c, inPut, false);
    PlacedAll(e.items, Place(e.count, c, inPut, false).value, inPut, atEnd);
  }

  lemma {:induction false} PlacedPut(e: Enc, c: Caches, inPut: bool, atEnd: bool)
    requires e.EPut? && EncodableCaches(c) && Place(e, c, inPut, atEnd).Some?
    ensures Encodable(ValueOf(e)) && EncodableCaches(Place(e, c, inPut, atEnd).value)
    decreases e, 0
  {
    PlacedIsEncodable(e.body, c.(priority := c.priority + [UnderConstruction]), true, atEnd);
  }

  lemma FittingIsInt64(n: int, width: nat)
    requires FitsWidth(n, width)
    ensures IsInt64(n)
  {
    Pow256Values();
  }

  lemma {:induction false} PlacedStructType(e: Enc, c: Caches, inPut: bool, atEnd: bool)
    requires e.EStructType? && EncodableCaches(c) && Place(e, c, inPut, atEnd).Some?
    ensures Encodable(ValueOf(e)) && EncodableCaches(Place(e, c, inPut, atEnd).value)
    decreases e, 0
  {
    PlacedIsEncodable(e.tagEnc, c, inPut, false);
    var c1 := Place(e.tagEnc, c, inPut, false).value;
    PlacedIsEncodable(e.count, c1, inPut, false);
    var c2 := Place(e.count, c1, inPut, false).value;
    var entry := StructType(ValueOf(e.tagEnc), Length(e.fields));
    RegisteredEncodable(c2, entry);
    PlaceStructType(e.tagEnc, e.count, e.fields, c, inPut, atEnd, c1, c2);
    PlacedAll(e.fields, c2.(structs := c2.structs + [entry]), inPut, atEnd);
  }

  lemma RegisteredEncodable(c: Caches, t: StructType)
    requires EncodableCaches(c) && Encodable(t.tag) && IsInt32(t.fields)
    ensures EncodableCaches(c.(structs := c.structs + [t]))
  {
  }

  lemma {:induction false} PlacedStruct(e: Enc, c: Caches, inPut: bool, atEnd: bool)
    requires e.EStruct? || e.EStructPacked? || e.EPredefined?
    requires EncodableCaches(c) && Place(e, c, inPut, atEnd).Some?
    ensures Encodable(ValueOf(e)) && EncodableCaches(Place(e, c, inPut, atEnd).value)
    decreases e, 0
  {
    match e
    case EStruct(index, tag, fields) =>
      PlacedIsEncodable(index, c, inPut, false);
      var c1 := Place(index, c, inPut, false).value;
      assert c1.structs[ValueOf(index).n] == StructType(tag, Length(fields));
      PlacedAll(fields, c1, inPut, atEnd);
    case EStructPacked(i, tag, fields) =>
      assert c.structs[i] == StructType(tag, Length(fields));
      PlacedAll(fields, c, inPut, atEnd);
    case EPredefined(t, fields) => PlacedAll(fields, c, inPut, atEnd);
  }

  lemma {:induction false} PlacedAll(es: Encs, c: Caches, inPut: bool, atEnd: bool)
    requires EncodableCaches(c) && PlaceAll(es, c, inPut, atEnd).Some?
    ensures forall i :: 0 <= i < Length(es) ==> Encodable(ValuesOf(es)[i])
    ensures EncodableCaches(PlaceAll(es, c, inPut, atEnd).value)
    decreases es
  {
    match es
    case Nil =>
    case Cons(head, tail) =>
      PlacedIsEncodable(head, c, inPut, atEnd && tail.Nil?);
      PlacedAll(tail, Place(head, c, inPut, atEnd && tail.Nil?).value, inPut, atEnd);
  }

  lemma {:induction false} PlacedChunks(text: bool, chunks: Chunks, packable: bool, c: Caches, inPut: bool)
    requires EncodableCaches(c) && PlaceChunks(text, chunks, packable, c, inPut).Some?
    ensures EncodableCaches(PlaceChunks(text, chunks, packable, c, inPut).value)
    decreases chunks
  {
    match chunks
    case Packed(_) =>
    case Last(count, bytes) => PlacedIsEncodable(count, c, inPut, false);
    case More(count, bytes, rest) =>
      PlacedIsEncodable(count, c, inPut, false);
      PlacedChunks(text, rest, text, Place(count, c, inPut, false).value, inPut);
  }

  /**
   Cache transparency: however a value is written, with whatever use of the caches, the reader
   returns the same value from it as from the plain writer's bytes, and stops at its own end.
   */
  lemma CacheTransparency(e: Enc, s: State, plain: State, rest: seq<Byte>, atEnd: bool)
    requires EncodableCaches(CachesOf(s))
    requires Place(e, CachesOf(s), false, atEnd).Some?
    requires atEnd ==> rest == []
    requires s.rest == Emit(e) + rest
    requires plain.rest == Write(ValueOf(e)) + rest
    ensures ReadObject(s).Ok? && ReadObject(plain).Ok?
    ensures ReadObject(s).value == ReadObject(plain).value == ValueOf(e)
    ensures ReadObject(s).st.rest == ReadObject(plain).st.rest == rest
  {
    Decodes(e, s, rest, false, atEnd);
    PlacedIsEncodable(e, CachesOf(s), false, atEnd);
    RoundTrip(ValueOf(e), plain, rest);
  }
}
