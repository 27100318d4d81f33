/**
 The reader as a function of its state: what every read returns and the state it leaves.
 Failure (any exception) is final; the one exception the reader catches, end of input
 while an open list waits for its next code, is the test in ReadUntilEnd.
 */
module FressianDecoder {
  import opened FressianFormat

  /**
   Input still to come, bytes read since the last footer, and the two caches. The last five
   fields are history: how often the caches were cleared, which priority slots were successfully
   looked up, how many PUTs were met since the caches were last cleared, the slots reserved by the
   PUTs whose object is being read, outermost first, and whether there was a footer or a completed
   PUT inside which the caches were cleared.
   */
  datatype State = State(
    rest: seq<Byte>,
    count: nat,
    priority: seq<Value>,
    structs: seq<StructType>,
    resets: nat,
    gets: seq<nat>,
    puts: nat,
    openPuts: seq<nat>,
    irregular: bool)

  function Fresh(input: seq<Byte>): State {
    State(input, 0, [], [], 0, [], 0, [], false)
  }

  datatype Result<T> = Ok(value: T, st: State) | Fail {
    predicate IsFailure() { Fail? }
    function PropagateFailure<U>(): Result<U>
      requires Fail?
    {
      Fail
    }
    function Extract(): (T, State)
      requires Ok?
    {
      (value, st)
    }
  }

  // ---------------------------------------------------------------- raw input

  function NextCode(s: State): Result<Byte> {
    if s.rest == [] then Fail else Ok(s.rest[0], s.(rest := s.rest[1..], count := s.count + 1))
  }

  /** Exactly n bytes; a negative or too long request fails. */
  function TakeBytes(s: State, n: int): Result<seq<Byte>> {
    if 0 <= n <= |s.rest|
    then Ok(s.rest[..n], s.(rest := s.rest[n..], count := s.count + n))
    else Fail
  }

  lemma TakePrefix(s: State, bs: seq<Byte>, after: seq<Byte>)
    requires s.rest == bs + after
    ensures TakeBytes(s, |bs|) == Ok(bs, s.(rest := after, count := s.count + |bs|))
  {
  }

  function Blob(text: bool, bs: seq<Byte>): Value {
    if text then Str(bs) else Bytes(bs)
  }

  // ---------------------------------------------------------------- caches

  function ClearCaches(s: State): State {
    s.(priority := [], structs := [], resets := s.resets + 1, puts := 0)
  }

  /** A new slot, holding the placeholder until its object is complete. */
  function OpenSlot(s: State): State {
    s.(priority := s.priority + [UnderConstruction], puts := s.puts + 1, openPuts := s.openPuts + [|s.priority|])
  }

  /** The slot opened in s gets its object, read with s1 left. */
  function CloseSlot(s: State, s1: State, v: Value): State
    requires |s.priority| < |s1.priority|
  {
    s1.(priority := s1.priority[|s.priority| := v], openPuts := s.openPuts,
        irregular := s1.irregular || s1.resets != s.resets)
  }

  function Lookup(s: State, i: int): Result<Value> {
    if 0 <= i < |s.priority| && s.priority[i] != UnderConstruction
    then Ok(s.priority[i], s.(gets := s.gets + [i]))
    else Fail
  }

  /** Checks the tail of a footer; on success the reader starts afresh on what follows. */
  function CheckFooter(s: State): (r: Result<()>)
    ensures r.Ok? ==> |r.st.rest| == |s.rest| - 11
  {
    var (magic, s1) :- TakeBytes(s, 3);
    if FromBigEndian(magic) != FOOTER_MAGIC_TAIL then Fail else
    var (length, s2) :- TakeBytes(s1, 4);
    if FromBigEndian(length) != (s.count - 1) % 0x1_0000_0000 then Fail else
    var (checksum, s3) :- TakeBytes(s2, 4);
    Ok((), ClearCaches(s3).(count := 0, irregular := true))
  }

  // ---------------------------------------------------------------- objects

  function ReadObject(s: State): (r: Result<Value>)
    ensures r.Ok? ==> |r.st.rest| < |s.rest|
    decreases |s.rest|, 0
  {
    var (code, s1) :- NextCode(s);
    ReadKind(Classify(code), s1)
  }

  function ReadKind(k: Kind, s: State): (r: Result<Value>)
    ensures r.Ok? ==> |r.st.rest| <= |s.rest|
    decreases |s.rest|, 4
  {
    match k
    case KInt(n) => Ok(Int(n), s)
    case KPackedInt(high, width) =>
      var (raw, s1) :- TakeBytes(s, width);
      Ok(Int(high * Pow256(width) + FromBigEndian(raw)), s1)
    case KInt64 =>
      var (raw, s1) :- TakeBytes(s, 8);
      Ok(Int(Signed64(FromBigEndian(raw))), s1)
    case KNull => Ok(Null, s)
    case KBool(b) => Ok(Bool(b), s)
    case KDouble =>
      var (raw, s1) :- TakeBytes(s, 8);
      Ok(Double(raw), s1)
    case KDoubleConst(bits) => Ok(Double(bits), s)
    case KFloat =>
      var (raw, s1) :- TakeBytes(s, 4);
      Ok(Float(raw), s1)
    case KBlob(text, length) =>
      var (bs, s1) :- TakeBytes(s, length);
      Ok(Blob(text, bs), s1)
    case KCountedBlob(text) =>
      var (bs, s1) :- ReadCounted(s);
      Ok(Blob(text, bs), s1)
    case KChunkedBlob(text) =>
      var (bs, s1) :- ReadChunks(text, k, s);
      if |bs| < 0x8000_0000 then Ok(Blob(text, bs), s1) else Fail
    case KList(length) =>
      var (vs, s1) :- ReadObjects(length, s);
      Ok(Vector(vs), s1)
    case KCountedList =>
      var (n, s1) :- ReadInt32(s);
      var (vs, s2) :- ReadObjects(n, s1);
      Ok(Vector(vs), s2)
    case KDelimitedList(open) =>
      var (vs, s1) :- ReadUntilEnd(open, s);
      Ok(Vector(vs), s1)
    case KPut =>
      var slot := |s.priority|;
      var (v, s1) :- ReadObject(OpenSlot(s));
      if slot < |s1.priority| then Ok(v, CloseSlot(s, s1, v)) else Fail
    case KGet =>
      var (i, s1) :- ReadInt32(s);
      Lookup(s1, i)
    case KGetPacked(i) => Lookup(s, i)
    case KStructType =>
      var (tag, s1) :- ReadObject(s);
      var (n, s2) :- ReadInt32(s1);
      ReadStruct(tag, n, s2.(structs := s2.structs + [StructType(tag, n)]))
    case KStruct =>
      var (i, s1) :- ReadInt32(s);
      ReadCachedStruct(i, s1)
    case KStructPacked(i) => ReadCachedStruct(i, s)
    case KPredefined(name, n) => ReadStruct(Str(Ascii(name)), n, s)
    case KFooter =>
      var (_, s1) :- CheckFooter(s);
      ReadObject(s1)
    case KReset => ReadObject(ClearCaches(s))
    case KUnexpected => Fail
  }

  /** An integer written in any way at all, within 32 bits. */
  function ReadInt32(s: State): (r: Result<int>)
    ensures r.Ok? ==> |r.st.rest| < |s.rest|
    decreases |s.rest|, 1
  {
    var (v, s1) :- ReadObject(s);
    if v.Int? && IsInt32(v.n) then Ok(v.n, s1) else Fail
  }

  function ReadCounted(s: State): (r: Result<seq<Byte>>)
    ensures r.Ok? ==> |r.st.rest| < |s.rest|
    decreases |s.rest|, 2
  {
    var (n, s1) :- ReadInt32(s);
    TakeBytes(s1, n)
  }

  /**
   A chunk whose code said `k` and, unless it is the last, the chunks after it. The last is a
   counted one; in a text it may also be a packed one.
   */
  function ReadChunks(text: bool, k: Kind, s: State): (r: Result<seq<Byte>>)
    ensures r.Ok? ==> |r.st.rest| <= |s.rest|
    decreases |s.rest|, 3
  {
    match k
    case KChunkedBlob(t) =>
      if t != text then Fail else
      var (chunk, s1) :- ReadCounted(s);
      var (code, s2) :- NextCode(s1);
      var (more, s3) :- ReadChunks(text, Classify(code), s2);
      Ok(chunk + more, s3)
    case KCountedBlob(t) => if t != text then Fail else ReadCounted(s)
    case KBlob(t, length) => if !t || !text then Fail else TakeBytes(s, length)
    case _ => Fail
  }

  function ReadObjects(n: int, s: State): (r: Result<seq<Value>>)
    ensures r.Ok? ==> |r.st.rest| <= |s.rest| && |r.value| == n
    decreases |s.rest|, 1
  {
    if n < 0 then Fail
    else if n == 0 then Ok([], s)
    else
      var (v, s1) :- ReadObject(s);
      var (vs, s2) :- ReadObjects(n - 1, s1);
      Ok([v] + vs, s2)
  }

  /** Items up to END_COLLECTION; an open list also ends where the input ends. */
  function ReadUntilEnd(open: bool, s: State): (r: Result<seq<Value>>)
    ensures r.Ok? ==> |r.st.rest| <= |s.rest|
    decreases |s.rest|, 1
  {
    if s.rest == [] then (if open then Ok([], s) else Fail)
    else if s.rest[0] == END_COLLECTION then Ok([], NextCode(s).st)
    else
      var (v, s1) :- ReadObject(s);
      var (vs, s2) :- ReadUntilEnd(open, s1);
      Ok([v] + vs, s2)
  }

  /** A struct no handler claims becomes a tagged object. */
  function ReadStruct(tag: Value, n: int, s: State): (r: Result<Value>)
    ensures r.Ok? ==> |r.st.rest| <= |s.rest|
    decreases |s.rest|, 2
  {
    var (vs, s1) :- ReadObjects(n, s);
    Ok(Tagged(tag, vs), s1)
  }

  function ReadCachedStruct(i: int, s: State): (r: Result<Value>)
    ensures r.Ok? ==> |r.st.rest| <= |s.rest|
    decreases |s.rest|, 3
  {
    if 0 <= i < |s.structs| then ReadStruct(s.structs[i].tag, s.structs[i].fields, s) else Fail
  }

  // ---------------------------------------------------------------- reading piece by piece

  /** What is left to read, with what has been read put in front. */
  function Prepend<T>(done: seq<T>, r: Result<seq<T>>): Result<seq<T>> {
    if r.Ok? then Ok(done + r.value, r.st) else Fail
  }

  lemma PrependTwice<T>(a: seq<T>, b: seq<T>, r: Result<seq<T>>)
    ensures Prepend(a, Prepend(b, r)) == Prepend(a + b, r)
  {
    if r.Ok? {
      assert a + (b + r.value) == (a + b) + r.value;
    }
  }

  lemma PrependNothing<T>(r: Result<seq<T>>)
    ensures Prepend([], r) == r
  {
    if r.Ok? {
      assert [] + r.value == r.value;
    }
  }

  lemma ChunksUnfold(text: bool, s: State, chunk: seq<Byte>, s1: State, code: Byte, s2: State)
    requires ReadCounted(s) == Ok(chunk, s1) && NextCode(s1) == Ok(code, s2)
    ensures ReadChunks(text, KChunkedBlob(text), s) == Prepend(chunk, ReadChunks(text, Classify(code), s2))
  {
  }
}
