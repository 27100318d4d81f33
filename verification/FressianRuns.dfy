/**
 What every run of the decoder keeps, over every input: consumption, the two caches and the
 placeholder, independence of what follows, and independence of footered segments.
 */
module FressianRuns {
  import opened FressianFormat
  import opened FressianDecoder

  // ---------------------------------------------------------------- the cache invariant

  ghost predicate Pending(s: State, i: int) {
    0 <= i < |s.priority| && s.priority[i] == UnderConstruction
  }

  /** Slots and struct tags never hide a placeholder inside a value, and there is a slot for each PUT. */
  ghost predicate CleanState(s: State) {
    && (forall i :: 0 <= i < |s.priority| ==> s.priority[i] == UnderConstruction || Clean(s.priority[i]))
    && (forall i :: 0 <= i < |s.structs| ==> Clean(s.structs[i].tag))
    && s.puts == |s.priority|
  }

  /** Both caches only grow, the new slots are filled, and every byte is accounted for. */
  ghost predicate Grows(s: State, s': State) {
    && s.priority <= s'.priority
    && s.structs <= s'.structs
    && s.gets <= s'.gets
    && s'.count - s.count == |s.rest| - |s'.rest|
    && (forall i :: |s.gets| <= i < |s'.gets| ==> !Pending(s, s'.gets[i]))
  }

  /**
   How a run that does not fail may change the state: it consumes a prefix of the input, it
   completes every PUT it opens, it leaves no new placeholder behind, and it grows the caches
   unless it clears them.
   */
  ghost predicate Evolves(s: State, s': State) {
    && s.resets <= s'.resets
    && |s'.rest| <= |s.rest|
    && s'.openPuts == s.openPuts
    && (s.irregular ==> s'.irregular)
    && (forall i :: Pending(s', i) ==> Pending(s, i))
    && (s'.resets == s.resets ==> Grows(s, s'))
    && (CleanState(s) ==> CleanState(s'))
  }

  lemma EvolvesTransitive(a: State, b: State, c: State)
    requires Evolves(a, b) && Evolves(b, c)
    ensures Evolves(a, c)
  {
    if a.resets == c.resets {
      forall i | |a.gets| <= i < |c.gets|
        ensures !Pending(a, c.gets[i])
      {
        if i < |b.gets| {
          assert c.gets[i] == b.gets[i];
        } else {
          assert !Pending(b, c.gets[i]);
        }
      }
    }
  }

  lemma TakeEvolves(s: State, n: int)
    ensures TakeBytes(s, n).Ok? ==> Evolves(s, TakeBytes(s, n).st)
  {
  }

  lemma {:induction false} ObjectEvolves(s: State)
    requires ReadObject(s).Ok?
    ensures Evolves(s, ReadObject(s).st)
    ensures CleanState(s) ==> Clean(ReadObject(s).value)
    ensures ReadObject(s).value != UnderConstruction
    decreases |s.rest|, 0
  {
    var s1 := NextCode(s).st;
    KindEvolves(Classify(s.rest[0]), s1);
    EvolvesTransitive(s, s1, ReadObject(s).st);
  }

  lemma {:induction false} KindEvolves(k: Kind, s: State)
    requires ReadKind(k, s).Ok?
    ensures Evolves(s, ReadKind(k, s).st)
    ensures CleanState(s) ==> Clean(ReadKind(k, s).value)
    ensures ReadKind(k, s).value != UnderConstruction
    decreases |s.rest|, 5
  {
    if IsScalar(k) {
      ScalarEvolves(k, s);
    } else if IsGroup(k) {
      GroupEvolves(k, s);
    } else {
      match k
      case KCountedList => CountedListEvolves(s);
      case KPut => PutEvolves(s);
      case KGet => GetEvolves(s);
      case KStructType => StructTypeEvolves(s);
      case KStruct => StructEvolves(s);
      case KStructPacked(i) => CachedStructEvolves(i, s);
      case KFooter => RestartEvolves(s, CheckFooter(s).st);
      case KReset => RestartEvolves(s, ClearCaches(s));
    }
  }

  /** Kinds whose length the code gives, and those that end by themselves. */
  ghost predicate IsGroup(k: Kind) {
    k.KCountedBlob? || k.KChunkedBlob? || k.KList? || k.KDelimitedList? || k.KPredefined?
  }

  lemma {:induction false} GroupEvolves(k: Kind, s: State)
    requires IsGroup(k)
    requires ReadKind(k, s).Ok?
    ensures Evolves(s, ReadKind(k, s).st)
    ensures CleanState(s) ==> Clean(ReadKind(k, s).value)
    ensures ReadKind(k, s).value != UnderConstruction
    decreases |s.rest|, 4
  {
    match k
    case KCountedBlob(_) => CountedEvolves(s);
    case KChunkedBlob(text) => ChunksEvolve(text, k, s);
    case KList(length) => ObjectsEvolve(length, s);
    case KDelimitedList(open) => UntilEndEvolves(open, s);
    case KPredefined(name, n) =>
      assert ReadKind(k, s) == ReadStruct(Str(Ascii(name)), n, s);
      StructBodyEvolves(Str(Ascii(name)), n, s);
  }

  lemma {:induction false} StructBodyEvolves(tag: Value, n: int, s: State)
    requires ReadStruct(tag, n, s).Ok?
    ensures Evolves(s, ReadStruct(tag, n, s).st)
    ensures CleanState(s) && Clean(tag) ==> Clean(ReadStruct(tag, n, s).value)
    ensures ReadStruct(tag, n, s).value.Tagged?
    decreases |s.rest|, 2
  {
    ObjectsEvolve(n, s);
  }

  ghost predicate IsScalar(k: Kind) {
    || k.KInt? || k.KPackedInt? || k.KInt64? || k.KNull? || k.KBool? || k.KDouble? || k.KDoubleConst?
    || k.KFloat? || k.KBlob? || k.KGetPacked? || k.KUnexpected?
  }

  /** Kinds that never read another object. */
  lemma ScalarEvolves(k: Kind, s: State)
    requires IsScalar(k)
    requires ReadKind(k, s).Ok?
    ensures Evolves(s, ReadKind(k, s).st)
    ensures CleanState(s) ==> Clean(ReadKind(k, s).value)
    ensures ReadKind(k, s).value != UnderConstruction
  {
  }

  lemma {:induction false} RestartEvolves(s: State, s1: State)
    requires s1 == ClearCaches(s) || CheckFooter(s) == Ok((), s1)
    requires ReadObject(s1).Ok?
    ensures Evolves(s, ReadObject(s1).st)
    ensures CleanState(s) ==> Clean(ReadObject(s1).value)
    ensures ReadObject(s1).value != UnderConstruction
    decreases |s.rest|, 3
  {
    assert Evolves(s, s1);
    ObjectEvolves(s1);
    EvolvesTransitive(s, s1, ReadObject(s1).st);
  }

  lemma {:induction false} CountedListEvolves(s: State)
    requires ReadKind(KCountedList, s).Ok?
    ensures Evolves(s, ReadKind(KCountedList, s).st)
    ensures CleanState(s) ==> Clean(ReadKind(KCountedList, s).value)
    decreases |s.rest|, 3
  {
    var r := ReadInt32(s);
    ObjectEvolves(s);
    ObjectsEvolve(r.value, r.st);
    EvolvesTransitive(s, r.st, ReadKind(KCountedList, s).st);
  }

  lemma {:induction false} CachedStructEvolves(i: int, s: State)
    requires ReadCachedStruct(i, s).Ok?
    ensures Evolves(s, ReadCachedStruct(i, s).st)
    ensures CleanState(s) ==> Clean(ReadCachedStruct(i, s).value)
    ensures ReadCachedStruct(i, s).value.Tagged?
    decreases |s.rest|, 3
  {
    var t := s.structs[i];
    assert ReadCachedStruct(i, s) == ReadStruct(t.tag, t.fields, s);
    StructBodyEvolves(t.tag, t.fields, s);
  }

  lemma {:induction false} StructEvolves(s: State)
    requires ReadKind(KStruct, s).Ok?
    ensures Evolves(s, ReadKind(KStruct, s).st)
    ensures CleanState(s) ==> Clean(ReadKind(KStruct, s).value)
    ensures ReadKind(KStruct, s).value.Tagged?
    decreases |s.rest|, 3
  {
    var r := ReadInt32(s);
    ObjectEvolves(s);
    CachedStructEvolves(r.value, r.st);
    EvolvesTransitive(s, r.st, ReadKind(KStruct, s).st);
  }

  lemma {:induction false} PutEvolves(s: State)
    requires ReadKind(KPut, s).Ok?
    ensures Evolves(s, ReadKind(KPut, s).st)
    ensures CleanState(s) ==> Clean(ReadKind(KPut, s).value)
    ensures ReadKind(KPut, s).value != UnderConstruction
    decreases |s.rest|, 3
  {
    var s0 := OpenSlot(s);
    ObjectEvolves(s0);
    var s1 := ReadObject(s0).st;
    var s2 := ReadKind(KPut, s).st;
    assert s2 == CloseSlot(s, s1, ReadObject(s0).value);
    forall i | Pending(s2, i)
      ensures Pending(s, i)
    {
      assert i != |s.priority| && Pending(s1, i);
      assert Pending(s0, i);
    }
    if s.resets == s2.resets {
      assert s0.priority <= s1.priority;
      assert s.priority <= s2.priority;
      forall i | |s.gets| <= i < |s2.gets|
        ensures !Pending(s, s2.gets[i])
      {
        assert !Pending(s0, s1.gets[i]);
      }
    }
  }

  lemma {:induction false} GetEvolves(s: State)
    requires ReadKind(KGet, s).Ok?
    ensures Evolves(s, ReadKind(KGet, s).st)
    ensures CleanState(s) ==> Clean(ReadKind(KGet, s).value)
    decreases |s.rest|, 3
  {
    var r := ReadInt32(s);
    ObjectEvolves(s);
    assert Evolves(r.st, Lookup(r.st, r.value).st);
    EvolvesTransitive(s, r.st, ReadKind(KGet, s).st);
  }

  lemma {:induction false} StructTypeEvolves(s: State)
    requires ReadKind(KStructType, s).Ok?
    ensures Evolves(s, ReadKind(KStructType, s).st)
    ensures CleanState(s) ==> Clean(ReadKind(KStructType, s).value)
    decreases |s.rest|, 3
  {
    var r := ReadObject(s);
    ObjectEvolves(s);
    var q := ReadInt32(r.st);
    ObjectEvolves(r.st);
    EvolvesTransitive(s, r.st, q.st);
    var s3 := q.st.(structs := q.st.structs + [StructType(r.value, q.value)]);
    ObjectsEvolve(q.value, s3);
    assert CleanState(s) ==> CleanState(s3);
    assert s.resets == s3.resets ==> Grows(s, s3);
    assert Evolves(s, s3);
    EvolvesTransitive(s, s3, ReadKind(KStructType, s).st);
  }

  lemma {:induction false} CountedEvolves(s: State)
    requires ReadCounted(s).Ok?
    ensures Evolves(s, ReadCounted(s).st)
    decreases |s.rest|, 2
  {
    var r := ReadInt32(s);
    ObjectEvolves(s);
    TakeEvolves(r.st, r.value);
    EvolvesTransitive(s, r.st, ReadCounted(s).st);
  }

  lemma {:induction false} ChunksEvolve(text: bool, k: Kind, s: State)
    requires ReadChunks(text, k, s).Ok?
    ensures Evolves(s, ReadChunks(text, k, s).st)
    decreases |s.rest|, 3
  {
    match k
    case KChunkedBlob(_) =>
      CountedEvolves(s);
      var s1 := ReadCounted(s).st;
      var s2 := NextCode(s1).st;
      EvolvesTransitive(s, s1, s2);
      ChunksEvolve(text, Classify(s1.rest[0]), s2);
      EvolvesTransitive(s, s2, ReadChunks(text, k, s).st);
    case KCountedBlob(_) => CountedEvolves(s);
    case KBlob(_, length) => TakeEvolves(s, length);
  }

  lemma {:induction false} ObjectsEvolve(n: int, s: State)
    requires ReadObjects(n, s).Ok?
    ensures Evolves(s, ReadObjects(n, s).st)
    ensures CleanState(s) ==> forall i :: 0 <= i < n ==> Clean(ReadObjects(n, s).value[i])
    decreases |s.rest|, 1
  {
    if n > 0 {
      ObjectEvolves(s);
      var s1 := ReadObject(s).st;
      ObjectsEvolve(n - 1, s1);
      EvolvesTransitive(s, s1, ReadObjects(n, s).st);
    }
  }

  lemma {:induction false} UntilEndEvolves(open: bool, s: State)
    requires ReadUntilEnd(open, s).Ok?
    ensures Evolves(s, ReadUntilEnd(open, s).st)
    ensures CleanState(s) ==> var vs := ReadUntilEnd(open, s).value; forall i :: 0 <= i < |vs| ==> Clean(vs[i])
    decreases |s.rest|, 1
  {
    if s.rest != [] && s.rest[0] != END_COLLECTION {
      ObjectEvolves(s);
      var s1 := ReadObject(s).st;
      UntilEndEvolves(open, s1);
      EvolvesTransitive(s, s1, ReadUntilEnd(open, s).st);
    }
  }

  // ---------------------------------------------------------------- what the invariant gives

  /** Over every input: no returned value mentions the placeholder, and no slot stays pending. */
  lemma NoPlaceholderLeaks(input: seq<Byte>, n: nat)
    requires ReadObjects(n, Fresh(input)).Ok?
    ensures forall i :: 0 <= i < n ==> Clean(ReadObjects(n, Fresh(input)).value[i])
    ensures forall i :: !Pending(ReadObjects(n, Fresh(input)).st, i)
    ensures CleanState(ReadObjects(n, Fresh(input)).st)
  {
    ObjectsEvolve(n, Fresh(input));
  }

  /** The slots that hold the placeholder are exactly those of the PUTs whose object is being read. */
  ghost predicate Accounted(s: State) {
    forall i :: Pending(s, i) <==> i in s.openPuts
  }

  /**
   The pending slots are exactly those of the PUTs still open: in a fresh reader, one PUT deeper
   whenever so before it, and after any completed reads unless they clear the caches inside a PUT.
   */
  lemma PendingSlotsAreOpenPuts(s: State, n: nat)
    requires Accounted(s)
    ensures Accounted(Fresh(s.rest)) && Fresh(s.rest).openPuts == []
    ensures Accounted(OpenSlot(s)) && OpenSlot(s).openPuts == s.openPuts + [|s.priority|]
    ensures var r := ReadObjects(n, s);
            r.Ok? && (s.openPuts == [] || r.st.resets == s.resets) ==> Accounted(r.st) && r.st.openPuts == s.openPuts
    ensures s.openPuts == [] ==> Accounted(ClearCaches(s))
  {
    var s0, r := OpenSlot(s), ReadObjects(n, s);
    forall i
      ensures Pending(s0, i) <==> i in s0.openPuts
    {
      if 0 <= i < |s.priority| {
        assert Pending(s, i) <==> i in s.openPuts;
      }
    }
    if r.Ok? {
      ObjectsEvolve(n, s);
      forall i
        ensures Pending(r.st, i) ==> i in s.openPuts
        ensures i in s.openPuts && r.st.resets == s.resets ==> Pending(r.st, i)
      {
        assert Pending(s, i) <==> i in s.openPuts;
      }
    }
  }

  /**
   The k-th PUT since the caches were last cleared (counting from 0) owns slot k: once complete
   its value is there, and there it stays through every later read that clears nothing. No lookup
   made while it was open touched its slot or that of any PUT around it. What it asks of the state
   is what every read keeps, also inside an open PUT.
   */
  lemma PutOwnsItsSlot(s: State, n: nat)
    requires CleanState(s)
    requires ReadKind(KPut, s).Ok?
    requires ReadKind(KPut, s).st.resets == s.resets
    requires ReadObjects(n, ReadKind(KPut, s).st).Ok?
    requires ReadObjects(n, ReadKind(KPut, s).st).st.resets == s.resets
    ensures var k, r, later := s.puts, ReadKind(KPut, s), ReadObjects(n, ReadKind(KPut, s).st).st;
            && k < |r.st.priority| <= |later.priority|
            && r.value == r.st.priority[k] == later.priority[k]
            && r.value != UnderConstruction
            && (forall i :: |s.gets| <= i < |r.st.gets| ==> r.st.gets[i] != k && !Pending(s, r.st.gets[i]))
            && CleanState(OpenSlot(s)) && CleanState(r.st) && CleanState(later)
  {
    var s0 := OpenSlot(s);
    ObjectEvolves(s0);
    var s1 := ReadObject(s0).st;
    assert Pending(s0, |s.priority|);
    forall i | |s.gets| <= i < |s1.gets|
      ensures s1.gets[i] != |s.priority| && !Pending(s, s1.gets[i])
    {
      assert !Pending(s0, s1.gets[i]);
    }
    ObjectsEvolve(n, ReadKind(KPut, s).st);
  }

  /** Both ways of referring to a PUT that is still open fail. */
  lemma PendingReferenceFails(s: State, k: nat)
    requires Pending(s, k)
    ensures ReadKind(KGetPacked(k), s).Fail?
    ensures ReadInt32(s).Ok? && ReadInt32(s).value == k && ReadInt32(s).st.resets == s.resets ==>
              ReadKind(KGet, s).Fail?
  {
    if ReadInt32(s).Ok? {
      ObjectEvolves(s);
    }
  }

  /**
   Clearing the caches inside an open PUT breaks ownership: the inner PUT of 5 is the first since
   the reset, yet slot 0 ends up with the outer list.
   */
  lemma NestedResetClobbers()
    ensures var r := ReadObject(Fresh([PUT_PRIORITY_CACHE, LIST_PACKED_LENGTH_START + 1,
                                       RESET_CACHES, PUT_PRIORITY_CACHE, 5]));
            && r.Ok?
            && r.value == Vector([Int(5)])
            && r.st.priority == [Vector([Int(5)])]
  {
    var s0 := Fresh([PUT_PRIORITY_CACHE, LIST_PACKED_LENGTH_START + 1, RESET_CACHES, PUT_PRIORITY_CACHE, 5]);
    var s1 := State([LIST_PACKED_LENGTH_START + 1, RESET_CACHES, PUT_PRIORITY_CACHE, 5], 1, [UnderConstruction], [], 0, [], 1, [0], false);
    NestedResetInner(s1);
    CompletesPut(s0, s1);
  }

  lemma NestedResetInner(s1: State)
    requires s1.rest == [LIST_PACKED_LENGTH_START + 1, RESET_CACHES, PUT_PRIORITY_CACHE, 5]
    ensures ReadObject(s1).Ok? && ReadObject(s1).value == Vector([Int(5)])
    ensures ReadObject(s1).st.priority == [Int(5)]
  {
    var s2 := s1.(rest := [RESET_CACHES, PUT_PRIORITY_CACHE, 5], count := s1.count + 1);
    assert s1.rest[1..] == s2.rest;
    ResetThenPut(s2);
    OneObject(s2, Int(5));
    assert Classify(LIST_PACKED_LENGTH_START + 1) == KList(1);
    ReadsList(s1, s2, 1);
  }

  lemma ReadsList(s: State, s1: State, n: nat)
    requires s.rest != [] && Classify(s.rest[0]) == KList(n) && NextCode(s).st == s1
    requires ReadObjects(n, s1).Ok?
    ensures ReadObject(s) == Ok(Vector(ReadObjects(n, s1).value), ReadObjects(n, s1).st)
  {
  }

  lemma ResetThenPut(s: State)
    requires s.rest == [RESET_CACHES, PUT_PRIORITY_CACHE, 5]
    ensures ReadObject(s).Ok? && ReadObject(s).value == Int(5)
    ensures ReadObject(s).st.priority == [Int(5)]
  {
    var s1 := NextCode(s).st;
    InnermostPut(ClearCaches(s1));
    assert Classify(RESET_CACHES) == KReset;
    ReadsReset(s, s1);
  }

  lemma ReadsReset(s: State, s1: State)
    requires s.rest != [] && Classify(s.rest[0]) == KReset && NextCode(s).st == s1
    ensures ReadObject(s) == ReadKind(KReset, s1) == ReadObject(ClearCaches(s1))
  {
  }

  lemma InnermostPut(s: State)
    requires s.rest == [PUT_PRIORITY_CACHE, 5] && s.priority == []
    ensures ReadObject(s).Ok? && ReadObject(s).value == Int(5)
    ensures ReadObject(s).st.priority == [Int(5)]
  {
    var s1 := NextCode(s).st.(priority := [UnderConstruction], puts := s.puts + 1, openPuts := s.openPuts + [0]);
    assert s1.rest == [5];
    assert ReadObject(s1) == Ok(Int(5), NextCode(s1).st);
    CompletesPut(s, s1);
  }

  lemma CompletesPut(s: State, inner: State)
    requires s.rest != [] && s.rest[0] == PUT_PRIORITY_CACHE && s.priority == []
    requires inner == NextCode(s).st.(priority := [UnderConstruction], puts := s.puts + 1, openPuts := s.openPuts + [0])
    requires ReadObject(inner).Ok? && |ReadObject(inner).st.priority| == 1
    ensures ReadObject(s).Ok? && ReadObject(s).value == ReadObject(inner).value
    ensures ReadObject(s).st.priority == [ReadObject(inner).value]
  {
    assert OpenSlot(NextCode(s).st) == inner;
    var r := ReadObject(inner);
    assert r.st.priority[0 := r.value] == [r.value];
    assert ReadKind(KPut, NextCode(s).st) == Ok(r.value, CloseSlot(NextCode(s).st, r.st, r.value));
  }

  lemma OneObject(s: State, v: Value)
    requires ReadObject(s).Ok? && ReadObject(s).value == v
    ensures ReadObjects(1, s) == Ok([v], ReadObject(s).st)
  {
    assert ReadObjects(0, ReadObject(s).st) == Ok([], ReadObject(s).st);
    assert [v] + [] == [v];
  }

  // ---------------------------------------------------------------- what does not matter

  /** More input after a reader's own, and more history before it. */
  datatype Surround = Surround(after: seq<Byte>, resets: nat, gets: seq<nat>, openPuts: seq<nat>, irregular: bool)

  function Within(x: Surround, s: State): State {
    s.(rest := s.rest + x.after, resets := x.resets + s.resets, gets := x.gets + s.gets,
       openPuts := x.openPuts + s.openPuts, irregular := x.irregular || s.irregular)
  }

  function WithinResult<T>(x: Surround, r: Result<T>): Result<T> {
    if r.Ok? then Ok(r.value, Within(x, r.st)) else Fail
  }

  /**
   When a read is insensitive to its surroundings: nothing was appended, or the read left input
   behind. (One that leaves none may be an open list ended by the end of input.)
   */
  ghost predicate Settled<T>(x: Surround, r: Result<T>) {
    x.after == [] || (r.Ok? && r.st.rest != [])
  }

  lemma NextCodeWithin(x: Surround, s: State)
    requires s.rest != [] || x.after == []
    ensures NextCode(Within(x, s)) == WithinResult(x, NextCode(s))
  {
    if s.rest != [] {
      assert (s.rest + x.after)[1..] == s.rest[1..] + x.after;
    }
  }

  lemma TakeWithin(x: Surround, s: State, n: int)
    requires TakeBytes(s, n).Ok? || x.after == []
    ensures TakeBytes(Within(x, s), n) == WithinResult(x, TakeBytes(s, n))
  {
    if 0 <= n <= |s.rest| {
      assert (s.rest + x.after)[n..] == s.rest[n..] + x.after;
      assert (s.rest + x.after)[..n] == s.rest[..n];
    }
  }

  lemma FooterWithin(x: Surround, s: State)
    requires CheckFooter(s).Ok? || x.after == []
    ensures CheckFooter(Within(x, s)) == WithinResult(x, CheckFooter(s))
  {
    TakeWithin(x, s, 3);
    if TakeBytes(s, 3).Ok? {
      var s1 := TakeBytes(s, 3).st;
      if x.after == [] || TakeBytes(s1, 4).Ok? {
        TakeWithin(x, s1, 4);
        if TakeBytes(s1, 4).Ok? {
          var s2 := TakeBytes(s1, 4).st;
          if x.after == [] || TakeBytes(s2, 4).Ok? {
            TakeWithin(x, s2, 4);
          }
        }
      }
    }
  }

  lemma LookupWithin(x: Surround, s: State, i: int)
    ensures Lookup(Within(x, s), i) == WithinResult(x, Lookup(s, i))
  {
    if Lookup(s, i).Ok? {
      assert x.gets + (s.gets + [i]) == (x.gets + s.gets) + [i];
    }
  }

  lemma {:induction false} ObjectWithin(x: Surround, s: State)
    requires Settled(x, ReadObject(s))
    ensures ReadObject(Within(x, s)) == WithinResult(x, ReadObject(s))
    decreases |s.rest|, 0
  {
    NextCodeWithin(x, s);
    if s.rest != [] {
      KindWithin(x, Classify(s.rest[0]), NextCode(s).st);
    }
  }

  lemma {:induction false} KindWithin(x: Surround, k: Kind, s: State)
    requires Settled(x, ReadKind(k, s))
    ensures ReadKind(k, Within(x, s)) == WithinResult(x, ReadKind(k, s))
    decreases |s.rest|, 5
  {
    if IsScalar(k) {
      ScalarWithin(x, k, s);
    } else if IsGroup(k) {
      GroupWithin(x, k, s);
    } else {
      match k
      case KPut => PutWithin(x, s);
      case KCountedList => IndexedWithin(x, k, s);
      case KGet => IndexedWithin(x, k, s);
      case KStruct => IndexedWithin(x, k, s);
      case KStructType => StructTypeWithin(x, s);
      case KStructPacked(i) => CachedStructWithin(x, i, s);
      case KFooter => RestartWithin(x, k, s);
      case KReset => RestartWithin(x, k, s);
    }
  }

  lemma {:induction false} GroupWithin(x: Surround, k: Kind, s: State)
    requires IsGroup(k)
    requires Settled(x, ReadKind(k, s))
    ensures ReadKind(k, Within(x, s)) == WithinResult(x, ReadKind(k, s))
    decreases |s.rest|, 4
  {
    match k
    case KCountedBlob(_) => CountedWithin(x, s);
    case KChunkedBlob(text) => ChunksWithin(x, text, k, s);
    case KList(length) => ObjectsWithin(x, length, s);
    case KDelimitedList(open) => UntilEndWithin(x, open, s);
    case KPredefined(name, n) => PredefinedWithin(x, name, n, s);
  }

  lemma {:induction false} PredefinedWithin(x: Surround, name: string, n: nat, s: State)
    requires Settled(x, ReadKind(KPredefined(name, n), s))
    ensures ReadKind(KPredefined(name, n), Within(x, s)) == WithinResult(x, ReadKind(KPredefined(name, n), s))
    decreases |s.rest|, 3
  {
    assert ReadKind(KPredefined(name, n), s) == ReadStruct(Str(Ascii(name)), n, s);
    StructBodyWithin(x, Str(Ascii(name)), n, s);
  }

  lemma {:induction false} StructBodyWithin(x: Surround, tag: Value, n: int, s: State)
    requires Settled(x, ReadStruct(tag, n, s))
    ensures ReadStruct(tag, n, Within(x, s)) == WithinResult(x, ReadStruct(tag, n, s))
    decreases |s.rest|, 2
  {
    ObjectsWithin(x, n, s);
  }

  lemma ScalarWithin(x: Surround, k: Kind, s: State)
    requires IsScalar(k)
    requires Settled(x, ReadKind(k, s))
    ensures ReadKind(k, Within(x, s)) == WithinResult(x, ReadKind(k, s))
  {
    match k
    case KPackedInt(_, width) => TakeWithin(x, s, width);
    case KInt64 => TakeWithin(x, s, 8);
    case KDouble => TakeWithin(x, s, 8);
    case KFloat => TakeWithin(x, s, 4);
    case KBlob(_, length) => TakeWithin(x, s, length);
    case KGetPacked(i) => LookupWithin(x, s, i);
    case _ =>
  }

  lemma {:induction false} PutWithin(x: Surround, s: State)
    requires Settled(x, ReadKind(KPut, s))
    ensures ReadKind(KPut, Within(x, s)) == WithinResult(x, ReadKind(KPut, s))
    decreases |s.rest|, 3
  {
    assert x.openPuts + (s.openPuts + [|s.priority|]) == (x.openPuts + s.openPuts) + [|s.priority|];
    assert Within(x, OpenSlot(s)) == OpenSlot(Within(x, s));
    ObjectWithin(x, OpenSlot(s));
  }

  lemma {:induction false} RestartWithin(x: Surround, k: Kind, s: State)
    requires k == KFooter || k == KReset
    requires Settled(x, ReadKind(k, s))
    ensures ReadKind(k, Within(x, s)) == WithinResult(x, ReadKind(k, s))
    decreases |s.rest|, 3
  {
    if k == KFooter {
      FooterWithin(x, s);
      if CheckFooter(s).Ok? { ObjectWithin(x, CheckFooter(s).st); }
    } else {
      assert Within(x, ClearCaches(s)) == ClearCaches(Within(x, s));
      ObjectWithin(x, ClearCaches(s));
    }
  }

  /** Kinds that read an integer first. */
  lemma {:induction false} IndexedWithin(x: Surround, k: Kind, s: State)
    requires k == KCountedList || k == KGet || k == KStruct
    requires Settled(x, ReadKind(k, s))
    ensures ReadKind(k, Within(x, s)) == WithinResult(x, ReadKind(k, s))
    decreases |s.rest|, 3
  {
    Int32Within(x, s);
    var r := ReadInt32(s);
    if r.Ok? {
      match k
      case KCountedList => ObjectsWithin(x, r.value, r.st);
      case KGet => LookupWithin(x, r.st, r.value);
      case KStruct => CachedStructWithin(x, r.value, r.st);
    }
  }

  lemma {:induction false} Int32Within(x: Surround, s: State)
    requires Settled(x, ReadInt32(s))
    ensures ReadInt32(Within(x, s)) == WithinResult(x, ReadInt32(s))
    decreases |s.rest|, 1
  {
    ObjectWithin(x, s);
  }

  lemma {:induction false} CountedWithin(x: Surround, s: State)
    requires Settled(x, ReadCounted(s))
    ensures ReadCounted(Within(x, s)) == WithinResult(x, ReadCounted(s))
    decreases |s.rest|, 2, 0
  {
    Int32Within(x, s);
    if ReadInt32(s).Ok? { TakeWithin(x, ReadInt32(s).st, ReadInt32(s).value); }
  }

  lemma {:induction false} StructTypeWithin(x: Surround, s: State)
    requires Settled(x, ReadKind(KStructType, s))
    ensures ReadKind(KStructType, Within(x, s)) == WithinResult(x, ReadKind(KStructType, s))
    decreases |s.rest|, 3
  {
    var r := ReadObject(s);
    ObjectWithin(x, s);
    if r.Ok? {
      var q := ReadInt32(r.st);
      Int32Within(x, r.st);
      if q.Ok? {
        var s3 := q.st.(structs := q.st.structs + [StructType(r.value, q.value)]);
        assert Within(x, s3) == Within(x, q.st).(structs := s3.structs);
        assert ReadKind(KStructType, s) == ReadStruct(r.value, q.value, s3);
        StructBodyWithin(x, r.value, q.value, s3);
      }
    }
  }

  lemma {:induction false} CachedStructWithin(x: Surround, i: int, s: State)
    requires Settled(x, ReadCachedStruct(i, s))
    ensures ReadCachedStruct(i, Within(x, s)) == WithinResult(x, ReadCachedStruct(i, s))
    decreases |s.rest|, 3
  {
    if 0 <= i < |s.structs| {
      var t := s.structs[i];
      assert ReadCachedStruct(i, s) == ReadStruct(t.tag, t.fields, s);
      StructBodyWithin(x, t.tag, t.fields, s);
    }
  }

  lemma {:induction false} ChunksWithin(x: Surround, text: bool, k: Kind, s: State)
    requires Settled(x, ReadChunks(text, k, s))
    ensures ReadChunks(text, k, Within(x, s)) == WithinResult(x, ReadChunks(text, k, s))
    decreases |s.rest|, 3
  {
    match k
    case KChunkedBlob(t) => if t == text { MoreChunksWithin(x, text, s); }
    case KCountedBlob(t) => if t == text { CountedWithin(x, s); }
    case KBlob(t, length) => if t && text { TakeWithin(x, s, length); }
    case _ =>
  }

  lemma {:induction false} MoreChunksWithin(x: Surround, text: bool, s: State)
    requires Settled(x, ReadChunks(text, KChunkedBlob(text), s))
    ensures ReadChunks(text, KChunkedBlob(text), Within(x, s)) == WithinResult(x, ReadChunks(text, KChunkedBlob(text), s))
    decreases |s.rest|, 2, 1
  {
    CountedWithin(x, s);
    if ReadCounted(s).Ok? {
      var s1 := ReadCounted(s).st;
      NextCodeWithin(x, s1);
      if s1.rest != [] { ChunksWithin(x, text, Classify(s1.rest[0]), NextCode(s1).st); }
    }
  }

  lemma {:induction false} ObjectsWithin(x: Surround, n: int, s: State)
    requires Settled(x, ReadObjects(n, s))
    ensures ReadObjects(n, Within(x, s)) == WithinResult(x, ReadObjects(n, s))
    decreases |s.rest|, 1
  {
    if n > 0 {
      ObjectWithin(x, s);
      if ReadObject(s).Ok? { ObjectsWithin(x, n - 1, ReadObject(s).st); }
    }
  }

  lemma {:induction false} UntilEndWithin(x: Surround, open: bool, s: State)
    requires Settled(x, ReadUntilEnd(open, s))
    ensures ReadUntilEnd(open, Within(x, s)) == WithinResult(x, ReadUntilEnd(open, s))
    decreases |s.rest|, 1
  {
    NextCodeWithin(x, s);
    if s.rest != [] && s.rest[0] != END_COLLECTION {
      ObjectWithin(x, s);
      if ReadObject(s).Ok? { UntilEndWithin(x, open, ReadObject(s).st); }
    }
  }

  // ---------------------------------------------------------------- segments

  /** The footer a writer appends after `length` bytes; the reader skips the checksum. */
  function Footer(length: nat, checksum: seq<Byte>): seq<Byte>
    requires |checksum| == 4
  {
    [FOOTER] + ([0xCF, 0xCF, 0xCF] + (ToBigEndian(length % 0x1_0000_0000, 4) + checksum))
  }

  /** A body of `objects` top-level objects and the footer that closes it. */
  datatype Segment = Segment(body: seq<Byte>, objects: nat, checksum: seq<Byte>)

  function SegmentBytes(g: Segment): seq<Byte>
    requires |g.checksum| == 4
  {
    g.body + Footer(|g.body|, g.checksum)
  }

  /** A fresh reader decodes the segment's objects and stops right before its footer. */
  ghost predicate IsSegment(g: Segment) {
    && |g.checksum| == 4
    && var r := ReadObjects(g.objects, Fresh(SegmentBytes(g)));
       && r.Ok?
       && r.st.rest == Footer(|g.body|, g.checksum)
       && r.st.count == |g.body|
  }

  function AllBytes(gs: seq<Segment>): seq<Byte>
    requires forall i :: 0 <= i < |gs| ==> |gs[i].checksum| == 4
  {
    if gs == [] then [] else SegmentBytes(gs[0]) + AllBytes(gs[1..])
  }

  function AllObjects(gs: seq<Segment>): nat {
    if gs == [] then 0 else gs[0].objects + AllObjects(gs[1..])
  }

  /** What a fresh reader makes of each segment alone, in order. */
  ghost function SegmentValues(gs: seq<Segment>): seq<Value>
    requires forall i :: 0 <= i < |gs| ==> IsSegment(gs[i])
  {
    if gs == [] then []
    else
      assert IsSegment(gs[0]);
      ReadObjects(gs[0].objects, Fresh(SegmentBytes(gs[0]))).value + SegmentValues(gs[1..])
  }

  lemma MagicTail()
    ensures FromBigEndian([0xCF, 0xCF, 0xCF]) == FOOTER_MAGIC_TAIL
  {
    var bs: seq<Byte> := [0xCF, 0xCF, 0xCF];
    assert bs[..2] == [0xCF, 0xCF] && bs[..2][..1] == [0xCF] && bs[..2][..1][..0] == [];
    assert FromBigEndian(bs[..2][..1]) == 0xCF;
    assert FromBigEndian(bs[..2]) == 0xCFCF;
  }

  lemma FooterChecks(s: State, length: nat, checksum: seq<Byte>, after: seq<Byte>)
    requires |checksum| == 4 && s.count == length + 1
    requires s.rest == [0xCF, 0xCF, 0xCF] + (ToBigEndian(length % 0x1_0000_0000, 4) + (checksum + after))
    ensures CheckFooter(s) == Ok((), State(after, 0, [], [], s.resets + 1, s.gets, 0, s.openPuts, true))
  {
    var bs := ToBigEndian(length % 0x1_0000_0000, 4);
    Pow256Values();
    BigEndianRoundTrip(length % 0x1_0000_0000, 4);
    MagicTail();
    TakePrefix(s, [0xCF, 0xCF, 0xCF], bs + (checksum + after));
    var s1 := TakeBytes(s, 3).st;
    TakePrefix(s1, bs, checksum + after);
    TakePrefix(TakeBytes(s1, 4).st, checksum, after);
  }

  lemma FooterRestarts(s: State, s1: State)
    requires s.rest != [] && s.rest[0] == FOOTER
    requires CheckFooter(NextCode(s).st) == Ok((), s1)
    ensures ReadObject(s) == ReadObject(s1)
  {
  }

  lemma FooterLeads(s: State, checksum: seq<Byte>, after: seq<Byte>)
    requires |checksum| == 4
    requires s.rest == Footer(s.count, checksum) + after
    ensures ReadObject(s) == ReadObject(State(after, 0, [], [], s.resets + 1, s.gets, 0, s.openPuts, true))
  {
    var s1 := NextCode(s).st;
    var length := ToBigEndian(s.count % 0x1_0000_0000, 4);
    assert s1.rest == [0xCF, 0xCF, 0xCF] + (length + (checksum + after));
    FooterChecks(s1, s.count, checksum, after);
    FooterRestarts(s, State(after, 0, [], [], s.resets + 1, s.gets, 0, s.openPuts, true));
  }

  lemma RestartIsFresh(x: Surround, after: seq<Byte>)
    requires x.after == []
    ensures Within(x, Fresh(after)) == State(after, 0, [], [], x.resets, x.gets, 0, x.openPuts, x.irregular)
  {
    assert after + [] == after && x.gets + [] == x.gets && x.openPuts + [] == x.openPuts;
  }

  /** A footer that states the bytes read so far is accepted, and the reader starts afresh. */
  lemma FooterAccepted(s: State, checksum: seq<Byte>, after: seq<Byte>)
    requires |checksum| == 4
    requires s.rest == Footer(s.count, checksum) + after
    ensures ReadObject(s) == WithinResult(Surround([], s.resets + 1, s.gets, s.openPuts, true), ReadObject(Fresh(after)))
  {
    var x := Surround([], s.resets + 1, s.gets, s.openPuts, true);
    FooterLeads(s, checksum, after);
    RestartIsFresh(x, after);
    ObjectWithin(x, Fresh(after));
  }

  lemma MagicIs(bs: seq<Byte>)
    requires |bs| == 3 && FromBigEndian(bs) == FOOTER_MAGIC_TAIL
    ensures bs == [0xCF, 0xCF, 0xCF]
  {
    MagicTail();
    BigEndianInverse(bs);
    BigEndianInverse([0xCF, 0xCF, 0xCF]);
  }

  /** The footer check passes only on the magic, the number of bytes read before the footer, and four more bytes. */
  lemma CheckedFooter(s: State) returns (checksum: seq<Byte>)
    requires CheckFooter(s).Ok?
    ensures |checksum| == 4
    ensures s.rest == [0xCF, 0xCF, 0xCF] + (ToBigEndian((s.count - 1) % 0x1_0000_0000, 4) + (checksum + CheckFooter(s).st.rest))
  {
    var magic, s1 := TakeBytes(s, 3).value, TakeBytes(s, 3).st;
    var length, s2 := TakeBytes(s1, 4).value, TakeBytes(s1, 4).st;
    checksum := TakeBytes(s2, 4).value;
    MagicIs(magic);
    BigEndianInverse(length);
    assert s.rest == magic + s1.rest && s1.rest == length + s2.rest && s2.rest == checksum + CheckFooter(s).st.rest;
  }

  ghost predicate HasFooter(s: State, checksum: seq<Byte>, after: seq<Byte>) {
    |checksum| == 4 && s.rest == Footer(s.count, checksum) + after
  }

  /** A footer that states anything else, or is cut short, is refused. */
  lemma FooterStatesCount(s: State) returns (checksum: seq<Byte>, after: seq<Byte>)
    requires s.rest != [] && s.rest[0] == FOOTER && ReadObject(s).Ok?
    ensures HasFooter(s, checksum, after)
  {
    var s1 := NextCode(s).st;
    assert Classify(FOOTER) == KFooter;
    assert ReadObject(s) == ReadKind(KFooter, s1);
    checksum := CheckedFooter(s1);
    after := CheckFooter(s1).st.rest;
    var length := ToBigEndian(s.count % 0x1_0000_0000, 4);
    assert s.rest == [FOOTER] + s1.rest;
    assert [FOOTER] + ([0xCF, 0xCF, 0xCF] + (length + (checksum + after))) ==
           ([FOOTER] + ([0xCF, 0xCF, 0xCF] + (length + checksum))) + after;
  }

  /**
   Where a footer code stands, an object is read if and only if the footer states the number of
   bytes read before it and a fresh reader reads an object from what follows.
   */
  lemma FooterIff(s: State)
    requires s.rest != [] && s.rest[0] == FOOTER
    ensures ReadObject(s).Ok? <==> exists checksum, after :: HasFooter(s, checksum, after) && ReadObject(Fresh(after)).Ok?
  {
    if ReadObject(s).Ok? {
      var checksum, after := FooterStatesCount(s);
      FooterAccepted(s, checksum, after);
    }
    if checksum, after :| HasFooter(s, checksum, after) && ReadObject(Fresh(after)).Ok? {
      FooterAccepted(s, checksum, after);
    }
  }

  lemma {:induction false} ObjectsCompose(m: nat, n: nat, s: State)
    requires ReadObjects(m, s).Ok?
    ensures var r := ReadObjects(n, ReadObjects(m, s).st);
            ReadObjects(m + n, s) == if r.Ok? then Ok(ReadObjects(m, s).value + r.value, r.st) else Fail
    decreases m
  {
    var r := ReadObjects(n, ReadObjects(m, s).st);
    if m == 0 {
      if r.Ok? { assert [] + r.value == r.value; }
    } else {
      var q := ReadObject(s);
      ObjectsCompose(m - 1, n, q.st);
      if r.Ok? {
        var vs := ReadObjects(m - 1, q.st).value;
        assert [q.value] + (vs + r.value) == ([q.value] + vs) + r.value;
      }
    }
  }

  /** Reading on past a valid footer is reading with a fresh reader what follows it. */
  lemma FooterThenObjects(s: State, checksum: seq<Byte>, after: seq<Byte>, n: nat)
    requires |checksum| == 4 && n >= 1
    requires s.rest == Footer(s.count, checksum) + after
    ensures ReadObjects(n, s) == WithinResult(Surround([], s.resets + 1, s.gets, s.openPuts, true), ReadObjects(n, Fresh(after)))
  {
    var x := Surround([], s.resets + 1, s.gets, s.openPuts, true);
    FooterAccepted(s, checksum, after);
    ObjectWithin(x, Fresh(after));
    assert ReadObjects(n, s) == ReadObjects(n, Within(x, Fresh(after)));
    ObjectsWithin(x, n, Fresh(after));
  }

  /**
   Segment independence: after a segment, whatever the following bytes are, the reader does with
   them exactly what a fresh reader does, failures included.
   */
  lemma SegmentThenRest(g: Segment, after: seq<Byte>, n: nat)
    requires IsSegment(g) && n >= 1
    ensures var own := ReadObjects(g.objects, Fresh(SegmentBytes(g)));
            var r := ReadObjects(n, Fresh(after));
            ReadObjects(g.objects + n, Fresh(SegmentBytes(g) + after)) ==
              if r.Ok? then Ok(own.value + r.value, Within(Surround([], own.st.resets + 1, own.st.gets, own.st.openPuts, true), r.st)) else Fail
  {
    var s := Fresh(SegmentBytes(g));
    var own := ReadObjects(g.objects, s);
    var x := Surround(after, 0, [], [], false);
    ObjectsWithin(x, g.objects, s);
    assert Within(x, s) == Fresh(SegmentBytes(g) + after);
    var s1 := Within(x, own.st);
    assert s1.gets == own.st.gets && s1.openPuts == own.st.openPuts;
    ObjectsCompose(g.objects, n, Within(x, s));
    FooterThenObjects(s1, g.checksum, after, n);
  }

  lemma SegmentThenAny(g: Segment, after: seq<Byte>, n: nat)
    requires IsSegment(g) && ReadObjects(n, Fresh(after)).Ok?
    ensures var r := ReadObjects(g.objects + n, Fresh(SegmentBytes(g) + after));
            r.Ok? && r.value == ReadObjects(g.objects, Fresh(SegmentBytes(g))).value + ReadObjects(n, Fresh(after)).value
  {
    if n == 0 {
      var x := Surround(after, 0, [], [], false);
      ObjectsWithin(x, g.objects, Fresh(SegmentBytes(g)));
      assert Within(x, Fresh(SegmentBytes(g))) == Fresh(SegmentBytes(g) + after);
    } else {
      SegmentThenRest(g, after, n);
    }
  }

  /** Concatenated segments decode to the concatenation of what each decodes to alone. */
  lemma {:induction false} SegmentsAreIndependent(gs: seq<Segment>)
    requires forall i :: 0 <= i < |gs| ==> IsSegment(gs[i])
    ensures |SegmentValues(gs)| == AllObjects(gs)
    ensures ReadObjects(AllObjects(gs), Fresh(AllBytes(gs))).Ok?
    ensures ReadObjects(AllObjects(gs), Fresh(AllBytes(gs))).value == SegmentValues(gs)
  {
    if gs != [] {
      var g, later := gs[0], gs[1..];
      assert IsSegment(g);
      SegmentsAreIndependent(later);
      assert AllBytes(gs) == SegmentBytes(g) + AllBytes(later);
      SegmentThenAny(g, AllBytes(later), AllObjects(later));
    }
  }
}
