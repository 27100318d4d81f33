/**
 Histories as logs of invocations and completions, the pairing of the two into operations, the
 split of a keyed history into one subhistory per key, and the conversion of timed-out reads to
 failed ones. The main theorem is that checking the converted subhistories one register at a time
 decides linearizability of the whole.
 */
module Histories {
  import opened CasRegister
  import opened Linearizability

  datatype EventType = Invoke | Ok | Fail | Info

  datatype Event = Event(index: nat, process: int, typ: EventType, key: Key, f: Fn)

  type History = seq<Event>

  /** Operations so far, and the one each process is waiting on. */
  datatype Book = Book(ops: Ops, pending: map<int, nat>)

  /** A completion closes its process's operation; an operation nothing ever closes has crashed. */
  function Enter(b: Book, e: Event): Book {
    if e.typ == Invoke then
      Book(b.ops[e.index := Op(e.key, e.f, e.index, Crashed)], b.pending[e.process := e.index])
    else if e.process in b.pending && b.pending[e.process] in b.ops then
      var i := b.pending[e.process];
      var op := b.ops[i];
      var closed :=
        match e.typ
        case Ok => op.(f := e.f, status := Done(e.index))
        case Fail => op.(status := Failed)
        case _ => op;
      Book(b.ops[i := closed], b.pending - {e.process})
    else b
  }

  function Entered(h: History): Book {
    if h == [] then Book(map[], map[]) else Enter(Entered(h[..|h| - 1]), h[|h| - 1])
  }

  function Operations(h: History): Ops {
    Entered(h).ops
  }

  /** A completion repeats its invocation, except that a read fills in what it read. */
  predicate Answers(f: Fn, g: Fn) {
    f == g || (f.Read? && g.Read?)
  }

  predicate Legal(b: Book, e: Event) {
    if e.typ == Invoke then e.process !in b.pending
    else
      && e.process in b.pending
      && b.pending[e.process] in b.ops
      && b.ops[b.pending[e.process]].key == e.key
      && Answers(b.ops[b.pending[e.process]].f, e.f)
  }

  /** Indices ascend, and each process has at most one operation under way. */
  predicate WellFormed(h: History) {
    h != [] ==>
      var h', e := h[..|h| - 1], h[|h| - 1];
      && WellFormed(h')
      && (h' != [] ==> h'[|h'| - 1].index < e.index)
      && Legal(Entered(h'), e)
  }

  // ---------------------------------------------------------------- the book

  /** What the book of a well-formed history satisfies, all indices being below `bound`. */
  ghost predicate Kept(b: Book, bound: nat) {
    && (forall i :: i in b.ops ==> i < bound && b.ops[i].invoked == i)
    && ValidOps(b.ops)
    && (forall p :: p in b.pending ==> b.pending[p] in b.ops && b.ops[b.pending[p]].status.Crashed?)
    && (forall p, q :: p in b.pending && q in b.pending && p != q ==> b.pending[p] != b.pending[q])
  }

  function Bound(h: History): nat {
    if h == [] then 0 else h[|h| - 1].index + 1
  }

  lemma EnterKeeps(b: Book, bound: nat, e: Event)
    requires Kept(b, bound) && bound <= e.index && Legal(b, e)
    ensures Kept(Enter(b, e), e.index + 1)
  {
    assert e.index !in b.ops;
    var b' := Enter(b, e);
    if e.typ == Invoke {
      forall p, q | p in b'.pending && q in b'.pending && p != q
        ensures b'.pending[p] != b'.pending[q]
      {
        if p == e.process { assert b.pending[q] in b.ops; }
        if q == e.process { assert b.pending[p] in b.ops; }
      }
    }
  }

  lemma {:induction false} BookKept(h: History)
    requires WellFormed(h)
    ensures Kept(Entered(h), Bound(h))
  {
    if h != [] {
      var h' := h[..|h| - 1];
      BookKept(h');
      EnterKeeps(Entered(h'), Bound(h'), h[|h| - 1]);
    }
  }

  // ---------------------------------------------------------------- the log

  /** The position of the process's first event from q on, or the length of the log. */
  function Next(h: History, process: int, q: nat): (r: nat)
    requires q <= |h|
    ensures q <= r <= |h|
    ensures r < |h| ==> h[r].process == process
    ensures forall i :: q <= i < r ==> h[i].process != process
    decreases |h| - q
  {
    if q == |h| || h[q].process == process then q else Next(h, process, q + 1)
  }

  /** What the log says became of the operation invoked at p, judging by its process's next event. */
  function Recorded(h: History, p: nat): Op
    requires p < |h|
  {
    var q := Next(h, h[p].process, p + 1);
    if q == |h| || h[q].typ == Info then Op(h[p].key, h[p].f, h[p].index, Crashed)
    else if h[q].typ == Ok then Op(h[p].key, h[q].f, h[p].index, Done(h[q].index))
    else Op(h[p].key, h[p].f, h[p].index, Failed)
  }

  predicate InvokedAt(h: History, p: int) {
    0 <= p < |h| && h[p].typ == Invoke
  }

  /** The operation invoked at p has had no completion. */
  predicate WaitsAt(h: History, p: int) {
    InvokedAt(h, p) && Next(h, h[p].process, p + 1) == |h|
  }

  lemma {:induction false} IndicesAscend(h: History, p: nat, q: nat)
    requires WellFormed(h) && p < q < |h|
    ensures h[p].index < h[q].index
  {
    var h' := h[..|h| - 1];
    if q < |h'| {
      IndicesAscend(h', p, q);
    } else if p < |h'| - 1 {
      IndicesAscend(h', p, |h'| - 1);
    }
  }

  /** One more event is next for those of its process that had none. */
  lemma NextSnoc(h: History, process: int, q: nat)
    requires h != [] && q < |h|
    ensures var h', r := h[..|h| - 1], Next(h[..|h| - 1], process, q);
            Next(h, process, q) == if r < |h'| || h[|h'|].process == process then r else |h|
  {
    var h' := h[..|h| - 1];
    var r, r' := Next(h, process, q), Next(h', process, q);
    assert forall i :: q <= i < |h'| ==> h[i] == h'[i];
  }

  lemma RecordedSnoc(h: History, p: nat)
    requires h != [] && p < |h| - 1 && h[p].typ == Invoke
    ensures var h', e := h[..|h| - 1], h[|h| - 1];
            && (WaitsAt(h, p) <==> WaitsAt(h', p) && e.process != h[p].process)
            && (!WaitsAt(h', p) || e.process != h[p].process ==> Recorded(h, p) == Recorded(h', p))
            && (WaitsAt(h', p) && e.process == h[p].process ==> Next(h, h[p].process, p + 1) == |h| - 1)
  {
    NextSnoc(h, h[p].process, p + 1);
  }

  /** Each process is waiting on its last invocation, if that has had no completion, and on nothing else. */
  lemma {:induction false} PendingIs(h: History, p: nat)
    requires WellFormed(h) && WaitsAt(h, p)
    ensures h[p].process in Entered(h).pending && Entered(h).pending[h[p].process] == h[p].index
  {
    var h' := h[..|h| - 1];
    if p < |h'| {
      RecordedSnoc(h, p);
      PendingIs(h', p);
    }
  }

  lemma {:induction false} PendingWaits(h: History, process: int) returns (p: nat)
    requires WellFormed(h) && process in Entered(h).pending
    ensures WaitsAt(h, p) && h[p].process == process && h[p].index == Entered(h).pending[process]
  {
    var h', e := h[..|h| - 1], h[|h| - 1];
    if e.process == process {
      p := |h'|;
    } else {
      p := PendingWaits(h', process);
      RecordedSnoc(h, p);
    }
  }

  /** The operations are the invocations, each with what the log says became of it. */
  lemma {:induction false} OperationAt(h: History, p: nat)
    requires WellFormed(h) && InvokedAt(h, p)
    ensures h[p].index in Operations(h) && Operations(h)[h[p].index] == Recorded(h, p)
  {
    var h', e := h[..|h| - 1], h[|h| - 1];
    BookKept(h');
    if p < |h'| {
      OperationAt(h', p);
      RecordedSnoc(h, p);
      IndicesAscend(h, p, |h'|);
      if e.typ != Invoke {
        Completes(h, p);
      } else if WaitsAt(h', p) && e.process == h[p].process {
        PendingIs(h', p);
      }
    }
  }

  /** A completion closes the operation its process waits on, and no other. */
  lemma Completes(h: History, p: nat)
    requires WellFormed(h) && h != [] && h[|h| - 1].typ != Invoke && p < |h| - 1 && h[p].typ == Invoke
    requires var h' := h[..|h| - 1];
             h[p].index in Operations(h') && Operations(h')[h[p].index] == Recorded(h', p)
    ensures h[p].index in Operations(h) && Operations(h)[h[p].index] == Recorded(h, p)
  {
    var h', e := h[..|h| - 1], h[|h| - 1];
    RecordedSnoc(h, p);
    var w := PendingWaits(h', e.process);
    if w < p {
      IndicesAscend(h, w, p);
    } else if p < w {
      IndicesAscend(h, p, w);
    }
    assert h'[w] == h[w] && h'[p] == h[p];
  }

  /** There are no others. */
  lemma {:induction false} OperationInvoked(h: History, i: nat) returns (p: nat)
    requires WellFormed(h) && i in Operations(h)
    ensures InvokedAt(h, p) && h[p].index == i
  {
    var h', e := h[..|h| - 1], h[|h| - 1];
    if e.typ == Invoke && i == e.index {
      p := |h'|;
    } else {
      p := OperationInvoked(h', i);
      assert h'[p] == h[p];
    }
  }

  /** In the log: one operation precedes another if its process's next event is an ok before the other's invocation. */
  lemma PrecedesInLog(h: History, p: nat, r: nat)
    requires WellFormed(h) && InvokedAt(h, p) && InvokedAt(h, r)
    ensures h[p].index in Operations(h) && h[r].index in Operations(h)
    ensures Precedes(Operations(h)[h[p].index], Operations(h)[h[r].index]) <==>
            var q := Next(h, h[p].process, p + 1); q < r && h[q].typ == Ok
  {
    OperationAt(h, p);
    OperationAt(h, r);
    var q := Next(h, h[p].process, p + 1);
    if q < r {
      IndicesAscend(h, q, r);
    } else if r < q < |h| {
      IndicesAscend(h, r, q);
    }
  }

  /** The position of the process's last event before q, or -1. */
  function Previous(h: History, process: int, q: nat): (r: int)
    requires q <= |h|
    ensures -1 <= r < q
    ensures r >= 0 ==> h[r].process == process
    ensures forall i :: r < i < q ==> h[i].process != process
  {
    if q == 0 then -1 else if h[q - 1].process == process then q - 1 else Previous(h, process, q - 1)
  }

  /** An invocation follows no invocation of its process; a completion follows, and answers, one on the same key. */
  predicate Follows(h: History, q: nat)
    requires q < |h|
  {
    var r := Previous(h, h[q].process, q);
    && (q > 0 ==> h[q - 1].index < h[q].index)
    && if h[q].typ == Invoke then r == -1 || h[r].typ != Invoke
       else
         && r >= 0 && h[r].typ == Invoke && h[r].key == h[q].key
         && (h[q].f == h[r].f || (h[q].f.Read? && h[r].f.Read?))
  }

  /** What a process waits on is its last event, if that is an invocation. */
  lemma {:induction false} PendingIsLast(h: History, process: int)
    requires WellFormed(h)
    ensures var r := Previous(h, process, |h|);
            && (process in Entered(h).pending <==> r >= 0 && h[r].typ == Invoke)
            && (process in Entered(h).pending ==> Entered(h).pending[process] == h[r].index)
  {
    if h != [] {
      var h' := h[..|h| - 1];
      PendingIsLast(h', process);
      PreviousPrefix(h, process, |h'|);
      BookKept(h');
    }
  }

  lemma {:induction false} PreviousPrefix(h: History, process: int, q: nat)
    requires h != [] && q < |h|
    ensures Previous(h[..|h| - 1], process, q) == Previous(h, process, q)
  {
    if q > 0 {
      PreviousPrefix(h, process, q - 1);
    }
  }

  lemma LegalIff(h: History, e: Event)
    requires WellFormed(h)
    ensures Legal(Entered(h), e) <==>
            var r := Previous(h, e.process, |h|);
            if e.typ == Invoke then r == -1 || h[r].typ != Invoke
            else r >= 0 && h[r].typ == Invoke && h[r].key == e.key && Answers(h[r].f, e.f)
  {
    var r := Previous(h, e.process, |h|);
    PendingIsLast(h, e.process);
    if r >= 0 && h[r].typ == Invoke {
      OperationAt(h, r);
      var q := Next(h, e.process, r + 1);
      assert q == |h|;
    }
  }

  /** Well-formed logs, event by event. */
  lemma {:induction false} WellFormedIff(h: History)
    ensures WellFormed(h) <==> forall q :: 0 <= q < |h| ==> Follows(h, q)
  {
    if h != [] {
      var h', l := h[..|h| - 1], |h| - 1;
      WellFormedIff(h');
      forall q | 0 <= q < l
        ensures Follows(h', q) <==> Follows(h, q)
      {
        PreviousPrefix(h, h[q].process, q);
      }
      if WellFormed(h') {
        LegalIff(h', h[l]);
        PreviousPrefix(h, h[l].process, l);
        assert Previous(h', h[l].process, |h'|) == Previous(h, h[l].process, l);
        assert WellFormed(h) <==> Follows(h, l);
      }
    }
  }

  // ---------------------------------------------------------------- subhistories

  function Subhistory(h: History, k: Key): History {
    if h == [] then []
    else Subhistory(h[..|h| - 1], k) + if h[|h| - 1].key == k then [h[|h| - 1]] else []
  }

  /** Whether a process's pending operation is on a key. */
  predicate PendsOn(b: Book, p: int, k: Key) {
    p in b.pending && b.pending[p] in b.ops && b.ops[b.pending[p]].key == k
  }

  /** The part of a book that concerns one key. */
  function BookFor(b: Book, k: Key): Book {
    Book(OpsFor(b.ops, k),
         map p | p in b.pending && PendsOn(b, p, k) :: b.pending[p])
  }

  /** A fresh event for a book whose pending operations are all in it. */
  ghost predicate Enterable(b: Book, e: Event) {
    && e.index !in b.ops && Legal(b, e)
    && forall p :: p in b.pending ==> b.pending[p] in b.ops
  }

  lemma KeptEnterable(b: Book, bound: nat, e: Event)
    requires Kept(b, bound) && bound <= e.index && Legal(b, e)
    ensures Enterable(b, e)
  {
  }

  /** Whether an event changes what a process is waiting on, for a key. */
  lemma EnterPends(b: Book, e: Event, k: Key, p: int)
    requires Enterable(b, e)
    ensures PendsOn(Enter(b, e), p, k) <==>
            if p != e.process then PendsOn(b, p, k) else e.typ == Invoke && e.key == k
    ensures p != e.process && PendsOn(b, p, k) ==> Enter(b, e).pending[p] == b.pending[p]
  {
    if p in b.pending {
      assert b.pending[p] in b.ops;
    }
  }

  lemma EnterOther(b: Book, e: Event, k: Key)
    requires Enterable(b, e) && e.key != k
    ensures BookFor(Enter(b, e), k) == BookFor(b, k)
  {
    var x, y := BookFor(Enter(b, e), k), BookFor(b, k);
    assert x.ops == y.ops;
    forall p
      ensures p in x.pending <==> p in y.pending
      ensures p in x.pending ==> x.pending[p] == y.pending[p]
    {
      EnterPends(b, e, k, p);
    }
    assert x.pending == y.pending;
  }

  lemma EnterSameOps(b: Book, e: Event, k: Key)
    requires Enterable(b, e) && e.key == k
    ensures BookFor(Enter(b, e), k).ops == Enter(BookFor(b, k), e).ops
  {
  }

  lemma EnterSame(b: Book, e: Event, k: Key)
    requires Enterable(b, e) && e.key == k
    ensures Legal(BookFor(b, k), e)
    ensures BookFor(Enter(b, e), k) == Enter(BookFor(b, k), e)
  {
    EnterSameOps(b, e, k);
    var x, y := BookFor(Enter(b, e), k), Enter(BookFor(b, k), e);
    forall p
      ensures p in x.pending <==> p in y.pending
      ensures p in x.pending ==> x.pending[p] == y.pending[p]
    {
      EnterPends(b, e, k, p);
    }
    assert x.pending == y.pending;
  }

  lemma {:induction false} SubhistoryBound(h: History, k: Key)
    requires WellFormed(h)
    ensures Bound(Subhistory(h, k)) <= Bound(h)
  {
    if h != [] {
      SubhistoryBound(h[..|h| - 1], k);
    }
  }

  /** Pairing commutes with splitting: a subhistory's operations are the history's on that key. */
  lemma {:induction false} SubhistoryOperations(h: History, k: Key)
    requires WellFormed(h)
    ensures WellFormed(Subhistory(h, k))
    ensures Entered(Subhistory(h, k)) == BookFor(Entered(h), k)
  {
    if h != [] {
      var h', e := h[..|h| - 1], h[|h| - 1];
      var sub := Subhistory(h', k);
      SubhistoryOperations(h', k);
      SubhistoryBound(h', k);
      BookKept(h');
      KeptEnterable(Entered(h'), Bound(h'), e);
      if e.key == k {
        EnterSame(Entered(h'), e, k);
        assert Subhistory(h, k)[..|sub|] == sub;
      } else {
        EnterOther(Entered(h'), e, k);
        assert Subhistory(h, k) == sub;
      }
    }
  }

  /** A subhistory has exactly the events on its key. */
  lemma {:induction false} SubhistoryIs(h: History, k: Key, e: Event)
    ensures e in Subhistory(h, k) <==> e in h && e.key == k
  {
    if h != [] {
      SubhistoryIs(h[..|h| - 1], k, e);
      assert h == h[..|h| - 1] + [h[|h| - 1]];
    }
  }

  // ---------------------------------------------------------------- timed-out reads

  function Converted(e: Event): Event {
    if e.typ == Info && e.f.Read? then e.(typ := Fail) else e
  }

  function ConvertReads(h: History): (h': History)
    ensures |h'| == |h|
  {
    if h == [] then [] else ConvertReads(h[..|h| - 1]) + [Converted(h[|h| - 1])]
  }

  lemma EnterConverted(b: Book, c: Book, bound: nat, e: Event)
    requires Kept(b, bound) && bound <= e.index && Legal(b, e)
    requires FailsCrashedReads(b.ops, c.ops) && c.pending == b.pending
    requires forall p :: p in b.pending ==> c.ops[b.pending[p]] == b.ops[b.pending[p]]
    ensures var b', c' := Enter(b, e), Enter(c, Converted(e));
            && FailsCrashedReads(b'.ops, c'.ops) && c'.pending == b'.pending
            && forall p :: p in b'.pending ==> c'.ops[b'.pending[p]] == b'.ops[b'.pending[p]]
  {
    assert e.index !in b.ops;
  }

  lemma {:induction false} ConvertedOperations(h: History)
    requires WellFormed(h)
    ensures var b, c := Entered(h), Entered(ConvertReads(h));
            && FailsCrashedReads(b.ops, c.ops) && c.pending == b.pending
            && forall p :: p in b.pending ==> p in c.pending && b.pending[p] in b.ops && c.ops[b.pending[p]] == b.ops[b.pending[p]]
  {
    if h != [] {
      var h', e := h[..|h| - 1], h[|h| - 1];
      ConvertedOperations(h');
      BookKept(h');
      BookKept(h);
      EnterConverted(Entered(h'), Entered(ConvertReads(h')), Bound(h'), e);
      assert ConvertReads(h)[..|h| - 1] == ConvertReads(h');
    }
  }

  /** Only the types of timed-out reads change. */
  lemma {:induction false} ConvertedAt(h: History, i: nat)
    requires i < |h|
    ensures ConvertReads(h)[i] == h[i].(typ := if h[i].typ == Info && h[i].f.Read? then Fail else h[i].typ)
  {
    if i < |h| - 1 {
      ConvertedAt(h[..|h| - 1], i);
    }
  }

  lemma {:induction false} ConvertedWellFormed(h: History)
    requires WellFormed(h)
    ensures WellFormed(ConvertReads(h))
  {
    if h != [] {
      var h' := h[..|h| - 1];
      ConvertedWellFormed(h');
      ConvertedOperations(h');
      assert ConvertReads(h)[..|h'|] == ConvertReads(h');
      ConvertedAt(h, |h'|);
      if h' != [] {
        ConvertedAt(h', |h'| - 1);
      }
    }
  }

  lemma {:induction false} ConvertedNext(h: History, process: int, q: nat)
    requires q <= |h|
    ensures Next(ConvertReads(h), process, q) == Next(h, process, q)
    decreases |h| - q
  {
    if q < |h| {
      ConvertedAt(h, q);
      ConvertedNext(h, process, q + 1);
    }
  }

  /** After conversion a read whose process's next event says it timed out has failed; all else is as before. */
  lemma ConvertedRecord(h: History, p: nat)
    requires WellFormed(h) && InvokedAt(h, p)
    ensures var q, ops := Next(h, h[p].process, p + 1), Operations(ConvertReads(h));
            && h[p].index in ops
            && ops[h[p].index] == if q < |h| && h[q].typ == Info && h[q].f.Read? then Recorded(h, p).(status := Failed)
                                  else Recorded(h, p)
  {
    ConvertedWellFormed(h);
    ConvertedAt(h, p);
    OperationAt(ConvertReads(h), p);
    ConvertedNext(h, h[p].process, p + 1);
    var q := Next(h, h[p].process, p + 1);
    if q < |h| {
      ConvertedAt(h, q);
    }
  }

  // ---------------------------------------------------------------- main results

  function HistoryKeys(h: History): set<Key> {
    set p | 0 <= p < |h| :: h[p].key
  }

  lemma EnterKeys(b: Book, e: Event)
    ensures forall i :: i in Enter(b, e).ops ==>
              Enter(b, e).ops[i].key == e.key || (i in b.ops && Enter(b, e).ops[i].key == b.ops[i].key)
  {
  }

  lemma {:induction false} OpKeys(h: History)
    requires WellFormed(h)
    ensures forall i :: i in Operations(h) ==> Operations(h)[i].key in HistoryKeys(h)
  {
    if h != [] {
      var h', e := h[..|h| - 1], h[|h| - 1];
      OpKeys(h');
      EnterKeys(Entered(h'), e);
      assert HistoryKeys(h') <= HistoryKeys(h) by {
        assert forall p :: 0 <= p < |h'| ==> h'[p].key == h[p].key;
      }
      forall i | i in Operations(h)
        ensures Operations(h)[i].key in HistoryKeys(h)
      {
        if Operations(h)[i].key == e.key {
          assert h[|h| - 1].key in HistoryKeys(h);
        } else {
          assert Operations(h')[i].key in HistoryKeys(h');
        }
      }
    }
  }

  /** Recording timed-out reads as failed does not change the verdict on a register's history. */
  lemma ConversionIsSafe(h: History)
    requires WellFormed(h)
    ensures LinearizableRegister(Operations(h)) <==> LinearizableRegister(Operations(ConvertReads(h)))
  {
    ConvertedOperations(h);
    CrashedReadsMayFail(Operations(h), Operations(ConvertReads(h)));
  }

  lemma KeyVerdict(h: History, k: Key)
    requires WellFormed(h)
    ensures LinearizableRegister(Operations(ConvertReads(Subhistory(h, k)))) <==>
            LinearizableRegister(OpsFor(Operations(h), k))
    ensures k !in HistoryKeys(h) ==> LinearizableRegister(OpsFor(Operations(h), k))
  {
    SubhistoryOperations(h, k);
    ConversionIsSafe(Subhistory(h, k));
    if k !in HistoryKeys(h) {
      NoOperations(h, k);
    }
  }

  lemma NoOperations(h: History, k: Key)
    requires WellFormed(h) && k !in HistoryKeys(h)
    ensures LinearizableRegister(OpsFor(Operations(h), k))
  {
    OpKeys(h);
    assert OpsFor(Operations(h), k) == map[];
    assert Witness(map[], []);
  }

  /** What the checker decides key by key: the subhistory, converted, against one register. */
  ghost predicate KeyPasses(h: History, k: Key) {
    LinearizableRegister(Operations(ConvertReads(Subhistory(h, k))))
  }

  /**
   A keyed history is linearizable against a map of registers iff, for every key in it, the
   subhistory of that key with timed-out reads recorded as failed is linearizable against one.
   */
  lemma IndependentCheckIsExact(h: History)
    requires WellFormed(h)
    ensures LinearizableMap(Operations(h)) <==>
            forall k :: k in HistoryKeys(h) ==> KeyPasses(h, k)
  {
    BookKept(h);
    Locality(Operations(h));
    forall k {
      KeyVerdict(h, k);
    }
  }
}
