/**
 Linearizability of register histories. An operation that failed never happened, one that crashed
 may take effect at any time after its invocation or never, and one that completed takes effect
 between its invocation and its completion.
 */
module Linearizability {
  import opened CasRegister

  datatype Status = Done(at: nat) | Failed | Crashed

  datatype Op = Op(key: Key, f: Fn, invoked: nat, status: Status)

  /** Operations by the index of their invocation. */
  type Ops = map<nat, Op>

  ghost predicate ValidOps(ops: Ops) {
    forall i :: i in ops && ops[i].status.Done? ==> ops[i].invoked < ops[i].status.at
  }

  /** One operation completed before the other was invoked. */
  predicate Precedes(x: Op, y: Op) {
    x.status.Done? && x.status.at < y.invoked
  }

  ghost predicate Known(ops: Ops, s: seq<nat>) {
    forall p :: 0 <= p < |s| ==> s[p] in ops
  }

  ghost predicate RealTime(ops: Ops, s: seq<nat>)
    requires Known(ops, s)
  {
    forall p, q :: 0 <= p < q < |s| ==> !Precedes(ops[s[q]], ops[s[p]])
  }

  ghost predicate Distinct(s: seq<nat>) {
    forall p, q :: 0 <= p < q < |s| ==> s[p] != s[q]
  }

  /** s puts every completed operation and any of the crashed ones in an order time allows. */
  ghost predicate Orders(ops: Ops, s: seq<nat>) {
    && Known(ops, s)
    && Distinct(s)
    && (forall p :: 0 <= p < |s| ==> !ops[s[p]].status.Failed?)
    && (forall i :: i in ops && ops[i].status.Done? ==> i in s)
    && RealTime(ops, s)
  }

  function Fns(ops: Ops, s: seq<nat>): (fs: seq<Fn>)
    requires forall p :: 0 <= p < |s| ==> s[p] in ops
    ensures |fs| == |s|
  {
    if s == [] then [] else [ops[s[0]].f] + Fns(ops, s[1..])
  }

  function KeyedFns(ops: Ops, s: seq<nat>): (kfs: seq<(Key, Fn)>)
    requires forall p :: 0 <= p < |s| ==> s[p] in ops
    ensures |kfs| == |s|
  {
    if s == [] then [] else [(ops[s[0]].key, ops[s[0]].f)] + KeyedFns(ops, s[1..])
  }

  ghost predicate Witness(ops: Ops, s: seq<nat>) {
    Orders(ops, s) && Replay(Nil, Fns(ops, s)).Consistent?
  }

  ghost predicate MapWitness(ops: Ops, s: seq<nat>) {
    Orders(ops, s) && ReplayMap(map[], KeyedFns(ops, s)).Consistent?
  }

  /** Against a single register, whatever the keys say. */
  ghost predicate LinearizableRegister(ops: Ops) {
    exists s :: Witness(ops, s)
  }

  /** Against a map of registers. */
  ghost predicate LinearizableMap(ops: Ops) {
    exists s :: MapWitness(ops, s)
  }

  function OpsFor(ops: Ops, k: Key): Ops {
    map i | i in ops && ops[i].key == k :: ops[i]
  }

  // ---------------------------------------------------------------- one after the other

  /** Each operation completed before the next was invoked. */
  ghost predicate OneByOne(ops: Ops, s: seq<nat>) {
    && Known(ops, s)
    && (forall p :: 0 <= p < |s| ==> ops[s[p]].status.Done?)
    && forall p, q :: 0 <= p < q < |s| ==> Precedes(ops[s[p]], ops[s[q]])
  }

  /** Such operations have one order only. */
  lemma {:induction false} OnlyOrder(ops: Ops, s: seq<nat>, t: seq<nat>)
    requires OneByOne(ops, s) && Known(ops, t) && Distinct(t) && RealTime(ops, t)
    requires Distinct(s) && forall i :: i in s <==> i in t
    ensures s == t
  {
    assert s != [] ==> s[0] in t;
    assert t != [] ==> t[0] in s;
    if s != [] {
      var k :| 0 <= k < |s| && s[k] == t[0];
      var j :| 0 <= j < |t| && t[j] == s[0];
      FirstPrecedes(ops, s, k);
      NotBeforeFirst(ops, t, j);
      assert s[0] == t[0];
      forall i
        ensures i in s[1..] <==> i in t[1..]
      {
        InTail(s, i);
        InTail(t, i);
      }
      OnlyOrder(ops, s[1..], t[1..]);
      assert s == [s[0]] + s[1..] && t == [t[0]] + t[1..];
    }
  }

  lemma FirstPrecedes(ops: Ops, s: seq<nat>, k: nat)
    requires OneByOne(ops, s) && k < |s|
    ensures k > 0 ==> Precedes(ops[s[0]], ops[s[k]])
  {
  }

  lemma NotBeforeFirst(ops: Ops, t: seq<nat>, j: nat)
    requires Known(ops, t) && RealTime(ops, t) && j < |t|
    ensures j > 0 ==> !Precedes(ops[t[j]], ops[t[0]])
  {
  }

  lemma InTail(s: seq<nat>, i: nat)
    requires s != [] && Distinct(s)
    ensures i in s[1..] <==> i in s && i != s[0]
  {
    if i in s[1..] {
      var q :| 0 <= q < |s[1..]| && s[1..][q] == i;
      assert s[q + 1] == i;
    }
    if i in s && i != s[0] {
      var q :| 0 <= q < |s| && s[q] == i;
      assert s[1..][q - 1] == i;
    }
  }

  /** A history without concurrency is linearizable if and only if the register accepts it as it stands. */
  lemma SequentialIff(ops: Ops, s: seq<nat>)
    requires ValidOps(ops) && OneByOne(ops, s) && Distinct(s) && forall i :: i in ops ==> i in s
    ensures LinearizableRegister(ops) <==> Replay(Nil, Fns(ops, s)).Consistent?
  {
    if t :| Witness(ops, t) {
      forall i
        ensures i in s <==> i in t
      {
        if i in s {
          var p :| 0 <= p < |s| && s[p] == i;
          assert ops[s[p]].status.Done?;
        }
      }
      OnlyOrder(ops, s, t);
    }
    if Replay(Nil, Fns(ops, s)).Consistent? {
      InOrder(ops, s);
      assert Witness(ops, s);
    }
  }

  lemma InOrder(ops: Ops, s: seq<nat>)
    requires ValidOps(ops) && OneByOne(ops, s) && Distinct(s) && forall i :: i in ops ==> i in s
    ensures Orders(ops, s)
  {
    forall p, q | 0 <= p < q < |s|
      ensures !Precedes(ops[s[q]], ops[s[p]])
    {
      assert Precedes(ops[s[p]], ops[s[q]]);
    }
  }

  // ---------------------------------------------------------------- failed and crashed operations

  /** The operations without one of them. */
  function Without(ops: Ops, i: nat): Ops {
    ops - {i}
  }

  lemma {:induction false} SameFnsOn(ops: Ops, ops': Ops, s: seq<nat>)
    requires Known(ops, s) && Known(ops', s) && forall p :: 0 <= p < |s| ==> ops[s[p]].f == ops'[s[p]].f
    ensures Fns(ops, s) == Fns(ops', s)
  {
    if s != [] {
      SameFnsOn(ops, ops', s[1..]);
    }
  }

  /** An order that leaves i out is one of the others, and the other way round if i did not complete. */
  lemma OrdersWithout(ops: Ops, i: nat, s: seq<nat>)
    requires i in ops && i !in s
    ensures Witness(ops, s) ==> Witness(Without(ops, i), s)
    ensures !ops[i].status.Done? && Witness(Without(ops, i), s) ==> Witness(ops, s)
  {
    if Known(ops, s) {
      assert forall p :: 0 <= p < |s| ==> s[p] in s;
      SameFnsOn(ops, Without(ops, i), s);
    }
  }

  /** An operation that failed never happened. */
  lemma FailedIff(ops: Ops, i: nat)
    requires i in ops && ops[i].status.Failed?
    ensures LinearizableRegister(ops) <==> LinearizableRegister(Without(ops, i))
  {
    if s :| Witness(ops, s) {
      OrdersWithout(ops, i, s);
    }
    if s :| Witness(Without(ops, i), s) {
      OrdersWithout(ops, i, s);
    }
  }

  /** As if the operation had completed at the very end. */
  function CompletedAt(ops: Ops, i: nat, end: nat): Ops
    requires i in ops
  {
    ops[i := ops[i].(status := Done(end))]
  }

  lemma OrdersCompleted(ops: Ops, i: nat, end: nat, s: seq<nat>)
    requires i in ops && ops[i].status.Crashed? && i in s && forall j :: j in ops ==> ops[j].invoked <= end
    ensures Witness(ops, s) <==> Witness(CompletedAt(ops, i, end), s)
  {
    if Known(ops, s) {
      SameFnsOn(ops, CompletedAt(ops, i, end), s);
    }
  }

  /** A crashed operation never happens, or takes effect at any time until the very end. */
  lemma CrashedIff(ops: Ops, i: nat, end: nat)
    requires i in ops && ops[i].status.Crashed? && forall j :: j in ops ==> ops[j].invoked <= end
    ensures LinearizableRegister(ops) <==>
            LinearizableRegister(Without(ops, i)) || LinearizableRegister(CompletedAt(ops, i, end))
  {
    if s :| Witness(ops, s) {
      if i in s {
        OrdersCompleted(ops, i, end, s);
      } else {
        OrdersWithout(ops, i, s);
      }
    }
    if s :| Witness(Without(ops, i), s) {
      OrdersWithout(ops, i, s);
    }
    if s :| Witness(CompletedAt(ops, i, end), s) {
      OrdersCompleted(ops, i, end, s);
    }
  }

  // ---------------------------------------------------------------- projecting an order

  function Project(ops: Ops, s: seq<nat>, k: Key): seq<nat>
    requires forall p :: 0 <= p < |s| ==> s[p] in ops
  {
    if s == [] then []
    else (if ops[s[0]].key == k then [s[0]] else []) + Project(ops, s[1..], k)
  }

  lemma {:induction false} ProjectMembers(ops: Ops, s: seq<nat>, k: Key)
    requires Known(ops, s)
    ensures forall i :: i in Project(ops, s, k) <==> i in s && ops[i].key == k
  {
    if s != [] {
      ProjectMembers(ops, s[1..], k);
    }
  }

  lemma InRest(s: seq<nat>, x: nat) returns (p: nat)
    requires s != [] && x in s[1..]
    ensures 0 < p < |s| && s[p] == x
  {
    var q :| 0 <= q < |s[1..]| && s[1..][q] == x;
    p := q + 1;
  }

  lemma ConsDistinct(s: seq<nat>, rest: seq<nat>)
    requires s != [] && Distinct(s) && Distinct(rest)
    requires forall x :: x in rest ==> x in s[1..]
    ensures Distinct([s[0]] + rest)
  {
    forall q | 0 <= q < |rest|
      ensures rest[q] != s[0]
    {
      var p := InRest(s, rest[q]);
    }
  }

  lemma ConsInTime(ops: Ops, s: seq<nat>, rest: seq<nat>)
    requires s != [] && Known(ops, s) && Known(ops, rest) && RealTime(ops, s) && RealTime(ops, rest)
    requires forall x :: x in rest ==> x in s[1..]
    ensures Known(ops, [s[0]] + rest) && RealTime(ops, [s[0]] + rest)
  {
    forall q | 0 <= q < |rest|
      ensures !Precedes(ops[rest[q]], ops[s[0]])
    {
      var p := InRest(s, rest[q]);
    }
  }

  lemma {:induction false} ProjectDistinct(ops: Ops, s: seq<nat>, k: Key)
    requires Known(ops, s) && Distinct(s)
    ensures Distinct(Project(ops, s, k))
  {
    if s != [] {
      var rest := Project(ops, s[1..], k);
      ProjectDistinct(ops, s[1..], k);
      if ops[s[0]].key == k {
        ProjectMembers(ops, s[1..], k);
        ConsDistinct(s, rest);
      } else {
        assert Project(ops, s, k) == rest;
      }
    }
  }

  lemma {:induction false} ProjectInTime(ops: Ops, s: seq<nat>, k: Key)
    requires Known(ops, s) && RealTime(ops, s)
    ensures Known(ops, Project(ops, s, k)) && RealTime(ops, Project(ops, s, k))
  {
    if s != [] {
      var rest := Project(ops, s[1..], k);
      ProjectInTime(ops, s[1..], k);
      if ops[s[0]].key == k {
        ProjectMembers(ops, s[1..], k);
        ConsInTime(ops, s, rest);
      } else {
        assert Project(ops, s, k) == rest;
      }
    }
  }

  lemma {:induction false} ProjectFns(ops: Ops, s: seq<nat>, k: Key)
    requires Known(ops, s)
    ensures Known(OpsFor(ops, k), Project(ops, s, k))
    ensures Fns(OpsFor(ops, k), Project(ops, s, k)) == OnKey(KeyedFns(ops, s), k)
  {
    ProjectMembers(ops, s, k);
    if s != [] {
      ProjectFns(ops, s[1..], k);
      assert KeyedFns(ops, s)[1..] == KeyedFns(ops, s[1..]);
      if ops[s[0]].key == k {
        assert Project(ops, s, k)[1..] == Project(ops, s[1..], k);
      } else {
        assert Project(ops, s, k) == Project(ops, s[1..], k);
      }
    }
  }

  lemma ProjectOrders(ops: Ops, s: seq<nat>, k: Key)
    requires Orders(ops, s)
    ensures Orders(OpsFor(ops, k), Project(ops, s, k))
  {
    ProjectMembers(ops, s, k);
    ProjectDistinct(ops, s, k);
    ProjectInTime(ops, s, k);
    var t := Project(ops, s, k);
    forall p | 0 <= p < |t|
      ensures t[p] in OpsFor(ops, k) && !OpsFor(ops, k)[t[p]].status.Failed?
    {
      assert t[p] in t;
    }
  }

  // ---------------------------------------------------------------- merging two orders

  /** Some operation in s must come before i. */
  ghost predicate Blocked(ops: Ops, i: nat, s: seq<nat>)
    requires i in ops && Known(ops, s)
  {
    exists q :: 0 <= q < |s| && Precedes(ops[s[q]], ops[i])
  }

  /** Takes from s until something in t must come first. */
  ghost function Merge(ops: Ops, s: seq<nat>, t: seq<nat>): seq<nat>
    requires Known(ops, s) && Known(ops, t)
    decreases |s| + |t|
  {
    if s == [] then t
    else if t == [] then s
    else if Blocked(ops, s[0], t) then [t[0]] + Merge(ops, s, t[1..])
    else [s[0]] + Merge(ops, s[1..], t)
  }

  lemma {:induction false} MergeMembers(ops: Ops, s: seq<nat>, t: seq<nat>)
    requires Known(ops, s) && Known(ops, t)
    ensures forall i :: i in Merge(ops, s, t) <==> i in s || i in t
    ensures Known(ops, Merge(ops, s, t))
    decreases |s| + |t|
  {
    if s == [] || t == [] {
    } else if Blocked(ops, s[0], t) {
      MergeMembers(ops, s, t[1..]);
      assert forall i :: i in t <==> i == t[0] || i in t[1..];
    } else {
      MergeMembers(ops, s[1..], t);
      assert forall i :: i in s <==> i == s[0] || i in s[1..];
    }
    forall p | 0 <= p < |Merge(ops, s, t)|
      ensures Merge(ops, s, t)[p] in ops
    {
      assert Merge(ops, s, t)[p] in Merge(ops, s, t);
    }
  }

  lemma {:induction false} MergeDistinct(ops: Ops, s: seq<nat>, t: seq<nat>)
    requires Known(ops, s) && Known(ops, t)
    requires Distinct(s) && Distinct(t) && forall i :: i in s ==> i !in t
    ensures Distinct(Merge(ops, s, t))
    decreases |s| + |t|
  {
    if s == [] || t == [] {
    } else if Blocked(ops, s[0], t) {
      MergeDistinct(ops, s, t[1..]);
      MergeMembers(ops, s, t[1..]);
      assert t[0] !in t[1..];
    } else {
      MergeDistinct(ops, s[1..], t);
      MergeMembers(ops, s[1..], t);
      assert s[0] !in s[1..];
    }
  }

  /** The head the merge takes never has to wait for anything that is left. */
  lemma HeadIsFree(ops: Ops, s: seq<nat>, t: seq<nat>)
    requires ValidOps(ops) && Known(ops, s) && Known(ops, t)
    requires RealTime(ops, s) && RealTime(ops, t)
    requires s != [] && t != [] && Blocked(ops, s[0], t)
    ensures !Blocked(ops, t[0], s)
  {
    // were s[p] to end before t[0] began: t[0] began before t[q] ended, which was before s[0] began
    var q :| 0 <= q < |t| && Precedes(ops[t[q]], ops[s[0]]);
    assert ops[t[0]].invoked <= ops[t[q]].status.at by {
      if q > 0 {
        assert !Precedes(ops[t[q]], ops[t[0]]);
      }
    }
    forall p | 0 <= p < |s|
      ensures !Precedes(ops[s[p]], ops[t[0]])
    {
      if p > 0 {
        assert !Precedes(ops[s[p]], ops[s[0]]);
      }
    }
  }

  lemma {:induction false} MergeRealTime(ops: Ops, s: seq<nat>, t: seq<nat>)
    requires ValidOps(ops) && Known(ops, s) && Known(ops, t)
    requires RealTime(ops, s) && RealTime(ops, t)
    ensures Known(ops, Merge(ops, s, t)) && RealTime(ops, Merge(ops, s, t))
    decreases |s| + |t|
  {
    MergeMembers(ops, s, t);
    if s == [] || t == [] {
    } else if Blocked(ops, s[0], t) {
      HeadIsFree(ops, s, t);
      MergeRealTime(ops, s, t[1..]);
      MergeMembers(ops, s, t[1..]);
      ConsRealTime(ops, t[0], t, s, Merge(ops, s, t[1..]));
    } else {
      MergeRealTime(ops, s[1..], t);
      MergeMembers(ops, s[1..], t);
      ConsRealTime(ops, s[0], s, t, Merge(ops, s[1..], t));
    }
  }

  lemma ConsRealTime(ops: Ops, i: nat, own: seq<nat>, other: seq<nat>, m: seq<nat>)
    requires Known(ops, own) && Known(ops, other) && Known(ops, m)
    requires own != [] && i == own[0] && RealTime(ops, own) && !Blocked(ops, i, other)
    requires forall j :: j in m ==> j in own[1..] || j in other
    requires RealTime(ops, m)
    ensures RealTime(ops, [i] + m)
  {
    forall q | 0 <= q < |m|
      ensures !Precedes(ops[m[q]], ops[i])
    {
      if m[q] in own[1..] {
        var p :| 0 <= p < |own[1..]| && own[1..][p] == m[q];
        assert own[p + 1] == m[q];
      } else {
        assert m[q] in other;
      }
    }
  }

  lemma MergeKnown(ops: Ops, s: seq<nat>, t: seq<nat>)
    requires Known(ops, s) && Known(ops, t)
    ensures Known(ops, Merge(ops, s, t))
  {
    MergeMembers(ops, s, t);
  }

  lemma ProjectCons(ops: Ops, i: nat, s: seq<nat>, k: Key)
    requires i in ops && Known(ops, s)
    ensures Known(ops, [i] + s)
    ensures Project(ops, [i] + s, k) == (if ops[i].key == k then [i] else []) + Project(ops, s, k)
  {
    assert ([i] + s)[1..] == s;
  }

  ghost predicate Avoids(ops: Ops, s: seq<nat>, k: Key)
    requires Known(ops, s)
  {
    forall p :: 0 <= p < |s| ==> ops[s[p]].key != k
  }

  ghost predicate Keeps(ops: Ops, t: seq<nat>, k: Key)
    requires Known(ops, t)
  {
    forall p :: 0 <= p < |t| ==> ops[t[p]].key == k
  }

  lemma {:induction false} MergeProject(ops: Ops, s: seq<nat>, t: seq<nat>, k: Key, j: Key)
    requires Known(ops, s) && Known(ops, t) && Known(ops, Merge(ops, s, t))
    requires Avoids(ops, s, k) && Keeps(ops, t, k)
    ensures Project(ops, Merge(ops, s, t), j) == if j == k then t else Project(ops, s, j)
    decreases |s| + |t|
  {
    if s == [] {
      ProjectUniform(ops, t, k, j);
    } else if t == [] {
      if j == k { ProjectNone(ops, s, k); }
    } else if Blocked(ops, s[0], t) {
      MergeKnown(ops, s, t[1..]);
      MergeProject(ops, s, t[1..], k, j);
      AddsOwn(ops, t, Merge(ops, s, t[1..]), k, j, Project(ops, s, j));
    } else {
      MergeKnown(ops, s[1..], t);
      MergeProject(ops, s[1..], t, k, j);
      AddsOther(ops, s, Merge(ops, s[1..], t), k, j, t);
    }
  }

  lemma AddsOwn(ops: Ops, t: seq<nat>, m: seq<nat>, k: Key, j: Key, others: seq<nat>)
    requires t != [] && Known(ops, t) && Known(ops, m) && Keeps(ops, t, k)
    requires Project(ops, m, j) == if j == k then t[1..] else others
    ensures Known(ops, [t[0]] + m) && Project(ops, [t[0]] + m, j) == if j == k then t else others
  {
    ProjectCons(ops, t[0], m, j);
    assert [t[0]] + t[1..] == t;
  }

  lemma AddsOther(ops: Ops, s: seq<nat>, m: seq<nat>, k: Key, j: Key, own: seq<nat>)
    requires s != [] && Known(ops, s) && Known(ops, m) && Avoids(ops, s, k)
    requires Project(ops, m, j) == if j == k then own else Project(ops, s[1..], j)
    ensures Known(ops, [s[0]] + m) && Project(ops, [s[0]] + m, j) == if j == k then own else Project(ops, s, j)
  {
    ProjectCons(ops, s[0], m, j);
  }

  lemma {:induction false} ProjectUniform(ops: Ops, t: seq<nat>, k: Key, j: Key)
    requires Known(ops, t) && Keeps(ops, t, k)
    ensures Project(ops, t, j) == if j == k then t else []
  {
    if t != [] {
      ProjectUniform(ops, t[1..], k, j);
      assert [t[0]] + t[1..] == t;
    }
  }

  lemma {:induction false} ProjectNone(ops: Ops, s: seq<nat>, k: Key)
    requires Known(ops, s) && Avoids(ops, s, k)
    ensures Project(ops, s, k) == []
  {
    if s != [] {
      ProjectNone(ops, s[1..], k);
    }
  }

  // ---------------------------------------------------------------- locality

  function OpsIn(ops: Ops, ks: set<Key>): Ops {
    map i | i in ops && ops[i].key in ks :: ops[i]
  }

  /** An order of the operations on these keys in which every register accepts its share. */
  ghost predicate JointWitness(ops: Ops, ks: set<Key>, s: seq<nat>) {
    && Known(ops, s)
    && Orders(OpsIn(ops, ks), s)
    && forall k :: k in ks ==> Witness(OpsFor(ops, k), Project(ops, s, k))
  }

  lemma DisjointKeys(ops: Ops, ks: set<Key>, s: seq<nat>, k: Key, t: seq<nat>)
    requires k !in ks && Known(OpsIn(ops, ks), s) && Known(OpsFor(ops, k), t)
    ensures Known(ops, s) && Known(ops, t) && forall i :: i in s ==> i !in t
    ensures Avoids(ops, s, k) && Keeps(ops, t, k)
  {
  }

  lemma MergeOrders(ops: Ops, ks: set<Key>, s: seq<nat>, k: Key, t: seq<nat>)
    requires ValidOps(ops) && k !in ks
    requires Orders(OpsIn(ops, ks), s) && Orders(OpsFor(ops, k), t)
    requires Known(ops, s) && Known(ops, t)
    ensures Orders(OpsIn(ops, ks + {k}), Merge(ops, s, t))
  {
    var m, all := Merge(ops, s, t), OpsIn(ops, ks + {k});
    DisjointKeys(ops, ks, s, k, t);
    MergeMembers(ops, s, t);
    MergeRealTime(ops, s, t);
    MergeDistinct(ops, s, t);
    forall p | 0 <= p < |m|
      ensures m[p] in all && !all[m[p]].status.Failed?
    {
      assert m[p] in m;
    }
    forall i | i in all && all[i].status.Done?
      ensures i in m
    {
      assert i in OpsFor(ops, k) || i in OpsIn(ops, ks);
    }
  }

  lemma JoinOne(ops: Ops, ks: set<Key>, s: seq<nat>, k: Key, t: seq<nat>) returns (m: seq<nat>)
    requires ValidOps(ops) && k !in ks
    requires JointWitness(ops, ks, s) && Witness(OpsFor(ops, k), t)
    ensures JointWitness(ops, ks + {k}, m)
  {
    DisjointKeys(ops, ks, s, k, t);
    m := Merge(ops, s, t);
    MergeMembers(ops, s, t);
    MergeOrders(ops, ks, s, k, t);
    forall j | j in ks + {k}
      ensures Witness(OpsFor(ops, j), Project(ops, m, j))
    {
      MergeProject(ops, s, t, k, j);
    }
  }

  lemma {:induction false} JoinKeys(ops: Ops, ks: set<Key>) returns (s: seq<nat>)
    requires ValidOps(ops)
    requires forall k :: k in ks ==> LinearizableRegister(OpsFor(ops, k))
    ensures JointWitness(ops, ks, s)
    decreases |ks|
  {
    if k :| k in ks {
      var rest := JoinKeys(ops, ks - {k});
      var t :| Witness(OpsFor(ops, k), t);
      s := JoinOne(ops, ks - {k}, rest, k, t);
      assert ks - {k} + {k} == ks;
    } else {
      s := [];
    }
  }

  lemma WholeToKey(ops: Ops, s: seq<nat>, k: Key)
    requires MapWitness(ops, s)
    ensures Witness(OpsFor(ops, k), Project(ops, s, k))
  {
    ReplayMapIsPerKey(map[], KeyedFns(ops, s));
    assert Replay(At(map[], k), OnKey(KeyedFns(ops, s), k)).Consistent?;
    ProjectOrders(ops, s, k);
    ProjectFns(ops, s, k);
  }

  lemma KeysToWhole(ops: Ops) returns (s: seq<nat>)
    requires ValidOps(ops) && forall k :: LinearizableRegister(OpsFor(ops, k))
    ensures MapWitness(ops, s)
  {
    var ks := set i | i in ops :: ops[i].key;
    s := JoinKeys(ops, ks);
    assert OpsIn(ops, ks) == ops;
    forall k
      ensures Replay(At(map[], k), OnKey(KeyedFns(ops, s), k)).Consistent?
    {
      ProjectFns(ops, s, k);
      if k !in ks {
        ProjectNone(ops, s, k);
      }
    }
    ReplayMapIsPerKey(map[], KeyedFns(ops, s));
  }

  /** Locality: the whole is linearizable against a map of registers iff each key's part is against one. */
  lemma Locality(ops: Ops)
    requires ValidOps(ops)
    ensures LinearizableMap(ops) <==> forall k :: LinearizableRegister(OpsFor(ops, k))
  {
    if s :| MapWitness(ops, s) {
      forall k
        ensures LinearizableRegister(OpsFor(ops, k))
      {
        WholeToKey(ops, s, k);
      }
    }
    if forall k :: LinearizableRegister(OpsFor(ops, k)) {
      var s := KeysToWhole(ops);
    }
  }

  // ---------------------------------------------------------------- crashed reads

  predicate IsCrashedRead(op: Op) {
    op.status.Crashed? && op.f.Read?
  }

  /** The same operations, except that some crashed reads are recorded as failed. */
  ghost predicate FailsCrashedReads(ops: Ops, ops': Ops) {
    && ops'.Keys == ops.Keys
    && forall i :: i in ops ==>
         ops'[i] == ops[i] || (IsCrashedRead(ops[i]) && ops'[i] == ops[i].(status := Failed))
  }

  /** s without the operations recorded as failed. */
  function Surviving(ops: Ops, s: seq<nat>): seq<nat>
    requires forall p :: 0 <= p < |s| ==> s[p] in ops
  {
    if s == [] then []
    else (if ops[s[0]].status.Failed? then [] else [s[0]]) + Surviving(ops, s[1..])
  }

  lemma {:induction false} SurvivingMembers(ops: Ops, s: seq<nat>)
    requires Known(ops, s)
    ensures forall i :: i in Surviving(ops, s) <==> i in s && !ops[i].status.Failed?
    ensures Known(ops, Surviving(ops, s))
  {
    if s != [] {
      SurvivingMembers(ops, s[1..]);
    }
  }

  lemma {:induction false} SurvivingDistinct(ops: Ops, s: seq<nat>)
    requires Known(ops, s) && Distinct(s)
    ensures Distinct(Surviving(ops, s))
  {
    if s != [] {
      var rest := Surviving(ops, s[1..]);
      SurvivingDistinct(ops, s[1..]);
      if ops[s[0]].status.Failed? {
        assert Surviving(ops, s) == rest;
      } else {
        SurvivingMembers(ops, s[1..]);
        ConsDistinct(s, rest);
      }
    }
  }

  lemma {:induction false} SurvivingInTime(ops: Ops, s: seq<nat>)
    requires Known(ops, s) && RealTime(ops, s)
    ensures Known(ops, Surviving(ops, s)) && RealTime(ops, Surviving(ops, s))
  {
    if s != [] {
      var rest := Surviving(ops, s[1..]);
      SurvivingInTime(ops, s[1..]);
      if ops[s[0]].status.Failed? {
        assert Surviving(ops, s) == rest;
      } else {
        SurvivingMembers(ops, s[1..]);
        ConsInTime(ops, s, rest);
      }
    }
  }

  /** A read leaves the register as it was, so dropping reads never upsets a replay. */
  lemma {:induction false} SurvivingReplay(ops: Ops, ops': Ops, s: seq<nat>, value: Value)
    requires FailsCrashedReads(ops, ops') && Known(ops, s)
    requires forall p :: 0 <= p < |s| ==> !ops[s[p]].status.Failed?
    requires Replay(value, Fns(ops, s)).Consistent?
    ensures Known(ops', Surviving(ops', s))
    ensures Replay(value, Fns(ops', Surviving(ops', s))).Consistent?
    decreases |s|
  {
    SurvivingMembers(ops', s);
    if s != [] {
      assert Fns(ops, s)[1..] == Fns(ops, s[1..]);
      SurvivingReplay(ops, ops', s[1..], Step(value, ops[s[0]].f).state);
      if !ops'[s[0]].status.Failed? {
        assert Surviving(ops', s)[1..] == Surviving(ops', s[1..]);
        assert Fns(ops', Surviving(ops', s))[1..] == Fns(ops', Surviving(ops', s[1..]));
      } else {
        assert Surviving(ops', s) == Surviving(ops', s[1..]);
      }
    }
  }

  lemma {:induction false} SameFns(ops: Ops, ops': Ops, s: seq<nat>)
    requires FailsCrashedReads(ops, ops') && Known(ops, s)
    ensures Fns(ops, s) == Fns(ops', s)
  {
    if s != [] {
      SameFns(ops, ops', s[1..]);
    }
  }

  lemma WithoutFailed(ops: Ops, ops': Ops, s: seq<nat>)
    requires FailsCrashedReads(ops, ops') && Witness(ops, s)
    ensures Witness(ops', Surviving(ops', s))
  {
    SurvivingMembers(ops', s);
    SurvivingDistinct(ops', s);
    InTimeToo(ops, ops', s);
    SurvivingInTime(ops', s);
    SurvivingReplay(ops, ops', s, Nil);
    assert Orders(ops', Surviving(ops', s)) by {
      SurvivingNotFailed(ops', s);
    }
  }

  lemma InTimeToo(ops: Ops, ops': Ops, s: seq<nat>)
    requires FailsCrashedReads(ops, ops') && Known(ops, s) && RealTime(ops, s)
    ensures Known(ops', s) && RealTime(ops', s)
  {
  }

  lemma SurvivingNotFailed(ops: Ops, s: seq<nat>)
    requires Known(ops, s) && Known(ops, Surviving(ops, s))
    ensures forall p :: 0 <= p < |Surviving(ops, s)| ==> !ops[Surviving(ops, s)[p]].status.Failed?
  {
    SurvivingMembers(ops, s);
    forall p | 0 <= p < |Surviving(ops, s)|
      ensures !ops[Surviving(ops, s)[p]].status.Failed?
    {
      assert Surviving(ops, s)[p] in Surviving(ops, s);
    }
  }

  lemma StillWitness(ops: Ops, ops': Ops, s: seq<nat>)
    requires FailsCrashedReads(ops, ops') && Witness(ops', s)
    ensures Witness(ops, s)
  {
    SameFns(ops, ops', s);
  }

  /** Crashed reads may be recorded as failed: the verdict is the same. */
  lemma CrashedReadsMayFail(ops: Ops, ops': Ops)
    requires FailsCrashedReads(ops, ops')
    ensures LinearizableRegister(ops) <==> LinearizableRegister(ops')
  {
    if s :| Witness(ops, s) {
      WithoutFailed(ops, ops', s);
    }
    if s :| Witness(ops', s) {
      StillWitness(ops, ops', s);
    }
  }
}
