/**
 The set-union merge policy: two arrays merge into the ascending array of their elements. Replicas
 that keep merging each other's arrays agree as soon as they have heard from the same replicas.
 */
module SetUnionMerge {

  predicate Ascending(s: seq<int>) {
    forall i, j :: 0 <= i < j < |s| ==> s[i] < s[j]
  }

  function Elements(s: seq<int>): set<int> {
    set x | x in s
  }

  /** An ascending sequence is determined by its elements. */
  lemma {:induction false} AscendingUnique(s: seq<int>, t: seq<int>)
    requires Ascending(s) && Ascending(t) && Elements(s) == Elements(t)
    ensures s == t
  {
    assert s != [] ==> s[0] in Elements(s);
    assert t != [] ==> t[0] in Elements(t);
    if s != [] {
      assert s[0] == t[0];
      assert Elements(s[1..]) == Elements(s) - {s[0]};
      assert Elements(t[1..]) == Elements(t) - {t[0]};
      AscendingUnique(s[1..], t[1..]);
      assert s == [s[0]] + s[1..] && t == [t[0]] + t[1..];
    }
  }

  lemma ElementsConcat(s: seq<int>, t: seq<int>)
    ensures Elements(s + t) == Elements(s) + Elements(t)
  {
  }

  /** Adding to a tree set, kept as its ascending elements. */
  function Insert(tree: seq<int>, x: int): seq<int> {
    if tree == [] then [x]
    else if x < tree[0] then [x] + tree
    else if x == tree[0] then tree
    else [tree[0]] + Insert(tree[1..], x)
  }

  lemma {:induction false} InsertElements(tree: seq<int>, x: int)
    ensures Elements(Insert(tree, x)) == Elements(tree) + {x}
  {
    if tree == [] {
      assert Elements([x]) == {x};
    } else {
      assert tree == [tree[0]] + tree[1..];
      if x < tree[0] {
        ElementsConcat([x], tree);
      } else if x > tree[0] {
        InsertElements(tree[1..], x);
        ElementsConcat([tree[0]], tree[1..]);
        ElementsConcat([tree[0]], Insert(tree[1..], x));
      }
    }
  }

  lemma {:induction false} InsertAscends(tree: seq<int>, x: int)
    requires Ascending(tree)
    ensures Ascending(Insert(tree, x))
  {
    if tree != [] && x > tree[0] {
      InsertAscends(tree[1..], x);
      InsertElements(tree[1..], x);
      var r := Insert(tree[1..], x);
      forall j | 0 <= j < |r|
        ensures tree[0] < r[j]
      {
        assert r[j] in Elements(r);
      }
    }
  }

  function InsertAll(tree: seq<int>, s: seq<int>): seq<int> {
    if s == [] then tree else Insert(InsertAll(tree, s[..|s| - 1]), s[|s| - 1])
  }

  lemma {:induction false} InsertAllUnion(tree: seq<int>, s: seq<int>)
    requires Ascending(tree)
    ensures Ascending(InsertAll(tree, s))
    ensures Elements(InsertAll(tree, s)) == Elements(tree) + Elements(s)
  {
    if s != [] {
      InsertAllUnion(tree, s[..|s| - 1]);
      InsertAscends(InsertAll(tree, s[..|s| - 1]), s[|s| - 1]);
      InsertElements(InsertAll(tree, s[..|s| - 1]), s[|s| - 1]);
      assert s == s[..|s| - 1] + [s[|s| - 1]];
      ElementsConcat(s[..|s| - 1], [s[|s| - 1]]);
    }
  }

  /** The merge of two arrays' contents. */
  function Merged(a: seq<int>, b: seq<int>): seq<int> {
    InsertAll(InsertAll([], a), b)
  }

  lemma MergedIsUnion(a: seq<int>, b: seq<int>)
    ensures Ascending(Merged(a, b)) && Elements(Merged(a, b)) == Elements(a) + Elements(b)
  {
    InsertAllUnion([], a);
    InsertAllUnion(InsertAll([], a), b);
  }

  /** A null array counts as empty. */
  function Contents(a: array?<int>): seq<int>
    reads a
  {
    if a == null then [] else a[..]
  }

  /** Adds every element of an array to a tree set. */
  method AddAll(tree: seq<int>, a: array<int>) returns (merged: seq<int>)
    ensures merged == InsertAll(tree, a[..])
  {
    merged := tree;
    var i := 0;
    while i < a.Length
      invariant 0 <= i <= a.Length
      invariant merged == InsertAll(tree, a[..i])
    {
      assert a[..i + 1][..i] == a[..i];
      merged := Insert(merged, a[i]);
      i := i + 1;
    }
    assert a[..i] == a[..];
  }

  method ToArray(merged: seq<int>) returns (m: array<int>)
    ensures fresh(m) && m[..] == merged
  {
    m := new int[|merged|];
    var i := 0;
    while i < |merged|
      invariant 0 <= i <= |merged|
      invariant m[..i] == merged[..i]
    {
      m[i] := merged[i];
      i := i + 1;
    }
  }

  method Merge(merging: array?<int>, existing: array?<int>) returns (m: array<int>)
    ensures fresh(m)
    ensures m[..] == Merged(Contents(merging), Contents(existing))
    ensures Ascending(m[..])
    ensures Elements(m[..]) == Elements(Contents(merging)) + Elements(Contents(existing))
  {
    var a1, a2;
    if merging == null { a1 := new int[0]; } else { a1 := merging; }
    if existing == null { a2 := new int[0]; } else { a2 := existing; }
    var merged := AddAll([], a1);
    merged := AddAll(merged, a2);
    m := ToArray(merged);
    MergedIsUnion(Contents(merging), Contents(existing));
  }

  // ---------------------------------------------------------------- convergence

  /** One replica's array is merged into another's. */
  datatype Delivery = Delivery(source: nat, dest: nat)

  /** Each replica's array, whose initial arrays have reached it, and whether it ever merged. */
  datatype Replica = Replica(value: seq<int>, heard: set<nat>, merged: bool)

  function Start(init: seq<seq<int>>): seq<Replica> {
    seq(|init|, i requires 0 <= i < |init| => Replica(init[i], {i}, false))
  }

  function Deliver(rs: seq<Replica>, d: Delivery): seq<Replica>
    requires d.source < |rs| && d.dest < |rs|
  {
    var from, to := rs[d.source], rs[d.dest];
    rs[d.dest := Replica(Merged(from.value, to.value), from.heard + to.heard, true)]
  }

  predicate Within(run: seq<Delivery>, n: nat) {
    forall i :: 0 <= i < |run| ==> run[i].source < n && run[i].dest < n
  }

  function After(init: seq<seq<int>>, run: seq<Delivery>): (rs: seq<Replica>)
    requires Within(run, |init|)
    ensures |rs| == |init|
  {
    if run == [] then Start(init) else Deliver(After(init, run[..|run| - 1]), run[|run| - 1])
  }

  /** Everything in the initial arrays of these replicas. */
  function Union(init: seq<seq<int>>, hs: set<nat>): set<int> {
    set h, x | h in hs && h < |init| && x in init[h] :: x
  }

  ghost predicate Kept(init: seq<seq<int>>, r: Replica) {
    Elements(r.value) == Union(init, r.heard) && (r.merged ==> Ascending(r.value))
  }

  /** At every moment, a replica's array holds exactly what it has heard of. */
  lemma {:induction false} AlwaysKept(init: seq<seq<int>>, run: seq<Delivery>, i: nat)
    requires Within(run, |init|) && i < |init|
    ensures Kept(init, After(init, run)[i])
    decreases |run|
  {
    if run == [] {
      forall x
        ensures x in Elements(init[i]) <==> x in Union(init, {i})
      {
        assert i in {i};
      }
    } else {
      var before, d := run[..|run| - 1], run[|run| - 1];
      AlwaysKept(init, before, i);
      if i == d.dest {
        AlwaysKept(init, before, d.source);
        var rs := After(init, before);
        MergedIsUnion(rs[d.source].value, rs[d.dest].value);
        assert Union(init, rs[d.source].heard + rs[d.dest].heard) ==
               Union(init, rs[d.source].heard) + Union(init, rs[d.dest].heard);
      }
    }
  }

  /**
   Convergence: whatever was merged into what, in whatever order and however often, in one run or
   in two, replicas that have merged at all and heard from the same replicas hold the same array.
   */
  lemma Convergence(init: seq<seq<int>>, run: seq<Delivery>, i: nat, run': seq<Delivery>, j: nat)
    requires Within(run, |init|) && Within(run', |init|) && i < |init| && j < |init|
    requires After(init, run)[i].merged && After(init, run')[j].merged
    requires After(init, run)[i].heard == After(init, run')[j].heard
    ensures After(init, run)[i].value == After(init, run')[j].value
  {
    AlwaysKept(init, run, i);
    AlwaysKept(init, run', j);
    AscendingUnique(After(init, run)[i].value, After(init, run')[j].value);
  }
}
