/** The compare-and-set register model, and the map of such registers that keyed tests lift it to. */
module CasRegister {

  type Key = int

  datatype Value = Nil | Num(n: int)

  datatype Fn = Read(v: Value) | Write(v: Value) | Cas(cur: Value, next: Value)

  datatype Model<M> = Consistent(state: M) | Inconsistent

  function Step(value: Value, f: Fn): Model<Value> {
    match f
    case Write(v) => Consistent(v)
    case Cas(cur, next) => if cur == value then Consistent(next) else Inconsistent
    case Read(v) => if v == Nil || v == value then Consistent(value) else Inconsistent
  }

  /** The model reduced over a sequence of operations. */
  function Replay(value: Value, fs: seq<Fn>): Model<Value>
    decreases |fs|
  {
    if fs == [] then Consistent(value)
    else
      match Step(value, fs[0])
      case Inconsistent => Inconsistent
      case Consistent(next) => Replay(next, fs[1..])
  }

  /** What the last write or compare-and-set before the i-th operation put there, or else the initial value. */
  function Latest(value: Value, fs: seq<Fn>, i: nat): Value
    requires i <= |fs|
  {
    if i == 0 then value
    else
      match fs[i - 1]
      case Write(v) => v
      case Cas(_, next) => next
      case Read(_) => Latest(value, fs, i - 1)
  }

  /** The i-th operation saw the latest value: a compare-and-set found it, and a read returned it or nothing. */
  predicate SawLatest(value: Value, fs: seq<Fn>, i: nat)
    requires i < |fs|
  {
    match fs[i]
    case Write(_) => true
    case Cas(cur, _) => cur == Latest(value, fs, i)
    case Read(v) => v == Nil || v == Latest(value, fs, i)
  }

  lemma {:induction false} LatestRest(value: Value, fs: seq<Fn>, i: nat)
    requires 0 < i <= |fs|
    ensures Latest(value, fs, i) == Latest(Latest(value, fs, 1), fs[1..], i - 1)
  {
    if i > 1 {
      LatestRest(value, fs, i - 1);
      assert fs[1..][i - 2] == fs[i - 1];
    }
  }

  /** A register accepts a sequence if and only if every operation saw the latest value; that is what it ends with. */
  lemma {:induction false} ReplayIff(value: Value, fs: seq<Fn>)
    ensures Replay(value, fs).Consistent? <==> forall i :: 0 <= i < |fs| ==> SawLatest(value, fs, i)
    ensures Replay(value, fs).Consistent? ==> Replay(value, fs).state == Latest(value, fs, |fs|)
    decreases |fs|
  {
    if fs != [] {
      var next, rest := Latest(value, fs, 1), fs[1..];
      assert Latest(value, fs, 0) == value;
      assert SawLatest(value, fs, 0) <==> Step(value, fs[0]) == Consistent(next);
      ReplayIff(next, rest);
      forall i | 0 <= i < |rest|
        ensures SawLatest(next, rest, i) <==> SawLatest(value, fs, i + 1)
      {
        LatestRest(value, fs, i + 1);
      }
      LatestRest(value, fs, |fs|);
      forall i | 0 < i < |fs|
        ensures SawLatest(value, fs, i) <==> SawLatest(next, rest, i - 1)
      {
        assert SawLatest(next, rest, i - 1) <==> SawLatest(value, fs, i - 1 + 1);
      }
    }
  }

  /** Registers that were never touched hold nil. */
  function At(m: map<Key, Value>, k: Key): Value {
    if k in m then m[k] else Nil
  }

  function StepMap(m: map<Key, Value>, k: Key, f: Fn): Model<map<Key, Value>> {
    match Step(At(m, k), f)
    case Inconsistent => Inconsistent
    case Consistent(v) => Consistent(m[k := v])
  }

  function ReplayMap(m: map<Key, Value>, kfs: seq<(Key, Fn)>): Model<map<Key, Value>>
    decreases |kfs|
  {
    if kfs == [] then Consistent(m)
    else
      match StepMap(m, kfs[0].0, kfs[0].1)
      case Inconsistent => Inconsistent
      case Consistent(next) => ReplayMap(next, kfs[1..])
  }

  /** The operations on one key, in order. */
  function OnKey(kfs: seq<(Key, Fn)>, k: Key): seq<Fn> {
    if kfs == [] then []
    else (if kfs[0].0 == k then [kfs[0].1] else []) + OnKey(kfs[1..], k)
  }

  /** A map of registers accepts a sequence exactly when every register accepts its own share. */
  lemma {:induction false} ReplayMapIsPerKey(m: map<Key, Value>, kfs: seq<(Key, Fn)>)
    ensures ReplayMap(m, kfs).Consistent? <==> forall k :: Replay(At(m, k), OnKey(kfs, k)).Consistent?
    decreases |kfs|
  {
    if kfs != [] {
      var (k0, f) := kfs[0];
      match Step(At(m, k0), f)
      case Inconsistent =>
        assert OnKey(kfs, k0)[0] == f;
        assert Replay(At(m, k0), OnKey(kfs, k0)).Inconsistent?;
      case Consistent(v) =>
        var next := m[k0 := v];
        ReplayMapIsPerKey(next, kfs[1..]);
        forall k
          ensures Replay(At(m, k), OnKey(kfs, k)) == Replay(At(next, k), OnKey(kfs[1..], k))
        {
          if k == k0 {
            assert OnKey(kfs, k)[0] == f && OnKey(kfs, k)[1..] == OnKey(kfs[1..], k);
          } else {
            assert OnKey(kfs, k) == OnKey(kfs[1..], k);
          }
        }
    }
  }
}
