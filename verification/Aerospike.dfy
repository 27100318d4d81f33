/**
 The Aerospike membership protocol: servers learn of each other through heartbeats sent over a
 network that drops and duplicates messages, and each decides from its own view whether a quorum
 is available.
 */
module Aerospike {

  type Server = int

  datatype Message = Heartbeat(source: Server, dest: Server)

  /** The roster, how many of its first nodes are replicas, and the order that makes them first. */
  datatype Config = Config(roster: set<Server>, replicationFactor: nat, order: map<Server, int>)

  ghost predicate ValidConfig(c: Config) {
    && c.roster <= c.order.Keys
    && forall s, t :: s in c.roster && t in c.roster && c.order[s] == c.order[t] ==> s == t
  }

  /** The network is a multiset of messages; clusters holds each server's view. */
  datatype State = State(net: map<Message, int>, clusters: map<Server, set<Server>>)

  // ---------------------------------------------------------------- the network

  function AddMessage(net: map<Message, int>, m: Message): map<Message, int> {
    if m in net then net[m := net[m] + 1] else net[m := 1]
  }

  function RemoveMessage(net: map<Message, int>, m: Message): map<Message, int> {
    if m !in net then net
    else if net[m] == 1 then net - {m}
    else net[m := net[m] - 1]
  }

  // ---------------------------------------------------------------- succession and quorum

  ghost predicate IsFirst(c: Config, ss: set<Server>, s: Server)
    requires ss <= c.order.Keys
  {
    s in ss && forall t :: t in ss ==> c.order[s] <= c.order[t]
  }

  lemma Some<T>(ss: set<T>) returns (s: T)
    requires ss != {}
    ensures s in ss
  {
    s :| s in ss;
  }

  lemma {:induction false} FirstExists(c: Config, ss: set<Server>) returns (s: Server)
    requires ss <= c.order.Keys && ss != {}
    ensures IsFirst(c, ss, s)
    decreases |ss|
  {
    s := Some(ss);
    if ss != {s} {
      var t := FirstExists(c, ss - {s});
      if c.order[t] < c.order[s] {
        s := t;
      }
    }
  }

  /** The servers in ascending succession order. */
  ghost function SuccessionList(c: Config, ss: set<Server>): (list: seq<Server>)
    requires ss <= c.order.Keys
    ensures forall s :: s in list <==> s in ss
    ensures ss != {} ==> list != [] && IsFirst(c, ss, list[0])
    decreases |ss|
  {
    if ss == {} then []
    else
      assert exists first :: IsFirst(c, ss, first) by {
        var first := FirstExists(c, ss);
      }
      var first :| IsFirst(c, ss, first);
      [first] + SuccessionList(c, ss - {first})
  }

  /** The list is the set in strictly ascending succession order, each server once. */
  lemma {:induction false} SuccessionSorted(c: Config, ss: set<Server>)
    requires ValidConfig(c) && ss <= c.roster
    ensures var list := SuccessionList(c, ss);
            && |list| == |ss|
            && forall i, j :: 0 <= i < j < |list| ==> list[i] in ss && list[j] in ss && c.order[list[i]] < c.order[list[j]]
    decreases |ss|
  {
    if ss != {} {
      var list := SuccessionList(c, ss);
      var rest := ss - {list[0]};
      SuccessionSorted(c, rest);
      assert list[1..] == SuccessionList(c, rest);
      forall i, j | 0 <= i < j < |list|
        ensures list[i] in ss && list[j] in ss && c.order[list[i]] < c.order[list[j]]
      {
        assert list[j] == list[1..][j - 1] && list[1..][j - 1] in rest;
        if i > 0 {
          assert list[i] == list[1..][i - 1];
        }
      }
    }
  }

  ghost function RosterReplicas(c: Config): set<Server>
    requires ValidConfig(c)
  {
    var list := SuccessionList(c, c.roster);
    set i | 0 <= i < |list| && i < c.replicationFactor :: list[i]
  }

  /** The roster members that come before s. */
  ghost function Ahead(c: Config, s: Server): set<Server>
    requires ValidConfig(c) && s in c.roster
  {
    set t | t in c.roster && c.order[t] < c.order[s]
  }

  /** The first i servers of the list are those ahead of the next. */
  lemma AheadOfPlace(c: Config, i: nat)
    requires ValidConfig(c) && i < |c.roster|
    ensures var list := SuccessionList(c, c.roster);
            |list| == |c.roster| && list[i] in c.roster && |Ahead(c, list[i])| == i
  {
    var list := SuccessionList(c, c.roster);
    SuccessionSorted(c, c.roster);
    assert list[i] in list;
    Places(list, i);
    var first := set j | 0 <= j < i :: list[j];
    forall t
      ensures t in first <==> t in Ahead(c, list[i])
    {
      if t in c.roster {
        var j :| 0 <= j < |list| && list[j] == t;
        EarlierIff(c, list, i, j);
        assert t in first ==> exists p :: 0 <= p < i && list[p] == t;
      }
    }
    assert first == Ahead(c, list[i]);
  }

  lemma EarlierIff(c: Config, list: seq<Server>, i: nat, j: nat)
    requires i < |list| && j < |list| && forall p :: 0 <= p < |list| ==> list[p] in c.order
    requires forall p, q :: 0 <= p < q < |list| ==> c.order[list[p]] < c.order[list[q]]
    ensures c.order[list[j]] < c.order[list[i]] <==> j < i
    ensures list[j] == list[i] <==> j == i
  {
  }

  /** Distinct servers, counted. */
  lemma {:induction false} Places(list: seq<Server>, i: nat)
    requires i <= |list| && forall p, q :: 0 <= p < q < |list| ==> list[p] != list[q]
    ensures |set j | 0 <= j < i :: list[j]| == i
  {
    if i > 0 {
      Places(list, i - 1);
      var most := set j | 0 <= j < i - 1 :: list[j];
      assert (set j | 0 <= j < i :: list[j]) == most + {list[i - 1]};
    }
  }

  /** The roster replicas are the members with fewer than replicationFactor members ahead of them. */
  lemma ReplicasByRank(c: Config, s: Server)
    requires ValidConfig(c)
    ensures s in RosterReplicas(c) <==> s in c.roster && |Ahead(c, s)| < c.replicationFactor
  {
    var list := SuccessionList(c, c.roster);
    SuccessionSorted(c, c.roster);
    if s in c.roster {
      var i :| 0 <= i < |list| && list[i] == s;
      AheadOfPlace(c, i);
      forall j | 0 <= j < |list| && list[j] == s
        ensures j == i
      {
        AheadOfPlace(c, j);
      }
    }
  }

  /** The roster master is the member with nobody ahead. */
  lemma MasterByRank(c: Config, s: Server)
    requires ValidConfig(c)
    ensures IsRosterMaster(c, s) <==> s in c.roster && Ahead(c, s) == {}
  {
    if s in c.roster {
      var first := SuccessionList(c, c.roster)[0];
      assert IsFirst(c, c.roster, first);
      if s == first {
        forall t
          ensures t !in Ahead(c, s)
        {
          assert t in c.roster ==> c.order[s] <= c.order[t];
        }
      } else {
        assert first in Ahead(c, s);
      }
    }
  }

  /**
   The quorum rule in counts and ranks: more than half of the roster with one of the first
   replicationFactor members, or exactly half with the very first.
   */
  lemma QuorumIff(c: Config, cluster: set<Server>)
    requires ValidConfig(c)
    ensures IsQuorum(c, cluster) <==>
            || (|cluster| + |cluster| > |c.roster| &&
                exists s :: s in cluster && s in c.roster && |Ahead(c, s)| < c.replicationFactor)
            || (|cluster| + |cluster| == |c.roster| && exists s :: s in cluster && s in c.roster && Ahead(c, s) == {})
  {
    forall s
      ensures s in RosterReplicas(c) <==> s in c.roster && |Ahead(c, s)| < c.replicationFactor
      ensures IsRosterMaster(c, s) <==> s in c.roster && Ahead(c, s) == {}
    {
      ReplicasByRank(c, s);
      MasterByRank(c, s);
    }
  }

  ghost predicate IsRosterMaster(c: Config, s: Server)
    requires ValidConfig(c)
  {
    var list := SuccessionList(c, c.roster);
    list != [] && s == list[0]
  }

  ghost predicate HasARosterReplica(c: Config, cluster: set<Server>)
    requires ValidConfig(c)
  {
    exists s :: s in cluster && s in RosterReplicas(c)
  }

  ghost predicate HasRosterMaster(c: Config, cluster: set<Server>)
    requires ValidConfig(c)
  {
    exists s :: s in cluster && IsRosterMaster(c, s)
  }

  predicate HasMajority(c: Config, cluster: set<Server>) {
    |cluster| * 2 > |c.roster|
  }

  predicate HasHalf(c: Config, cluster: set<Server>) {
    |cluster| * 2 == |c.roster|
  }

  ghost predicate IsQuorum(c: Config, cluster: set<Server>)
    requires ValidConfig(c)
  {
    || (HasMajority(c, cluster) && HasARosterReplica(c, cluster))
    || (HasHalf(c, cluster) && HasRosterMaster(c, cluster))
  }

  ghost predicate HasQuorum(c: Config, st: State, s: Server)
    requires ValidConfig(c) && s in st.clusters
  {
    IsQuorum(c, st.clusters[s])
  }

  // ---------------------------------------------------------------- steps and runs

  datatype Action = Drop(m: Message) | Duplicate(m: Message) | Send(source: Server, dest: Server) | Receive(m: Message)

  predicate Enabled(c: Config, st: State, a: Action) {
    match a
    case Send(source, dest) => source in c.roster && dest in c.roster
    case _ => a.m in st.net
  }

  function Apply(st: State, a: Action): State {
    match a
    case Drop(m) => st.(net := RemoveMessage(st.net, m))
    case Duplicate(m) => st.(net := AddMessage(st.net, m))
    case Send(source, dest) => st.(net := AddMessage(st.net, Heartbeat(source, dest)))
    case Receive(m) =>
      State(RemoveMessage(st.net, m),
            if m.dest in st.clusters then st.clusters[m.dest := st.clusters[m.dest] + {m.source}] else st.clusters)
  }

  function Init(c: Config): State {
    State(map[], map s | s in c.roster :: {s})
  }

  function After(c: Config, run: seq<Action>): State {
    if run == [] then Init(c) else Apply(After(c, run[..|run| - 1]), run[|run| - 1])
  }

  /** Every action of the run was enabled when it was taken. */
  predicate IsRun(c: Config, run: seq<Action>) {
    run != [] ==>
      var before := run[..|run| - 1];
      IsRun(c, before) && Enabled(c, After(c, before), run[|run| - 1])
  }

  lemma RunSnoc(c: Config, run: seq<Action>, a: Action)
    requires IsRun(c, run)
    ensures After(c, run + [a]) == Apply(After(c, run), a)
    ensures IsRun(c, run + [a]) <==> Enabled(c, After(c, run), a)
  {
    assert (run + [a])[..|run|] == run;
  }

  // ---------------------------------------------------------------- conservation and evidence

  function Count(run: seq<Action>, a: Action): nat {
    if run == [] then 0 else Count(run[..|run| - 1], a) + if run[|run| - 1] == a then 1 else 0
  }

  function InFlight(st: State, m: Message): int {
    if m in st.net then st.net[m] else 0
  }

  ghost predicate PositiveCounts(st: State) {
    forall m :: m in st.net ==> st.net[m] >= 1
  }

  /** Message accounting: what was put in is in flight, was received, or was dropped. */
  lemma {:induction false} Conservation(c: Config, run: seq<Action>, m: Message)
    requires IsRun(c, run)
    ensures PositiveCounts(After(c, run))
    ensures Count(run, Send(m.source, m.dest)) + Count(run, Duplicate(m)) ==
            InFlight(After(c, run), m) + Count(run, Receive(m)) + Count(run, Drop(m))
  {
    if run != [] {
      Conservation(c, run[..|run| - 1], m);
    }
  }

  lemma {:induction false} InFlightWasSent(c: Config, run: seq<Action>, m: Message)
    requires IsRun(c, run) && m in After(c, run).net
    ensures Send(m.source, m.dest) in run && m.source in c.roster && m.dest in c.roster
  {
    var before := run[..|run| - 1];
    if m in After(c, before).net {
      InFlightWasSent(c, before, m);
    } else {
      assert run[|run| - 1] == Send(m.source, m.dest);
    }
  }

  /** Whatever is in flight can be dropped, duplicated or received next, one copy at a time. */
  lemma NetworkMoves(c: Config, run: seq<Action>, m: Message)
    requires IsRun(c, run) && m in After(c, run).net
    ensures IsRun(c, run + [Drop(m)]) && InFlight(After(c, run + [Drop(m)]), m) == InFlight(After(c, run), m) - 1
    ensures IsRun(c, run + [Duplicate(m)]) && InFlight(After(c, run + [Duplicate(m)]), m) == InFlight(After(c, run), m) + 1
    ensures IsRun(c, run + [Receive(m)]) && InFlight(After(c, run + [Receive(m)]), m) == InFlight(After(c, run), m) - 1
  {
    RunSnoc(c, run, Drop(m));
    RunSnoc(c, run, Duplicate(m));
    RunSnoc(c, run, Receive(m));
  }

  /** A server's view is itself and exactly those it received a heartbeat from. */
  lemma {:induction false} ViewIsEvidence(c: Config, run: seq<Action>, s: Server)
    requires IsRun(c, run) && s in c.roster
    ensures s in After(c, run).clusters
    ensures forall t :: t in After(c, run).clusters[s] <==> t == s || Receive(Heartbeat(t, s)) in run
  {
    if run != [] {
      var before, a := run[..|run| - 1], run[|run| - 1];
      ViewIsEvidence(c, before, s);
      assert forall b :: b in run <==> b in before || b == a;
    }
  }

  /** Whatever was received had been sent before. */
  lemma {:induction false} ReceivedWasSent(c: Config, run: seq<Action>, i: nat)
    requires IsRun(c, run) && i < |run| && run[i].Receive?
    ensures var m := run[i].m; m.source in c.roster && m.dest in c.roster && Send(m.source, m.dest) in run[..i]
    decreases |run|
  {
    var before := run[..|run| - 1];
    if i == |run| - 1 {
      InFlightWasSent(c, before, run[i].m);
    } else {
      ReceivedWasSent(c, before, i);
      assert before[..i] == run[..i];
    }
  }

  lemma ViewWithinRoster(c: Config, run: seq<Action>, s: Server)
    requires IsRun(c, run) && s in c.roster
    ensures s in After(c, run).clusters && After(c, run).clusters[s] <= c.roster
  {
    ViewIsEvidence(c, run, s);
    forall t | t in After(c, run).clusters[s]
      ensures t in c.roster
    {
      if t != s {
        var i :| 0 <= i < |run| && run[i] == Receive(Heartbeat(t, s));
        ReceivedWasSent(c, run, i);
      }
    }
  }

  // ---------------------------------------------------------------- quorums intersect

  lemma SubsetSize<T>(a: set<T>, b: set<T>)
    requires a <= b
    ensures |a| <= |b|
    ensures |a| == |b| ==> a == b
  {
    assert b == a + (b - a);
  }

  lemma QuorumSetsIntersect(c: Config, a: set<Server>, b: set<Server>)
    requires ValidConfig(c) && a <= c.roster && b <= c.roster
    requires IsQuorum(c, a) && IsQuorum(c, b)
    ensures a * b != {}
  {
    SubsetSize(a + b, c.roster);
    if HasHalf(c, a) && HasHalf(c, b) {
      var s :| s in a && IsRosterMaster(c, s);
      var t :| t in b && IsRosterMaster(c, t);
      assert s in a * b;
    } else {
      assert |a + b| + |a * b| == |a| + |b|;
    }
  }

  /** In every reachable state, any two servers that see a quorum have overlapping views. */
  lemma QuorumsIntersect(c: Config, run: seq<Action>, s: Server, t: Server)
    requires ValidConfig(c) && IsRun(c, run) && s in c.roster && t in c.roster
    ensures var st := After(c, run);
            && s in st.clusters && t in st.clusters
            && (HasQuorum(c, st, s) && HasQuorum(c, st, t) ==> st.clusters[s] * st.clusters[t] != {})
  {
    ViewWithinRoster(c, run, s);
    ViewWithinRoster(c, run, t);
    var st := After(c, run);
    if HasQuorum(c, st, s) && HasQuorum(c, st, t) {
      QuorumSetsIntersect(c, st.clusters[s], st.clusters[t]);
    }
  }

  /** No heartbeat in the run was received across the split. */
  ghost predicate RespectsSplit(run: seq<Action>, side: set<Server>) {
    forall i :: 0 <= i < |run| && run[i].Receive? ==> (run[i].m.source in side <==> run[i].m.dest in side)
  }

  /** While the roster stays split in two, at most one side has servers that see a quorum. */
  lemma NoSplitBrain(c: Config, run: seq<Action>, side: set<Server>, s: Server, t: Server)
    requires ValidConfig(c) && IsRun(c, run) && RespectsSplit(run, side)
    requires s in c.roster && s in side && t in c.roster && t !in side
    ensures var st := After(c, run);
            s in st.clusters && t in st.clusters && !(HasQuorum(c, st, s) && HasQuorum(c, st, t))
  {
    QuorumsIntersect(c, run, s, t);
    ViewIsEvidence(c, run, s);
    ViewIsEvidence(c, run, t);
    var st := After(c, run);
    forall u
      ensures !(u in st.clusters[s] && u in st.clusters[t])
    {
      if u in st.clusters[s] && u != s {
        var i :| 0 <= i < |run| && run[i] == Receive(Heartbeat(u, s));
        assert run[i].m.source in side;
      }
      if u in st.clusters[t] && u != t {
        var i :| 0 <= i < |run| && run[i] == Receive(Heartbeat(u, t));
        assert run[i].m.source !in side;
      }
    }
    assert st.clusters[s] * st.clusters[t] == {};
  }

  // ---------------------------------------------------------------- quorums are stable

  lemma QuorumGrows(c: Config, a: set<Server>, b: set<Server>)
    requires ValidConfig(c) && c.replicationFactor >= 1
    requires a <= b && IsQuorum(c, a)
    ensures IsQuorum(c, b)
  {
    SubsetSize(a, b);
    if HasMajority(c, a) {
      var s :| s in a && s in RosterReplicas(c);
      assert s in b;
    } else {
      var s :| s in a && IsRosterMaster(c, s);
      assert s in b && s in RosterReplicas(c);
    }
  }

  lemma {:induction false} ViewsGrow(c: Config, run: seq<Action>, more: seq<Action>, s: Server)
    requires IsRun(c, run + more) && s in c.roster
    ensures IsRun(c, run)
    ensures s in After(c, run).clusters && s in After(c, run + more).clusters
    ensures After(c, run).clusters[s] <= After(c, run + more).clusters[s]
  {
    if more == [] {
      assert run + more == run;
      ViewIsEvidence(c, run, s);
    } else {
      var most := more[..|more| - 1];
      assert (run + more)[..|run + more| - 1] == run + most;
      ViewsGrow(c, run, most, s);
    }
  }

  /** With at least one replica, a server that sees a quorum keeps seeing one. */
  lemma QuorumIsStable(c: Config, run: seq<Action>, more: seq<Action>, s: Server)
    requires ValidConfig(c) && c.replicationFactor >= 1
    requires IsRun(c, run + more) && s in c.roster
    ensures s in After(c, run).clusters && s in After(c, run + more).clusters
    ensures HasQuorum(c, After(c, run), s) ==> HasQuorum(c, After(c, run + more), s)
  {
    ViewsGrow(c, run, more, s);
    if HasQuorum(c, After(c, run), s) {
      QuorumGrows(c, After(c, run).clusters[s], After(c, run + more).clusters[s]);
    }
  }

  // ---------------------------------------------------------------- exactly when quorums are stable

  ghost predicate AlwaysStable(c: Config)
    requires ValidConfig(c)
  {
    forall run, more, s |
      && IsRun(c, run + more) && s in c.roster
      && s in After(c, run).clusters && s in After(c, run + more).clusters
      && HasQuorum(c, After(c, run), s) :: HasQuorum(c, After(c, run + more), s)
  }

  lemma HearOne(c: Config, run: seq<Action>, s: Server, t: Server) returns (run': seq<Action>)
    requires IsRun(c, run) && s in c.roster && t in c.roster
    ensures run <= run' && IsRun(c, run')
    ensures s in After(c, run).clusters && s in After(c, run').clusters
    ensures After(c, run').clusters[s] == After(c, run).clusters[s] + {t}
  {
    ViewIsEvidence(c, run, s);
    var sent := run + [Send(t, s)];
    RunSnoc(c, run, Send(t, s));
    run' := sent + [Receive(Heartbeat(t, s))];
    RunSnoc(c, sent, Receive(Heartbeat(t, s)));
  }

  /** From any run, a server can hear from any set of others. */
  lemma {:induction false} HearFrom(c: Config, run: seq<Action>, s: Server, ts: set<Server>) returns (run': seq<Action>)
    requires IsRun(c, run) && s in c.roster && ts <= c.roster
    ensures run <= run' && IsRun(c, run')
    ensures s in After(c, run).clusters && s in After(c, run').clusters
    ensures After(c, run').clusters[s] == After(c, run).clusters[s] + ts
    decreases |ts|
  {
    if ts == {} {
      ViewIsEvidence(c, run, s);
      run' := run;
    } else {
      var t := Some(ts);
      var next := HearOne(c, run, s, t);
      run' := HearFrom(c, next, s, ts - {t});
      var view := After(c, run).clusters[s];
      assert view + {t} + (ts - {t}) == view + ts;
    }
  }

  lemma {:induction false} SubsetOfSize(ss: set<Server>, n: nat) returns (ts: set<Server>)
    requires n <= |ss|
    ensures ts <= ss && |ts| == n
  {
    if n == 0 {
      ts := {};
    } else {
      var t := Some(ss);
      var rest := SubsetOfSize(ss - {t}, n - 1);
      ts := rest + {t};
    }
  }

  /** A half of the roster around its master, and a server outside it. */
  lemma HalfWithMaster(c: Config) returns (s: Server, ts: set<Server>, u: Server)
    requires ValidConfig(c) && c.replicationFactor == 0 && |c.roster| > 0 && |c.roster| % 2 == 0
    ensures s in c.roster && ts <= c.roster && u in c.roster
    ensures IsQuorum(c, {s} + ts) && !IsQuorum(c, {s} + ts + {u})
  {
    s := SuccessionList(c, c.roster)[0];
    var others := c.roster - {s};
    ts := SubsetOfSize(others, |c.roster| / 2 - 1);
    var view := {s} + ts;
    assert |view| == |c.roster| / 2;
    assert s in view && IsRosterMaster(c, s);
    assert |others - ts| == |others| - |ts|;
    u := Some(others - ts);
    assert |view + {u}| == |view| + 1;
  }

  /** Without replicas, an even roster lets its master gain a quorum at half and lose it at more. */
  lemma QuorumCanBeLost(c: Config)
    requires ValidConfig(c) && c.replicationFactor == 0 && |c.roster| > 0 && |c.roster| % 2 == 0
    ensures !AlwaysStable(c)
  {
    var s, ts, u := HalfWithMaster(c);
    var run := HearFrom(c, [], s, ts);
    assert After(c, run).clusters[s] == {s} + ts;
    var longer := HearOne(c, run, s, u);
    var more := longer[|run|..];
    assert longer == run + more;
    assert HasQuorum(c, After(c, run), s) && !HasQuorum(c, After(c, run + more), s);
  }

  /** Quorum never turns into no quorum, on any run, exactly for these configurations. */
  lemma StableIff(c: Config)
    requires ValidConfig(c)
    ensures AlwaysStable(c) <==> c.replicationFactor >= 1 || |c.roster| % 2 == 1 || c.roster == {}
  {
    if c.replicationFactor >= 1 {
      forall run, more, s | IsRun(c, run + more) && s in c.roster
        && s in After(c, run).clusters && s in After(c, run + more).clusters
        && HasQuorum(c, After(c, run), s)
        ensures HasQuorum(c, After(c, run + more), s)
      {
        QuorumIsStable(c, run, more, s);
      }
    } else if |c.roster| % 2 == 1 || c.roster == {} {
      assert RosterReplicas(c) == {};
    } else {
      QuorumCanBeLost(c);
    }
  }
}
