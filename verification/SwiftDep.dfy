/** Dependencies of SwiftPaxos as lists of commands, how they are compared, and what a quorum of acks
    certifies (swift/defs.go, swift/dpath.go, and the accept function of swift/swift.go). */
module SwiftDep {
  import opened CommandIds
  import opened Options
  import opened Sequences
  import opened HashLogSpec
  import opened Quorum
  import MS = MsgSet

  type Dep = seq<CommandId>

  ghost function SetOf(d: Dep): set<CommandId> {
    set c | c in d
  }

  method Contains(d: Dep, cmdId: CommandId) returns (found: bool)
    ensures found <==> cmdId in SetOf(d)
  {
    for i := 0 to |d|
      invariant cmdId !in d[..i]
    {
      if d[i] == cmdId {
        return true;
      }
    }
    return false;
  }

  function NilDepOfCmdId(cmdId: CommandId): Dep {
    [cmdId]
  }

  predicate IsNilDepOfCmdId(cmdId: CommandId, dep: Dep) {
    |dep| == 1 && dep[0] == cmdId
  }

  // ---------------------------------------------------------------- comparing dependencies

  /** What is seen on one side only, so far. */
  datatype Seen = Seen(seen1: set<CommandId>, seen2: set<CommandId>)

  function See1(s: Seen, c: CommandId): Seen {
    if c in s.seen2 then s.(seen2 := s.seen2 - {c}) else s.(seen1 := s.seen1 + {c})
  }

  function See2(s: Seen, c: CommandId): Seen {
    if c in s.seen1 then s.(seen1 := s.seen1 - {c}) else s.(seen2 := s.seen2 + {c})
  }

  function SeeBoth(s: Seen, dep1: Dep, dep2: Dep, i: nat): Seen {
    if i < |dep1| && i < |dep2| && dep1[i] == dep2[i] then s
    else
      var s1 := if i < |dep1| then See1(s, dep1[i]) else s;
      if i < |dep2| then See2(s1, dep2[i]) else s1
  }

  /** The two sets after the first n positions. */
  function SeenUpTo(dep1: Dep, dep2: Dep, n: nat): Seen {
    if n == 0 then Seen({}, {}) else SeeBoth(SeenUpTo(dep1, dep2, n - 1), dep1, dep2, n - 1)
  }

  function Longer(dep1: Dep, dep2: Dep): nat {
    if |dep1| < |dep2| then |dep2| else |dep1|
  }

  predicate SameDep(dep1: Dep, dep2: Dep) {
    |dep1| == |dep2| && SeenUpTo(dep1, dep2, |dep1|) == Seen({}, {})
  }

  method Equals(dep1: Dep, dep2: Dep) returns (same: bool)
    ensures same <==> SameDep(dep1, dep2)
  {
    if |dep1| != |dep2| {
      return false;
    }
    var seen1, seen2 := {}, {};
    for i := 0 to |dep1|
      invariant SeenUpTo(dep1, dep2, i) == Seen(seen1, seen2)
    {
      if dep1[i] == dep2[i] {
        continue;
      }
      if dep1[i] in seen2 {
        seen2 := seen2 - {dep1[i]};
      } else {
        seen1 := seen1 + {dep1[i]};
      }
      if dep2[i] in seen1 {
        seen1 := seen1 - {dep2[i]};
      } else {
        seen2 := seen2 + {dep2[i]};
      }
    }
    return |seen1| == |seen2| && |seen1| == 0;
  }

  method EqualsAndDiff(dep1: Dep, dep2: Dep) returns (same: bool, diff: set<CommandId>)
    ensures same <==> SameDep(dep1, dep2)
    ensures diff == SeenUpTo(dep1, dep2, Longer(dep1, dep2)).seen1
  {
    var seen1, seen2 := {}, {};
    var i := 0;
    while i < |dep1| || i < |dep2|
      invariant 0 <= i <= Longer(dep1, dep2)
      invariant SeenUpTo(dep1, dep2, i) == Seen(seen1, seen2)
      decreases Longer(dep1, dep2) - i
    {
      if i < |dep1| && i < |dep2| && dep1[i] == dep2[i] {
        i := i + 1;
        continue;
      }
      if i < |dep1| {
        if dep1[i] in seen2 {
          seen2 := seen2 - {dep1[i]};
        } else {
          seen1 := seen1 + {dep1[i]};
        }
      }
      if i < |dep2| {
        if dep2[i] in seen1 {
          seen1 := seen1 - {dep2[i]};
        } else {
          seen2 := seen2 + {dep2[i]};
        }
      }
      i := i + 1;
    }
    return |dep1| == |dep2| && |seen1| == |seen2| && |seen1| == 0, seen1;
  }

  /** The commands among the first n. */
  ghost function UpTo(d: Dep, n: nat): set<CommandId> {
    if n <= |d| then SetOf(d[..n]) else SetOf(d)
  }

  lemma UpToMore(d: Dep, n: nat)
    ensures UpTo(d, n + 1) == if n < |d| then UpTo(d, n) + {d[n]} else UpTo(d, n)
    ensures Distinct(d) && n < |d| ==> d[n] !in UpTo(d, n)
    ensures UpTo(d, |d|) == SetOf(d) && UpTo(d, 0) == {}
  {
    assert d[..|d|] == d;
    if n < |d| {
      assert d[..n + 1] == d[..n] + [d[n]];
    }
  }

  /** For any lists: what is in neither set was seen on both sides or on none. */
  ghost predicate Sound(s: Seen, p1: set<CommandId>, p2: set<CommandId>) {
    s.seen1 <= p1 && s.seen2 <= p2 && forall c :: c !in s.seen1 && c !in s.seen2 ==> (c in p1 <==> c in p2)
  }

  lemma SeeIsSound(s: Seen, p1: set<CommandId>, p2: set<CommandId>, c: CommandId)
    requires Sound(s, p1, p2)
    ensures Sound(See1(s, c), p1 + {c}, p2) && Sound(See2(s, c), p1, p2 + {c}) && Sound(s, p1 + {c}, p2 + {c})
  {
  }

  lemma {:induction false} SeenIsSound(dep1: Dep, dep2: Dep, n: nat)
    ensures Sound(SeenUpTo(dep1, dep2, n), UpTo(dep1, n), UpTo(dep2, n))
  {
    if n > 0 {
      hide Sound, See1, See2, UpTo;
      var k := n - 1;
      var s, p1, p2 := SeenUpTo(dep1, dep2, k), UpTo(dep1, k), UpTo(dep2, k);
      SeenIsSound(dep1, dep2, k);
      UpToMore(dep1, k);
      UpToMore(dep2, k);
      if k < |dep1| {
        SeeIsSound(s, p1, p2, dep1[k]);
      }
      if k < |dep2| {
        SeeIsSound(s, p1, p2, dep2[k]);
        if k < |dep1| {
          SeeIsSound(See1(s, dep1[k]), p1 + {dep1[k]}, p2, dep2[k]);
        }
      }
    }
  }

  /** Equals never takes different dependencies for equal. */
  lemma EqualsIsSound(dep1: Dep, dep2: Dep)
    requires SameDep(dep1, dep2)
    ensures SetOf(dep1) == SetOf(dep2)
  {
    SeenIsSound(dep1, dep2, |dep1|);
    UpToMore(dep1, 0);
    UpToMore(dep2, 0);
  }

  /** Without duplicates the sets are exactly the two differences. */
  ghost predicate Exact(s: Seen, p1: set<CommandId>, p2: set<CommandId>) {
    s.seen1 == p1 - p2 && s.seen2 == p2 - p1
  }

  lemma SeeIsExact(s: Seen, p1: set<CommandId>, p2: set<CommandId>, c: CommandId)
    requires Exact(s, p1, p2)
    ensures c !in p1 ==> Exact(See1(s, c), p1 + {c}, p2)
    ensures c !in p2 ==> Exact(See2(s, c), p1, p2 + {c})
    ensures c !in p1 && c !in p2 ==> Exact(s, p1 + {c}, p2 + {c})
  {
  }

  lemma {:induction false} SeenIsExact(dep1: Dep, dep2: Dep, n: nat)
    requires Distinct(dep1) && Distinct(dep2)
    ensures Exact(SeenUpTo(dep1, dep2, n), UpTo(dep1, n), UpTo(dep2, n))
  {
    if n > 0 {
      hide Exact, See1, See2, UpTo, Distinct;
      var k := n - 1;
      var s, p1, p2 := SeenUpTo(dep1, dep2, k), UpTo(dep1, k), UpTo(dep2, k);
      SeenIsExact(dep1, dep2, k);
      UpToMore(dep1, k);
      UpToMore(dep2, k);
      if k < |dep1| {
        SeeIsExact(s, p1, p2, dep1[k]);
      }
      if k < |dep2| {
        SeeIsExact(s, p1, p2, dep2[k]);
        if k < |dep1| {
          SeeIsExact(See1(s, dep1[k]), p1 + {dep1[k]}, p2, dep2[k]);
        }
      }
    } else {
      UpToMore(dep1, 0);
      UpToMore(dep2, 0);
    }
  }

  /** On lists without duplicates, Equals is equality of sets and EqualsAndDiff returns the difference. */
  lemma EqualsDecides(dep1: Dep, dep2: Dep)
    requires Distinct(dep1) && Distinct(dep2)
    ensures SameDep(dep1, dep2) <==> SetOf(dep1) == SetOf(dep2)
    ensures SeenUpTo(dep1, dep2, Longer(dep1, dep2)).seen1 == SetOf(dep1) - SetOf(dep2)
  {
    SeenIsExact(dep1, dep2, Longer(dep1, dep2));
    UpToMore(dep1, 0);
    UpToMore(dep2, 0);
    Cardinality(dep1);
    Cardinality(dep2);
  }

  lemma {:induction false} Cardinality(d: Dep)
    requires Distinct(d)
    ensures |SetOf(d)| == |d|
  {
    if d != [] {
      var init := d[..|d| - 1];
      Cardinality(init);
      assert d == init + [d[|d| - 1]];
      assert SetOf(d) == SetOf(init) + {d[|d| - 1]};
    }
  }

  /** With duplicates Equals can deny the equality of equal sets. */
  lemma EqualsMissesDuplicates(a: CommandId, b: CommandId)
    requires a != b
    ensures SetOf([a, b, b]) == SetOf([b, a, a]) && !SameDep([a, b, b], [b, a, a])
  {
    var d1, d2 := [a, b, b], [b, a, a];
    assert SeenUpTo(d1, d2, 1) == SeeBoth(SeenUpTo(d1, d2, 0), d1, d2, 0) == Seen({a}, {b});
    assert SeenUpTo(d1, d2, 2) == SeeBoth(SeenUpTo(d1, d2, 1), d1, d2, 1) == Seen({}, {});
    assert SeenUpTo(d1, d2, 3) == SeeBoth(SeenUpTo(d1, d2, 2), d1, d2, 2) == Seen({b}, {a});
    assert a in SetOf(d2) && b in SetOf(d1);
  }

  // ---------------------------------------------------------------- comparing hashes

  method SHashesEq<H(==)>(hs1: seq<H>, hs2: seq<H>) returns (same: bool)
    ensures same <==> |hs1| == |hs2| && forall h :: h in hs1 ==> h in hs2
  {
    if |hs1| != |hs2| {
      return false;
    }
    for i := 0 to |hs1|
      invariant forall h :: h in hs1[..i] ==> h in hs2
    {
      var eq := false;
      for j := 0 to |hs2|
        invariant !eq && hs1[i] !in hs2[..j]
      {
        if hs1[i] == hs2[j] {
          eq := true;
          break;
        }
      }
      if !eq {
        assert hs2[..|hs2|] == hs2;
        return false;
      }
    }
    assert hs1[..|hs1|] == hs1;
    return true;
  }

  // ---------------------------------------------------------------- acks

  /** dep is None for an ack that carries none (a slow ack). */
  datatype Ack = Ack(replica: nat, dep: Option<Dep>)

  /** acceptFastAndSlowAck. The leader's own ack always carries a dependency. */
  function AcceptFastAndSlowAck(): MS.Accept<Ack> {
    (msg: Ack, leaderMsg: Option<Ack>) =>
      leaderMsg.None? || msg.dep.None? || SameDep(leaderMsg.value.dep.GetOr([]), msg.dep.value)
  }

  /** Whenever the handler runs with the leader's ack in hand, a whole quorum stands behind it: distinct
      replicas, the leader among them, each with no dependency or with the leader's, as a set. */
  lemma QuorumBacksLeader(q: QuorumI, leader: nat, arrivals: seq<MS.Arrival<Ack>>)
    requires arrivals != []
    requires var before, a := MS.After(q, AcceptFastAndSlowAck(), leader, arrivals[..|arrivals| - 1]), arrivals[|arrivals| - 1];
      MS.Calls(q, AcceptFastAndSlowAck(), before, a.rep, a.rep == leader, a.msg)
    requires MS.After(q, AcceptFastAndSlowAck(), leader, arrivals).leaderMsg.Some?
    ensures var after := MS.After(q, AcceptFastAndSlowAck(), leader, arrivals);
      && |after.msgs.Keys + {leader}| >= q.Size() && (forall r :: r in after.msgs.Keys + {leader} ==> q.Contains(r))
      && forall r :: r in after.msgs && after.msgs[r].dep.Some? ==>
           SetOf(after.msgs[r].dep.value) == SetOf(after.leaderMsg.value.dep.GetOr([]))
  {
    MS.EveryCallIsCertified(q, AcceptFastAndSlowAck(), leader, arrivals);
    var after := MS.After(q, AcceptFastAndSlowAck(), leader, arrivals);
    forall r | r in after.msgs && after.msgs[r].dep.Some?
      ensures SetOf(after.msgs[r].dep.value) == SetOf(after.leaderMsg.value.dep.GetOr([]))
    {
      EqualsIsSound(after.leaderMsg.value.dep.GetOr([]), after.msgs[r].dep.value);
    }
  }

  /** r's ack carries no dependency, or a duplicate-free one that is the leader's as a set. */
  ghost predicate Agrees(ack: Ack, leaderAck: Ack) {
    ack.dep.None? || (Distinct(ack.dep.value) && SetOf(ack.dep.value) == SetOf(leaderAck.dep.GetOr([])))
  }

  /** Arrival j of r counts for the leader's ack at l: it agrees, and r sent nothing else between j and l. */
  ghost predicate CountsFor(arrivals: seq<MS.Arrival<Ack>>, l: nat, j: nat, r: nat) {
    && l < |arrivals| && j < |arrivals| && j != l && arrivals[j].rep == r && Agrees(arrivals[j].msg, arrivals[l].msg)
    && forall k :: j < k < l ==> arrivals[k].rep != r
  }

  /** Conversely the handler runs as soon as the leader, whose ack arrives once, at l, and members whose last ack
      before it or any ack after it agrees with it number as many as the quorum. */
  lemma AgreeingQuorumIsHandled(q: QuorumI, leader: nat, arrivals: seq<MS.Arrival<Ack>>, l: nat, backers: map<nat, nat>)
      returns (i: nat)
    requires MS.LastFromLeader(leader, arrivals, l) && q.Contains(leader) && Distinct(arrivals[l].msg.dep.GetOr([]))
    requires forall j :: 0 <= j < l ==> arrivals[j].rep != leader
    requires forall r :: r in backers ==> q.Contains(r) && CountsFor(arrivals, l, backers[r], r)
    requires |backers.Keys + {leader}| >= q.Size()
    ensures i < |arrivals| && MS.CalledAt(q, AcceptFastAndSlowAck(), leader, arrivals, i)
    ensures MS.After(q, AcceptFastAndSlowAck(), leader, arrivals[..i + 1]).leaderMsg == Some(arrivals[l].msg)
  {
    forall r | r in backers ensures MS.Backs(AcceptFastAndSlowAck(), arrivals, l, r) {
      CountingBacks(arrivals, l, backers[r], r);
    }
    hide *;
    i := MS.BackedLeaderIsHandled(q, AcceptFastAndSlowAck(), leader, arrivals, l, backers.Keys);
  }

  lemma CountingBacks(arrivals: seq<MS.Arrival<Ack>>, l: nat, j: nat, r: nat)
    requires CountsFor(arrivals, l, j, r) && Distinct(arrivals[l].msg.dep.GetOr([]))
    ensures MS.Backs(AcceptFastAndSlowAck(), arrivals, l, r)
  {
    var ack := arrivals[j].msg;
    if ack.dep.Some? {
      EqualsDecides(arrivals[l].msg.dep.GetOr([]), ack.dep.value);
    }
    hide SameDep, SetOf;
    if j < l {
      assert MS.LastAccepted(AcceptFastAndSlowAck(), arrivals[..l], j, r);
    } else {
      assert MS.Accepted(AcceptFastAndSlowAck(), arrivals, j, r, Some(arrivals[l].msg));
    }
  }
}
