/** A set of replies on its way to a quorum (replica/mset.go). */
module MsgSet {
  import opened Quorum
  import opened Sets
  import opened Options

  /** The replies accepted so far, by replica, and the leader's message once it is there. */
  datatype Replies<M> = Replies(msgs: map<nat, M>, leaderMsg: Option<M>)

  type Accept<!M> = (M, Option<M>) -> bool

  /** Add ignores strangers and, once the leader's message is there, second replies. */
  predicate Ignored<M>(q: QuorumI, s: Replies<M>, rep: nat) {
    !q.Contains(rep) || (s.leaderMsg.Some? && rep in s.msgs)
  }

  function Kept<M>(accept: Accept<M>, msgs: map<nat, M>, leaderMsg: Option<M>): map<nat, M> {
    map r | r in msgs && accept(msgs[r], leaderMsg) :: msgs[r]
  }

  function AddTo<M>(q: QuorumI, accept: Accept<M>, s: Replies<M>, rep: nat, isLeader: bool, msg: M): Replies<M> {
    if Ignored(q, s, rep) then s
    else if isLeader then Replies(Kept(accept, s.msgs, Some(msg)), Some(msg))
    else if accept(msg, s.leaderMsg) then s.(msgs := s.msgs[rep := msg])
    else s
  }

  /** The handler is called when the replies, with the leader's message, make up the quorum's size. */
  predicate Complete<M>(q: QuorumI, s: Replies<M>) {
    |s.msgs| >= q.Size() || (|s.msgs| >= q.Size() - 1 && s.leaderMsg.Some?)
  }

  predicate Calls<M>(q: QuorumI, accept: Accept<M>, s: Replies<M>, rep: nat, isLeader: bool, msg: M) {
    !Ignored(q, s, rep) && Complete(q, AddTo(q, accept, s, rep, isLeader, msg))
  }

  /** xs lists the values of m in some order, as ranging over a map does. */
  ghost predicate Lists<M(!new)>(m: map<nat, M>, xs: seq<M>) {
    exists order: seq<nat> :: ListsInOrder(m, xs, order)
  }

  ghost predicate ListsInOrder<M(!new)>(m: map<nat, M>, xs: seq<M>, order: seq<nat>) {
    && |order| == |xs| == |m|
    && (forall i :: 0 <= i < |order| ==> order[i] in m && xs[i] == m[order[i]])
    && forall r :: r in m ==> r in order
  }

  /** What a call of the handler gets to see. */
  datatype HandlerCall<M> = HandlerCall(leaderMsg: Option<M>, msgs: seq<M>)

  class MsgSet<M(!new)> {
    const q: QuorumI
    const accept: Accept<M>
    var msgs: map<nat, M>
    var leaderMsg: Option<M>

    constructor (q: QuorumI, accept: Accept<M>)
      ensures this.q == q && this.accept == accept && Contents() == Replies(map[], None)
    {
      this.q, this.accept := q, accept;
      msgs, leaderMsg := map[], None;
    }

    function Contents(): Replies<M>
      reads this
    {
      Replies(msgs, leaderMsg)
    }

    /** called is what the handler is called with, if it is called. */
    method Add(rep: nat, isLeader: bool, msg: M) returns (added: bool, called: Option<HandlerCall<M>>)
      modifies this
      ensures Contents() == AddTo(q, accept, old(Contents()), rep, isLeader, msg)
      ensures called.Some? <==> Calls(q, accept, old(Contents()), rep, isLeader, msg)
      ensures called.Some? ==> called.value.leaderMsg == leaderMsg && Lists(msgs, called.value.msgs)
      ensures added <==> !Ignored(q, old(Contents()), rep) && (isLeader || accept(msg, old(leaderMsg)))
    {
      if !q.Contains(rep) {
        return false, None;
      }
      if leaderMsg.Some? && rep in msgs {
        return false, None;
      }
      added := false;
      if isLeader {
        leaderMsg := Some(msg);
        Refilter();
        added := true;
      } else if accept(msg, leaderMsg) {
        msgs := msgs[rep := msg];
        added := true;
      }
      called := None;
      if |msgs| >= q.Size() || (|msgs| >= q.Size() - 1 && leaderMsg.Some?) {
        var list := Collect();
        called := Some(HandlerCall(leaderMsg, list));
      }
    }

    /** The rebuilding of the map when the leader's message arrives. */
    method Refilter()
      modifies this`msgs
      ensures msgs == Kept(accept, old(msgs), leaderMsg)
    {
      var newMsgs: map<nat, M> := map[];
      var left := msgs.Keys;
      while left != {}
        invariant left <= msgs.Keys
        invariant newMsgs == map r | r in msgs && r !in left && accept(msgs[r], leaderMsg) :: msgs[r]
        decreases left
      {
        var rep :| rep in left;
        if rep !in newMsgs && accept(msgs[rep], leaderMsg) {
          newMsgs := newMsgs[rep := msgs[rep]];
        }
        left := left - {rep};
      }
      msgs := newMsgs;
    }

    method Collect() returns (list: seq<M>)
      ensures Lists(msgs, list)
    {
      list := [];
      ghost var order: seq<nat> := [];
      var left := msgs.Keys;
      while left != {}
        invariant left <= msgs.Keys
        invariant |order| == |list| == |msgs| - |left|
        invariant forall i :: 0 <= i < |order| ==> order[i] in msgs && list[i] == msgs[order[i]]
        invariant forall r :: r in msgs && r !in left ==> r in order
        decreases left
      {
        var rep :| rep in left;
        list := list + [msgs[rep]];
        order := order + [rep];
        left := left - {rep};
      }
      assert ListsInOrder(msgs, list, order);
    }
  }

  // ---------------------------------------------------------------- certificates

  /** Only the leader's own replica is missing from the replies, and all of them fit its message. */
  ghost predicate Collected<M>(q: QuorumI, accept: Accept<M>, s: Replies<M>, leader: nat) {
    && leader !in s.msgs
    && (s.leaderMsg.Some? ==> q.Contains(leader))
    && forall r :: r in s.msgs ==> q.Contains(r) && accept(s.msgs[r], s.leaderMsg)
  }

  /** A quorum stands behind the leader's message: with the leader, as many distinct replicas as the
      quorum's size, all of them members, and every reply fits the message. */
  ghost predicate Certificate<M>(q: QuorumI, accept: Accept<M>, s: Replies<M>, leader: nat) {
    && s.leaderMsg.Some?
    && |s.msgs.Keys + {leader}| >= q.Size()
    && (forall r :: r in s.msgs.Keys + {leader} ==> q.Contains(r))
    && (forall r :: r in s.msgs ==> accept(s.msgs[r], s.leaderMsg))
    && (q.Fixed? ==> s.msgs.Keys + {leader} == q.members)
  }

  lemma AddKeepsCollected<M>(q: QuorumI, accept: Accept<M>, s: Replies<M>, leader: nat, rep: nat, msg: M)
    requires Collected(q, accept, s, leader)
    ensures Collected(q, accept, AddTo(q, accept, s, rep, rep == leader, msg), leader)
  {
  }

  lemma CallIsCertified<M>(q: QuorumI, accept: Accept<M>, s: Replies<M>, leader: nat, rep: nat, msg: M)
    requires Collected(q, accept, s, leader) && Calls(q, accept, s, rep, rep == leader, msg)
    ensures var s' := AddTo(q, accept, s, rep, rep == leader, msg);
      s'.leaderMsg.Some? ==> Certificate(q, accept, s', leader)
  {
    var s' := AddTo(q, accept, s, rep, rep == leader, msg);
    AddKeepsCollected(q, accept, s, leader, rep, msg);
    if s'.leaderMsg.Some? {
      var all := s'.msgs.Keys + {leader};
      assert |all| == |s'.msgs| + 1;
      if q.Fixed? {
        WholeSet(all, q.members);
      }
    }
  }

  lemma WholeSet(a: set<nat>, b: set<nat>)
    requires a <= b && |a| >= |b|
    ensures a == b
  {
    assert b == a + (b - a);
  }

  datatype Arrival<M> = Arrival(rep: nat, msg: M)

  /** The replies after a series of arrivals; a message counts as the leader's exactly when the leader
      sent it. */
  function After<M>(q: QuorumI, accept: Accept<M>, leader: nat, arrivals: seq<Arrival<M>>): Replies<M> {
    if arrivals == [] then Replies(map[], None)
    else
      var a := arrivals[|arrivals| - 1];
      AddTo(q, accept, After(q, accept, leader, arrivals[..|arrivals| - 1]), a.rep, a.rep == leader, a.msg)
  }

  /** Whatever arrives in whatever order, every call of the handler that has the leader's message has
      a certificate. */
  lemma {:induction false} EveryCallIsCertified<M>(q: QuorumI, accept: Accept<M>, leader: nat, arrivals: seq<Arrival<M>>)
    requires arrivals != []
    ensures Collected(q, accept, After(q, accept, leader, arrivals), leader)
    ensures var before, a := After(q, accept, leader, arrivals[..|arrivals| - 1]), arrivals[|arrivals| - 1];
      var after := After(q, accept, leader, arrivals);
      Calls(q, accept, before, a.rep, a.rep == leader, a.msg) && after.leaderMsg.Some? ==>
        Certificate(q, accept, after, leader)
    decreases |arrivals|
  {
    var init, a := arrivals[..|arrivals| - 1], arrivals[|arrivals| - 1];
    if init != [] {
      EveryCallIsCertified(q, accept, leader, init);
    }
    var before := After(q, accept, leader, init);
    AddKeepsCollected(q, accept, before, leader, a.rep, a.msg);
    if Calls(q, accept, before, a.rep, a.rep == leader, a.msg) {
      CallIsCertified(q, accept, before, leader, a.rep, a.msg);
    }
  }

  // ---------------------------------------------------------------- the handler is called

  /** Arrival i calls the handler. */
  ghost predicate CalledAt<M>(q: QuorumI, accept: Accept<M>, leader: nat, arrivals: seq<Arrival<M>>, i: nat)
    requires i < |arrivals|
  {
    Calls(q, accept, After(q, accept, leader, arrivals[..i]), arrivals[i].rep, arrivals[i].rep == leader, arrivals[i].msg)
  }

  /** The leader of a member quorum is heard of for the last time at arrival l. */
  ghost predicate LastFromLeader<M>(leader: nat, arrivals: seq<Arrival<M>>, l: nat) {
    l < |arrivals| && arrivals[l].rep == leader && forall j: nat :: l < j < |arrivals| ==> arrivals[j].rep != leader
  }

  /** Arrival j comes from r, and its message is accepted under the leader's message lm. */
  ghost predicate Accepted<M>(accept: Accept<M>, arrivals: seq<Arrival<M>>, j: nat, r: nat, lm: Option<M>) {
    j < |arrivals| && arrivals[j].rep == r && accept(arrivals[j].msg, lm)
  }

  /** The last message of r that is accepted while the leader's is missing is that of arrival j. */
  ghost predicate LastAccepted<M>(accept: Accept<M>, arrivals: seq<Arrival<M>>, j: nat, r: nat) {
    Accepted(accept, arrivals, j, r, None) && forall k: nat :: j < k < |arrivals| ==> !Accepted(accept, arrivals, k, r, None)
  }

  lemma AfterStep<M>(q: QuorumI, accept: Accept<M>, leader: nat, arrivals: seq<Arrival<M>>)
    requires arrivals != []
    ensures var a := arrivals[|arrivals| - 1];
      After(q, accept, leader, arrivals)
        == AddTo(q, accept, After(q, accept, leader, arrivals[..|arrivals| - 1]), a.rep, a.rep == leader, a.msg)
  {
  }

  /** Before the leader's message: each member's last accepted message. */
  lemma {:induction false} BeforeLeader<M>(q: QuorumI, accept: Accept<M>, leader: nat, arrivals: seq<Arrival<M>>, r: nat)
    requires forall j :: 0 <= j < |arrivals| ==> arrivals[j].rep != leader
    ensures After(q, accept, leader, arrivals).leaderMsg == None
    ensures r in After(q, accept, leader, arrivals).msgs <==> q.Contains(r) && exists j: nat :: LastAccepted(accept, arrivals, j, r)
    ensures forall j: nat :: r in After(q, accept, leader, arrivals).msgs && LastAccepted(accept, arrivals, j, r) ==>
              After(q, accept, leader, arrivals).msgs[r] == arrivals[j].msg
    decreases |arrivals|
  {
    if arrivals != [] {
      var n := |arrivals| - 1;
      BeforeLeader(q, accept, leader, arrivals[..n], r);
      AfterStep(q, accept, leader, arrivals);
      forall j: nat
        ensures LastAccepted(accept, arrivals, j, r) <==>
                  if Accepted(accept, arrivals, n, r, None) then j == n else LastAccepted(accept, arrivals[..n], j, r)
        ensures LastAccepted(accept, arrivals[..n], j, r) ==> j < n
      {
        LastAcceptedStep(accept, arrivals, r, j);
      }
      assert Accepted(accept, arrivals, n, r, None) ==> LastAccepted(accept, arrivals, n, r);
      hide After, LastAccepted;
      var before := After(q, accept, leader, arrivals[..n]);
      if Accepted(accept, arrivals, n, r, None) {
        assert forall j: nat :: LastAccepted(accept, arrivals, j, r) ==> j == n;
      } else {
        assert forall j: nat :: LastAccepted(accept, arrivals, j, r) ==> LastAccepted(accept, arrivals[..n], j, r) && j < n;
      }
    }
  }

  lemma LastAcceptedStep<M>(accept: Accept<M>, arrivals: seq<Arrival<M>>, r: nat, j: nat)
    requires arrivals != []
    ensures var n: nat := |arrivals| - 1;
      LastAccepted(accept, arrivals, j, r) <==>
        if Accepted(accept, arrivals, n, r, None) then j == n else LastAccepted(accept, arrivals[..n], j, r)
    ensures LastAccepted(accept, arrivals[..|arrivals| - 1], j, r) ==> j < |arrivals| - 1
  {
    var n := |arrivals| - 1;
    var init := arrivals[..n];
    assert forall k: nat :: k < n ==> (Accepted(accept, init, k, r, None) <==> Accepted(accept, arrivals, k, r, None));
  }

  /** A replier that the set keeps although the leader's message lm arrives at l, or that comes later. */
  ghost predicate Stands<M>(q: QuorumI, accept: Accept<M>, leader: nat, arrivals: seq<Arrival<M>>, l: nat, lm: M, r: nat)
    requires l <= |arrivals|
  {
    || (r in After(q, accept, leader, arrivals[..l]).msgs && accept(After(q, accept, leader, arrivals[..l]).msgs[r], Some(lm)))
    || (q.Contains(r) && exists j: nat :: l < j && Accepted(accept, arrivals, j, r, Some(lm)))
  }

  /** After the leader's last message: those whose earlier message it accepts, and those who sent an
      acceptable one since. */
  lemma {:induction false} AfterLeader<M>(q: QuorumI, accept: Accept<M>, leader: nat, arrivals: seq<Arrival<M>>, l: nat, r: nat)
    requires LastFromLeader(leader, arrivals, l) && q.Contains(leader)
    ensures After(q, accept, leader, arrivals).leaderMsg == Some(arrivals[l].msg)
    ensures r in After(q, accept, leader, arrivals).msgs <==> Stands(q, accept, leader, arrivals, l, arrivals[l].msg, r)
    decreases |arrivals|
  {
    var n, lm := |arrivals| - 1, arrivals[l].msg;
    AfterStep(q, accept, leader, arrivals);
    if n == l {
      NeverAReplier(q, accept, leader, arrivals[..n]);
      assert forall j: nat :: l < j ==> !Accepted(accept, arrivals, j, r, Some(lm));
    } else {
      assert arrivals[..n][..l] == arrivals[..l] && arrivals[..n][l] == arrivals[l];
      AfterLeader(q, accept, leader, arrivals[..n], l, r);
      assert forall j: nat :: j < n ==> (Accepted(accept, arrivals, j, r, Some(lm)) <==> Accepted(accept, arrivals[..n], j, r, Some(lm)));
      hide After;
      if arrivals[n].rep == r && accept(arrivals[n].msg, Some(lm)) {
        assert Accepted(accept, arrivals, n, r, Some(lm));
      } else {
        assert forall j: nat :: l < j && Accepted(accept, arrivals, j, r, Some(lm)) ==> j < n;
      }
    }
  }

  lemma NeverAReplier<M>(q: QuorumI, accept: Accept<M>, leader: nat, arrivals: seq<Arrival<M>>)
    ensures leader !in After(q, accept, leader, arrivals).msgs
  {
    if arrivals != [] {
      EveryCallIsCertified(q, accept, leader, arrivals);
    }
  }

  /** The leader's message arrives once, at l: who stands is read off the arrivals alone. */
  lemma StandsIff<M>(q: QuorumI, accept: Accept<M>, leader: nat, arrivals: seq<Arrival<M>>, l: nat, r: nat)
    requires LastFromLeader(leader, arrivals, l) && q.Contains(leader)
    requires forall j :: 0 <= j < l ==> arrivals[j].rep != leader
    ensures r in After(q, accept, leader, arrivals).msgs <==>
              q.Contains(r)
              && ((exists j: nat :: LastAccepted(accept, arrivals[..l], j, r) && accept(arrivals[j].msg, Some(arrivals[l].msg)))
                  || (exists j: nat :: l < j && Accepted(accept, arrivals, j, r, Some(arrivals[l].msg))))
  {
    AfterLeader(q, accept, leader, arrivals, l, r);
    BeforeLeader(q, accept, leader, arrivals[..l], r);
    hide After, LastAccepted, Accepted;
    assert forall j: nat :: j < l ==> arrivals[..l][j] == arrivals[j];
    assert forall j: nat :: LastAccepted(accept, arrivals[..l], j, r) ==> j < l by {
      LastAcceptedInRange(accept, arrivals[..l], r);
    }
  }

  lemma LastAcceptedInRange<M>(accept: Accept<M>, arrivals: seq<Arrival<M>>, r: nat)
    ensures forall j: nat :: LastAccepted(accept, arrivals, j, r) ==> j < |arrivals|
  {
  }

  /** With the leader's message in, an arrival calls the handler exactly when it is not ignored and the
      repliers that stand then make up the quorum's size together with the leader. */
  lemma CallsIff<M>(q: QuorumI, accept: Accept<M>, leader: nat, arrivals: seq<Arrival<M>>, i: nat)
    requires i < |arrivals| && After(q, accept, leader, arrivals[..i + 1]).leaderMsg.Some?
    ensures var before := After(q, accept, leader, arrivals[..i]);
      CalledAt(q, accept, leader, arrivals, i) <==>
        && q.Contains(arrivals[i].rep)
        && !(before.leaderMsg.Some? && arrivals[i].rep in before.msgs)
        && |After(q, accept, leader, arrivals[..i + 1]).msgs.Keys + {leader}| >= q.Size()
  {
    var upto := arrivals[..i + 1];
    assert upto[..i] == arrivals[..i] && upto[i] == arrivals[i];
    AfterStep(q, accept, leader, upto);
    NeverAReplier(q, accept, leader, upto);
    var after := After(q, accept, leader, upto);
    assert |after.msgs.Keys + {leader}| == |after.msgs| + 1;
  }

  /** As soon as the repliers that stand make up the quorum's size together with the leader, the handler has
      been called with the leader's message. */
  lemma {:induction false} HandlerHasBeenCalled<M>(q: QuorumI, accept: Accept<M>, leader: nat, arrivals: seq<Arrival<M>>)
      returns (i: nat)
    requires q.Contains(leader) && After(q, accept, leader, arrivals).leaderMsg.Some?
    requires |After(q, accept, leader, arrivals).msgs.Keys + {leader}| >= q.Size()
    ensures i < |arrivals| && CalledAt(q, accept, leader, arrivals, i)
    ensures After(q, accept, leader, arrivals[..i + 1]) == After(q, accept, leader, arrivals)
    decreases |arrivals|
  {
    hide *;
    assert arrivals != [] by {
      NothingYet(q, accept, leader, arrivals);
    }
    var n := |arrivals| - 1;
    assert arrivals[..n + 1] == arrivals;
    i := n;
    if !CalledAt(q, accept, leader, arrivals, n) {
      UncalledIsIgnored(q, accept, leader, arrivals);
      i := HandlerHasBeenCalled(q, accept, leader, arrivals[..n]);
      assert arrivals[..n][..i] == arrivals[..i] && arrivals[..n][..i + 1] == arrivals[..i + 1] && arrivals[..n][i] == arrivals[i];
      SameCall(q, accept, leader, arrivals, n, i);
    }
  }

  lemma NothingYet<M>(q: QuorumI, accept: Accept<M>, leader: nat, arrivals: seq<Arrival<M>>)
    requires After(q, accept, leader, arrivals).leaderMsg.Some?
    ensures arrivals != []
  {
  }

  lemma SameCall<M>(q: QuorumI, accept: Accept<M>, leader: nat, arrivals: seq<Arrival<M>>, n: nat, i: nat)
    requires i < n <= |arrivals|
    ensures CalledAt(q, accept, leader, arrivals[..n], i) <==> CalledAt(q, accept, leader, arrivals, i)
  {
    assert arrivals[..n][..i] == arrivals[..i];
    hide After, Calls;
  }

  /** With enough repliers in, the last arrival either calls the handler or is ignored. */
  lemma UncalledIsIgnored<M>(q: QuorumI, accept: Accept<M>, leader: nat, arrivals: seq<Arrival<M>>)
    requires arrivals != [] && After(q, accept, leader, arrivals).leaderMsg.Some?
    requires |After(q, accept, leader, arrivals).msgs.Keys + {leader}| >= q.Size()
    requires !CalledAt(q, accept, leader, arrivals, |arrivals| - 1)
    ensures After(q, accept, leader, arrivals[..|arrivals| - 1]) == After(q, accept, leader, arrivals)
  {
    var n := |arrivals| - 1;
    assert arrivals[..n + 1] == arrivals;
    AfterStep(q, accept, leader, arrivals);
    CallsIff(q, accept, leader, arrivals, n);
    hide After, CalledAt;
  }

  /** r has sent a message that the leader's, arriving once at l, accepts: its last acceptable one before l,
      or any one after l. */
  ghost predicate Backs<M>(accept: Accept<M>, arrivals: seq<Arrival<M>>, l: nat, r: nat)
    requires l < |arrivals|
  {
    || (exists j: nat :: LastAccepted(accept, arrivals[..l], j, r) && accept(arrivals[..l][j].msg, Some(arrivals[l].msg)))
    || (exists j: nat :: l < j && Accepted(accept, arrivals, j, r, Some(arrivals[l].msg)))
  }

  /** Once the leader and members whose messages it accepts number as many as the quorum, the handler has been
      called, in whatever order everything arrived. */
  lemma BackedLeaderIsHandled<M>(q: QuorumI, accept: Accept<M>, leader: nat, arrivals: seq<Arrival<M>>, l: nat, backers: set<nat>)
      returns (i: nat)
    requires LastFromLeader(leader, arrivals, l) && q.Contains(leader)
    requires forall j :: 0 <= j < l ==> arrivals[j].rep != leader
    requires forall r :: r in backers ==> q.Contains(r) && Backs(accept, arrivals, l, r)
    requires |backers + {leader}| >= q.Size()
    ensures i < |arrivals| && CalledAt(q, accept, leader, arrivals, i)
    ensures After(q, accept, leader, arrivals[..i + 1]).leaderMsg == Some(arrivals[l].msg)
  {
    var after := After(q, accept, leader, arrivals);
    AfterLeader(q, accept, leader, arrivals, l, leader);
    forall r | r in backers ensures r in after.msgs {
      BackerStands(q, accept, leader, arrivals, l, r);
    }
    hide *;
    SubsetCardinality(backers + {leader}, after.msgs.Keys + {leader});
    i := HandlerHasBeenCalled(q, accept, leader, arrivals);
  }

  lemma BackerStands<M>(q: QuorumI, accept: Accept<M>, leader: nat, arrivals: seq<Arrival<M>>, l: nat, r: nat)
    requires LastFromLeader(leader, arrivals, l) && q.Contains(leader) && q.Contains(r)
    requires (forall j :: 0 <= j < l ==> arrivals[j].rep != leader) && Backs(accept, arrivals, l, r)
    ensures r in After(q, accept, leader, arrivals).msgs
  {
    StandsIff(q, accept, leader, arrivals, l, r);
    hide After, LastAccepted, Accepted;
    assert forall j: nat :: j < l ==> arrivals[..l][j] == arrivals[j];
    LastAcceptedInRange(accept, arrivals[..l], r);
  }
}
