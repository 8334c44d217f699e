/** Quorums, their enumeration by backtracking, and the ballots that encode a leader and a quorum
    (replica/quorum.go, and Leader and NextBallotOf of replica/replica.go). */
module Quorum {
  import opened Sequences
  import opened Sets

  /** QuorumI: a threshold that anybody counts towards, or a fixed set of replicas. */
  datatype QuorumI = Majority(threshold: int) | ThreeQuarters(threshold: int) | Fixed(members: set<nat>) {
    function Size(): int {
      if Fixed? then |members| else threshold
    }

    predicate Contains(rep: nat) {
      Fixed? ==> rep in members
    }
  }

  function NewMajorityOf(n: nat): QuorumI {
    Majority(n / 2 + 1)
  }

  function NewThreeQuartersOf(n: nat): QuorumI {
    ThreeQuarters(3 * n / 4 + 1)
  }

  /** Every set of replicas that makes up a majority shares a replica with what any two three-quarters
      quorums have in common. */
  lemma FastQuorumsMeetMajorities(n: nat, a: set<nat>, b: set<nat>, c: set<nat>)
    requires a <= Range(n) && b <= Range(n) && c <= Range(n)
    requires |a| >= NewThreeQuartersOf(n).Size() && |b| >= NewThreeQuartersOf(n).Size() && |c| >= NewMajorityOf(n).Size()
    ensures a * b * c != {}
  {
    Overlap(n, a, b);
    Overlap(n, a * b, c);
  }

  lemma Overlap(n: nat, a: set<nat>, b: set<nat>)
    requires a <= Range(n) && b <= Range(n)
    ensures |a * b| >= |a| + |b| - n
  {
    assert Range(n) == (a + b) + (Range(n) - (a + b));
    assert |a + b| == |a| + |b| - |a * b|;
  }

  /** Quorum.Equals. */
  method Equals(q1: set<nat>, q2: set<nat>) returns (same: bool)
    ensures same <==> q1 == q2
  {
    if |q1| != |q2| {
      return false;
    }
    var left := q1;
    while left != {}
      invariant left <= q1
      invariant forall r :: r in q1 && r !in left ==> r in q2
      decreases left
    {
      var r :| r in left;
      if r !in q2 {
        return false;
      }
      left := left - {r};
    }
    assert q2 == q1 + (q2 - q1);
    return true;
  }

  // ---------------------------------------------------------------- enumeration

  /** The quorums that subsets visits from index i on with q chosen and k members missing, in order.
      The recursion goes on below k == 0, and finds nothing there. */
  function Found(n: nat, k: int, i: nat, q: set<nat>): seq<set<nat>>
    requires i <= n
    decreases n - i, 1
  {
    (if k == 0 then [q] else []) + FoundFrom(n, k, i, q)
  }

  function FoundFrom(n: nat, k: int, j: nat, q: set<nat>): seq<set<nat>>
    requires j <= n
    decreases n - j, 0
  {
    if j == n then [] else Found(n, k - 1, j + 1, q + {j}) + FoundFrom(n, k, j + 1, q)
  }

  lemma {:induction false} NothingBelowZero(n: nat, k: int, i: nat, q: set<nat>)
    requires i <= n && k <= 0
    ensures FoundFrom(n, k, i, q) == []
    decreases n - i
  {
    if i < n {
      NothingBelowZero(n, k - 1, i + 1, q + {i});
      NothingBelowZero(n, k, i + 1, q);
    }
  }

  /** s is q with k more members of [i, n). */
  ghost predicate Extends(s: set<nat>, n: nat, k: nat, i: nat, q: set<nat>) {
    && |s| == |q| + k
    && (forall x :: x in s ==> x < n)
    && forall x: nat :: x < i ==> (x in s <==> x in q)
  }

  ghost predicate Below(q: set<nat>, i: nat) {
    forall x :: x in q ==> x < i
  }

  /** The enumeration is exactly the quorums wanted, each once. */
  lemma {:induction false} FoundAll(n: nat, k: nat, i: nat, q: set<nat>)
    requires i <= n && Below(q, i)
    ensures forall s :: s in Found(n, k, i, q) <==> Extends(s, n, k, i, q)
    ensures Distinct(Found(n, k, i, q))
    decreases n - i
  {
    if k == 0 {
      NothingBelowZero(n, k, i, q);
      assert Found(n, k, i, q) == [q];
      forall s | Extends(s, n, 0, i, q) ensures s == q {
        assert q <= s;
        assert s == q + (s - q);
      }
    } else if i < n {
      FoundAll(n, k - 1, i + 1, q + {i});
      FoundAll(n, k, i + 1, q);
      var with, without := Found(n, k - 1, i + 1, q + {i}), Found(n, k, i + 1, q);
      assert Found(n, k, i, q) == with + without;
      forall s ensures Extends(s, n, k, i, q) <==> s in with || s in without {
        ExtendsSplit(s, n, k, i, q);
      }
      Apart(with, without, i);
    } else {
      forall s ensures !Extends(s, n, k, i, q) {
        ExtendsNothing(s, n, k, q);
      }
    }
  }

  lemma ExtendsSplit(s: set<nat>, n: nat, k: nat, i: nat, q: set<nat>)
    requires i < n && k > 0 && Below(q, i)
    ensures Extends(s, n, k, i, q) <==> Extends(s, n, k - 1, i + 1, q + {i}) || Extends(s, n, k, i + 1, q)
  {
    assert |q + {i}| == |q| + 1;
    if Extends(s, n, k, i, q) {
      assert if i in s then Extends(s, n, k - 1, i + 1, q + {i}) else Extends(s, n, k, i + 1, q);
    }
  }

  lemma ExtendsNothing(s: set<nat>, n: nat, k: nat, q: set<nat>)
    requires k > 0
    ensures !Extends(s, n, k, n, q)
  {
    if forall x: nat :: x < n ==> (x in s <==> x in q) {
      if forall x :: x in s ==> x < n {
        assert s <= q;
        assert q == s + (q - s);
      }
    }
  }

  lemma Apart(with: seq<set<nat>>, without: seq<set<nat>>, i: nat)
    requires Distinct(with) && Distinct(without)
    requires (forall s :: s in with ==> i in s) && (forall s :: s in without ==> i !in s)
    ensures Distinct(with + without)
  {
    forall a, b | 0 <= a < |with| <= b < |with| + |without| ensures (with + without)[a] != (with + without)[b] {
      assert with[a] in with && without[b - |with|] in without;
    }
  }

  /** The quorums of one leader, in the order in which they are found. */
  function Led(l: nat, found: seq<set<nat>>): seq<set<nat>> {
    if found == [] then []
    else Led(l, found[..|found| - 1]) + (if l in found[|found| - 1] then [found[|found| - 1]] else [])
  }

  lemma {:induction false} LedAppend(l: nat, found: seq<set<nat>>, more: seq<set<nat>>)
    ensures Led(l, found + more) == Led(l, found) + Led(l, more)
    decreases |more|
  {
    if more == [] {
      assert found + more == found;
    } else {
      LedAppend(l, found, more[..|more| - 1]);
      assert (found + more)[..|found + more| - 1] == found + more[..|more| - 1];
    }
  }

  lemma {:induction false} LedMembers(l: nat, found: seq<set<nat>>)
    requires Distinct(found)
    ensures forall s :: s in Led(l, found) <==> s in found && l in s
    ensures Distinct(Led(l, found))
  {
    if found != [] {
      var init, last := found[..|found| - 1], found[|found| - 1];
      LedMembers(l, init);
      assert found == init + [last];
      assert last !in init;
    }
  }

  /** The map that holds a sequence under contiguous ids from 0. */
  ghost function Numbering(xs: seq<set<nat>>): (m: map<int, set<nat>>)
    ensures |m| == |xs|
    ensures forall i :: i in m <==> 0 <= i < |xs|
    ensures forall i :: 0 <= i < |xs| ==> m[i] == xs[i]
  {
    if xs == [] then map[]
    else
      var m := Numbering(xs[..|xs| - 1]);
      var k: int := |xs| - 1;
      assert m[k := xs[k]].Keys == m.Keys + {k};
      m[k := xs[k]]
  }

  lemma NumberedMore(xs: seq<set<nat>>, s: set<nat>)
    ensures Numbering(xs + [s]) == Numbering(xs)[|Numbering(xs)| := s]
  {
    assert (xs + [s])[..|xs|] == xs;
  }

  type QuorumSet = map<nat, map<int, set<nat>>>

  /** Every leader's quorums are numbered as found. */
  ghost predicate Holds(qs: QuorumSet, n: nat, found: seq<set<nat>>) {
    && (forall l: nat :: l in qs <==> l < n)
    && forall l: nat :: l < n ==> qs[l] == Numbering(Led(l, found))
  }

  /** The quorum under construction and the quorums found so far; both are shared by all calls. */
  class Enumeration {
    var q: set<nat>
    var qs: QuorumSet

    constructor (n: nat)
      ensures q == {} && Holds(qs, n, [])
    {
      var all: QuorumSet := map[];
      for id: nat := 0 to n
        invariant forall l: nat :: l in all <==> l < id
        invariant forall l: nat :: l in all ==> all[l] == map[]
      {
        all := all[id := map[]];
      }
      q, qs := {}, all;
    }

    method Subsets(ids: seq<nat>, n: nat, k: int, i: nat, ghost found: seq<set<nat>>)
      requires |ids| == n && (forall j :: 0 <= j < n ==> ids[j] == j)
      requires i <= n && Below(q, i) && Holds(qs, n, found)
      modifies this
      ensures q == old(q)
      ensures Holds(qs, n, found + Found(n, k, i, q))
      decreases n - i
    {
      hide *;
      ghost var q0 := q;
      ghost var sofar := found;
      if k == 0 {
        Keep(n, found);
        sofar := found + [q];
      }
      FoundHead(n, k, i, q0, found);
      BelowMore(q0, i, n);
      var j := i;
      while j < n
        invariant i <= j <= n && q == q0 && Holds(qs, n, sofar)
        invariant sofar + FoundFrom(n, k, j, q0) == found + Found(n, k, i, q0)
      {
        FoundStep(n, k, j, q0, sofar);
        q := q + {ids[j]};
        Subsets(ids, n, k - 1, j + 1, sofar);
        sofar := sofar + Found(n, k - 1, j + 1, q);
        q := q - {ids[j]};
        assert q == q0;
        j := j + 1;
      }
      FoundStep(n, k, n, q0, sofar);
    }

    /** A complete quorum is copied to each of its members. */
    method Keep(n: nat, ghost found: seq<set<nat>>)
      requires Holds(qs, n, found)
      modifies this`qs
      ensures Holds(qs, n, found + [q])
    {
      hide Partly, Holds;
      PartlyEnds(qs, n, found, q);
      for rep := 0 to n
        invariant Partly(qs, n, found, q, rep)
      {
        PartlyMore(qs, n, found, q, rep);
        if rep in q {
          qs := qs[rep := qs[rep][|qs[rep]| := q]];
        }
      }
      PartlyEnds(qs, n, found, q);
    }
  }

  /** The replicas below rep have the quorum s too. */
  ghost predicate Partly(qs: QuorumSet, n: nat, found: seq<set<nat>>, s: set<nat>, rep: nat) {
    && (forall l: nat :: l in qs <==> l < n)
    && forall l: nat :: l < n ==> qs[l] == Numbering(Led(l, if l < rep then found + [s] else found))
  }

  lemma PartlyEnds(qs: QuorumSet, n: nat, found: seq<set<nat>>, s: set<nat>)
    ensures Holds(qs, n, found) ==> Partly(qs, n, found, s, 0)
    ensures Partly(qs, n, found, s, n) ==> Holds(qs, n, found + [s])
  {
    hide Numbering, Led;
  }

  lemma PartlyMore(qs: QuorumSet, n: nat, found: seq<set<nat>>, s: set<nat>, rep: nat)
    requires Partly(qs, n, found, s, rep) && rep < n
    ensures rep in qs && Partly(if rep in s then qs[rep := qs[rep][|qs[rep]| := s]] else qs, n, found, s, rep + 1)
  {
    hide Numbering, Led;
    LedOneMore(rep, found, s);
    NumberedMore(Led(rep, found), s);
  }

  lemma FoundHead(n: nat, k: int, i: nat, q: set<nat>, found: seq<set<nat>>)
    requires i <= n
    ensures (if k == 0 then found + [q] else found) + FoundFrom(n, k, i, q) == found + Found(n, k, i, q)
  {
  }

  lemma FoundStep(n: nat, k: int, j: nat, q: set<nat>, found: seq<set<nat>>)
    requires j <= n
    ensures j < n ==> found + FoundFrom(n, k, j, q) == found + Found(n, k - 1, j + 1, q + {j}) + FoundFrom(n, k, j + 1, q)
    ensures j == n ==> found + FoundFrom(n, k, j, q) == found
  {
  }

  lemma BelowMore(q: set<nat>, i: nat, n: nat)
    requires Below(q, i)
    ensures forall j: nat :: i <= j <= n ==> j !in q && Below(q + {j}, j + 1)
  {
  }

  lemma LedOneMore(l: nat, found: seq<set<nat>>, s: set<nat>)
    ensures Led(l, found + [s]) == if l in s then Led(l, found) + [s] else Led(l, found)
  {
    assert (found + [s])[..|found|] == found;
  }

  method NewQuorumSet(k: int, n: nat) returns (qs: QuorumSet)
    ensures Holds(qs, n, Found(n, k, 0, {}))
  {
    var ids := seq(n, i requires 0 <= i < n => i as nat);
    var e := new Enumeration(n);
    e.Subsets(ids, n, k, 0, []);
    assert [] + Found(n, k, 0, {}) == Found(n, k, 0, {});
    qs := e.qs;
  }

  /** Each leader gets exactly the k-subsets that contain it, each once, under contiguous ids. */
  ghost predicate AllQuorums(qs: QuorumSet, n: nat, k: nat) {
    && |qs| == n && (forall l: nat :: l in qs <==> l < n)
    && forall l: nat :: l < n ==>
         && (forall i :: i in qs[l] <==> 0 <= i < |qs[l]|)
         && (forall i, j :: i in qs[l] && j in qs[l] && i != j ==> qs[l][i] != qs[l][j])
         && forall s: set<nat> :: Among(qs[l], s) <==> IsQuorum(s, n, k) && l in s
  }

  ghost predicate Among(lqs: map<int, set<nat>>, s: set<nat>) {
    exists i :: i in lqs && lqs[i] == s
  }

  ghost predicate IsQuorum(s: set<nat>, n: nat, k: nat) {
    |s| == k && forall x :: x in s ==> x < n
  }

  lemma LeaderCount(qs: QuorumSet, n: nat)
    requires forall l: nat :: l in qs <==> l < n
    ensures |qs| == n
  {
    assert qs.Keys == Range(n);
  }

  lemma LeadersQuorums(qs: QuorumSet, n: nat, k: nat, l: nat)
    requires Holds(qs, n, Found(n, k, 0, {})) && l < n
    ensures forall i :: i in qs[l] <==> 0 <= i < |qs[l]|
    ensures forall i, j :: i in qs[l] && j in qs[l] && i != j ==> qs[l][i] != qs[l][j]
    ensures forall s: set<nat> :: Among(qs[l], s) <==> IsQuorum(s, n, k) && l in s
  {
    var found := Found(n, k, 0, {});
    FoundAll(n, k, 0, {});
    LedMembers(l, found);
    var xs := Led(l, found);
    assert qs[l] == Numbering(xs);
    hide Found, Led, Numbering, Holds;
    forall s: set<nat> ensures Among(qs[l], s) <==> s in xs {
      if s in xs {
        var i :| 0 <= i < |xs| && xs[i] == s;
        assert qs[l][i] == s;
      }
    }
  }

  lemma EnumerationIsComplete(qs: QuorumSet, n: nat, k: nat)
    requires Holds(qs, n, Found(n, k, 0, {}))
    ensures AllQuorums(qs, n, k)
  {
    LeaderCount(qs, n);
    forall l: nat | l < n
      ensures forall i :: i in qs[l] <==> 0 <= i < |qs[l]|
      ensures forall i, j :: i in qs[l] && j in qs[l] && i != j ==> qs[l][i] != qs[l][j]
      ensures forall s: set<nat> :: Among(qs[l], s) <==> IsQuorum(s, n, k) && l in s
    {
      LeadersQuorums(qs, n, k, l);
    }
  }
}
