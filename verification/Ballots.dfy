/** Ballots encode a leader and one of its quorums, and the search for a ballot whose quorum is alive
    ends (replica/quorum.go, replica/replica.go, and the event loop of swift/swift.go). */
module Ballots {
  import opened Sequences
  import opened Quorum
  import opened Sets

  // ---------------------------------------------------------------- how many quorums

  function Choose(n: nat, k: int): nat {
    if k < 0 then 0 else if k == 0 then 1 else if n == 0 then 0 else Choose(n - 1, k - 1) + Choose(n - 1, k)
  }

  /** How many of the quorums found from index i on contain l. */
  lemma {:induction false} LedCount(n: nat, k: nat, i: nat, q: set<nat>, l: nat)
    requires i <= n && Below(q, i) && l < n
    ensures |Led(l, Found(n, k, i, q))|
         == if l in q then Choose(n - i, k) else if l < i then 0 else Choose(n - i - 1, k - 1)
    decreases n - i
  {
    if k == 0 {
      NothingBelowZero(n, k, i, q);
      assert Found(n, k, i, q) == [] + [q];
      LedOneMore(l, [], q);
    } else if i < n {
      LedCount(n, k - 1, i + 1, q + {i}, l);
      LedCount(n, k, i + 1, q, l);
      assert Found(n, k, i, q) == Found(n, k - 1, i + 1, q + {i}) + Found(n, k, i + 1, q);
      LedAppend(l, Found(n, k - 1, i + 1, q + {i}), Found(n, k, i + 1, q));
    }
  }

  /** Every leader has the same number of quorums. */
  lemma QuorumCount(qs: QuorumSet, n: nat, k: nat, l: nat)
    requires Holds(qs, n, Found(n, k, 0, {})) && l < n
    ensures |qs[l]| == Choose(n - 1, k - 1)
  {
    LedCount(n, k, 0, {}, l);
  }

  // ---------------------------------------------------------------- coding

  function Leader(ballot: nat, n: nat): (l: nat)
    requires n > 0
    ensures l < n
  {
    ballot % n
  }

  function NextBallotOf(rid: nat, oldBallot: nat, n: nat): nat
    requires n > 0
  {
    (oldBallot / n + 1) * n + rid
  }

  /** All leaders have count quorums, and there is at least one. */
  ghost predicate Ready(qs: QuorumSet, n: nat, k: nat, count: nat) {
    n > 0 && count > 0 && AllQuorums(qs, n, k) && forall l: nat :: l < n ==> |qs[l]| == count
  }

  lemma {:induction false} ChoosePositive(n: nat, k: nat)
    requires k <= n
    ensures Choose(n, k) > 0
  {
    if 0 < k {
      ChoosePositive(n - 1, k - 1);
    }
  }

  /** What newQuorumSetAdvance builds is ready for coding ballots. */
  lemma EnumerationIsReady(qs: QuorumSet, n: nat, k: nat)
    requires Holds(qs, n, Found(n, k, 0, {})) && 1 <= k <= n
    ensures Ready(qs, n, k, Choose(n - 1, k - 1))
  {
    hide Holds, AllQuorums, Found, Choose;
    EnumerationIsComplete(qs, n, k);
    ChoosePositive(n - 1, k - 1);
    forall l: nat | l < n ensures |qs[l]| == Choose(n - 1, k - 1) {
      QuorumCount(qs, n, k, l);
    }
  }

  /** The lookups of AQ succeed. */
  predicate HasQuorum(qs: QuorumSet, ballot: nat) {
    |qs| > 0 && Leader(ballot, |qs|) in qs && |qs[Leader(ballot, |qs|)]| > 0
    && ballot / |qs| % |qs[Leader(ballot, |qs|)]| in qs[Leader(ballot, |qs|)]
  }

  function QuorumId(qs: QuorumSet, ballot: nat): nat
    requires HasQuorum(qs, ballot)
  {
    ballot / |qs| % |qs[Leader(ballot, |qs|)]|
  }

  function AQ(qs: QuorumSet, ballot: nat): set<nat>
    requires HasQuorum(qs, ballot)
  {
    qs[Leader(ballot, |qs|)][QuorumId(qs, ballot)]
  }

  lemma MulStep(a: nat, b: nat, n: nat)
    requires a < b
    ensures a * n + n <= b * n
  {
    var d: nat := b - a - 1;
    assert d * n >= 0;
    assert b * n == a * n + n + d * n;
  }

  lemma DivMod(q: nat, r: nat, n: nat)
    requires r < n
    ensures (q * n + r) / n == q && (q * n + r) % n == r && q * n + r >= 0
  {
    var d := (q * n + r) / n;
    assert q * n + r == d * n + (q * n + r) % n;
    if d < q {
      MulStep(d, q, n);
    } else if q < d {
      MulStep(q, d, n);
    }
  }

  /** Every ballot has a quorum, of the right size, and it contains the ballot's leader. */
  lemma EveryBallotHasAQuorum(qs: QuorumSet, n: nat, k: nat, count: nat, ballot: nat)
    requires Ready(qs, n, k, count)
    ensures HasQuorum(qs, ballot)
    ensures IsQuorum(AQ(qs, ballot), n, k) && Leader(ballot, n) in AQ(qs, ballot) && Below(AQ(qs, ballot), n)
  {
    assert Among(qs[Leader(ballot, |qs|)], AQ(qs, ballot));
  }

  lemma AQAt(qs: QuorumSet, n: nat, k: nat, count: nat, ballot: nat)
    requires Ready(qs, n, k, count)
    ensures |qs| == n > 0 && count > 0 && HasQuorum(qs, ballot)
    ensures Leader(ballot, n) in qs && ballot / n % count in qs[Leader(ballot, n)]
    ensures QuorumId(qs, ballot) == ballot / n % count
    ensures AQ(qs, ballot) == qs[Leader(ballot, n)][ballot / n % count]
  {
    EveryBallotHasAQuorum(qs, n, k, count, ballot);
  }

  /** BallotOf: the ballot of a leader and one of its quorums, or -1. */
  method BallotOf(qs: QuorumSet, leader: nat, q: set<nat>) returns (ballot: int)
    requires leader in qs && forall qid :: qid in qs[leader] ==> qid >= 0
    ensures ballot == -1 <==> !Among(qs[leader], q)
    ensures ballot != -1 ==> exists qid :: qid in qs[leader] && qs[leader][qid] == q && ballot == qid * |qs| + leader
  {
    var lqs := qs[leader];
    var left := lqs.Items;
    while left != {}
      invariant left <= lqs.Items
      invariant forall qid :: qid in lqs && (qid, lqs[qid]) !in left ==> lqs[qid] != q
      decreases left
    {
      var item :| item in left;
      var same := Equals(item.1, q);
      if same {
        assert item.0 * |qs| >= 0 && item.0 in lqs && lqs[item.0] == q;
        return item.0 * |qs| + leader;
      }
      left := left - {item};
    }
    assert forall qid :: qid in lqs ==> lqs[qid] != q;
    return -1;
  }

  /** The code: distinct pairs of a leader and a quorum id get distinct ballots below n times the
      number of quorums, every such ballot is hit, and AQ and Leader decode it. */
  lemma BallotCoding(qs: QuorumSet, n: nat, k: nat, count: nat, ballot: nat)
    requires Ready(qs, n, k, count) && ballot < n * count
    ensures ballot / n < count && ballot == ballot / n * n + Leader(ballot, n)
    ensures ballot / n in qs[Leader(ballot, n)] && HasQuorum(qs, ballot) && AQ(qs, ballot) == qs[Leader(ballot, n)][ballot / n]
  {
    hide Ready, HasQuorum, AQ, QuorumId;
    AQAt(qs, n, k, count, ballot);
    QuotientBelow(ballot, n, count);
  }

  lemma QuotientBelow(ballot: nat, n: nat, count: nat)
    requires n > 0 && ballot < n * count
    ensures ballot / n < count && ballot / n % count == ballot / n
  {
    if ballot / n >= count {
      MulLe(count, ballot / n, n);
    }
    DivMod(0, ballot / n, count);
  }

  lemma MulLe(a: nat, b: nat, n: nat)
    requires a <= b
    ensures a * n <= b * n
  {
    if a < b {
      MulStep(a, b, n);
    }
  }

  lemma BallotDecodes(qs: QuorumSet, n: nat, k: nat, count: nat, l: nat, qid: nat)
    requires Ready(qs, n, k, count) && l < n && qid < count
    ensures var ballot := qid * n + l;
      0 <= ballot < n * count && Leader(ballot, n) == l && ballot / n == qid
      && qid in qs[l] && HasQuorum(qs, ballot) && AQ(qs, ballot) == qs[l][qid]
  {
    hide Ready, HasQuorum, AQ, QuorumId;
    AQAt(qs, n, k, count, qid * n + l);
    DivMod(qid, l, n);
    DivMod(0, qid, count);
    MulStep(qid, count, n);
  }

  // ---------------------------------------------------------------- SameHigher

  function SameHigher(qs: QuorumSet, sameAs: nat, higherThan: nat): nat
    requires HasQuorum(qs, sameAs)
  {
    var l := Leader(sameAs, |qs|);
    var k := higherThan / |qs[l]|;
    sameAs + k * |qs[l]| * |qs|
  }

  /** The same leader and the same quorum. It is above higherThan if and only if sameAs is above
      higherThan's remainder, or the shift by whole rounds of quorums exceeds the remainder: with two
      replicas or more, whenever higherThan is at least the number of quorums. */
  lemma SameHigherWorks(qs: QuorumSet, n: nat, k: nat, count: nat, sameAs: nat, higherThan: nat)
    requires Ready(qs, n, k, count)
    ensures HasQuorum(qs, sameAs)
    ensures var b := SameHigher(qs, sameAs, higherThan);
      && Leader(b, n) == Leader(sameAs, n) && HasQuorum(qs, b) && AQ(qs, b) == AQ(qs, sameAs)
      && (b > higherThan <==> (n >= 2 && higherThan >= count) || sameAs > higherThan % count)
  {
    EveryBallotHasAQuorum(qs, n, k, count, sameAs);
    assert |qs| == n && Leader(sameAs, n) in qs && |qs[Leader(sameAs, n)]| == count;
    hide AllQuorums;
    var b := SameHigher(qs, sameAs, higherThan);
    SameHigherNumbers(sameAs, higherThan, count, n);
    assert b == sameAs + higherThan / count * count * n;
  }

  lemma SameHigherNumbers(sameAs: nat, higherThan: nat, count: nat, n: nat)
    requires n > 0 && count > 0
    ensures var b := sameAs + higherThan / count * count * n;
      && b % n == sameAs % n && b / n % count == sameAs / n % count
      && (b > higherThan <==> (n >= 2 && higherThan >= count) || sameAs > higherThan % count)
  {
    var h := higherThan / count;
    var q, l := sameAs / n, sameAs % n;
    assert sameAs == q * n + l;
    SameRound(q, l, h * count, n);
    ModAdd(q, h, count);
    ShiftedAbove(sameAs, higherThan, count, n);
  }

  lemma SameRound(q: nat, l: nat, shift: nat, n: nat)
    requires l < n
    ensures (q * n + l + shift * n) / n == q + shift && (q * n + l + shift * n) % n == l
  {
    assert q * n + l + shift * n == (q + shift) * n + l;
    DivMod(q + shift, l, n);
  }

  lemma ShiftedAbove(sameAs: nat, higherThan: nat, count: nat, n: nat)
    requires n > 0 && count > 0
    ensures sameAs + higherThan / count * count * n > higherThan
       <==> (n >= 2 && higherThan >= count) || sameAs > higherThan % count
  {
    var shift := higherThan / count * count;
    assert higherThan == shift + higherThan % count;
    if n >= 2 {
      MulLe(2, n, shift);
      if higherThan >= count {
        DivPositive(higherThan, count);
        MulLe(1, higherThan / count, count);
      }
    }
  }

  lemma DivPositive(x: nat, d: nat)
    requires 0 < d <= x
    ensures x / d >= 1
  {
  }

  lemma ModAdd(q: nat, h: nat, count: nat)
    requires count > 0
    ensures (q + h * count) % count == q % count
  {
    var d, r := q / count, q % count;
    assert q + h * count == (d + h) * count + r;
    DivMod(d + h, r, count);
  }

  // ---------------------------------------------------------------- the search for an alive quorum

  ghost predicate QuorumAlive(q: set<nat>, id: nat, alive: seq<bool>) {
    forall rid :: rid in q && rid != id ==> rid < |alive| && alive[rid]
  }

  ghost function AlivePeers(n: nat, id: nat, alive: seq<bool>): set<nat>
    requires |alive| == n
  {
    set rid | rid in Range(n) && rid != id && alive[rid]
  }

  lemma {:induction false} PickSubset(a: set<nat>, m: nat) returns (s: set<nat>)
    requires m <= |a|
    ensures s <= a && |s| == m
    decreases |a|
  {
    if m == |a| {
      s := a;
    } else {
      var x :| x in a;
      s := PickSubset(a - {x}, m);
    }
  }

  /** With k - 1 peers alive, the replica leads a quorum that is alive. */
  lemma AliveQuorumExists(qs: QuorumSet, n: nat, k: nat, count: nat, id: nat, alive: seq<bool>) returns (qid: nat)
    requires Ready(qs, n, k, count) && id < n && |alive| == n && |AlivePeers(n, id, alive)| >= k - 1
    ensures qid < count && qid in qs[id] && QuorumAlive(qs[id][qid], id, alive)
  {
    LeadsAQuorum(qs, n, k, count, id);
    var others := PickSubset(AlivePeers(n, id, alive), k - 1);
    var q := others + {id};
    assert IsQuorum(q, n, k) && id in q;
    qid := NumberOf(qs, n, k, count, id, q);
  }

  lemma NumberOf(qs: QuorumSet, n: nat, k: nat, count: nat, l: nat, q: set<nat>) returns (qid: nat)
    requires Ready(qs, n, k, count) && l < n && IsQuorum(q, n, k) && l in q
    ensures qid < count && qid in qs[l] && qs[l][qid] == q
  {
    assert Among(qs[l], q);
    var i: int :| i in qs[l] && qs[l][i] == q;
    qid := i;
  }

  lemma LeadsAQuorum(qs: QuorumSet, n: nat, k: nat, count: nat, id: nat)
    requires Ready(qs, n, k, count) && id < n
    ensures k >= 1 && id in qs
  {
    assert 0 in qs[id] && Among(qs[id], qs[id][0]);
    assert {id} <= qs[id][0];
    OneMember(qs[id][0], id);
  }

  lemma OneMember(q: set<nat>, id: nat)
    requires id in q
    ensures |q| >= 1 && |q - {id}| == |q| - 1
  {
  }

  /** Some ballot's quorum is alive exactly when k - 1 peers are. */
  lemma AliveQuorumNeedsPeers(qs: QuorumSet, n: nat, k: nat, count: nat, id: nat, alive: seq<bool>, ballot: nat)
    requires Ready(qs, n, k, count) && id < n && |alive| == n
    requires HasQuorum(qs, ballot)
    requires QuorumAlive(AQ(qs, ballot), id, alive)
    ensures |AlivePeers(n, id, alive)| >= k - 1
  {
    EveryBallotHasAQuorum(qs, n, k, count, ballot);
    var q := AQ(qs, ballot);
    assert q - {id} <= AlivePeers(n, id, alive);
    SubsetCardinality(q - {id}, AlivePeers(n, id, alive));
    if id in q {
      OneMember(q, id);
    } else {
      assert q - {id} == q;
    }
  }

  /** The ballot after j steps of the search. */
  function BallotAfter(start: nat, j: nat, id: nat, n: nat): nat
    requires n > 0
  {
    if j == 0 then start else (start / n + j) * n + id
  }

  lemma SearchStep(start: nat, j: nat, id: nat, n: nat)
    requires id < n
    ensures NextBallotOf(id, BallotAfter(start, j, id, n), n) == BallotAfter(start, j + 1, id, n)
    ensures BallotAfter(start, j, id, n) < BallotAfter(start, j + 1, id, n)
  {
    if j > 0 {
      DivMod(start / n + j, id, n);
    }
    MulStep(start / n + j, start / n + j + 1, n);
  }

  /** Counting up modulo count from any number meets every residue within count steps. */
  lemma MeetsResidue(from: nat, qid: nat, count: nat) returns (j: nat)
    requires qid < count
    ensures 1 <= j <= count && (from + j) % count == qid
  {
    var r := from % count;
    j := if qid > r then qid - r else count - r + qid;
    assert from == from / count * count + r;
    if qid > r {
      DivMod(from / count, qid, count);
    } else {
      DivMod(from / count + 1, qid, count);
      assert (from / count + 1) * count == from / count * count + count;
    }
  }

  /** The retry loop before a replica announces its ballot. At most count + 1 quorums are checked. */
  method FindAliveQuorum(qs: QuorumSet, n: nat, ghost k: nat, ghost count: nat, id: nat, alive: seq<bool>, start: nat)
    returns (ballot: nat, ghost checks: nat)
    requires Ready(qs, n, k, count) && id < n && |alive| == n
    requires |AlivePeers(n, id, alive)| >= k - 1
    ensures HasQuorum(qs, ballot) && QuorumAlive(AQ(qs, ballot), id, alive) && ballot >= start && checks <= count + 1
    ensures ballot == start || Leader(ballot, n) == id
  {
    hide *;
    ghost var qid := AliveQuorumExists(qs, n, k, count, id, alive);
    ghost var last := MeetsResidue(start / n, qid, count);
    ghost var j: nat := 0;
    SearchedFrom(start, j, id, n);
    ballot, checks := start, 0;
    EveryBallotHasAQuorum(qs, n, k, count, ballot);
    var quorumIsAlive := false;
    while !quorumIsAlive
      invariant ballot == BallotAfter(start, j, id, n) && j <= last
      invariant checks == if quorumIsAlive then j + 1 else j
      invariant HasQuorum(qs, ballot) && Below(AQ(qs, ballot), n)
      invariant quorumIsAlive ==> QuorumAlive(AQ(qs, ballot), id, alive)
      decreases last - j, !quorumIsAlive
    {
      quorumIsAlive := AllAlive(AQ(qs, ballot), id, n, alive);
      checks := checks + 1;
      if !quorumIsAlive {
        AliveAtLast(qs, n, k, count, id, alive, start, j, qid, last);
        SearchStep(start, j, id, n);
        ballot := NextBallotOf(id, ballot, n);
        j := j + 1;
        EveryBallotHasAQuorum(qs, n, k, count, ballot);
      }
    }
    SearchedFrom(start, j, id, n);
  }

  lemma SearchedFrom(start: nat, j: nat, id: nat, n: nat)
    requires id < n
    ensures BallotAfter(start, j, id, n) >= start && (j == 0 ==> BallotAfter(start, j, id, n) == start)
    ensures j > 0 ==> Leader(BallotAfter(start, j, id, n), n) == id
  {
    if j > 0 {
      DivMod(start / n + j, id, n);
      MulLe(start / n + 1, start / n + j, n);
    }
  }

  /** The loop over one quorum: it breaks off at the first dead member. */
  method AllAlive(q: set<nat>, id: nat, n: nat, alive: seq<bool>) returns (all: bool)
    requires |alive| == n && Below(q, n)
    ensures all <==> QuorumAlive(q, id, alive)
  {
    var left := q;
    while left != {}
      invariant left <= q
      invariant forall rid :: rid in q && rid !in left && rid != id ==> alive[rid]
      decreases left
    {
      var rid :| rid in left;
      if rid != id && !alive[rid] {
        return false;
      }
      left := left - {rid};
    }
    return true;
  }

  lemma AliveAtLast(qs: QuorumSet, n: nat, k: nat, count: nat, id: nat, alive: seq<bool>, start: nat, j: nat,
                    qid: nat, last: nat)
    requires Ready(qs, n, k, count) && id < n && |alive| == n && qid < count && last >= 1
    requires qid in qs[id] && QuorumAlive(qs[id][qid], id, alive) && (start / n + last) % count == qid
    ensures var ballot := BallotAfter(start, j, id, n);
      && HasQuorum(qs, ballot) && (j == last ==> QuorumAlive(AQ(qs, ballot), id, alive))
  {
    hide Ready, HasQuorum, AQ, QuorumId;
    AQAt(qs, n, k, count, BallotAfter(start, j, id, n));
    if j == last {
      DivMod(start / n + j, id, n);
    }
  }
}
