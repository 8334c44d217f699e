/** SCANs cover several keys, so the light index can name one command for two of them; then comparing
    dependencies list by list can deny the equality of equal sets. */
module SwiftScans {
  import opened State
  import opened CommandIds
  import opened Sequences
  import opened SwiftDep
  import opened SwiftIndex

  const A := CommandId(1, 0)
  const B := CommandId(2, 0)
  const C := CommandId(3, 0)

  /** A SCAN of n keys from k on. */
  function ScanOf(k: Key, n: nat): Command
    requires n < 256
  {
    Command(SCAN, k, [n, 0, 0, 0, 0, 0, 0, 0])
  }

  const ScanA := Proposal(A, ScanOf(0, 2))
  const ScanB := Proposal(B, ScanOf(1, 2))
  const ScanC := Proposal(C, ScanOf(0, 3))

  lemma KeysOfScan(k: Key, n: nat)
    requires n < 256 && 0 <= k < 256
    ensures WellFormed(ScanOf(k, n)) && KeysOf(ScanOf(k, n)) == seq(n, i => k + i)
  {
    CountOf(n);
    hide LittleEndian64, Wrap64;
    var ks := KeysFrom(k, n);
    assert KeysOf(ScanOf(k, n)) == ks;
    forall i | 0 <= i < n ensures ks[i] == k + i {
      NoWrap(k + i);
    }
    hide KeysFrom;
  }

  lemma NoWrap(x: int)
    requires 0 <= x < 512
    ensures Wrap64(x) == x
  {
  }

  lemma ScanKeys()
    ensures WellFormed(ScanA.cmd) && WellFormed(ScanB.cmd) && WellFormed(ScanC.cmd)
    ensures KeysOf(ScanA.cmd) == [0, 1] && KeysOf(ScanB.cmd) == [1, 2] && KeysOf(ScanC.cmd) == [0, 1, 2]
  {
    hide KeysOf, WellFormed;
    KeysOfScan(0, 2);
    KeysOfScan(1, 2);
    KeysOfScan(0, 3);
  }

  lemma CountOf(n: nat)
    requires n < 256
    ensures LittleEndian64([n, 0, 0, 0, 0, 0, 0, 0]) == n
  {
    var v: Value := [n, 0, 0, 0, 0, 0, 0, 0];
    assert v[4..] == [0, 0, 0, 0];
    assert LittleEndian32(v) == n && LittleEndian32(v[4..]) == 0;
  }

  /** The order in which one replica sees the proposals, and that of another. */
  function First(): seq<Proposal> {
    [ScanA, ScanB, ScanC]
  }

  function Second(): seq<Proposal> {
    [ScanB, ScanA, ScanC]
  }

  lemma LastOfKey(ps: seq<Proposal>, key: Key, cmd: Command)
    requires Proposals(ps) && |ps| >= 2 && cmd.op == SCAN
    requires Touches(ps[0], key) || Touches(ps[1], key)
    ensures Conflicts(IndexAfter(ps, 2), key, cmd) == [if Touches(ps[1], key) then ps[1].id else ps[0].id]
  {
    hide IndexAfter, Touches, KeysOf, WellFormed;
    IndexStep(ps, 0, key);
    IndexStep(ps, 1, key);
  }

  /** What the dependency of a SCAN of three keys consists of. */
  lemma DepOfScan(ps: seq<Proposal>, i: nat)
    requires Proposals(ps) && i < |ps| && |KeysOf(ps[i].cmd)| == 3
    ensures var index, ks, cmd := IndexAfter(ps, i), KeysOf(ps[i].cmd), ps[i].cmd;
      DepAt(ps, i) == Conflicts(index, ks[0], cmd) + Conflicts(index, ks[1], cmd) + Conflicts(index, ks[2], cmd)
  {
    hide IndexAfter, KeysOf, Conflicts, DepOf, WellFormed;
    var index, ks, p := IndexAfter(ps, i), KeysOf(ps[i].cmd), ps[i];
    KeysDistinct(p.cmd);
    NothingYet(index, ks, p);
    DepSplit(index, ks, 1, p.cmd, p.id);
    DepSplit(index, ks, 2, p.cmd, p.id);
    DepSplit(index, ks, 3, p.cmd, p.id);
    hide Distinct;
    assert [] + Conflicts(index, ks[0], p.cmd) == Conflicts(index, ks[0], p.cmd);
  }

  lemma NothingYet(index: Index, keys: seq<Key>, p: Proposal)
    ensures DepOf(index, keys, 0, p.cmd, p.id) == []
  {
  }

  /** Two replicas that see A and B in different orders compute dependencies for C that are equal as sets,
      and Equals denies it. */
  lemma ScanDepsMiscompared()
    ensures Proposals(First()) && Proposals(Second())
    ensures SetOf(DepAt(First(), 2)) == SetOf(DepAt(Second(), 2)) == {A, B}
    ensures !SameDep(DepAt(First(), 2), DepAt(Second(), 2))
  {
    hide *;
    var ps, qs := First(), Second();
    TheyAreProposals();
    DepOfScan(ps, 2);
    DepOfScan(qs, 2);
    forall key | key == 0 || key == 1 || key == 2
      ensures Conflicts(IndexAfter(ps, 2), key, ScanC.cmd) == [if key == 0 then A else B]
      ensures Conflicts(IndexAfter(qs, 2), key, ScanC.cmd) == [if key == 2 then B else A]
    {
      WhoTouches(key);
      LastOfKey(ps, key, ScanC.cmd);
      LastOfKey(qs, key, ScanC.cmd);
    }
    Miscompared();
  }

  lemma TheyAreProposals()
    ensures |First()| == 3 && First()[2] == ScanC && |Second()| == 3 && Second()[2] == ScanC
    ensures Proposals(First()) && Proposals(Second()) && KeysOf(ScanC.cmd) == [0, 1, 2]
  {
    ScanKeys();
    hide KeysOf;
  }

  lemma WhoTouches(key: Key)
    requires key == 0 || key == 1 || key == 2
    ensures First()[0] == Second()[1] == ScanA && First()[1] == Second()[0] == ScanB
    ensures ScanA.id == A && ScanB.id == B && ScanC.cmd.op == SCAN && WellFormed(ScanA.cmd) && WellFormed(ScanB.cmd)
    ensures (Touches(ScanA, key) <==> key != 2) && (Touches(ScanB, key) <==> key != 0)
  {
    ScanKeys();
    hide KeysOf;
  }

  lemma Miscompared()
    ensures SetOf([A] + [B] + [B]) == SetOf([A] + [A] + [B]) == {A, B}
    ensures !SameDep([A] + [B] + [B], [A] + [A] + [B])
  {
    var d1, d2 := [A, B, B], [A, A, B];
    assert [A] + [B] + [B] == d1 && [A] + [A] + [B] == d2;
    assert A in d1 && B in d1 && A in d2 && B in d2;
    assert SeenUpTo(d1, d2, 1) == SeeBoth(SeenUpTo(d1, d2, 0), d1, d2, 0) == Seen({}, {});
    assert SeenUpTo(d1, d2, 2) == SeeBoth(SeenUpTo(d1, d2, 1), d1, d2, 1) == Seen({B}, {A});
    assert SeenUpTo(d1, d2, 3) == SeeBoth(SeenUpTo(d1, d2, 2), d1, d2, 2) == Seen({B}, {A});
  }
}
