/** Batches of several commands: the scan of updateAttributes stops at the first command that raises a
    dependency, so it can leave a larger one out. Here is exactly when it does not. */
module EpaxosBatch {
  import opened State
  import opened DepGraph
  import opened Options
  import opened EpaxosTypes
  import opened EpaxosSpec
  import opened EpaxosProtocol

  predicate Raises(column: map<Key, InstPair>, c: Command, dep: int) {
    c.k in column && LastConflict(column, c) > dep
  }

  /** Whatever the batch conflicts with in the column is at most d. */
  predicate CoversColumn(column: map<Key, InstPair>, cmds: seq<Command>, d: int) {
    forall j :: 0 <= j < |cmds| && cmds[j].k in column ==> LastConflict(column, cmds[j]) <= d
  }

  /** The first command that raises dep has the greatest last conflict of the batch. */
  predicate FirstIsGreatest(column: map<Key, InstPair>, cmds: seq<Command>, dep: int) {
    forall i, j | 0 <= i < j < |cmds| && Raises(column, cmds[i], dep) && Raises(column, cmds[j], dep)
      && (forall k :: 0 <= k < i ==> !Raises(column, cmds[k], dep)) :: LastConflict(column, cmds[j]) <= LastConflict(column, cmds[i])
  }

  lemma {:induction false} FirstRaiseAt(column: map<Key, InstPair>, cmds: seq<Command>, dep: int, i: nat) returns (j: nat)
    requires i <= |cmds| && forall k :: 0 <= k < i ==> !Raises(column, cmds[k], dep)
    ensures j <= |cmds| && (forall k :: 0 <= k < j ==> !Raises(column, cmds[k], dep))
    ensures j < |cmds| ==> Raises(column, cmds[j], dep)
    ensures FirstRaise(column, cmds, dep, i) == if j < |cmds| then Some(LastConflict(column, cmds[j])) else None
    decreases |cmds| - i
  {
    if i == |cmds| || Raises(column, cmds[i], dep) {
      j := i;
    } else {
      j := FirstRaiseAt(column, cmds, dep, i + 1);
    }
  }

  /** One column of a batch is covered exactly when the command at which the scan stops has the
      greatest conflict. */
  lemma ColumnCoveredIff(column: map<Key, InstPair>, cmds: seq<Command>, dep: int)
    ensures CoversColumn(column, cmds, FirstRaise(column, cmds, dep, 0).GetOr(dep))
       <==> FirstIsGreatest(column, cmds, dep)
  {
    var j := FirstRaiseAt(column, cmds, dep, 0);
    if j < |cmds| {
      forall k | 0 <= k < |cmds| && cmds[k].k in column
        ensures LastConflict(column, cmds[k]) > LastConflict(column, cmds[j]) ==> k > j && Raises(column, cmds[k], dep)
      {
      }
    }
  }

  /** updateAttributes records every conflict of a batch exactly when no column stops too early.
      A batch of one command never does. */
  lemma BatchCoveredIff(st: RState, cmds: seq<Command>, seqno: int, deps: seq<int>, replica: nat)
    requires ConflictsKnown(st) && |deps| == st.n && forall i :: 0 <= i < |deps| ==> -1 <= deps[i]
    ensures var a := UpdateAttributes(st, cmds, seqno, deps, replica);
      (forall q :: 0 <= q < st.n && !SkippedColumn(st, replica, q) ==> CoversColumn(st.conflicts[q], cmds, a.deps[q]))
      <==> (forall q :: 0 <= q < st.n && !SkippedColumn(st, replica, q) ==> FirstIsGreatest(st.conflicts[q], cmds, deps[q]))
    ensures |cmds| <= 1 ==> forall q :: 0 <= q < st.n ==> FirstIsGreatest(st.conflicts[q], cmds, deps[q])
  {
    var a := UpdateAttributes(st, cmds, seqno, deps, replica);
    var b := UpdateDeps(st, cmds, seqno, deps, replica, st.n);
    hide CoversColumn, FirstIsGreatest, ConflictsKnown, UpdateDeps, FirstRaise;
    forall q | 0 <= q < st.n && !SkippedColumn(st, replica, q)
      ensures CoversColumn(st.conflicts[q], cmds, a.deps[q]) <==> FirstIsGreatest(st.conflicts[q], cmds, deps[q])
    {
      ColumnCoveredIff(st.conflicts[q], cmds, deps[q]);
    }
    forall q | 0 <= q < st.n && |cmds| <= 1 ensures FirstIsGreatest(st.conflicts[q], cmds, deps[q]) {
      OneIsGreatest(st.conflicts[q], cmds, deps[q]);
    }
  }

  lemma OneIsGreatest(column: map<Key, InstPair>, cmds: seq<Command>, dep: int)
    requires |cmds| <= 1
    ensures FirstIsGreatest(column, cmds, dep)
  {
  }

  const Put10 := Command(PUT, 10, [])
  const Put20 := Command(PUT, 20, [])

  function Heard(c: Command): Instance {
    Instance(Some([c]), 0, 0, PREACCEPTED, 0, [-1, -1, -1], None, 0, 0, 0)
  }

  /** Replica 2 of three, after it has recorded a PUT on key 10 as instance 1 of replica 0 and a PUT on key 20
      as instance 5. */
  function AfterTwoPuts(): RState {
    var st := RState(2, 3, 1, map[Id(0, 1) := Heard(Put10), Id(0, 5) := Heard(Put20)], [5, -1, -1], [-1, -1, -1],
                     [map[], map[], map[]], map[], 0, 0);
    UpdateConflicts(UpdateConflicts(st, [Put10], Id(0, 1), 0), [Put20], Id(0, 5), 0)
  }

  lemma WhatIsRecorded()
    ensures AfterTwoPuts().conflicts == [map[10 := InstPair(1, 1), 20 := InstPair(5, 5)], map[], map[]]
    ensures AfterTwoPuts().id == 2 && AfterTwoPuts().n == 3 && Id(0, 1) in AfterTwoPuts().space && Id(0, 5) in AfterTwoPuts().space
    ensures ConflictsKnown(AfterTwoPuts())
  {
    assert [Put10][..0] == [] && [Put20][..0] == [];
    assert RecordCommands(map[], [Put10], 1) == map[10 := InstPair(1, 1)];
    assert RecordCommands(map[10 := InstPair(1, 1)], [Put20], 5) == map[10 := InstPair(1, 1), 20 := InstPair(5, 5)];
    hide RecordCommands, RecordSeqs;
  }

  /** A batch of two PUTs that replica 2 then proposes depends on instance 1 of replica 0 only, although it
      conflicts with instance 5. */
  lemma BatchMissesConflict()
    ensures var st, cmds, deps := AfterTwoPuts(), [Put10, Put20], [-1, -1, -1];
      ConflictsKnown(st) && st.n == 3 && !SkippedColumn(st, 2, 0) && !FirstIsGreatest(st.conflicts[0], cmds, -1)
      && UpdateAttributes(st, cmds, 0, deps, 2).deps[0] == 1 && !CoversColumn(st.conflicts[0], cmds, 1)
      && cmds[1].k in st.conflicts[0] && LastConflict(st.conflicts[0], cmds[1]) == 5
  {
    WhatIsRecorded();
    hide AfterTwoPuts, ConflictsKnown;
    var st, cmds := AfterTwoPuts(), [Put10, Put20];
    var column := st.conflicts[0];
    assert cmds[0].k in column && LastConflict(column, cmds[0]) == 1;
    assert cmds[1].k in column && LastConflict(column, cmds[1]) == 5;
    assert FirstRaise(column, cmds, -1, 0) == Some(1);
    assert !CoversColumn(column, cmds, 1);
    ColumnCoveredIff(column, cmds, -1);
    hide CoversColumn, FirstIsGreatest, FirstRaise, LastConflict;
    assert UpdateDeps(st, cmds, 0, [-1, -1, -1], 2, 3).deps[0] == 1;
  }

  // ---------------------------------------------------------------- what a batch records

  /** Some of the first n commands is on key k, or writes it. */
  predicate OnKey(cmds: seq<Command>, n: nat, k: Key)
    requires n <= |cmds|
  {
    exists j :: 0 <= j < n && cmds[j].k == k
  }

  predicate WritesKey(cmds: seq<Command>, n: nat, k: Key)
    requires n <= |cmds|
  {
    exists j :: 0 <= j < n && cmds[j].k == k && cmds[j].op != GET
  }

  function LastOf(column: map<Key, InstPair>, k: Key): int {
    if k in column then column[k].last else -1
  }

  function LastWriteOf(column: map<Key, InstPair>, k: Key): int {
    if k in column then column[k].lastWrite else -1
  }

  lemma KeyStep(cmds: seq<Command>, n: nat, k: Key)
    requires n < |cmds|
    ensures OnKey(cmds, n + 1, k) <==> OnKey(cmds, n, k) || cmds[n].k == k
    ensures WritesKey(cmds, n + 1, k) <==> WritesKey(cmds, n, k) || (cmds[n].k == k && cmds[n].op != GET)
  {
    if cmds[n].k == k {
      assert OnKey(cmds, n + 1, k);
    }
  }

  /** The index of a column after a batch of an instance: the keys of the batch know the instance, as a write
      if some command on them is not a GET, and nothing else changes. */
  lemma {:induction false} BatchIsRecorded(column: map<Key, InstPair>, cmds: seq<Command>, instance: nat, k: Key)
    requires k in column ==> column[k].last >= -1 && column[k].lastWrite >= -1
    ensures var column' := RecordCommands(column, cmds, instance);
      && (k in column' <==> k in column || OnKey(cmds, |cmds|, k))
      && LastOf(column', k) == (if OnKey(cmds, |cmds|, k) then Max(LastOf(column, k), instance) else LastOf(column, k))
      && LastWriteOf(column', k)
         == (if WritesKey(cmds, |cmds|, k) then Max(LastWriteOf(column, k), instance) else LastWriteOf(column, k))
    decreases |cmds|
  {
    if cmds != [] {
      var n := |cmds| - 1;
      BatchIsRecorded(column, cmds[..n], instance, k);
      KeyStep(cmds, n, k);
      assert OnKey(cmds[..n], n, k) <==> OnKey(cmds, n, k) by {
        assert forall j :: 0 <= j < n ==> cmds[..n][j] == cmds[j];
      }
      assert WritesKey(cmds[..n], n, k) <==> WritesKey(cmds, n, k) by {
        assert forall j :: 0 <= j < n ==> cmds[..n][j] == cmds[j];
      }
      hide OnKey, WritesKey, RecordCommands;
      RecordLast(column, cmds, instance);
    }
  }

  lemma RecordLast(column: map<Key, InstPair>, cmds: seq<Command>, instance: int)
    requires cmds != []
    ensures RecordCommands(column, cmds, instance)
         == RecordCommand(RecordCommands(column, cmds[..|cmds| - 1], instance), cmds[|cmds| - 1], instance)
  {
  }

  /** The per-key maximal Seq after a batch. */
  lemma {:induction false} BatchSeqIsRecorded(m: map<Key, int>, cmds: seq<Command>, seqno: int, k: Key)
    ensures var m' := RecordSeqs(m, cmds, seqno);
      && (k in m' <==> k in m || OnKey(cmds, |cmds|, k))
      && (k in m' ==> m'[k] == if !OnKey(cmds, |cmds|, k) then m[k] else if k in m then Max(m[k], seqno) else seqno)
    decreases |cmds|
  {
    if cmds != [] {
      var n := |cmds| - 1;
      BatchSeqIsRecorded(m, cmds[..n], seqno, k);
      KeyStep(cmds, n, k);
      assert OnKey(cmds[..n], n, k) <==> OnKey(cmds, n, k) by {
        assert forall j :: 0 <= j < n ==> cmds[..n][j] == cmds[j];
      }
    }
  }

  /** After updateConflicts every command of the batch is in the index, and nothing is forgotten. */
  lemma BatchIsIndexed(st: RState, cmds: seq<Command>, id: Id, seqno: int)
    requires Local(st) && id.replica < st.n && id in st.space
    ensures forall j :: 0 <= j < |cmds| ==> Indexed(UpdateConflicts(st, cmds, id, seqno), id, cmds[j])
    ensures IndexGrows(st, UpdateConflicts(st, cmds, id, seqno))
  {
    var st' := UpdateConflicts(st, cmds, id, seqno);
    var column := st.conflicts[id.replica];
    forall k | k in column ensures column[k].last >= -1 && column[k].lastWrite >= -1 {
      assert PairKnown(st.space, id.replica, column[k]);
    }
    hide ConflictsKnown, RecordCommands, RecordSeqs;
    forall j | 0 <= j < |cmds| ensures Indexed(st', id, cmds[j]) {
      BatchIsRecorded(column, cmds, id.instance, cmds[j].k);
      assert OnKey(cmds, |cmds|, cmds[j].k);
      assert cmds[j].op != GET ==> WritesKey(cmds, |cmds|, cmds[j].k);
    }
    forall x, d | Indexed(st, x, d) ensures Indexed(st', x, d) {
      if x.replica == id.replica {
        BatchIsRecorded(column, cmds, id.instance, d.k);
      }
    }
  }

  // ---------------------------------------------------------------- the Seq of a batch

  /** Seq ends above the recorded Seq of every key of the batch, and no higher than that asks for. */
  lemma {:induction false} RaiseSeqExact(m: map<Key, int>, cmds: seq<Command>, a: Attributes, i: nat)
    requires i <= |cmds|
    ensures var b := RaiseSeq(m, cmds, a, i);
      && b.seqno >= a.seqno && (forall j :: 0 <= j < i && cmds[j].k in m ==> b.seqno > m[cmds[j].k])
      && (b.seqno == a.seqno || exists j :: 0 <= j < i && cmds[j].k in m && b.seqno == m[cmds[j].k] + 1)
      && (b.changed <==> a.changed || b.seqno != a.seqno)
    decreases i
  {
    if i > 0 {
      RaiseSeqExact(m, cmds, a, i - 1);
    }
  }

  /** Column q is scanned and raises the dependency. */
  ghost predicate Raised(st: RState, replica: nat, deps: seq<int>, a: Attributes, q: nat)
    requires |a.deps| == |deps|
  {
    q < |deps| && !SkippedColumn(st, replica, q) && a.deps[q] > deps[q] && a.deps[q] >= 0
  }

  function SeqOf(space: Space, id: Id): int {
    if id in space then space[id].seqno else -1
  }

  /** What is known of Seq and the flag after the first q columns. */
  ghost predicate SeqUpTo(st: RState, seqno: int, deps: seq<int>, replica: nat, a: Attributes, q: nat)
    requires |a.deps| == |deps|
  {
    && a.seqno >= seqno
    && (forall i: nat :: i < q && Raised(st, replica, deps, a, i) ==>
          Id(i, a.deps[i]) in st.space && a.seqno > SeqOf(st.space, Id(i, a.deps[i])))
    && (a.seqno == seqno
        || exists i: nat :: i < q && Raised(st, replica, deps, a, i) && a.seqno == SeqOf(st.space, Id(i, a.deps[i])) + 1)
    && (a.changed <==> exists i: nat :: i < q && Raised(st, replica, deps, a, i))
  }

  lemma {:induction false} DepsSeqExact(st: RState, cmds: seq<Command>, seqno: int, deps: seq<int>, replica: nat, q: nat)
    requires ConflictsKnown(st) && q <= st.n == |deps| && forall i :: 0 <= i < |deps| ==> -1 <= deps[i]
    ensures SeqUpTo(st, seqno, deps, replica, UpdateDeps(st, cmds, seqno, deps, replica, q), q)
    decreases q
  {
    hide ConflictsKnown, UpdateDeps, SeqUpTo;
    if q == 0 {
      NoColumns(st, cmds, seqno, deps, replica);
    } else {
      DepsSeqExact(st, cmds, seqno, deps, replica, q - 1);
      ColumnStep(st, cmds, seqno, deps, replica, q - 1);
      SeqStep(st, seqno, deps, replica, UpdateDeps(st, cmds, seqno, deps, replica, q - 1),
              UpdateDeps(st, cmds, seqno, deps, replica, q), q - 1);
    }
  }

  lemma NoColumns(st: RState, cmds: seq<Command>, seqno: int, deps: seq<int>, replica: nat)
    requires ConflictsKnown(st) && |deps| == st.n && forall i :: 0 <= i < |deps| ==> -1 <= deps[i]
    ensures SeqUpTo(st, seqno, deps, replica, UpdateDeps(st, cmds, seqno, deps, replica, 0), 0)
  {
  }

  lemma SeqStep(st: RState, seqno: int, deps: seq<int>, replica: nat, before: Attributes, a: Attributes, q: nat)
    requires q < |deps| == |before.deps| == |a.deps| && SeqUpTo(st, seqno, deps, replica, before, q)
    requires a.deps == before.deps[q := a.deps[q]] && before.deps[q] == deps[q]
    requires if Raised(st, replica, deps, a, q) then
        Id(q, a.deps[q]) in st.space && a.changed
        && a.seqno == Max(before.seqno, SeqOf(st.space, Id(q, a.deps[q])) + 1)
      else a == before
    ensures SeqUpTo(st, seqno, deps, replica, a, q + 1)
  {
    assert forall i: nat :: i < q ==> (Raised(st, replica, deps, a, i) <==> Raised(st, replica, deps, before, i));
    if a.seqno != seqno && a.seqno == before.seqno {
      var i: nat :| i < q && Raised(st, replica, deps, before, i) && before.seqno == SeqOf(st.space, Id(i, before.deps[i])) + 1;
      assert Raised(st, replica, deps, a, i);
    }
  }

  /** What one more column does. */
  lemma ColumnStep(st: RState, cmds: seq<Command>, seqno: int, deps: seq<int>, replica: nat, q: nat)
    requires ConflictsKnown(st) && q < st.n == |deps| && forall i :: 0 <= i < |deps| ==> -1 <= deps[i]
    ensures var before, a := UpdateDeps(st, cmds, seqno, deps, replica, q), UpdateDeps(st, cmds, seqno, deps, replica, q + 1);
      && a.deps == before.deps[q := a.deps[q]] && before.deps[q] == deps[q]
      && (if Raised(st, replica, deps, a, q) then
            Id(q, a.deps[q]) in st.space && a.changed
            && a.seqno == Max(before.seqno, SeqOf(st.space, Id(q, a.deps[q])) + 1)
          else a == before)
  {
    var before := UpdateDeps(st, cmds, seqno, deps, replica, q);
    var d := FirstRaise(st.conflicts[q], cmds, before.deps[q], 0);
    if d.Some? {
      var j :| 0 <= j < |cmds| && cmds[j].k in st.conflicts[q] && d.value == LastConflict(st.conflicts[q], cmds[j]);
      assert PairKnown(st.space, q, st.conflicts[q][cmds[j].k]);
    }
    hide ConflictsKnown, FirstRaise;
  }

  /** The attributes of any batch: Seq is the least that is not below the one given and above that of every
      instance that a column adds and of every key of the batch, and the flag says whether anything changed. */
  lemma AttributesExact(st: RState, cmds: seq<Command>, seqno: int, deps: seq<int>, replica: nat)
    requires ConflictsKnown(st) && |deps| == st.n && forall i :: 0 <= i < |deps| ==> -1 <= deps[i]
    ensures var a, m := UpdateAttributes(st, cmds, seqno, deps, replica), st.maxSeqPerKey;
      && a.seqno >= seqno
      && (forall q: nat :: Raised(st, replica, deps, a, q) ==> a.seqno > SeqOf(st.space, Id(q, a.deps[q])))
      && (forall j :: 0 <= j < |cmds| && cmds[j].k in m ==> a.seqno > m[cmds[j].k])
      && (a.seqno == seqno
          || (exists q: nat :: Raised(st, replica, deps, a, q) && a.seqno == SeqOf(st.space, Id(q, a.deps[q])) + 1)
          || (exists j :: 0 <= j < |cmds| && cmds[j].k in m && a.seqno == m[cmds[j].k] + 1))
      && (a.changed <==> a.seqno != seqno || a.deps != deps)
  {
    var b := UpdateDeps(st, cmds, seqno, deps, replica, st.n);
    DepsSeqExact(st, cmds, seqno, deps, replica, st.n);
    RaiseSeqExact(st.maxSeqPerKey, cmds, b, |cmds|);
    SkippedStays(st, cmds, seqno, deps, replica);
    hide ConflictsKnown, UpdateDeps, RaiseSeq, SkippedColumn;
    var a := UpdateAttributes(st, cmds, seqno, deps, replica);
    assert forall q: nat :: Raised(st, replica, deps, a, q) <==> Raised(st, replica, deps, b, q);
  }

  lemma SkippedStays(st: RState, cmds: seq<Command>, seqno: int, deps: seq<int>, replica: nat)
    requires ConflictsKnown(st) && |deps| == st.n && forall i :: 0 <= i < |deps| ==> -1 <= deps[i]
    ensures var b := UpdateDeps(st, cmds, seqno, deps, replica, st.n);
      b.deps != deps <==> exists q: nat :: Raised(st, replica, deps, b, q)
  {
    var b := UpdateDeps(st, cmds, seqno, deps, replica, st.n);
    if b.deps != deps {
      var q: nat :| q < |deps| && b.deps[q] != deps[q];
      assert Raised(st, replica, deps, b, q);
    }
  }
}
