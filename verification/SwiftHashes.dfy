/** Leader and follower of SwiftPaxos over many keys: proposals and the leader's hashes may reach a
    follower in any order, and in the end every key's hash log agrees with the leader's
    (swift/swift.go). */
module SwiftHashes {
  import opened CommandIds
  import opened Options
  import opened Sequences
  import opened State
  import opened Traces
  import opened HashLogSpec
  import opened SwiftIndex

  /** A leader's message about a command that has not been proposed here yet. */
  datatype LeaderHash<H> = LeaderHash(hashes: seq<H>, seqnum: int)

  datatype FState<H> = FState(
    proposes: map<CommandId, Command>,
    pendingHashUpds: map<CommandId, LeaderHash<H>>,
    keys: Index,
    hlog: Logs<H>)

  // ---------------------------------------------------------------- the handlers

  /** The loop of updateLogs over the first n keys. */
  function UpdateKeys<H>(step: Hasher<H>, zero: H, logs: Logs<H>, keys: seq<Key>, n: nat, cmdId: CommandId, s: int,
                         hs: seq<H>): Logs<H>
    requires n <= |keys| == |hs|
  {
    if n == 0 then logs
    else
      var before := UpdateKeys(step, zero, logs, keys, n - 1, cmdId, s, hs);
      before[keys[n - 1] := Update(step, LogOf(zero, before, keys[n - 1]), cmdId, s, hs[n - 1])]
  }

  predicate HashesFit<H>(cmd: Command, hs: seq<H>) {
    WellFormed(cmd) && |hs| == |KeysOf(cmd)|
  }

  function RecordLeaderHash<H>(step: Hasher<H>, zero: H, st: FState<H>, cmdId: CommandId, s: int, hs: seq<H>): FState<H>
    requires cmdId in st.proposes ==> HashesFit(st.proposes[cmdId], hs)
  {
    if cmdId !in st.proposes then st.(pendingHashUpds := st.pendingHashUpds[cmdId := LeaderHash(hs, s)])
    else
      var ks := KeysOf(st.proposes[cmdId]);
      st.(hlog := UpdateKeys(step, zero, st.hlog, ks, |ks|, cmdId, s, hs))
  }

  /** What a replica that does not lead does with a proposal before it answers. */
  function TakeProposal<H>(step: Hasher<H>, zero: H, st: FState<H>, cmd: Command, cmdId: CommandId): FState<H>
    requires WellFormed(cmd)
    requires cmdId in st.pendingHashUpds ==> HashesFit(cmd, st.pendingHashUpds[cmdId].hashes)
  {
    var ks := KeysOf(cmd);
    var st1 := st.(proposes := st.proposes[cmdId := cmd],
                   keys := AddKeys(st.keys, ks, |ks|, cmd, cmdId),
                   hlog := AppendKeys(step, zero, st.hlog, ks, |ks|, cmdId));
    if cmdId in st.pendingHashUpds then
      var upd := st.pendingHashUpds[cmdId];
      RecordLeaderHash(step, zero, st1.(pendingHashUpds := st.pendingHashUpds - {cmdId}), cmdId, upd.seqnum, upd.hashes)
    else st1
  }

  class Follower<H(==)> {
    const r: Replica<H>
    var proposes: map<CommandId, Command>
    var pendingHashUpds: map<CommandId, LeaderHash<H>>

    constructor (r: Replica<H>)
      ensures this.r == r && proposes == map[] && pendingHashUpds == map[]
    {
      this.r := r;
      proposes, pendingHashUpds := map[], map[];
    }

    function Abs(): FState<H>
      reads this, r
    {
      FState(proposes, pendingHashUpds, r.keys, r.hlog)
    }

    /** The case of ProposeChan in run, up to the hashes. */
    method HandlePropose(cmd: Command, cmdId: CommandId)
      requires WellFormed(cmd)
      requires cmdId in pendingHashUpds ==> HashesFit(cmd, pendingHashUpds[cmdId].hashes)
      modifies this, r
      ensures Abs() == TakeProposal(r.step, r.zero, old(Abs()), cmd, cmdId)
    {
      proposes := proposes[cmdId := cmd];
      var dep, hs := r.GetDepAndHashes(cmd, cmdId);
      if cmdId in pendingHashUpds {
        var upd := pendingHashUpds[cmdId];
        pendingHashUpds := pendingHashUpds - {cmdId};
        HandleLeaderHash(cmdId, upd.seqnum, upd.hashes);
      }
    }

    /** recordLeaderHash. */
    method HandleLeaderHash(cmdId: CommandId, s: int, hs: seq<H>)
      requires cmdId in proposes ==> HashesFit(proposes[cmdId], hs)
      modifies this, r
      ensures Abs() == RecordLeaderHash(r.step, r.zero, old(Abs()), cmdId, s, hs)
    {
      if cmdId !in proposes {
        pendingHashUpds := pendingHashUpds[cmdId := LeaderHash(hs, s)];
        return;
      }
      UpdateLogs(proposes[cmdId], cmdId, s, hs);
    }

    method UpdateLogs(cmd: Command, cmdId: CommandId, s: int, hs: seq<H>)
      requires HashesFit(cmd, hs)
      modifies r
      ensures r.hlog == UpdateKeys(r.step, r.zero, old(r.hlog), KeysOf(cmd), |KeysOf(cmd)|, cmdId, s, hs)
      ensures r.keys == old(r.keys)
    {
      hide Update, KeysOf;
      var keys := KeysOf(cmd);
      ghost var hlog0 := r.hlog;
      for i := 0 to |keys|
        invariant r.hlog == UpdateKeys(r.step, r.zero, hlog0, keys, i, cmdId, s, hs)
        invariant r.keys == old(r.keys)
      {
        var l := NewLog(r.zero);
        if keys[i] in r.hlog {
          l := r.hlog[keys[i]];
        }
        r.hlog := r.hlog[keys[i] := Update(r.step, l, cmdId, s, hs[i])];
      }
    }
  }

  // ---------------------------------------------------------------- one key of many

  lemma {:induction false} AppendKeysLog<H>(step: Hasher<H>, zero: H, logs: Logs<H>, keys: seq<Key>, n: nat, cmdId: CommandId,
                                            key: Key)
    requires n <= |keys| && Distinct(keys)
    ensures LogOf(zero, AppendKeys(step, zero, logs, keys, n, cmdId), key)
         == if key in keys[..n] then Append(step, LogOf(zero, logs, key), cmdId) else LogOf(zero, logs, key)
  {
    hide Append;
    if n > 0 {
      AppendKeysLog(step, zero, logs, keys, n - 1, cmdId, key);
      assert keys[..n] == keys[..n - 1] + [keys[n - 1]];
      assert keys[n - 1] !in keys[..n - 1];
    }
  }

  lemma {:induction false} UpdateKeysLog<H>(step: Hasher<H>, zero: H, logs: Logs<H>, keys: seq<Key>, n: nat, cmdId: CommandId,
                                            s: int, hs: seq<H>, k: nat)
    requires n <= |keys| == |hs| && Distinct(keys) && k < |keys|
    ensures LogOf(zero, UpdateKeys(step, zero, logs, keys, n, cmdId, s, hs), keys[k])
         == if k < n then Update(step, LogOf(zero, logs, keys[k]), cmdId, s, hs[k]) else LogOf(zero, logs, keys[k])
  {
    hide Update;
    if n > 0 {
      UpdateKeysLog(step, zero, logs, keys, n - 1, cmdId, s, hs, k);
    }
  }

  lemma {:induction false} UpdateKeysOther<H>(step: Hasher<H>, zero: H, logs: Logs<H>, keys: seq<Key>, n: nat, cmdId: CommandId,
                                              s: int, hs: seq<H>, key: Key)
    requires n <= |keys| == |hs| && key !in keys
    ensures LogOf(zero, UpdateKeys(step, zero, logs, keys, n, cmdId, s, hs), key) == LogOf(zero, logs, key)
  {
    hide Update;
    if n > 0 {
      UpdateKeysOther(step, zero, logs, keys, n - 1, cmdId, s, hs, key);
    }
  }

  lemma {:induction false} HashAt<H>(step: Hasher<H>, zero: H, logs: Logs<H>, keys: seq<Key>, n: nat, cmdId: CommandId, k: nat)
    requires k < n <= |keys| && Distinct(keys)
    ensures |HashesOf(step, zero, logs, keys, n, cmdId)| == n
    ensures HashesOf(step, zero, logs, keys, n, cmdId)[k] == AppendHash(step, LogOf(zero, logs, keys[k]), cmdId)
  {
    hide AppendHash, Append;
    if n > 1 && k < n - 1 {
      HashAt(step, zero, logs, keys, n - 1, cmdId, k);
    } else {
      HashCount(step, zero, logs, keys, n - 1, cmdId);
      AppendKeysLog(step, zero, logs, keys, n - 1, cmdId, keys[n - 1]);
      assert keys[n - 1] !in keys[..n - 1];
    }
  }

  lemma {:induction false} HashCount<H>(step: Hasher<H>, zero: H, logs: Logs<H>, keys: seq<Key>, n: nat, cmdId: CommandId)
    requires n <= |keys|
    ensures |HashesOf(step, zero, logs, keys, n, cmdId)| == n
  {
    hide AppendHash, Append;
    if n > 0 {
      HashCount(step, zero, logs, keys, n - 1, cmdId);
    }
  }

  // ---------------------------------------------------------------- the leader

  /** The logs of a leader after the first n proposals: it only appends. */
  function LeaderLogs<H>(step: Hasher<H>, zero: H, ps: seq<Proposal>, n: nat): Logs<H>
    requires n <= |ps| && Proposals(ps)
  {
    if n == 0 then map[]
    else
      var ks := KeysOf(ps[n - 1].cmd);
      AppendKeys(step, zero, LeaderLogs(step, zero, ps, n - 1), ks, |ks|, ps[n - 1].id)
  }

  /** The hashes that the leader announces for proposal i. */
  function LeaderHashes<H>(step: Hasher<H>, zero: H, ps: seq<Proposal>, i: nat): seq<H>
    requires i < |ps| && Proposals(ps)
  {
    var ks := KeysOf(ps[i].cmd);
    HashesOf(step, zero, LeaderLogs(step, zero, ps, i), ks, |ks|, ps[i].id)
  }

  /** The commands among the first n that touch a key. */
  function Touching(ps: seq<Proposal>, n: nat, key: Key): seq<CommandId>
    requires n <= |ps| && Proposals(ps)
  {
    if n == 0 then []
    else if Touches(ps[n - 1], key) then Touching(ps, n - 1, key) + [ps[n - 1].id]
    else Touching(ps, n - 1, key)
  }

  ghost predicate TouchedBy(ps: seq<Proposal>, n: nat, key: Key, c: CommandId)
    requires n <= |ps| && Proposals(ps)
  {
    exists i :: 0 <= i < n && Touches(ps[i], key) && ps[i].id == c
  }

  lemma {:induction false} TouchingIs(ps: seq<Proposal>, n: nat, key: Key)
    requires n <= |ps| && Proposals(ps)
    ensures Distinct(Touching(ps, n, key))
    ensures forall c :: c in Touching(ps, n, key) <==> TouchedBy(ps, n, key, c)
  {
    hide Touches;
    if n > 0 {
      TouchingIs(ps, n - 1, key);
      forall c ensures TouchedBy(ps, n, key, c) <==> TouchedBy(ps, n - 1, key, c) || (Touches(ps[n - 1], key) && ps[n - 1].id == c) {
        if Touches(ps[n - 1], key) && ps[n - 1].id == c {
          assert TouchedBy(ps, n, key, c);
        }
      }
      assert !TouchedBy(ps, n - 1, key, ps[n - 1].id);
    }
  }

  /** The leader's log of a key is the fold over the commands that touch it. */
  lemma {:induction false} LeaderLogIs<H>(step: Hasher<H>, zero: H, ps: seq<Proposal>, n: nat, key: Key)
    requires n <= |ps| && Proposals(ps)
    ensures var ids := Touching(ps, n, key);
      LogOf(zero, LeaderLogs(step, zero, ps, n), key) == Log(-1, zero, ids, Fold(step, zero, ids), map[])
  {
    if n > 0 {
      var ks, id := KeysOf(ps[n - 1].cmd), ps[n - 1].id;
      LeaderLogIs(step, zero, ps, n - 1, key);
      KeysDistinct(ps[n - 1].cmd);
      AppendKeysLog(step, zero, LeaderLogs(step, zero, ps, n - 1), ks, |ks|, id, key);
      assert ks[..|ks|] == ks;
      FoldMore(step, zero, Touching(ps, n - 1, key), id);
      hide AppendKeys, KeysOf;
    }
  }

  /** The hash that the leader announces for a key of proposal i. */
  lemma AnnouncedHash<H>(step: Hasher<H>, zero: H, ps: seq<Proposal>, i: nat, k: nat)
    requires i < |ps| && Proposals(ps) && k < |KeysOf(ps[i].cmd)|
    ensures |LeaderHashes(step, zero, ps, i)| == |KeysOf(ps[i].cmd)|
    ensures LeaderHashes(step, zero, ps, i)[k] == Fold(step, zero, Touching(ps, i + 1, KeysOf(ps[i].cmd)[k]))
  {
    var ks := KeysOf(ps[i].cmd);
    KeysDistinct(ps[i].cmd);
    HashAt(step, zero, LeaderLogs(step, zero, ps, i), ks, |ks|, ps[i].id, k);
    LeaderLogIs(step, zero, ps, i, ks[k]);
    FoldMore(step, zero, Touching(ps, i, ks[k]), ps[i].id);
  }

  // ---------------------------------------------------------------- the follower

  /** Proposal i arrives, or the leader's hashes of proposal i do. */
  datatype Arrival = Proposed(i: nat) | Announced(i: nat)

  ghost predicate Arrivals(ps: seq<Proposal>, es: seq<Arrival>) {
    && (forall a :: 0 <= a < |es| ==> es[a].i < |ps|)
    && Distinct(es)
  }

  /** The leader's sequence numbers increase. */
  ghost predicate Numbered(ps: seq<Proposal>, seqnums: seq<int>) {
    && |seqnums| == |ps|
    && (forall i :: 0 <= i < |seqnums| ==> seqnums[i] >= 0)
    && forall i, j :: 0 <= i < j < |seqnums| ==> seqnums[i] < seqnums[j]
  }

  /** The commands proposed so far that touch a key, in order of arrival. */
  function Known(ps: seq<Proposal>, es: seq<Arrival>, key: Key): seq<CommandId>
    requires Proposals(ps) && forall a :: 0 <= a < |es| ==> es[a].i < |ps|
  {
    if es == [] then []
    else
      var e, ids := es[|es| - 1], Known(ps, es[..|es| - 1], key);
      if e.Proposed? && Touches(ps[e.i], key) then ids + [ps[e.i].id] else ids
  }

  /** What the log of the key has been told by the leader: the hashes of commands that were both proposed
      and announced. */
  ghost function Confirmed<H>(step: Hasher<H>, zero: H, ps: seq<Proposal>, seqnums: seq<int>, es: seq<Arrival>, key: Key)
    : map<CommandId, UpdateEntry<H>>
    requires Proposals(ps) && |seqnums| == |ps|
  {
    map i | 0 <= i < |ps| && Proposed(i) in es && Announced(i) in es && Touches(ps[i], key) ::
      ps[i].id := UpdateEntry(Fold(step, zero, Touching(ps, i + 1, key)), seqnums[i])
  }

  /** The follower's state: what was announced and not proposed waits, and every key's log is in the closed
      form of what it has been told. */
  ghost predicate FollowerOk<H>(step: Hasher<H>, zero: H, ps: seq<Proposal>, seqnums: seq<int>, es: seq<Arrival>, st: FState<H>)
    requires Proposals(ps) && Numbered(ps, seqnums) && Arrivals(ps, es)
  {
    && (forall i :: 0 <= i < |ps| ==> (ps[i].id in st.proposes <==> Proposed(i) in es))
    && (forall i :: 0 <= i < |ps| && Proposed(i) in es ==> st.proposes[ps[i].id] == ps[i].cmd)
    && (forall i :: 0 <= i < |ps| ==> (ps[i].id in st.pendingHashUpds <==> Announced(i) in es && Proposed(i) !in es))
    && (forall i :: 0 <= i < |ps| && ps[i].id in st.pendingHashUpds ==>
          st.pendingHashUpds[ps[i].id] == LeaderHash(LeaderHashes(step, zero, ps, i), seqnums[i]))
    && forall key: Key :: KeyOk(step, zero, ps, seqnums, es, key, st.hlog)
  }

  ghost predicate KeyOk<H>(step: Hasher<H>, zero: H, ps: seq<Proposal>, seqnums: seq<int>, es: seq<Arrival>, key: Key, logs: Logs<H>)
    requires Proposals(ps) && Numbered(ps, seqnums) && Arrivals(ps, es)
  {
    ClosedOn(step, zero, Known(ps, es, key), Confirmed(step, zero, ps, seqnums, es, key), LogOf(zero, logs, key))
  }

  lemma {:induction false} KnownIs(ps: seq<Proposal>, es: seq<Arrival>, key: Key)
    requires Proposals(ps) && Arrivals(ps, es)
    ensures forall i :: 0 <= i < |ps| ==> (ps[i].id in Known(ps, es, key) <==> Proposed(i) in es && Touches(ps[i], key))
    ensures forall c :: c in Known(ps, es, key) ==> exists i :: 0 <= i < |ps| && ps[i].id == c
  {
    hide Touches;
    if es != [] {
      var init := es[..|es| - 1];
      assert es == init + [es[|es| - 1]];
      KnownIs(ps, init, key);
    }
  }

  // ---------------------------------------------------------------- one arrival

  lemma InitOf(ps: seq<Proposal>, es: seq<Arrival>)
    requires Arrivals(ps, es) && es != []
    ensures var init, e := es[..|es| - 1], es[|es| - 1];
      Arrivals(ps, init) && e !in init && e.i < |ps| && forall x :: x in es <==> x in init || x == e
  {
    assert es == es[..|es| - 1] + [es[|es| - 1]];
  }

  ghost predicate Both(es: seq<Arrival>, i: nat) {
    Proposed(i) in es && Announced(i) in es
  }

  lemma ConfirmedIs<H>(step: Hasher<H>, zero: H, ps: seq<Proposal>, seqnums: seq<int>, es: seq<Arrival>, key: Key)
    requires Proposals(ps) && |seqnums| == |ps|
    ensures var upd := Confirmed(step, zero, ps, seqnums, es, key);
      && (forall c :: c in upd ==> exists i :: 0 <= i < |ps| && ps[i].id == c)
      && forall i :: 0 <= i < |ps| ==>
           && (ps[i].id in upd <==> Both(es, i) && Touches(ps[i], key))
           && (ps[i].id in upd ==> upd[ps[i].id] == UpdateEntry(Fold(step, zero, Touching(ps, i + 1, key)), seqnums[i]))
  {
    hide Touches, Fold, Touching;
  }

  /** Proposal i is proposed and announced now, and was not before. */
  lemma ConfirmedMore<H>(step: Hasher<H>, zero: H, ps: seq<Proposal>, seqnums: seq<int>, es: seq<Arrival>, i: nat, key: Key)
    requires Proposals(ps) && Numbered(ps, seqnums) && Arrivals(ps, es) && es != []
    requires es[|es| - 1].i == i && Proposed(i) in es && Announced(i) in es
    ensures i < |ps|
    ensures var before, after := Confirmed(step, zero, ps, seqnums, es[..|es| - 1], key), Confirmed(step, zero, ps, seqnums, es, key);
      && ps[i].id !in before
      && after == if Touches(ps[i], key) then before[ps[i].id := UpdateEntry(Fold(step, zero, Touching(ps, i + 1, key)), seqnums[i])]
                  else before
  {
    hide Touches, Fold, Touching, Arrivals, Confirmed;
    var init := es[..|es| - 1];
    InitOf(ps, es);
    assert forall j: nat :: j != i ==> Both(es, j) == Both(init, j);
    assert Both(es, i) && !Both(init, i);
    ConfirmedIs(step, zero, ps, seqnums, init, key);
    ConfirmedIs(step, zero, ps, seqnums, es, key);
  }

  lemma ConfirmedSame<H>(step: Hasher<H>, zero: H, ps: seq<Proposal>, seqnums: seq<int>, es: seq<Arrival>, i: nat, key: Key)
    requires Proposals(ps) && Numbered(ps, seqnums) && Arrivals(ps, es) && es != []
    requires es[|es| - 1].i == i && !(Proposed(i) in es && Announced(i) in es)
    ensures Confirmed(step, zero, ps, seqnums, es, key) == Confirmed(step, zero, ps, seqnums, es[..|es| - 1], key)
  {
    hide Touches, Fold, Touching, Arrivals, Confirmed;
    var init := es[..|es| - 1];
    InitOf(ps, es);
    assert forall j: nat :: Both(es, j) == Both(init, j);
    ConfirmedIs(step, zero, ps, seqnums, init, key);
    ConfirmedIs(step, zero, ps, seqnums, es, key);
  }

  lemma ConfirmedNumbers<H>(step: Hasher<H>, zero: H, ps: seq<Proposal>, seqnums: seq<int>, es: seq<Arrival>, key: Key)
    requires Proposals(ps) && Numbered(ps, seqnums)
    ensures forall c :: c in Confirmed(step, zero, ps, seqnums, es, key) ==> Confirmed(step, zero, ps, seqnums, es, key)[c].seqnum >= 0
  {
    hide Touches, Fold, Touching;
  }

  /** The hashes of proposal i reach the log of a key after its proposal. */
  lemma KeyUpdated<H>(step: Hasher<H>, zero: H, ps: seq<Proposal>, seqnums: seq<int>, ids: seq<CommandId>,
                      upd: map<CommandId, UpdateEntry<H>>, logs: Logs<H>, i: nat, key: Key)
    requires Proposals(ps) && Numbered(ps, seqnums) && i < |ps| && ps[i].id !in upd
    requires ClosedOn(step, zero, ids, upd, LogOf(zero, logs, key))
    ensures HashesFit(ps[i].cmd, LeaderHashes(step, zero, ps, i))
    ensures var ks := KeysOf(ps[i].cmd);
      var logs' := UpdateKeys(step, zero, logs, ks, |ks|, ps[i].id, seqnums[i], LeaderHashes(step, zero, ps, i));
      ClosedOn(step, zero, ids,
               if Touches(ps[i], key) then upd[ps[i].id := UpdateEntry(Fold(step, zero, Touching(ps, i + 1, key)), seqnums[i])] else upd,
               LogOf(zero, logs', key))
  {
    var ks, hs := KeysOf(ps[i].cmd), LeaderHashes(step, zero, ps, i);
    KeysDistinct(ps[i].cmd);
    HashCount(step, zero, LeaderLogs(step, zero, ps, i), ks, |ks|, ps[i].id);
    hide ClosedOn, Fold, UpdateKeys, LeaderHashes, Touching, LeaderLogs;
    if key in ks {
      var k :| 0 <= k < |ks| && ks[k] == key;
      AnnouncedHash(step, zero, ps, i, k);
      UpdateKeysLog(step, zero, logs, ks, |ks|, ps[i].id, seqnums[i], hs, k);
      UpdateClosed(step, zero, ids, upd, LogOf(zero, logs, key), ps[i].id, seqnums[i], hs[k]);
    } else {
      UpdateKeysOther(step, zero, logs, ks, |ks|, ps[i].id, seqnums[i], hs, key);
    }
  }

  /** A proposal reaches the log of a key. */
  lemma KeyAppended<H>(step: Hasher<H>, zero: H, p: Proposal, ids: seq<CommandId>, upd: map<CommandId, UpdateEntry<H>>,
                       logs: Logs<H>, key: Key)
    requires WellFormed(p.cmd) && p.id !in ids && forall x :: x in upd ==> upd[x].seqnum >= 0
    requires ClosedOn(step, zero, ids, upd, LogOf(zero, logs, key))
    ensures var ks := KeysOf(p.cmd);
      ClosedOn(step, zero, if Touches(p, key) then ids + [p.id] else ids, upd,
               LogOf(zero, AppendKeys(step, zero, logs, ks, |ks|, p.id), key))
  {
    var ks := KeysOf(p.cmd);
    KeysDistinct(p.cmd);
    AppendKeysLog(step, zero, logs, ks, |ks|, p.id, key);
    assert ks[..|ks|] == ks;
    hide ClosedOn, AppendKeys, KeysOf;
    if Touches(p, key) {
      AppendClosed(step, zero, ids, upd, LogOf(zero, logs, key), p.id);
    }
  }

  function TakeArrival<H>(step: Hasher<H>, zero: H, ps: seq<Proposal>, seqnums: seq<int>, st: FState<H>, e: Arrival): FState<H>
    requires Proposals(ps) && |seqnums| == |ps| && e.i < |ps|
    requires e.Proposed? && ps[e.i].id in st.pendingHashUpds ==> HashesFit(ps[e.i].cmd, st.pendingHashUpds[ps[e.i].id].hashes)
    requires e.Announced? && ps[e.i].id in st.proposes ==>
               HashesFit(st.proposes[ps[e.i].id], LeaderHashes(step, zero, ps, e.i))
  {
    if e.Proposed? then TakeProposal(step, zero, st, ps[e.i].cmd, ps[e.i].id)
    else RecordLeaderHash(step, zero, st, ps[e.i].id, seqnums[e.i], LeaderHashes(step, zero, ps, e.i))
  }

  lemma HashesAlwaysFit<H>(step: Hasher<H>, zero: H, ps: seq<Proposal>, i: nat)
    requires Proposals(ps) && i < |ps|
    ensures HashesFit(ps[i].cmd, LeaderHashes(step, zero, ps, i))
  {
    var ks := KeysOf(ps[i].cmd);
    HashCount(step, zero, LeaderLogs(step, zero, ps, i), ks, |ks|, ps[i].id);
  }

  /** The handlers never meet hashes that do not fit the command. */
  lemma ArrivalFits<H>(step: Hasher<H>, zero: H, ps: seq<Proposal>, seqnums: seq<int>, es: seq<Arrival>, st: FState<H>, e: Arrival)
    requires Proposals(ps) && Numbered(ps, seqnums) && Arrivals(ps, es) && FollowerOk(step, zero, ps, seqnums, es, st)
    requires e.i < |ps|
    ensures e.Proposed? && ps[e.i].id in st.pendingHashUpds ==> HashesFit(ps[e.i].cmd, st.pendingHashUpds[ps[e.i].id].hashes)
    ensures e.Announced? && ps[e.i].id in st.proposes ==> HashesFit(st.proposes[ps[e.i].id], LeaderHashes(step, zero, ps, e.i))
  {
    hide KeyOk, HashesFit, LeaderHashes;
    HashesAlwaysFit(step, zero, ps, e.i);
  }

  lemma ProposedKey<H>(step: Hasher<H>, zero: H, ps: seq<Proposal>, seqnums: seq<int>, es: seq<Arrival>, st: FState<H>, i: nat, key: Key)
    requires Proposals(ps) && Numbered(ps, seqnums) && Arrivals(ps, es) && es != [] && es[|es| - 1] == Proposed(i)
    requires FollowerOk(step, zero, ps, seqnums, es[..|es| - 1], st) && i < |ps|
    ensures ps[i].id in st.pendingHashUpds ==> HashesFit(ps[i].cmd, st.pendingHashUpds[ps[i].id].hashes)
    ensures KeyOk(step, zero, ps, seqnums, es, key, TakeProposal(step, zero, st, ps[i].cmd, ps[i].id).hlog)
  {
    var init, p := es[..|es| - 1], ps[i];
    ArrivalFits(step, zero, ps, seqnums, init, st, Proposed(i));
    InitOf(ps, es);
    assert KeyOk(step, zero, ps, seqnums, init, key, st.hlog);
    assert ps[i].id in st.pendingHashUpds ==>
             st.pendingHashUpds[ps[i].id] == LeaderHash(LeaderHashes(step, zero, ps, i), seqnums[i]);
    KnownIs(ps, init, key);
    ConfirmedNumbers(step, zero, ps, seqnums, init, key);
    hide ClosedOn, FollowerOk, AppendKeys, UpdateKeys, AddKeys, Confirmed, Touching, LeaderHashes, HashesFit, Touches, Fold, Arrivals,
      Numbered;
    var ids, upd := Known(ps, init, key), Confirmed(step, zero, ps, seqnums, init, key);
    KeyAppended(step, zero, p, ids, upd, st.hlog, key);
    var ks := KeysOf(p.cmd);
    var logs := AppendKeys(step, zero, st.hlog, ks, |ks|, p.id);
    if p.id in st.pendingHashUpds {
      ConfirmedMore(step, zero, ps, seqnums, es, i, key);
      KeyUpdated(step, zero, ps, seqnums, Known(ps, es, key), upd, logs, i, key);
    } else {
      ConfirmedSame(step, zero, ps, seqnums, es, i, key);
    }
  }

  lemma AnnouncedKey<H>(step: Hasher<H>, zero: H, ps: seq<Proposal>, seqnums: seq<int>, es: seq<Arrival>, st: FState<H>, i: nat, key: Key)
    requires Proposals(ps) && Numbered(ps, seqnums) && Arrivals(ps, es) && es != [] && es[|es| - 1] == Announced(i)
    requires FollowerOk(step, zero, ps, seqnums, es[..|es| - 1], st) && i < |ps|
    ensures ps[i].id in st.proposes ==> HashesFit(st.proposes[ps[i].id], LeaderHashes(step, zero, ps, i))
    ensures KeyOk(step, zero, ps, seqnums, es, key,
                  RecordLeaderHash(step, zero, st, ps[i].id, seqnums[i], LeaderHashes(step, zero, ps, i)).hlog)
  {
    var init, p := es[..|es| - 1], ps[i];
    ArrivalFits(step, zero, ps, seqnums, init, st, Announced(i));
    InitOf(ps, es);
    assert KeyOk(step, zero, ps, seqnums, init, key, st.hlog);
    assert p.id in st.proposes ==> st.proposes[p.id] == p.cmd;
    assert p.id in st.proposes <==> Proposed(i) in es;
    hide ClosedOn, FollowerOk, UpdateKeys, Confirmed, Touching, LeaderHashes, HashesFit, Touches, Fold, Arrivals, Numbered;
    if p.id in st.proposes {
      ConfirmedMore(step, zero, ps, seqnums, es, i, key);
      KeyUpdated(step, zero, ps, seqnums, Known(ps, init, key), Confirmed(step, zero, ps, seqnums, init, key), st.hlog, i, key);
    } else {
      ConfirmedSame(step, zero, ps, seqnums, es, i, key);
    }
  }

  lemma BufferOk<H>(step: Hasher<H>, zero: H, ps: seq<Proposal>, seqnums: seq<int>, es: seq<Arrival>, st: FState<H>, st': FState<H>)
    requires Proposals(ps) && Numbered(ps, seqnums) && Arrivals(ps, es) && es != []
    requires FollowerOk(step, zero, ps, seqnums, es[..|es| - 1], st)
    requires forall key: Key :: KeyOk(step, zero, ps, seqnums, es, key, st'.hlog)
    requires var e := es[|es| - 1]; e.i < |ps| && var id := ps[e.i].id;
      if e.Proposed? then
        st'.proposes == st.proposes[id := ps[e.i].cmd] && st'.pendingHashUpds == st.pendingHashUpds - {id}
      else
        st'.proposes == st.proposes
        && st'.pendingHashUpds == if id in st.proposes then st.pendingHashUpds
                                  else st.pendingHashUpds[id := LeaderHash(LeaderHashes(step, zero, ps, e.i), seqnums[e.i])]
    ensures FollowerOk(step, zero, ps, seqnums, es, st')
  {
    hide KeyOk, LeaderHashes, Arrivals, Numbered;
    InitOf(ps, es);
  }

  function RunFollower<H>(step: Hasher<H>, zero: H, ps: seq<Proposal>, seqnums: seq<int>, es: seq<Arrival>): (st: FState<H>)
    requires Proposals(ps) && Numbered(ps, seqnums) && Arrivals(ps, es)
    ensures FollowerOk(step, zero, ps, seqnums, es, st)
  {
    if es == [] then
      StartFollower(step, zero, ps, seqnums);
      FState(map[], map[], map[], map[])
    else
      InitOf(ps, es);
      var st := RunFollower(step, zero, ps, seqnums, es[..|es| - 1]);
      ArrivalFits(step, zero, ps, seqnums, es[..|es| - 1], st, es[|es| - 1]);
      ArrivalOk(step, zero, ps, seqnums, es, st);
      TakeArrival(step, zero, ps, seqnums, st, es[|es| - 1])
  }

  lemma StartFollower<H>(step: Hasher<H>, zero: H, ps: seq<Proposal>, seqnums: seq<int>)
    requires Proposals(ps) && Numbered(ps, seqnums)
    ensures Arrivals(ps, []) && FollowerOk(step, zero, ps, seqnums, [], FState(map[], map[], map[], map[]))
  {
    forall key: Key ensures KeyOk(step, zero, ps, seqnums, [], key, map[]) {
      StartClosed(step, zero);
    }
  }

  lemma ArrivalOk<H>(step: Hasher<H>, zero: H, ps: seq<Proposal>, seqnums: seq<int>, es: seq<Arrival>, st: FState<H>)
    requires Proposals(ps) && Numbered(ps, seqnums) && Arrivals(ps, es) && es != []
    requires Arrivals(ps, es[..|es| - 1]) && FollowerOk(step, zero, ps, seqnums, es[..|es| - 1], st)
    ensures var e := es[|es| - 1];
      && e.i < |ps|
      && (e.Proposed? && ps[e.i].id in st.pendingHashUpds ==> HashesFit(ps[e.i].cmd, st.pendingHashUpds[ps[e.i].id].hashes))
      && (e.Announced? && ps[e.i].id in st.proposes ==> HashesFit(st.proposes[ps[e.i].id], LeaderHashes(step, zero, ps, e.i)))
      && FollowerOk(step, zero, ps, seqnums, es, TakeArrival(step, zero, ps, seqnums, st, e))
  {
    hide KeyOk, FollowerOk, LeaderHashes, Arrivals, AppendKeys, UpdateKeys, AddKeys, HashesFit;
    var e := es[|es| - 1];
    InitOf(ps, es);
    ArrivalFits(step, zero, ps, seqnums, es[..|es| - 1], st, e);
    var st' := TakeArrival(step, zero, ps, seqnums, st, e);
    forall key: Key ensures KeyOk(step, zero, ps, seqnums, es, key, st'.hlog) {
      if e.Proposed? {
        ProposedKey(step, zero, ps, seqnums, es, st, e.i, key);
      } else {
        AnnouncedKey(step, zero, ps, seqnums, es, st, e.i, key);
      }
    }
    BufferOk(step, zero, ps, seqnums, es, st, st');
  }

  // ---------------------------------------------------------------- agreement with the leader

  function TouchingSeqs(ps: seq<Proposal>, seqnums: seq<int>, n: nat, key: Key): seq<int>
    requires n <= |ps| == |seqnums| && Proposals(ps)
  {
    if n == 0 then []
    else if Touches(ps[n - 1], key) then TouchingSeqs(ps, seqnums, n - 1, key) + [seqnums[n - 1]]
    else TouchingSeqs(ps, seqnums, n - 1, key)
  }

  /** Command j of those that touch the key is proposal i. */
  ghost predicate IsAt(ps: seq<Proposal>, seqnums: seq<int>, n: nat, key: Key, j: nat, i: nat)
    requires n <= |ps| == |seqnums| && Proposals(ps)
  {
    var ids, ss := Touching(ps, n, key), TouchingSeqs(ps, seqnums, n, key);
    i < n && j < |ids| == |ss| && Touches(ps[i], key) && ids[j] == ps[i].id && ss[j] == seqnums[i]
    && Touching(ps, i + 1, key) == ids[..j + 1]
  }

  lemma {:induction false} PositionsOf(ps: seq<Proposal>, seqnums: seq<int>, n: nat, key: Key, j: nat) returns (i: nat)
    requires n <= |ps| && Numbered(ps, seqnums) && Proposals(ps) && j < |Touching(ps, n, key)|
    ensures IsAt(ps, seqnums, n, key, j, i)
    decreases n
  {
    hide Touches;
    SameLength(ps, seqnums, n, key);
    SameLength(ps, seqnums, n - 1, key);
    if Touches(ps[n - 1], key) && j == |Touching(ps, n, key)| - 1 {
      i := n - 1;
    } else {
      i := PositionsOf(ps, seqnums, n - 1, key, j);
    }
  }

  lemma {:induction false} SameLength(ps: seq<Proposal>, seqnums: seq<int>, n: nat, key: Key)
    requires n <= |ps| == |seqnums| && Proposals(ps)
    ensures |TouchingSeqs(ps, seqnums, n, key)| == |Touching(ps, n, key)|
  {
    hide Touches;
    if n > 0 {
      SameLength(ps, seqnums, n - 1, key);
    }
  }

  ghost predicate Increasing(ss: seq<int>, below: int) {
    && (forall j :: 0 <= j < |ss| ==> 0 <= ss[j] < below)
    && forall a, b :: 0 <= a < b < |ss| ==> ss[a] < ss[b]
  }

  lemma {:induction false} SeqsIncrease(ps: seq<Proposal>, seqnums: seq<int>, n: nat, key: Key, below: int)
    requires n <= |ps| && Numbered(ps, seqnums) && Proposals(ps) && (n > 0 ==> seqnums[n - 1] < below)
    ensures Increasing(TouchingSeqs(ps, seqnums, n, key), below)
  {
    hide Touches;
    if n > 0 {
      SeqsIncrease(ps, seqnums, n - 1, key, seqnums[n - 1]);
    }
  }

  /** A follower that has seen every proposal and every announcement once, in any interleaving, has nothing
      pending on any key, and the same hash as the leader. */
  lemma FollowerAgreesWithLeader<H>(step: Hasher<H>, zero: H, ps: seq<Proposal>, seqnums: seq<int>, es: seq<Arrival>, key: Key)
    requires Proposals(ps) && Numbered(ps, seqnums) && Arrivals(ps, es)
    requires forall i :: 0 <= i < |ps| ==> Proposed(i) in es && Announced(i) in es
    ensures var log := LogOf(zero, RunFollower(step, zero, ps, seqnums, es).hlog, key);
      log.pending == [] && log.pendingUpd == map[]
      && log.hash == LogOf(zero, LeaderLogs(step, zero, ps, |ps|), key).hash
  {
    var st := RunFollower(step, zero, ps, seqnums, es);
    var n, log := |ps|, LogOf(zero, st.hlog, key);
    assert KeyOk(step, zero, ps, seqnums, es, key, st.hlog);
    hide *;
    LeaderLogIs(step, zero, ps, n, key);
    TouchedAreALeaderLog(step, zero, ps, seqnums, key);
    AllConfirmed(step, zero, ps, seqnums, es, key);
    KeyIsClosed(step, zero, ps, seqnums, es, key, st.hlog);
    ClosedConverges(step, zero, Touching(ps, n, key), TouchingSeqs(ps, seqnums, n, key), Known(ps, es, key),
                    Confirmed(step, zero, ps, seqnums, es, key), log);
  }

  lemma KeyIsClosed<H>(step: Hasher<H>, zero: H, ps: seq<Proposal>, seqnums: seq<int>, es: seq<Arrival>, key: Key, logs: Logs<H>)
    requires Proposals(ps) && Numbered(ps, seqnums) && Arrivals(ps, es) && KeyOk(step, zero, ps, seqnums, es, key, logs)
    ensures ClosedOn(step, zero, Known(ps, es, key), Confirmed(step, zero, ps, seqnums, es, key), LogOf(zero, logs, key))
  {
  }

  lemma TouchedAreALeaderLog<H>(step: Hasher<H>, zero: H, ps: seq<Proposal>, seqnums: seq<int>, key: Key)
    requires Proposals(ps) && Numbered(ps, seqnums)
    ensures LeaderLog(step, zero, Touching(ps, |ps|, key), TouchingSeqs(ps, seqnums, |ps|, key))
  {
    TouchingIs(ps, |ps|, key);
    SameLength(ps, seqnums, |ps|, key);
    SeqsIncrease(ps, seqnums, |ps|, key, if ps == [] then 0 else seqnums[|ps| - 1] + 1);
  }

  /** A log that was told everything the leader knows has converged. */
  lemma ClosedConverges<H>(step: Hasher<H>, zero: H, cmds: seq<CommandId>, ss: seq<int>, ids: seq<CommandId>,
                           upd: map<CommandId, UpdateEntry<H>>, log: Log<H>)
    requires LeaderLog(step, zero, cmds, ss) && ClosedOn(step, zero, ids, upd, log)
    requires forall j :: 0 <= j < |cmds| ==>
      cmds[j] in ids && cmds[j] in upd && upd[cmds[j]] == UpdateEntry(Fold(step, zero, cmds[..j + 1]), ss[j])
    requires (forall id :: id in ids || id in upd ==> id in cmds) && forall id :: id in ids <==> id in upd
    ensures log.pending == [] && log.pendingUpd == map[] && log.hash == Fold(step, zero, cmds)
  {
    hide Fold, LeaderLog, Latest, Coherent, Unconfirmed;
    InUnconfirmed(ids, upd);
    NothingIn(log.pending);
    NothingWaits(log.pendingUpd, ids, upd);
    LatestIsLeaders(step, zero, cmds, ss, ids, upd, log.synced, log.syncedHash);
    HashOfNothing(step, log);
  }

  lemma NothingWaits<H>(pendingUpd: map<CommandId, UpdateEntry<H>>, ids: seq<CommandId>, upd: map<CommandId, UpdateEntry<H>>)
    requires forall id :: id in pendingUpd <==> id in upd && id !in ids
    requires forall id :: id in upd ==> id in ids
    ensures pendingUpd == map[]
  {
  }

  /** Everything that touches the key is known and confirmed, with the leader's hash and sequence number. */
  lemma AllConfirmed<H>(step: Hasher<H>, zero: H, ps: seq<Proposal>, seqnums: seq<int>, es: seq<Arrival>, key: Key)
    requires Proposals(ps) && Numbered(ps, seqnums) && Arrivals(ps, es)
    requires forall i :: 0 <= i < |ps| ==> Proposed(i) in es && Announced(i) in es
    ensures var n := |ps|;
      var ids, upd := Known(ps, es, key), Confirmed(step, zero, ps, seqnums, es, key);
      var cmds, ss := Touching(ps, n, key), TouchingSeqs(ps, seqnums, n, key);
      && |ss| == |cmds|
      && (forall j :: 0 <= j < |cmds| ==>
            cmds[j] in ids && cmds[j] in upd && upd[cmds[j]] == UpdateEntry(Fold(step, zero, cmds[..j + 1]), ss[j]))
      && (forall id :: id in ids || id in upd ==> id in cmds)
      && (forall id :: id in ids <==> id in upd)
  {
    var n := |ps|;
    var ids, upd := Known(ps, es, key), Confirmed(step, zero, ps, seqnums, es, key);
    var cmds, ss := Touching(ps, n, key), TouchingSeqs(ps, seqnums, n, key);
    hide Touches, Fold, Arrivals, Known, Confirmed, Touching, TouchingSeqs, Numbered;
    assert forall i: nat :: i < |ps| ==> Both(es, i);
    TouchingIs(ps, n, key);
    KnownIs(ps, es, key);
    ConfirmedIs(step, zero, ps, seqnums, es, key);
    SameLength(ps, seqnums, n, key);
    forall j | 0 <= j < |cmds|
      ensures cmds[j] in ids && cmds[j] in upd && upd[cmds[j]] == UpdateEntry(Fold(step, zero, cmds[..j + 1]), ss[j])
    {
      var i := PositionsOf(ps, seqnums, n, key, j);
      assert cmds[j] == ps[i].id;
    }
    forall id | id in ids || id in upd ensures id in cmds && id in ids && id in upd {
      var i :| 0 <= i < |ps| && ps[i].id == id;
      assert Touches(ps[i], key);
      assert TouchedBy(ps, n, key, id);
    }
  }
}
