/** The per-key hash log of SwiftPaxos as a value (swift/dpath.go): a chain of hashes over the commands
    that the leader has not confirmed yet, from the last hash that it has. The hash function is a
    parameter. */
module HashLogSpec {
  import opened CommandIds
  import opened Sequences
  import opened Options

  /** SHA-256 over the previous hash and the command's id. */
  type Hasher<!H> = (H, CommandId) -> H

  datatype UpdateEntry<H> = UpdateEntry(hash: H, seqnum: int)

  datatype Log<H> = Log(
    synced: int,
    syncedHash: H,
    pending: seq<CommandId>,
    hash: H,
    pendingUpd: map<CommandId, UpdateEntry<H>>)

  /** The hash of a sequence of commands, from an initial hash. */
  function Fold<H>(step: Hasher<H>, initial: H, ids: seq<CommandId>): H {
    if ids == [] then initial else step(Fold(step, initial, ids[..|ids| - 1]), ids[|ids| - 1])
  }

  function Without(ids: seq<CommandId>, id: CommandId): seq<CommandId> {
    if ids == [] then []
    else
      var rest := Without(ids[..|ids| - 1], id);
      if ids[|ids| - 1] == id then rest else rest + [ids[|ids| - 1]]
  }

  function NewLog<H>(zero: H): Log<H> {
    Log(-1, zero, [], zero, map[])
  }

  /** The part of update that follows the look-up. */
  function Confirm<H>(step: Hasher<H>, l: Log<H>, id: CommandId, s: int, h: H): Log<H> {
    var pending := Without(l.pending, id);
    var known := id in l.pending;
    if s <= l.synced && !known then l
    else
      var synced := if s > l.synced then s else l.synced;
      var syncedHash := if s > l.synced then h else l.syncedHash;
      Log(synced, syncedHash, pending, Fold(step, syncedHash, pending), l.pendingUpd)
  }

  function Update<H>(step: Hasher<H>, l: Log<H>, id: CommandId, s: int, h: H): Log<H> {
    if id !in l.pending then l.(pendingUpd := l.pendingUpd[id := UpdateEntry(h, s)])
    else Confirm(step, l, id, s, h)
  }

  function Append<H>(step: Hasher<H>, l: Log<H>, id: CommandId): Log<H> {
    if id in l.pendingUpd then
      Confirm(step, l.(pendingUpd := l.pendingUpd - {id}), id, l.pendingUpd[id].seqnum, l.pendingUpd[id].hash)
    else
      l.(pending := l.pending + [id],
         hash := step(if l.pending == [] then l.syncedHash else l.hash, id))
  }

  /** What Append returns: the leader's own hash if it is known already. */
  function AppendHash<H>(step: Hasher<H>, l: Log<H>, id: CommandId): H {
    if id in l.pendingUpd then l.pendingUpd[id].hash else Append(step, l, id).hash
  }

  /** The incremental hash is the fold over what is pending, and no command is both pending and updated. */
  ghost predicate Coherent<H>(step: Hasher<H>, l: Log<H>) {
    && l.hash == Fold(step, l.syncedHash, l.pending)
    && Distinct(l.pending)
    && forall id :: id in l.pending ==> id !in l.pendingUpd
  }

  // ---------------------------------------------------------------- coherence

  lemma {:induction false} WithoutProps(ids: seq<CommandId>, id: CommandId)
    requires Distinct(ids)
    ensures Distinct(Without(ids, id))
    ensures forall x :: x in Without(ids, id) <==> x in ids && x != id
    ensures id !in ids ==> Without(ids, id) == ids
  {
    if ids != [] {
      var init := ids[..|ids| - 1];
      WithoutProps(init, id);
      assert ids == init + [ids[|ids| - 1]];
      assert ids[|ids| - 1] !in init;
    }
  }

  lemma FoldMore<H>(step: Hasher<H>, initial: H, ids: seq<CommandId>, id: CommandId)
    ensures Fold(step, initial, ids + [id]) == step(Fold(step, initial, ids), id)
  {
    assert (ids + [id])[..|ids|] == ids;
  }

  lemma ConfirmCoherent<H>(step: Hasher<H>, l: Log<H>, id: CommandId, s: int, h: H)
    requires Coherent(step, l)
    ensures Coherent(step, Confirm(step, l, id, s, h))
    ensures forall x :: x in Confirm(step, l, id, s, h).pending <==> x in l.pending && x != id
  {
    WithoutProps(l.pending, id);
  }

  lemma UpdateCoherent<H>(step: Hasher<H>, l: Log<H>, id: CommandId, s: int, h: H)
    requires Coherent(step, l)
    ensures Coherent(step, Update(step, l, id, s, h))
  {
    ConfirmCoherent(step, l, id, s, h);
  }

  /** Each command is appended once: the new one is not pending. */
  lemma AppendCoherent<H>(step: Hasher<H>, l: Log<H>, id: CommandId)
    requires Coherent(step, l) && id !in l.pending
    ensures Coherent(step, Append(step, l, id))
  {
    if id in l.pendingUpd {
      ConfirmCoherent(step, l.(pendingUpd := l.pendingUpd - {id}), id, l.pendingUpd[id].seqnum, l.pendingUpd[id].hash);
    } else {
      FoldMore(step, l.syncedHash, l.pending, id);
    }
  }

  // ---------------------------------------------------------------- commutation

  /** A command's Append and its Update commute. */
  lemma AppendUpdateCommute<H>(step: Hasher<H>, l: Log<H>, id: CommandId, s: int, h: H)
    requires Coherent(step, l) && id !in l.pending && id !in l.pendingUpd
    ensures Update(step, Append(step, l, id), id, s, h) == Append(step, Update(step, l, id, s, h), id)
  {
    WithoutProps(l.pending, id);
    WithoutProps(l.pending + [id], id);
    assert (l.pending + [id])[..|l.pending|] == l.pending;
    assert l.pendingUpd[id := UpdateEntry(h, s)] - {id} == l.pendingUpd;
  }

  lemma {:induction false} WithoutCommutes(ids: seq<CommandId>, a: CommandId, b: CommandId)
    ensures Without(Without(ids, a), b) == Without(Without(ids, b), a)
  {
    if ids != [] {
      var init, last := ids[..|ids| - 1], ids[|ids| - 1];
      WithoutCommutes(init, a, b);
      WithoutLast(Without(init, a), last, b);
      WithoutLast(Without(init, b), last, a);
    }
  }

  lemma WithoutLast(ids: seq<CommandId>, last: CommandId, id: CommandId)
    ensures Without(ids + [last], id) == if last == id then Without(ids, id) else Without(ids, id) + [last]
  {
    assert (ids + [last])[..|ids|] == ids;
  }

  /** Updates of different commands with different sequence numbers commute. */
  lemma UpdatesCommute<H>(step: Hasher<H>, l: Log<H>, a: CommandId, s: int, h: H, b: CommandId, t: int, k: H)
    requires Coherent(step, l) && a != b && s != t
    ensures Update(step, Update(step, l, a, s, h), b, t, k) == Update(step, Update(step, l, b, t, k), a, s, h)
  {
    hide Fold, Without;
    WithoutProps(l.pending, a);
    WithoutProps(l.pending, b);
    WithoutCommutes(l.pending, a, b);
    assert l.pendingUpd[a := UpdateEntry(h, s)][b := UpdateEntry(k, t)]
        == l.pendingUpd[b := UpdateEntry(k, t)][a := UpdateEntry(h, s)];
  }

  // ---------------------------------------------------------------- any interleaving

  datatype Event<H> = Appended(id: CommandId) | Updated(id: CommandId, seqnum: int, hash: H)

  function Do<H>(step: Hasher<H>, l: Log<H>, e: Event<H>): Log<H> {
    match e
    case Appended(id) => Append(step, l, id)
    case Updated(id, s, h) => Update(step, l, id, s, h)
  }

  function Run<H>(step: Hasher<H>, zero: H, es: seq<Event<H>>): Log<H> {
    if es == [] then NewLog(zero) else Do(step, Run(step, zero, es[..|es| - 1]), es[|es| - 1])
  }

  /** The commands in the order in which they were appended. */
  function AppendOrder<H>(es: seq<Event<H>>): seq<CommandId> {
    if es == [] then []
    else
      var ids, e := AppendOrder(es[..|es| - 1]), es[|es| - 1];
      if e.Appended? then ids + [e.id] else ids
  }

  /** What the leader has said about each command. */
  function Updates<H>(es: seq<Event<H>>): map<CommandId, UpdateEntry<H>> {
    if es == [] then map[]
    else
      var m, e := Updates(es[..|es| - 1]), es[|es| - 1];
      if e.Updated? then m[e.id := UpdateEntry(e.hash, e.seqnum)] else m
  }

  /** Each command is appended at most once and updated at most once, and sequence numbers differ. */
  ghost predicate Once<H>(es: seq<Event<H>>) {
    && (forall i, j | 0 <= i < j < |es| && es[i].Appended? && es[j].Appended? :: es[i].id != es[j].id)
    && (forall i, j | 0 <= i < j < |es| && es[i].Updated? && es[j].Updated? ::
          es[i].id != es[j].id && es[i].seqnum != es[j].seqnum)
    && (forall i :: 0 <= i < |es| && es[i].Updated? ==> es[i].seqnum >= 0)
  }

  function Unconfirmed<H>(ids: seq<CommandId>, upd: map<CommandId, UpdateEntry<H>>): seq<CommandId> {
    if ids == [] then []
    else
      var rest := Unconfirmed(ids[..|ids| - 1], upd);
      if ids[|ids| - 1] in upd then rest else rest + [ids[|ids| - 1]]
  }

  /** (s, h) is what the leader said about the confirmed command with the highest sequence number. */
  ghost predicate Latest<H>(zero: H, ids: seq<CommandId>, upd: map<CommandId, UpdateEntry<H>>, s: int, h: H) {
    && (forall id :: id in ids && id in upd ==> upd[id].seqnum <= s)
    && ((s == -1 && h == zero && (forall id :: id in ids ==> id !in upd))
        || exists id :: id in ids && id in upd && upd[id] == UpdateEntry(h, s))
  }

  /** The log after any interleaving, in closed form: what was appended and not confirmed is pending, in
      the order of appending; what was updated and not appended waits; the last sync is the highest
      sequence number of a command that was both. */
  ghost predicate ClosedOn<H>(step: Hasher<H>, zero: H, ids: seq<CommandId>, upd: map<CommandId, UpdateEntry<H>>, l: Log<H>) {
    && l.pending == Unconfirmed(ids, upd)
    && (forall id :: id in l.pendingUpd <==> id in upd && id !in ids)
    && (forall id :: id in l.pendingUpd ==> l.pendingUpd[id] == upd[id])
    && Latest(zero, ids, upd, l.synced, l.syncedHash)
    && Coherent(step, l)
  }

  ghost predicate Closed<H>(step: Hasher<H>, zero: H, es: seq<Event<H>>, l: Log<H>) {
    ClosedOn(step, zero, AppendOrder(es), Updates(es), l)
  }

  lemma {:induction false} InAppendOrder<H>(es: seq<Event<H>>, id: CommandId)
    ensures id in AppendOrder(es) <==> Event.Appended(id) in es
  {
    if es != [] {
      InAppendOrder(es[..|es| - 1], id);
      assert es == es[..|es| - 1] + [es[|es| - 1]];
    }
  }

  lemma {:induction false} UpdatesSay<H>(es: seq<Event<H>>, id: CommandId)
    requires id in Updates(es)
    ensures Updated(id, Updates(es)[id].seqnum, Updates(es)[id].hash) in es
  {
    var init, e := es[..|es| - 1], es[|es| - 1];
    assert es == init + [e];
    if !(e.Updated? && e.id == id) {
      UpdatesSay(init, id);
    }
  }

  lemma OnceInit<H>(es: seq<Event<H>>)
    requires Once(es) && es != []
    ensures Once(es[..|es| - 1])
  {
    var init := es[..|es| - 1];
    assert forall i :: 0 <= i < |init| ==> init[i] == es[i];
  }

  lemma {:induction false} UpdatesHave<H>(es: seq<Event<H>>, i: nat)
    requires Once(es) && i < |es| && es[i].Updated?
    ensures es[i].id in Updates(es) && Updates(es)[es[i].id] == UpdateEntry(es[i].hash, es[i].seqnum)
    decreases |es|
  {
    if i < |es| - 1 {
      OnceInit(es);
      UpdatesHave(es[..|es| - 1], i);
    }
  }

  /** What the last event of a well-formed series adds is new. */
  lemma LastIsNew<H>(es: seq<Event<H>>)
    requires Once(es) && es != []
    ensures var init, e := es[..|es| - 1], es[|es| - 1];
      && Once(init)
      && (e.Appended? ==> e.id !in AppendOrder(init))
      && (e.Updated? ==> e.id !in Updates(init) && e.seqnum >= 0
                         && forall id :: id in Updates(init) ==> Updates(init)[id].seqnum != e.seqnum)
      && forall id :: id in Updates(init) ==> Updates(init)[id].seqnum >= 0
  {
    var init, e := es[..|es| - 1], es[|es| - 1];
    assert es == init + [e];
    OnceInit(es);
    InAppendOrder(init, e.id);
    forall id | id in Updates(init)
      ensures Updates(init)[id].seqnum >= 0
      ensures e.Updated? ==> id != e.id && Updates(init)[id].seqnum != e.seqnum
    {
      UpdatesSay(init, id);
      var u := Updates(init)[id];
      var i :| 0 <= i < |init| && init[i] == Updated(id, u.seqnum, u.hash);
      assert es[i] == init[i];
    }
  }

  lemma {:induction false} InUnconfirmed<H>(ids: seq<CommandId>, upd: map<CommandId, UpdateEntry<H>>)
    ensures forall x :: x in Unconfirmed(ids, upd) <==> x in ids && x !in upd
  {
    if ids != [] {
      InUnconfirmed(ids[..|ids| - 1], upd);
      assert ids == ids[..|ids| - 1] + [ids[|ids| - 1]];
    }
  }

  lemma {:induction false} UnconfirmedUpdate<H>(ids: seq<CommandId>, upd: map<CommandId, UpdateEntry<H>>, id: CommandId,
                                                u: UpdateEntry<H>)
    ensures Unconfirmed(ids, upd[id := u]) == Without(Unconfirmed(ids, upd), id)
  {
    if ids != [] {
      UnconfirmedUpdate(ids[..|ids| - 1], upd, id, u);
      WithoutLast(Unconfirmed(ids[..|ids| - 1], upd), ids[|ids| - 1], id);
    }
  }

  lemma UnconfirmedMore<H>(ids: seq<CommandId>, upd: map<CommandId, UpdateEntry<H>>, id: CommandId)
    ensures Unconfirmed(ids + [id], upd) == if id in upd then Unconfirmed(ids, upd) else Unconfirmed(ids, upd) + [id]
  {
    assert (ids + [id])[..|ids|] == ids;
  }

  /** The latest sync after a confirmed command is appended. */
  lemma LatestAppended<H>(zero: H, ids: seq<CommandId>, upd: map<CommandId, UpdateEntry<H>>, s: int, h: H, id: CommandId)
    requires Latest(zero, ids, upd, s, h) && forall x :: x in upd ==> upd[x].seqnum >= 0
    ensures id !in upd ==> Latest(zero, ids + [id], upd, s, h)
    ensures id in upd ==>
      Latest(zero, ids + [id], upd, if upd[id].seqnum > s then upd[id].seqnum else s, if upd[id].seqnum > s then upd[id].hash else h)
  {
    assert forall x :: x in ids + [id] <==> x in ids || x == id;
    assert id in ids + [id];
  }

  /** The latest sync after the leader says something about a command. */
  lemma LatestUpdated<H>(zero: H, ids: seq<CommandId>, upd: map<CommandId, UpdateEntry<H>>, s: int, h: H, id: CommandId,
                         u: UpdateEntry<H>)
    requires Latest(zero, ids, upd, s, h) && id !in upd && u.seqnum >= 0
    ensures id !in ids ==> Latest(zero, ids, upd[id := u], s, h)
    ensures id in ids ==>
      Latest(zero, ids, upd[id := u], if u.seqnum > s then u.seqnum else s, if u.seqnum > s then u.hash else h)
  {
    var upd' := upd[id := u];
    assert forall x :: x in ids && x in upd' <==> (x in ids && x in upd) || (x == id && id in ids);
  }

  lemma AppendClosed<H>(step: Hasher<H>, zero: H, ids: seq<CommandId>, upd: map<CommandId, UpdateEntry<H>>, l: Log<H>,
                        id: CommandId)
    requires ClosedOn(step, zero, ids, upd, l) && id !in ids && forall x :: x in upd ==> upd[x].seqnum >= 0
    ensures ClosedOn(step, zero, ids + [id], upd, Append(step, l, id))
  {
    hide Fold, Unconfirmed, Without, Latest, Coherent;
    InUnconfirmed(ids, upd);
    UnconfirmedMore(ids, upd, id);
    LatestAppended(zero, ids, upd, l.synced, l.syncedHash, id);
    AppendCoherent(step, l, id);
    PendingAbsent(step, l, id);
  }

  lemma PendingAbsent<H>(step: Hasher<H>, l: Log<H>, id: CommandId)
    requires Coherent(step, l)
    ensures id !in l.pending ==> Without(l.pending, id) == l.pending
  {
    WithoutProps(l.pending, id);
  }

  lemma UpdateClosed<H>(step: Hasher<H>, zero: H, ids: seq<CommandId>, upd: map<CommandId, UpdateEntry<H>>, l: Log<H>,
                        id: CommandId, s: int, h: H)
    requires ClosedOn(step, zero, ids, upd, l) && id !in upd && s >= 0
    ensures ClosedOn(step, zero, ids, upd[id := UpdateEntry(h, s)], Update(step, l, id, s, h))
  {
    hide Fold, Unconfirmed, Without, Latest, Coherent;
    InUnconfirmed(ids, upd);
    UnconfirmedUpdate(ids, upd, id, UpdateEntry(h, s));
    LatestUpdated(zero, ids, upd, l.synced, l.syncedHash, id, UpdateEntry(h, s));
    UpdateCoherent(step, l, id, s, h);
    PendingAbsent(step, l, id);
  }

  /** Any interleaving of Appends and Updates ends in the closed form. */
  lemma {:induction false} RunIsClosed<H>(step: Hasher<H>, zero: H, es: seq<Event<H>>)
    requires Once(es)
    ensures Closed(step, zero, es, Run(step, zero, es))
  {
    hide ClosedOn;
    if es == [] {
      StartClosed(step, zero);
    } else {
      var init, e := es[..|es| - 1], es[|es| - 1];
      LastIsNew(es);
      RunIsClosed(step, zero, init);
      var l := Run(step, zero, init);
      match e {
        case Appended(id) => AppendClosed(step, zero, AppendOrder(init), Updates(init), l, id);
        case Updated(id, s, h) => UpdateClosed(step, zero, AppendOrder(init), Updates(init), l, id, s, h);
      }
    }
  }

  lemma StartClosed<H>(step: Hasher<H>, zero: H)
    ensures ClosedOn(step, zero, [], map[], NewLog(zero))
  {
  }

  /** Two interleavings of the same events leave the same log, if what stays unconfirmed was appended in
      the same order. */
  lemma InterleavingsAgree<H>(step: Hasher<H>, zero: H, es: seq<Event<H>>, fs: seq<Event<H>>)
    requires Once(es) && Once(fs) && forall e :: e in es <==> e in fs
    requires Unconfirmed(AppendOrder(es), Updates(es)) == Unconfirmed(AppendOrder(fs), Updates(fs))
    ensures Run(step, zero, es) == Run(step, zero, fs)
  {
    RunIsClosed(step, zero, es);
    RunIsClosed(step, zero, fs);
    SameUpdates(es, fs);
    var l, k := Run(step, zero, es), Run(step, zero, fs);
    SameLatest(zero, AppendOrder(es), AppendOrder(fs), Updates(es), es, l.synced, l.syncedHash, k.synced, k.syncedHash);
    assert l.pendingUpd == k.pendingUpd;
  }

  lemma UpdatesTransfer<H>(es: seq<Event<H>>, fs: seq<Event<H>>, id: CommandId)
    requires Once(fs) && (forall e :: e in es ==> e in fs) && id in Updates(es)
    ensures id in Updates(fs) && Updates(fs)[id] == Updates(es)[id]
  {
    UpdatesSay(es, id);
    var u := Updates(es)[id];
    var i :| 0 <= i < |fs| && fs[i] == Updated(id, u.seqnum, u.hash);
    UpdatesHave(fs, i);
  }

  lemma SameUpdates<H>(es: seq<Event<H>>, fs: seq<Event<H>>)
    requires Once(es) && Once(fs) && forall e :: e in es <==> e in fs
    ensures Updates(es) == Updates(fs)
    ensures forall id :: id in AppendOrder(es) <==> id in AppendOrder(fs)
  {
    hide Once, Updates, AppendOrder;
    forall id
      ensures id in AppendOrder(es) <==> id in AppendOrder(fs)
      ensures id in Updates(es) <==> id in Updates(fs)
      ensures id in Updates(es) && id in Updates(fs) ==> Updates(es)[id] == Updates(fs)[id]
    {
      InAppendOrder(es, id);
      InAppendOrder(fs, id);
      if id in Updates(es) {
        UpdatesTransfer(es, fs, id);
      }
      if id in Updates(fs) {
        UpdatesTransfer(fs, es, id);
      }
    }
  }

  /** Sequence numbers differ, so the latest sync is one. */
  lemma SameLatest<H>(zero: H, ids: seq<CommandId>, ids': seq<CommandId>, upd: map<CommandId, UpdateEntry<H>>,
                      es: seq<Event<H>>, s: int, h: H, s': int, h': H)
    requires Once(es) && upd == Updates(es)
    requires forall id :: id in ids <==> id in ids'
    requires Latest(zero, ids, upd, s, h) && Latest(zero, ids', upd, s', h')
    ensures s == s' && h == h'
  {
    if a :| a in ids && a in upd && upd[a] == UpdateEntry(h, s) {
      if b :| b in ids' && b in upd && upd[b] == UpdateEntry(h', s') {
        UpdatesSay(es, a);
        UpdatesSay(es, b);
        var i :| 0 <= i < |es| && es[i] == Updated(a, s, h);
        var j :| 0 <= j < |es| && es[j] == Updated(b, s', h');
      }
    }
  }

  // ---------------------------------------------------------------- leader and follower

  /** The leader only appends; its k-th command has the k-th sequence number, and the hash that Append
      returned for it. */
  ghost predicate LeaderLog<H>(step: Hasher<H>, zero: H, cmds: seq<CommandId>, seqnums: seq<int>) {
    && Distinct(cmds) && |seqnums| == |cmds|
    && (forall i :: 0 <= i < |seqnums| ==> seqnums[i] >= 0)
    && forall i, j :: 0 <= i < j < |seqnums| ==> seqnums[i] < seqnums[j]
  }

  function Appends<H>(cmds: seq<CommandId>): seq<Event<H>> {
    seq(|cmds|, i requires 0 <= i < |cmds| => Appended(cmds[i]))
  }

  /** The leader's hash after its first commands is the fold from the start. */
  lemma {:induction false} LeaderHash<H>(step: Hasher<H>, zero: H, cmds: seq<CommandId>)
    requires Distinct(cmds)
    ensures var l := Run(step, zero, Appends(cmds));
      l.synced == -1 && l.pending == cmds && l.pendingUpd == map[] && l.syncedHash == zero
      && l.hash == Fold(step, zero, cmds)
    decreases |cmds|
  {
    var es := Appends<H>(cmds);
    if cmds != [] {
      var init := cmds[..|cmds| - 1];
      LeaderHash(step, zero, init);
      assert es[..|es| - 1] == Appends<H>(init);
      assert cmds == init + [cmds[|cmds| - 1]];
    }
  }

  /** The follower appends the leader's commands, and gets the leader's sequence number and hash for each,
      once, in any interleaving. */
  ghost predicate Follows<H>(step: Hasher<H>, zero: H, cmds: seq<CommandId>, seqnums: seq<int>, es: seq<Event<H>>)
    requires |seqnums| == |cmds|
  {
    && Once(es)
    && (forall i :: 0 <= i < |cmds| ==> Event.Appended(cmds[i]) in es)
    && (forall i :: 0 <= i < |cmds| ==> Updated(cmds[i], seqnums[i], Fold(step, zero, cmds[..i + 1])) in es)
    && forall e :: e in es ==> e.id in cmds
  }

  /** Whatever the interleaving, nothing is pending in the end and the hash is the leader's. */
  lemma FollowerConverges<H>(step: Hasher<H>, zero: H, cmds: seq<CommandId>, seqnums: seq<int>, es: seq<Event<H>>)
    requires LeaderLog(step, zero, cmds, seqnums) && Follows(step, zero, cmds, seqnums, es)
    ensures var l := Run(step, zero, es);
      l.pending == [] && l.pendingUpd == map[] && l.hash == Run(step, zero, Appends(cmds)).hash
  {
    hide Fold, Once, Coherent;
    RunIsClosed(step, zero, es);
    LeaderHash(step, zero, cmds);
    var ids, upd, l := AppendOrder(es), Updates(es), Run(step, zero, es);
    forall i | 0 <= i < |cmds|
      ensures cmds[i] in ids && cmds[i] in upd
      ensures upd[cmds[i]] == UpdateEntry(Fold(step, zero, cmds[..i + 1]), seqnums[i])
    {
      HeardOf(step, zero, cmds, seqnums, es, i);
    }
    forall id | id in ids || id in upd ensures id in cmds {
      OnlyThose(es, cmds, id);
    }
    hide AppendOrder, Updates, Run, Follows;
    InUnconfirmed(ids, upd);
    NothingIn(l.pending);
    LatestIsLeaders(step, zero, cmds, seqnums, ids, upd, l.synced, l.syncedHash);
    HashOfNothing(step, l);
  }

  lemma HashOfNothing<H>(step: Hasher<H>, l: Log<H>)
    requires Coherent(step, l) && l.pending == []
    ensures l.hash == l.syncedHash
  {
  }

  lemma HeardOf<H>(step: Hasher<H>, zero: H, cmds: seq<CommandId>, seqnums: seq<int>, es: seq<Event<H>>, i: nat)
    requires |seqnums| == |cmds| && Follows(step, zero, cmds, seqnums, es) && i < |cmds|
    ensures cmds[i] in AppendOrder(es) && cmds[i] in Updates(es)
    ensures Updates(es)[cmds[i]] == UpdateEntry(Fold(step, zero, cmds[..i + 1]), seqnums[i])
  {
    hide Fold;
    InAppendOrder(es, cmds[i]);
    var j :| 0 <= j < |es| && es[j] == Updated(cmds[i], seqnums[i], Fold(step, zero, cmds[..i + 1]));
    UpdatesHave(es, j);
  }

  lemma OnlyThose<H>(es: seq<Event<H>>, cmds: seq<CommandId>, id: CommandId)
    requires (forall e :: e in es ==> e.id in cmds) && (id in AppendOrder(es) || id in Updates(es))
    ensures id in cmds
  {
    InAppendOrder(es, id);
    if id in Updates(es) {
      UpdatesSay(es, id);
    }
  }

  lemma LatestIsLeaders<H>(step: Hasher<H>, zero: H, cmds: seq<CommandId>, seqnums: seq<int>, ids: seq<CommandId>,
                           upd: map<CommandId, UpdateEntry<H>>, s: int, h: H)
    requires LeaderLog(step, zero, cmds, seqnums) && Latest(zero, ids, upd, s, h)
    requires forall i :: 0 <= i < |cmds| ==>
      cmds[i] in ids && cmds[i] in upd && upd[cmds[i]] == UpdateEntry(Fold(step, zero, cmds[..i + 1]), seqnums[i])
    requires forall id :: id in ids || id in upd ==> id in cmds
    ensures h == Fold(step, zero, cmds)
  {
    hide Fold;
    if cmds == [] {
      assert forall id :: id !in ids;
      NoFold(step, zero);
    } else {
      var k := |cmds| - 1;
      assert cmds[..k + 1] == cmds;
      assert upd[cmds[k]].seqnum == seqnums[k] >= 0;
      hide LeaderLog;
      var i := WhoIsLatest(step, zero, cmds, seqnums, ids, upd, s, h);
      IncreasingMax(step, zero, cmds, seqnums, i);
    }
  }

  lemma NoFold<H>(step: Hasher<H>, zero: H)
    ensures Fold(step, zero, []) == zero
  {
  }

  lemma WhoIsLatest<H>(step: Hasher<H>, zero: H, cmds: seq<CommandId>, seqnums: seq<int>, ids: seq<CommandId>,
                       upd: map<CommandId, UpdateEntry<H>>, s: int, h: H) returns (i: nat)
    requires |seqnums| == |cmds| && Latest(zero, ids, upd, s, h) && cmds != [] && cmds[|cmds| - 1] in ids
    requires forall i :: 0 <= i < |cmds| ==>
      cmds[i] in upd && upd[cmds[i]] == UpdateEntry(Fold(step, zero, cmds[..i + 1]), seqnums[i])
    requires forall id :: id in ids || id in upd ==> id in cmds
    ensures i < |cmds| && seqnums[i] == s >= seqnums[|cmds| - 1] && h == Fold(step, zero, cmds[..i + 1])
  {
    hide Fold;
    var last := cmds[|cmds| - 1];
    assert last in upd && upd[last].seqnum <= s;
    var id :| id in ids && id in upd && upd[id] == UpdateEntry(h, s);
    i :| 0 <= i < |cmds| && cmds[i] == id;
  }

  lemma IncreasingMax<H>(step: Hasher<H>, zero: H, cmds: seq<CommandId>, seqnums: seq<int>, i: nat)
    requires LeaderLog(step, zero, cmds, seqnums) && i < |cmds| && seqnums[i] >= seqnums[|cmds| - 1]
    ensures i == |cmds| - 1
  {
  }

  lemma Nonempty(ids: seq<CommandId>)
    requires ids != []
    ensures exists id :: id in ids
  {
    assert ids[0] in ids;
  }

  lemma NothingIn(ids: seq<CommandId>)
    requires forall id :: id !in ids
    ensures ids == []
  {
    if ids != [] {
      Nonempty(ids);
      assert false;
    }
  }
}
