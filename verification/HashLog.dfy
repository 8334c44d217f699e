/** The hash log as the code keeps it: a doubly linked list of pending commands, its head and tail, a map
    from commands to nodes, and the hash of the last one (swift/dpath.go). */
module HashLog {
  import opened CommandIds
  import opened Options
  import opened Sequences
  import opened HashLogSpec

  class HashNode {
    const id: CommandId
    var next: HashNode?
    var previous: HashNode?

    constructor (id: CommandId)
      ensures this.id == id && next == null && previous == null
    {
      this.id := id;
      next, previous := null, null;
    }
  }

  function Ids(list: seq<HashNode>): (ids: seq<CommandId>)
    ensures |ids| == |list| && forall i :: 0 <= i < |list| ==> ids[i] == list[i].id
  {
    seq(|list|, i requires 0 <= i < |list| => list[i].id)
  }

  /** Every node points at its neighbours. */
  ghost predicate Linked(list: seq<HashNode>)
    reads list
  {
    && (forall i :: 0 <= i < |list| - 1 ==> list[i].next == list[i + 1])
    && (forall i :: 0 < i < |list| ==> list[i].previous == list[i - 1])
    && (list != [] ==> list[0].previous == null && list[|list| - 1].next == null)
  }

  ghost predicate DistinctIds(list: seq<HashNode>) {
    forall i, j :: 0 <= i < j < |list| ==> list[i].id != list[j].id
  }

  /** The tail may be missing when at most one command is pending. */
  ghost predicate Ends(list: seq<HashNode>, head: HashNode?, tail: HashNode?) {
    && head == (if list == [] then null else list[0])
    && (if tail == null then |list| <= 1 else list != [] && tail == list[|list| - 1])
  }

  /** The map finds exactly the nodes of the list. */
  ghost predicate Finds(list: seq<HashNode>, nodes: map<CommandId, HashNode>) {
    && (forall i :: 0 <= i < |list| ==> list[i].id in nodes && nodes[list[i].id] == list[i])
    && (forall id :: id in nodes ==> nodes[id] in list && nodes[id].id == id)
  }

  ghost function Removed(list: seq<HashNode>, k: nat): seq<HashNode>
    requires k < |list|
  {
    list[..k] + list[k + 1..]
  }

  lemma RemovedIds(list: seq<HashNode>, k: nat)
    requires k < |list| && Distinct(Ids(list))
    ensures Ids(Removed(list, k)) == Without(Ids(list), list[k].id)
  {
    WithoutAt(Ids(list), k);
    assert Ids(Removed(list, k)) == Ids(list)[..k] + Ids(list)[k + 1..];
  }

  lemma RemovedKeeps(list: seq<HashNode>, k: nat)
    requires k < |list|
    ensures forall i :: 0 <= i < |list| && i != k ==> list[i] in Removed(list, k)
    ensures forall x :: x in Removed(list, k) ==> exists i :: 0 <= i < |list| && i != k && list[i] == x
    ensures forall x :: x in Removed(list, k) ==> x in list
  {
    forall i | 0 <= i < |list| && i != k ensures list[i] in Removed(list, k) {
      assert Removed(list, k)[if i < k then i else i - 1] == list[i];
    }
  }

  lemma RemovedDistinct(list: seq<HashNode>, k: nat)
    requires k < |list| && DistinctIds(list)
    ensures DistinctIds(Removed(list, k)) && forall x :: x in Removed(list, k) ==> x.id != list[k].id
  {
  }

  lemma RemovedFinds(list: seq<HashNode>, nodes: map<CommandId, HashNode>, k: nat)
    requires k < |list| && DistinctIds(list) && Finds(list, nodes)
    ensures DistinctIds(Removed(list, k)) && Finds(Removed(list, k), nodes - {list[k].id})
    ensures forall x :: x in Removed(list, k) ==> x in list
  {
    RemovedKeeps(list, k);
    RemovedDistinct(list, k);
    var shorter, nodes' := Removed(list, k), nodes - {list[k].id};
    hide Removed, DistinctIds;
    forall i | 0 <= i < |shorter| ensures shorter[i].id in nodes' && nodes'[shorter[i].id] == shorter[i] {
      assert shorter[i] in shorter;
    }
    forall id | id in nodes' ensures nodes'[id] in shorter {
      var i :| 0 <= i < |list| && list[i] == nodes[id];
    }
  }

  lemma {:induction false} WithoutAt(ids: seq<CommandId>, k: nat)
    requires k < |ids| && Distinct(ids)
    ensures Without(ids, ids[k]) == ids[..k] + ids[k + 1..]
  {
    var init := ids[..|ids| - 1];
    if k < |ids| - 1 {
      WithoutAt(init, k);
      assert ids[k + 1..] == init[k + 1..] + [ids[|ids| - 1]];
    } else {
      WithoutProps(init, ids[k]);
      assert ids[k] !in init;
    }
  }

  /** Neighbours in the sequence point at each other. */
  ghost predicate Chain(list: seq<HashNode>)
    reads list
  {
    && (forall i :: 0 <= i < |list| - 1 ==> list[i].next == list[i + 1])
    && (forall i :: 0 < i < |list| ==> list[i].previous == list[i - 1])
  }

  /** The two parts of a linked list around node k. */
  lemma Parts(list: seq<HashNode>, k: nat)
    requires Linked(list) && DistinctIds(list) && k < |list|
    ensures Chain(list[..k]) && Chain(list[k + 1..]) && Removed(list, k) == list[..k] + list[k + 1..]
    ensures list[k].previous == (if k > 0 then list[k - 1] else null)
    ensures list[k].next == (if k + 1 < |list| then list[k + 1] else null)
    ensures k > 0 ==> list[0].previous == null
    ensures k + 1 < |list| ==> list[|list| - 1].next == null
    ensures forall i :: 0 <= i < |list| && i != k ==> list[i] != list[k]
    ensures k + 1 < |list| ==> list[k + 1] !in list[..k]
    ensures k > 0 ==> list[k - 1] !in list[k + 1..]
    ensures forall i :: 0 <= i < k - 1 ==> list[i] != list[k - 1]
    ensures forall i :: k + 1 < i < |list| ==> list[i] != list[k + 1]
  {
    if k > 0 {
      var before: HashNode := list[k - 1];
      assert list[k].previous == before;
    }
    if k + 1 < |list| {
      var after: HashNode := list[k + 1];
      assert list[k].next == after;
    }
  }

  lemma Neighbours(list: seq<HashNode>, k: nat)
    requires Linked(list) && DistinctIds(list) && k < |list|
    ensures list[k].previous == (if k > 0 then list[k - 1] else null)
    ensures list[k].next == (if k + 1 < |list| then list[k + 1] else null)
  {
    Parts(list, k);
  }

  lemma JoinParts(front: seq<HashNode>, back: seq<HashNode>)
    requires Chain(front) && Chain(back)
    requires front != [] ==> front[0].previous == null && front[|front| - 1].next == if back == [] then null else back[0]
    requires back != [] ==> back[|back| - 1].next == null && back[0].previous == if front == [] then null else front[|front| - 1]
    ensures Linked(front + back)
  {
  }

  lemma RemovedEnds(list: seq<HashNode>, k: nat, head: HashNode?, tail: HashNode?)
    requires k < |list| && DistinctIds(list) && Ends(list, head, tail)
    ensures Ends(Removed(list, k),
                 if head == list[k] then (if k + 1 < |list| then list[k + 1] else null) else head,
                 if tail == list[k] then (if k > 0 then list[k - 1] else null) else tail)
  {
    var shorter := Removed(list, k);
    assert k > 0 ==> list[0].id != list[k].id;
    assert k < |list| - 1 ==> list[|list| - 1].id != list[k].id;
  }

  class HashLog<H(==)> {
    const step: Hasher<H>
    var synced: int
    var syncedHash: H
    var pendingHead: HashNode?
    var pendingTail: HashNode?
    var hash: H
    var nodes: map<CommandId, HashNode>
    var pendingUpd: map<CommandId, UpdateEntry<H>>
    /** The nodes from the head on. */
    ghost var list: seq<HashNode>

    constructor (step: Hasher<H>, zero: H)
      ensures Valid() && Abs() == NewLog(zero) && this.step == step && list == []
    {
      this.step := step;
      synced, syncedHash, hash := -1, zero, zero;
      pendingHead, pendingTail := null, null;
      nodes, pendingUpd := map[], map[];
      list := [];
    }

    ghost function Abs(): Log<H>
      reads this
    {
      Log(synced, syncedHash, Ids(list), hash, pendingUpd)
    }

    ghost predicate Valid()
      reads this, list
    {
      && Linked(list) && DistinctIds(list) && Ends(list, pendingHead, pendingTail) && Finds(list, nodes)
      && Coherent(step, Abs())
    }

    method Append(cmdId: CommandId) returns (h: H)
      requires Valid() && cmdId !in nodes
      modifies this, list
      ensures Valid() && forall n :: n in list ==> n in old(list) || fresh(n)
      ensures Abs() == HashLogSpec.Append(step, old(Abs()), cmdId)
      ensures h == AppendHash(step, old(Abs()), cmdId)
    {
      hide Fold, Without, Coherent, Linked, DistinctIds, Ends, Finds, Ids, Confirm, HashLogSpec.Append, Distinct;
      PendingIffFound(this, cmdId);
      AppendIs(step, Abs(), cmdId);
      if cmdId in pendingUpd {
        var upd := pendingUpd[cmdId];
        pendingUpd := pendingUpd - {cmdId};
        ApplyUpdate(cmdId, upd.seqnum, upd.hash, false);
        return upd.hash;
      }
      var node := new HashNode(cmdId);
      AddedFinds(list, nodes, node);
      EmptyList(list, pendingHead, pendingTail);
      nodes := nodes[cmdId := node];
      hash := step(if pendingHead == null then syncedHash else hash, cmdId);
      LinkLast(node);
      list := list + [node];
      return hash;
    }

    /** The new node becomes the head, or the second node and the tail, or the tail. */
    method LinkLast(node: HashNode)
      requires Linked(list) && Ends(list, pendingHead, pendingTail)
      requires node !in list && node.next == null && node.previous == null
      modifies this`pendingHead, this`pendingTail, list, node
      ensures Linked(list + [node]) && Ends(list + [node], pendingHead, pendingTail)
    {
      if pendingHead == null {
        pendingHead := node;
        return;
      }
      if pendingTail == null {
        pendingTail := node;
        node.previous := pendingHead;
        pendingHead.next := node;
      } else {
        pendingTail.next := node;
        node.previous := pendingTail;
        pendingTail := node;
      }
    }

    method Update(cmdId: CommandId, s: int, h: H)
      requires Valid()
      modifies this, list
      ensures Valid() && forall n :: n in list ==> n in old(list)
      ensures Abs() == HashLogSpec.Update(step, old(Abs()), cmdId, s, h)
    {
      hide Fold, Without, Coherent;
      UpdateCoherent(step, Abs(), cmdId, s, h);
      ApplyUpdate(cmdId, s, h, true);
    }

    method ApplyUpdate(cmdId: CommandId, s: int, h: H, save: bool)
      requires Valid() && (!save ==> cmdId !in pendingUpd)
      modifies this, list
      ensures Valid() && forall n :: n in list ==> n in old(list)
      ensures Abs() == if save then HashLogSpec.Update(step, old(Abs()), cmdId, s, h)
                       else Confirm(step, old(Abs()), cmdId, s, h)
    {
      hide Fold, Without, Coherent, Linked, DistinctIds, Ends, Finds, Ids, Confirm, HashLogSpec.Update, Distinct;
      ghost var l := Abs();
      PendingIffFound(this, cmdId);
      UpdateIs(step, l, cmdId, s, h);
      var known := cmdId in nodes;
      if !known && save {
        pendingUpd := pendingUpd[cmdId := UpdateEntry(h, s)];
        return;
      }
      if known {
        Unlink(nodes[cmdId]);
      }
      if s <= synced && !known {
        return;
      }
      if s > synced {
        synced := s;
        syncedHash := h;
      }
      hash := Rehash();
    }

    /** Takes a node out of the list. */
    method Unlink(n: HashNode)
      requires Linked(list) && DistinctIds(list) && Ends(list, pendingHead, pendingTail) && Finds(list, nodes)
      requires n in list && Distinct(Ids(list))
      modifies this`pendingHead, this`pendingTail, this`nodes, this`list, list
      ensures Linked(list) && DistinctIds(list) && Ends(list, pendingHead, pendingTail) && Finds(list, nodes)
      ensures Ids(list) == Without(old(Ids(list)), n.id)
      ensures forall x :: x in list ==> x in old(list)
      ensures n.next == null && n.previous == null
    {
      hide *;
      ghost var k: nat :| k < |list| && list[k] == n;
      RemovedEnds(list, k, pendingHead, pendingTail);
      RemovedIds(list, k);
      RemovedFinds(list, nodes, k);
      Neighbours(list, k);
      var previous, next := n.previous, n.next;
      Bypass(n, k);
      if pendingHead == n {
        pendingHead := next;
      }
      if pendingTail == n {
        pendingTail := previous;
      }
      nodes := nodes - {n.id};
      list := Removed(list, k);
    }

    /** The neighbours of a node point past it. */
    method Bypass(n: HashNode, ghost k: nat)
      requires Linked(list) && DistinctIds(list) && k < |list| && list[k] == n
      modifies list
      ensures Linked(Removed(list, k)) && n.next == null && n.previous == null
    {
      ghost var front, back := list[..k], list[k + 1..];
      Parts(list, k);
      hide Linked, DistinctIds, Removed;
      PointPast(n, n.previous, n.next);
      assert Chain(front);
      assert Chain(back);
      JoinParts(front, back);
    }

    method PointPast(n: HashNode, previous: HashNode?, next: HashNode?)
      requires n.previous == previous && n.next == next
      requires n != previous && n != next && (previous != null ==> previous != next)
      modifies n, previous, next
      ensures n.next == null && n.previous == null
      ensures previous != null ==> previous.next == next && previous.previous == old(previous.previous)
      ensures next != null ==> next.previous == previous && next.next == old(next.next)
    {
      if n.previous != null {
        n.previous.next := n.next;
      }
      if n.next != null {
        n.next.previous := n.previous;
      }
      n.previous, n.next := null, null;
    }

    /** The fold over the list from the last synced hash. */
    method Rehash() returns (h: H)
      requires Linked(list) && Ends(list, pendingHead, pendingTail)
      ensures h == Fold(step, syncedHash, Ids(list))
    {
      h := syncedHash;
      var n := pendingHead;
      ghost var k := 0;
      while n != null
        invariant Linked(list)
        invariant 0 <= k <= |list| && n == (if k < |list| then list[k] else null)
        invariant h == Fold(step, syncedHash, Ids(list)[..k])
        decreases |list| - k
      {
        assert Ids(list)[..k + 1][..k] == Ids(list)[..k];
        h := step(h, n.id);
        n := n.next;
        k := k + 1;
      }
      assert Ids(list)[..|list|] == Ids(list);
    }
  }

  lemma PendingIffFound<H>(l: HashLog<H>, id: CommandId)
    requires l.Valid()
    ensures id in Ids(l.list) <==> id in l.nodes
    ensures id in l.nodes ==> l.nodes[id] in l.list && l.nodes[id].id == id
    ensures Distinct(Ids(l.list))
  {
    if id in l.nodes {
      var i :| 0 <= i < |l.list| && l.list[i] == l.nodes[id];
      assert Ids(l.list)[i] == id;
    }
  }

  lemma EmptyList(list: seq<HashNode>, head: HashNode?, tail: HashNode?)
    requires Ends(list, head, tail)
    ensures head == null <==> Ids(list) == []
  {
    assert list != [] ==> head == list[0];
  }

  lemma AddedFinds(list: seq<HashNode>, nodes: map<CommandId, HashNode>, node: HashNode)
    requires DistinctIds(list) && Finds(list, nodes) && node.id !in nodes
    ensures DistinctIds(list + [node]) && Finds(list + [node], nodes[node.id := node])
    ensures Ids(list + [node]) == Ids(list) + [node.id] && node !in list
  {
  }

  /** Append, with its parts named. */
  lemma AppendIs<H>(step: Hasher<H>, l: Log<H>, id: CommandId)
    requires Coherent(step, l) && id !in l.pending
    ensures Coherent(step, HashLogSpec.Append(step, l, id))
    ensures id in l.pendingUpd ==>
      var rest := l.(pendingUpd := l.pendingUpd - {id});
      Coherent(step, rest) && AppendHash(step, l, id) == l.pendingUpd[id].hash
      && HashLogSpec.Append(step, l, id) == Confirm(step, rest, id, l.pendingUpd[id].seqnum, l.pendingUpd[id].hash)
    ensures id !in l.pendingUpd ==>
      HashLogSpec.Append(step, l, id)
        == l.(pending := l.pending + [id], hash := step(if l.pending == [] then l.syncedHash else l.hash, id))
      && AppendHash(step, l, id) == step(if l.pending == [] then l.syncedHash else l.hash, id)
  {
    AppendCoherent(step, l, id);
    RemovedUpd(step, l, id);
  }

  /** update, with its parts named. */
  lemma UpdateIs<H>(step: Hasher<H>, l: Log<H>, id: CommandId, s: int, h: H)
    requires Coherent(step, l)
    ensures var synced, syncedHash := if s > l.synced then s else l.synced, if s > l.synced then h else l.syncedHash;
      var pending := if id in l.pending then Without(l.pending, id) else l.pending;
      && Confirm(step, l, id, s, h) ==
           (if s <= l.synced && id !in l.pending then l
            else Log(synced, syncedHash, pending, Fold(step, syncedHash, pending), l.pendingUpd))
      && HashLogSpec.Update(step, l, id, s, h) ==
           (if id !in l.pending then l.(pendingUpd := l.pendingUpd[id := UpdateEntry(h, s)]) else Confirm(step, l, id, s, h))
      && Coherent(step, Confirm(step, l, id, s, h)) && Coherent(step, HashLogSpec.Update(step, l, id, s, h))
  {
    WithoutPending(step, l, id);
    UpdateCoherent(step, l, id, s, h);
    ConfirmCoherent(step, l, id, s, h);
  }

  lemma WithoutPending<H>(step: Hasher<H>, l: Log<H>, id: CommandId)
    requires Coherent(step, l)
    ensures id !in l.pending ==> Without(l.pending, id) == l.pending
  {
    WithoutProps(l.pending, id);
  }

  lemma RemovedUpd<H>(step: Hasher<H>, l: Log<H>, id: CommandId)
    requires Coherent(step, l)
    ensures Coherent(step, l.(pendingUpd := l.pendingUpd - {id}))
  {
  }
}
