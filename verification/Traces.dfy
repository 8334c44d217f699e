/** Two orders of the same batches that agree on every conflicting pair have the same
    effect: the same final store and the same replies to every batch. */
module Traces {
  import opened State
  import opened Sequences

  // ---------------------------------------------------------------- one batch

  function ApplyBatch(s: Store, batch: seq<Command>): Store
    decreases |batch|
  {
    if batch == [] then s else ApplyBatch(Apply(s, batch[0]), batch[1..])
  }

  function ReplyBatch(s: Store, batch: seq<Command>): (replies: seq<Value>)
    requires AllWellFormed(batch)
    ensures |replies| == |batch|
    decreases |batch|
  {
    if batch == [] then [] else [Reply(s, batch[0])] + ReplyBatch(Apply(s, batch[0]), batch[1..])
  }

  lemma {:induction false} CommandCommutesWithBatch(s: Store, c: Command, batch: seq<Command>)
    requires WellFormed(c) && AllWellFormed(batch)
    requires forall j :: 0 <= j < |batch| ==> !Conflict(c, batch[j])
    ensures ApplyBatch(Apply(s, c), batch) == Apply(ApplyBatch(s, batch), c)
    ensures Reply(ApplyBatch(s, batch), c) == Reply(s, c)
    ensures ReplyBatch(Apply(s, c), batch) == ReplyBatch(s, batch)
    decreases |batch|
  {
    if batch != [] {
      NonConflictingCommute(s, c, batch[0]);
      CommandCommutesWithBatch(Apply(s, batch[0]), c, batch[1..]);
    }
  }

  /** Batches without a conflicting pair commute, in the store and in all their replies. */
  lemma {:induction false} BatchesCommute(s: Store, a: seq<Command>, b: seq<Command>)
    requires AllWellFormed(a) && AllWellFormed(b)
    requires !ConflictBatch(a, b)
    ensures ApplyBatch(ApplyBatch(s, a), b) == ApplyBatch(ApplyBatch(s, b), a)
    ensures ReplyBatch(ApplyBatch(s, b), a) == ReplyBatch(s, a)
    ensures ReplyBatch(ApplyBatch(s, a), b) == ReplyBatch(s, b)
    decreases |a|
  {
    if a != [] {
      assert forall j :: 0 <= j < |b| ==> !Conflict(a[0], b[j]);
      CommandCommutesWithBatch(s, a[0], b);
      assert forall i :: 0 <= i < |a[1..]| ==> a[1..][i] == a[i + 1];
      BatchesCommute(Apply(s, a[0]), a[1..], b);
    }
  }

  // ---------------------------------------------------------------- sequences of batches

  /** The commands that each instance carries. */
  type Batches<T> = map<T, seq<Command>>

  ghost predicate Runnable<T(!new)>(c: Batches<T>, xs: seq<T>) {
    forall x :: x in xs ==> x in c && AllWellFormed(c[x])
  }

  ghost function Final<T(!new)>(s: Store, c: Batches<T>, xs: seq<T>): Store
    requires Runnable(c, xs)
    decreases |xs|
  {
    if xs == [] then s else Final(ApplyBatch(s, c[xs[0]]), c, xs[1..])
  }

  /** What each instance of xs replies when xs is executed from s. */
  ghost function Replies<T(!new)>(s: Store, c: Batches<T>, xs: seq<T>): (r: map<T, seq<Value>>)
    requires Runnable(c, xs)
    ensures forall x :: x in r <==> x in xs
    decreases |xs|
  {
    if xs == [] then map[]
    else Replies(ApplyBatch(s, c[xs[0]]), c, xs[1..])[xs[0] := ReplyBatch(s, c[xs[0]])]
  }

  lemma UpdatesSwap<K, V>(m: map<K, V>, k1: K, v1: V, k2: K, v2: V)
    requires k1 != k2
    ensures m[k1 := v1][k2 := v2] == m[k2 := v2][k1 := v1]
  {
  }

  /** Executing one more instance at the end. */
  lemma {:induction false} FinalAppend<T(!new)>(s: Store, c: Batches<T>, xs: seq<T>, x: T)
    requires Runnable(c, xs) && x in c && AllWellFormed(c[x]) && x !in xs
    ensures Runnable(c, xs + [x])
    ensures Final(s, c, xs + [x]) == ApplyBatch(Final(s, c, xs), c[x])
    ensures Replies(s, c, xs + [x]) == Replies(s, c, xs)[x := ReplyBatch(Final(s, c, xs), c[x])]
    decreases |xs|
  {
    if xs == [] {
      assert xs + [x] == [x];
      assert Final(s, c, [x]) == Final(ApplyBatch(s, c[x]), c, [x][1..]);
    } else {
      var h, tail := xs[0], xs[1..];
      var s1 := ApplyBatch(s, c[h]);
      assert (xs + [x])[1..] == tail + [x] && (xs + [x])[0] == h;
      FinalAppend(s1, c, tail, x);
      UpdatesSwap(Replies(s1, c, tail), x, ReplyBatch(Final(s1, c, tail), c[x]), h, ReplyBatch(s, c[h]));
    }
  }

  /** The batches c1 and c2 give the instances of xs are the same, so the runs are the same. */
  lemma {:induction false} FinalTransfer<T(!new)>(s: Store, c1: Batches<T>, c2: Batches<T>, xs: seq<T>)
    requires Runnable(c1, xs) && Runnable(c2, xs)
    requires forall x :: x in xs ==> c1[x] == c2[x]
    ensures Final(s, c1, xs) == Final(s, c2, xs)
    ensures Replies(s, c1, xs) == Replies(s, c2, xs)
    decreases |xs|
  {
    if xs != [] {
      FinalTransfer(ApplyBatch(s, c1[xs[0]]), c1, c2, xs[1..]);
    }
  }

  ghost predicate Independent<T(!new)>(c: Batches<T>, x: T, p: T) {
    x in c && p in c && AllWellFormed(c[x]) && AllWellFormed(c[p]) && !ConflictBatch(c[x], c[p])
  }

  /** Two neighbours at the front that do not conflict can change places. */
  lemma SwapFront<T(!new)>(s: Store, c: Batches<T>, p: T, x: T, rest: seq<T>)
    requires Independent(c, x, p) && Runnable(c, rest) && p != x
    ensures Runnable(c, [p, x] + rest) && Runnable(c, [x, p] + rest)
    ensures Final(s, c, [p, x] + rest) == Final(s, c, [x, p] + rest)
    ensures Replies(s, c, [p, x] + rest) == Replies(s, c, [x, p] + rest)
  {
    hide Final, Replies, ApplyBatch, ReplyBatch;
    BatchesCommute(s, c[x], c[p]);
    ConsRun(s, c, p, [x] + rest);
    ConsRun(ApplyBatch(s, c[p]), c, x, rest);
    ConsRun(s, c, x, [p] + rest);
    ConsRun(ApplyBatch(s, c[x]), c, p, rest);
    assert [p, x] + rest == [p] + ([x] + rest) && [x, p] + rest == [x] + ([p] + rest);
    var s2 := ApplyBatch(ApplyBatch(s, c[p]), c[x]);
    UpdatesSwap(Replies(s2, c, rest), x, ReplyBatch(s, c[x]), p, ReplyBatch(s, c[p]));
  }

  lemma ConsRun<T(!new)>(s: Store, c: Batches<T>, x: T, rest: seq<T>)
    requires Runnable(c, rest) && x in c && AllWellFormed(c[x])
    ensures Runnable(c, [x] + rest)
    ensures Final(s, c, [x] + rest) == Final(ApplyBatch(s, c[x]), c, rest)
    ensures Replies(s, c, [x] + rest) == Replies(ApplyBatch(s, c[x]), c, rest)[x := ReplyBatch(s, c[x])]
  {
    assert ([x] + rest)[1..] == rest;
  }

  /** An instance that conflicts with nothing in front of it can go first. */
  lemma {:induction false} MoveToFront<T(!new)>(s: Store, c: Batches<T>, pre: seq<T>, x: T, post: seq<T>)
    requires Runnable(c, pre) && Runnable(c, post) && x in c && AllWellFormed(c[x])
    requires x !in pre
    requires forall p :: p in pre ==> Independent(c, x, p)
    ensures Runnable(c, pre + [x] + post) && Runnable(c, [x] + (pre + post))
    ensures Final(s, c, pre + [x] + post) == Final(s, c, [x] + (pre + post))
    ensures Replies(s, c, pre + [x] + post) == Replies(s, c, [x] + (pre + post))
    decreases |pre|
  {
    hide Final, Replies, ApplyBatch, ReplyBatch, ConflictBatch, AllWellFormed;
    if pre == [] {
      assert pre + [x] + post == [x] + (pre + post);
    } else {
      var p, rest := pre[0], pre[1..];
      assert pre == [p] + rest && p in pre;
      MoveToFront(ApplyBatch(s, c[p]), c, rest, x, post);
      assert pre + [x] + post == [p] + (rest + [x] + post);
      ConsRun(s, c, p, rest + [x] + post);
      ConsRun(s, c, p, [x] + (rest + post));
      SwapFront(s, c, p, x, rest + post);
      assert [p] + ([x] + (rest + post)) == [p, x] + (rest + post);
      assert [x] + (pre + post) == [x, p] + (rest + post);
    }
  }

  /** xs and ys put every conflicting pair in the same order. */
  ghost predicate SameConflictOrder<T(!new)>(c: Batches<T>, xs: seq<T>, ys: seq<T>)
    requires Runnable(c, xs)
  {
    forall i, j, k, l | 0 <= i < j < |xs| && 0 <= k < |ys| && 0 <= l < |ys|
      && xs[i] == ys[l] && xs[j] == ys[k] && ConflictBatch(c[xs[i]], c[xs[j]]) :: l < k
  }

  /** Whatever stands before xs[0] in ys does not conflict with it. */
  lemma NothingConflictsInFront<T(!new)>(c: Batches<T>, xs: seq<T>, ys: seq<T>, l: nat)
    requires Runnable(c, xs) && xs != [] && Distinct(xs)
    requires l < |ys| && ys[l] == xs[0] && Distinct(ys)
    requires forall x :: x in xs <==> x in ys
    requires SameConflictOrder(c, xs, ys)
    ensures forall p :: p in ys[..l] ==> Independent(c, xs[0], p)
  {
    forall p | p in ys[..l] ensures Independent(c, xs[0], p) {
      var k :| 0 <= k < l && ys[k] == p;
      assert p in ys;
      var j :| 0 <= j < |xs| && xs[j] == p;
      assert j != 0;
    }
  }

  ghost function Without<T>(ys: seq<T>, l: nat): (rest: seq<T>)
    requires l < |ys|
    ensures |rest| == |ys| - 1
  {
    ys[..l] + ys[l + 1..]
  }

  /** Executing ys is executing its element at l first and then the others. */
  lemma PullToFront<T(!new)>(s: Store, c: Batches<T>, ys: seq<T>, l: nat)
    requires l < |ys| && Distinct(ys) && Runnable(c, ys)
    requires forall p :: p in ys[..l] ==> Independent(c, ys[l], p)
    ensures Runnable(c, Without(ys, l))
    ensures Final(s, c, ys) == Final(ApplyBatch(s, c[ys[l]]), c, Without(ys, l))
    ensures Replies(s, c, ys)
         == Replies(ApplyBatch(s, c[ys[l]]), c, Without(ys, l))[ys[l] := ReplyBatch(s, c[ys[l]])]
  {
    assert ys[l] in ys;
    assert forall y :: y in ys[..l] || y in ys[l + 1..] ==> y in ys;
    assert ys == ys[..l] + [ys[l]] + ys[l + 1..];
    MoveToFront(s, c, ys[..l], ys[l], ys[l + 1..]);
    ConsRun(s, c, ys[l], Without(ys, l));
  }

  lemma HeadIn<T>(xs: seq<T>)
    requires xs != []
    ensures exists x :: x in xs
  {
    assert xs[0] in xs;
  }

  /** Two orders of the same instances that agree on every conflicting pair end in the same store,
      and every instance gets the same replies. */
  lemma {:induction false} OrdersAgree<T(!new)>(s: Store, c: Batches<T>, xs: seq<T>, ys: seq<T>)
    requires Runnable(c, xs) && Distinct(xs) && Distinct(ys)
    requires forall x :: x in xs <==> x in ys
    requires SameConflictOrder(c, xs, ys)
    ensures Runnable(c, ys)
    ensures Final(s, c, xs) == Final(s, c, ys)
    ensures Replies(s, c, xs) == Replies(s, c, ys)
    decreases |xs|
  {
    if xs == [] {
      if ys != [] {
        HeadIn(ys);
        assert false;
      }
    } else {
      assert xs[0] in ys;
      var l :| 0 <= l < |ys| && ys[l] == xs[0];
      NothingConflictsInFront(c, xs, ys, l);
      PullToFront(s, c, ys, l);
      RemoveKeepsOrder(c, xs, ys, l);
      OrdersAgree(ApplyBatch(s, c[xs[0]]), c, xs[1..], Without(ys, l));
    }
  }

  lemma RemoveKeepsOrder<T(!new)>(c: Batches<T>, xs: seq<T>, ys: seq<T>, l: nat)
    requires Runnable(c, xs) && Distinct(xs) && Distinct(ys) && xs != []
    requires l < |ys| && ys[l] == xs[0]
    requires forall x :: x in xs <==> x in ys
    requires SameConflictOrder(c, xs, ys)
    ensures Distinct(xs[1..]) && Distinct(Without(ys, l)) && Runnable(c, xs[1..])
    ensures forall x :: x in xs[1..] <==> x in Without(ys, l)
    ensures SameConflictOrder(c, xs[1..], Without(ys, l))
  {
    var rest := Without(ys, l);
    assert forall k :: 0 <= k < |rest| ==> rest[k] == ys[if k < l then k else k + 1];
    forall x | x in xs[1..] ensures x in rest {
      assert x in xs;
      var k :| 0 <= k < |ys| && ys[k] == x;
      assert k != l;
      assert rest[if k < l then k else k - 1] == x;
    }
    forall x | x in rest ensures x in xs[1..] {
      var k :| 0 <= k < |rest| && rest[k] == x;
      assert x in ys;
      var j :| 0 <= j < |xs| && xs[j] == x;
      assert j != 0;
      assert xs[1..][j - 1] == x;
    }
    var tail := xs[1..];
    forall i, j, k, k' | 0 <= i < j < |tail| && 0 <= k < |rest| && 0 <= k' < |rest|
      && tail[i] == rest[k'] && tail[j] == rest[k] && ConflictBatch(c[tail[i]], c[tail[j]])
      ensures k' < k
    {
      assert xs[i + 1] == tail[i] && xs[j + 1] == tail[j];
      var a := if k' < l then k' else k' + 1;
      var b := if k < l then k else k + 1;
      assert ys[a] == xs[i + 1] && ys[b] == xs[j + 1];
      assert a < b;
    }
  }
}
