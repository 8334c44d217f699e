/** What the store holds and what the commands reply, read off the sequence of commands alone: a GET replies
    the last value put, a SCAN the values present in its range in ascending order of their keys. */
module Semantics {
  import opened State
  import opened Sequences
  import opened Options
  import opened Traces

  // ---------------------------------------------------------------- one sequence of commands

  predicate Puts(c: Command, k: Key) {
    c.op == PUT && c.k == k
  }

  /** Command w is the last PUT on k among the first i commands. */
  ghost predicate IsLastPut(cmds: seq<Command>, i: nat, k: Key, w: nat)
    requires i <= |cmds|
  {
    w < i && Puts(cmds[w], k) && forall j :: w < j < i ==> !Puts(cmds[j], k)
  }

  /** What k holds after the first i commands: the last value put, or else what it held at the start. */
  ghost predicate Holds(s: Store, cmds: seq<Command>, i: nat, k: Key, v: Option<Value>)
    requires i <= |cmds|
  {
    || (exists w: nat :: IsLastPut(cmds, i, k, w) && v == Some(cmds[w].v))
    || ((forall j :: 0 <= j < i ==> !Puts(cmds[j], k)) && v == if k in s then Some(s[k]) else None)
  }

  function At(s: Store, k: Key): Option<Value> {
    if k in s then Some(s[k]) else None
  }

  lemma {:induction false} BatchStep(s: Store, cmds: seq<Command>, i: nat)
    requires i < |cmds|
    ensures ApplyBatch(s, cmds[..i + 1]) == Apply(ApplyBatch(s, cmds[..i]), cmds[i])
    decreases i
  {
    if i == 0 {
      assert cmds[..1] == [cmds[0]];
    } else {
      BatchStep(Apply(s, cmds[0]), cmds[1..], i - 1);
      assert cmds[1..][..i] == cmds[..i + 1][1..];
      assert cmds[1..][..i - 1] == cmds[..i][1..];
    }
  }

  /** The store after i commands, key by key. */
  lemma {:induction false} StoreHolds(s: Store, cmds: seq<Command>, i: nat, k: Key)
    requires i <= |cmds|
    ensures Holds(s, cmds, i, k, At(ApplyBatch(s, cmds[..i]), k))
    ensures forall v :: Holds(s, cmds, i, k, v) ==> v == At(ApplyBatch(s, cmds[..i]), k)
  {
    if i == 0 {
      assert ApplyBatch(s, cmds[..0]) == s;
    } else {
      StoreHolds(s, cmds, i - 1, k);
      BatchStep(s, cmds, i - 1);
      LastPutStep(cmds, i, k);
      assert Puts(cmds[i - 1], k) ==> IsLastPut(cmds, i, k, i - 1);
      hide IsLastPut, ApplyBatch;
    }
  }

  lemma LastPutStep(cmds: seq<Command>, i: nat, k: Key)
    requires 0 < i <= |cmds|
    ensures forall w: nat :: IsLastPut(cmds, i, k, w) <==>
              if Puts(cmds[i - 1], k) then w == i - 1 else IsLastPut(cmds, i - 1, k, w)
    ensures !Puts(cmds[i - 1], k) ==>
              ((forall j :: 0 <= j < i ==> !Puts(cmds[j], k)) <==> (forall j :: 0 <= j < i - 1 ==> !Puts(cmds[j], k)))
  {
  }

  /** ks lists the keys of s between lo and hi in ascending order. */
  ghost predicate Ascending(s: Store, lo: int, hi: int, ks: seq<Key>) {
    && (forall a, b :: 0 <= a < b < |ks| ==> ks[a] < ks[b])
    && forall k: Key :: k in ks <==> k in s && lo <= k <= hi
  }

  function ValuesOf(s: Store, ks: seq<Key>): Value
    requires forall k :: k in ks ==> k in s
  {
    if ks == [] then [] else s[ks[0]] + ValuesOf(s, ks[1..])
  }

  lemma {:induction false} ScanIs(s: Store, lo: int, hi: int) returns (ks: seq<Key>)
    ensures Ascending(s, lo, hi, ks) && ScanFrom(s, lo, hi) == ValuesOf(s, ks)
    decreases hi - lo
  {
    if lo > hi {
      ks := [];
    } else {
      ks := ScanIs(s, lo + 1, hi);
      if lo in s {
        var key: Key := lo;
        assert ([key] + ks)[1..] == ks;
        ks := [key] + ks;
      }
    }
  }

  /** held is what the keys hold after the first i commands. */
  ghost predicate HeldAt(s: Store, cmds: seq<Command>, i: nat, held: Store)
    requires i <= |cmds|
  {
    forall k: Key :: Holds(s, cmds, i, k, At(held, k))
  }

  /** What command i replies, in terms of what the keys hold then. */
  ghost predicate RepliesRight(s: Store, cmds: seq<Command>, i: nat, reply: Value)
    requires i < |cmds| && WellFormed(cmds[i])
  {
    var c := cmds[i];
    && (c.op == GET ==> exists v :: Holds(s, cmds, i, c.k, v) && reply == v.GetOr(NIL))
    && (c.op == SCAN ==> exists held: Store, ks ::
          HeldAt(s, cmds, i, held) && Ascending(held, c.k, ScanEnd(c), ks) && reply == ValuesOf(held, ks))
    && (c.op != GET && c.op != SCAN ==> reply == NIL)
  }

  lemma {:induction false} ReplyAt(s: Store, cmds: seq<Command>, i: nat)
    requires i < |cmds| && AllWellFormed(cmds)
    ensures ReplyBatch(s, cmds)[i] == Reply(ApplyBatch(s, cmds[..i]), cmds[i])
    decreases i
  {
    if i > 0 {
      ReplyAt(Apply(s, cmds[0]), cmds[1..], i - 1);
      assert cmds[1..][..i - 1] == cmds[..i][1..];
    }
  }

  /** Every reply of a sequence of commands is right. */
  lemma RepliesAreRight(s: Store, cmds: seq<Command>, i: nat)
    requires i < |cmds| && AllWellFormed(cmds)
    ensures RepliesRight(s, cmds, i, ReplyBatch(s, cmds)[i])
  {
    hide Holds;
    var held := ApplyBatch(s, cmds[..i]);
    ReplyAt(s, cmds, i);
    forall k: Key ensures Holds(s, cmds, i, k, At(held, k)) {
      StoreHolds(s, cmds, i, k);
    }
    assert HeldAt(s, cmds, i, held) && Holds(s, cmds, i, cmds[i].k, At(held, cmds[i].k));
    if cmds[i].op == SCAN {
      var ks := ScanIs(held, cmds[i].k, ScanEnd(cmds[i]));
    }
  }

  /** The reply of a GET is determined: that of the last PUT, else the initial value, else NIL. */
  lemma GetReplies(s: Store, cmds: seq<Command>, i: nat)
    requires i < |cmds| && AllWellFormed(cmds) && cmds[i].op == GET
    ensures forall w: nat :: IsLastPut(cmds, i, cmds[i].k, w) ==> ReplyBatch(s, cmds)[i] == cmds[w].v
    ensures (forall j :: 0 <= j < i ==> !Puts(cmds[j], cmds[i].k)) ==>
              ReplyBatch(s, cmds)[i] == if cmds[i].k in s then s[cmds[i].k] else NIL
  {
    var k := cmds[i].k;
    ReplyAt(s, cmds, i);
    StoreHolds(s, cmds, i, k);
    forall w: nat | IsLastPut(cmds, i, k, w) ensures ReplyBatch(s, cmds)[i] == cmds[w].v {
      assert Holds(s, cmds, i, k, Some(cmds[w].v));
    }
    if forall j :: 0 <= j < i ==> !Puts(cmds[j], k) {
      assert Holds(s, cmds, i, k, if k in s then Some(s[k]) else None);
    }
  }

  // ---------------------------------------------------------------- a sequence of instances

  /** The commands of all instances, one after the other. */
  ghost function Flat<T(!new)>(c: Batches<T>, xs: seq<T>): seq<Command>
    requires Runnable(c, xs)
  {
    if xs == [] then [] else c[xs[0]] + Flat(c, xs[1..])
  }

  /** Where the commands of instance j begin. */
  ghost function Start<T(!new)>(c: Batches<T>, xs: seq<T>, j: nat): nat
    requires Runnable(c, xs) && j <= |xs|
  {
    if j == 0 then 0 else |c[xs[0]]| + Start(c, xs[1..], j - 1)
  }

  lemma {:induction false} BatchConcat(s: Store, a: seq<Command>, b: seq<Command>)
    requires AllWellFormed(a) && AllWellFormed(b)
    ensures AllWellFormed(a + b)
    ensures ApplyBatch(s, a + b) == ApplyBatch(ApplyBatch(s, a), b)
    ensures ReplyBatch(s, a + b) == ReplyBatch(s, a) + ReplyBatch(ApplyBatch(s, a), b)
    decreases |a|
  {
    if a == [] {
      assert a + b == b;
    } else {
      BatchConcat(Apply(s, a[0]), a[1..], b);
      assert (a + b)[1..] == a[1..] + b;
    }
  }

  /** Command idx of instance j, in the flat sequence. */
  ghost predicate SameReply<T(!new)>(s: Store, c: Batches<T>, xs: seq<T>, j: nat, idx: nat)
    requires Runnable(c, xs) && j < |xs| && idx < |c[xs[j]]| && AllWellFormed(Flat(c, xs))
  {
    var at := Start(c, xs, j) + idx;
    && at < |Flat(c, xs)| && Flat(c, xs)[at] == c[xs[j]][idx]
    && idx < |Replies(s, c, xs)[xs[j]]| && Replies(s, c, xs)[xs[j]][idx] == ReplyBatch(s, Flat(c, xs))[at]
  }

  lemma {:induction false} FlatRun<T(!new)>(s: Store, c: Batches<T>, xs: seq<T>)
    requires Runnable(c, xs)
    ensures AllWellFormed(Flat(c, xs)) && Final(s, c, xs) == ApplyBatch(s, Flat(c, xs))
    decreases |xs|
  {
    hide AllWellFormed;
    if xs == [] {
      NothingToCheck();
    } else {
      FlatRun(ApplyBatch(s, c[xs[0]]), c, xs[1..]);
      BatchConcat(s, c[xs[0]], Flat(c, xs[1..]));
    }
  }

  lemma NothingToCheck()
    ensures AllWellFormed([])
  {
  }

  /** Executing instances is executing their commands one after the other: the final store is the same, and
      so is the reply of every single command. */
  lemma {:induction false} InstancesAreCommands<T(!new)>(s: Store, c: Batches<T>, xs: seq<T>, j: nat, idx: nat)
    requires Runnable(c, xs) && Distinct(xs) && j < |xs| && idx < |c[xs[j]]|
    ensures AllWellFormed(Flat(c, xs)) && Final(s, c, xs) == ApplyBatch(s, Flat(c, xs))
    ensures SameReply(s, c, xs, j, idx)
    decreases |xs|
  {
    hide AllWellFormed, ApplyBatch, ReplyBatch, Final;
    var s1 := ApplyBatch(s, c[xs[0]]);
    FlatRun(s, c, xs);
    FlatRun(s1, c, xs[1..]);
    BatchConcat(s, c[xs[0]], Flat(c, xs[1..]));
    if j > 0 {
      InstancesAreCommands(s1, c, xs[1..], j - 1, idx);
      assert xs[1..][j - 1] == xs[j] && xs[j] != xs[0];
    }
  }
}
