/** The replicated key-value store, the conflict relation on commands, and the
    commutation theory that the replication protocols rest on (state/state.go). */
module State {

  type Byte = b: int | 0 <= b < 0x100

  /** Keys are 64-bit signed integers. */
  type Key = k: int | -0x8000_0000_0000_0000 <= k < 0x8000_0000_0000_0000

  type Value = seq<Byte>

  /** An operation is one byte on the wire; the values above SCAN have no meaning. */
  type Operation = Byte

  const NONE: Operation := 0
  const PUT: Operation := 1
  const GET: Operation := 2
  const SCAN: Operation := 3

  const NIL: Value := []

  datatype Command = Command(op: Operation, k: Key, v: Value)

  /** Two's complement wrap-around of a 64-bit sum. */
  function Wrap64(x: int): Key {
    (x + 0x8000_0000_0000_0000) % 0x1_0000_0000_0000_0000 - 0x8000_0000_0000_0000
  }

  /** The first four bytes of v, read as a little-endian unsigned number. */
  function LittleEndian32(v: Value): (n: nat)
    requires |v| >= 4
    ensures n < 0x1_0000_0000
  {
    var b0: int, b1: int, b2: int, b3: int := v[0], v[1], v[2], v[3];
    b0 + 0x100 * b1 + 0x1_0000 * b2 + 0x100_0000 * b3
  }

  /** The first eight bytes of v, read as a little-endian unsigned number. */
  function LittleEndian64(v: Value): nat
    requires |v| >= 8
  {
    LittleEndian32(v) + 0x1_0000_0000 * LittleEndian32(v[4..])
  }

  /** A SCAN reads its count from the first eight bytes of its value, and panics when they are missing. */
  predicate WellFormed(c: Command) {
    c.op == SCAN ==> |c.v| >= 8
  }

  /** The last key a SCAN covers: the bound is inclusive and the sum wraps. */
  function ScanEnd(c: Command): Key
    requires c.op == SCAN && WellFormed(c)
  {
    Wrap64(c.k + LittleEndian64(c.v))
  }

  // ---------------------------------------------------------------- conflicts

  predicate Conflict(gamma: Command, delta: Command)
    requires WellFormed(gamma) && WellFormed(delta)
  {
    if gamma.op == SCAN && delta.op == SCAN then
      false
    else
      var (key, lb, ub) :=
        if gamma.op == SCAN then (delta.k, gamma.k, ScanEnd(gamma))
        else if delta.op == SCAN then (gamma.k, delta.k, ScanEnd(delta))
        else (gamma.k, delta.k, delta.k);
      lb <= key <= ub && (gamma.op == PUT || delta.op == PUT)
  }

  predicate AllWellFormed(cs: seq<Command>) {
    forall i :: 0 <= i < |cs| ==> WellFormed(cs[i])
  }

  predicate ConflictBatch(batch1: seq<Command>, batch2: seq<Command>)
    requires AllWellFormed(batch1) && AllWellFormed(batch2)
  {
    exists i, j :: 0 <= i < |batch1| && 0 <= j < |batch2| && Conflict(batch1[i], batch2[j])
  }

  method ComputeConflictBatch(batch1: seq<Command>, batch2: seq<Command>) returns (conflict: bool)
    requires AllWellFormed(batch1) && AllWellFormed(batch2)
    ensures conflict <==> ConflictBatch(batch1, batch2)
  {
    for i := 0 to |batch1|
      invariant forall a, b :: 0 <= a < i && 0 <= b < |batch2| ==> !Conflict(batch1[a], batch2[b])
    {
      for j := 0 to |batch2|
        invariant forall b :: 0 <= b < j ==> !Conflict(batch1[i], batch2[b])
      {
        if Conflict(batch1[i], batch2[j]) {
          return true;
        }
      }
    }
    return false;
  }

  lemma ConflictSymmetric(a: Command, b: Command)
    requires WellFormed(a) && WellFormed(b)
    ensures Conflict(a, b) == Conflict(b, a)
  {
  }

  // ---------------------------------------------------------------- execution

  type Store = map<Key, Value>

  /** The values of the keys in [lo, hi], concatenated in ascending key order. */
  function ScanFrom(s: Store, lo: int, hi: int): Value
    decreases hi - lo
  {
    if lo > hi then []
    else (if lo in s then s[lo] else []) + ScanFrom(s, lo + 1, hi)
  }

  /** The store after one command. */
  function Apply(s: Store, c: Command): Store {
    if c.op == PUT then s[c.k := c.v] else s
  }

  /** The reply of one command. */
  function Reply(s: Store, c: Command): Value
    requires WellFormed(c)
  {
    if c.op == GET && c.k in s then s[c.k]
    else if c.op == SCAN then ScanFrom(s, c.k, ScanEnd(c))
    else NIL
  }

  /** The mutable store of a replica. Keys come out of the tree map in ascending order. */
  class KVState {
    var Store: Store

    constructor ()
      ensures Store == map[]
    {
      Store := map[];
    }

    method Execute(c: Command) returns (reply: Value)
      requires WellFormed(c)
      modifies this
      ensures Store == Apply(old(Store), c)
      ensures reply == Reply(old(Store), c)
      ensures Store == if c.op == PUT then old(Store)[c.k := c.v] else old(Store)
      ensures c.op == GET ==> reply == if c.k in old(Store) then old(Store)[c.k] else NIL
      ensures c.op == SCAN ==> reply == ScanFrom(old(Store), c.k, Wrap64(c.k + LittleEndian64(c.v)))
      ensures c.op != GET && c.op != SCAN ==> reply == NIL
    {
      if c.op == PUT {
        Store := Store[c.k := c.v];
      } else if c.op == GET {
        if c.k in Store {
          return Store[c.k];
        }
      } else if c.op == SCAN {
        reply := Scan(c.k, ScanEnd(c));
        return;
      }
      return NIL;
    }

    method Scan(lo: Key, hi: Key) returns (found: Value)
      ensures found == ScanFrom(Store, lo, hi)
    {
      var left := set k | k in Store && lo <= k <= hi;
      found := [];
      ghost var next: int := lo;
      while left != {}
        invariant forall k :: k in left <==> k in Store && next <= k <= hi
        invariant found + ScanFrom(Store, next, hi) == ScanFrom(Store, lo, hi)
        invariant lo <= next
        decreases left
      {
        var k := Least(left);
        SkipAbsent(Store, next, k, hi);
        found := found + Store[k];
        left := left - {k};
        next := k as int + 1;
      }
      NothingLeft(Store, next, hi);
    }
  }

  method Least(keys: set<Key>) returns (least: Key)
    requires keys != {}
    ensures least in keys && forall k :: k in keys ==> least <= k
  {
    least :| least in keys;
    var rest := keys - {least};
    while rest != {}
      invariant rest <= keys && least in keys
      invariant forall k :: k in keys && k !in rest ==> least <= k
      decreases rest
    {
      var k :| k in rest;
      if k < least {
        least := k;
      }
      rest := rest - {k};
    }
  }

  /** Keys that are not in the store contribute nothing to a scan. */
  lemma {:induction false} SkipAbsent(s: Store, from: int, upto: int, hi: int)
    requires from <= upto <= hi
    requires forall k :: k in s && from <= k <= hi ==> upto <= k
    ensures ScanFrom(s, from, hi) == ScanFrom(s, upto, hi)
    decreases upto - from
  {
    if from < upto {
      SkipAbsent(s, from + 1, upto, hi);
    }
  }

  lemma {:induction false} NothingLeft(s: Store, from: int, hi: int)
    requires forall k :: k in s ==> !(from <= k <= hi)
    ensures ScanFrom(s, from, hi) == []
    decreases hi - from
  {
    if from <= hi {
      NothingLeft(s, from + 1, hi);
    }
  }

  // ---------------------------------------------------------------- commutation

  /** A scan does not see a write outside its range. */
  lemma {:induction false} ScanFrame(s: Store, k: Key, v: Value, lo: int, hi: int)
    requires !(lo <= k <= hi)
    ensures ScanFrom(s[k := v], lo, hi) == ScanFrom(s, lo, hi)
    decreases hi - lo
  {
    if lo <= hi {
      ScanFrame(s, k, v, lo + 1, hi);
    }
  }

  /** A command that does not conflict with c leaves the reply of c alone. */
  lemma ReplyFrame(s: Store, c: Command, other: Command)
    requires WellFormed(c) && WellFormed(other)
    requires !Conflict(c, other)
    ensures Reply(Apply(s, other), c) == Reply(s, c)
  {
    if c.op == SCAN && other.op == PUT {
      ScanFrame(s, other.k, other.v, c.k, ScanEnd(c));
    }
  }

  /** Commands that do not conflict commute, in the store and in both replies. */
  lemma NonConflictingCommute(s: Store, a: Command, b: Command)
    requires WellFormed(a) && WellFormed(b)
    requires !Conflict(a, b)
    ensures Apply(Apply(s, a), b) == Apply(Apply(s, b), a)
    ensures Reply(Apply(s, b), a) == Reply(s, a)
    ensures Reply(Apply(s, a), b) == Reply(s, b)
  {
    ConflictSymmetric(a, b);
    ReplyFrame(s, a, b);
    ReplyFrame(s, b, a);
  }

  // ---------------------------------------------------------------- Conflict is exact

  ghost predicate Commute(s: Store, a: Command, b: Command)
    requires WellFormed(a) && WellFormed(b)
  {
    && Apply(Apply(s, a), b) == Apply(Apply(s, b), a)
    && Reply(Apply(s, b), a) == Reply(s, a)
    && Reply(Apply(s, a), b) == Reply(s, b)
  }

  /** What c does, whatever value it puts. */
  function WithValue(c: Command, v: Value): Command {
    if c.op == PUT then c.(v := v) else c
  }

  /** The operations that read or write. */
  predicate Acts(c: Command) {
    c.op == PUT || c.op == GET || c.op == SCAN
  }

  /** Two commands that do something conflict exactly when some values and some store tell their orders apart.
      Conflict also holds of a PUT and a command without effect on one key. */
  lemma ConflictIff(a: Command, b: Command)
    requires WellFormed(a) && WellFormed(b)
    ensures Conflict(a, b) && Acts(a) && Acts(b) <==> exists v, w, s :: !Commute(s, WithValue(a, v), WithValue(b, w))
  {
    if !Acts(a) || !Acts(b) {
      forall v, w, s ensures Commute(s, WithValue(a, v), WithValue(b, w)) {
      }
    } else if Conflict(a, b) {
      OrdersDiffer(a, b);
    } else {
      forall v, w, s ensures Commute(s, WithValue(a, v), WithValue(b, w)) {
        NonConflictingCommute(s, WithValue(a, v), WithValue(b, w));
      }
    }
  }

  lemma OrdersDiffer(a: Command, b: Command)
    requires WellFormed(a) && WellFormed(b) && Conflict(a, b) && Acts(a) && Acts(b)
    ensures !Commute(map[], WithValue(a, [0]), WithValue(b, [1]))
  {
    var x, y := WithValue(a, [0]), WithValue(b, [1]);
    if a.op == PUT && b.op == PUT {
      assert Apply(Apply(map[], x), y)[a.k] == [1] && Apply(Apply(map[], y), x)[a.k] == [0];
    } else if a.op == PUT {
      PutIsSeen(a.k, [0], y);
    } else {
      PutIsSeen(b.k, [1], x);
    }
  }

  /** A GET or a SCAN that covers the key replies differently before and after a PUT. */
  lemma PutIsSeen(k: Key, v: Value, read: Command)
    requires WellFormed(read) && v != [] && Conflict(Command(PUT, k, v), read) && Acts(read) && read.op != PUT
    ensures Reply(map[k := v], read) != Reply(map[], read)
  {
    if read.op == SCAN {
      NothingLeft(map[], read.k, ScanEnd(read));
      ScanOne(k, v, read.k, ScanEnd(read));
    }
  }

  lemma {:induction false} ScanOne(k: Key, v: Value, lo: int, hi: int)
    requires lo <= k <= hi
    ensures ScanFrom(map[k := v], lo, hi) == v
    decreases hi - lo
  {
    if lo < k {
      ScanOne(k, v, lo + 1, hi);
    } else {
      NothingLeft(map[k := v], lo + 1, hi);
    }
  }
}
