/** The light conflict index of SwiftPaxos, which remembers only the last command and the last write of a
    key, the dependencies computed from it, and delivery (swift/key.go, swift/swift.go). */
module SwiftIndex {
  import opened CommandIds
  import opened Options
  import opened Sequences
  import opened State
  import opened Traces
  import opened HashLogSpec
  import opened SwiftDep
  import Ballots

  /** The keys of a command. A SCAN of count keys covers K to K + count - 1, with wrap-around. */
  function KeysOf(cmd: Command): seq<Key>
    requires WellFormed(cmd)
  {
    if cmd.op == SCAN then KeysFrom(cmd.k, LittleEndian64(cmd.v)) else [cmd.k]
  }

  function KeysFrom(k: Key, count: nat): (ks: seq<Key>)
    ensures |ks| == count && forall i :: 0 <= i < count ==> ks[i] == Wrap64(k + i)
  {
    if count == 0 then [] else KeysFrom(k, count - 1) + [Wrap64(k + count - 1)]
  }

  /** lightKeyInfo: at most one command in each list. */
  datatype LightKeyInfo = LightKeyInfo(lastWrite: Dep, lastCmd: Dep) {
    function Add(cmd: Command, cmdId: CommandId): LightKeyInfo {
      LightKeyInfo(if cmd.op == PUT then [cmdId] else lastWrite, [cmdId])
    }

    function GetConflictCmds(cmd: Command): Dep {
      if cmd.op == GET then lastWrite else lastCmd
    }
  }

  type Index = map<Key, LightKeyInfo>

  function InfoOf(index: Index, key: Key): LightKeyInfo {
    if key in index then index[key] else LightKeyInfo([], [])
  }

  /** The index after the first n keys of a command. */
  function AddKeys(index: Index, keys: seq<Key>, n: nat, cmd: Command, cmdId: CommandId): Index
    requires n <= |keys|
  {
    if n == 0 then index
    else
      var before := AddKeys(index, keys, n - 1, cmd, cmdId);
      before[keys[n - 1] := InfoOf(before, keys[n - 1]).Add(cmd, cmdId)]
  }

  /** The dependencies that the first n keys of a command contribute. */
  function DepOf(index: Index, keys: seq<Key>, n: nat, cmd: Command, cmdId: CommandId): Dep
    requires n <= |keys|
  {
    if n == 0 then []
    else
      DepOf(index, keys, n - 1, cmd, cmdId)
      + InfoOf(AddKeys(index, keys, n - 1, cmd, cmdId), keys[n - 1]).GetConflictCmds(cmd)
  }

  type Logs<H> = map<Key, Log<H>>

  function LogOf<H>(zero: H, logs: Logs<H>, key: Key): Log<H> {
    if key in logs then logs[key] else NewLog(zero)
  }

  function AppendKeys<H>(step: Hasher<H>, zero: H, logs: Logs<H>, keys: seq<Key>, n: nat, cmdId: CommandId): Logs<H>
    requires n <= |keys|
  {
    if n == 0 then logs
    else
      var before := AppendKeys(step, zero, logs, keys, n - 1, cmdId);
      before[keys[n - 1] := Append(step, LogOf(zero, before, keys[n - 1]), cmdId)]
  }

  function HashesOf<H>(step: Hasher<H>, zero: H, logs: Logs<H>, keys: seq<Key>, n: nat, cmdId: CommandId): seq<H>
    requires n <= |keys|
  {
    if n == 0 then []
    else
      HashesOf(step, zero, logs, keys, n - 1, cmdId)
      + [AppendHash(step, LogOf(zero, AppendKeys(step, zero, logs, keys, n - 1, cmdId), keys[n - 1]), cmdId)]
  }

  datatype Phase = START | PRE_ACCEPT | ACCEPT | COMMIT

  /** The fields of a command's descriptor that deliver reads; propose is None until the command's proposal
      has arrived. */
  datatype CommandDesc = CommandDesc(phase: Phase, cmd: Command, dep: Dep, propose: Option<Command>)

  /** What is sent to a client. */
  datatype ClientReply = ClientReply(cmdId: CommandId, dep: Dep, val: Value)

  /** The parts of a SwiftPaxos replica that deal with one key after another, and delivery. */
  class Replica<H(==)> {
    const step: Hasher<H>
    const zero: H
    const State: KVState
    const Id: nat
    const N: nat
    const Exec: bool
    const optExec: bool
    const Dreply: bool
    var ballot: nat
    var keys: Index
    var hlog: Logs<H>
    var delivered: set<CommandId>
    /** The commands delivered so far, in order. */
    ghost var order: seq<CommandId>

    constructor (step: Hasher<H>, zero: H, st: KVState, id: nat, n: nat, exec: bool, optExec: bool, dreply: bool)
      requires n > 0
      ensures this.step == step && this.zero == zero && State == st
      ensures Id == id && N == n && Exec == exec && this.optExec == optExec && Dreply == dreply
      ensures keys == map[] && hlog == map[] && delivered == {} && order == [] && ballot == 0
    {
      this.step, this.zero, State := step, zero, st;
      Id, N, Exec, this.optExec, Dreply := id, n, exec, optExec, dreply;
      keys, hlog, delivered, order, ballot := map[], map[], {}, [], 0;
    }

    /** The command is committed, or this replica leads and may execute at once. */
    predicate MayExecute(desc: CommandDesc)
      requires N > 0
      reads this`ballot
    {
      desc.phase == COMMIT || (optExec && Ballots.Leader(ballot, N) == Id)
    }

    method GetDepAndHashes(cmd: Command, cmdId: CommandId) returns (dep: Dep, hashes: seq<H>)
      requires WellFormed(cmd)
      modifies this`keys, this`hlog
      ensures var ks := KeysOf(cmd);
        && keys == AddKeys(old(keys), ks, |ks|, cmd, cmdId)
        && dep == DepOf(old(keys), ks, |ks|, cmd, cmdId)
        && hlog == AppendKeys(step, zero, old(hlog), ks, |ks|, cmdId)
        && hashes == HashesOf(step, zero, old(hlog), ks, |ks|, cmdId)
    {
      hide AddKeys, DepOf, AppendKeys, HashesOf, Append, AppendHash, KeysOf;
      dep, hashes := [], [];
      var keysOfCmd := KeysOf(cmd);
      ghost var keys0, hlog0 := keys, hlog;
      NoKeys(step, zero, keys0, hlog0, keysOfCmd, cmd, cmdId);
      for n := 0 to |keysOfCmd|
        invariant keys == AddKeys(keys0, keysOfCmd, n, cmd, cmdId)
        invariant dep == DepOf(keys0, keysOfCmd, n, cmd, cmdId)
        invariant hlog == AppendKeys(step, zero, hlog0, keysOfCmd, n, cmdId)
        invariant hashes == HashesOf(step, zero, hlog0, keysOfCmd, n, cmdId)
      {
        OneKey(step, zero, keys0, hlog0, keysOfCmd, n, cmd, cmdId);
        var key := keysOfCmd[n];
        var info := LightKeyInfo([], []);
        if key in keys {
          info := keys[key];
          dep := dep + info.GetConflictCmds(cmd);
        }
        keys := keys[key := info.Add(cmd, cmdId)];
        var l := NewLog(zero);
        if key in hlog {
          l := hlog[key];
        }
        hashes := hashes + [AppendHash(step, l, cmdId)];
        hlog := hlog[key := Append(step, l, cmdId)];
      }
    }

    method Deliver(desc: CommandDesc, cmdId: CommandId) returns (done: bool, reply: Option<ClientReply>)
      requires N > 0 && WellFormed(desc.cmd)
      requires delivered == set c | c in order
      modifies this`delivered, this`order, State
      ensures delivered == set c | c in order
      ensures done <==> desc.propose.Some? && Exec && cmdId !in old(delivered) && MayExecute(desc)
                        && forall c :: c in desc.dep ==> c in old(delivered)
      ensures done ==> order == old(order) + [cmdId] && State.Store == Apply(old(State.Store), desc.cmd)
      ensures !done ==> order == old(order) && State.Store == old(State.Store)
      ensures reply == if done && Dreply then Some(ClientReply(cmdId, desc.dep, Reply(old(State.Store), desc.cmd))) else None
    {
      if desc.propose.None? || cmdId in delivered || !Exec {
        return false, None;
      }
      if desc.phase != COMMIT && (!optExec || Ballots.Leader(ballot, N) != Id) {
        return false, None;
      }
      for i := 0 to |desc.dep|
        invariant forall c :: c in desc.dep[..i] ==> c in delivered
      {
        if desc.dep[i] !in delivered {
          return false, None;
        }
      }
      assert desc.dep[..|desc.dep|] == desc.dep;
      delivered := delivered + {cmdId};
      order := order + [cmdId];
      var v := State.Execute(desc.cmd);
      if !Dreply {
        return true, None;
      }
      return true, Some(ClientReply(cmdId, desc.dep, v));
    }
  }

  lemma NoKeys<H>(step: Hasher<H>, zero: H, index: Index, logs: Logs<H>, keys: seq<Key>, cmd: Command, cmdId: CommandId)
    ensures AddKeys(index, keys, 0, cmd, cmdId) == index && DepOf(index, keys, 0, cmd, cmdId) == []
    ensures AppendKeys(step, zero, logs, keys, 0, cmdId) == logs && HashesOf(step, zero, logs, keys, 0, cmdId) == []
  {
  }

  lemma OneKey<H>(step: Hasher<H>, zero: H, index: Index, logs: Logs<H>, keys: seq<Key>, n: nat, cmd: Command, cmdId: CommandId)
    requires n < |keys|
    ensures var before := AddKeys(index, keys, n, cmd, cmdId);
      && AddKeys(index, keys, n + 1, cmd, cmdId) == before[keys[n] := InfoOf(before, keys[n]).Add(cmd, cmdId)]
      && DepOf(index, keys, n + 1, cmd, cmdId)
         == DepOf(index, keys, n, cmd, cmdId) + InfoOf(before, keys[n]).GetConflictCmds(cmd)
    ensures var before := AppendKeys(step, zero, logs, keys, n, cmdId);
      && AppendKeys(step, zero, logs, keys, n + 1, cmdId)
         == before[keys[n] := Append(step, LogOf(zero, before, keys[n]), cmdId)]
      && HashesOf(step, zero, logs, keys, n + 1, cmdId)
         == HashesOf(step, zero, logs, keys, n, cmdId) + [AppendHash(step, LogOf(zero, before, keys[n]), cmdId)]
  {
  }

  // ---------------------------------------------------------------- a sequence of commands

  datatype Proposal = Proposal(id: CommandId, cmd: Command)

  ghost predicate Proposals(ps: seq<Proposal>) {
    && (forall i :: 0 <= i < |ps| ==> WellFormed(ps[i].cmd))
    && forall i, j :: 0 <= i < j < |ps| ==> ps[i].id != ps[j].id
  }

  /** The index after the first n proposals. */
  function IndexAfter(ps: seq<Proposal>, n: nat): Index
    requires n <= |ps| && Proposals(ps)
  {
    if n == 0 then map[]
    else
      var ks := KeysOf(ps[n - 1].cmd);
      AddKeys(IndexAfter(ps, n - 1), ks, |ks|, ps[n - 1].cmd, ps[n - 1].id)
  }

  /** What getDepAndHashes returns for proposal i. */
  function DepAt(ps: seq<Proposal>, i: nat): Dep
    requires i < |ps| && Proposals(ps)
  {
    var ks := KeysOf(ps[i].cmd);
    DepOf(IndexAfter(ps, i), ks, |ks|, ps[i].cmd, ps[i].id)
  }

  predicate Touches(p: Proposal, key: Key)
    requires WellFormed(p.cmd)
  {
    key in KeysOf(p.cmd)
  }

  predicate Writes(p: Proposal, key: Key) {
    p.cmd.op == PUT && p.cmd.k == key
  }

  // ---------------------------------------------------------------- what the index remembers

  lemma {:induction false} AddKeysInfo(index: Index, keys: seq<Key>, n: nat, cmd: Command, cmdId: CommandId, key: Key)
    requires n <= |keys|
    ensures InfoOf(AddKeys(index, keys, n, cmd, cmdId), key)
         == if key in keys[..n] then InfoOf(index, key).Add(cmd, cmdId) else InfoOf(index, key)
  {
    if n > 0 {
      AddKeysInfo(index, keys, n - 1, cmd, cmdId, key);
      assert keys[..n] == keys[..n - 1] + [keys[n - 1]];
    }
  }

  /** One more proposal: the keys it touches remember it. */
  lemma IndexStep(ps: seq<Proposal>, n: nat, key: Key)
    requires n < |ps| && Proposals(ps)
    ensures InfoOf(IndexAfter(ps, n + 1), key)
         == if Touches(ps[n], key) then InfoOf(IndexAfter(ps, n), key).Add(ps[n].cmd, ps[n].id) else InfoOf(IndexAfter(ps, n), key)
  {
    var ks := KeysOf(ps[n].cmd);
    AddKeysInfo(IndexAfter(ps, n), ks, |ks|, ps[n].cmd, ps[n].id, key);
    assert ks[..|ks|] == ks;
  }

  /** lastCmd names the last proposal that touches the key. */
  lemma {:induction false} RemembersCommand(ps: seq<Proposal>, n: nat, key: Key, i: nat) returns (j: nat)
    requires i < n <= |ps| && Proposals(ps) && Touches(ps[i], key)
    ensures i <= j < n && Touches(ps[j], key) && InfoOf(IndexAfter(ps, n), key).lastCmd == [ps[j].id]
    decreases n
  {
    hide IndexAfter, KeysOf, WellFormed, Touches;
    IndexStep(ps, n - 1, key);
    if Touches(ps[n - 1], key) {
      j := n - 1;
    } else {
      j := RemembersCommand(ps, n - 1, key, i);
    }
  }

  /** lastWrite names the last PUT on the key. */
  lemma {:induction false} RemembersWrite(ps: seq<Proposal>, n: nat, key: Key, i: nat) returns (j: nat)
    requires i < n <= |ps| && Proposals(ps) && Writes(ps[i], key)
    ensures i <= j < n && Writes(ps[j], key) && InfoOf(IndexAfter(ps, n), key).lastWrite == [ps[j].id]
    decreases n
  {
    hide IndexAfter, KeysOf, WellFormed, Touches;
    IndexStep(ps, n - 1, key);
    if Writes(ps[n - 1], key) {
      WritesTouches(ps[n - 1], key);
      j := n - 1;
    } else {
      if Touches(ps[n - 1], key) {
        OnlyPutWrites(ps[n - 1], key);
      }
      j := RemembersWrite(ps, n - 1, key, i);
    }
  }

  lemma OnlyPutWrites(p: Proposal, key: Key)
    requires WellFormed(p.cmd) && Touches(p, key) && !Writes(p, key)
    ensures p.cmd.op != PUT
  {
  }

  lemma WritesTouches(p: Proposal, key: Key)
    requires WellFormed(p.cmd) && Writes(p, key)
    ensures Touches(p, key)
  {
  }

  /** Every conflict the index names for a key of the command is a dependency. */
  lemma {:induction false} DepHas(index: Index, keys: seq<Key>, n: nat, cmd: Command, cmdId: CommandId, k: nat, c: CommandId)
    requires k < n <= |keys| && Distinct(keys) && c in InfoOf(index, keys[k]).GetConflictCmds(cmd)
    ensures c in DepOf(index, keys, n, cmd, cmdId)
  {
    AddKeysInfo(index, keys, n - 1, cmd, cmdId, keys[n - 1]);
    if k < n - 1 {
      DepHas(index, keys, n - 1, cmd, cmdId, k, c);
    }
  }

  /** The keys of a SCAN are distinct: it covers less than the whole key space. */
  lemma KeysDistinct(cmd: Command)
    requires WellFormed(cmd)
    ensures Distinct(KeysOf(cmd))
  {
    if cmd.op == SCAN {
      forall i, j | 0 <= i < j < |KeysOf(cmd)| ensures KeysOf(cmd)[i] != KeysOf(cmd)[j] {
        assert LittleEndian64(cmd.v) < 0x1_0000_0000_0000_0000;
        WrapInjective(cmd.k + i, cmd.k + j);
      }
    }
  }

  lemma WrapInjective(x: int, y: int)
    requires x < y < x + 0x1_0000_0000_0000_0000
    ensures Wrap64(x) != Wrap64(y)
  {
  }

  lemma DepNames(ps: seq<Proposal>, i: nat, key: Key, c: CommandId)
    requires i < |ps| && Proposals(ps) && Touches(ps[i], key)
    requires c in InfoOf(IndexAfter(ps, i), key).GetConflictCmds(ps[i].cmd)
    ensures c in DepAt(ps, i)
  {
    var ks := KeysOf(ps[i].cmd);
    KeysDistinct(ps[i].cmd);
    var k :| 0 <= k < |ks| && ks[k] == key;
    DepHas(IndexAfter(ps, i), ks, |ks|, ps[i].cmd, ps[i].id, k, c);
  }

  // ---------------------------------------------------------------- the closure orders writes

  /** Each proposal of the chain has the next one among its dependencies. */
  ghost predicate IsChain(ps: seq<Proposal>, chain: seq<nat>)
    requires Proposals(ps)
  {
    && chain != [] && (forall t :: 0 <= t < |chain| ==> chain[t] < |ps|)
    && forall t :: 0 <= t < |chain| - 1 ==> ps[chain[t + 1]].id in DepAt(ps, chain[t])
  }

  /** A command that touches a key depends, through a chain of dependencies, on every earlier PUT on it. */
  lemma {:induction false} WritesAreOrdered(ps: seq<Proposal>, i: nat, w: nat, key: Key) returns (chain: seq<nat>)
    requires Proposals(ps) && w < i < |ps| && Touches(ps[i], key) && Writes(ps[w], key)
    ensures IsChain(ps, chain) && chain[0] == i && chain[|chain| - 1] == w && |chain| >= 2
    decreases i
  {
    hide DepAt, IndexAfter, Touches;
    var j;
    WritesTouches(ps[w], key);
    if ps[i].cmd.op == GET {
      j := RemembersWrite(ps, i, key, w);
      WritesTouches(ps[j], key);
    } else {
      j := RemembersCommand(ps, i, key, w);
    }
    DepNames(ps, i, key, ps[j].id);
    if j == w {
      chain := [i, w];
    } else {
      var rest := WritesAreOrdered(ps, j, w, key);
      chain := [i] + rest;
    }
  }

  // ---------------------------------------------------------------- delivery

  ghost predicate Known(ps: seq<Proposal>, c: CommandId) {
    exists i :: 0 <= i < |ps| && ps[i].id == c
  }

  ghost function IndexOf(ps: seq<Proposal>, c: CommandId): (i: nat)
    requires Known(ps, c)
    ensures i < |ps| && ps[i].id == c
  {
    var i :| 0 <= i < |ps| && ps[i].id == c;
    i
  }

  /** An order in which deliver can have delivered proposals: each after all its dependencies. */
  ghost predicate Allowed(ps: seq<Proposal>, order: seq<CommandId>)
    requires Proposals(ps)
  {
    && Distinct(order)
    && forall a :: 0 <= a < |order| ==>
         Known(ps, order[a]) && forall c :: c in DepAt(ps, IndexOf(ps, order[a])) ==> c in order[..a]
  }

  lemma IndexOfId(ps: seq<Proposal>, i: nat)
    requires Proposals(ps) && i < |ps|
    ensures Known(ps, ps[i].id) && IndexOf(ps, ps[i].id) == i
  {
  }

  lemma {:induction false} ChainIsDelivered(ps: seq<Proposal>, order: seq<CommandId>, chain: seq<nat>, a: nat) returns (b: nat)
    requires Proposals(ps) && Allowed(ps, order) && IsChain(ps, chain) && a < |order| && order[a] == ps[chain[0]].id
    ensures b <= a && order[b] == ps[chain[|chain| - 1]].id && (|chain| >= 2 ==> b < a)
    decreases |chain|
  {
    hide DepAt;
    if |chain| == 1 {
      b := a;
    } else {
      IndexOfId(ps, chain[0]);
      assert ps[chain[0 + 1]].id in DepAt(ps, chain[0]);
      var m :| 0 <= m < a && order[m] == ps[chain[1]].id;
      assert forall t :: 0 <= t < |chain| - 1 ==> chain[1..][t] == chain[t + 1];
      b := ChainIsDelivered(ps, order, chain[1..], m);
    }
  }

  // ---------------------------------------------------------------- equal stores

  function CommandsOf(ps: seq<Proposal>): Batches<CommandId>
    requires Proposals(ps)
  {
    map i | 0 <= i < |ps| :: ps[i].id := [ps[i].cmd]
  }

  /** Only PUTs change the store. */
  function PutsOf(ps: seq<Proposal>): Batches<CommandId>
    requires Proposals(ps)
  {
    map i | 0 <= i < |ps| :: ps[i].id := if ps[i].cmd.op == PUT then [ps[i].cmd] else []
  }

  lemma PutOrNothing(ps: seq<Proposal>, s: Store, c: CommandId)
    requires Proposals(ps) && Known(ps, c)
    ensures c in CommandsOf(ps) && c in PutsOf(ps)
    ensures AllWellFormed(CommandsOf(ps)[c]) && AllWellFormed(PutsOf(ps)[c])
    ensures ApplyBatch(s, CommandsOf(ps)[c]) == ApplyBatch(s, PutsOf(ps)[c])
  {
    var i := IndexOf(ps, c);
    assert CommandsOf(ps)[ps[i].id] == [ps[i].cmd];
  }

  lemma {:induction false} OnlyPutsMatter(ps: seq<Proposal>, s: Store, order: seq<CommandId>)
    requires Proposals(ps) && forall c :: c in order ==> Known(ps, c)
    ensures Runnable(CommandsOf(ps), order) && Runnable(PutsOf(ps), order)
    ensures Final(s, CommandsOf(ps), order) == Final(s, PutsOf(ps), order)
    decreases |order|
  {
    hide CommandsOf, PutsOf, Known, ApplyBatch;
    forall c | c in order
      ensures c in CommandsOf(ps) && c in PutsOf(ps)
      ensures AllWellFormed(CommandsOf(ps)[c]) && AllWellFormed(PutsOf(ps)[c])
    {
      PutOrNothing(ps, s, c);
    }
    if order != [] {
      PutOrNothing(ps, s, order[0]);
      OnlyPutsMatter(ps, ApplyBatch(s, CommandsOf(ps)[order[0]]), order[1..]);
    }
  }

  /** The proposals of the set, in the order in which they were proposed. */
  ghost function Sequential(ps: seq<Proposal>, delivered: set<CommandId>): (order: seq<CommandId>)
    ensures forall c :: c in order <==> c in delivered && Known(ps, c)
  {
    if ps == [] then []
    else
      var init, last := ps[..|ps| - 1], ps[|ps| - 1].id;
      assert ps == init + [ps[|ps| - 1]];
      assert forall c :: Known(ps, c) <==> Known(init, c) || c == last;
      if last in delivered then Sequential(init, delivered) + [last] else Sequential(init, delivered)
  }

  ghost predicate Earlier(ps: seq<Proposal>, x: CommandId, y: CommandId) {
    exists i, j :: 0 <= i < j < |ps| && ps[i].id == x && ps[j].id == y
  }

  ghost predicate InProposalOrder(ps: seq<Proposal>, order: seq<CommandId>) {
    forall a, b :: 0 <= a < b < |order| ==> Earlier(ps, order[a], order[b])
  }

  lemma {:induction false} SequentialIsSorted(ps: seq<Proposal>, delivered: set<CommandId>)
    ensures InProposalOrder(ps, Sequential(ps, delivered))
    decreases |ps|
  {
    if ps != [] {
      var init, last := ps[..|ps| - 1], ps[|ps| - 1].id;
      SequentialIsSorted(init, delivered);
      var before, order := Sequential(init, delivered), Sequential(ps, delivered);
      forall a, b | 0 <= a < b < |order| ensures Earlier(ps, order[a], order[b]) {
        if b < |before| {
          assert Earlier(init, before[a], before[b]);
          var i, j :| 0 <= i < j < |init| && init[i].id == before[a] && init[j].id == before[b];
          assert ps[i] == init[i] && ps[j] == init[j];
        } else {
          assert before[a] in before;
          var i := IndexOf(init, before[a]);
          assert ps[i] == init[i];
        }
      }
    }
  }

  lemma EarlierMeans(ps: seq<Proposal>, order: seq<CommandId>, a: nat, b: nat)
    requires Proposals(ps) && InProposalOrder(ps, order) && a < b < |order| && Known(ps, order[a]) && Known(ps, order[b])
    ensures IndexOf(ps, order[a]) < IndexOf(ps, order[b]) && order[a] != order[b]
  {
    assert Earlier(ps, order[a], order[b]);
  }

  /** Two orders of the same commands, allowed by deliver, put every two PUTs on one key in the order in
      which they were proposed. */
  lemma AllowedKeepsWrites(ps: seq<Proposal>, order: seq<CommandId>, i: nat, w: nat, a: nat, b: nat)
    requires Proposals(ps) && Allowed(ps, order) && w < i < |ps| && a < |order| && b < |order|
    requires order[a] == ps[i].id && order[b] == ps[w].id
    requires ps[i].cmd.op == PUT && ps[w].cmd.op == PUT && ps[i].cmd.k == ps[w].cmd.k
    ensures b < a
  {
    hide IndexAfter, DepOf;
    WritesTouches(ps[i], ps[i].cmd.k);
    var chain := WritesAreOrdered(ps, i, w, ps[i].cmd.k);
    var m := ChainIsDelivered(ps, order, chain, a);
    assert m == b;
  }

  /** Whatever order deliver chose, the store is that of the sequential order. */
  lemma AnyAllowedOrderIsSequential(ps: seq<Proposal>, order: seq<CommandId>, init: Store)
    requires Proposals(ps) && Allowed(ps, order)
    ensures forall c :: c in order ==> Known(ps, c)
    ensures Runnable(CommandsOf(ps), order) && Runnable(CommandsOf(ps), Sequential(ps, set c | c in order))
    ensures Final(init, CommandsOf(ps), order) == Final(init, CommandsOf(ps), Sequential(ps, set c | c in order))
  {
    hide DepAt, Final, PutsOf, CommandsOf, Known, Conflict, InProposalOrder, Runnable, Allowed;
    AllKnown(ps, order);
    var delivered := set c | c in order;
    var seqOrder := Sequential(ps, delivered);
    SequentialIsSorted(ps, delivered);
    OnlyPutsMatter(ps, init, order);
    OnlyPutsMatter(ps, init, seqOrder);
    forall i, j | 0 <= i < j < |seqOrder| ensures seqOrder[i] != seqOrder[j] {
      EarlierMeans(ps, seqOrder, i, j);
    }
    SameWriteOrder(ps, seqOrder, order);
    OrdersAgree(init, PutsOf(ps), seqOrder, order);
  }

  lemma SameWriteOrder(ps: seq<Proposal>, seqOrder: seq<CommandId>, order: seq<CommandId>)
    requires Proposals(ps) && Allowed(ps, order) && InProposalOrder(ps, seqOrder) && Runnable(PutsOf(ps), seqOrder)
    requires forall c :: c in seqOrder ==> Known(ps, c)
    ensures SameConflictOrder(PutsOf(ps), seqOrder, order)
  {
    hide DepAt, PutsOf, Known, ConflictBatch, InProposalOrder, Allowed;
    var c := PutsOf(ps);
    forall i, j, k, l | 0 <= i < j < |seqOrder| && 0 <= k < |order| && 0 <= l < |order|
      && seqOrder[i] == order[l] && seqOrder[j] == order[k] && ConflictBatch(c[seqOrder[i]], c[seqOrder[j]])
      ensures l < k
    {
      EarlierMeans(ps, seqOrder, i, j);
      var w, x := IndexOf(ps, seqOrder[i]), IndexOf(ps, seqOrder[j]);
      ConflictingPuts(ps, w, x);
      AllowedKeepsWrites(ps, order, x, w, k, l);
    }
  }

  lemma AllKnown(ps: seq<Proposal>, order: seq<CommandId>)
    requires Proposals(ps) && Allowed(ps, order)
    ensures Distinct(order) && forall c :: c in order ==> Known(ps, c)
  {
    hide DepAt, Known;
  }

  lemma ConflictingPuts(ps: seq<Proposal>, w: nat, x: nat)
    requires Proposals(ps) && w < |ps| && x < |ps|
    requires ps[w].id in PutsOf(ps) && ps[x].id in PutsOf(ps)
    requires AllWellFormed(PutsOf(ps)[ps[w].id]) && AllWellFormed(PutsOf(ps)[ps[x].id])
    requires ConflictBatch(PutsOf(ps)[ps[w].id], PutsOf(ps)[ps[x].id])
    ensures ps[w].cmd.op == PUT && ps[x].cmd.op == PUT && ps[w].cmd.k == ps[x].cmd.k
  {
  }

  /** Replicas that delivered the same commands, in any allowed orders, hold the same store. */
  lemma DeliveredSetsFixTheStore(ps: seq<Proposal>, order1: seq<CommandId>, order2: seq<CommandId>, init: Store)
    requires Proposals(ps) && Allowed(ps, order1) && Allowed(ps, order2)
    requires (set c | c in order1) == (set c | c in order2)
    ensures Runnable(CommandsOf(ps), order1) && Runnable(CommandsOf(ps), order2)
    ensures Final(init, CommandsOf(ps), order1) == Final(init, CommandsOf(ps), order2)
  {
    hide Allowed, Final, Runnable;
    AnyAllowedOrderIsSequential(ps, order1, init);
    AnyAllowedOrderIsSequential(ps, order2, init);
  }

  /** What Deliver does keeps the order allowed, and the store is the order's. */
  lemma DeliveryExtends(ps: seq<Proposal>, order: seq<CommandId>, i: nat, init: Store)
    requires Proposals(ps) && Allowed(ps, order) && i < |ps| && ps[i].id !in order
    requires forall c :: c in DepAt(ps, i) ==> c in order
    ensures Allowed(ps, order + [ps[i].id])
    ensures Runnable(CommandsOf(ps), order) && Runnable(CommandsOf(ps), order + [ps[i].id])
    ensures Final(init, CommandsOf(ps), order + [ps[i].id]) == Apply(Final(init, CommandsOf(ps), order), ps[i].cmd)
  {
    hide DepAt, PutsOf;
    var longer := order + [ps[i].id];
    IndexOfId(ps, i);
    AllKnown(ps, order);
    assert longer[..|order|] == order;
    forall a | 0 <= a < |longer|
      ensures Known(ps, longer[a]) && forall c :: c in DepAt(ps, IndexOf(ps, longer[a])) ==> c in longer[..a]
    {
      if a < |order| {
        assert longer[a] == order[a] && longer[..a] == order[..a];
      }
    }
    OnlyPutsMatter(ps, init, order);
    OneMore(ps, order, i, init);
  }

  lemma OneMore(ps: seq<Proposal>, order: seq<CommandId>, i: nat, init: Store)
    requires Proposals(ps) && i < |ps| && Runnable(CommandsOf(ps), order) && ps[i].id !in order
    ensures Runnable(CommandsOf(ps), order + [ps[i].id])
    ensures Final(init, CommandsOf(ps), order + [ps[i].id]) == Apply(Final(init, CommandsOf(ps), order), ps[i].cmd)
  {
    assert CommandsOf(ps)[ps[i].id] == [ps[i].cmd];
    FinalAppend(init, CommandsOf(ps), order, ps[i].id);
    var s := Final(init, CommandsOf(ps), order);
    assert ApplyBatch(s, [ps[i].cmd]) == ApplyBatch(Apply(s, ps[i].cmd), [ps[i].cmd][1..]);
  }

  // ---------------------------------------------------------------- dependencies never block

  ghost predicate Before(ps: seq<Proposal>, n: nat, c: CommandId)
    requires n <= |ps|
  {
    exists j :: 0 <= j < n && ps[j].id == c
  }

  lemma EmptyIndex(ps: seq<Proposal>, key: Key)
    requires Proposals(ps)
    ensures InfoOf(IndexAfter(ps, 0), key) == LightKeyInfo([], [])
  {
  }

  lemma {:induction false} IndexNamesEarlier(ps: seq<Proposal>, n: nat, key: Key, c: CommandId)
    requires n <= |ps| && Proposals(ps)
    requires c in InfoOf(IndexAfter(ps, n), key).lastCmd || c in InfoOf(IndexAfter(ps, n), key).lastWrite
    ensures Before(ps, n, c)
    decreases n
  {
    hide IndexAfter, KeysOf, Touches, WellFormed;
    if n == 0 {
      EmptyIndex(ps, key);
    } else {
      IndexStep(ps, n - 1, key);
      assert ps[n - 1].id == c ==> Before(ps, n, c);
      if ps[n - 1].id != c {
        IndexNamesEarlier(ps, n - 1, key, c);
        var j :| 0 <= j < n - 1 && ps[j].id == c;
      }
    }
  }

  lemma {:induction false} DepComesFrom(index: Index, keys: seq<Key>, n: nat, cmd: Command, cmdId: CommandId, c: CommandId)
    returns (k: nat)
    requires n <= |keys| && Distinct(keys) && c in DepOf(index, keys, n, cmd, cmdId)
    ensures k < n && c in InfoOf(index, keys[k]).GetConflictCmds(cmd)
    decreases n
  {
    AddKeysInfo(index, keys, n - 1, cmd, cmdId, keys[n - 1]);
    if c in DepOf(index, keys, n - 1, cmd, cmdId) {
      k := DepComesFrom(index, keys, n - 1, cmd, cmdId, c);
    } else {
      k := n - 1;
    }
  }

  lemma DepsAreEarlier(ps: seq<Proposal>, i: nat, c: CommandId)
    requires Proposals(ps) && i < |ps| && c in DepAt(ps, i)
    ensures Before(ps, i, c)
  {
    var ks := KeysOf(ps[i].cmd);
    KeysDistinct(ps[i].cmd);
    var k := DepComesFrom(IndexAfter(ps, i), ks, |ks|, ps[i].cmd, ps[i].id, c);
    IndexNamesEarlier(ps, i, ks[k], c);
  }

  /** A command only waits for earlier ones: among undelivered proposals one can always be delivered. */
  lemma {:induction false} SomethingCanBeDelivered(ps: seq<Proposal>, order: seq<CommandId>, i: nat) returns (j: nat)
    requires Proposals(ps) && i < |ps| && ps[i].id !in order
    ensures j <= i && ps[j].id !in order && forall c :: c in DepAt(ps, j) ==> c in order
    decreases i
  {
    if c :| c in DepAt(ps, i) && c !in order {
      DepsAreEarlier(ps, i, c);
      var m: nat :| m < i && ps[m].id == c;
      j := SomethingCanBeDelivered(ps, order, m);
    } else {
      j := i;
    }
  }

  // ---------------------------------------------------------------- dependencies without duplicates

  /** What one key contributes to a dependency. */
  function Conflicts(index: Index, key: Key, cmd: Command): Dep {
    InfoOf(index, key).GetConflictCmds(cmd)
  }

  lemma {:induction false} OneEach(ps: seq<Proposal>, n: nat, key: Key, cmd: Command)
    requires n <= |ps| && Proposals(ps)
    ensures |Conflicts(IndexAfter(ps, n), key, cmd)| <= 1
    ensures |InfoOf(IndexAfter(ps, n), key).lastCmd| <= 1 && |InfoOf(IndexAfter(ps, n), key).lastWrite| <= 1
    decreases n
  {
    hide IndexAfter, KeysOf, Touches, WellFormed;
    if n == 0 {
      EmptyIndex(ps, key);
    } else {
      OneEach(ps, n - 1, key, cmd);
      IndexStep(ps, n - 1, key);
    }
  }

  ghost predicate NoneIn(xs: Dep, ys: Dep) {
    forall c :: c in xs ==> c !in ys
  }

  /** No two of the first n keys name the same command. */
  ghost predicate NoneRepeated(index: Index, keys: seq<Key>, n: nat, cmd: Command)
    requires n <= |keys|
  {
    forall a, b, c | 0 <= a < b < n && c in Conflicts(index, keys[a], cmd) :: c !in Conflicts(index, keys[b], cmd)
  }

  lemma {:induction false} DistinctUpTo(index: Index, keys: seq<Key>, n: nat, cmd: Command, cmdId: CommandId)
    requires n <= |keys| && Distinct(keys) && forall key :: |Conflicts(index, key, cmd)| <= 1
    ensures Distinct(DepOf(index, keys, n, cmd, cmdId)) <==> NoneRepeated(index, keys, n, cmd)
    decreases n
  {
    hide *;
    if n == 0 {
      NothingRepeated(index, keys, cmd, cmdId);
    } else {
      DistinctUpTo(index, keys, n - 1, cmd, cmdId);
      DepSplit(index, keys, n, cmd, cmdId);
      DistinctAppend(DepOf(index, keys, n - 1, cmd, cmdId), Conflicts(index, keys[n - 1], cmd));
      RepeatedMore(index, keys, n, cmd, cmdId);
    }
  }

  lemma NothingRepeated(index: Index, keys: seq<Key>, cmd: Command, cmdId: CommandId)
    ensures Distinct(DepOf(index, keys, 0, cmd, cmdId)) && NoneRepeated(index, keys, 0, cmd)
  {
  }

  lemma DepSplit(index: Index, keys: seq<Key>, n: nat, cmd: Command, cmdId: CommandId)
    requires 0 < n <= |keys| && Distinct(keys)
    ensures DepOf(index, keys, n, cmd, cmdId) == DepOf(index, keys, n - 1, cmd, cmdId) + Conflicts(index, keys[n - 1], cmd)
  {
    AddKeysInfo(index, keys, n - 1, cmd, cmdId, keys[n - 1]);
  }

  lemma RepeatedMore(index: Index, keys: seq<Key>, n: nat, cmd: Command, cmdId: CommandId)
    requires 0 < n <= |keys| && Distinct(keys)
    ensures NoneRepeated(index, keys, n, cmd) <==>
              NoneRepeated(index, keys, n - 1, cmd)
              && NoneIn(Conflicts(index, keys[n - 1], cmd), DepOf(index, keys, n - 1, cmd, cmdId))
  {
    hide AddKeys, DepOf;
    var dep := DepOf(index, keys, n - 1, cmd, cmdId);
    forall c | c in dep ensures exists a :: 0 <= a < n - 1 && c in Conflicts(index, keys[a], cmd) {
      var a := DepComesFrom(index, keys, n - 1, cmd, cmdId, c);
      assert c in Conflicts(index, keys[a], cmd);
    }
    forall a, c | 0 <= a < n - 1 && c in Conflicts(index, keys[a], cmd) ensures c in dep {
      DepHas(index, keys, n - 1, cmd, cmdId, a, c);
    }
    hide Conflicts;
  }

  lemma DistinctAppend(dep: Dep, last: Dep)
    requires |last| <= 1
    ensures Distinct(dep + last) <==> Distinct(dep) && NoneIn(last, dep)
  {
    var all := dep + last;
    assert forall i :: 0 <= i < |dep| ==> all[i] == dep[i];
    if last != [] {
      assert all[|dep|] == last[0];
      assert last[0] in last && forall c :: c in last ==> c == last[0];
    }
  }

  /** A dependency that getDepAndHashes returns has no duplicates exactly when no two keys of the command
      were last touched, or last written for a GET, by the same command. A command on one key has none. */
  lemma DepDistinctIff(ps: seq<Proposal>, i: nat)
    requires Proposals(ps) && i < |ps|
    ensures Distinct(DepAt(ps, i)) <==> NoneRepeated(IndexAfter(ps, i), KeysOf(ps[i].cmd), |KeysOf(ps[i].cmd)|, ps[i].cmd)
    ensures ps[i].cmd.op != SCAN ==> Distinct(DepAt(ps, i)) && |DepAt(ps, i)| <= 1
  {
    hide IndexAfter, KeysOf, DepOf, Conflicts, WellFormed, NoneRepeated;
    var ks, cmd := KeysOf(ps[i].cmd), ps[i].cmd;
    KeysDistinct(cmd);
    forall key ensures |Conflicts(IndexAfter(ps, i), key, cmd)| <= 1 {
      OneEach(ps, i, key, cmd);
    }
    DistinctUpTo(IndexAfter(ps, i), ks, |ks|, cmd, ps[i].id);
    if cmd.op != SCAN {
      OneKeyOnly(ps, i);
    }
  }

  lemma OneKeyOnly(ps: seq<Proposal>, i: nat)
    requires Proposals(ps) && i < |ps| && ps[i].cmd.op != SCAN
    ensures |DepAt(ps, i)| <= 1 && Distinct(DepAt(ps, i))
  {
    hide IndexAfter, WellFormed, AddKeys;
    var index, cmd, id := IndexAfter(ps, i), ps[i].cmd, ps[i].id;
    assert KeysOf(cmd) == [cmd.k];
    assert DepOf(index, [cmd.k], 0, cmd, id) == [];
    assert AddKeys(index, [cmd.k], 0, cmd, id) == index by {
      AddNothing(index, [cmd.k], cmd, id);
    }
    OneEach(ps, i, cmd.k, cmd);
  }

  lemma AddNothing(index: Index, keys: seq<Key>, cmd: Command, cmdId: CommandId)
    ensures AddKeys(index, keys, 0, cmd, cmdId) == index
  {
  }

  // ---------------------------------------------------------------- the exact dependency

  /** Proposal j is the last of the first n that touches the key. */
  ghost predicate LastToucher(ps: seq<Proposal>, n: nat, key: Key, j: nat)
    requires n <= |ps| && Proposals(ps)
  {
    j < n && Touches(ps[j], key) && forall m :: j < m < n ==> !Touches(ps[m], key)
  }

  /** Proposal j is the last PUT on the key among the first n. */
  ghost predicate LastWriter(ps: seq<Proposal>, n: nat, key: Key, j: nat)
    requires n <= |ps|
  {
    j < n && Writes(ps[j], key) && forall m :: j < m < n ==> !Writes(ps[m], key)
  }

  /** Command c, proposal j, is the last to touch a key of proposal i before it. */
  ghost predicate NamedBy(ps: seq<Proposal>, i: nat, key: Key, j: nat, c: CommandId)
    requires Proposals(ps) && i < |ps|
  {
    Touches(ps[i], key) && LastToucher(ps, i, key, j) && c == ps[j].id
  }

  lemma {:induction false} LastCmdIs(ps: seq<Proposal>, n: nat, key: Key, j: nat)
    requires n <= |ps| && Proposals(ps)
    ensures LastToucher(ps, n, key, j) ==> InfoOf(IndexAfter(ps, n), key).lastCmd == [ps[j].id]
    ensures (forall m :: 0 <= m < n ==> !Touches(ps[m], key)) ==> InfoOf(IndexAfter(ps, n), key).lastCmd == []
    decreases n
  {
    hide IndexAfter, KeysOf, Touches, WellFormed;
    if n == 0 {
      EmptyIndex(ps, key);
    } else {
      LastCmdIs(ps, n - 1, key, j);
      IndexStep(ps, n - 1, key);
    }
  }

  lemma {:induction false} LastWriteIs(ps: seq<Proposal>, n: nat, key: Key, j: nat)
    requires n <= |ps| && Proposals(ps)
    ensures LastWriter(ps, n, key, j) ==> InfoOf(IndexAfter(ps, n), key).lastWrite == [ps[j].id]
    ensures (forall m :: 0 <= m < n ==> !Writes(ps[m], key)) ==> InfoOf(IndexAfter(ps, n), key).lastWrite == []
    decreases n
  {
    hide IndexAfter, KeysOf, Touches, WellFormed;
    if n == 0 {
      EmptyIndex(ps, key);
    } else {
      LastWriteIs(ps, n - 1, key, j);
      IndexStep(ps, n - 1, key);
      if Writes(ps[n - 1], key) {
        WritesTouches(ps[n - 1], key);
      } else if Touches(ps[n - 1], key) {
        OnlyPutWrites(ps[n - 1], key);
      }
    }
  }

  /** What the index holds of a key, read off the sequence of proposals. */
  lemma IndexExact(ps: seq<Proposal>, n: nat, key: Key)
    requires n <= |ps| && Proposals(ps)
    ensures forall j: nat :: LastToucher(ps, n, key, j) ==> InfoOf(IndexAfter(ps, n), key).lastCmd == [ps[j].id]
    ensures (forall j :: 0 <= j < n ==> !Touches(ps[j], key)) ==> InfoOf(IndexAfter(ps, n), key).lastCmd == []
    ensures forall j: nat :: LastWriter(ps, n, key, j) ==> InfoOf(IndexAfter(ps, n), key).lastWrite == [ps[j].id]
    ensures (forall j :: 0 <= j < n ==> !Writes(ps[j], key)) ==> InfoOf(IndexAfter(ps, n), key).lastWrite == []
  {
    hide IndexAfter, Touches, WellFormed;
    LastCmdIs(ps, n, key, 0);
    LastWriteIs(ps, n, key, 0);
    forall j: nat ensures LastToucher(ps, n, key, j) ==> InfoOf(IndexAfter(ps, n), key).lastCmd == [ps[j].id] {
      LastCmdIs(ps, n, key, j);
    }
    forall j: nat ensures LastWriter(ps, n, key, j) ==> InfoOf(IndexAfter(ps, n), key).lastWrite == [ps[j].id] {
      LastWriteIs(ps, n, key, j);
    }
  }

  /** What getDepAndHashes returns, read off the sequence of proposals. A GET depends on the last earlier PUT on
      its key, any other command on one key on the last earlier command that touches it, and a SCAN on the
      last earlier commands that touch its keys. */
  lemma DepIsExact(ps: seq<Proposal>, i: nat)
    requires Proposals(ps) && i < |ps|
    ensures var k := ps[i].cmd.k;
      ps[i].cmd.op == GET ==>
        && (forall j: nat :: LastWriter(ps, i, k, j) ==> DepAt(ps, i) == [ps[j].id])
        && ((forall j :: 0 <= j < i ==> !Writes(ps[j], k)) ==> DepAt(ps, i) == [])
    ensures var k := ps[i].cmd.k;
      ps[i].cmd.op != GET && ps[i].cmd.op != SCAN ==>
        && (forall j: nat :: LastToucher(ps, i, k, j) ==> DepAt(ps, i) == [ps[j].id])
        && ((forall j :: 0 <= j < i ==> !Touches(ps[j], k)) ==> DepAt(ps, i) == [])
    ensures ps[i].cmd.op == SCAN ==>
      forall c :: c in DepAt(ps, i) <==> exists key, j: nat :: NamedBy(ps, i, key, j, c)
  {
    hide IndexAfter, WellFormed, DepAt, LastToucher, LastWriter;
    if ps[i].cmd.op == SCAN {
      forall c ensures c in DepAt(ps, i) <==> exists key, j: nat :: NamedBy(ps, i, key, j, c) {
        ScanDepExact(ps, i, c);
      }
    } else {
      IndexExact(ps, i, ps[i].cmd.k);
      OneKeyDep(ps, i);
    }
  }

  lemma OneKeyDep(ps: seq<Proposal>, i: nat)
    requires Proposals(ps) && i < |ps| && ps[i].cmd.op != SCAN
    ensures DepAt(ps, i) == Conflicts(IndexAfter(ps, i), ps[i].cmd.k, ps[i].cmd)
    ensures KeysOf(ps[i].cmd) == [ps[i].cmd.k]
  {
    hide IndexAfter, WellFormed, AddKeys;
    var index, cmd, id := IndexAfter(ps, i), ps[i].cmd, ps[i].id;
    assert DepOf(index, [cmd.k], 0, cmd, id) == [];
    AddNothing(index, [cmd.k], cmd, id);
  }

  lemma ScanDepExact(ps: seq<Proposal>, i: nat, c: CommandId)
    requires Proposals(ps) && i < |ps| && ps[i].cmd.op == SCAN
    ensures c in DepAt(ps, i) <==> exists key, j: nat :: NamedBy(ps, i, key, j, c)
  {
    hide IndexAfter, WellFormed, KeysOf, DepOf, LastToucher;
    var ks, index := KeysOf(ps[i].cmd), IndexAfter(ps, i);
    KeysDistinct(ps[i].cmd);
    if c in DepAt(ps, i) {
      var a := DepComesFrom(index, ks, |ks|, ps[i].cmd, ps[i].id, c);
      var j := LastOfKey(ps, i, ks[a], c);
      assert NamedBy(ps, i, ks[a], j, c);
    }
    forall key, j: nat | NamedBy(ps, i, key, j, c) ensures c in DepAt(ps, i) {
      IndexExact(ps, i, key);
      DepNames(ps, i, key, c);
    }
  }

  /** Whoever the index names as the last command of a key is the last toucher. */
  lemma {:induction false} LastOfKey(ps: seq<Proposal>, n: nat, key: Key, c: CommandId) returns (j: nat)
    requires n <= |ps| && Proposals(ps) && c in InfoOf(IndexAfter(ps, n), key).lastCmd
    ensures LastToucher(ps, n, key, j) && c == ps[j].id
    decreases n
  {
    hide IndexAfter, KeysOf, Touches, WellFormed;
    if n == 0 {
      EmptyIndex(ps, key);
    } else {
      IndexStep(ps, n - 1, key);
      if Touches(ps[n - 1], key) {
        j := n - 1;
      } else {
        j := LastOfKey(ps, n - 1, key, c);
      }
    }
  }

  /** So Equals decides on the dependencies that two replicas compute for PUTs and GETs, whatever orders of
      proposals they saw. */
  lemma SingleKeyDepsCompare(ps1: seq<Proposal>, i: nat, ps2: seq<Proposal>, j: nat)
    requires Proposals(ps1) && i < |ps1| && Proposals(ps2) && j < |ps2|
    requires ps1[i].cmd.op != SCAN && ps2[j].cmd.op != SCAN
    ensures SameDep(DepAt(ps1, i), DepAt(ps2, j)) <==> SetOf(DepAt(ps1, i)) == SetOf(DepAt(ps2, j))
  {
    hide DepAt, SameDep;
    DepDistinctIff(ps1, i);
    DepDistinctIff(ps2, j);
    EqualsDecides(DepAt(ps1, i), DepAt(ps2, j));
  }

  /** The stand-in for a nil dependency is never mistaken for a computed one. */
  lemma NilDepIsNotComputed(ps: seq<Proposal>, i: nat)
    requires Proposals(ps) && i < |ps|
    ensures ps[i].id !in DepAt(ps, i) && !IsNilDepOfCmdId(ps[i].id, DepAt(ps, i))
    ensures IsNilDepOfCmdId(ps[i].id, NilDepOfCmdId(ps[i].id))
  {
    hide DepAt;
    if ps[i].id in DepAt(ps, i) {
      DepsAreEarlier(ps, i, ps[i].id);
    }
  }
}
