/** What executing a log from an initial store means, one instance at a time. */
module Replay {
  import opened State
  import opened Sequences
  import opened Traces
  import opened DepGraph
  import opened Options
  import opened EpaxosTypes
  import opened SccSearch

  lemma OnlyPutWrites(s: Store, c: Command)
    ensures c.op != PUT ==> Apply(s, c) == s
  {
  }

  /** The replies of the first k commands of an instance whose client waits: none for a no-op. */
  function ClientReplies(id: Id, cmds: seq<Command>, vals: seq<Value>, k: nat): (replies: seq<ClientReply>)
    requires k <= |cmds| == |vals|
    ensures forall j :: 0 <= j < |replies| ==>
              replies[j].id == id && replies[j].idx < k && replies[j].value == vals[replies[j].idx]
  {
    if k == 0 then []
    else ClientReplies(id, cmds, vals, k - 1)
         + (if cmds[k - 1].op == NONE then [] else [ClientReply(id, k - 1, vals[k - 1])])
  }

  /** The store is the result of executing log from init, and every reply sent to a client is the
      one this execution gives. */
  ghost predicate ReplayOk(init: Store, g: Graph, store: Store, replies: seq<ClientReply>, log: seq<Id>) {
    && Runnable(BatchesOf(g), log)
    && store == Final(init, BatchesOf(g), log)
    && forall k :: 0 <= k < |replies| ==> ReplyOk(init, g, replies[k], log)
  }

  ghost predicate ReplyOk(init: Store, g: Graph, reply: ClientReply, log: seq<Id>)
    requires Runnable(BatchesOf(g), log)
  {
    && reply.id in log
    && reply.idx < |Replies(init, BatchesOf(g), log)[reply.id]|
    && reply.value == Replies(init, BatchesOf(g), log)[reply.id][reply.idx]
  }

  /** Executing one more instance, with or without answering its client. */
  lemma ReplayStep(init: Store, g: Graph, store: Store, replies: seq<ClientReply>, log: seq<Id>,
                   x: Id, more: seq<ClientReply>)
    requires ReplayOk(init, g, store, replies, log)
    requires x in g && AllWellFormed(g[x].cmds) && x !in log
    requires forall k :: 0 <= k < |more| ==>
               more[k].id == x && more[k].idx < |g[x].cmds|
               && more[k].value == ReplyBatch(store, g[x].cmds)[more[k].idx]
    ensures ReplayOk(init, g, ApplyBatch(store, g[x].cmds), replies + more, log + [x])
  {
    var c := BatchesOf(g);
    FinalAppend(init, c, log, x);
    assert Replies(init, c, log + [x]) == Replies(init, c, log)[x := ReplyBatch(store, c[x])];
    forall k | 0 <= k < |replies + more| ensures ReplyOk(init, g, (replies + more)[k], log + [x]) {
      if k < |replies| {
        assert ReplyOk(init, g, replies[k], log);
      }
    }
  }

  // ---------------------------------------------------------------- every client is answered, once

  /** A client of this replica waits for the instance. */
  predicate Waits(inst: Instance) {
    inst.lb.Some? && inst.lb.value.clientProposals
  }

  /** The client of command idx of instance id is to be answered. */
  predicate Asks(space: Space, dreply: bool, id: Id, idx: nat) {
    && dreply && id in space && Waits(space[id]) && space[id].cmds.Some?
    && idx < |space[id].cmds.value| && space[id].cmds.value[idx].op != NONE
  }

  ghost predicate Answered(replies: seq<ClientReply>, id: Id, idx: nat) {
    exists k :: 0 <= k < |replies| && replies[k].id == id && replies[k].idx == idx
  }

  ghost predicate NoneTwice(replies: seq<ClientReply>) {
    forall j, k :: 0 <= j < k < |replies| ==> replies[j].id != replies[k].id || replies[j].idx != replies[k].idx
  }

  /** Exactly the commands of log that ask for an answer have one, and no command has two. */
  ghost predicate RepliesComplete(space: Space, dreply: bool, replies: seq<ClientReply>, log: seq<Id>) {
    && (forall id, idx: nat :: Answered(replies, id, idx) <==> id in log && Asks(space, dreply, id, idx))
    && NoneTwice(replies)
  }

  predicate IsAnswer(reply: ClientReply, id: Id, cmds: seq<Command>, vals: seq<Value>)
    requires |vals| == |cmds|
  {
    reply.id == id && reply.idx < |cmds| && cmds[reply.idx].op != NONE && reply.value == vals[reply.idx]
  }

  /** The replies to one instance with the results vals: one for every command that is not a no-op. */
  ghost predicate AnswersAll(more: seq<ClientReply>, id: Id, cmds: seq<Command>, vals: seq<Value>, asked: bool)
    requires |vals| == |cmds|
  {
    && (forall k :: 0 <= k < |more| ==> asked && IsAnswer(more[k], id, cmds, vals))
    && (forall idx: nat :: asked && idx < |cmds| && cmds[idx].op != NONE ==> Answered(more, id, idx))
    && NoneTwice(more)
  }

  lemma {:induction false} ClientRepliesAnswerAll(id: Id, cmds: seq<Command>, vals: seq<Value>, k: nat)
    requires k <= |cmds| == |vals|
    ensures AnswersAll(ClientReplies(id, cmds, vals, k), id, cmds[..k], vals[..k], true)
    decreases k
  {
    if k > 0 {
      ClientRepliesAnswerAll(id, cmds, vals, k - 1);
      var before, all := ClientReplies(id, cmds, vals, k - 1), ClientReplies(id, cmds, vals, k);
      assert forall j :: 0 <= j < |before| ==> all[j] == before[j];
      forall idx: nat | idx < k && cmds[idx].op != NONE ensures Answered(all, id, idx) {
        if idx < k - 1 {
          assert cmds[..k - 1][idx] == cmds[idx];
          assert Answered(before, id, idx);
        } else {
          assert all[|before|] == ClientReply(id, idx, vals[idx]);
        }
      }
    }
  }

  /** One more executed instance, with the replies that it asks for. */
  lemma CompleteStep(space: Space, dreply: bool, replies: seq<ClientReply>, log: seq<Id>, x: Id, more: seq<ClientReply>,
                     vals: seq<Value>)
    requires RepliesComplete(space, dreply, replies, log) && x !in log
    requires x in space && space[x].cmds.Some? && |vals| == |space[x].cmds.value|
    requires AnswersAll(more, x, space[x].cmds.value, vals, dreply && Waits(space[x]))
    ensures RepliesComplete(space, dreply, replies + more, log + [x])
  {
    var all := replies + more;
    assert forall k :: 0 <= k < |replies| ==> Answered(replies, replies[k].id, replies[k].idx);
    forall id, idx: nat
      ensures Answered(all, id, idx) <==> Answered(replies, id, idx) || Answered(more, id, idx)
    {
      AnsweredConcat(replies, more, id, idx);
    }
  }

  lemma AnsweredConcat(a: seq<ClientReply>, b: seq<ClientReply>, id: Id, idx: nat)
    ensures Answered(a + b, id, idx) <==> Answered(a, id, idx) || Answered(b, id, idx)
  {
    if k :| 0 <= k < |a| && a[k].id == id && a[k].idx == idx {
      assert (a + b)[k] == a[k];
    }
    if k :| 0 <= k < |b| && b[k].id == id && b[k].idx == idx {
      assert (a + b)[|a| + k] == b[k];
    }
  }

  lemma FrameComplete(a: Space, b: Space, dreply: bool, replies: seq<ClientReply>, log: seq<Id>)
    requires RepliesComplete(a, dreply, replies, log) && SearchFrame(a, b)
    ensures RepliesComplete(b, dreply, replies, log)
  {
    forall id, idx: nat ensures Asks(b, dreply, id, idx) <==> Asks(a, dreply, id, idx) {
      if id in a {
        assert SameInstance(a[id], b[id]);
      }
    }
    hide Asks;
  }

  /** What is asked for depends on the commands and the waiting clients of the log only. */
  lemma CompleteTransfer(a: Space, b: Space, dreply: bool, replies: seq<ClientReply>, log: seq<Id>)
    requires RepliesComplete(a, dreply, replies, log)
    requires forall id :: id in log ==> id in a && id in b && b[id].cmds == a[id].cmds && Waits(b[id]) == Waits(a[id])
    ensures RepliesComplete(b, dreply, replies, log)
  {
    forall id, idx: nat ensures id in log && Asks(b, dreply, id, idx) <==> id in log && Asks(a, dreply, id, idx) {
    }
    hide Asks;
  }
}
