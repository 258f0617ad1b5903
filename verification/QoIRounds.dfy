/** What one node does with a whole list of deliveries: collecting PREPAREs, then COMMITs. */
module QoIRounds {
  import opened Collections
  import opened Quality
  import opened QoIProtocol

  /** The node after handling the messages one by one. */
  function Feed(n: Node, msgs: seq<Msg>): Node
    decreases |msgs|
  {
    if msgs == [] then n else Feed(Handle(n, msgs[0]).node, msgs[1..])
  }

  /** Everything it broadcast meanwhile. */
  function Emitted(n: Node, msgs: seq<Msg>): set<Msg>
    decreases |msgs|
  {
    if msgs == [] then {} else
    var e := Handle(n, msgs[0]);
    (if e.reply.Broadcast? then {e.reply.msg} else {}) + Emitted(e.node, msgs[1..])
  }

  /** Still below the PREPARE threshold, every stored vote for `cls`. */
  ghost predicate Gathering(n: Node, cls: int, seen: set<NodeId>) {
    && n.f >= 1 && n.phase in {PRE_PREPARE, QoIProtocol.PREPARE}
    && Distinct(n.prepares) && Keys(n.prepares) == seen && |seen| < n.Threshold()
    && (forall i :: 0 <= i < |n.prepares| ==> n.prepares[i].1.response.cls == cls)
    && n.commits == [] && n.consensusClass == None && n.outcome == None
  }

  /** Past it, below the COMMIT threshold. */
  ghost predicate Committing(n: Node, cls: int, seen: set<NodeId>) {
    && n.phase == COMMIT && n.consensusClass == Some(cls)
    && Distinct(n.commits) && Keys(n.commits) == seen && |seen| < n.Threshold()
    && n.outcome == None
  }

  ghost predicate Done(n: Node, cls: int) {
    n.phase == COMMITTED && n.outcome.Some? && n.outcome.value.cls == cls
  }

  /** All stored vectors have the same length, so that scoring cannot raise. */
  ghost predicate Uniform(n: Node, len: nat) {
    n.responses != [] && forall i :: 0 <= i < |n.responses| ==> |n.responses[i].1.probs| == len
  }

  /** What a delivery may not change. */
  ghost predicate SameRound(n: Node, m: Node) {
    m.id == n.id && m.f == n.f && m.view == n.view && m.seqNo == n.seqNo && m.requestId == n.requestId
  }

  function OwnCommit(n: Node, cls: int): Msg {
    Commit(CommitMsg(n.view, n.seqNo, n.id, n.requestId, cls, ""))
  }

  ghost predicate PrepareFor(n: Node, msg: Msg, cls: int, len: nat) {
    && msg.Prepare? && msg.p.view == n.view && msg.p.seqNo == n.seqNo
    && msg.p.response.cls == cls && |msg.p.response.probs| == len
  }

  ghost predicate CommitFor(n: Node, msg: Msg, cls: int) {
    msg.Commit? && msg.c.view == n.view && msg.c.seqNo == n.seqNo && msg.c.cls == cls
  }

  function Senders(msgs: seq<Msg>): set<NodeId> {
    set i | 0 <= i < |msgs| :: msgs[i].Sender()
  }

  lemma PutAll<V>(d: Dict<NodeId, V>, k: NodeId, v: V)
    requires Distinct(d)
    ensures Distinct(Put(d, k, v)) && Keys(Put(d, k, v)) == Keys(d) + {k}
    ensures Has(d, k) <==> k in Keys(d)
    ensures |Put(d, k, v)| == |Keys(d) + {k}|
  {
    PutGet(d, k, v);
    var r := Put(d, k, v);
    forall x | x in Keys(d) + {k} ensures x in Keys(r) {
      if x != k {
        var i :| 0 <= i < |d| && d[i].0 == x;
        assert r[i] == d[i];
      }
    }
    KeyCount(r);
  }

  lemma AllForOne(prepares: Dict<NodeId, PrepareMsg>, cls: int, threshold: nat)
    requires forall i :: 0 <= i < |prepares| ==> prepares[i].1.response.cls == cls
    requires 0 < threshold <= |prepares|
    ensures ConsensusClass(prepares, threshold) == Some(cls)
  {
    AllSame(Classes(prepares), cls);
    assert Classes(prepares)[0] == cls;
  }

  lemma {:induction false} AllSame(s: seq<int>, x: int)
    requires forall i :: 0 <= i < |s| ==> s[i] == x
    ensures multiset(s)[x] == |s|
  {
    if s != [] {
      assert s == s[..|s| - 1] + [s[|s| - 1]];
      AllSame(s[..|s| - 1], x);
    }
  }

  lemma GatherStep(n: Node, msg: Msg, cls: int, seen: set<NodeId>, len: nat)
    requires Gathering(n, cls, seen) && Uniform(n, len) && PrepareFor(n, msg, cls, len)
    ensures var e := Handle(n, msg); var now := seen + {msg.Sender()};
            && SameRound(n, e.node) && Uniform(e.node, len)
            && if |now| < n.Threshold() then Gathering(e.node, cls, now) && e.reply == Silent
               else Committing(e.node, cls, {n.id}) && e.reply == Broadcast(OwnCommit(n, cls))
  {
    hide ConsensusClass, Put, Has;
    var m := msg.p;
    PutAll(n.prepares, m.sender, m);
    if m.sender in seen {
      assert seen + {m.sender} == seen;
    } else {
      StoredVote(n, m, cls, len);
      var prepares := Put(n.prepares, m.sender, m);
      if |prepares| >= n.Threshold() {
        AllForOne(prepares, cls, n.Threshold());
        PutAll<CommitMsg>([], n.id, OwnCommit(n, cls).c);
      }
    }
  }

  lemma StoredVote(n: Node, m: PrepareMsg, cls: int, len: nat)
    requires forall i :: 0 <= i < |n.prepares| ==> n.prepares[i].1.response.cls == cls
    requires Uniform(n, len) && m.response.cls == cls && |m.response.probs| == len
    ensures var prepares, responses := Put(n.prepares, m.sender, m), Put(n.responses, m.sender, m.response);
            && (forall i :: 0 <= i < |prepares| ==> prepares[i].1.response.cls == cls)
            && Uniform(n.(prepares := prepares, responses := responses), len)
  {}

  lemma CommitStep(n: Node, msg: Msg, cls: int, seen: set<NodeId>, len: nat)
    requires Committing(n, cls, seen) && Uniform(n, len) && CommitFor(n, msg, cls)
    ensures var e := Handle(n, msg); var now := seen + {msg.Sender()};
            && SameRound(n, e.node) && Uniform(e.node, len)
            && if |now| < n.Threshold() then Committing(e.node, cls, now) else Done(e.node, cls)
  {
    hide Put, Has;
    PutAll(n.commits, msg.c.sender, msg.c);
    if msg.c.sender in seen {
      assert seen + {msg.c.sender} == seen;
    }
  }

  /** Deliveries of matching PREPAREs, in any order and with any repetition: once 2f+1 senders
      are in, the node has broadcast its COMMIT; later PREPAREs change nothing. */
  lemma {:induction false} GatherAll(n: Node, msgs: seq<Msg>, cls: int, seen: set<NodeId>, len: nat)
    requires Gathering(n, cls, seen) && Uniform(n, len)
    requires forall i :: 0 <= i < |msgs| ==> PrepareFor(n, msgs[i], cls, len)
    ensures var end := Feed(n, msgs); var now := seen + Senders(msgs);
            && SameRound(n, end) && Uniform(end, len)
            && if |now| < n.Threshold() then Gathering(end, cls, now) && Emitted(n, msgs) == {}
               else Committing(end, cls, {n.id}) && Emitted(n, msgs) == {OwnCommit(n, cls)}
    decreases |msgs|
  {
    hide Handle, Gathering, Committing, Uniform, Senders;
    SendersStep(msgs);
    if msgs == [] {
      assert seen + Senders(msgs) == seen;
      BelowThreshold(n, cls, seen);
    } else {
      var e := Handle(n, msgs[0]);
      var now := seen + {msgs[0].Sender()};
      GatherStep(n, msgs[0], cls, seen, len);
      assert seen + Senders(msgs) == now + Senders(msgs[1..]);
      if |now| < n.Threshold() {
        GatherAll(e.node, msgs[1..], cls, now, len);
      } else {
        SubsetSize(now, now + Senders(msgs[1..]));
        PreparesIgnored(e.node, msgs[1..], cls, {n.id});
      }
    }
  }

  lemma BelowThreshold(n: Node, cls: int, seen: set<NodeId>)
    requires Gathering(n, cls, seen)
    ensures |seen| < n.Threshold()
  {}

  lemma SendersStep(msgs: seq<Msg>)
    ensures Senders(msgs) == if msgs == [] then {} else {msgs[0].Sender()} + Senders(msgs[1..])
  {
    if msgs == [] { return; }
    forall k | k in Senders(msgs) ensures k in {msgs[0].Sender()} + Senders(msgs[1..]) {
      var i :| 0 <= i < |msgs| && msgs[i].Sender() == k;
      if i > 0 { assert msgs[1..][i - 1] == msgs[i]; }
    }
    forall k | k in Senders(msgs[1..]) ensures k in Senders(msgs) {
      var i :| 0 <= i < |msgs[1..]| && msgs[1..][i].Sender() == k;
      assert msgs[i + 1] == msgs[1..][i];
    }
  }

  lemma {:induction false} PreparesIgnored(n: Node, msgs: seq<Msg>, cls: int, seen: set<NodeId>)
    requires Committing(n, cls, seen) && forall i :: 0 <= i < |msgs| ==> msgs[i].Prepare?
    ensures Feed(n, msgs) == n && Emitted(n, msgs) == {}
    decreases |msgs|
  {
    if msgs != [] {
      PreparesIgnored(n, msgs[1..], cls, seen);
    }
  }

  /** Deliveries of matching COMMITs, in any order and with any repetition: 2f+1 senders decide. */
  lemma {:induction false} CommitAll(n: Node, msgs: seq<Msg>, cls: int, seen: set<NodeId>, len: nat)
    requires Committing(n, cls, seen) && Uniform(n, len)
    requires forall i :: 0 <= i < |msgs| ==> CommitFor(n, msgs[i], cls)
    requires |seen + Senders(msgs)| >= n.Threshold()
    ensures Done(Feed(n, msgs), cls)
    decreases |msgs|
  {
    hide Handle, Done, Senders;
    SendersStep(msgs);
    assert seen + {} == seen;
    if msgs != [] {
      hide Committing;
      var e := Handle(n, msgs[0]);
      CommitStep(n, msgs[0], cls, seen, len);
      var now := seen + {msgs[0].Sender()};
      assert seen + Senders(msgs) == now + Senders(msgs[1..]);
      if |now| < n.Threshold() {
        CommitAll(e.node, msgs[1..], cls, now, len);
      } else {
        CommitsIgnored(e.node, msgs[1..], cls);
      }
    }
  }

  lemma {:induction false} CommitsIgnored(n: Node, msgs: seq<Msg>, cls: int)
    requires Done(n, cls) && forall i :: 0 <= i < |msgs| ==> msgs[i].Commit?
    ensures Done(Feed(n, msgs), cls)
    decreases |msgs|
  {
    if msgs != [] {
      CommitsIgnored(n, msgs[1..], cls);
    }
  }

  /** A started replica that hears its primary's PRE_PREPARE answers with its own vote and has
      its own PREPARE stored; a started primary has none. */
  lemma Begun(n: Node, requestId: string, imageHash: string, seqNo: int, probs: seq<real>)
    requires n.f >= 1 && probs != []
    ensures var start := StartRound(n, requestId, imageHash, seqNo, probs).node;
            && Gathering(start, ArgMax(probs), {}) && Uniform(start, |probs|)
            && start.view == n.view && start.seqNo == seqNo && start.id == n.id && start.f == n.f
  {
    hide ArgMax, StartRound, Gathering, Uniform;
    var start := StartRound(n, requestId, imageHash, seqNo, probs).node;
    StartIs(n, requestId, imageHash, seqNo, probs);
    NoneGathered(start, ArgMax(probs));
    OneUniform(start, n.id, Response(ArgMax(probs), probs));
  }

  lemma StartIs(n: Node, requestId: string, imageHash: string, seqNo: int, probs: seq<real>)
    requires probs != []
    ensures var start := StartRound(n, requestId, imageHash, seqNo, probs).node;
            && start.phase == PRE_PREPARE && start.prepares == [] && start.commits == []
            && start.consensusClass == None && start.outcome == None
            && start.responses == [(n.id, Response(ArgMax(probs), probs))]
            && start.view == n.view && start.seqNo == seqNo && start.id == n.id && start.f == n.f
  {
    hide ArgMax;
  }

  lemma NoneGathered(n: Node, cls: int)
    requires n.f >= 1 && n.phase == PRE_PREPARE && n.prepares == [] && n.commits == []
    requires n.consensusClass == None && n.outcome == None
    ensures Gathering(n, cls, {})
  {}

  lemma OneUniform(n: Node, id: NodeId, r: Response)
    requires n.responses == [(id, r)]
    ensures Uniform(n, |r.probs|)
  {}

  /** Exactly what hearing the PRE_PREPARE leads to. */
  lemma Heard(n: Node, requestId: string, imageHash: string, seqNo: int, probs: seq<real>, pp: PrePrepareMsg)
    requires probs != [] && pp.sender == n.primary != n.id && pp.view == n.view && pp.seqNo == seqNo
    ensures var start := StartRound(n, requestId, imageHash, seqNo, probs).node;
            var own := Response(ArgMax(probs), probs);
            var prepare := PrepareMsg(n.view, seqNo, n.id, requestId, own);
            Handle(start, PrePrepare(pp))
              == Effect(start.(prePrepare := Some(pp), phase := QoIProtocol.PREPARE,
                               responses := [(n.id, own), (pp.sender, pp.response)], prepares := [(n.id, prepare)]),
                        Broadcast(Prepare(prepare)))
  {
    hide ArgMax;
    var own := Response(ArgMax(probs), probs);
    var start := StartRound(n, requestId, imageHash, seqNo, probs).node;
    assert start.responses == [(n.id, own)];
    assert Put(start.responses, pp.sender, pp.response) == [(n.id, own), (pp.sender, pp.response)];
    var prepare := PrepareMsg(n.view, seqNo, n.id, requestId, own);
    assert Put(start.prepares, n.id, prepare) == [(n.id, prepare)];
  }

  lemma Joined(n: Node, requestId: string, imageHash: string, seqNo: int, probs: seq<real>, pp: PrePrepareMsg)
    requires n.f >= 1 && probs != [] && pp.sender == n.primary != n.id
    requires pp.view == n.view && pp.seqNo == seqNo
    ensures var start := StartRound(n, requestId, imageHash, seqNo, probs).node;
            var e := Handle(start, PrePrepare(pp));
            && Gathering(e.node, ArgMax(probs), {n.id})
            && (|pp.response.probs| == |probs| ==> Uniform(e.node, |probs|))
            && e.node.responses == [(n.id, Response(ArgMax(probs), probs)), (pp.sender, pp.response)]
            && SameRound(start, e.node)
            && e.reply == Broadcast(Prepare(PrepareMsg(n.view, seqNo, n.id, requestId, Response(ArgMax(probs), probs))))
  {
    hide ArgMax, Handle, Gathering, Uniform;
    var own := Response(ArgMax(probs), probs);
    var prepare := PrepareMsg(n.view, seqNo, n.id, requestId, own);
    var start := StartRound(n, requestId, imageHash, seqNo, probs).node;
    Heard(n, requestId, imageHash, seqNo, probs, pp);
    OneGathered(Handle(start, PrePrepare(pp)).node, n.id, prepare);
    TwoUniform(Handle(start, PrePrepare(pp)).node, n.id, own, pp.sender, pp.response);
  }

  lemma OneGathered(n: Node, id: NodeId, prepare: PrepareMsg)
    requires n.f >= 1 && n.phase == QoIProtocol.PREPARE && n.prepares == [(id, prepare)]
    requires n.commits == [] && n.consensusClass == None && n.outcome == None
    ensures Gathering(n, prepare.response.cls, {id})
  {
    PutAll<PrepareMsg>([], id, prepare);
    assert Put([], id, prepare) == [(id, prepare)];
  }

  lemma TwoUniform(n: Node, a: NodeId, x: Response, b: NodeId, y: Response)
    requires n.responses == [(a, x), (b, y)]
    ensures |x.probs| == |y.probs| ==> Uniform(n, |x.probs|)
  {}
}
