/** Where everything in a round comes from: what correct nodes sign, what they store, and what an outcome
    carries, all traced to the starts of the nodes and to messages that were sent. */
module QoIOrigins {
  import opened Collections
  import opened Quality
  import opened QoIProtocol
  import opened QoINetwork
  import Election
  import Sorting

  /** The action that started a node: its first Start. */
  function StartOf(run: seq<Action>, i: NodeId): (r: Option<Action>)
    ensures r.Some? ==> r.value.Start? && r.value.i == i
  {
    if run == [] then None else
    var before, last := StartOf(run[..|run| - 1], i), run[|run| - 1];
    if before.None? && last.Start? && last.i == i then Some(last) else before
  }

  /** A node's own inference result. */
  function Own(c: Config, i: NodeId): Response
    requires i in c.probs && c.probs[i] != []
  {
    Response(ArgMax(c.probs[i]), c.probs[i])
  }

  // What correct nodes send

  /** 2f+1 different nodes asked for a new view; the highest view asked for is opened, by the node that
      comes first in the election order. */
  ghost predicate Certificate(c: Config, sent: set<Msg>, m: NewViewMsg) {
    && |m.evidence| >= 2 * c.f + 1
    && (forall j, k :: 0 <= j < k < |m.evidence| ==> m.evidence[j].sender != m.evidence[k].sender)
    && (forall k :: 0 <= k < |m.evidence| ==> ViewChange(m.evidence[k]) in sent && m.evidence[k].newView <= m.newView)
    && (exists k :: 0 <= k < |m.evidence| && m.evidence[k].newView == m.newView)
    && (exists k :: 0 <= k < |m.evidence| && m.evidence[k].sender == m.sender
                    && forall j :: 0 <= j < |m.evidence| ==>
                         && m.evidence[j].lastSeq <= m.evidence[k].lastSeq
                         && (m.evidence[j].lastSeq == m.evidence[k].lastSeq ==>
                               !Sorting.StringLess(m.evidence[j].sender, m.evidence[k].sender)))
  }

  /** What a correct node may sign: its own result, under the round and request it was started with. */
  ghost predicate Stamped(c: Config, sent: set<Msg>, a: Action, msg: Msg)
    requires a.Start? && a.i in c.probs && c.probs[a.i] != []
  {
    match msg
    case PrePrepare(m) =>
      m.view == 0 && m.seqNo == a.seqNo && m.requestId == a.requestId && m.imageHash == a.imageHash
      && m.response == Own(c, a.i) && a.primary == a.i
    case Prepare(m) => m.seqNo == a.seqNo && m.requestId == a.requestId && m.response == Own(c, a.i)
    case Commit(m) => m.seqNo == a.seqNo && m.requestId == a.requestId
    case ViewChange(m) => m.seqNo == a.seqNo && m.newView == m.view + 1 && m.lastSeq == a.seqNo
    case NewView(m) => m.seqNo == a.seqNo && m.view == m.newView && Certificate(c, sent, m)
  }

  /** The sender has got at least as far as the message says, and still stores the quorum of PREPAREs that
      its COMMIT rests on. */
  ghost predicate Reached(n: Node, msg: Msg) {
    && msg.View() <= n.view
    && (msg.Commit? ==> multiset(Classes(n.prepares))[msg.c.cls] >= n.Threshold())
  }

  // What a node holds

  /** The primary of a view: the one the node was started with, or who opened that view. */
  ghost predicate Opened(sent: set<Msg>, a: Action, view: int, primary: NodeId)
    requires a.Start?
  {
    if view == 0 then primary == a.primary
    else view > 0 && exists m :: NewView(m) in sent && m.newView == view && m.sender == primary
  }

  ghost predicate Stored(sent: set<Msg>, n: Node) {
    && (forall k :: 0 <= k < |n.prepares| ==>
          var m := n.prepares[k].1;
          Prepare(m) in sent && m.sender == n.prepares[k].0 && m.seqNo == n.seqNo && m.view <= n.view)
    && (forall k :: 0 <= k < |n.commits| ==>
          var m := n.commits[k].1;
          Commit(m) in sent && m.sender == n.commits[k].0 && m.seqNo == n.seqNo && m.view <= n.view)
    && (forall k :: 0 <= k < |n.viewChanges| ==>
          ViewChange(n.viewChanges[k].1) in sent && n.viewChanges[k].1.sender == n.viewChanges[k].0)
    && Distinct(n.viewChanges)
  }

  /** A vote that was sent in this round, by PREPARE or by a proposal of its view's primary. */
  ghost predicate Voted(sent: set<Msg>, a: Action, id: NodeId, r: Response)
    requires a.Start?
  {
    || (exists m :: PrePrepare(m) in sent && m.sender == id && m.response == r && m.seqNo == a.seqNo && Opened(sent, a, m.view, id))
    || (exists m :: Prepare(m) in sent && m.sender == id && m.response == r && m.seqNo == a.seqNo)
  }

  /** The node's own vote is recorded, and so are only votes that were sent. */
  ghost predicate Votes(c: Config, sent: set<Msg>, a: Action, responses: Dict<NodeId, Response>)
    requires a.Start? && a.i in c.probs && c.probs[a.i] != []
  {
    && Has(responses, a.i) && Get(responses, a.i) == Own(c, a.i)
    && forall k :: k != a.i && Has(responses, k) ==> Voted(sent, a, k, Get(responses, k))
  }

  /** The accepted proposal came from the primary of its view. */
  ghost predicate Proposed(sent: set<Msg>, a: Action, n: Node)
    requires a.Start?
  {
    n.prePrepare.Some? ==>
      var m := n.prePrepare.value;
      PrePrepare(m) in sent && m.seqNo == a.seqNo && m.view <= n.view && Opened(sent, a, m.view, m.sender)
  }

  /** The signer sent a COMMIT with this signature in this round. */
  ghost predicate Signed(sent: set<Msg>, seqNo: int, signature: (NodeId, string)) {
    exists m :: Commit(m) in sent && m.sender == signature.0 && m.signature == signature.1 && m.seqNo == seqNo
  }

  /** An outcome carries the request and round its node was started with, the votes it recorded, COMMITs
      that were sent to it, and a view with that view's primary. */
  ghost predicate Traced(c: Config, sent: set<Msg>, a: Action, o: Outcome)
    requires a.Start? && a.i in c.probs && c.probs[a.i] != []
  {
    && o.requestId == a.requestId && o.seqNo == a.seqNo && o.electedQuorum == a.quorum
    && Opened(sent, a, o.view, o.primary) && Votes(c, sent, a, o.responses)
    && forall k :: 0 <= k < |o.commitSignatures| ==> Signed(sent, a.seqNo, o.commitSignatures[k])
  }

  /** A running node has decided in its current view, or is still at work. */
  ghost predicate AtWork(n: Node) {
    n.phase != IDLE && (n.phase == COMMITTED ==> n.outcome.Some? && n.outcome.value.view == n.view)
  }

  ghost predicate Grounded(c: Config, sent: set<Msg>, a: Action, n: Node)
    requires a.Start? && a.i in c.probs && c.probs[a.i] != []
  {
    && n.id == a.i && n.f == c.f && n.requestId == a.requestId && n.imageHash == a.imageHash && n.seqNo == a.seqNo
    && n.electedQuorum == a.quorum && Opened(sent, a, n.view, n.primary)
    && Stored(sent, n) && Votes(c, sent, a, n.responses) && Proposed(sent, a, n) && AtWork(n)
    && (n.outcome.Some? ==>
          && Traced(c, sent, a, n.outcome.value) && n.outcome.value.view <= n.view
          && (n.outcome.value.view == n.view ==> n.outcome.value.primary == n.primary))
  }

  // Every handler keeps it

  /** The messages on the network after a step. */
  function Out(sent: set<Msg>, e: Effect): set<Msg> {
    if e.reply.Broadcast? then sent + {e.reply.msg} else sent
  }

  /** The node's views only rise, and no class loses a PREPARE. */
  ghost predicate Grows(n: Node, later: Node) {
    && n.view <= later.view && later.f == n.f
    && forall x :: multiset(Classes(later.prepares))[x] >= multiset(Classes(n.prepares))[x]
  }

  ghost predicate StepOk(c: Config, sent: set<Msg>, a: Action, n: Node, e: Effect)
    requires a.Start? && a.i in c.probs && c.probs[a.i] != []
  {
    && Grounded(c, Out(sent, e), a, e.node) && Grows(n, e.node)
    && (e.reply.Broadcast? ==>
          e.reply.msg.Sender() == a.i && Stamped(c, Out(sent, e), a, e.reply.msg) && Reached(e.node, e.reply.msg))
  }

  /** What is known about a node that a message reaches. */
  ghost predicate Knows(c: Config, sent: set<Msg>, a: Action, n: Node, msg: Msg)
    requires a.Start? && a.i in c.probs && c.probs[a.i] != []
  {
    && c.Valid() && c.Correct(a.i) && NodeOk(c, a.i, n) && Grounded(c, sent, a, n) && msg in sent
    && msg.Sender() in c.nodes && Honest(c, msg) && (msg.Sender() == a.i ==> Stamped(c, sent, a, msg))
  }

  lemma OpenedStays(sent: set<Msg>, more: set<Msg>, a: Action, view: int, primary: NodeId)
    requires a.Start? && sent <= more && Opened(sent, a, view, primary)
    ensures Opened(more, a, view, primary)
  {}

  lemma VotesStay(c: Config, sent: set<Msg>, more: set<Msg>, a: Action, responses: Dict<NodeId, Response>)
    requires a.Start? && a.i in c.probs && c.probs[a.i] != [] && sent <= more && Votes(c, sent, a, responses)
    ensures Votes(c, more, a, responses)
  {
    hide Has, Get, ArgMax, Voted;
    forall k | k != a.i && Has(responses, k) ensures Voted(more, a, k, Get(responses, k)) {
      VotedStays(sent, more, a, k, Get(responses, k));
    }
  }

  lemma VotedStays(sent: set<Msg>, more: set<Msg>, a: Action, id: NodeId, r: Response)
    requires a.Start? && sent <= more && Voted(sent, a, id, r)
    ensures Voted(more, a, id, r)
  {
    hide Opened;
    if m: PrePrepareMsg :| PrePrepare(m) in sent && m.sender == id && m.response == r && m.seqNo == a.seqNo && Opened(sent, a, m.view, id) {
      OpenedStays(sent, more, a, m.view, id);
      assert PrePrepare(m) in more;
    }
  }

  lemma ProposedStays(sent: set<Msg>, more: set<Msg>, a: Action, n: Node)
    requires a.Start? && sent <= more && Proposed(sent, a, n)
    ensures Proposed(more, a, n)
  {
    hide Opened;
    if n.prePrepare.Some? { OpenedStays(sent, more, a, n.prePrepare.value.view, n.prePrepare.value.sender); }
  }

  lemma TracedStays(c: Config, sent: set<Msg>, more: set<Msg>, a: Action, o: Outcome)
    requires a.Start? && a.i in c.probs && c.probs[a.i] != [] && sent <= more && Traced(c, sent, a, o)
    ensures Traced(c, more, a, o)
  {
    hide Votes, Opened, ArgMax;
    OpenedStays(sent, more, a, o.view, o.primary);
    VotesStay(c, sent, more, a, o.responses);
    forall k | 0 <= k < |o.commitSignatures| ensures Signed(more, a.seqNo, o.commitSignatures[k]) {
      assert Signed(sent, a.seqNo, o.commitSignatures[k]);
    }
  }

  lemma GroundedStays(c: Config, sent: set<Msg>, more: set<Msg>, a: Action, n: Node)
    requires a.Start? && a.i in c.probs && c.probs[a.i] != [] && sent <= more && Grounded(c, sent, a, n)
    ensures Grounded(c, more, a, n)
  {
    hide Votes, Opened, Traced, Proposed, ArgMax, Distinct;
    OpenedStays(sent, more, a, n.view, n.primary);
    VotesStay(c, sent, more, a, n.responses);
    ProposedStays(sent, more, a, n);
    if n.outcome.Some? { TracedStays(c, sent, more, a, n.outcome.value); }
  }

  lemma StampedStays(c: Config, sent: set<Msg>, more: set<Msg>, a: Action, msg: Msg)
    requires a.Start? && a.i in c.probs && c.probs[a.i] != [] && sent <= more && Stamped(c, sent, a, msg)
    ensures Stamped(c, more, a, msg)
  {
    hide ArgMax;
  }

  lemma GrowsSame(n: Node, later: Node)
    requires n.view <= later.view && later.f == n.f && later.prepares == n.prepares
    ensures Grows(n, later)
  {}

  lemma StartGrounded(c: Config, sent: set<Msg>, a: Action)
    requires a.Start? && c.Valid() && c.Correct(a.i)
    ensures var n := NewNode(a.i, a.primary, c.f, a.quorum);
            StepOk(c, sent, a, n, StartRound(n, a.requestId, a.imageHash, a.seqNo, c.probs[a.i]))
  {
    hide ArgMax, Certificate;
    PutGet<NodeId, Response>([], a.i, Own(c, a.i));
    assert Put([], a.i, Own(c, a.i)) == [(a.i, Own(c, a.i))];
    OnlyOwn(c, a);
  }

  lemma OnlyOwn(c: Config, a: Action)
    requires a.Start? && a.i in c.probs && c.probs[a.i] != []
    ensures forall sent :: Votes(c, sent, a, [(a.i, Own(c, a.i))])
  {
    hide ArgMax;
    var d := [(a.i, Own(c, a.i))];
    assert d[0].0 == a.i;
    assert forall k :: Has(d, k) ==> k == a.i;
  }

  /** Recording a vote that was sent keeps the records in order. */
  lemma VoteRecorded(c: Config, sent: set<Msg>, a: Action, responses: Dict<NodeId, Response>, k: NodeId, r: Response)
    requires a.Start? && a.i in c.probs && c.probs[a.i] != [] && Votes(c, sent, a, responses)
    requires if k == a.i then r == Own(c, a.i) else Voted(sent, a, k, r)
    ensures Votes(c, sent, a, Put(responses, k, r))
  {
    hide ArgMax, Put, Has, Get, Voted;
    PutGet(responses, k, r);
  }

  /** Every entry of a dict after a write is an old one or the one written. */
  lemma PutEntries<V>(d: Dict<NodeId, V>, k: NodeId, v: V)
    ensures forall j :: 0 <= j < |Put(d, k, v)| ==> Put(d, k, v)[j] == (k, v) || Put(d, k, v)[j] in d
  {}

  lemma EntryAt<V>(d: Dict<NodeId, V>, e: (NodeId, V)) returns (j: nat)
    requires e in d
    ensures j < |d| && d[j] == e
  {
    j :| 0 <= j < |d| && d[j] == e;
  }

  lemma PrepareStored(sent: set<Msg>, n: Node, m: PrepareMsg)
    requires Stored(sent, n) && Prepare(m) in sent && m.seqNo == n.seqNo && m.view <= n.view
    ensures Stored(sent, n.(prepares := Put(n.prepares, m.sender, m)))
  {
    hide Put, Distinct;
    PutEntries(n.prepares, m.sender, m);
    var d := Put(n.prepares, m.sender, m);
    forall j | 0 <= j < |d| ensures Prepare(d[j].1) in sent && d[j].1.sender == d[j].0 && d[j].1.seqNo == n.seqNo && d[j].1.view <= n.view {
      if d[j] in n.prepares { var k := EntryAt(n.prepares, d[j]); }
    }
  }

  lemma CommitStored(sent: set<Msg>, n: Node, m: CommitMsg)
    requires Stored(sent, n) && Commit(m) in sent && m.seqNo == n.seqNo && m.view <= n.view
    ensures Stored(sent, n.(commits := Put(n.commits, m.sender, m)))
  {
    hide Put, Distinct;
    PutEntries(n.commits, m.sender, m);
    var d := Put(n.commits, m.sender, m);
    forall j | 0 <= j < |d| ensures Commit(d[j].1) in sent && d[j].1.sender == d[j].0 && d[j].1.seqNo == n.seqNo && d[j].1.view <= n.view {
      if d[j] in n.commits { var k := EntryAt(n.commits, d[j]); }
    }
  }

  lemma ViewChangeStored(sent: set<Msg>, n: Node, m: ViewChangeMsg)
    requires Stored(sent, n) && ViewChange(m) in sent
    ensures Stored(sent, n.(viewChanges := Put(n.viewChanges, m.sender, m)))
  {
    hide Put, Distinct;
    PutEntries(n.viewChanges, m.sender, m);
    PutGet(n.viewChanges, m.sender, m);
    var d := Put(n.viewChanges, m.sender, m);
    forall j | 0 <= j < |d| ensures ViewChange(d[j].1) in sent && d[j].1.sender == d[j].0 {
      if d[j] in n.viewChanges { var k := EntryAt(n.viewChanges, d[j]); }
    }
  }

  lemma StoredStays(sent: set<Msg>, more: set<Msg>, n: Node)
    requires Stored(sent, n) && sent <= more
    ensures Stored(more, n)
  {
    hide Distinct;
  }

  /** A step that touches neither the view, the round nor the outcome. */
  lemma SameViewGrounded(c: Config, sent: set<Msg>, more: set<Msg>, a: Action, n: Node, later: Node)
    requires a.Start? && a.i in c.probs && c.probs[a.i] != [] && Grounded(c, sent, a, n) && sent <= more
    requires later == n.(phase := later.phase, prePrepare := later.prePrepare, prepares := later.prepares,
                         commits := later.commits, viewChanges := later.viewChanges,
                         consensusClass := later.consensusClass, responses := later.responses)
    requires Stored(more, later) && Votes(c, more, a, later.responses) && Proposed(more, a, later) && AtWork(later)
    ensures Grounded(c, more, a, later)
  {
    hide Votes, Opened, Traced, Stored, Proposed, ArgMax;
    OpenedStays(sent, more, a, n.view, n.primary);
    if n.outcome.Some? { TracedStays(c, sent, more, a, n.outcome.value); }
  }

  /** A node's own PREPARE only repeats its vote. */
  lemma OwnPrepareGrows(c: Config, n: Node, m: PrepareMsg)
    requires c.Valid() && PreparesOk(c, n.prepares) && c.Correct(m.sender) && Honest(c, Prepare(m))
    ensures forall x :: multiset(Classes(Put(n.prepares, m.sender, m)))[x] >= multiset(Classes(n.prepares))[x]
  {
    hide Classes, Put;
    forall x ensures multiset(Classes(Put(n.prepares, m.sender, m)))[x] >= multiset(Classes(n.prepares))[x] {
      PutPrepareVotes(c, n, m, x);
    }
  }

  lemma NewPrepareGrows(c: Config, n: Node, m: PrepareMsg)
    requires c.Valid() && PreparesOk(c, n.prepares) && !Has(n.prepares, m.sender)
    ensures forall x :: multiset(Classes(Put(n.prepares, m.sender, m)))[x] >= multiset(Classes(n.prepares))[x]
  {
    hide Classes, Put, Has;
    forall x ensures multiset(Classes(Put(n.prepares, m.sender, m)))[x] >= multiset(Classes(n.prepares))[x] {
      PutPrepareVotes(c, n, m, x);
    }
  }

  lemma OwnVoteKnown(c: Config, sent: set<Msg>, a: Action, responses: Dict<NodeId, Response>, default: Response)
    requires a.Start? && a.i in c.probs && c.probs[a.i] != [] && Votes(c, sent, a, responses)
    ensures GetOr(responses, a.i, default) == Own(c, a.i)
  {
    hide ArgMax, Has, Get;
  }

  lemma PrePrepareGrounded(c: Config, sent: set<Msg>, a: Action, n: Node, m: PrePrepareMsg)
    requires a.Start? && a.i in c.probs && c.probs[a.i] != [] && Knows(c, sent, a, n, PrePrepare(m))
    ensures StepOk(c, sent, a, n, HandlePrePrepare(n, m))
  {
    hide ArgMax, Put, Has, Get, GetOr, Classes, Votes, Certificate, Opened, Traced, Backed, PreparesOk, CommitsOk, OutcomeOk,
         OwnVote, Stored;
    var e := HandlePrePrepare(n, m);
    if e.reply.Broadcast? {
      var own := e.reply.msg.p;
      assert Voted(sent, a, m.sender, m.response);
      VoteRecorded(c, sent, a, n.responses, m.sender, m.response);
      OwnVoteKnown(c, sent, a, e.node.responses, m.response);
      OwnPrepareGrows(c, n, own);
      StoredStays(sent, Out(sent, e), n);
      PrepareStored(Out(sent, e), n, own);
      VotesStay(c, sent, Out(sent, e), a, e.node.responses);
      StoredSame(Out(sent, e), n.(prepares := e.node.prepares), e.node);
      OpenedStays(sent, Out(sent, e), a, n.view, n.primary);
      SameViewGrounded(c, sent, Out(sent, e), a, n, e.node);
    } else {
      GrowsSame(n, e.node);
    }
  }

  lemma StoredSame(sent: set<Msg>, n: Node, m: Node)
    requires Stored(sent, n) && m.prepares == n.prepares && m.commits == n.commits && m.viewChanges == n.viewChanges
    requires m.seqNo == n.seqNo && n.view <= m.view
    ensures Stored(sent, m)
  {}

  lemma PrepareGrounded(c: Config, sent: set<Msg>, a: Action, n: Node, m: PrepareMsg)
    requires a.Start? && a.i in c.probs && c.probs[a.i] != [] && Knows(c, sent, a, n, Prepare(m))
    ensures StepOk(c, sent, a, n, HandlePrepare(n, m))
  {
    hide ArgMax, Put, Has, Get, Classes, Votes, Certificate, Opened, Traced, Backed, PreparesOk, CommitsOk, OutcomeOk,
         OwnVote, Stored, ConsensusClass;
    var e := HandlePrepare(n, m);
    if e.node != n {
      assert Voted(sent, a, m.sender, m.response);
      VoteRecorded(c, sent, a, n.responses, m.sender, m.response);
      NewPrepareGrows(c, n, m);
      PrepareStored(sent, n, m);
      var stored := n.(prepares := e.node.prepares);
      StoredStays(sent, Out(sent, e), stored);
      VotesStay(c, sent, Out(sent, e), a, e.node.responses);
      if e.reply.Broadcast? {
        CommitStored(Out(sent, e), stored, e.reply.msg.c);
        StoredSame(Out(sent, e), stored.(commits := e.node.commits), e.node);
        CommitBacked(e.node.prepares, n.Threshold(), e.reply.msg.c.cls);
      } else {
        StoredSame(Out(sent, e), stored, e.node);
      }
      ProposedStays(sent, Out(sent, e), a, n);
      SameViewGrounded(c, sent, Out(sent, e), a, n, e.node);
    } else {
      GrowsSame(n, e.node);
    }
  }

  lemma CommitBacked(prepares: Dict<NodeId, PrepareMsg>, threshold: nat, cls: int)
    requires ConsensusClass(prepares, threshold) == Some(cls)
    ensures multiset(Classes(prepares))[cls] >= threshold
  {}

  /** An outcome made from a grounded node's own fields is traced. */
  lemma FinalTraced(c: Config, sent: set<Msg>, a: Action, n: Node, o: Outcome)
    requires a.Start? && a.i in c.probs && c.probs[a.i] != [] && Grounded(c, sent, a, n)
    requires o.requestId == n.requestId && o.seqNo == n.seqNo && o.electedQuorum == n.electedQuorum
    requires o.view == n.view && o.primary == n.primary && o.responses == n.responses
    requires o.commitSignatures == CommitSignatures(n.commits)
    ensures Traced(c, sent, a, o)
  {
    hide Votes, Opened, ArgMax, Distinct;
    forall k | 0 <= k < |o.commitSignatures| ensures Signed(sent, a.seqNo, o.commitSignatures[k]) {
      var m := n.commits[k].1;
      assert Commit(m) in sent;
    }
  }

  lemma CommitGrounded(c: Config, sent: set<Msg>, a: Action, n: Node, m: CommitMsg)
    requires a.Start? && a.i in c.probs && c.probs[a.i] != [] && Knows(c, sent, a, n, Commit(m))
    ensures StepOk(c, sent, a, n, HandleCommit(n, m))
  {
    hide ArgMax, Put, Has, Get, Classes, Votes, Certificate, Opened, Traced, Backed, PreparesOk, CommitsOk, OutcomeOk,
         OwnVote, Stored, Scorable, CommitSignatures;
    var e := HandleCommit(n, m);
    GrowsSame(n, e.node);
    if e.node != n {
      CommitStored(sent, n, m);
      var stored := n.(commits := e.node.commits);
      SameViewGrounded(c, sent, sent, a, n, stored);
      StoredSame(sent, stored, e.node);
      if e.node.phase == COMMITTED {
        FinalTraced(c, sent, a, stored, e.node.outcome.value);
      }
    }
  }

  /** What an elected node collected certifies the view it opens. */
  lemma Certified(c: Config, sent: set<Msg>, n: Node, m: NewViewMsg)
    requires Stored(sent, n) && n.viewChanges != [] && |n.viewChanges| >= 2 * c.f + 1
    requires m.evidence == Evidence(n.viewChanges) && m.newView == MaxNewView(n.viewChanges)
    requires m.sender == ElectPrimary(n.viewChanges)
    ensures Certificate(c, sent, m)
  {
    hide MaxNewView, ElectPrimary, Sorting.StringLess;
    var d := n.viewChanges;
    var best := Election.ElectedIsAhead(d);
    var k :| 0 <= k < |m.evidence| && m.evidence[k] == best;
    forall j | 0 <= j < |m.evidence|
      ensures m.evidence[j].lastSeq <= best.lastSeq
      ensures m.evidence[j].lastSeq == best.lastSeq ==> !Sorting.StringLess(m.evidence[j].sender, best.sender)
    {
      assert Election.Collected(d, m.evidence[j]);
    }
    var top :| 0 <= top < |d| && d[top].1.newView == m.newView;
    assert m.evidence[top].newView == m.newView;
  }

  lemma ViewChangeGrounded(c: Config, sent: set<Msg>, a: Action, n: Node, m: ViewChangeMsg)
    requires a.Start? && a.i in c.probs && c.probs[a.i] != [] && Knows(c, sent, a, n, ViewChange(m))
    ensures StepOk(c, sent, a, n, HandleViewChange(n, m))
  {
    hide ArgMax, Put, Has, Get, Classes, Votes, Certificate, Opened, Traced, Backed, PreparesOk, CommitsOk, OutcomeOk,
         OwnVote, Stored, MaxNewView, ElectPrimary, Evidence;
    var e := HandleViewChange(n, m);
    if m.newView <= n.view {
      GrowsSame(n, e.node);
    } else {
      ViewChangeStored(sent, n, m);
      var stored := n.(viewChanges := e.node.viewChanges);
      if e.reply.Broadcast? {
        PutHolds(n.viewChanges, m.sender, m);
        TopRises(stored.viewChanges, n.view, m);
        Certified(c, sent, stored, e.reply.msg.nv);
        StoredStays(sent, Out(sent, e), stored);
        StoredSame(Out(sent, e), stored, e.node);
        CertificateStays(c, sent, Out(sent, e), e.reply.msg.nv);
        ViewOpened(c, sent, Out(sent, e), a, n, e.node, e.reply.msg.nv);
      } else {
        StoredSame(sent, stored, e.node);
        SameViewGrounded(c, sent, sent, a, n, e.node);
      }
      GrowsSame(n, e.node);
    }
  }

  /** The view that is opened is above the one before. */
  lemma TopRises(d: Dict<NodeId, ViewChangeMsg>, view: int, m: ViewChangeMsg)
    requires d != [] && m.newView > view && exists k :: 0 <= k < |d| && d[k].1 == m
    ensures MaxNewView(d) > view
  {
    hide MaxNewView;
    assert MaxNewView(d) >= m.newView;
  }

  lemma PutHolds<V>(d: Dict<NodeId, V>, k: NodeId, v: V)
    ensures Put(d, k, v) != [] && exists j :: 0 <= j < |Put(d, k, v)| && Put(d, k, v)[j].1 == v
  {
    assert Put(d, k, v)[IndexOf(d, k)].1 == v;
  }

  lemma CertificateStays(c: Config, sent: set<Msg>, more: set<Msg>, m: NewViewMsg)
    requires Certificate(c, sent, m) && sent <= more
    ensures Certificate(c, more, m)
  {
    hide Sorting.StringLess;
  }

  /** A step into a later view that somebody opened. */
  lemma ViewOpened(c: Config, sent: set<Msg>, more: set<Msg>, a: Action, n: Node, later: Node, m: NewViewMsg)
    requires a.Start? && a.i in c.probs && c.probs[a.i] != [] && Grounded(c, sent, a, n) && sent <= more
    requires NewView(m) in more && m.newView == later.view > n.view && m.sender == later.primary
    requires later == n.(view := later.view, primary := later.primary, phase := later.phase, viewChanges := later.viewChanges)
    requires Stored(more, later) && AtWork(later)
    ensures Grounded(c, more, a, later)
  {
    hide Votes, Traced, Stored, ArgMax;
    VotesStay(c, sent, more, a, n.responses);
    if n.outcome.Some? { TracedStays(c, sent, more, a, n.outcome.value); }
  }

  lemma NewViewGrounded(c: Config, sent: set<Msg>, a: Action, n: Node, m: NewViewMsg)
    requires a.Start? && a.i in c.probs && c.probs[a.i] != [] && Knows(c, sent, a, n, NewView(m))
    ensures StepOk(c, sent, a, n, HandleNewView(n, m))
  {
    hide ArgMax, Classes, Votes, Certificate, Opened, Traced, Backed, PreparesOk, CommitsOk, OutcomeOk, OwnVote;
    var e := HandleNewView(n, m);
    GrowsSame(n, e.node);
    if e.node != n {
      ViewOpened(c, sent, sent, a, n, e.node, m);
    }
  }

  lemma TimerGrounded(c: Config, sent: set<Msg>, a: Action, n: Node, expired: bool)
    requires a.Start? && a.i in c.probs && c.probs[a.i] != [] && Grounded(c, sent, a, n)
    ensures StepOk(c, sent, a, n, CheckTimeout(n, expired))
  {
    hide ArgMax, Classes, Votes, Certificate, Opened, Traced, Stored;
    var e := CheckTimeout(n, expired);
    GrowsSame(n, e.node);
    if e.reply.Broadcast? {
      StoredStays(sent, Out(sent, e), n);
      StoredSame(Out(sent, e), n, e.node);
      VotesStay(c, sent, Out(sent, e), a, n.responses);
      ProposedStays(sent, Out(sent, e), a, n);
      SameViewGrounded(c, sent, Out(sent, e), a, n, e.node);
    }
  }

  lemma HandleGrounded(c: Config, sent: set<Msg>, a: Action, n: Node, msg: Msg)
    requires a.Start? && a.i in c.probs && c.probs[a.i] != [] && Knows(c, sent, a, n, msg)
    ensures StepOk(c, sent, a, n, Handle(n, msg))
  {
    hide HandlePrePrepare, HandlePrepare, HandleCommit, HandleViewChange, HandleNewView, ArgMax, StepOk, Knows;
    if msg.View() < n.view {
      StaleOk(c, sent, a, n, msg);
    } else {
      match msg
      case PrePrepare(m) => PrePrepareGrounded(c, sent, a, n, m);
      case Prepare(m) => PrepareGrounded(c, sent, a, n, m);
      case Commit(m) => CommitGrounded(c, sent, a, n, m);
      case ViewChange(m) => ViewChangeGrounded(c, sent, a, n, m);
      case NewView(m) => NewViewGrounded(c, sent, a, n, m);
    }
  }

  lemma StaleOk(c: Config, sent: set<Msg>, a: Action, n: Node, msg: Msg)
    requires a.Start? && a.i in c.probs && c.probs[a.i] != [] && Knows(c, sent, a, n, msg)
    ensures StepOk(c, sent, a, n, Effect(n, Silent))
  {
    hide ArgMax, Grounded;
  }

  // Whole runs

  /** A machine that runs was started and is grounded in that start. */
  ghost predicate NodeOrigin(c: Config, run: seq<Action>, s: System, i: NodeId)
    requires i in s.machines
  {
    && c.Correct(i) && i in c.probs && c.probs[i] != [] && StartOf(run, i).Some?
    && Grounded(c, s.sent, StartOf(run, i).value, s.machines[i])
  }

  /** A correct node's message is stamped by its start and reached by its machine. */
  ghost predicate MsgOrigin(c: Config, run: seq<Action>, s: System, msg: Msg) {
    c.Correct(msg.Sender()) ==>
      var i := msg.Sender();
      && i in s.machines && i in c.probs && c.probs[i] != [] && StartOf(run, i).Some?
      && Stamped(c, s.sent, StartOf(run, i).value, msg) && Reached(s.machines[i], msg)
  }

  ghost predicate Origins(c: Config, run: seq<Action>, s: System) {
    && (forall i :: i in s.machines ==> NodeOrigin(c, run, s, i))
    && (forall msg :: msg in s.sent ==> MsgOrigin(c, run, s, msg))
    && (forall i :: StartOf(run, i).Some? && c.Correct(i) ==> i in s.machines)
  }

  /** More messages, and a machine that has grown, take nothing away. */
  lemma MsgOriginStays(c: Config, run: seq<Action>, s: System, later: seq<Action>, t: System, msg: Msg)
    requires MsgOrigin(c, run, s, msg) && s.sent <= t.sent && s.machines.Keys <= t.machines.Keys
    requires forall i | StartOf(run, i).Some? :: StartOf(later, i) == StartOf(run, i)
    requires forall i | i in s.machines :: Grows(s.machines[i], t.machines[i])
    ensures MsgOrigin(c, later, t, msg)
  {
    hide Grounded, Stamped, ArgMax, StartOf, Classes;
    if c.Correct(msg.Sender()) {
      StampedStays(c, s.sent, t.sent, StartOf(run, msg.Sender()).value, msg);
    }
  }

  lemma NodeOriginStays(c: Config, run: seq<Action>, s: System, later: seq<Action>, t: System, i: NodeId)
    requires i in s.machines && NodeOrigin(c, run, s, i) && s.sent <= t.sent
    requires i in t.machines && t.machines[i] == s.machines[i] && StartOf(later, i) == StartOf(run, i)
    ensures NodeOrigin(c, later, t, i)
  {
    hide Grounded, ArgMax, StartOf;
    GroundedStays(c, s.sent, t.sent, StartOf(run, i).value, s.machines[i]);
  }

  /** One machine's step, recorded. */
  lemma RecordOrigins(c: Config, run: seq<Action>, later: seq<Action>, s: System, i: NodeId, n: Node, e: Effect)
    requires Origins(c, run, s) && c.Correct(i) && i in c.probs && c.probs[i] != []
    requires forall k | StartOf(run, k).Some? :: StartOf(later, k) == StartOf(run, k)
    requires forall k | StartOf(later, k).Some? :: k == i || StartOf(run, k).Some?
    requires StartOf(later, i).Some? && StepOk(c, s.sent, StartOf(later, i).value, n, e)
    requires i in s.machines ==> n == s.machines[i]
    ensures Origins(c, later, Record(s, i, e))
  {
    hide Grounded, Stamped, Reached, ArgMax, StartOf, NodeOrigin, MsgOrigin, Classes;
    var t := Record(s, i, e);
    assert t.sent == Out(s.sent, e);
    forall k | k in t.machines ensures NodeOrigin(c, later, t, k) {
      if k == i {
        SteppedOrigin(c, later, s, i, n, e);
      } else {
        assert NodeOrigin(c, run, s, k);
        HasStart(c, run, s, k);
        NodeOriginStays(c, run, s, later, t, k);
      }
    }
    forall k | k in s.machines ensures Grows(s.machines[k], t.machines[k]) {
      if k != i { GrowsSame(s.machines[k], t.machines[k]); }
    }
    forall msg | msg in t.sent ensures MsgOrigin(c, later, t, msg) {
      if msg in s.sent {
        assert MsgOrigin(c, run, s, msg);
        MsgOriginStays(c, run, s, later, t, msg);
      } else {
        NewMsgOrigin(c, later, s, i, n, e);
      }
    }
  }

  lemma HasStart(c: Config, run: seq<Action>, s: System, i: NodeId)
    requires i in s.machines && NodeOrigin(c, run, s, i)
    ensures StartOf(run, i).Some?
  {}

  lemma SteppedOrigin(c: Config, later: seq<Action>, s: System, i: NodeId, n: Node, e: Effect)
    requires c.Correct(i) && i in c.probs && c.probs[i] != []
    requires StartOf(later, i).Some? && StepOk(c, s.sent, StartOf(later, i).value, n, e)
    ensures NodeOrigin(c, later, Record(s, i, e), i)
  {
    hide Grounded, Stamped, Reached, ArgMax, StartOf;
    assert Record(s, i, e).sent == Out(s.sent, e);
  }

  lemma NewMsgOrigin(c: Config, later: seq<Action>, s: System, i: NodeId, n: Node, e: Effect)
    requires c.Correct(i) && i in c.probs && c.probs[i] != []
    requires StartOf(later, i).Some? && StepOk(c, s.sent, StartOf(later, i).value, n, e)
    ensures e.reply.Broadcast? ==> MsgOrigin(c, later, Record(s, i, e), e.reply.msg)
  {
    hide Grounded, Stamped, Reached, ArgMax, StartOf;
    assert Record(s, i, e).sent == Out(s.sent, e);
  }

  lemma StartsNext(run: seq<Action>, last: Action)
    ensures forall k | StartOf(run, k).Some? :: StartOf(run + [last], k) == StartOf(run, k)
    ensures forall k | StartOf(run + [last], k).Some? :: StartOf(run, k).Some? || (last.Start? && last.i == k)
    ensures last.Start? ==> StartOf(run + [last], last.i).Some?
    ensures last.Start? && StartOf(run, last.i).None? ==> StartOf(run + [last], last.i) == Some(last)
  {
    var next := run + [last];
    assert next[..|next| - 1] == run;
  }

  lemma StepOrigins(c: Config, run: seq<Action>, s: System, a: Action)
    requires c.Valid() && Inv(c, s) && Origins(c, run, s)
    ensures Origins(c, run + [a], if Enabled(c, s, a) then Perform(c, s, a) else s)
  {
    hide Grounded, Stamped, Reached, ArgMax, StartOf, NodeOrigin, MsgOrigin, StepOk, Handle, StartRound, CheckTimeout, NodeOk,
         Honest;
    StartsNext(run, a);
    if !Enabled(c, s, a) {
      IdleOrigins(c, run, s, run + [a], s);
    } else {
      match a
      case Start(i, primary, seqNo, requestId, imageHash, quorum) =>
        StartGrounded(c, s.sent, a);
        var n := NewNode(i, primary, c.f, quorum);
        RecordOrigins(c, run, run + [a], s, i, n, StartRound(n, requestId, imageHash, seqNo, c.probs[i]));
      case Deliver(i, msg) =>
        var start := KnowsAll(c, run, s, i, msg);
        HandleGrounded(c, s.sent, start, s.machines[i], msg);
        RecordOrigins(c, run, run + [a], s, i, s.machines[i], Handle(s.machines[i], msg));
      case Timer(i, expired) =>
        var start := Founded(c, run, s, i);
        TimerGrounded(c, s.sent, start, s.machines[i], expired);
        RecordOrigins(c, run, run + [a], s, i, s.machines[i], CheckTimeout(s.machines[i], expired));
      case Forge(msg) => IdleOrigins(c, run, s, run + [a], s.(sent := s.sent + {msg}));
    }
  }

  lemma Founded(c: Config, run: seq<Action>, s: System, i: NodeId) returns (start: Action)
    requires i in s.machines && Origins(c, run, s)
    ensures c.Correct(i) && i in c.probs && c.probs[i] != [] && StartOf(run, i) == Some(start) && start.Start? && start.i == i
    ensures Grounded(c, s.sent, start, s.machines[i])
  {
    hide Grounded, MsgOrigin, ArgMax;
    assert NodeOrigin(c, run, s, i);
    start := StartOf(run, i).value;
  }

  lemma KnowsAll(c: Config, run: seq<Action>, s: System, i: NodeId, msg: Msg) returns (start: Action)
    requires c.Valid() && Inv(c, s) && Origins(c, run, s) && i in s.machines && msg in s.sent
    ensures c.Correct(i) && i in c.probs && c.probs[i] != [] && StartOf(run, i) == Some(start) && start.Start? && start.i == i
    ensures Knows(c, s.sent, start, s.machines[i], msg)
  {
    hide Grounded, Stamped, Reached, ArgMax, StartOf, NodeOk, NodeOrigin;
    start := Founded(c, run, s, i);
    assert MsgOrigin(c, run, s, msg);
  }

  /** No machine moves; at most a Byzantine node has sent something. */
  lemma IdleOrigins(c: Config, run: seq<Action>, s: System, later: seq<Action>, t: System)
    requires Origins(c, run, s) && t.machines == s.machines && s.sent <= t.sent
    requires forall k | StartOf(run, k).Some? :: StartOf(later, k) == StartOf(run, k)
    requires forall k | StartOf(later, k).Some? && c.Correct(k) :: StartOf(run, k).Some? || k in s.machines
    requires forall msg | msg in t.sent && msg !in s.sent :: !c.Correct(msg.Sender())
    ensures Origins(c, later, t)
  {
    hide Grounded, Stamped, Reached, ArgMax, StartOf, NodeOrigin, MsgOrigin, Classes;
    forall k | k in t.machines ensures NodeOrigin(c, later, t, k) {
      assert NodeOrigin(c, run, s, k);
      HasStart(c, run, s, k);
      NodeOriginStays(c, run, s, later, t, k);
    }
    forall k | k in s.machines ensures Grows(s.machines[k], t.machines[k]) {
      GrowsSame(s.machines[k], t.machines[k]);
    }
    forall msg | msg in t.sent ensures MsgOrigin(c, later, t, msg) {
      if msg in s.sent {
        assert MsgOrigin(c, run, s, msg);
        MsgOriginStays(c, run, s, later, t, msg);
      } else {
        FaultySender(c, later, t, msg);
      }
    }
  }

  lemma FaultySender(c: Config, later: seq<Action>, t: System, msg: Msg)
    requires !c.Correct(msg.Sender())
    ensures MsgOrigin(c, later, t, msg)
  {}

  /** In every run, among any number of nodes: whatever a correct node has sent is stamped by its start,
      whatever a machine holds was sent to it, and whatever an outcome names is traced. */
  lemma {:induction false} RunOrigins(c: Config, run: seq<Action>)
    requires c.Valid()
    ensures Origins(c, run, After(c, run))
  {
    hide Inv, Perform, Enabled, NodeOrigin, MsgOrigin;
    if run == [] {
      assert After(c, run) == Nothing;
    } else {
      var before, last := run[..|run| - 1], run[|run| - 1];
      RunOrigins(c, before);
      RunOk(c, before);
      StepOrigins(c, before, After(c, before), last);
      assert before + [last] == run;
    }
  }

  // Outcomes

  /** An outcome of a correct node names the request, round and committee of the node's start, votes and
      COMMITs that were sent, and a view the node was in, with the primary it had in that view. */
  lemma OutcomeTraced(c: Config, run: seq<Action>, i: NodeId)
    requires c.Valid() && i in After(c, run).machines && After(c, run).machines[i].outcome.Some?
    ensures i in c.probs && c.probs[i] != [] && StartOf(run, i).Some?
    ensures var n := After(c, run).machines[i];
            && Traced(c, After(c, run).sent, StartOf(run, i).value, n.outcome.value)
            && n.outcome.value.view <= n.view && (n.outcome.value.view == n.view ==> n.outcome.value.primary == n.primary)
  {
    hide After, Traced, ArgMax, StartOf, Stored, Votes, Opened;
    RunOrigins(c, run);
    assert NodeOrigin(c, run, After(c, run), i);
  }

  /** How a COMMIT makes an outcome of what the node holds. */
  ghost predicate Decision(n: Node, m: CommitMsg, o: Outcome) {
    && n.phase == COMMIT && m.view == n.view && m.seqNo == n.seqNo && Some(m.cls) == n.consensusClass
    && o.requestId == n.requestId && o.cls == m.cls && o.view == n.view && o.seqNo == n.seqNo && o.primary == n.primary
    && o.responses == n.responses && o.electedQuorum == n.electedQuorum
    && |o.commitSignatures| == |n.commits| + 1 >= n.Threshold()
    && o.commitSignatures[|n.commits|] == (m.sender, m.signature)
    && forall k :: 0 <= k < |n.commits| ==>
         n.commits[k].0 != m.sender && o.commitSignatures[k] == (n.commits[k].0, n.commits[k].1.signature)
  }

  /** Only a COMMIT in the COMMIT phase ever sets an outcome. */
  lemma OutcomeStep(n: Node, msg: Msg)
    ensures var later := Handle(n, msg).node;
            later.outcome == n.outcome || (msg.Commit? && later.outcome.Some? && Decision(n, msg.c, later.outcome.value))
  {
    if msg.Commit? {
      hide Scorable;
    } else {
      hide Put, Has, ConsensusClass, MaxNewView, ElectPrimary, Evidence;
    }
  }

  /** Every outcome was decided by one delivery of a COMMIT, and has stayed as it was then. */
  lemma {:induction false} DecidedOnce(c: Config, run: seq<Action>, i: NodeId) returns (k: nat, m: CommitMsg)
    requires i in After(c, run).machines && After(c, run).machines[i].outcome.Some?
    ensures k < |run| && run[k] == Deliver(i, Commit(m)) && i in After(c, run[..k]).machines
    ensures Decision(After(c, run[..k]).machines[i], m, After(c, run).machines[i].outcome.value)
  {
    hide Handle, Decision, StartRound;
    var before, last := run[..|run| - 1], run[|run| - 1];
    var o := After(c, run).machines[i].outcome;
    if i in After(c, before).machines && After(c, before).machines[i].outcome == o {
      k, m := DecidedOnce(c, before, i);
      assert before[..k] == run[..k];
    } else {
      StartsOpen(c, run, i);
      OutcomeStep(After(c, before).machines[i], last.msg);
      k, m := |run| - 1, last.msg.c;
    }
  }

  /** Whoever's outcome has just changed had a message delivered. */
  lemma StartsOpen(c: Config, run: seq<Action>, i: NodeId)
    requires run != [] && i in After(c, run).machines && After(c, run).machines[i].outcome.Some?
    requires var s := After(c, run[..|run| - 1]);
             i !in s.machines || s.machines[i].outcome != After(c, run).machines[i].outcome
    ensures run[|run| - 1].Deliver? && run[|run| - 1].i == i && i in After(c, run[..|run| - 1]).machines
    ensures After(c, run).machines[i] == Handle(After(c, run[..|run| - 1]).machines[i], run[|run| - 1].msg).node
  {
    hide Handle, ArgMax;
  }

  // Timeouts

  /** In every run, a node whose timer runs out asks everybody for the next view, in its own name, exactly
      unless it has decided in the view it is in. */
  lemma TimeoutAsks(c: Config, run: seq<Action>, i: NodeId)
    requires c.Valid() && i in After(c, run).machines
    ensures var n := After(c, run).machines[i]; var e := CheckTimeout(n, true);
            && (e.reply.Broadcast? <==> n.phase != COMMITTED)
            && (n.phase == COMMITTED ==> n.outcome.Some? && n.outcome.value.view == n.view && e == Effect(n, Silent))
            && (e.reply.Broadcast? ==>
                  && e.reply.msg.ViewChange? && e.reply.msg.vc.sender == i && e.reply.msg.vc.newView == n.view + 1
                  && e.reply.msg.vc.view == n.view && e.node.phase == VIEW_CHANGE && e.node.view == n.view)
  {
    hide After, Traced, ArgMax, StartOf, Stored, Votes, Opened, Proposed;
    RunOrigins(c, run);
    assert NodeOrigin(c, run, After(c, run), i);
  }

  /** A round starts from scratch: whatever the machine held before, only its name, fault bound, view, primary
      and committee carry over. */
  lemma StartForgets(n: Node, m: Node, requestId: string, imageHash: string, seqNo: int, probs: seq<real>)
    requires probs != []
    requires m.id == n.id && m.f == n.f && m.view == n.view && m.primary == n.primary && m.electedQuorum == n.electedQuorum
    ensures StartRound(m, requestId, imageHash, seqNo, probs) == StartRound(n, requestId, imageHash, seqNo, probs)
    ensures var s := StartRound(n, requestId, imageHash, seqNo, probs).node;
            s.prepares == [] && s.commits == [] && s.viewChanges == [] && s.consensusClass == None && s.outcome == None
  {
    hide ArgMax;
  }
}
