/** A fault-free round delivered phase by phase: exactly when everybody decides. */
module QoIProgress {
  import opened Collections
  import opened Quality
  import opened QoIProtocol
  import opened QoIRounds

  /** Correct nodes that agree on the class. Every node has its own vector, counts its own rounds, and has
      its own idea of who leads. */
  datatype Round = Round(
    nodes: set<NodeId>, leader: map<NodeId, NodeId>, f: nat, probs: map<NodeId, seq<real>>, cls: int,
    requestId: string, imageHash: string, seqNo: map<NodeId, int>, quorum: set<NodeId>)
  {
    ghost predicate Valid() {
      && f >= 1 && leader.Keys == probs.Keys == seqNo.Keys == nodes
      && forall i | i in nodes :: probs[i] != [] && ArgMax(probs[i]) == cls
    }

    predicate Member(i: NodeId) {
      i in probs && i in leader && i in seqNo && probs[i] != []
    }

    predicate LeadsItself(i: NodeId) {
      Member(i) && leader[i] == i
    }

    /** A node whose leader proposes, in the round that the node counts. */
    predicate Follows(i: NodeId) {
      Member(i) && leader[i] != i && LeadsItself(leader[i]) && seqNo[leader[i]] == seqNo[i]
    }

    /** The nodes that answer a proposal with a PREPARE that counts for node i. */
    function Voters(i: NodeId): set<NodeId>
      requires i in seqNo
    {
      set v | v in nodes && Follows(v) && seqNo[v] == seqNo[i]
    }

    /** Enough voters, all with a vector of the node's own length. */
    ghost predicate Live(i: NodeId)
      requires Valid() && i in nodes
    {
      |Voters(i)| >= 2 * f + 1 && forall v | v in Voters(i) :: |probs[v]| == |probs[i]|
    }

    ghost predicate OneLength() {
      forall i, j | i in probs && j in probs :: |probs[i]| == |probs[j]|
    }

    ghost predicate OneCounter() {
      forall i, j | i in seqNo && j in seqNo :: seqNo[i] == seqNo[j]
    }

    function New(i: NodeId): Node
      requires i in leader
    {
      NewNode(i, leader[i], f, quorum)
    }

    function Started(i: NodeId): Node
      requires Member(i)
    {
      StartRound(New(i), requestId, imageHash, seqNo[i], probs[i]).node
    }

    function Proposal(i: NodeId): PrePrepareMsg
      requires Member(i)
    {
      PrePrepareMsg(0, seqNo[i], i, requestId, imageHash, Response(ArgMax(probs[i]), probs[i]))
    }

    /** A node once all proposals have reached it. */
    function Heard(i: NodeId): Node
      requires Member(i)
    {
      if Follows(i) then Handle(Started(i), PrePrepare(Proposal(leader[i]))).node else Started(i)
    }

    function PrepareOf(i: NodeId): Msg
      requires Member(i)
    {
      Prepare(PrepareMsg(0, seqNo[i], i, requestId, Response(cls, probs[i])))
    }

    function CommitOf(i: NodeId): Msg
      requires i in seqNo
    {
      Commit(CommitMsg(0, seqNo[i], i, requestId, cls, ""))
    }

    /** Node i receives only messages sent in a phase, and all those of the other nodes: any
        order, any repetition, its own included or not. */
    ghost predicate Complete(i: NodeId, order: seq<Msg>, sent: set<Msg>) {
      && (forall k :: 0 <= k < |order| ==> order[k] in sent)
      && forall m | m in sent && m.Sender() != i :: m in order
    }
  }

  /** What each node receives in each phase. */
  datatype Delivery = Delivery(
    proposals: map<NodeId, seq<Msg>>, prepares: map<NodeId, seq<Msg>>, commits: map<NodeId, seq<Msg>>)

  function Proposals(r: Round): set<Msg> {
    set i | i in r.nodes && r.LeadsItself(i) :: PrePrepare(r.Proposal(i))
  }

  function AfterProposals(r: Round, d: Delivery, i: NodeId): Node
    requires r.Member(i) && i in d.proposals
  {
    Feed(r.Started(i), d.proposals[i])
  }

  function Prepares(r: Round, d: Delivery): set<Msg> {
    set i, m | i in r.nodes && r.Member(i) && i in d.proposals && m in Emitted(r.Started(i), d.proposals[i]) :: m
  }

  function AfterPrepares(r: Round, d: Delivery, i: NodeId): Node
    requires r.Member(i) && i in d.proposals && i in d.prepares
  {
    Feed(AfterProposals(r, d, i), d.prepares[i])
  }

  function Commits(r: Round, d: Delivery): set<Msg> {
    set i, m | i in r.nodes && r.Member(i) && i in d.proposals && i in d.prepares
               && m in Emitted(AfterProposals(r, d, i), d.prepares[i]) :: m
  }

  function AtTheEnd(r: Round, d: Delivery, i: NodeId): Node
    requires r.Member(i) && i in d.proposals && i in d.prepares && i in d.commits
  {
    Feed(AfterPrepares(r, d, i), d.commits[i])
  }

  /** All phases' messages reach every node, in some order; no node hears its own proposal. */
  ghost predicate Delivered(r: Round, d: Delivery)
    requires r.Valid()
  {
    && d.proposals.Keys == d.prepares.Keys == d.commits.Keys == r.nodes
    && (forall i | i in r.nodes :: r.Complete(i, d.proposals[i], Proposals(r)))
    && (forall i | i in r.nodes :: forall k :: 0 <= k < |d.proposals[i]| ==> d.proposals[i][k].Sender() != i)
    && (forall i | i in r.nodes :: r.Complete(i, d.prepares[i], Prepares(r, d)))
    && (forall i | i in r.nodes :: r.Complete(i, d.commits[i], Commits(r, d)))
  }

  // The proposals

  /** A node that leads itself broadcasts its proposal; every other one waits. */
  lemma Opening(r: Round, i: NodeId)
    requires r.Valid() && i in r.nodes
    ensures StartRound(r.New(i), r.requestId, r.imageHash, r.seqNo[i], r.probs[i]).reply
              == if r.LeadsItself(i) then Broadcast(PrePrepare(r.Proposal(i))) else Silent
  {
    hide ArgMax;
  }

  /** Who follows answers its leader's proposal with its own vote. */
  lemma Answers(r: Round, i: NodeId)
    requires r.Valid() && i in r.nodes && r.Follows(i)
    ensures Handle(r.Started(i), PrePrepare(r.Proposal(r.leader[i]))) == Effect(r.Heard(i), Broadcast(r.PrepareOf(i)))
  {
    hide Handle, StartRound, ArgMax, Gathering, Uniform;
    Joined(r.New(i), r.requestId, r.imageHash, r.seqNo[i], r.probs[i], r.Proposal(r.leader[i]));
  }

  /** What a node is like after the proposals. */
  lemma HeardIs(r: Round, i: NodeId)
    requires r.Valid() && i in r.nodes
    ensures var n := r.Heard(i);
            && Gathering(n, r.cls, if r.Follows(i) then {i} else {})
            && n.view == 0 && n.seqNo == r.seqNo[i] && n.id == i && n.f == r.f && n.requestId == r.requestId
            && ((r.Follows(i) ==> |r.probs[r.leader[i]]| == |r.probs[i]|) ==> Uniform(n, |r.probs[i]|))
  {
    hide Handle, ArgMax, Gathering, Uniform;
    Begun(r.New(i), r.requestId, r.imageHash, r.seqNo[i], r.probs[i]);
    if r.Follows(i) {
      Joined(r.New(i), r.requestId, r.imageHash, r.seqNo[i], r.probs[i], r.Proposal(r.leader[i]));
    }
  }

  /** A proposal that is not for this node, or comes too late, changes nothing. */
  predicate Foreign(n: Node, msg: Msg) {
    msg.PrePrepare? && (n.phase != PRE_PREPARE || msg.pp.sender != n.primary || msg.pp.seqNo != n.seqNo)
  }

  lemma {:induction false} ForeignIgnored(n: Node, msgs: seq<Msg>)
    requires forall k :: 0 <= k < |msgs| ==> Foreign(n, msgs[k])
    ensures Feed(n, msgs) == n && Emitted(n, msgs) == {}
    decreases |msgs|
  {
    if msgs != [] {
      ForeignIgnored(n, msgs[1..]);
    }
  }

  lemma StartedFields(r: Round, i: NodeId)
    requires r.Member(i)
    ensures var n := r.Started(i); n.phase == PRE_PREPARE && n.primary == r.leader[i] && n.seqNo == r.seqNo[i]
  {
    hide ArgMax;
  }

  lemma HeardPhase(r: Round, i: NodeId)
    requires r.Valid() && i in r.nodes && r.Follows(i)
    ensures r.Heard(i).phase == QoIProtocol.PREPARE
  {
    hide StartRound, ArgMax;
    Heard(r.New(i), r.requestId, r.imageHash, r.seqNo[i], r.probs[i], r.Proposal(r.leader[i]));
  }

  lemma {:induction false} ProposalsHeard(r: Round, i: NodeId, order: seq<Msg>)
    requires r.Valid() && i in r.nodes && r.Follows(i)
    requires forall k :: 0 <= k < |order| ==> order[k] in Proposals(r)
    requires PrePrepare(r.Proposal(r.leader[i])) in order
    ensures Feed(r.Started(i), order) == r.Heard(i) && Emitted(r.Started(i), order) == {r.PrepareOf(i)}
    decreases |order|
  {
    hide Handle, Round.Started, Round.Heard, Round.PrepareOf;
    var own := PrePrepare(r.Proposal(r.leader[i]));
    StartedFields(r, i);
    if order[0] == own {
      Answers(r, i);
      HeardPhase(r, i);
      ForeignIgnored(r.Heard(i), order[1..]);
    } else {
      OneForeign(r.Started(i), order[0]);
      ProposalsHeard(r, i, order[1..]);
    }
  }

  lemma OneForeign(n: Node, msg: Msg)
    requires Foreign(n, msg)
    ensures Handle(n, msg) == Effect(n, Silent)
  {}

  lemma AllHeard(r: Round, d: Delivery, i: NodeId)
    requires r.Valid() && i in r.nodes && Delivered(r, d)
    ensures AfterProposals(r, d, i) == r.Heard(i)
    ensures Emitted(r.Started(i), d.proposals[i]) == if r.Follows(i) then {r.PrepareOf(i)} else {}
  {
    hide Handle, Feed, Emitted, StartRound, ArgMax, Round.Started, Round.PrepareOf, Prepares, Commits;
    var order := d.proposals[i];
    if r.Follows(i) {
      assert PrePrepare(r.Proposal(r.leader[i])) in Proposals(r);
      ProposalsHeard(r, i, order);
    } else {
      StartedFields(r, i);
      forall k | 0 <= k < |order| ensures Foreign(r.Started(i), order[k]) {
        assert order[k] in Proposals(r) && order[k].Sender() != i;
      }
      ForeignIgnored(r.Started(i), order);
    }
  }

  // Messages of other rounds

  predicate OfRound(seqNo: int, msg: Msg) {
    (msg.Prepare? && msg.p.seqNo == seqNo) || (msg.Commit? && msg.c.seqNo == seqNo)
  }

  /** The messages that a node with this counter looks at. */
  function Relevant(seqNo: int, msgs: seq<Msg>): (r: seq<Msg>)
    ensures forall m :: m in r <==> m in msgs && OfRound(seqNo, m)
    decreases |msgs|
  {
    if msgs == [] then []
    else (if OfRound(seqNo, msgs[0]) then [msgs[0]] else []) + Relevant(seqNo, msgs[1..])
  }

  lemma VoteStep(n: Node, msg: Msg)
    requires msg.Prepare? || msg.Commit?
    ensures Handle(n, msg).node.seqNo == n.seqNo
    ensures !OfRound(n.seqNo, msg) ==> Handle(n, msg) == Effect(n, Silent)
  {
    hide Put, Has, ConsensusClass, Scorable;
  }

  /** The others might as well not have been sent. */
  lemma {:induction false} OthersIgnored(n: Node, msgs: seq<Msg>)
    requires forall k :: 0 <= k < |msgs| ==> msgs[k].Prepare? || msgs[k].Commit?
    ensures Feed(n, msgs) == Feed(n, Relevant(n.seqNo, msgs)) && Emitted(n, msgs) == Emitted(n, Relevant(n.seqNo, msgs))
    decreases |msgs|
  {
    if msgs != [] {
      hide Handle, OfRound;
      var rest := Relevant(n.seqNo, msgs[1..]);
      VoteStep(n, msgs[0]);
      OthersIgnored(Handle(n, msgs[0]).node, msgs[1..]);
      if OfRound(n.seqNo, msgs[0]) {
        assert ([msgs[0]] + rest)[1..] == rest;
      } else {
        assert [] + rest == rest;
      }
    }
  }

  // The PREPAREs

  /** The PREPAREs on the network are one from each node that follows a leader. */
  lemma PreparesSent(r: Round, d: Delivery)
    requires r.Valid() && Delivered(r, d)
    ensures Prepares(r, d) == set i | i in r.nodes && r.Follows(i) :: r.PrepareOf(i)
  {
    hide Emitted, Delivered, Round.Started, Round.PrepareOf, ArgMax, Round.Follows;
    assert d.proposals.Keys == r.nodes by { Orders(r, d); }
    forall i | i in r.nodes ensures Emitted(r.Started(i), d.proposals[i]) == if r.Follows(i) then {r.PrepareOf(i)} else {} {
      AllHeard(r, d, i);
    }
  }

  lemma Orders(r: Round, d: Delivery)
    requires r.Valid() && Delivered(r, d)
    ensures d.proposals.Keys == d.prepares.Keys == d.commits.Keys == r.nodes
  {}

  /** A node receives the messages of a phase, and all those of the other nodes. */
  lemma Brought(r: Round, d: Delivery, i: NodeId)
    requires r.Valid() && Delivered(r, d) && i in r.nodes
    ensures i in d.prepares && i in d.commits
    ensures forall m :: m in d.prepares[i] ==> m in Prepares(r, d)
    ensures forall m :: m in Prepares(r, d) && m.Sender() != i ==> m in d.prepares[i]
    ensures forall m :: m in d.commits[i] ==> m in Commits(r, d)
    ensures forall m :: m in Commits(r, d) && m.Sender() != i ==> m in d.commits[i]
  {
    hide Prepares, Commits, ArgMax;
    assert r.Complete(i, d.prepares[i], Prepares(r, d)) && r.Complete(i, d.commits[i], Commits(r, d));
  }

  lemma SenderIn(msgs: seq<Msg>, m: Msg)
    requires m in msgs
    ensures m.Sender() in Senders(msgs)
  {
    var k :| 0 <= k < |msgs| && msgs[k] == m;
  }

  /** What a node looks at in the second phase: its voters' PREPAREs, all but perhaps its own. */
  lemma PreparesReach(r: Round, d: Delivery, i: NodeId)
    requires r.Valid() && i in r.nodes && Delivered(r, d)
    ensures forall k :: 0 <= k < |d.prepares[i]| ==> d.prepares[i][k].Prepare?
    ensures var seen := Relevant(r.seqNo[i], d.prepares[i]);
            && (forall k :: 0 <= k < |seen| ==> seen[k].Sender() in r.Voters(i) && seen[k] == r.PrepareOf(seen[k].Sender()))
            && r.Voters(i) - {i} <= Senders(seen)
  {
    hide Prepares, Senders, ArgMax, Delivered, Round.Follows;
    PreparesSent(r, d);
    Brought(r, d, i);
    var order, seen := d.prepares[i], Relevant(r.seqNo[i], d.prepares[i]);
    forall k | 0 <= k < |order| ensures order[k].Prepare? {
      assert order[k] in order;
    }
    forall k | 0 <= k < |seen| ensures seen[k].Sender() in r.Voters(i) && seen[k] == r.PrepareOf(seen[k].Sender()) {
      assert seen[k] in seen;
    }
    forall v | v in r.Voters(i) - {i} ensures v in Senders(seen) {
      assert r.PrepareOf(v) in Prepares(r, d);
      SenderIn(seen, r.PrepareOf(v));
    }
  }

  /** After its voters' PREPAREs a live node has moved to COMMIT and broadcast exactly one COMMIT. */
  lemma SecondPhase(r: Round, d: Delivery, i: NodeId)
    requires r.Valid() && i in r.nodes && r.Live(i) && Delivered(r, d)
    requires r.Follows(i) ==> |r.probs[r.leader[i]]| == |r.probs[i]|
    ensures var n := AfterPrepares(r, d, i);
            && Committing(n, r.cls, {i}) && Uniform(n, |r.probs[i]|) && SameRound(r.Heard(i), n)
            && Emitted(AfterProposals(r, d, i), d.prepares[i]) == {r.CommitOf(i)}
  {
    hide Senders, Gathering, Committing, Uniform, Feed, Emitted, Prepares, Commits, Delivered, ArgMax, Round.Heard,
         Round.Voters, Round.Started;
    Orders(r, d);
    AllHeard(r, d, i);
    HeardIs(r, i);
    PreparesReach(r, d, i);
    var n, seen := r.Heard(i), Relevant(r.seqNo[i], d.prepares[i]);
    OthersIgnored(n, d.prepares[i]);
    var own: set<NodeId> := if r.Follows(i) then {i} else {};
    OwnVoter(r, i);
    SubsetSize(r.Voters(i), own + Senders(seen));
    VotesFit(r, i, seen);
    GatherAll(n, seen, r.cls, own, |r.probs[i]|);
  }

  lemma OwnVoter(r: Round, i: NodeId)
    requires r.Valid() && i in r.nodes
    ensures i in r.Voters(i) <==> r.Follows(i)
  {
    hide ArgMax;
  }

  lemma VotesFit(r: Round, i: NodeId, seen: seq<Msg>)
    requires r.Valid() && i in r.nodes && r.Live(i)
    requires forall k :: 0 <= k < |seen| ==> seen[k].Sender() in r.Voters(i) && seen[k] == r.PrepareOf(seen[k].Sender())
    ensures var n := r.Heard(i); forall k :: 0 <= k < |seen| ==> PrepareFor(n, seen[k], r.cls, |r.probs[i]|)
  {
    hide ArgMax, Gathering, Uniform, Round.Heard;
    HeardIs(r, i);
  }

  // The COMMITs

  /** When all nodes are live, the COMMITs on the network are one from each, for the common class. */
  lemma CommitsSent(r: Round, d: Delivery)
    requires r.Valid() && Delivered(r, d) && forall i | i in r.nodes :: r.Live(i)
    ensures Commits(r, d) == set i | i in r.nodes :: r.CommitOf(i)
  {
    hide Emitted, Feed, Committing, Uniform, SameRound, Delivered, Round.Live, ArgMax, AfterProposals, Round.CommitOf;
    Orders(r, d);
    forall i | i in r.nodes ensures Emitted(AfterProposals(r, d, i), d.prepares[i]) == {r.CommitOf(i)} {
      LeaderAsLong(r, i);
      SecondPhase(r, d, i);
    }
  }

  /** A leader has its followers' length when it is live. */
  lemma LeaderAsLong(r: Round, i: NodeId)
    requires r.Valid() && i in r.nodes && forall j | j in r.nodes :: r.Live(j)
    ensures r.Follows(i) ==> |r.probs[r.leader[i]]| == |r.probs[i]|
  {
    hide ArgMax;
    if r.Follows(i) {
      assert i in r.Voters(r.leader[i]) && r.Live(r.leader[i]);
    }
  }

  lemma CommitsReach(r: Round, d: Delivery, i: NodeId)
    requires r.Valid() && i in r.nodes && Delivered(r, d) && forall j | j in r.nodes :: r.Live(j)
    ensures forall k :: 0 <= k < |d.commits[i]| ==> d.commits[i][k].Commit?
    ensures var seen := Relevant(r.seqNo[i], d.commits[i]);
            && (forall k :: 0 <= k < |seen| ==> exists j :: j in r.nodes && seen[k] == r.CommitOf(j) && r.seqNo[j] == r.seqNo[i])
            && r.Voters(i) <= {i} + Senders(seen)
  {
    hide Commits, Senders, ArgMax, Delivered, Round.Live, Round.Follows;
    CommitsSent(r, d);
    Brought(r, d, i);
    var order, seen := d.commits[i], Relevant(r.seqNo[i], d.commits[i]);
    forall k | 0 <= k < |order| ensures order[k].Commit? {
      assert order[k] in order;
    }
    forall k | 0 <= k < |seen| ensures exists j :: j in r.nodes && seen[k] == r.CommitOf(j) && r.seqNo[j] == r.seqNo[i] {
      assert seen[k] in seen;
    }
    forall v | v in r.Voters(i) && v != i ensures v in Senders(seen) {
      assert r.CommitOf(v) in Commits(r, d);
      SenderIn(seen, r.CommitOf(v));
    }
  }

  lemma CommitsFit(r: Round, n: Node, i: NodeId, seen: seq<Msg>)
    requires i in r.seqNo && r.nodes == r.seqNo.Keys && n.view == 0 && n.seqNo == r.seqNo[i]
    requires forall k :: 0 <= k < |seen| ==> exists j :: j in r.nodes && seen[k] == r.CommitOf(j) && r.seqNo[j] == r.seqNo[i]
    ensures forall k :: 0 <= k < |seen| ==> CommitFor(n, seen[k], r.cls)
  {}

  /** Progress: whatever order each node receives the phases' messages in, every node of a fault-free
      round of live nodes commits on the common class, although leaders send no PREPARE. */
  lemma LockStepProgress(r: Round, d: Delivery, i: NodeId)
    requires r.Valid() && Delivered(r, d) && i in r.nodes && forall j | j in r.nodes :: r.Live(j)
    ensures Done(AtTheEnd(r, d, i), r.cls)
    ensures var o := AtTheEnd(r, d, i).outcome;
            o.Some? && o.value.primary == r.leader[i] && o.value.view == 0 && o.value.seqNo == r.seqNo[i]
            && o.value.requestId == r.requestId && o.value.electedQuorum == r.quorum
  {
    OutcomeNames(r, d, i);
    DoneOutcome(AtTheEnd(r, d, i), r.cls);
    hide Committing, Gathering, Uniform, Done, Senders, Feed, Emitted, ArgMax, Delivered, Round.Heard, Round.Voters,
         AfterPrepares, Commits, Prepares, Relevant, CommitFor;
    Orders(r, d);
    LeaderAsLong(r, i);
    HeardIs(r, i);
    SecondPhase(r, d, i);
    CommitsReach(r, d, i);
    var n, seen := AfterPrepares(r, d, i), Relevant(r.seqNo[i], d.commits[i]);
    OthersIgnored(n, d.commits[i]);
    SubsetSize(r.Voters(i), {i} + Senders(seen));
    CommitsFit(r, n, i, seen);
    CommitAll(n, seen, r.cls, {i}, |r.probs[i]|);
  }

  /** What the phases leave alone, and what an outcome repeats. */
  ghost predicate Named(r: Round, i: NodeId, n: Node)
    requires r.Member(i)
  {
    && n.primary == r.leader[i] && n.view == 0 && n.seqNo == r.seqNo[i] && n.requestId == r.requestId && n.electedQuorum == r.quorum
    && (n.outcome.Some? ==>
          var o := n.outcome.value;
          o.primary == r.leader[i] && o.view == 0 && o.seqNo == r.seqNo[i] && o.requestId == r.requestId && o.electedQuorum == r.quorum)
  }

  lemma {:induction false} StaysNamed(r: Round, i: NodeId, n: Node, msgs: seq<Msg>)
    requires r.Member(i) && Named(r, i, n)
    requires forall k :: 0 <= k < |msgs| ==> msgs[k].PrePrepare? || msgs[k].Prepare? || msgs[k].Commit?
    ensures Named(r, i, Feed(n, msgs))
    decreases |msgs|
  {
    hide Put, Has, GetOr, ConsensusClass, Scorable;
    if msgs != [] {
      StaysNamed(r, i, Handle(n, msgs[0]).node, msgs[1..]);
    }
  }

  lemma StartsNamed(r: Round, i: NodeId)
    requires r.Member(i)
    ensures Named(r, i, r.Started(i))
  {
    hide ArgMax;
  }

  lemma OutcomeNames(r: Round, d: Delivery, i: NodeId)
    requires r.Valid() && Delivered(r, d) && i in r.nodes
    ensures i in d.proposals && i in d.prepares && i in d.commits && Named(r, i, AtTheEnd(r, d, i))
  {
    hide Feed, Emitted, ArgMax, Round.Started, Named, Prepares, Commits;
    StartsNamed(r, i);
    forall k | 0 <= k < |d.proposals[i]| ensures d.proposals[i][k].PrePrepare? {
      assert d.proposals[i][k] in Proposals(r);
    }
    StaysNamed(r, i, r.Started(i), d.proposals[i]);
    PreparesReach(r, d, i);
    StaysNamed(r, i, AfterProposals(r, d, i), d.prepares[i]);
    CommitsCommit(r, d, i);
    StaysNamed(r, i, AfterPrepares(r, d, i), d.commits[i]);
  }

  lemma DoneOutcome(n: Node, cls: int)
    ensures Done(n, cls) ==> n.outcome.Some?
  {}

  // Too few voters

  /** A node that has stored PREPAREs of voters only, who are not enough. */
  ghost predicate Waiting(n: Node, voters: set<NodeId>) {
    && n.phase in {PRE_PREPARE, QoIProtocol.PREPARE} && |voters| < n.Threshold()
    && Distinct(n.prepares) && Keys(n.prepares) <= voters && n.outcome == None
  }

  lemma WaitingStep(n: Node, msg: Msg, voters: set<NodeId>)
    requires Waiting(n, voters) && ((msg.Prepare? && msg.Sender() in voters) || msg.Commit?)
    ensures Waiting(Handle(n, msg).node, voters)
  {
    hide Put, Has, ConsensusClass, Keys, Distinct;
    if msg.Prepare? {
      PutAll(n.prepares, msg.p.sender, msg.p);
      SubsetSize(Keys(n.prepares) + {msg.p.sender}, voters);
    }
  }

  lemma {:induction false} WaitsForever(n: Node, msgs: seq<Msg>, voters: set<NodeId>)
    requires Waiting(n, voters)
    requires forall k :: 0 <= k < |msgs| ==> (msgs[k].Prepare? && msgs[k].Sender() in voters) || msgs[k].Commit?
    ensures Waiting(Feed(n, msgs), voters)
    decreases |msgs|
  {
    hide Waiting, Handle;
    if msgs != [] {
      WaitingStep(n, msgs[0], voters);
      WaitsForever(Handle(n, msgs[0]).node, msgs[1..], voters);
    }
  }

  /** PREPAREs only ever make a node broadcast COMMITs. */
  lemma {:induction false} OnlyCommits(n: Node, msgs: seq<Msg>, m: Msg)
    requires forall k :: 0 <= k < |msgs| ==> msgs[k].Prepare?
    requires m in Emitted(n, msgs)
    ensures m.Commit? && m.c.seqNo == n.seqNo
    decreases |msgs|
  {
    hide Put, Has, ConsensusClass;
    var e := Handle(n, msgs[0]);
    if m in Emitted(e.node, msgs[1..]) {
      OnlyCommits(e.node, msgs[1..], m);
    }
  }

  lemma CommitsCommit(r: Round, d: Delivery, i: NodeId)
    requires r.Valid() && Delivered(r, d) && i in r.nodes
    ensures forall k :: 0 <= k < |d.commits[i]| ==>
              d.commits[i][k].Commit? && exists j :: j in r.nodes && d.commits[i][k].c.seqNo == r.seqNo[j]
                                                     && d.commits[i][k] in Emitted(r.Heard(j), d.prepares[j])
  {
    hide Emitted, Feed, Prepares, Round.Heard, ArgMax, AfterProposals;
    forall k | 0 <= k < |d.commits[i]|
      ensures d.commits[i][k].Commit? && exists j :: j in r.nodes && d.commits[i][k].c.seqNo == r.seqNo[j]
                                                    && d.commits[i][k] in Emitted(r.Heard(j), d.prepares[j])
    {
      var m := d.commits[i][k];
      assert m in Commits(r, d);
      var j :| j in r.nodes && m in Emitted(AfterProposals(r, d, j), d.prepares[j]);
      AllHeard(r, d, j);
      PreparesReach(r, d, j);
      HeardSeq(r, j);
      OnlyCommits(r.Heard(j), d.prepares[j], m);
    }
  }

  lemma HeardSeq(r: Round, j: NodeId)
    requires r.Valid() && j in r.nodes
    ensures r.Heard(j).seqNo == r.seqNo[j]
  {
    hide Round.Heard, ArgMax;
    HeardIs(r, j);
  }

  lemma GatheringWaits(n: Node, cls: int, seen: set<NodeId>, voters: set<NodeId>)
    requires Gathering(n, cls, seen) && seen <= voters && |voters| < n.Threshold()
    ensures Waiting(n, voters)
  {}

  /** With too few voters a node never gets an outcome. */
  lemma FewVotersStall(r: Round, d: Delivery, i: NodeId)
    requires r.Valid() && Delivered(r, d) && i in r.nodes && |r.Voters(i)| < 2 * r.f + 1
    ensures AtTheEnd(r, d, i).outcome == None
  {
    hide Gathering, Waiting, Feed, Emitted, Delivered, ArgMax, Round.Heard, Round.Voters;
    Orders(r, d);
    AllHeard(r, d, i);
    HeardIs(r, i);
    OwnVoter(r, i);
    GatheringWaits(r.Heard(i), r.cls, if r.Follows(i) then {i} else {}, r.Voters(i));
    PreparesReach(r, d, i);
    OthersIgnored(r.Heard(i), d.prepares[i]);
    WaitsForever(r.Heard(i), Relevant(r.seqNo[i], d.prepares[i]), r.Voters(i));
    CommitsCommit(r, d, i);
    WaitsForever(AfterPrepares(r, d, i), d.commits[i], r.Voters(i));
    WaitingOpen(AtTheEnd(r, d, i), r.Voters(i));
  }

  lemma WaitingOpen(n: Node, voters: set<NodeId>)
    requires Waiting(n, voters)
    ensures n.outcome == None
  {}

  // Vectors of different lengths

  /** A node that has recorded agreeing votes of different lengths, its own and another one. */
  ghost predicate Stuck(r: Round, i: NodeId, j: NodeId, n: Node)
    requires i in r.probs && j in r.probs
  {
    && Has(n.responses, i) && Get(n.responses, i) == Response(r.cls, r.probs[i])
    && Has(n.responses, j) && Get(n.responses, j) == Response(r.cls, r.probs[j])
    && |r.probs[i]| != |r.probs[j]|
    && (forall k :: 0 <= k < |n.prepares| ==> n.prepares[k].1.response.cls == r.cls)
    && (n.consensusClass.Some? ==> n.consensusClass == Some(r.cls)) && n.outcome == None
  }

  /** A PREPARE with its sender's own vote, or any COMMIT. */
  predicate Fits(r: Round, msg: Msg) {
    msg.Commit? || (msg.Prepare? && msg.p.sender in r.probs && msg.p.response == Response(r.cls, r.probs[msg.p.sender]))
  }

  /** Scoring raises on what such a node has recorded. */
  lemma NeverScorable(r: Round, i: NodeId, j: NodeId, n: Node)
    requires i in r.probs && j in r.probs && Stuck(r, i, j, n)
    ensures !Scorable(n.responses, r.cls)
  {
    var x, y := IndexOf(n.responses, i), IndexOf(n.responses, j);
    assert n.responses[x].1.cls == r.cls == n.responses[y].1.cls;
    assert |n.responses[x].1.probs| != |n.responses[y].1.probs|;
    assert x < y || y < x;
  }

  lemma StuckStep(r: Round, i: NodeId, j: NodeId, n: Node, msg: Msg)
    requires i in r.probs && j in r.probs && Stuck(r, i, j, n) && Fits(r, msg)
    ensures Stuck(r, i, j, Handle(n, msg).node)
  {
    if msg.Prepare? {
      StuckPrepare(r, i, j, n, msg.p);
    } else {
      hide Put, Has, Get, Scorable;
      NeverScorable(r, i, j, n);
    }
  }

  lemma StuckPrepare(r: Round, i: NodeId, j: NodeId, n: Node, m: PrepareMsg)
    requires i in r.probs && j in r.probs && Stuck(r, i, j, n) && Fits(r, Prepare(m))
    ensures Stuck(r, i, j, HandlePrepare(n, m).node)
  {
    hide ConsensusClass, Put, Has, Get;
    var prepares := Put(n.prepares, m.sender, m);
    PutGet(n.responses, m.sender, m.response);
    StoredClass(n.prepares, m, r.cls);
    var winner := ConsensusClass(prepares, n.Threshold());
    if winner.Some? { WinnerIs(prepares, n.Threshold(), r.cls); }
  }

  lemma StoredClass(prepares: Dict<NodeId, PrepareMsg>, m: PrepareMsg, cls: int)
    requires m.response.cls == cls && forall k :: 0 <= k < |prepares| ==> prepares[k].1.response.cls == cls
    ensures var p := Put(prepares, m.sender, m); forall k :: 0 <= k < |p| ==> p[k].1.response.cls == cls
  {}

  lemma WinnerIs(prepares: Dict<NodeId, PrepareMsg>, threshold: nat, cls: int)
    requires forall k :: 0 <= k < |prepares| ==> prepares[k].1.response.cls == cls
    requires ConsensusClass(prepares, threshold).Some?
    ensures ConsensusClass(prepares, threshold) == Some(cls)
  {}

  lemma {:induction false} StuckForever(r: Round, i: NodeId, j: NodeId, n: Node, msgs: seq<Msg>)
    requires i in r.probs && j in r.probs && Stuck(r, i, j, n)
    requires forall k :: 0 <= k < |msgs| ==> Fits(r, msgs[k])
    ensures Stuck(r, i, j, Feed(n, msgs))
    decreases |msgs|
  {
    hide Stuck, Handle, Fits;
    if msgs != [] {
      StuckStep(r, i, j, n, msgs[0]);
      StuckForever(r, i, j, Handle(n, msgs[0]).node, msgs[1..]);
    }
  }

  lemma StuckOpen(r: Round, i: NodeId, j: NodeId, n: Node)
    requires i in r.probs && j in r.probs && Stuck(r, i, j, n)
    ensures n.outcome == None
  {}

  /** A follower whose vector is not as long as its leader's is stuck from the start. */
  lemma HeardStuck(r: Round, i: NodeId)
    requires r.Valid() && i in r.nodes && r.Follows(i) && |r.probs[i]| != |r.probs[r.leader[i]]|
    ensures Stuck(r, i, r.leader[i], r.Heard(i))
  {
    hide ArgMax, Handle, StartRound;
    Joined(r.New(i), r.requestId, r.imageHash, r.seqNo[i], r.probs[i], r.Proposal(r.leader[i]));
    var n := r.Heard(i);
    assert n.responses[0].0 == i && n.responses[1].0 == r.leader[i];
    assert IndexOf(n.responses, i) == 0 && IndexOf(n.responses, r.leader[i]) == 1;
  }

  lemma AllFit(r: Round, d: Delivery, i: NodeId)
    requires r.Valid() && Delivered(r, d) && i in r.nodes
    ensures forall k :: 0 <= k < |d.prepares[i]| ==> Fits(r, d.prepares[i][k])
    ensures forall k :: 0 <= k < |d.commits[i]| ==> Fits(r, d.commits[i][k])
  {
    hide Emitted, Prepares, Commits, ArgMax, Round.Heard;
    PreparesSent(r, d);
    CommitsCommit(r, d, i);
    forall k | 0 <= k < |d.prepares[i]| ensures Fits(r, d.prepares[i][k]) {
      assert d.prepares[i][k] in Prepares(r, d);
    }
  }

  /** A node with too few voters, and a follower whose vector is not as long as its leader's, never
      commits, in whatever order the messages reach it. */
  lemma OthersStall(r: Round, d: Delivery, i: NodeId)
    requires r.Valid() && i in r.nodes && Delivered(r, d)
    requires |r.Voters(i)| < 2 * r.f + 1 || (r.Follows(i) && |r.probs[i]| != |r.probs[r.leader[i]]|)
    ensures AtTheEnd(r, d, i).outcome == None
  {
    hide Stuck, Feed, Emitted, Delivered, Fits, ArgMax, Round.Heard, Round.Voters;
    Orders(r, d);
    if |r.Voters(i)| < 2 * r.f + 1 {
      FewVotersStall(r, d, i);
    } else {
      AllHeard(r, d, i);
      AllFit(r, d, i);
      HeardStuck(r, i);
      StuckForever(r, i, r.leader[i], r.Heard(i), d.prepares[i]);
      StuckForever(r, i, r.leader[i], AfterPrepares(r, d, i), d.commits[i]);
      StuckOpen(r, i, r.leader[i], AtTheEnd(r, d, i));
    }
  }

  lemma SamePrepares(r: Round, d: Delivery, e: Delivery)
    requires d.proposals == e.proposals
    ensures Prepares(r, d) == Prepares(r, e)
  {
    hide Emitted, StartRound;
  }

  lemma SameCommits(r: Round, d: Delivery, e: Delivery)
    requires d.proposals == e.proposals && d.prepares == e.prepares
    ensures Commits(r, d) == Commits(r, e)
  {
    hide Emitted, Feed, StartRound;
    assert forall i | r.Member(i) && i in d.proposals :: AfterProposals(r, d, i) == AfterProposals(r, e, i);
  }

  lemma ListedComplete(r: Round, i: NodeId, sent: set<Msg>)
    ensures r.Complete(i, Listed(sent), sent)
  {}

  /** All COMMITs of the first two phases, in one fixed order to everybody. */
  lemma WithCommits(r: Round, d: Delivery) returns (e: Delivery)
    requires r.Valid() && d.proposals.Keys == d.prepares.Keys == r.nodes
    requires forall i | i in r.nodes :: r.Complete(i, d.proposals[i], Proposals(r))
    requires forall i | i in r.nodes :: forall k :: 0 <= k < |d.proposals[i]| ==> d.proposals[i][k].Sender() != i
    requires forall i | i in r.nodes :: r.Complete(i, d.prepares[i], Prepares(r, d))
    ensures Delivered(r, e) && e.proposals == d.proposals && e.prepares == d.prepares
  {
    hide Prepares, Commits, Proposals, ArgMax, Round.Complete;
    var sent := Commits(r, d);
    e := d.(commits := map i | i in r.nodes :: Listed(sent));
    SamePrepares(r, d, e);
    SameCommits(r, d, e);
    forall i | i in r.nodes ensures r.Complete(i, e.commits[i], Commits(r, e)) {
      ListedComplete(r, i, sent);
    }
  }

  lemma ProposalsComplete(r: Round, i: NodeId)
    ensures var others := Listed(set m | m in Proposals(r) && m.Sender() != i);
            r.Complete(i, others, Proposals(r)) && forall k :: 0 <= k < |others| ==> others[k].Sender() != i
  {
    hide Proposals;
    var others := set m | m in Proposals(r) && m.Sender() != i;
    forall k | 0 <= k < |Listed(others)| ensures Listed(others)[k] in others {
      assert Listed(others)[k] in Listed(others);
    }
  }

  lemma SomeDelivery(r: Round) returns (d: Delivery)
    requires r.Valid()
    ensures Delivered(r, d)
  {
    hide Prepares, Proposals, ArgMax, Round.Complete;
    d := Delivery(map i | i in r.nodes :: Listed(set m | m in Proposals(r) && m.Sender() != i), map[], map[]);
    var sent := Prepares(r, d);
    var e := d.(prepares := map i | i in r.nodes :: Listed(sent));
    SamePrepares(r, d, e);
    forall i | i in r.nodes
      ensures r.Complete(i, e.proposals[i], Proposals(r)) && r.Complete(i, e.prepares[i], sent)
      ensures forall k :: 0 <= k < |e.proposals[i]| ==> e.proposals[i][k].Sender() != i
    {
      ProposalsComplete(r, i);
      ListedComplete(r, i, sent);
    }
    d := WithCommits(r, e);
  }

  lemma PrefixComplete(r: Round, i: NodeId, order: seq<Msg>, sent: set<Msg>, m: Msg)
    requires r.Complete(i, order, sent) && m in sent
    ensures r.Complete(i, [m] + order, sent)
  {}

  lemma DeliveredParts(r: Round, d: Delivery, i: NodeId)
    requires r.Valid() && Delivered(r, d) && i in r.nodes
    ensures i in d.proposals && i in d.prepares && r.Complete(i, d.proposals[i], Proposals(r))
    ensures r.Complete(i, d.prepares[i], Prepares(r, d))
    ensures forall k :: 0 <= k < |d.proposals[i]| ==> d.proposals[i][k].Sender() != i
  {}

  /** A node may receive any of the PREPAREs first. */
  lemma StartingWith(r: Round, d: Delivery, i: NodeId, m: Msg) returns (e: Delivery)
    requires r.Valid() && Delivered(r, d) && i in r.nodes && m in Prepares(r, d)
    ensures Delivered(r, e) && i in e.prepares && i in d.prepares && e.prepares[i] == [m] + d.prepares[i]
  {
    hide Prepares, Commits, Proposals, ArgMax, Delivered, Round.Complete;
    Orders(r, d);
    var first := d.(prepares := d.prepares[i := [m] + d.prepares[i]]);
    SamePrepares(r, d, first);
    forall j | j in r.nodes
      ensures r.Complete(j, first.proposals[j], Proposals(r)) && r.Complete(j, first.prepares[j], Prepares(r, first))
      ensures forall k :: 0 <= k < |first.proposals[j]| ==> first.proposals[j][k].Sender() != j
    {
      DeliveredParts(r, d, j);
      if j == i { PrefixComplete(r, i, d.prepares[i], Prepares(r, d), m); }
    }
    e := WithCommits(r, first);
  }

  lemma OwnRecorded(r: Round, i: NodeId)
    requires r.Valid() && i in r.nodes
    ensures var n := r.Heard(i); Has(n.responses, i) && Get(n.responses, i) == Response(r.cls, r.probs[i])
  {
    hide Handle, ArgMax;
    if r.Follows(i) {
      Joined(r.New(i), r.requestId, r.imageHash, r.seqNo[i], r.probs[i], r.Proposal(r.leader[i]));
      assert r.Heard(i).responses[0].0 == i;
    }
  }

  /** Another voter's PREPARE that comes first is stored before anything is settled. */
  lemma FirstVote(r: Round, i: NodeId, v: NodeId)
    requires r.Valid() && i in r.nodes && v in r.Voters(i) && |r.probs[v]| != |r.probs[i]|
    ensures Stuck(r, i, v, Handle(r.Heard(i), r.PrepareOf(v)).node)
  {
    hide ConsensusClass, Put, Has, Get, ArgMax, Round.Heard, Keys, Distinct;
    HeardIs(r, i);
    OwnRecorded(r, i);
    var n, m := r.Heard(i), r.PrepareOf(v).p;
    PutAll(n.prepares, v, m);
    PutGet(n.responses, v, m.response);
    StoredClass(n.prepares, m, r.cls);
    SubsetSize(Keys(n.prepares) + {v}, {i, v});
  }

  /** A node and a voter of its with vectors of different lengths: some order of the messages keeps the
      node from committing. */
  lemma SomeOrderStalls(r: Round, i: NodeId, v: NodeId) returns (d: Delivery)
    requires r.Valid() && i in r.nodes && v in r.Voters(i) && |r.probs[v]| != |r.probs[i]|
    ensures Delivered(r, d) && AtTheEnd(r, d, i).outcome == None
  {
    hide Stuck, Handle, Emitted, Delivered, Fits, ArgMax, Round.Heard, Round.PrepareOf;
    d := SomeDelivery(r);
    PreparesSent(r, d);
    d := StartingWith(r, d, i, r.PrepareOf(v));
    Orders(r, d);
    AllHeard(r, d, i);
    AllFit(r, d, i);
    FirstVote(r, i, v);
    var n, rest := Handle(r.Heard(i), r.PrepareOf(v)).node, d.prepares[i][1..];
    StuckForever(r, i, v, n, rest);
    assert AfterPrepares(r, d, i) == Feed(n, rest);
    StuckForever(r, i, v, AfterPrepares(r, d, i), d.commits[i]);
    StuckOpen(r, i, v, AtTheEnd(r, d, i));
  }

  // The exact condition

  /** Every node commits on the common class, in whatever order the messages arrive. */
  ghost predicate AlwaysCommits(r: Round)
    requires r.Valid()
  {
    forall d: Delivery, i | Delivered(r, d) && i in r.nodes :: Done(AtTheEnd(r, d, i), r.cls)
  }

  lemma NotDone(n: Node, cls: int)
    requires n.outcome == None
    ensures !Done(n, cls)
  {}

  /** Fault-free lock-step progress holds exactly when every node has 2f+1 voters, all with a vector of
      its own length. */
  lemma ProgressExactly(r: Round)
    requires r.Valid()
    ensures AlwaysCommits(r) <==> forall i | i in r.nodes :: r.Live(i)
  {
    hide Done, Round.Complete, AtTheEnd, Round.Voters, ArgMax;
    if forall i | i in r.nodes :: r.Live(i) {
      forall d: Delivery, i | Delivered(r, d) && i in r.nodes ensures Done(AtTheEnd(r, d, i), r.cls) {
        LockStepProgress(r, d, i);
      }
    } else {
      var i :| i in r.nodes && !r.Live(i);
      var d := NotLiveStalls(r, i);
      NotDone(AtTheEnd(r, d, i), r.cls);
    }
  }

  lemma NotLiveStalls(r: Round, i: NodeId) returns (d: Delivery)
    requires r.Valid() && i in r.nodes && !r.Live(i)
    ensures Delivered(r, d) && i in d.proposals && i in d.prepares && i in d.commits && AtTheEnd(r, d, i).outcome == None
  {
    hide Delivered, AtTheEnd, ArgMax, Round.Follows;
    if |r.Voters(i)| < 2 * r.f + 1 {
      d := SomeDelivery(r);
      FewVotersStall(r, d, i);
    } else {
      var v :| v in r.Voters(i) && |r.probs[v]| != |r.probs[i]|;
      d := SomeOrderStalls(r, i, v);
    }
    Orders(r, d);
  }

  // Few nodes, and one leader

  function Followers(r: Round): set<NodeId> {
    set i | i in r.nodes && r.Follows(i)
  }

  /** Two live nodes among at most 4f+1 count alike: they share a voter. */
  lemma LiveCountAlike(r: Round, i: NodeId, j: NodeId)
    requires r.Valid() && i in r.nodes && j in r.nodes && r.Live(i) && r.Live(j) && |r.nodes| <= 4 * r.f + 1
    ensures r.seqNo[i] == r.seqNo[j]
  {
    hide ArgMax, Round.Follows;
    var a, b := r.Voters(i), r.Voters(j);
    assert a + b <= r.nodes && |a + b| == |a| + |b| - |a * b|;
    SubsetSize(a + b, r.nodes);
    var v :| v in a * b;
  }

  /** Among at most 4f+1 nodes, whoever they follow: exactly when all vectors have one length, all
      counters stand alike, and 2f+1 nodes follow a leader. */
  lemma FewNodesExactly(r: Round)
    requires r.Valid() && 1 <= |r.nodes| <= 4 * r.f + 1
    ensures AlwaysCommits(r) <==> r.OneLength() && r.OneCounter() && |Followers(r)| >= 2 * r.f + 1
  {
    hide AlwaysCommits, ArgMax, Round.Follows;
    ProgressExactly(r);
    if AlwaysCommits(r) {
      forall i, j | i in r.nodes && j in r.nodes ensures r.seqNo[i] == r.seqNo[j] {
        LiveCountAlike(r, i, j);
      }
      AlikeVoters(r);
      forall i, j | i in r.nodes && j in r.nodes ensures |r.probs[i]| == |r.probs[j]| {
        assert r.Live(i) && r.Live(j);
        var v :| v in Followers(r);
      }
    } else if r.OneCounter() {
      AlikeVoters(r);
    }
  }

  lemma AlikeVoters(r: Round)
    requires r.Valid() && r.OneCounter()
    ensures forall i | i in r.nodes :: r.Voters(i) == Followers(r)
  {
    hide ArgMax, Round.Follows;
  }

  /** With one leader among them all others follow, so vectors and counters decide. */
  lemma OneLeaderExactly(r: Round, leader: NodeId)
    requires r.Valid() && leader in r.nodes && 2 * r.f + 2 <= |r.nodes| <= 4 * r.f + 1
    requires forall i | i in r.nodes :: r.leader[i] == leader
    ensures AlwaysCommits(r) <==> r.OneLength() && r.OneCounter()
  {
    hide AlwaysCommits, ArgMax;
    FewNodesExactly(r);
    if r.OneCounter() {
      assert Followers(r) == r.nodes - {leader};
    }
  }

  // A node that counts alone

  /** No message of the round changes a node whose counter is nobody else's. */
  lemma AloneIgnores(r: Round, d: Delivery, i: NodeId)
    requires r.Valid() && Delivered(r, d) && i in r.nodes
    requires forall j | j in r.nodes && j != i :: r.seqNo[j] != r.seqNo[i]
    ensures AtTheEnd(r, d, i) == r.Started(i)
  {
    hide Feed, Emitted, Prepares, Commits, ArgMax, Round.Started, Round.Heard, Delivered;
    Orders(r, d);
    AllHeard(r, d, i);
    assert !r.Follows(i) && r.Voters(i) == {};
    NotFollowing(r, i);
    HeardSeq(r, i);
    var n := r.Started(i);
    PreparesReach(r, d, i);
    var seen := Relevant(n.seqNo, d.prepares[i]);
    NoneFrom(seen, r.Voters(i));
    OthersIgnored(n, d.prepares[i]);
    NothingFed(n);
    CommitsCommit(r, d, i);
    OwnCommitsOnly(r, d, i);
    OthersIgnored(n, d.commits[i]);
  }

  lemma OwnCommitsOnly(r: Round, d: Delivery, i: NodeId)
    requires r.Valid() && Delivered(r, d) && i in r.nodes
    requires forall j | j in r.nodes && j != i :: r.seqNo[j] != r.seqNo[i]
    ensures Emitted(r.Heard(i), d.prepares[i]) == {} ==> Relevant(r.seqNo[i], d.commits[i]) == []
  {
    hide Emitted, Feed, Commits, ArgMax, Round.Heard;
    CommitsCommit(r, d, i);
    var seen := Relevant(r.seqNo[i], d.commits[i]);
    forall k | 0 <= k < |seen| ensures seen[k] in Emitted(r.Heard(i), d.prepares[i]) {
      assert seen[k] in d.commits[i];
    }
    NoneIn(seen, Emitted(r.Heard(i), d.prepares[i]));
  }

  lemma NoneIn(msgs: seq<Msg>, s: set<Msg>)
    requires forall k :: 0 <= k < |msgs| ==> msgs[k] in s
    ensures s == {} ==> msgs == []
  {
    if msgs != [] { assert msgs[0] in s; }
  }

  lemma NoneFrom(msgs: seq<Msg>, senders: set<NodeId>)
    requires forall k :: 0 <= k < |msgs| ==> msgs[k].Sender() in senders
    ensures senders == {} ==> msgs == []
  {
    if msgs != [] { assert msgs[0].Sender() in senders; }
  }

  lemma NotFollowing(r: Round, i: NodeId)
    requires r.Member(i) && !r.Follows(i)
    ensures r.Heard(i) == r.Started(i)
  {}

  lemma NothingFed(n: Node)
    ensures Feed(n, []) == n && Emitted(n, []) == {}
  {}

  /** Four nodes with one vector and one leader, one of which has sat out a round: it ignores the
      proposal, every PREPARE and every COMMIT, so it never commits. */
  lemma CountersApartStall() returns (r: Round, late: NodeId)
    ensures r.Valid() && r.OneLength() && late in r.nodes && (forall i | i in r.nodes :: r.leader[i] == "a")
    ensures forall d: Delivery | Delivered(r, d) && late in d.proposals && late in d.prepares && late in d.commits ::
              AtTheEnd(r, d, late) == r.Started(late)
    ensures !AlwaysCommits(r)
  {
    hide AlwaysCommits, AtTheEnd, Round.Started, Delivered;
    var nodes: set<NodeId> := {"a", "b", "c", "d"};
    late := "d";
    FourNodes();
    r := Round(nodes, map i | i in nodes :: "a", 1, map i | i in nodes :: [1.0], 0, "", "",
               map i | i in nodes :: if i == "d" then 1 else 2, nodes);
    assert r.seqNo["d"] != r.seqNo["a"];
    OneLeaderExactly(r, "a");
    forall d: Delivery | Delivered(r, d) && late in d.proposals && late in d.prepares && late in d.commits
      ensures AtTheEnd(r, d, late) == r.Started(late)
    {
      AloneIgnores(r, d, late);
    }
  }

  lemma FourNodes()
    ensures |{"a", "b", "c", "d"}| == 4
  {
    assert "a" != "b" && "a" != "c" && "a" != "d" && "b" != "c" && "b" != "d" && "c" != "d";
  }
}
