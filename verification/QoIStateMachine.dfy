/** The per-node machine: its fields are updated in place by the message handlers, and every
    method is proved to do exactly what the handler functions of QoIProtocol say. */
module QoIMachine {
  import opened Collections
  import opened Quality
  import opened QoIProtocol

  class QoIStateMachine {
    const nodeId: NodeId
    const f: nat
    var primaryId: NodeId
    var phase: Phase
    var view: int
    var seqNo: int
    var outcome: Option<Outcome>
    var requestId: string
    var imageHash: string
    var prePrepare: Option<PrePrepareMsg>
    var prepares: Dict<NodeId, PrepareMsg>
    var commits: Dict<NodeId, CommitMsg>
    var viewChanges: Dict<NodeId, ViewChangeMsg>
    var consensusClass: Option<int>
    var nodeResponses: Dict<NodeId, Response>
    var electedQuorum: set<NodeId>

    /** The machine's fields as one value. */
    ghost function State(): Node
      reads this
    {
      Node(nodeId, f, primaryId, phase, view, seqNo, requestId, imageHash, prePrepare, prepares,
           commits, viewChanges, consensusClass, nodeResponses, outcome, electedQuorum)
    }

    constructor (nodeId: NodeId, primaryId: NodeId, f: nat)
      ensures State() == NewNode(nodeId, primaryId, f, {})
    {
      this.nodeId := nodeId;
      this.f := f;
      this.primaryId := primaryId;
      phase, view, seqNo, outcome := IDLE, 0, 0, None;
      requestId, imageHash := "", "";
      prePrepare, consensusClass := None, None;
      prepares, commits, viewChanges := [], [], [];
      nodeResponses := [];
      electedQuorum := {};
    }

    method SetElectedQuorum(nodeIds: set<NodeId>)
      modifies this
      ensures State() == old(State()).(electedQuorum := nodeIds)
    {
      electedQuorum := nodeIds;
    }

    method StartRound(requestId: string, imageHash: string, seqNo: int, ownProbs: seq<real>) returns (r: Reply)
      modifies this
      ensures Effect(State(), r) == QoIProtocol.StartRound(old(State()), requestId, imageHash, seqNo, ownProbs)
    {
      ResetRound(requestId, imageHash, seqNo);
      if ownProbs == [] { return Raised; }
      var ownClass := ArgMax(ownProbs);
      nodeResponses := Put(nodeResponses, nodeId, Response(ownClass, ownProbs));
      phase := PRE_PREPARE;
      if nodeId == primaryId {
        var msg := PrePrepareMsg(view, seqNo, nodeId, requestId, imageHash, Response(ownClass, ownProbs));
        prePrepare := Some(msg);
        return Broadcast(PrePrepare(msg));
      }
      r := Silent;
    }

    method HandleMessage(msg: Msg) returns (r: Reply)
      modifies this
      ensures Effect(State(), r) == Handle(old(State()), msg)
    {
      if msg.View() < view { return Silent; }
      match msg {
        case PrePrepare(m) => r := HandlePrePrepare(m);
        case Prepare(m) => r := HandlePrepare(m);
        case Commit(m) => r := HandleCommit(m);
        case ViewChange(m) => r := HandleViewChange(m);
        case NewView(m) => HandleNewView(m); r := Silent;
      }
    }

    method CheckTimeout(expired: bool) returns (r: Reply)
      modifies this
      ensures Effect(State(), r) == QoIProtocol.CheckTimeout(old(State()), expired)
    {
      if phase == IDLE || phase == COMMITTED || !expired { return Silent; }
      phase := VIEW_CHANGE;
      r := Broadcast(ViewChange(ViewChangeMsg(view, seqNo, nodeId, view + 1, seqNo)));
    }

    method HandlePrePrepare(m: PrePrepareMsg) returns (r: Reply)
      modifies this
      ensures Effect(State(), r) == QoIProtocol.HandlePrePrepare(old(State()), m)
    {
      hide Put, GetOr;
      if phase != PRE_PREPARE || m.sender != primaryId || m.view != view || m.seqNo != seqNo { return Silent; }
      prePrepare := Some(m);
      nodeResponses := Put(nodeResponses, m.sender, m.response);
      phase := PREPARE;
      var own := GetOr(nodeResponses, nodeId, m.response);
      var prepare := PrepareMsg(view, seqNo, nodeId, requestId, own);
      prepares := Put(prepares, nodeId, prepare);
      r := Broadcast(Prepare(prepare));
    }

    method HandlePrepare(m: PrepareMsg) returns (r: Reply)
      modifies this
      ensures Effect(State(), r) == QoIProtocol.HandlePrepare(old(State()), m)
    {
      hide ConsensusClass, Has, Put;
      if phase != PRE_PREPARE && phase != PREPARE { return Silent; }
      if m.view != view || m.seqNo != seqNo { return Silent; }
      if Has(prepares, m.sender) { return Silent; }
      prepares := Put(prepares, m.sender, m);
      nodeResponses := Put(nodeResponses, m.sender, m.response);
      if |prepares| < 2 * f + 1 { return Silent; }
      var cls := ComputeConsensusClass();
      if cls.None? { return Silent; }
      consensusClass := cls;
      phase := COMMIT;
      var commit := CommitMsg(view, seqNo, nodeId, requestId, cls.value, "");
      commits := Put(commits, nodeId, commit);
      r := Broadcast(Commit(commit));
    }

    method HandleCommit(m: CommitMsg) returns (r: Reply)
      modifies this
      ensures Effect(State(), r) == QoIProtocol.HandleCommit(old(State()), m)
    {
      if phase != COMMIT { return Silent; }
      if m.view != view || m.seqNo != seqNo { return Silent; }
      if Has(commits, m.sender) { return Silent; }
      if Some(m.cls) != consensusClass { return Silent; }
      commits := Put(commits, m.sender, m);
      if |commits| < 2 * f + 1 { return Silent; }
      r := FinaliseRound();
    }

    method HandleViewChange(m: ViewChangeMsg) returns (r: Reply)
      modifies this
      ensures Effect(State(), r) == QoIProtocol.HandleViewChange(old(State()), m)
    {
      hide Put, MaxNewView, ElectPrimary, Evidence;
      if m.newView <= view { return Silent; }
      viewChanges := Put(viewChanges, m.sender, m);
      phase := VIEW_CHANGE;
      if |viewChanges| < 2 * f + 1 { return Silent; }
      var newView := MaxNewView(viewChanges);
      var newPrimary := ElectPrimary(viewChanges);
      if newPrimary != nodeId { return Silent; }
      view := newView;
      primaryId := newPrimary;
      phase := PRE_PREPARE;
      r := Broadcast(NewView(NewViewMsg(view, seqNo, nodeId, newView, Evidence(viewChanges))));
    }

    method HandleNewView(m: NewViewMsg)
      modifies this
      ensures Effect(State(), Silent) == QoIProtocol.HandleNewView(old(State()), m)
    {
      if m.newView <= view { return; }
      view := m.newView;
      primaryId := m.sender;
      phase := PRE_PREPARE;
      viewChanges := [];
    }

    method ResetRound(requestId: string, imageHash: string, seqNo: int)
      modifies `requestId, `imageHash, `seqNo, `prePrepare, `prepares, `commits, `viewChanges,
               `consensusClass, `nodeResponses, `outcome
      ensures this.requestId == requestId && this.imageHash == imageHash && this.seqNo == seqNo
      ensures prepares == [] && commits == [] && viewChanges == [] && nodeResponses == []
      ensures prePrepare == None && consensusClass == None && outcome == None
    {
      this.requestId := requestId;
      this.imageHash := imageHash;
      this.seqNo := seqNo;
      prePrepare := None;
      prepares := [];
      commits := [];
      viewChanges := [];
      consensusClass := None;
      nodeResponses := [];
      outcome := None;
    }

    method FinaliseRound() returns (r: Reply)
      modifies this
      ensures Effect(State(), r) == QoIProtocol.FinaliseRound(old(State()))
    {
      var signatures := CommitSignatures(commits);
      if consensusClass.None? || !Scorable(nodeResponses, consensusClass.value) { return Raised; }
      outcome := Some(Outcome(requestId, consensusClass.value, view, seqNo, primaryId,
                              nodeResponses, signatures, electedQuorum));
      phase := COMMITTED;
      r := Silent;
    }

    /** Tallies the PREPAREs class by class, then takes the first class over the threshold. */
    method ComputeConsensusClass() returns (r: Option<int>)
      ensures r == ConsensusClass(prepares, 2 * f + 1)
    {
      hide FirstWinner, FirstVotes, Tallied, Put, GetOr;
      var votes: Dict<int, nat> := [];
      ghost var classes := Classes(prepares);
      NothingTallied(classes[..0]);
      for i := 0 to |prepares|
        invariant Tallied(votes, classes[..i])
      {
        var cls := prepares[i].1.response.cls;
        TallyStep(votes, classes[..i], cls);
        assert classes[..i + 1] == classes[..i] + [cls];
        votes := Put(votes, cls, GetOr(votes, cls, 0) + 1);
      }
      assert classes[..|prepares|] == classes;
      for j := 0 to |votes|
        invariant NoneOver(votes[..j], 2 * f + 1)
      {
        if votes[j].1 >= 2 * f + 1 {
          FirstOverWins(votes, classes, 2 * f + 1, j);
          return Some(votes[j].0);
        }
      }
      assert votes[..|votes|] == votes;
      NoneOverNoWinner(votes, classes, 2 * f + 1, |votes|);
      r := None;
    }
  }

  // The tally loop

  /** The classes in the order of their first votes. */
  ghost function FirstVotes(classes: seq<int>): (r: seq<int>)
    ensures forall c :: c in r <==> c in classes
  {
    if classes == [] then [] else
    var before := classes[..|classes| - 1];
    var last := classes[|classes| - 1];
    assert classes == before + [last];
    if last in before then FirstVotes(before) else FirstVotes(before) + [last]
  }

  ghost predicate Tallied(votes: Dict<int, nat>, classes: seq<int>) {
    && |votes| == |FirstVotes(classes)|
    && forall j :: 0 <= j < |votes| ==>
         votes[j].0 == FirstVotes(classes)[j] && votes[j].1 == multiset(classes)[votes[j].0]
  }

  lemma NothingTallied(classes: seq<int>)
    requires classes == []
    ensures Tallied([], classes)
  {}

  /** Voting once more for a class keeps the tally exact. */
  lemma TallyStep(votes: Dict<int, nat>, before: seq<int>, cls: int)
    requires Tallied(votes, before)
    ensures Tallied(Put(votes, cls, GetOr(votes, cls, 0) + 1), before + [cls])
  {
    hide FirstWinner;
    FirstVotesDistinct(before);
    var j := IndexOf(votes, cls);
    assert (before + [cls])[..|before|] == before;
    assert j < |votes| <==> cls in FirstVotes(before) by {
      if cls in FirstVotes(before) {
        var i :| 0 <= i < |FirstVotes(before)| && FirstVotes(before)[i] == cls;
      }
    }
  }

  ghost predicate NoneOver(votes: Dict<int, nat>, threshold: nat) {
    forall j :: 0 <= j < |votes| ==> votes[j].1 < threshold
  }

  lemma {:induction false} NoneOverNoWinner(votes: Dict<int, nat>, classes: seq<int>, threshold: nat, n: nat)
    requires Tallied(votes, classes) && n <= |votes| && NoneOver(votes[..n], threshold)
    ensures FirstWinner(FirstVotes(classes)[..n], multiset(classes), threshold) == None
    ensures n == |votes| ==> FirstWinner(classes, multiset(classes), threshold) == None
  {
    var order := FirstVotes(classes);
    if n > 0 {
      assert votes[..n][..n - 1] == votes[..n - 1] && votes[..n][n - 1] == votes[n - 1];
      NoneOverNoWinner(votes, classes, threshold, n - 1);
      assert order[..n][..n - 1] == order[..n - 1];
    }
    if n == |votes| {
      assert order[..n] == order;
      FirstVotesDecide(classes, multiset(classes), threshold);
    }
  }

  lemma FirstOverWins(votes: Dict<int, nat>, classes: seq<int>, threshold: nat, j: nat)
    requires Tallied(votes, classes) && j < |votes|
    requires NoneOver(votes[..j], threshold) && votes[j].1 >= threshold
    ensures FirstWinner(classes, multiset(classes), threshold) == Some(votes[j].0)
  {
    var order := FirstVotes(classes);
    NoneOverNoWinner(votes, classes, threshold, j);
    assert order[..j + 1][..j] == order[..j];
    WinnerPersists(order, multiset(classes), threshold, j + 1);
    FirstVotesDecide(classes, multiset(classes), threshold);
  }

  lemma {:induction false} FirstVotesDistinct(classes: seq<int>)
    ensures forall i, j :: 0 <= i < j < |FirstVotes(classes)| ==> FirstVotes(classes)[i] != FirstVotes(classes)[j]
  {
    if classes != [] {
      FirstVotesDistinct(classes[..|classes| - 1]);
    }
  }

  lemma {:induction false} FirstVotesDecide(classes: seq<int>, votes: multiset<int>, threshold: nat)
    ensures FirstWinner(FirstVotes(classes), votes, threshold) == FirstWinner(classes, votes, threshold)
  {
    if classes != [] {
      var before := classes[..|classes| - 1];
      FirstVotesDecide(before, votes, threshold);
      if classes[|classes| - 1] !in before {
        assert FirstVotes(classes)[..|FirstVotes(classes)| - 1] == FirstVotes(before);
      }
    }
  }

  lemma {:induction false} WinnerPersists(classes: seq<int>, votes: multiset<int>, threshold: nat, n: nat)
    requires n <= |classes| && FirstWinner(classes[..n], votes, threshold).Some?
    ensures FirstWinner(classes, votes, threshold) == FirstWinner(classes[..n], votes, threshold)
  {
    if n < |classes| {
      assert classes[..|classes| - 1][..n] == classes[..n];
      WinnerPersists(classes[..|classes| - 1], votes, threshold, n);
    } else {
      assert classes[..n] == classes;
    }
  }
}
