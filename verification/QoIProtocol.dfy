/** The QoI messages, one node's protocol state, and what each handler does to it. */
module QoIProtocol {
  import opened Collections
  import opened Quality
  import opened Sorting

  datatype Phase = IDLE | PRE_PREPARE | PREPARE | COMMIT | COMMITTED | VIEW_CHANGE

  datatype PrePrepareMsg = PrePrepareMsg(
    view: int, seqNo: int, sender: NodeId, requestId: string, imageHash: string, response: Response)

  datatype PrepareMsg = PrepareMsg(
    view: int, seqNo: int, sender: NodeId, requestId: string, response: Response)

  datatype CommitMsg = CommitMsg(
    view: int, seqNo: int, sender: NodeId, requestId: string, cls: int, signature: string)

  datatype ViewChangeMsg = ViewChangeMsg(
    view: int, seqNo: int, sender: NodeId, newView: int, lastSeq: int)

  datatype NewViewMsg = NewViewMsg(
    view: int, seqNo: int, sender: NodeId, newView: int, evidence: seq<ViewChangeMsg>)

  datatype Msg =
    | PrePrepare(pp: PrePrepareMsg)
    | Prepare(p: PrepareMsg)
    | Commit(c: CommitMsg)
    | ViewChange(vc: ViewChangeMsg)
    | NewView(nv: NewViewMsg)
  {
    function View(): int {
      match this
      case PrePrepare(m) => m.view
      case Prepare(m) => m.view
      case Commit(m) => m.view
      case ViewChange(m) => m.view
      case NewView(m) => m.view
    }

    function Sender(): NodeId {
      match this
      case PrePrepare(m) => m.sender
      case Prepare(m) => m.sender
      case Commit(m) => m.sender
      case ViewChange(m) => m.sender
      case NewView(m) => m.sender
    }
  }

  /** What a finished round hands to the block builder. `responses` is the input from which
      the round result is computed (see Quality.RoundRewards). */
  datatype Outcome = Outcome(
    requestId: string, cls: int, view: int, seqNo: int, primary: NodeId,
    responses: Dict<NodeId, Response>, commitSignatures: seq<(NodeId, string)>, electedQuorum: set<NodeId>)

  datatype Node = Node(
    id: NodeId, f: nat, primary: NodeId, phase: Phase, view: int, seqNo: int,
    requestId: string, imageHash: string, prePrepare: Option<PrePrepareMsg>,
    prepares: Dict<NodeId, PrepareMsg>, commits: Dict<NodeId, CommitMsg>,
    viewChanges: Dict<NodeId, ViewChangeMsg>, consensusClass: Option<int>,
    responses: Dict<NodeId, Response>, outcome: Option<Outcome>, electedQuorum: set<NodeId>)
  {
    function Threshold(): nat { 2 * f + 1 }
  }

  /** A handler answers nothing, broadcasts a message, or raises a ValueError. */
  datatype Reply = Silent | Broadcast(msg: Msg) | Raised

  datatype Effect = Effect(node: Node, reply: Reply)

  function NewNode(id: NodeId, primary: NodeId, f: nat, quorum: set<NodeId>): Node {
    Node(id, f, primary, IDLE, 0, 0, "", "", None, [], [], [],
         None, [], None, quorum)
  }

  function ResetRound(n: Node, requestId: string, imageHash: string, seqNo: int): Node {
    n.(requestId := requestId, imageHash := imageHash, seqNo := seqNo, prePrepare := None,
       prepares := [], commits := [], viewChanges := [],
       consensusClass := None, responses := [], outcome := None)
  }

  function StartRound(n: Node, requestId: string, imageHash: string, seqNo: int, probs: seq<real>): Effect {
    var n := ResetRound(n, requestId, imageHash, seqNo);
    if probs == [] then Effect(n, Raised) else
    var own := Response(ArgMax(probs), probs);
    var n := n.(responses := Put(n.responses, n.id, own), phase := PRE_PREPARE);
    if n.id == n.primary then
      var msg := PrePrepareMsg(n.view, seqNo, n.id, requestId, imageHash, own);
      Effect(n.(prePrepare := Some(msg)), Broadcast(PrePrepare(msg)))
    else Effect(n, Silent)
  }

  function Handle(n: Node, msg: Msg): Effect {
    if msg.View() < n.view then Effect(n, Silent) else
    match msg
    case PrePrepare(m) => HandlePrePrepare(n, m)
    case Prepare(m) => HandlePrepare(n, m)
    case Commit(m) => HandleCommit(n, m)
    case ViewChange(m) => HandleViewChange(n, m)
    case NewView(m) => HandleNewView(n, m)
  }

  function HandlePrePrepare(n: Node, m: PrePrepareMsg): Effect {
    if n.phase != PRE_PREPARE || m.sender != n.primary || m.view != n.view || m.seqNo != n.seqNo
    then Effect(n, Silent) else
    var responses := Put(n.responses, m.sender, m.response);
    var own := GetOr(responses, n.id, m.response);
    var prepare := PrepareMsg(n.view, n.seqNo, n.id, n.requestId, own);
    Effect(n.(prePrepare := Some(m), responses := responses, phase := PREPARE,
              prepares := Put(n.prepares, n.id, prepare)),
           Broadcast(Prepare(prepare)))
  }

  function HandlePrepare(n: Node, m: PrepareMsg): Effect {
    if n.phase !in {PRE_PREPARE, PREPARE} || m.view != n.view || m.seqNo != n.seqNo
       || Has(n.prepares, m.sender)
    then Effect(n, Silent) else
    var n := n.(prepares := Put(n.prepares, m.sender, m),
                responses := Put(n.responses, m.sender, m.response));
    if |n.prepares| < n.Threshold() then Effect(n, Silent) else
    match ConsensusClass(n.prepares, n.Threshold())
    case None => Effect(n, Silent)
    case Some(cls) =>
      var commit := CommitMsg(n.view, n.seqNo, n.id, n.requestId, cls, "");
      Effect(n.(consensusClass := Some(cls), phase := COMMIT, commits := Put(n.commits, n.id, commit)),
             Broadcast(Commit(commit)))
  }

  function HandleCommit(n: Node, m: CommitMsg): Effect {
    if n.phase != COMMIT || m.view != n.view || m.seqNo != n.seqNo
       || Has(n.commits, m.sender) || Some(m.cls) != n.consensusClass
    then Effect(n, Silent) else
    var n := n.(commits := Put(n.commits, m.sender, m));
    if |n.commits| < n.Threshold() then Effect(n, Silent) else FinaliseRound(n)
  }

  /** Scoring raises when the agreeing nodes' vectors differ in length; the commit that
      triggered it stays recorded and the node stays in COMMIT. */
  function FinaliseRound(n: Node): Effect
  {
    if n.consensusClass.None? || !Scorable(n.responses, n.consensusClass.value)
    then Effect(n, Raised) else
    Effect(n.(outcome := Some(Outcome(n.requestId, n.consensusClass.value, n.view, n.seqNo, n.primary,
                                      n.responses, CommitSignatures(n.commits), n.electedQuorum)),
              phase := COMMITTED),
           Silent)
  }

  function CommitSignatures(commits: Dict<NodeId, CommitMsg>): seq<(NodeId, string)> {
    seq(|commits|, i requires 0 <= i < |commits| => (commits[i].0, commits[i].1.signature))
  }

  function HandleViewChange(n: Node, m: ViewChangeMsg): Effect {
    if m.newView <= n.view then Effect(n, Silent) else
    var n := n.(viewChanges := Put(n.viewChanges, m.sender, m), phase := VIEW_CHANGE);
    if |n.viewChanges| < n.Threshold() then Effect(n, Silent) else
    var newView := MaxNewView(n.viewChanges);
    var newPrimary := ElectPrimary(n.viewChanges);
    if newPrimary != n.id then Effect(n, Silent) else
    var n := n.(view := newView, primary := newPrimary, phase := PRE_PREPARE);
    Effect(n, Broadcast(NewView(NewViewMsg(n.view, n.seqNo, n.id, newView, Evidence(n.viewChanges)))))
  }

  function Evidence(viewChanges: Dict<NodeId, ViewChangeMsg>): seq<ViewChangeMsg> {
    seq(|viewChanges|, i requires 0 <= i < |viewChanges| => viewChanges[i].1)
  }

  function HandleNewView(n: Node, m: NewViewMsg): Effect {
    if m.newView <= n.view then Effect(n, Silent) else
    Effect(n.(view := m.newView, primary := m.sender, phase := PRE_PREPARE, viewChanges := []), Silent)
  }

  /** The periodic check; `expired` says whether the round's timer has run out. */
  function CheckTimeout(n: Node, expired: bool): Effect {
    if n.phase in {IDLE, COMMITTED} || !expired then Effect(n, Silent) else
    Effect(n.(phase := VIEW_CHANGE),
           Broadcast(ViewChange(ViewChangeMsg(n.view, n.seqNo, n.id, n.view + 1, n.seqNo))))
  }

  // Counting PREPAREs

  /** The classes voted for, in the order the PREPAREs were stored. */
  function Classes(prepares: Dict<NodeId, PrepareMsg>): seq<int> {
    seq(|prepares|, i requires 0 <= i < |prepares| => prepares[i].1.response.cls)
  }

  /** The first listed class that has at least `threshold` votes. */
  function FirstWinner(classes: seq<int>, votes: multiset<int>, threshold: nat): (r: Option<int>)
    ensures r.Some? ==> r.value in classes && votes[r.value] >= threshold
    ensures r.None? ==> forall c | c in classes :: votes[c] < threshold
  {
    if classes == [] then None else
    var r := FirstWinner(classes[..|classes| - 1], votes, threshold);
    var last := classes[|classes| - 1];
    if r.None? && votes[last] >= threshold then Some(last) else r
  }

  /** The class that a quorum of the stored PREPAREs agrees on. */
  function ConsensusClass(prepares: Dict<NodeId, PrepareMsg>, threshold: nat): Option<int> {
    FirstWinner(Classes(prepares), multiset(Classes(prepares)), threshold)
  }

  // Electing the next primary

  function MaxNewView(d: Dict<NodeId, ViewChangeMsg>): (r: int)
    requires d != []
    ensures exists i :: 0 <= i < |d| && d[i].1.newView == r
    ensures forall i :: 0 <= i < |d| ==> d[i].1.newView <= r
  {
    var v := d[|d| - 1].1.newView;
    if |d| == 1 then v else
    var rest := MaxNewView(d[..|d| - 1]);
    if rest < v then v else rest
  }

  /** The election order: higher last sequence number first, then the smaller sender id. */
  predicate Ahead(a: ViewChangeMsg, b: ViewChangeMsg) {
    a.lastSeq > b.lastSeq || (a.lastSeq == b.lastSeq && StringLess(a.sender, b.sender))
  }

  /** The sender of the first message when all are sorted in election order. */
  function ElectPrimary(d: Dict<NodeId, ViewChangeMsg>): NodeId
    requires d != []
  {
    SortKeeps(Ahead, Evidence(d));
    SortBy(Ahead, Evidence(d))[0].sender
  }
}
