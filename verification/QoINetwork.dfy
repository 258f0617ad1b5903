/** One round among many nodes: messages are sent, then delivered to anyone in any order, any
    number of times or never; Byzantine nodes send what they like under their own ids. */
module QoINetwork {
  import opened Collections
  import opened Quality
  import opened QoIProtocol

  /** Who takes part, who is Byzantine, the machines' fault bound, and each node's own vector. */
  datatype Config = Config(nodes: set<NodeId>, byzantine: set<NodeId>, f: nat, probs: map<NodeId, seq<real>>) {
    ghost predicate Valid() {
      && byzantine <= nodes
      && |byzantine| <= f
      && probs.Keys == nodes
      && forall i | i in nodes :: probs[i] != []
    }

    predicate Correct(i: NodeId) { i in nodes && i !in byzantine }

    /** A node's own vote: the argmax of its vector. */
    function Vote(i: NodeId): int
      requires i in probs && probs[i] != []
    {
      ArgMax(probs[i])
    }
  }

  /** The machines started so far (of correct nodes) and every message ever sent. */
  datatype System = System(machines: map<NodeId, Node>, sent: set<Msg>)

  datatype Action =
    | Start(i: NodeId, primary: NodeId, seqNo: int, requestId: string, imageHash: string, quorum: set<NodeId>)
    | Deliver(i: NodeId, msg: Msg)
    | Timer(i: NodeId, expired: bool)
    | Forge(msg: Msg)

  const Nothing := System(map[], {})

  predicate Enabled(c: Config, s: System, a: Action) {
    match a
    case Start(i, _, _, _, _, _) => c.Correct(i) && i !in s.machines && i in c.probs
    case Deliver(i, msg) => i in s.machines && msg in s.sent
    case Timer(i, _) => i in s.machines
    case Forge(msg) => msg.Sender() in c.byzantine
  }

  function Record(s: System, i: NodeId, e: Effect): System {
    System(s.machines[i := e.node], if e.reply.Broadcast? then s.sent + {e.reply.msg} else s.sent)
  }

  function Perform(c: Config, s: System, a: Action): System
    requires Enabled(c, s, a)
  {
    match a
    case Start(i, primary, seqNo, requestId, imageHash, quorum) =>
      Record(s, i, StartRound(NewNode(i, primary, c.f, quorum), requestId, imageHash, seqNo, c.probs[i]))
    case Deliver(i, msg) => Record(s, i, Handle(s.machines[i], msg))
    case Timer(i, expired) => Record(s, i, CheckTimeout(s.machines[i], expired))
    case Forge(msg) => s.(sent := s.sent + {msg})
  }

  /** The system after a run: any list of actions, where one that is not enabled does nothing. */
  function After(c: Config, run: seq<Action>): System {
    if run == [] then Nothing else
    var s := After(c, run[..|run| - 1]);
    if Enabled(c, s, run[|run| - 1]) then Perform(c, s, run[|run| - 1]) else s
  }

  // The inductive invariant

  /** What a correct node may have sent: its votes are its own argmax. */
  ghost predicate Honest(c: Config, msg: Msg) {
    c.Valid() && c.Correct(msg.Sender()) ==>
      && (msg.PrePrepare? ==> msg.pp.response.cls == c.Vote(msg.Sender()))
      && (msg.Prepare? ==> msg.p.response.cls == c.Vote(msg.Sender()))
  }

  ghost predicate SentOk(c: Config, sent: set<Msg>) {
    forall msg | msg in sent :: msg.Sender() in c.nodes && Honest(c, msg)
  }

  ghost predicate OwnVote(c: Config, n: Node) {
    && Has(n.responses, n.id)
    && (c.Valid() && c.Correct(n.id) ==> Get(n.responses, n.id).cls == c.Vote(n.id))
  }

  ghost predicate PreparesOk(c: Config, prepares: Dict<NodeId, PrepareMsg>) {
    && Distinct(prepares)
    && forall i :: 0 <= i < |prepares| ==>
         && prepares[i].1.sender == prepares[i].0
         && prepares[i].0 in c.nodes
         && Honest(c, Prepare(prepares[i].1))
  }

  /** So few nodes that no two classes can both have a quorum of PREPAREs at one node. */
  ghost predicate Few(c: Config) {
    |c.nodes| <= 4 * c.f + 1
  }

  ghost predicate CommitsOk(c: Config, n: Node) {
    && Distinct(n.commits)
    && forall i :: 0 <= i < |n.commits| ==>
         && n.commits[i].1.sender == n.commits[i].0
         && n.commits[i].0 in c.nodes
         && (Few(c) ==> Some(n.commits[i].1.cls) == n.consensusClass)
  }

  /** The class a node settled on, and that of its outcome, keep their quorums of stored PREPAREs. */
  ghost predicate Backed(n: Node) {
    && (n.consensusClass.Some? ==> multiset(Classes(n.prepares))[n.consensusClass.value] >= n.Threshold())
    && (n.outcome.Some? ==> multiset(Classes(n.prepares))[n.outcome.value.cls] >= n.Threshold())
  }

  ghost predicate OutcomeOk(c: Config, n: Node) {
    n.outcome.Some? ==>
      && (Few(c) ==> n.consensusClass == Some(n.outcome.value.cls))
      && |n.outcome.value.commitSignatures| >= n.Threshold()
      && Distinct(n.outcome.value.commitSignatures)
      && Keys(n.outcome.value.commitSignatures) <= c.nodes
  }

  ghost predicate NodeOk(c: Config, i: NodeId, n: Node) {
    && n.id == i && n.f == c.f && c.Correct(i)
    && OwnVote(c, n) && PreparesOk(c, n.prepares) && CommitsOk(c, n) && Backed(n) && OutcomeOk(c, n)
  }

  ghost predicate Inv(c: Config, s: System) {
    && SentOk(c, s.sent)
    && forall i | i in s.machines :: NodeOk(c, i, s.machines[i])
  }

  // Every handler keeps the invariant

  /** Two classes cannot both have 2f+1 votes among at most 4f+1 distinct voters. */
  lemma OneWinner(c: Config, prepares: Dict<NodeId, PrepareMsg>, x: int, y: int)
    requires Few(c) && PreparesOk(c, prepares)
    requires multiset(Classes(prepares))[x] >= 2 * c.f + 1 && multiset(Classes(prepares))[y] >= 2 * c.f + 1
    ensures x == y
  {
    KeyCount(prepares);
    SubsetSize(Keys(prepares), c.nodes);
    assert |Classes(prepares)| == |prepares|;
    if x != y {
      TwoCounts(Classes(prepares), x, y);
    }
  }

  lemma {:induction false} TwoCounts(s: seq<int>, x: int, y: int)
    requires x != y
    ensures multiset(s)[x] + multiset(s)[y] <= |s|
  {
    if s != [] {
      assert s == s[..|s| - 1] + [s[|s| - 1]];
      TwoCounts(s[..|s| - 1], x, y);
    }
  }

  /** What one handler call must establish. */
  ghost predicate EffectOk(c: Config, i: NodeId, e: Effect) {
    && NodeOk(c, i, e.node)
    && (e.reply.Broadcast? ==> e.reply.msg.Sender() == i && i in c.nodes && Honest(c, e.reply.msg))
  }

  lemma StartOk(c: Config, i: NodeId, primary: NodeId, seqNo: int, requestId: string, imageHash: string, quorum: set<NodeId>)
    requires c.Valid() && c.Correct(i)
    ensures EffectOk(c, i, StartRound(NewNode(i, primary, c.f, quorum), requestId, imageHash, seqNo, c.probs[i]))
  {
    PutGet<NodeId, Response>([], i, Response(ArgMax(c.probs[i]), c.probs[i]));
  }

  lemma PutPrepare(c: Config, prepares: Dict<NodeId, PrepareMsg>, m: PrepareMsg)
    requires PreparesOk(c, prepares) && m.sender in c.nodes && Honest(c, Prepare(m))
    ensures PreparesOk(c, Put(prepares, m.sender, m))
  {
    PutGet(prepares, m.sender, m);
  }

  /** A node's own new PREPARE never takes a vote from any class: it repeats the vote it replaces. */
  lemma PutPrepareVotes(c: Config, n: Node, m: PrepareMsg, cls: int)
    requires c.Valid() && PreparesOk(c, n.prepares)
    requires Has(n.prepares, m.sender) ==>
               c.Correct(m.sender) && Honest(c, Prepare(m))
    ensures multiset(Classes(Put(n.prepares, m.sender, m)))[cls] >= multiset(Classes(n.prepares))[cls]
  {
    var old', new' := Classes(n.prepares), Classes(Put(n.prepares, m.sender, m));
    if Has(n.prepares, m.sender) {
      assert new' == old';
    } else {
      assert new' == old' + [m.response.cls];
    }
  }

  lemma PrePrepareOk(c: Config, i: NodeId, n: Node, m: PrePrepareMsg)
    requires c.Valid() && NodeOk(c, i, n) && m.sender in c.nodes && Honest(c, PrePrepare(m))
    ensures EffectOk(c, i, HandlePrePrepare(n, m))
  {
    hide Classes, Put, Has, Get;
    var e := HandlePrePrepare(n, m);
    if e.reply.Broadcast? {
      PutGet(n.responses, m.sender, m.response);
      var prepare := e.reply.msg.p;
      PutPrepare(c, n.prepares, prepare);
      if n.consensusClass.Some? {
        PutPrepareVotes(c, n, prepare, n.consensusClass.value);
      }
      if n.outcome.Some? {
        PutPrepareVotes(c, n, prepare, n.outcome.value.cls);
      }
    }
  }

  lemma StoredPrepareOk(c: Config, i: NodeId, n: Node, m: PrepareMsg)
    requires c.Valid() && NodeOk(c, i, n) && m.sender in c.nodes && Honest(c, Prepare(m))
    requires !Has(n.prepares, m.sender)
    ensures NodeOk(c, i, n.(prepares := Put(n.prepares, m.sender, m), responses := Put(n.responses, m.sender, m.response)))
  {
    hide Classes, Put, Get, Has;
    PutGet(n.responses, m.sender, m.response);
    PutPrepare(c, n.prepares, m);
    if n.consensusClass.Some? {
      PutPrepareVotes(c, n, m, n.consensusClass.value);
    }
    if n.outcome.Some? {
      PutPrepareVotes(c, n, m, n.outcome.value.cls);
    }
  }

  /** Settling on a class a second time settles on the same class, among few nodes. */
  lemma SettledOk(c: Config, i: NodeId, n: Node, cls: int)
    requires c.Valid() && NodeOk(c, i, n) && ConsensusClass(n.prepares, n.Threshold()) == Some(cls)
    ensures Few(c) && n.consensusClass.Some? ==> n.consensusClass == Some(cls)
    ensures var commit := CommitMsg(n.view, n.seqNo, n.id, n.requestId, cls, "");
            NodeOk(c, i, n.(consensusClass := Some(cls), phase := COMMIT, commits := Put(n.commits, n.id, commit)))
  {
    hide Classes;
    if Few(c) && n.consensusClass.Some? {
      OneWinner(c, n.prepares, cls, n.consensusClass.value);
    }
    PutGet(n.commits, i, CommitMsg(n.view, n.seqNo, i, n.requestId, cls, ""));
  }

  lemma PrepareOk(c: Config, i: NodeId, n: Node, m: PrepareMsg)
    requires c.Valid() && NodeOk(c, i, n) && m.sender in c.nodes && Honest(c, Prepare(m))
    ensures EffectOk(c, i, HandlePrepare(n, m))
  {
    hide ConsensusClass, Put, Has, Backed, OwnVote, PreparesOk, CommitsOk, OutcomeOk;
    if !Has(n.prepares, m.sender) {
      StoredPrepareOk(c, i, n, m);
      var stored := n.(prepares := Put(n.prepares, m.sender, m), responses := Put(n.responses, m.sender, m.response));
      var winner := ConsensusClass(stored.prepares, stored.Threshold());
      if winner.Some? {
        SettledOk(c, i, stored, winner.value);
      }
    }
  }

  lemma CommitOk(c: Config, i: NodeId, n: Node, m: CommitMsg)
    requires NodeOk(c, i, n) && m.sender in c.nodes
    ensures EffectOk(c, i, HandleCommit(n, m))
  {
    hide Classes;
    PutGet(n.commits, m.sender, m);
  }

  /** View changes touch neither votes, certificates nor outcomes. */
  lemma ViewChangeOk(c: Config, i: NodeId, n: Node, m: ViewChangeMsg)
    requires NodeOk(c, i, n)
    ensures EffectOk(c, i, HandleViewChange(n, m))
  {
    hide Put, MaxNewView, ElectPrimary, Evidence, Classes, Has, Get;
  }

  lemma NewViewOk(c: Config, i: NodeId, n: Node, m: NewViewMsg)
    requires NodeOk(c, i, n)
    ensures EffectOk(c, i, HandleNewView(n, m))
  {}

  lemma HandleOk(c: Config, i: NodeId, n: Node, msg: Msg)
    requires c.Valid() && NodeOk(c, i, n) && msg.Sender() in c.nodes && Honest(c, msg)
    ensures EffectOk(c, i, Handle(n, msg))
  {
    hide HandlePrePrepare, HandlePrepare, HandleCommit, HandleViewChange, HandleNewView, NodeOk;
    match msg
    case PrePrepare(m) => PrePrepareOk(c, i, n, m);
    case Prepare(m) => PrepareOk(c, i, n, m);
    case Commit(m) => CommitOk(c, i, n, m);
    case ViewChange(m) => ViewChangeOk(c, i, n, m);
    case NewView(m) => NewViewOk(c, i, n, m);
  }

  lemma PerformOk(c: Config, s: System, a: Action)
    requires c.Valid() && Inv(c, s) && Enabled(c, s, a)
    ensures Inv(c, Perform(c, s, a))
  {
    hide NodeOk, Handle, QoIProtocol.StartRound, CheckTimeout;
    match a
    case Start(i, primary, seqNo, requestId, imageHash, quorum) =>
      StartOk(c, i, primary, seqNo, requestId, imageHash, quorum);
    case Deliver(i, msg) => HandleOk(c, i, s.machines[i], msg);
    case Timer(i, expired) => TimerOk(c, i, s.machines[i], expired);
    case Forge(msg) =>
  }

  lemma TimerOk(c: Config, i: NodeId, n: Node, expired: bool)
    requires NodeOk(c, i, n)
    ensures EffectOk(c, i, CheckTimeout(n, expired))
  {}

  lemma {:induction false} RunOk(c: Config, run: seq<Action>)
    requires c.Valid()
    ensures Inv(c, After(c, run))
  {
    if run != [] {
      RunOk(c, run[..|run| - 1]);
      if Enabled(c, After(c, run[..|run| - 1]), run[|run| - 1]) {
        PerformOk(c, After(c, run[..|run| - 1]), run[|run| - 1]);
      }
    }
  }

  // What holds in every run

  /** Agreement: whatever was delivered, and whatever views the nodes went through, all outcomes
      of correct nodes name the same class. */
  lemma Agreement(c: Config, run: seq<Action>, i: NodeId, j: NodeId)
    requires c.Valid() && |c.nodes| <= 3 * c.f + 1
    requires i in After(c, run).machines && After(c, run).machines[i].outcome.Some?
    requires j in After(c, run).machines && After(c, run).machines[j].outcome.Some?
    ensures After(c, run).machines[i].outcome.value.cls == After(c, run).machines[j].outcome.value.cls
  {
    hide NodeOk;
    RunOk(c, run);
    var n, m := After(c, run).machines[i], After(c, run).machines[j];
    SameClass(c, i, n, j, m);
  }

  /** Two nodes that settled on classes settled on the same one: their quorums of PREPAREs share
      a correct voter, and a correct node votes only its own argmax. */
  lemma SameClass(c: Config, i: NodeId, n: Node, j: NodeId, m: Node)
    requires c.Valid() && |c.nodes| <= 3 * c.f + 1 && NodeOk(c, i, n) && NodeOk(c, j, m)
    requires n.outcome.Some? && m.outcome.Some?
    ensures n.outcome.value.cls == m.outcome.value.cls
  {
    var x, y := n.consensusClass.value, m.consensusClass.value;
    VoterCount(n.prepares, x);
    VoterCount(m.prepares, y);
    var a, b := Voters(n.prepares, x), Voters(m.prepares, y);
    var k := QuorumsMeet(c, a, b);
    var p :| 0 <= p < |n.prepares| && n.prepares[p].0 == k && n.prepares[p].1.response.cls == x;
    var q :| 0 <= q < |m.prepares| && m.prepares[q].0 == k && m.prepares[q].1.response.cls == y;
    assert Honest(c, Prepare(n.prepares[p].1)) && Honest(c, Prepare(m.prepares[q].1));
  }

  /** The nodes whose stored PREPARE names a class. */
  ghost function Voters(prepares: Dict<NodeId, PrepareMsg>, cls: int): set<NodeId> {
    set p | 0 <= p < |prepares| && prepares[p].1.response.cls == cls :: prepares[p].0
  }

  lemma {:induction false} VoterCount(prepares: Dict<NodeId, PrepareMsg>, cls: int)
    requires Distinct(prepares)
    ensures |Voters(prepares, cls)| == multiset(Classes(prepares))[cls]
  {
    if prepares != [] {
      hide Voters, Classes;
      var rest, last := prepares[..|prepares| - 1], prepares[|prepares| - 1];
      VoterCount(rest, cls);
      VotersStep(rest, last, cls);
      assert prepares == rest + [last];
    }
  }

  lemma VotersStep(rest: Dict<NodeId, PrepareMsg>, last: (NodeId, PrepareMsg), cls: int)
    requires Distinct(rest + [last])
    ensures Voters(rest + [last], cls) == Voters(rest, cls) + if last.1.response.cls == cls then {last.0} else {}
    ensures last.0 !in Voters(rest, cls)
    ensures Classes(rest + [last]) == Classes(rest) + [last.1.response.cls]
  {
    var all := rest + [last];
    assert all[|rest|] == last && forall p :: 0 <= p < |rest| ==> all[p] == rest[p];
    if last.1.response.cls == cls {
      assert last.0 in Voters(all, cls);
    }
    forall k | k in Voters(rest, cls) ensures k in Voters(all, cls) {
      var p :| 0 <= p < |rest| && rest[p].1.response.cls == cls && rest[p].0 == k;
      assert all[p].0 == k;
    }
  }

  /** Any two sets of 2f+1 out of at most 3f+1 nodes share a correct one. */
  lemma QuorumsMeet(c: Config, a: set<NodeId>, b: set<NodeId>) returns (k: NodeId)
    requires c.Valid() && |c.nodes| <= 3 * c.f + 1
    requires a <= c.nodes && b <= c.nodes && |a| >= 2 * c.f + 1 && |b| >= 2 * c.f + 1
    ensures k in a && k in b && c.Correct(k)
  {
    assert |a + b| == |a| + |b| - |a * b|;
    SubsetSize(a + b, c.nodes);
    if a * b <= c.byzantine {
      SubsetSize(a * b, c.byzantine);
    }
    k :| k in a * b && k !in c.byzantine;
  }

  /** Certification: an outcome carries 2f+1 distinct committers, all of them members, and its
      class is the own argmax of at least f+1 correct nodes. */
  lemma Certified(c: Config, run: seq<Action>, i: NodeId)
    requires c.Valid()
    requires i in After(c, run).machines && After(c, run).machines[i].outcome.Some?
    ensures var o := After(c, run).machines[i].outcome.value;
            && |Keys(o.commitSignatures)| >= 2 * c.f + 1
            && Keys(o.commitSignatures) <= c.nodes
            && |set k | k in c.nodes && c.Correct(k) && c.Vote(k) == o.cls| >= c.f + 1
  {
    RunOk(c, run);
    var n := After(c, run).machines[i];
    assert NodeOk(c, i, n);
    KeyCount(n.outcome.value.commitSignatures);
    Supported(c, n.prepares, n.outcome.value.cls);
  }

  /** A class with 2f+1 stored votes is the own argmax of at least f+1 correct nodes. */
  lemma Supported(c: Config, prepares: Dict<NodeId, PrepareMsg>, cls: int)
    requires c.Valid() && PreparesOk(c, prepares) && multiset(Classes(prepares))[cls] >= 2 * c.f + 1
    ensures |set k | k in c.nodes && c.Correct(k) && c.Vote(k) == cls| >= c.f + 1
  {
    hide Classes, Voters, Honest;
    VoterCount(prepares, cls);
    var voters := Voters(prepares, cls);
    var supporters := set k | k in c.nodes && c.Correct(k) && c.Vote(k) == cls;
    forall k | k in voters - c.byzantine ensures k in supporters {
      VoterSupports(c, prepares, cls, k);
    }
    MostAreHonest(c, voters, supporters);
  }

  lemma VoterSupports(c: Config, prepares: Dict<NodeId, PrepareMsg>, cls: int, k: NodeId)
    requires c.Valid() && PreparesOk(c, prepares) && k in Voters(prepares, cls) - c.byzantine
    ensures k in c.nodes && c.Correct(k) && c.Vote(k) == cls
  {
    var p :| 0 <= p < |prepares| && prepares[p].0 == k && prepares[p].1.response.cls == cls;
    assert Honest(c, Prepare(prepares[p].1));
  }

  lemma MostAreHonest(c: Config, voters: set<NodeId>, supporters: set<NodeId>)
    requires c.Valid() && |voters| >= 2 * c.f + 1 && voters - c.byzantine <= supporters
    ensures |supporters| >= c.f + 1
  {
    SubsetSize(voters - c.byzantine, supporters);
    SubsetSize(voters * c.byzantine, c.byzantine);
    assert voters == (voters - c.byzantine) + (voters * c.byzantine);
  }

  /** What later steps leave alone once it is set. */
  ghost predicate Keeps(n: Node, later: Node) {
    && (n.consensusClass.Some? ==> later.consensusClass == n.consensusClass)
    && (n.outcome.Some? ==> later.outcome.Some?)
  }

  lemma HandleKeeps(c: Config, i: NodeId, n: Node, msg: Msg)
    requires c.Valid() && Few(c) && NodeOk(c, i, n) && msg.Sender() in c.nodes && Honest(c, msg)
    ensures Keeps(n, Handle(n, msg).node)
  {
    if msg.Prepare? && n.phase in {PRE_PREPARE, QoIProtocol.PREPARE} && !Has(n.prepares, msg.p.sender) {
      hide ConsensusClass, Put, Has, NodeOk;
      var m := msg.p;
      StoredPrepareOk(c, i, n, m);
      var stored := n.(prepares := Put(n.prepares, m.sender, m), responses := Put(n.responses, m.sender, m.response));
      var winner := ConsensusClass(stored.prepares, stored.Threshold());
      if winner.Some? {
        SettledOk(c, i, stored, winner.value);
      }
    } else {
      hide ConsensusClass, Put, Has, NodeOk, MaxNewView, ElectPrimary, Evidence;
    }
  }

  /** Finality: once a node has settled on a class, or holds an outcome, no later step of any
      run changes that class, although a NEW_VIEW can re-open a committed round. */
  lemma {:induction false} Final(c: Config, run: seq<Action>, n: nat, i: NodeId)
    requires c.Valid() && Few(c) && n <= |run|
    requires i in After(c, run[..n]).machines
    ensures i in After(c, run).machines && Keeps(After(c, run[..n]).machines[i], After(c, run).machines[i])
    ensures var earlier, later := After(c, run[..n]).machines[i].outcome, After(c, run).machines[i].outcome;
            earlier.Some? ==> later.Some? && later.value.cls == earlier.value.cls
  {
    hide Handle, QoIProtocol.StartRound, NodeOk;
    if n == |run| {
      assert run[..n] == run;
    } else {
      var before, last := run[..|run| - 1], run[|run| - 1];
      assert before[..n] == run[..n];
      Final(c, before, n, i);
      RunOk(c, before);
      if last.Deliver? && last.i == i && Enabled(c, After(c, before), last) {
        HandleKeeps(c, i, After(c, before).machines[i], last.msg);
      }
    }
    OutcomeClass(c, run[..n], i);
    OutcomeClass(c, run, i);
  }

  lemma OutcomeClass(c: Config, run: seq<Action>, i: NodeId)
    requires c.Valid() && Few(c) && i in After(c, run).machines
    ensures var n := After(c, run).machines[i];
            n.outcome.Some? ==> n.consensusClass == Some(n.outcome.value.cls)
  {
    RunOk(c, run);
    assert NodeOk(c, i, After(c, run).machines[i]);
  }
}
