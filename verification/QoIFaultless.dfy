/** Rounds whose fault bound is 0: the first PREPARE a node stores settles its class for good, and
    one COMMIT besides its own decides. */
module QoIFaultless {
  import opened Collections
  import opened Quality
  import opened QoIProtocol
  import opened QoINetwork

  ghost predicate Faultless(c: Config) {
    c.Valid() && c.f == 0
  }

  /** With a threshold of one, the first stored PREPARE wins whatever follows it. */
  lemma {:induction false} FirstStoredWins(classes: seq<int>, votes: multiset<int>)
    requires classes != [] && forall x | x in classes :: votes[x] >= 1
    ensures FirstWinner(classes, votes, 1) == Some(classes[0])
  {
    var before := classes[..|classes| - 1];
    assert classes[0] in classes;
    if before != [] {
      FirstStoredWins(before, votes);
    }
  }

  lemma FirstClass(prepares: Dict<NodeId, PrepareMsg>)
    requires prepares != []
    ensures ConsensusClass(prepares, 1) == Some(prepares[0].1.response.cls)
  {
    FirstStoredWins(Classes(prepares), multiset(Classes(prepares)));
  }

  /** Somebody else has sent a COMMIT for the class. */
  ghost predicate Echoed(sent: set<Msg>, i: NodeId, cls: int) {
    exists m :: Commit(m) in sent && m.sender != i && m.cls == cls
  }

  ghost predicate NodeGood(c: Config, sent: set<Msg>, i: NodeId, n: Node) {
    && n.id == i && n.f == 0 && c.Correct(i) && OwnVote(c, n) && PreparesOk(c, n.prepares)
    && (n.consensusClass.Some? ==> n.prepares != [] && n.consensusClass == Some(n.prepares[0].1.response.cls))
    && (n.phase == COMMIT ==> Has(n.commits, i))
    && (n.outcome.Some? ==> n.consensusClass == Some(n.outcome.value.cls) && Echoed(sent, i, n.outcome.value.cls))
  }

  /** The sender of a COMMIT holds the class it names. */
  ghost predicate Sound(c: Config, s: System) {
    && SentOk(c, s.sent)
    && (forall i | i in s.machines :: NodeGood(c, s.sent, i, s.machines[i]))
    && forall m | Commit(m) in s.sent :: m.sender in s.machines && s.machines[m.sender].consensusClass == Some(m.cls)
  }

  /** What one handler call must establish. */
  ghost predicate StepGood(c: Config, sent: set<Msg>, i: NodeId, n: Node, e: Effect) {
    && NodeGood(c, sent, i, e.node) && Keeps(n, e.node)
    && (e.reply.Broadcast? ==>
          var m := e.reply.msg;
          m.Sender() == i && Honest(c, m) && (m.Commit? ==> e.node.consensusClass == Some(m.c.cls)))
  }

  lemma StartGood(c: Config, sent: set<Msg>, i: NodeId, primary: NodeId, seqNo: int, requestId: string, imageHash: string,
                  quorum: set<NodeId>)
    requires Faultless(c) && c.Correct(i)
    ensures var n := NewNode(i, primary, c.f, quorum);
            StepGood(c, sent, i, n, StartRound(n, requestId, imageHash, seqNo, c.probs[i]))
  {
    PutGet<NodeId, Response>([], i, Response(ArgMax(c.probs[i]), c.probs[i]));
  }

  /** A new PREPARE leaves the first one in front; a node's own repeats its vote. */
  lemma FirstStays(c: Config, prepares: Dict<NodeId, PrepareMsg>, m: PrepareMsg)
    requires Faultless(c) && PreparesOk(c, prepares) && m.sender in c.nodes && Honest(c, Prepare(m))
    ensures PreparesOk(c, Put(prepares, m.sender, m)) && Put(prepares, m.sender, m) != []
    ensures prepares != [] ==> Put(prepares, m.sender, m)[0].1.response.cls == prepares[0].1.response.cls
  {
    PutGet(prepares, m.sender, m);
    if prepares != [] {
      assert Honest(c, Prepare(prepares[0].1));
    }
  }

  lemma PrePrepareGood(c: Config, sent: set<Msg>, i: NodeId, n: Node, m: PrePrepareMsg)
    requires Faultless(c) && NodeGood(c, sent, i, n) && m.sender in c.nodes && Honest(c, PrePrepare(m))
    ensures StepGood(c, sent, i, n, HandlePrePrepare(n, m))
  {
    hide Put, Has, Get, Echoed;
    var e := HandlePrePrepare(n, m);
    if e.reply.Broadcast? {
      PutGet(n.responses, m.sender, m.response);
      FirstStays(c, n.prepares, e.reply.msg.p);
    }
  }

  lemma PrepareGood(c: Config, sent: set<Msg>, i: NodeId, n: Node, m: PrepareMsg)
    requires Faultless(c) && NodeGood(c, sent, i, n) && m.sender in c.nodes && Honest(c, Prepare(m))
    ensures StepGood(c, sent, i, n, HandlePrepare(n, m))
  {
    hide ConsensusClass, Put, Has, Get, Echoed;
    if !Has(n.prepares, m.sender) {
      PutGet(n.responses, m.sender, m.response);
      FirstStays(c, n.prepares, m);
      var prepares := Put(n.prepares, m.sender, m);
      FirstClass(prepares);
      PutGet(n.commits, i, CommitMsg(n.view, n.seqNo, i, n.requestId, prepares[0].1.response.cls, ""));
    }
  }

  lemma CommitGood(c: Config, sent: set<Msg>, i: NodeId, n: Node, m: CommitMsg)
    requires Faultless(c) && NodeGood(c, sent, i, n) && Commit(m) in sent
    ensures StepGood(c, sent, i, n, HandleCommit(n, m))
  {
    hide Put, Has, Get, PreparesOk;
    PutGet(n.commits, m.sender, m);
  }

  lemma OtherGood(c: Config, sent: set<Msg>, i: NodeId, n: Node, msg: Msg)
    requires Faultless(c) && NodeGood(c, sent, i, n) && (msg.ViewChange? || msg.NewView?)
    ensures StepGood(c, sent, i, n, Handle(n, msg))
  {
    hide Put, Has, Get, PreparesOk, Echoed, MaxNewView, ElectPrimary, Evidence;
  }

  lemma HandleGood(c: Config, sent: set<Msg>, i: NodeId, n: Node, msg: Msg)
    requires Faultless(c) && NodeGood(c, sent, i, n) && msg in sent && msg.Sender() in c.nodes && Honest(c, msg)
    ensures StepGood(c, sent, i, n, Handle(n, msg))
  {
    hide HandlePrePrepare, HandlePrepare, HandleCommit, HandleViewChange, HandleNewView, NodeGood;
    match msg
    case PrePrepare(m) => PrePrepareGood(c, sent, i, n, m);
    case Prepare(m) => PrepareGood(c, sent, i, n, m);
    case Commit(m) => CommitGood(c, sent, i, n, m);
    case _ => OtherGood(c, sent, i, n, msg);
  }

  lemma TimerGood(c: Config, sent: set<Msg>, i: NodeId, n: Node, expired: bool)
    requires NodeGood(c, sent, i, n)
    ensures StepGood(c, sent, i, n, CheckTimeout(n, expired))
  {
    hide PreparesOk, Echoed;
  }

  /** More messages on the network take nothing from a node. */
  lemma GoodStays(c: Config, sent: set<Msg>, more: set<Msg>, i: NodeId, n: Node)
    requires NodeGood(c, sent, i, n) && sent <= more
    ensures NodeGood(c, more, i, n)
  {
    hide PreparesOk, OwnVote;
  }

  lemma RecordGood(c: Config, s: System, i: NodeId, n: Node, e: Effect)
    requires Faultless(c) && Sound(c, s) && c.Correct(i) && StepGood(c, s.sent, i, n, e)
    requires if i in s.machines then n == s.machines[i] else true
    ensures Sound(c, Record(s, i, e))
  {
    hide NodeGood, Honest;
    var next := Record(s, i, e);
    forall j | j in next.machines ensures NodeGood(c, next.sent, j, next.machines[j]) {
      GoodStays(c, s.sent, next.sent, j, next.machines[j]);
    }
  }

  lemma PerformGood(c: Config, s: System, a: Action)
    requires Faultless(c) && Sound(c, s) && Enabled(c, s, a)
    ensures Sound(c, Perform(c, s, a))
    ensures forall i | i in s.machines :: i in Perform(c, s, a).machines && Keeps(s.machines[i], Perform(c, s, a).machines[i])
  {
    hide NodeGood, Honest, Handle, QoIProtocol.StartRound, CheckTimeout, Sound;
    match a
    case Start(i, primary, seqNo, requestId, imageHash, quorum) =>
      StartGood(c, s.sent, i, primary, seqNo, requestId, imageHash, quorum);
      var n := NewNode(i, primary, c.f, quorum);
      RecordGood(c, s, i, n, StartRound(n, requestId, imageHash, seqNo, c.probs[i]));
    case Deliver(i, msg) =>
      Member(c, s, i);
      assert Honest(c, msg) && msg.Sender() in c.nodes by { Known(c, s, msg); }
      HandleGood(c, s.sent, i, s.machines[i], msg);
      RecordGood(c, s, i, s.machines[i], Handle(s.machines[i], msg));
    case Timer(i, expired) =>
      Member(c, s, i);
      TimerGood(c, s.sent, i, s.machines[i], expired);
      RecordGood(c, s, i, s.machines[i], CheckTimeout(s.machines[i], expired));
    case Forge(msg) =>
  }

  lemma Member(c: Config, s: System, i: NodeId)
    requires Sound(c, s) && i in s.machines
    ensures NodeGood(c, s.sent, i, s.machines[i]) && c.Correct(i)
  {}

  lemma Known(c: Config, s: System, msg: Msg)
    requires Sound(c, s) && msg in s.sent
    ensures Honest(c, msg) && msg.Sender() in c.nodes
  {}

  lemma {:induction false} RunSound(c: Config, run: seq<Action>)
    requires Faultless(c)
    ensures Sound(c, After(c, run))
  {
    if run != [] {
      hide Sound, Perform, Enabled;
      var before := run[..|run| - 1];
      RunSound(c, before);
      if Enabled(c, After(c, before), run[|run| - 1]) {
        PerformGood(c, After(c, before), run[|run| - 1]);
      }
    } else {
      assert After(c, run) == Nothing;
    }
  }

  /** Among three nodes no two decide differently: an outcome takes two nodes of its class. */
  lemma FaultlessAgreement(c: Config, run: seq<Action>, i: NodeId, j: NodeId)
    requires Faultless(c) && |c.nodes| <= 3
    requires i in After(c, run).machines && After(c, run).machines[i].outcome.Some?
    requires j in After(c, run).machines && After(c, run).machines[j].outcome.Some?
    ensures After(c, run).machines[i].outcome.value.cls == After(c, run).machines[j].outcome.value.cls
  {
    hide After, PreparesOk, OwnVote;
    RunSound(c, run);
    var s := After(c, run);
    var x, y := s.machines[i].outcome.value.cls, s.machines[j].outcome.value.cls;
    assert NodeGood(c, s.sent, i, s.machines[i]) && NodeGood(c, s.sent, j, s.machines[j]);
    var a :| Commit(a) in s.sent && a.sender != i && a.cls == x;
    var b :| Commit(b) in s.sent && b.sender != j && b.cls == y;
    assert Commit(a).Sender() in c.nodes && Commit(b).Sender() in c.nodes;
    if x != y {
      SubsetSize({i, j, a.sender, b.sender}, c.nodes);
    }
  }

  /** A class, once settled, and an outcome, once reached, stay, in every continuation. */
  lemma {:induction false} FaultlessFinal(c: Config, run: seq<Action>, n: nat, i: NodeId)
    requires Faultless(c) && n <= |run| && i in After(c, run[..n]).machines
    ensures i in After(c, run).machines && Keeps(After(c, run[..n]).machines[i], After(c, run).machines[i])
    ensures var earlier, later := After(c, run[..n]).machines[i].outcome, After(c, run).machines[i].outcome;
            earlier.Some? ==> later.Some? && later.value.cls == earlier.value.cls
  {
    hide Perform, Enabled, Sound;
    if n == |run| {
      assert run[..n] == run;
    } else {
      var before, last := run[..|run| - 1], run[|run| - 1];
      assert before[..n] == run[..n];
      FaultlessFinal(c, before, n, i);
      RunSound(c, before);
      if Enabled(c, After(c, before), last) {
        PerformGood(c, After(c, before), last);
      }
    }
    OutcomeHasClass(c, run[..n], i);
    OutcomeHasClass(c, run, i);
  }

  lemma OutcomeHasClass(c: Config, run: seq<Action>, i: NodeId)
    requires Faultless(c) && i in After(c, run).machines
    ensures var n := After(c, run).machines[i];
            n.outcome.Some? ==> n.consensusClass == Some(n.outcome.value.cls)
  {
    hide After;
    RunSound(c, run);
    assert NodeGood(c, After(c, run).sent, i, After(c, run).machines[i]);
  }
}
