/** From agreement to payment: what the outcome of a correct node says about the votes it pays for. */
module QoIOutcomes {
  import opened Collections
  import opened Quality
  import opened Rewards
  import opened QoIProtocol
  import opened QoINetwork
  import Constants
  import Ledger
  import Supply
  import BlockBuilder
  import Settlement
  import Engine

  /** Recorded votes come from participants; a correct one's is its own argmax. */
  ghost predicate ResponsesOk(c: Config, responses: Dict<NodeId, Response>) {
    && Distinct(responses)
    && forall k :: Has(responses, k) ==> k in c.nodes && (c.Valid() && c.Correct(k) ==> Get(responses, k).cls == c.Vote(k))
  }

  /** Whoever's PREPARE is stored has a recorded vote. */
  ghost predicate Recorded(n: Node) {
    forall k :: Has(n.prepares, k) ==> Has(n.responses, k)
  }

  /** The correct nodes whose recorded votes agree with the outcome. */
  ghost function Supporters(c: Config, o: Outcome): set<NodeId> {
    set k | k in c.nodes && c.Correct(k) && Agrees(o.responses, k, o.cls)
  }

  /** The outcome can be paid: scoring succeeds and at least f+1 correct nodes stand behind the class. */
  ghost predicate Payable(c: Config, o: Outcome) {
    ResponsesOk(c, o.responses) && Scorable(o.responses, o.cls) && |Supporters(c, o)| >= c.f + 1
  }

  ghost predicate RecordsOk(c: Config, n: Node) {
    ResponsesOk(c, n.responses) && Recorded(n) && (n.outcome.Some? ==> Payable(c, n.outcome.value))
  }

  lemma PutResponse(c: Config, responses: Dict<NodeId, Response>, k: NodeId, r: Response)
    requires ResponsesOk(c, responses) && k in c.nodes && (c.Valid() && c.Correct(k) ==> r.cls == c.Vote(k))
    ensures ResponsesOk(c, Put(responses, k, r))
  {
    PutGet(responses, k, r);
  }

  lemma StartRecords(c: Config, i: NodeId, primary: NodeId, seqNo: int, requestId: string, imageHash: string, quorum: set<NodeId>)
    requires c.Valid() && c.Correct(i)
    ensures RecordsOk(c, StartRound(NewNode(i, primary, c.f, quorum), requestId, imageHash, seqNo, c.probs[i]).node)
  {
    PutResponse(c, [], i, Response(ArgMax(c.probs[i]), c.probs[i]));
  }

  lemma PrePrepareRecords(c: Config, i: NodeId, n: Node, m: PrePrepareMsg)
    requires NodeOk(c, i, n) && RecordsOk(c, n) && m.sender in c.nodes && Honest(c, PrePrepare(m))
    ensures RecordsOk(c, HandlePrePrepare(n, m).node)
  {
    hide Put, Has, Get, Payable, ResponsesOk, PreparesOk, CommitsOk, Backed, OutcomeOk;
    var e := HandlePrePrepare(n, m);
    if e.reply.Broadcast? {
      PutResponse(c, n.responses, m.sender, m.response);
      PutGet(n.responses, m.sender, m.response);
      PutGet(n.prepares, n.id, e.reply.msg.p);
    }
  }

  lemma PrepareRecords(c: Config, i: NodeId, n: Node, m: PrepareMsg)
    requires NodeOk(c, i, n) && RecordsOk(c, n) && m.sender in c.nodes && Honest(c, Prepare(m))
    ensures RecordsOk(c, HandlePrepare(n, m).node)
  {
    hide Put, Has, Get, Payable, ResponsesOk, NodeOk, ConsensusClass;
    PutResponse(c, n.responses, m.sender, m.response);
    PutGet(n.responses, m.sender, m.response);
    PutGet(n.prepares, m.sender, m);
  }

  /** A voter for the agreed class whose PREPARE is stored has its agreeing vote recorded. */
  lemma VoterAgrees(c: Config, n: Node, cls: int, k: NodeId)
    requires c.Valid() && PreparesOk(c, n.prepares) && ResponsesOk(c, n.responses) && Recorded(n)
    requires k in Voters(n.prepares, cls) - c.byzantine
    ensures k in c.nodes && c.Correct(k) && Agrees(n.responses, k, cls)
  {
    VoterSupports(c, n.prepares, cls, k);
    var p :| 0 <= p < |n.prepares| && n.prepares[p].0 == k && n.prepares[p].1.response.cls == cls;
    GetEntry(n.prepares, n.prepares[p]);
  }

  lemma BackedIsPayable(c: Config, n: Node, o: Outcome)
    requires c.Valid() && n.f == c.f && PreparesOk(c, n.prepares) && ResponsesOk(c, n.responses) && Recorded(n) && Backed(n)
    requires n.consensusClass == Some(o.cls) && o.responses == n.responses && Scorable(o.responses, o.cls)
    ensures Payable(c, o)
  {
    hide Classes, Scorable, ResponsesOk, Recorded, Voters, Agrees, Honest;
    var voters := Voters(n.prepares, o.cls);
    VoterCount(n.prepares, o.cls);
    forall k | k in voters - c.byzantine ensures k in Supporters(c, o) {
      VoterAgrees(c, n, o.cls, k);
    }
    MostAreHonest(c, voters, Supporters(c, o));
  }

  lemma CommitRecords(c: Config, i: NodeId, n: Node, m: CommitMsg)
    requires c.Valid() && NodeOk(c, i, n) && RecordsOk(c, n)
    ensures RecordsOk(c, HandleCommit(n, m).node)
  {
    hide Put, Has, Get, Payable, ResponsesOk, PreparesOk, CommitsOk, OwnVote, OutcomeOk, Backed, Scorable;
    var after := HandleCommit(n, m).node;
    if after.outcome != n.outcome {
      BackedIsPayable(c, n, after.outcome.value);
    }
  }

  lemma HandleRecords(c: Config, i: NodeId, n: Node, msg: Msg)
    requires c.Valid() && NodeOk(c, i, n) && RecordsOk(c, n) && msg.Sender() in c.nodes && Honest(c, msg)
    ensures RecordsOk(c, Handle(n, msg).node)
  {
    hide HandlePrePrepare, HandlePrepare, HandleCommit, HandleViewChange, HandleNewView, NodeOk, RecordsOk;
    match msg
    case PrePrepare(m) => PrePrepareRecords(c, i, n, m);
    case Prepare(m) => PrepareRecords(c, i, n, m);
    case Commit(m) => CommitRecords(c, i, n, m);
    case ViewChange(m) => ViewsKeepRecords(c, n, m);
    case NewView(m) => NewViewKeepsRecords(c, n, m);
  }

  lemma ViewsKeepRecords(c: Config, n: Node, m: ViewChangeMsg)
    requires RecordsOk(c, n)
    ensures RecordsOk(c, HandleViewChange(n, m).node)
  {
    hide Put, MaxNewView, ElectPrimary, Evidence, Payable, ResponsesOk, Has;
  }

  lemma NewViewKeepsRecords(c: Config, n: Node, m: NewViewMsg)
    requires RecordsOk(c, n)
    ensures RecordsOk(c, HandleNewView(n, m).node)
  {
    hide Payable, ResponsesOk, Has;
  }

  lemma TimerKeepsRecords(c: Config, n: Node, expired: bool)
    requires RecordsOk(c, n)
    ensures RecordsOk(c, CheckTimeout(n, expired).node)
  {
    hide Payable, ResponsesOk, Has;
  }

  ghost predicate AllRecords(c: Config, s: System) {
    forall i | i in s.machines :: RecordsOk(c, s.machines[i])
  }

  lemma {:induction false} RunRecords(c: Config, run: seq<Action>)
    requires c.Valid()
    ensures AllRecords(c, After(c, run))
  {
    hide RecordsOk, NodeOk, Handle, StartRound, CheckTimeout;
    if run != [] {
      var s, a := After(c, run[..|run| - 1]), run[|run| - 1];
      RunRecords(c, run[..|run| - 1]);
      RunOk(c, run[..|run| - 1]);
      if Enabled(c, s, a) {
        match a
        case Start(i, primary, seqNo, requestId, imageHash, quorum) =>
          StartRecords(c, i, primary, seqNo, requestId, imageHash, quorum);
        case Deliver(i, msg) => HandleRecords(c, i, s.machines[i], msg);
        case Timer(i, expired) => TimerKeepsRecords(c, s.machines[i], expired);
        case Forge(msg) =>
      }
    }
  }

  /** In every run, an outcome of a correct node can be paid: scoring succeeds, at least f+1 correct
      nodes voted for its class, and every correct node is recorded with its own vote. */
  lemma OutcomesPayable(c: Config, run: seq<Action>, i: NodeId)
    requires c.Valid() && i in After(c, run).machines && After(c, run).machines[i].outcome.Some?
    ensures Payable(c, After(c, run).machines[i].outcome.value)
  {
    hide Payable, ResponsesOk;
    RunRecords(c, run);
  }

  lemma {:induction false} FilterAll<T>(keep: T -> bool, s: seq<T>)
    requires forall i :: 0 <= i < |s| ==> keep(s[i])
    ensures Filter(keep, s) == s
  {
    if s != [] {
      FilterAll(keep, s[..|s| - 1]);
      assert s == s[..|s| - 1] + [s[|s| - 1]];
    }
  }

  lemma SignersInside(o: Outcome)
    requires Keys(o.commitSignatures) <= o.electedQuorum
    ensures Engine.Insiders(o) == o
  {
    forall i | 0 <= i < |o.commitSignatures| ensures Engine.InQuorum(o.electedQuorum)(o.commitSignatures[i]) {
      assert o.commitSignatures[i].0 in Keys(o.commitSignatures);
    }
    FilterAll(Engine.InQuorum(o.electedQuorum), o.commitSignatures);
  }

  /** From a round to the chain: whatever happened in the round, an outcome of a correct node becomes,
      on the tip it is built on, a block that is rejected only for a user transaction, and that unless its
      pool is negative issues exactly its fees, the inference reward and the bonus of an agreeing primary. */
  lemma OutcomesSeal(c: Config, run: seq<Action>, i: NodeId, e: Ledger.Crypto, f: nat, s: Ledger.Books, tip: Ledger.Block,
                     sqrt: real -> real, id: Ledger.IdOf, clock: BlockBuilder.Clock, time: real,
                     inferenceTx: Ledger.Tx, txs: seq<Ledger.Tx>)
    requires c.Valid() && i in After(c, run).machines && After(c, run).machines[i].outcome.Some?
    requires After(c, run).machines[i].outcome.value.electedQuorum == c.nodes && f <= c.f
    requires inferenceTx.Family() == Ledger.INFERENCE
    requires forall k :: 0 <= k < |txs| ==> txs[k].Family() == Ledger.SIMPLE
    ensures var o := Engine.Insiders(After(c, run).machines[i].outcome.value);
            var b := BlockBuilder.QoIBlock(sqrt, e.sha, id, clock, time, e.headerHash(tip.header), tip.header.height + 1,
                                           o.primary, inferenceTx, txs, o, Ledger.FeeTotal(txs));
            && b.Some?
            && Ledger.BlockCheck(e, f, s, tip, b.value) == Ledger.TxsError(e, s, txs)
            && (Ledger.FeeTotal(txs) + Constants.INFERENCE_REWARD >= 0.0 ==>
                  Supply.MintedBy(b.value.AllTransactions()) == Settlement.Issued(txs, o))
  {
    hide After, BlockBuilder.QoIBlock, Ledger.BlockCheck, Ledger.TxsError, Ledger.FeeTotal, Supply.MintedBy, Settlement.Issued,
         ResponsesOk, Scorable, Engine.Insiders, Distinct;
    var n := After(c, run).machines[i];
    var o := n.outcome.value;
    OutcomesPayable(c, run, i);
    RunOk(c, run);
    SignersInside(o);
    KeyCount(o.commitSignatures);
    SomeoneAgrees(c, o);
    Settlement.BuiltBlockMints(sqrt, e.sha, id, clock, time, e.headerHash(tip.header), tip.header.height + 1, o.primary,
                               inferenceTx, txs, o);
    var b := BlockBuilder.QoIBlock(sqrt, e.sha, id, clock, time, e.headerHash(tip.header), tip.header.height + 1,
                                   o.primary, inferenceTx, txs, o, Ledger.FeeTotal(txs)).value;
    Settlement.BuiltBlockVerdict(e, f, s, tip, sqrt, id, clock, time, o.primary, inferenceTx, txs, o, Ledger.FeeTotal(txs), b);
  }

  lemma SomeoneAgrees(c: Config, o: Outcome)
    requires Payable(c, o)
    ensures Distinct(o.responses) && exists k :: 0 <= k < |o.responses| && o.responses[k].1.cls == o.cls
  {
    var k :| k in Supporters(c, o);
    assert o.responses[IndexOf(o.responses, k)].1.cls == o.cls;
  }
}
