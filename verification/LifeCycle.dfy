/** What a chain records about nodes, contracts, keys and requests, told from the history of its
    transactions. */
module LifeCycle {
  import opened Collections
  import opened Constants
  import opened Ledger
  import Registry

  /** A transaction with the height and the proposer of its block. */
  datatype Event = Event(tx: Tx, height: int, proposer: Address)

  function BlockEvents(b: Block): seq<Event> {
    var txs := b.AllTransactions();
    seq(|txs|, i requires 0 <= i < |txs| => Event(txs[i], b.header.height, b.header.proposerId))
  }

  /** A chain's transactions in the order they are applied. */
  function History(blocks: seq<Block>): seq<Event> {
    if blocks == [] then [] else History(blocks[..|blocks| - 1]) + BlockEvents(blocks[|blocks| - 1])
  }

  /** The ledger after a history, starting from nothing. */
  function After(e: Crypto, h: seq<Event>): Books {
    if h == [] then Blank else
    var last := h[|h| - 1];
    ApplyTx(e, After(e, h[..|h| - 1]), last.tx, last.height, last.proposer)
  }

  lemma {:induction false} TxsAfter(e: Crypto, h: seq<Event>, txs: seq<Tx>, height: int, proposer: Address)
    ensures After(e, h + seq(|txs|, i requires 0 <= i < |txs| => Event(txs[i], height, proposer)))
              == ApplyTxs(e, After(e, h), txs, height, proposer)
  {
    hide ApplyTx;
    var more := seq(|txs|, i requires 0 <= i < |txs| => Event(txs[i], height, proposer));
    if txs == [] {
      assert h + more == h;
    } else {
      var before := txs[..|txs| - 1];
      TxsAfter(e, h, before, height, proposer);
      assert (h + more)[..|h + more| - 1]
          == h + seq(|before|, i requires 0 <= i < |before| => Event(before[i], height, proposer));
    }
  }

  lemma {:induction false} ReplayIsAfter(e: Crypto, blocks: seq<Block>)
    ensures Replay(e, blocks) == After(e, History(blocks))
  {
    hide ApplyTxs, After;
    if blocks == [] {
      NothingAfter(e);
    } else {
      var b := blocks[|blocks| - 1];
      ReplayIsAfter(e, blocks[..|blocks| - 1]);
      TxsAfter(e, History(blocks[..|blocks| - 1]), b.AllTransactions(), b.header.height, b.header.proposerId);
    }
  }

  lemma NothingAfter(e: Crypto)
    ensures After(e, []) == Blank
  {}

  // What happens to a node

  predicate Registers(ev: Event, a: Address) {
    ev.tx.sender == a && ev.tx.payload.Simple?
    && (ev.tx.payload.user.NodeRegister? || ev.tx.payload.user.NodeRegisterDNN? || ev.tx.payload.user.NodeRegisterPOS?)
  }

  predicate Admits(ev: Event, a: Address) {
    ev.tx.payload.System? && ev.tx.payload.protocol.NodeAdmitted? && ev.tx.payload.protocol.nodeId == a
  }

  predicate Rejects(ev: Event, a: Address) {
    ev.tx.payload.System? && ev.tx.payload.protocol.NodeRejected? && ev.tx.payload.protocol.nodeId == a
  }

  predicate Slashes(ev: Event, a: Address) {
    ev.tx.payload.System? && ev.tx.payload.protocol.Slash? && ev.tx.sender == a
  }

  /** A slash that leaves less than the minimum at stake. */
  predicate Expels(e: Crypto, h: seq<Event>, k: nat, a: Address)
    requires k < |h|
  {
    Slashes(h[k], a) && Amount(After(e, h[..k + 1]).stakes, a) < MIN_STAKE
  }

  /** Events that make a registered node active: an admission, or a registration of the legacy kind. */
  predicate Opens(h: seq<Event>, k: nat, a: Address)
    requires k < |h|
  {
    Admits(h[k], a) || (Registers(h[k], a) && h[k].tx.payload.user.NodeRegister?)
  }

  /** Events that leave it inactive: any other registration, a rejection, or a slash below the minimum. */
  predicate Closes(e: Crypto, h: seq<Event>, k: nat, a: Address)
    requires k < |h|
  {
    Rejects(h[k], a) || Expels(e, h, k, a) || (Registers(h[k], a) && !h[k].tx.payload.user.NodeRegister?)
  }

  ghost predicate Active(e: Crypto, h: seq<Event>, a: Address) {
    exists k: nat :: k < |h| && Opens(h, k, a) && forall j: nat :: k < j < |h| ==> !Closes(e, h, j, a)
  }

  /** The record that a registration makes, kind by kind. */
  ghost predicate NewRecord(n: NodeInfo, ev: Event, a: Address)
    requires Registers(ev, a)
  {
    && n.nodeId == a && n.address == a && n.registeredAt == ev.height && !n.pomVerified && n.pomBlock == -1
    && match ev.tx.payload.user
       case NodeRegister(modelName, publicKey, endpoint) =>
         && n.nodeType == POS_NODE && n.isActive && n.modelName == modelName && n.publicKey == publicKey && n.endpoint == endpoint
         && n.weightsHash == n.datasetId == n.architecture == ""
       case NodeRegisterDNN(modelName, architecture, weightsHash, endpoint, datasetId, publicKey) =>
         && n.nodeType == DNN_NODE && !n.isActive && n.modelName == modelName && n.publicKey == publicKey && n.endpoint == endpoint
         && n.weightsHash == weightsHash && n.datasetId == datasetId && n.architecture == architecture
       case NodeRegisterPOS(endpoint, publicKey) =>
         && n.nodeType == POS_NODE && !n.isActive && n.publicKey == publicKey && n.endpoint == endpoint
         && n.modelName == n.weightsHash == n.datasetId == n.architecture == ""
       case _ => false
  }

  /** A node's record after an event that is not a registration of its own. */
  function Changed(n: NodeInfo, ev: Event, a: Address, stake: real): NodeInfo {
    if Admits(ev, a) then n.(isActive := true, pomVerified := true, pomBlock := ev.height)
    else if Rejects(ev, a) || (Slashes(ev, a) && stake < MIN_STAKE) then n.(isActive := false)
    else n
  }

  /** One transaction's effect on one node's record. */
  ghost predicate Step(s: Books, t: Books, ev: Event, a: Address) {
    && (Registers(ev, a) ==> a in t.nodes && NewRecord(t.nodes[a], ev, a))
    && (!Registers(ev, a) ==> (a in t.nodes <==> a in s.nodes))
    && (!Registers(ev, a) && a in s.nodes ==> t.nodes[a] == Changed(s.nodes[a], ev, a, Amount(t.stakes, a)))
  }

  lemma NewInfoIsRecord(ev: Event, p: UserPayload, a: Address)
    requires ev.tx.payload == Simple(p) && Registers(ev, a)
    ensures NewRecord(NewNodeInfo(a, p, ev.height), ev, a)
  {}

  lemma UserStep(e: Crypto, s: Books, ev: Event, p: UserPayload, a: Address)
    requires ev.tx.payload == Simple(p)
    ensures Step(s, ApplySimple(e, PayFee(s, ev.tx, ev.proposer), ev.tx, p, ev.height), ev, a)
  {
    hide ApplySimple, NewNodeInfo, NewRecord, Credit, Amount;
    Registry.SimpleRegisters(e, PayFee(s, ev.tx, ev.proposer), ev.tx, p, ev.height);
    if Registers(ev, a) { NewInfoIsRecord(ev, p, a); }
  }

  lemma SlashNodes(s: Books, tx: Tx, p: ProtocolPayload, height: int)
    requires p.Slash?
    ensures var t := ApplySystem(s, tx, p, height); var a := tx.sender;
            if a in s.nodes && Amount(t.stakes, a) < MIN_STAKE then t.nodes == s.nodes[a := s.nodes[a].(isActive := false)]
            else t.nodes == s.nodes
  {
    hide Max0;
  }

  lemma SlashStep(s: Books, ev: Event, a: Address)
    requires ev.tx.payload.System? && ev.tx.payload.protocol.Slash?
    ensures Step(s, ApplySystem(s, ev.tx, ev.tx.payload.protocol, ev.height), ev, a)
  {
    hide ApplySystem, Amount;
    SlashNodes(s, ev.tx, ev.tx.payload.protocol, ev.height);
  }

  lemma AdmissionNodes(s: Books, tx: Tx, p: ProtocolPayload, height: int)
    requires p.NodeAdmitted?
    ensures ApplySystem(s, tx, p, height).nodes
              == if p.nodeId in s.nodes
                 then s.nodes[p.nodeId := s.nodes[p.nodeId].(isActive := true, pomVerified := true, pomBlock := height)]
                 else s.nodes
  {}

  lemma RejectionNodes(s: Books, tx: Tx, p: ProtocolPayload, height: int)
    requires p.NodeRejected?
    ensures ApplySystem(s, tx, p, height).nodes
              == if p.nodeId in s.nodes then s.nodes[p.nodeId := s.nodes[p.nodeId].(isActive := false)] else s.nodes
  {}

  lemma AdmissionStep(s: Books, ev: Event, a: Address)
    requires ev.tx.payload.System? && (ev.tx.payload.protocol.NodeAdmitted? || ev.tx.payload.protocol.NodeRejected?)
    ensures Step(s, ApplySystem(s, ev.tx, ev.tx.payload.protocol, ev.height), ev, a)
  {
    hide ApplySystem, Amount;
    if ev.tx.payload.protocol.NodeAdmitted? {
      AdmissionNodes(s, ev.tx, ev.tx.payload.protocol, ev.height);
    } else {
      RejectionNodes(s, ev.tx, ev.tx.payload.protocol, ev.height);
    }
  }

  lemma OtherProtocolStep(s: Books, ev: Event, p: ProtocolPayload, a: Address)
    requires ev.tx.payload == System(p) && !p.Slash? && !p.NodeAdmitted? && !p.NodeRejected?
    ensures Step(s, ApplySystem(s, ev.tx, p, ev.height), ev, a)
  {
    hide Credit, Voted, Amount;
    assert ApplySystem(s, ev.tx, p, ev.height).nodes == s.nodes;
  }

  lemma OneStep(e: Crypto, s: Books, ev: Event, a: Address)
    ensures Step(s, ApplyTx(e, s, ev.tx, ev.height, ev.proposer), ev, a)
  {
    hide ApplySimple, ApplySystem, PayFee, Step;
    match ev.tx.payload
    case Simple(p) => UserStep(e, s, ev, p, a);
    case Inference(_) => RequestStep(s, ev, a);
    case System(p) =>
      if p.Slash? {
        SlashStep(s, ev, a);
      } else if p.NodeAdmitted? || p.NodeRejected? {
        AdmissionStep(s, ev, a);
      } else {
        OtherProtocolStep(s, ev, p, a);
      }
  }

  lemma RequestStep(s: Books, ev: Event, a: Address)
    requires ev.tx.payload.Inference?
    ensures Step(s, s, ev, a)
  {}

  // Histories

  ghost predicate Happens(h: seq<Event>, what: Event -> bool) {
    exists k: nat :: k < |h| && what(h[k])
  }

  /** The k-th event is the last of its kind. */
  ghost predicate LastAt(h: seq<Event>, k: nat, what: Event -> bool) {
    k < |h| && what(h[k]) && forall j: nat :: k < j < |h| ==> !what(h[j])
  }

  /** The k-th event is the first of its kind. */
  ghost predicate FirstAt(h: seq<Event>, k: nat, what: Event -> bool) {
    k < |h| && what(h[k]) && forall j: nat :: j < k ==> !what(h[j])
  }

  lemma HistoryGrows(h: seq<Event>, what: Event -> bool)
    requires h != []
    ensures Happens(h, what) <==> what(h[|h| - 1]) || Happens(h[..|h| - 1], what)
  {
    var before, n := h[..|h| - 1], |h| - 1;
    assert forall j: nat :: j < n ==> before[j] == h[j];
  }

  // The theorems

  lemma StepOf(e: Crypto, h: seq<Event>, k: nat, a: Address)
    requires k < |h|
    ensures Step(After(e, h[..k]), After(e, h[..k + 1]), h[k], a)
  {
    hide Step, ApplyTx;
    var next := h[..k + 1];
    assert next[..|next| - 1] == h[..k];
    OneStep(e, After(e, h[..k]), h[k], a);
  }

  lemma LastStep(e: Crypto, h: seq<Event>, a: Address)
    requires h != []
    ensures Step(After(e, h[..|h| - 1]), After(e, h), h[|h| - 1], a)
  {
    hide Step, After;
    assert h[..|h|] == h;
    StepOf(e, h, |h| - 1, a);
  }

  function Registering(a: Address): Event -> bool { (ev: Event) => Registers(ev, a) }

  /** Who is registered: exactly whoever has sent a registration. */
  lemma {:induction false} RegisteredExactly(e: Crypto, h: seq<Event>, a: Address)
    ensures a in After(e, h).nodes <==> Happens(h, Registering(a))
  {
    if h == [] {
      NothingAfter(e);
    } else {
      hide NewRecord, Changed, Amount, After, Registers, Happens;
      RegisteredExactly(e, h[..|h| - 1], a);
      LastStep(e, h, a);
      HistoryGrows(h, Registering(a));
    }
  }

  /** The events of a history are those of its beginning and the last one. */
  lemma ActiveStep(e: Crypto, h: seq<Event>, a: Address)
    requires h != []
    ensures Active(e, h, a) <==> Opens(h, |h| - 1, a) || (Active(e, h[..|h| - 1], a) && !Closes(e, h, |h| - 1, a))
  {
    hide Opens, Closes;
    var before, n := h[..|h| - 1], |h| - 1;
    forall j: nat | j < n ensures (Closes(e, before, j, a) <==> Closes(e, h, j, a)) && (Opens(before, j, a) <==> Opens(h, j, a)) {
      EventStays(e, h, j, a);
    }
    if Active(e, h, a) {
      var k: nat :| k < |h| && Opens(h, k, a) && forall j: nat :: k < j < |h| ==> !Closes(e, h, j, a);
      if k < n { assert Opens(before, k, a); }
    }
    if Active(e, before, a) && !Closes(e, h, n, a) {
      var k: nat :| k < n && Opens(before, k, a) && forall j: nat :: k < j < n ==> !Closes(e, before, j, a);
      assert Opens(h, k, a);
    }
  }

  lemma EventStays(e: Crypto, h: seq<Event>, j: nat, a: Address)
    requires h != [] && j < |h| - 1
    ensures Closes(e, h[..|h| - 1], j, a) <==> Closes(e, h, j, a)
    ensures Opens(h[..|h| - 1], j, a) <==> Opens(h, j, a)
  {
    hide After;
    assert h[..|h| - 1][..j + 1] == h[..j + 1] && h[..|h| - 1][j] == h[j];
  }

  /** Who is active: exactly the registered nodes whose last admission, rejection, registration or slash
      below the minimum was an admission or a registration of the legacy kind. */
  lemma {:induction false} ActiveExactly(e: Crypto, h: seq<Event>, a: Address)
    requires a in After(e, h).nodes
    ensures After(e, h).nodes[a].isActive <==> Active(e, h, a)
  {
    hide After, Amount;
    if h == [] {
      NothingAfter(e);
    } else {
      var before, last := h[..|h| - 1], h[|h| - 1];
      LastStep(e, h, a);
      ActiveStep(e, h, a);
      LastCloses(e, h, a);
      if !Registers(last, a) {
        hide Active;
        ActiveExactly(e, before, a);
      }
    }
  }

  lemma LastCloses(e: Crypto, h: seq<Event>, a: Address)
    requires h != []
    ensures var last := h[|h| - 1];
            Closes(e, h, |h| - 1, a) <==>
              || Rejects(last, a) || (Slashes(last, a) && Amount(After(e, h).stakes, a) < MIN_STAKE)
              || (Registers(last, a) && !last.tx.payload.user.NodeRegister?)
  {
    hide After;
    assert h[..|h|] == h;
  }

  /** The node's last registration. */
  ghost predicate LastRegistration(h: seq<Event>, k: nat, a: Address) {
    k < |h| && Registers(h[k], a) && forall j: nat :: k < j < |h| ==> !Registers(h[j], a)
  }

  ghost predicate LastAdmission(h: seq<Event>, k: nat, j: nat, a: Address) {
    k < j < |h| && Admits(h[j], a) && forall i: nat :: j < i < |h| ==> !Admits(h[i], a)
  }

  /** What a registration wrote, apart from activity and admission. */
  ghost predicate Keeps(n: NodeInfo, base: NodeInfo) {
    n == base.(isActive := n.isActive, pomVerified := n.pomVerified, pomBlock := n.pomBlock)
  }

  ghost predicate AdmittedSince(h: seq<Event>, k: nat, a: Address) {
    exists j: nat :: k < j < |h| && Admits(h[j], a)
  }

  /** The height of the last admission after the k-th event, or -1 without one. */
  ghost predicate AdmittedAt(h: seq<Event>, k: nat, a: Address, height: int) {
    && (forall j: nat | LastAdmission(h, k, j, a) :: height == h[j].height)
    && (!AdmittedSince(h, k, a) ==> height == -1)
  }

  /** What a node's record says: what its last registration wrote, and whether and at what height it has been
      admitted since. */
  lemma {:induction false} RecordExactly(e: Crypto, h: seq<Event>, k: nat, a: Address) returns (base: NodeInfo)
    requires LastRegistration(h, k, a)
    ensures NewRecord(base, h[k], a) && a in After(e, h).nodes && Keeps(After(e, h).nodes[a], base)
    ensures After(e, h).nodes[a].pomVerified <==> AdmittedSince(h, k, a)
    ensures AdmittedAt(h, k, a, After(e, h).nodes[a].pomBlock)
    decreases |h|
  {
    hide After, NewRecord, Amount, Registers, Admits, Rejects, Slashes, AdmittedSince, AdmittedAt;
    var before, n := h[..|h| - 1], |h| - 1;
    LastStep(e, h, a);
    if k == n {
      base := After(e, h).nodes[a];
      FreshRecord(base, h[k], a);
      NotYetAdmitted(h, a);
    } else {
      assert before[k] == h[k] && !Registers(h[n], a);
      base := RecordExactly(e, before, k, a);
      AdmittedStep(h, k, a, After(e, before).nodes[a].pomBlock);
    }
  }

  lemma FreshRecord(n: NodeInfo, ev: Event, a: Address)
    requires Registers(ev, a) && NewRecord(n, ev, a)
    ensures !n.pomVerified && n.pomBlock == -1
  {}

  lemma NotYetAdmitted(h: seq<Event>, a: Address)
    requires h != []
    ensures !AdmittedSince(h, |h| - 1, a) && AdmittedAt(h, |h| - 1, a, -1)
  {}

  lemma AdmittedStep(h: seq<Event>, k: nat, a: Address, height: int)
    requires k < |h| - 1 && AdmittedAt(h[..|h| - 1], k, a, height)
    ensures var last := h[|h| - 1];
            && (AdmittedSince(h, k, a) <==> Admits(last, a) || AdmittedSince(h[..|h| - 1], k, a))
            && AdmittedAt(h, k, a, if Admits(last, a) then last.height else height)
  {
    hide Admits;
    var before, n := h[..|h| - 1], |h| - 1;
    assert forall j: nat :: j < n ==> before[j] == h[j];
    forall j: nat | LastAdmission(h, k, j, a) ensures h[j].height == if Admits(h[n], a) then h[n].height else height {
      if j < n { assert LastAdmission(before, k, j, a); }
    }
  }

  // Contracts, answered requests, and keys

  /** A deployment at an address. */
  predicate Deploys(e: Crypto, ev: Event, x: string) {
    ev.tx.payload.Simple? && ev.tx.payload.user.ContractDeploy? && e.contractAddress(ev.tx.sender, ev.tx.nonce) == x
  }

  /** The result of a request. */
  predicate Finishes(ev: Event, id: string) {
    ev.tx.payload.System? && ev.tx.payload.protocol.ConsensusResult? && ev.tx.payload.protocol.requestId == id
  }

  /** A transfer or a change of stake that carries its sender's key. */
  predicate Teaches(ev: Event, a: Address) {
    ev.tx.sender == a && ev.tx.publicKey != "" && ev.tx.payload.Simple?
    && (ev.tx.payload.user.TokenTransfer? || ev.tx.payload.user.Stake? || ev.tx.payload.user.Unstake?)
  }

  function Deployed(ev: Event, x: string): ContractInfo
    requires ev.tx.payload.Simple? && ev.tx.payload.user.ContractDeploy?
  {
    ContractInfo(x, ev.tx.sender, ev.tx.payload.user.bytecode, ev.tx.payload.user.abi, ev.height)
  }

  ghost predicate RecordsStep(e: Crypto, s: Books, t: Books, ev: Event, x: string) {
    && (if Deploys(e, ev, x) then x in t.contracts && t.contracts[x] == Deployed(ev, x)
        else (x in t.contracts <==> x in s.contracts) && (x in s.contracts ==> t.contracts[x] == s.contracts[x]))
    && (if Finishes(ev, x) then x in t.inferenceLog && t.inferenceLog[x] == ev.tx.payload.protocol
        else (x in t.inferenceLog <==> x in s.inferenceLog) && (x in s.inferenceLog ==> t.inferenceLog[x] == s.inferenceLog[x]))
    && (if Teaches(ev, x) && x !in s.pubkeys then x in t.pubkeys && t.pubkeys[x] == ev.tx.publicKey
        else (x in t.pubkeys <==> x in s.pubkeys) && (x in s.pubkeys ==> t.pubkeys[x] == s.pubkeys[x]))
  }

  lemma UserDeploys(e: Crypto, s: Books, tx: Tx, p: UserPayload, height: int)
    ensures var t := ApplySimple(e, s, tx, p, height);
            && t.inferenceLog == s.inferenceLog
            && t.contracts == if !p.ContractDeploy? then s.contracts else
                              var x := e.contractAddress(tx.sender, tx.nonce);
                              s.contracts[x := ContractInfo(x, tx.sender, p.bytecode, p.abi, height)]
  {
    hide Credit, NewNodeInfo;
  }

  lemma UserTeaches(e: Crypto, s: Books, tx: Tx, p: UserPayload, height: int)
    ensures ApplySimple(e, s, tx, p, height).pubkeys
              == if (p.TokenTransfer? || p.Stake? || p.Unstake?) && tx.publicKey != "" && tx.sender !in s.pubkeys
                 then s.pubkeys[tx.sender := tx.publicKey] else s.pubkeys
  {
    hide Credit, NewNodeInfo;
  }

  lemma FeeKeepsRecords(s: Books, tx: Tx, proposer: Address)
    ensures var t := PayFee(s, tx, proposer);
            t.contracts == s.contracts && t.inferenceLog == s.inferenceLog && t.pubkeys == s.pubkeys
  {}

  lemma UserRecords(e: Crypto, s: Books, ev: Event, p: UserPayload, x: string)
    requires ev.tx.payload == Simple(p)
    ensures RecordsStep(e, s, ApplySimple(e, PayFee(s, ev.tx, ev.proposer), ev.tx, p, ev.height), ev, x)
  {
    hide ApplySimple, PayFee;
    FeeKeepsRecords(s, ev.tx, ev.proposer);
    UserDeploys(e, PayFee(s, ev.tx, ev.proposer), ev.tx, p, ev.height);
    UserTeaches(e, PayFee(s, ev.tx, ev.proposer), ev.tx, p, ev.height);
  }

  lemma ProtocolRecords(e: Crypto, s: Books, ev: Event, p: ProtocolPayload, x: string)
    requires ev.tx.payload == System(p)
    ensures RecordsStep(e, s, ApplySystem(s, ev.tx, p, ev.height), ev, x)
  {
    hide Credit, Voted, Amount, Max0;
  }

  lemma RecordsOf(e: Crypto, h: seq<Event>, x: string)
    requires h != []
    ensures RecordsStep(e, After(e, h[..|h| - 1]), After(e, h), h[|h| - 1], x)
  {
    hide ApplySimple, ApplySystem, PayFee, RecordsStep;
    var s, last := After(e, h[..|h| - 1]), h[|h| - 1];
    match last.tx.payload
    case Simple(p) => UserRecords(e, s, last, p, x);
    case Inference(_) => RequestRecords(e, s, last, x);
    case System(p) => ProtocolRecords(e, s, last, p, x);
  }

  lemma RequestRecords(e: Crypto, s: Books, ev: Event, x: string)
    requires ev.tx.payload.Inference?
    ensures RecordsStep(e, s, s, ev, x)
  {}

  lemma LastGrows(h: seq<Event>, k: nat, what: Event -> bool)
    requires LastAt(h, k, what)
    ensures what(h[k]) && (k < |h| - 1 ==> !what(h[|h| - 1]) && LastAt(h[..|h| - 1], k, what) && h[..|h| - 1][k] == h[k])
  {}

  lemma FirstGrows(h: seq<Event>, k: nat, what: Event -> bool)
    requires FirstAt(h, k, what)
    ensures what(h[k]) && (k < |h| - 1 ==> FirstAt(h[..|h| - 1], k, what) && h[..|h| - 1][k] == h[k])
    ensures if k == |h| - 1 then !Happens(h[..|h| - 1], what) else Happens(h[..|h| - 1], what)
  {}

  function Deploying(e: Crypto, x: string): Event -> bool { (ev: Event) => Deploys(e, ev, x) }

  function Finishing(id: string): Event -> bool { (ev: Event) => Finishes(ev, id) }

  function Teaching(a: Address): Event -> bool { (ev: Event) => Teaches(ev, a) }

  /** The contracts: exactly those deployed, each as its last deployment says. */
  lemma {:induction false} ContractsExactly(e: Crypto, h: seq<Event>, x: string)
    ensures x in After(e, h).contracts <==> Happens(h, Deploying(e, x))
    ensures forall k: nat | LastAt(h, k, Deploying(e, x)) ::
              x in After(e, h).contracts && After(e, h).contracts[x] == Deployed(h[k], x)
  {
    if h == [] {
      NothingAfter(e);
    } else {
      hide After, Finishes, Teaches, Deploys, Happens, LastAt;
      ContractsExactly(e, h[..|h| - 1], x);
      RecordsOf(e, h, x);
      HistoryGrows(h, Deploying(e, x));
      forall k: nat | LastAt(h, k, Deploying(e, x))
        ensures x in After(e, h).contracts && After(e, h).contracts[x] == Deployed(h[k], x)
      {
        LastGrows(h, k, Deploying(e, x));
      }
    }
  }

  /** The log: exactly the requests that have a result, each with its last one. */
  lemma {:induction false} LogExactly(e: Crypto, h: seq<Event>, id: string)
    ensures id in After(e, h).inferenceLog <==> Happens(h, Finishing(id))
    ensures forall k: nat | LastAt(h, k, Finishing(id)) ::
              id in After(e, h).inferenceLog && After(e, h).inferenceLog[id] == h[k].tx.payload.protocol
  {
    if h == [] {
      NothingAfter(e);
    } else {
      hide After, Finishes, Teaches, Deploys, Happens, LastAt;
      LogExactly(e, h[..|h| - 1], id);
      RecordsOf(e, h, id);
      HistoryGrows(h, Finishing(id));
      forall k: nat | LastAt(h, k, Finishing(id))
        ensures id in After(e, h).inferenceLog && After(e, h).inferenceLog[id] == h[k].tx.payload.protocol
      {
        LastGrows(h, k, Finishing(id));
      }
    }
  }

  /** The keys: of exactly those senders that have shown one, the first one each. */
  lemma {:induction false} KeysExactly(e: Crypto, h: seq<Event>, a: Address)
    ensures a in After(e, h).pubkeys <==> Happens(h, Teaching(a))
    ensures forall k: nat | FirstAt(h, k, Teaching(a)) ::
              a in After(e, h).pubkeys && After(e, h).pubkeys[a] == h[k].tx.publicKey
  {
    if h == [] {
      NothingAfter(e);
    } else {
      hide After, Finishes, Teaches, Deploys, Happens, FirstAt;
      KeysExactly(e, h[..|h| - 1], a);
      RecordsOf(e, h, a);
      HistoryGrows(h, Teaching(a));
      forall k: nat | FirstAt(h, k, Teaching(a)) ensures a in After(e, h).pubkeys && After(e, h).pubkeys[a] == h[k].tx.publicKey {
        FirstGrows(h, k, Teaching(a));
      }
    }
  }
}
