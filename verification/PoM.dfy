/** Proof of model: counting the validators' votes on a pending node. */
module PoM {
  import opened Collections
  import opened Constants
  import opened Quality
  import opened Ledger

  datatype Vote = Vote(verifier: Address, verified: bool, accuracy: real)

  /** The votes so far; of one verifier only the first counts. */
  function AfterVotes(start: PomRecord, votes: seq<Vote>): PomRecord {
    if votes == [] then start else
    var last := votes[|votes| - 1];
    Voted(AfterVotes(start, votes[..|votes| - 1]), last.verifier, last.verified, last.accuracy)
  }

  predicate IsAdmitted(r: PomRecord, f: nat) {
    |r.positive| >= 2 * f + 1
  }

  predicate IsRejected(r: PomRecord, f: nat, validators: nat) {
    var remaining := validators - |r.positive| - |r.negative|;
    |r.negative| >= 2 * f + 1 || |r.positive| + remaining < 2 * f + 1
  }

  function MeanAccuracy(r: PomRecord): real {
    if r.accuracies == [] then 0.0 else Sum(r.accuracies) / |r.accuracies| as real
  }

  datatype Verdict = Admitted | Rejected | Undecided

  function VerdictOf(r: PomRecord, f: nat, validators: nat): Verdict {
    if IsAdmitted(r, f) then Admitted else if IsRejected(r, f, validators) then Rejected else Undecided
  }

  /** The transaction that announces the verdict. */
  function Tally(nodeId: Address, r: PomRecord, f: nat, validators: nat): Option<ProtocolPayload> {
    match VerdictOf(r, f, validators)
    case Admitted => Some(NodeAdmitted(nodeId, r.nodeType, MeanAccuracy(r)))
    case Rejected =>
      Some(NodeRejected(nodeId, if exists i :: 0 <= i < |r.accuracies| && r.accuracies[i] < MIN_MODEL_ACCURACY
                                then "insufficient_accuracy" else "weights_mismatch"))
    case Undecided => None
  }

  class PoMVerificationState {
    const nodeId: Address
    const nodeType: NodeType
    const weightsHash: string
    var positive: seq<Address>
    var negative: seq<Address>
    var accuracies: seq<real>

    ghost function Record(): PomRecord
      reads this
    {
      PomRecord(positive, negative, accuracies, nodeType, weightsHash)
    }

    constructor (nodeId: Address, nodeType: NodeType, weightsHash: string)
      ensures this.nodeId == nodeId && Record() == PomRecord([], [], [], nodeType, weightsHash)
    {
      this.nodeId, this.nodeType, this.weightsHash := nodeId, nodeType, weightsHash;
      positive, negative, accuracies := [], [], [];
    }

    method AddVerify(verifier: Address, verified: bool, accuracy: real)
      modifies this
      ensures Record() == Voted(old(Record()), verifier, verified, accuracy)
    {
      if verifier in positive || verifier in negative { return; }
      if verified {
        positive := positive + [verifier];
      } else {
        negative := negative + [verifier];
      }
      accuracies := accuracies + [accuracy];
    }

    method TallyPom(f: nat, validators: nat) returns (r: Option<ProtocolPayload>)
      ensures r == Tally(nodeId, Record(), f, validators)
    {
      if |positive| >= 2 * f + 1 {
        var mean := if accuracies == [] then 0.0 else Sum(accuracies) / |accuracies| as real;
        return Some(NodeAdmitted(nodeId, nodeType, mean));
      }
      var remaining := validators - |positive| - |negative|;
      if |negative| >= 2 * f + 1 || |positive| + remaining < 2 * f + 1 {
        var poor := exists i :: 0 <= i < |accuracies| && accuracies[i] < MIN_MODEL_ACCURACY;
        return Some(NodeRejected(nodeId, if poor then "insufficient_accuracy" else "weights_mismatch"));
      }
      r := None;
    }
  }

  // The verdict on a full vote

  ghost function Voters(votes: seq<Vote>): set<Address> {
    set i | 0 <= i < |votes| :: votes[i].verifier
  }

  /** Validators in `yes` vote for the node and the others against it, however often. */
  ghost predicate Ballots(votes: seq<Vote>, validators: set<Address>, yes: set<Address>) {
    forall i :: 0 <= i < |votes| ==> votes[i].verifier in validators && (votes[i].verified <==> votes[i].verifier in yes)
  }

  ghost function Members(s: seq<Address>): set<Address> {
    set x | x in s
  }

  function Fresh(nodeType: NodeType, weightsHash: string): PomRecord {
    PomRecord([], [], [], nodeType, weightsHash)
  }

  lemma VotersStep(votes: seq<Vote>)
    requires votes != []
    ensures Voters(votes) == Voters(votes[..|votes| - 1]) + {votes[|votes| - 1].verifier}
  {
    var before := votes[..|votes| - 1];
    forall v | v in Voters(votes) ensures v in Voters(before) + {votes[|votes| - 1].verifier} {
      var i :| 0 <= i < |votes| && votes[i].verifier == v;
      if i < |before| { assert before[i] == votes[i]; }
    }
    forall v | v in Voters(before) ensures v in Voters(votes) {
      var i :| 0 <= i < |before| && before[i].verifier == v;
      assert votes[i] == before[i];
    }
  }

  lemma MembersStep(s: seq<Address>, x: Address)
    ensures Members(s + [x]) == Members(s) + {x}
  {}

  /** The two lists hold each voter once, on its side. */
  lemma {:induction false} VotesCounted(start: PomRecord, votes: seq<Vote>, validators: set<Address>, yes: set<Address>)
    requires Ballots(votes, validators, yes) && start.positive == start.negative == []
    ensures var r := AfterVotes(start, votes);
            && Members(r.positive) == Voters(votes) * yes && |r.positive| == |Voters(votes) * yes|
            && Members(r.negative) == Voters(votes) - yes && |r.negative| == |Voters(votes) - yes|
  {
    hide Members, Voters;
    if votes == [] {
      NobodyVoted();
    } else {
      var before, last := votes[..|votes| - 1], votes[|votes| - 1];
      VotesCounted(start, before, validators, yes);
      VotersStep(votes);
      var r := AfterVotes(start, before);
      InList(r.positive, last.verifier);
      InList(r.negative, last.verifier);
      MembersStep(r.positive, last.verifier);
      MembersStep(r.negative, last.verifier);
      SidesStep(Voters(before), yes, last.verifier);
    }
  }

  /** One more voter counts on its own side, if it is new. */
  lemma SidesStep(v: set<Address>, yes: set<Address>, x: Address)
    ensures x in v ==> v + {x} == v
    ensures x in yes ==> (v + {x}) * yes == v * yes + {x} && (v + {x}) - yes == v - yes
    ensures x !in yes ==> (v + {x}) * yes == v * yes && (v + {x}) - yes == v - yes + {x}
  {}

  lemma NobodyVoted()
    ensures Voters([]) == {} && Members([]) == {}
  {}

  lemma InList(s: seq<Address>, x: Address)
    ensures x in s <==> x in Members(s)
  {}

  lemma VotersAreValidators(votes: seq<Vote>, validators: set<Address>, yes: set<Address>)
    requires Ballots(votes, validators, yes)
    ensures Voters(votes) <= validators
  {}

  /** What everybody's vote together says. */
  ghost function FullVerdict(validators: set<Address>, yes: set<Address>, f: nat): Verdict {
    if |validators * yes| >= 2 * f + 1 then Admitted else Rejected
  }

  ghost function VerdictAfter(votes: seq<Vote>, f: nat, validators: set<Address>): Verdict {
    VerdictOf(AfterVotes(Fresh(DNN_NODE, ""), votes), f, |validators|)
  }

  /** With at most 4f+1 validators the first verdict, in whatever order and however often the votes
      arrive, is the one of the full vote. */
  lemma VerdictIsFinal(votes: seq<Vote>, validators: set<Address>, yes: set<Address>, f: nat)
    requires Ballots(votes, validators, yes) && |validators| <= 4 * f + 1
    ensures VerdictAfter(votes, f, validators) != Undecided ==>
              VerdictAfter(votes, f, validators) == FullVerdict(validators, yes, f)
  {
    hide Voters, Members, AfterVotes, Ballots;
    VotesCounted(Fresh(DNN_NODE, ""), votes, validators, yes);
    VotersAreValidators(votes, validators, yes);
    SideSizes(Voters(votes), validators, yes);
  }

  lemma SideSizes(v: set<Address>, validators: set<Address>, yes: set<Address>)
    requires v <= validators
    ensures |v * yes| <= |validators * yes| && |v - yes| <= |validators - yes|
    ensures |validators| == |validators * yes| + |validators - yes|
  {
    SubsetSize(v * yes, validators * yes);
    SubsetSize(v - yes, validators - yes);
    assert validators == validators * yes + (validators - yes);
  }

  /** A verdict never changes when more votes arrive. */
  lemma VerdictNeverFlips(votes: seq<Vote>, n: nat, validators: set<Address>, yes: set<Address>, f: nat)
    requires Ballots(votes, validators, yes) && |validators| <= 4 * f + 1 && n <= |votes|
    requires VerdictAfter(votes[..n], f, validators) != Undecided
    ensures VerdictAfter(votes, f, validators) == VerdictAfter(votes[..n], f, validators)
  {
    hide FullVerdict;
    VerdictIsFinal(votes[..n], validators, yes, f);
    VerdictIsFinal(votes, validators, yes, f);
    StaysDecided(votes, n, validators, yes, f);
  }

  lemma StaysDecided(votes: seq<Vote>, n: nat, validators: set<Address>, yes: set<Address>, f: nat)
    requires Ballots(votes, validators, yes) && n <= |votes|
    requires VerdictAfter(votes[..n], f, validators) != Undecided
    ensures VerdictAfter(votes, f, validators) != Undecided
  {
    hide Voters, Members, AfterVotes;
    VotesCounted(Fresh(DNN_NODE, ""), votes, validators, yes);
    VotesCounted(Fresh(DNN_NODE, ""), votes[..n], validators, yes);
    PrefixVoters(votes, n);
    SubsetSize(Voters(votes[..n]) * yes, Voters(votes) * yes);
    SubsetSize(Voters(votes[..n]) - yes, Voters(votes) - yes);
  }

  lemma PrefixVoters(votes: seq<Vote>, n: nat)
    requires n <= |votes|
    ensures Voters(votes[..n]) <= Voters(votes)
  {
    forall v | v in Voters(votes[..n]) ensures v in Voters(votes) {
      var i :| 0 <= i < n && votes[..n][i].verifier == v;
      assert votes[i].verifier == v;
    }
  }

  /** Once every validator has voted there is a verdict, and it is the full one. */
  lemma DecidedWhenAllVoted(votes: seq<Vote>, validators: set<Address>, yes: set<Address>, f: nat)
    requires Ballots(votes, validators, yes) && Voters(votes) == validators
    ensures VerdictAfter(votes, f, validators) == FullVerdict(validators, yes, f)
  {
    hide Voters, Members, AfterVotes;
    VotesCounted(Fresh(DNN_NODE, ""), votes, validators, yes);
    assert validators == validators * yes + (validators - yes);
  }

  /** The order of the votes never matters. */
  ghost predicate OrderIrrelevant(validators: set<Address>, f: nat) {
    forall votes: seq<Vote>, yes: set<Address> ::
      Ballots(votes, validators, yes) && VerdictAfter(votes, f, validators) != Undecided ==>
        VerdictAfter(votes, f, validators) == FullVerdict(validators, yes, f)
  }

  ghost function AllVote(voters: seq<Address>, verified: bool): (r: seq<Vote>)
    ensures |r| == |voters| && forall i :: 0 <= i < |r| ==> r[i] == Vote(voters[i], verified, 1.0)
  {
    seq(|voters|, i requires 0 <= i < |voters| => Vote(voters[i], verified, 1.0))
  }

  /** With 4f+2 validators the dissenters alone can have a node rejected that the others would
      have admitted. */
  lemma DissentersFirst(validators: set<Address>, f: nat) returns (votes: seq<Vote>, yes: set<Address>)
    requires |validators| >= 4 * f + 2
    ensures Ballots(votes, validators, yes)
    ensures VerdictAfter(votes, f, validators) == Rejected && FullVerdict(validators, yes, f) == Admitted
  {
    hide Voters, Members, AfterVotes;
    var no := TakeSome(validators, 2 * f + 1);
    yes := validators - no;
    votes := AllVote(Listed(no), false);
    forall v ensures v in Voters(votes) <==> v in no {
      VoterListed(Listed(no), v);
    }
    assert Voters(votes) == no;
    VotesCounted(Fresh(DNN_NODE, ""), votes, validators, yes);
    assert no * yes == {} && no - yes == no && validators * yes == yes;
  }

  lemma VoterListed(voters: seq<Address>, v: Address)
    ensures v in Voters(AllVote(voters, false)) <==> v in voters
  {
    var votes := AllVote(voters, false);
    if v in voters {
      var i :| 0 <= i < |voters| && voters[i] == v;
      assert votes[i].verifier == v;
    }
  }

  /** The bound is exact: the order never matters precisely up to 4f+1 validators. */
  lemma OrderIrrelevantExactly(validators: set<Address>, f: nat)
    ensures OrderIrrelevant(validators, f) <==> |validators| <= 4 * f + 1
  {
    hide VerdictAfter, FullVerdict;
    if |validators| <= 4 * f + 1 {
      forall votes: seq<Vote>, yes: set<Address> |
        Ballots(votes, validators, yes) && VerdictAfter(votes, f, validators) != Undecided
        ensures VerdictAfter(votes, f, validators) == FullVerdict(validators, yes, f)
      {
        VerdictIsFinal(votes, validators, yes, f);
      }
    } else {
      var votes, yes := DissentersFirst(validators, f);
    }
  }

  // The announced reason

  /** What a verifier's transaction says: it votes for the node exactly when the weights match and the
      accuracy reaches the bound. */
  predicate Checked(votes: seq<Vote>, matches: seq<bool>) {
    |matches| == |votes| &&
    forall i :: 0 <= i < |votes| ==> votes[i].verified == (matches[i] && votes[i].accuracy >= MIN_MODEL_ACCURACY)
  }

  /** A verifier's first vote. */
  ghost predicate Counted(votes: seq<Vote>, i: int) {
    0 <= i < |votes| && votes[i].verifier !in Voters(votes[..i])
  }

  ghost predicate Blank(r: PomRecord) {
    r.positive == r.negative == [] && r.accuracies == []
  }

  lemma {:induction false} ListsHoldVoters(start: PomRecord, votes: seq<Vote>, v: Address)
    requires Blank(start)
    ensures var r := AfterVotes(start, votes); v in r.positive || v in r.negative <==> v in Voters(votes)
  {
    if votes != [] {
      hide Voters;
      ListsHoldVoters(start, votes[..|votes| - 1], v);
      ListsHoldVoters(start, votes[..|votes| - 1], votes[|votes| - 1].verifier);
      VotersStep(votes);
    }
  }

  /** The recorded accuracies are those of the counted votes. */
  lemma {:induction false} AccuraciesCounted(start: PomRecord, votes: seq<Vote>, x: real)
    requires Blank(start)
    ensures x in AfterVotes(start, votes).accuracies <==> exists i: int | Counted(votes, i) :: votes[i].accuracy == x
  {
    hide Voters;
    if votes != [] {
      var before, last := votes[..|votes| - 1], votes[|votes| - 1];
      AccuraciesCounted(start, before, x);
      ListsHoldVoters(start, before, last.verifier);
      assert forall i | 0 <= i < |before| :: before[..i] == votes[..i] && before[i] == votes[i];
      if x in AfterVotes(start, before).accuracies {
        var i :| Counted(before, i) && before[i].accuracy == x;
        assert Counted(votes, i);
      }
      if last.accuracy == x && last.verifier !in Voters(before) { assert Counted(votes, |before|); }
      if i :| Counted(votes, i) && votes[i].accuracy == x {
        if i < |before| { assert Counted(before, i); }
      }
    }
  }

  /** The tally tells the truth: a node is rejected for its accuracy exactly when a counted vote measured
      too little, and when it is rejected for its weights every counted vote against it found that the
      weights do not match. */
  lemma ReasonsTruthful(nodeId: Address, start: PomRecord, votes: seq<Vote>, matches: seq<bool>, f: nat, validators: nat)
    requires Blank(start) && Checked(votes, matches)
    requires VerdictOf(AfterVotes(start, votes), f, validators) == Rejected
    ensures var t := Tally(nodeId, AfterVotes(start, votes), f, validators);
            && (t == Some(NodeRejected(nodeId, "insufficient_accuracy"))
                <==> exists i: int | Counted(votes, i) :: votes[i].accuracy < MIN_MODEL_ACCURACY)
            && (t == Some(NodeRejected(nodeId, "weights_mismatch")) ==>
                  forall i :: Counted(votes, i) && !votes[i].verified ==> !matches[i])
  {
    hide AfterVotes, VerdictOf, Voters;
    var r := AfterVotes(start, votes);
    var poor := exists i :: 0 <= i < |r.accuracies| && r.accuracies[i] < MIN_MODEL_ACCURACY;
    assert "insufficient_accuracy"[0] != "weights_mismatch"[0];
    if poor {
      var i :| 0 <= i < |r.accuracies| && r.accuracies[i] < MIN_MODEL_ACCURACY;
      AccuraciesCounted(start, votes, r.accuracies[i]);
    }
    forall i | Counted(votes, i) ensures votes[i].accuracy in r.accuracies {
      AccuraciesCounted(start, votes, votes[i].accuracy);
    }
  }

  /** The accuracies of the counted votes, in order. */
  ghost function CountedAccuracies(votes: seq<Vote>): seq<real> {
    if votes == [] then [] else
    var before, last := votes[..|votes| - 1], votes[|votes| - 1];
    CountedAccuracies(before) + if last.verifier in Voters(before) then [] else [last.accuracy]
  }

  lemma {:induction false} AccuraciesAre(start: PomRecord, votes: seq<Vote>)
    requires Blank(start)
    ensures AfterVotes(start, votes).accuracies == CountedAccuracies(votes)
  {
    if votes != [] {
      hide Voters;
      var before := votes[..|votes| - 1];
      AccuraciesAre(start, before);
      ListsHoldVoters(start, before, votes[|votes| - 1].verifier);
    }
  }

  /** An admission announces the mean accuracy that the counted votes measured, and the node's type. */
  lemma AdmissionTruthful(nodeId: Address, start: PomRecord, votes: seq<Vote>, f: nat, validators: nat)
    requires Blank(start) && VerdictOf(AfterVotes(start, votes), f, validators) == Admitted
    ensures var t := Tally(nodeId, AfterVotes(start, votes), f, validators);
            && t.Some? && t.value.NodeAdmitted? && t.value.nodeId == nodeId && t.value.nodeType == start.nodeType
            && t.value.finalAccuracy * |CountedAccuracies(votes)| as real == Sum(CountedAccuracies(votes))
  {
    hide AfterVotes, VerdictOf, Sum, CountedAccuracies;
    AccuraciesAre(start, votes);
    TypeStays(start, votes);
    var a := CountedAccuracies(votes);
    if a == [] { SumOfNothing(a); } else { MeanTimes(Sum(a), |a|); }
  }

  lemma SumOfNothing(a: seq<real>)
    requires a == []
    ensures Sum(a) == 0.0
  {}

  lemma MeanTimes(x: real, n: nat)
    requires n > 0
    ensures x / n as real * n as real == x
  {}

  lemma {:induction false} TypeStays(start: PomRecord, votes: seq<Vote>)
    ensures AfterVotes(start, votes).nodeType == start.nodeType
  {
    if votes != [] {
      TypeStays(start, votes[..|votes| - 1]);
    }
  }

  // The votes on the chain

  function VerifyTxs(txs: seq<Tx>, nodeId: Address): seq<Vote> {
    if txs == [] then [] else
    var rest, last := VerifyTxs(txs[..|txs| - 1], nodeId), txs[|txs| - 1];
    if last.payload.System? && last.payload.protocol.ModelVerify? && last.payload.protocol.nodeId == nodeId
    then rest + [Vote(last.sender, last.payload.protocol.verified, last.payload.protocol.accuracy)] else rest
  }

  /** The transaction neither restarts nor ends the verification of the node. */
  predicate KeepsPending(tx: Tx, nodeId: Address) {
    match tx.payload
    case Simple(p) => !(p.NodeRegisterDNN? && tx.sender == nodeId)
    case Inference(_) => true
    case System(p) => !(p.NodeRejected? && p.nodeId == nodeId)
  }

  lemma SimpleVotes(e: Crypto, s: Books, tx: Tx, p: UserPayload, height: int)
    ensures ApplySimple(e, s, tx, p, height).pomStates
              == if p.NodeRegisterDNN? then s.pomStates[tx.sender := PomRecord([], [], [], DNN_NODE, p.weightsHash)]
                 else s.pomStates
  {
    hide Credit, NewNodeInfo;
  }

  lemma SystemVotes(s: Books, tx: Tx, p: ProtocolPayload, height: int)
    ensures ApplySystem(s, tx, p, height).pomStates
              == if p.ModelVerify? && p.nodeId in s.pomStates
                 then s.pomStates[p.nodeId := Voted(s.pomStates[p.nodeId], tx.sender, p.verified, p.accuracy)]
                 else if p.NodeRejected? then s.pomStates - {p.nodeId} else s.pomStates
  {
    hide Credit, Voted, Amount, Max0;
  }

  lemma TxVotes(e: Crypto, s: Books, tx: Tx, height: int, proposer: Address, nodeId: Address)
    requires KeepsPending(tx, nodeId) && nodeId in s.pomStates
    ensures nodeId in ApplyTx(e, s, tx, height, proposer).pomStates
    ensures ApplyTx(e, s, tx, height, proposer).pomStates[nodeId]
              == if tx.payload.System? && tx.payload.protocol.ModelVerify? && tx.payload.protocol.nodeId == nodeId
                 then Voted(s.pomStates[nodeId], tx.sender, tx.payload.protocol.verified, tx.payload.protocol.accuracy)
                 else s.pomStates[nodeId]
  {
    hide ApplySimple, ApplySystem, Voted;
    if tx.payload.System? {
      SystemVotes(s, tx, tx.payload.protocol, height);
    } else if tx.payload.Simple? {
      SimpleVotes(e, PayFee(s, tx, proposer), tx, tx.payload.user, height);
    }
  }

  /** The ledger's record of a pending node is what its verification state holds after the same votes. */
  lemma {:induction false} ChainRecordsVotes(e: Crypto, s: Books, txs: seq<Tx>, height: int, proposer: Address, nodeId: Address)
    requires nodeId in s.pomStates && forall i :: 0 <= i < |txs| ==> KeepsPending(txs[i], nodeId)
    ensures nodeId in ApplyTxs(e, s, txs, height, proposer).pomStates
    ensures ApplyTxs(e, s, txs, height, proposer).pomStates[nodeId] == AfterVotes(s.pomStates[nodeId], VerifyTxs(txs, nodeId))
  {
    hide ApplyTx, KeepsPending, Voted;
    if txs != [] {
      var before, last := txs[..|txs| - 1], txs[|txs| - 1];
      ChainRecordsVotes(e, s, before, height, proposer, nodeId);
      TxVotes(e, ApplyTxs(e, s, before, height, proposer), last, height, proposer, nodeId);
    }
  }
}
