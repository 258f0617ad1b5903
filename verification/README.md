# InferenceChain in Dafny

A model of the consensus core, the ledger and the contract engine of InferenceChain, with proofs of
the properties these parts exist for. Objects whose methods update fields are classes whose methods
are proved against functions on values (`QoIStateMachine`, `ChainState`, `Chain`, `Mempool`, `Engine`
of the contract engine, `ConsensusEngine`, `PoMVerificationState`, `SeenKeys`, `Peer`); loops are
loops with invariants; the theorems are lemmas about those functions, over every input, every run or
every chain. `dafny verify dfyconfig.toml` checks the whole project.

| files | what they hold |
|---|---|
| `QoIProtocol`, `QoIStateMachine`, `Election` | one node's PBFT-style machine: messages, handlers, tally, choice of the next primary |
| `QoINetwork`, `QoIFaultless`, `QoIDisagreement`, `QoIFinality`, `QoIRounds`, `QoIProgress`, `QoIOrigins`, `QoIOutcomes` | many machines over a growing set of messages: agreement and finality with their exact bounds, certification, lock-step progress, where everything in a round comes from, what an outcome can pay |
| `Quality`, `Rewards`, `Incentives`, `Reputation`, `Standing` | cosine scores, the reference vector, reward shares, reputation changes |
| `BlockBuilder`, `Settlement`, `Sealing`, `Engine` | outcome to block, block to ledger, and the round driver that joins committee, machine, mempool and chain |
| `Ledger`, `Chain`, `Validation`, `Nonces`, `Supply`, `Solvency`, `Registry`, `LifeCycle`, `Genesis`, `FirstValidators` | validation and application of blocks, nonces, conservation, overdrafts, what the ledger records of its history, the first block |
| `Merkle`, `MerkleLists`, `HashChain` | Merkle root, inclusion proofs, which lists share a root, what the tip hash determines |
| `Mempool`, `MempoolIndex`, `MempoolRuns` | the indexes of pending transactions, what they stand for, and the selection for a block |
| `SimpleVM`, `VMMeaning`, `Funds` | the stack machine with jumps and gas; what structured programs do on it; funds and state differences |
| `Quorum`, `Proposer`, `PoM`, `Sync` | committee election, weighted primaries, proof-of-model votes, block sync |
| `Collections`, `Sorting`, `Constants` | insertion-ordered dicts, stable sorting, the protocol's constants |

## How the system is modelled

- A network run is any list of actions: a correct node starts, a sent message is delivered to a node
  (in any order, any number of times, or never), a timer fires or not, a Byzantine node sends
  anything under its own id. Sender ids are authentic and drawn from the committee; each machine is
  started once, right after its construction, as the engine does.
- In a network run, and in the lock-step rounds of `QoIProgress`, every node starts with any primary and
  any round counter: in the source the one comes from the node's own current view, the other counts the
  committees it was a member of.
- The registered nodes reach the round driver as a list, because the ledger's map has no order.
- Amounts and fees have any sign: validation checks none. Where a theorem needs more, it says so, as
  `AcceptedBlockSolvent` does with the account's income.
- Amounts, probabilities and weights are exact reals. SHA-256, header hashing, transaction ids,
  signature checking, the square root, random sampling, the clock and the host language's operations
  on contract values are given functions. Injectivity of a hash is only ever assumed on the strings
  or headers hashed in the statement at hand. Python's `None` for an address, key or signature is the
  empty string. An exception that the source raises is a value of an error or option type.

## What the proofs found

- Agreement holds in every run exactly for n <= 3f+1, or n <= 3 for f = 0 (`AgreementExact`). The
  committee selector picks every size from 4 to 10 under its default bounds and announces f = (n-1)/3,
  so committees of 5, 6, 8 and 9 have runs with two different outcomes (`QuorumAgreesExactly`,
  `DefaultSizes`), although the selector's documentation lists only 4, 7, 10, 13 and 19. When no
  committee can be elected, all DNN validators take part under the chain's global f, which is safe only
  up to the same bound (`PlanGood`).
- An outcome is certified and payable among any number of nodes, but it lasts exactly up to 4f+1 of them
  or for f = 0 (`FinalExactly`): beyond that a NEW_VIEW lets a class that was stored first replace the
  settled one, and the COMMITs for the old class count towards the new one (`DecidesTwice`).
- A fault-free lock-step round with one common class commits everywhere exactly when every node has 2f+1
  voters with vectors of its own length (`ProgressExactly`); among at most 4f+1 nodes, exactly when all
  vectors have one length, all members' round counters stand alike, and 2f+1 members follow a leader that
  proposes (`FewNodesExactly`). Otherwise scoring raises and a replica stays in COMMIT, or a replica that
  was elected to more or fewer rounds than the leader ignores the round (`CountersApartStall`): a counter
  rises only at members of a committee. With several leaders a round still commits as long as at most
  n-(2f+1) members lead or follow nobody.
- A dissenter's reputation falls by two penalties, because the block's slash and the round's result each
  take one (`RoundRated`).
- Balances are checked against the state before the block. That covers every debit of a sender exactly
  for the harmless transactions (`CheckCoversExactly`): fees of DNN and PoS registrations and of model
  responses, and the value of a contract call, are debited unchecked. Exactly when a block leaves an
  account in debt is `BlockSolventExactly`; two transfers of one sender do exactly when they add up to
  more than it has (`TwoTransfersExactly`), which validation lets through (`TwicePerSenderOverdraws`).
- No sign is checked. A transfer of a negative amount lowers its recipient
  (`TransferSparesOthersExactly`), and a negative fee creates money (`Minted`).
- The proof-of-model verdict depends on the order of the votes exactly from 4f+2 validators on
  (`OrderIrrelevantExactly`).
- The Merkle root fixes the set of ids (`RootsShareLeaves`), and the list exactly up to repetitions of its
  end (`RootsEqualExactly`): a body without duplicates is determined exactly when its length is a power of
  two. Ids of different lengths can be cut differently (`JointsExactly`). So a tip hash does not determine
  the books: protocol transactions at a block's end carry no checked nonce and can stand twice under the
  same header (`RepeatedEnd`, `RewardTwice`); otherwise it does (`TipDeterminesBooks`). The genesis root
  leaves out the system transactions, so the first block fails the check of its own root whenever it
  admits a DNN node (`OwnRootExactly`).
- A contract's state difference loses a new entry that holds None. Programs can make one exactly when a
  None comes in with the call or its state (`RebuildsExactly`).
- Removing a pending inference request from the mempool by its id leaves it in the queue; the indexes
  stay in agreement exactly when no such id is removed (`RemoveConsistentExactly`).
- `proposer_for_view` documents that a failed primary is skipped for n views; the code excludes nobody,
  so a node leads a view exactly when its interval holds the roll (`LeadsViewExactly`), two views in a
  row included (`FailedPrimaryReturns`).
- Catching up stops at the first missing block whose hash was already seen (`ExchangeShrinksGap`), for
  instance because it arrived by gossip before its predecessors and was rejected.

## Model

| member | source | states |
|---|---|---|
| QoINetwork.Agreement | core/qoi/state_machine.py:299-419 | In every run of one round among at most 3f+1 nodes with at most f Byzantine ones, whatever is delivered and whatever views the nodes go through, all outcomes of correct nodes name the same class. |
| QoIDisagreement.AgreementExact | core/qoi/state_machine.py:299-419 | All runs of all systems of these nodes agree if and only if there are at most 3f+1 of them, or at most 3 for f = 0. |
| QoIDisagreement.Disagreement | core/qoi/state_machine.py:329-381 | For every f >= 1 and every set of 3f+2 or more nodes there is a run in which two correct nodes commit on classes 0 and 1. |
| QoIDisagreement.FaultlessDisagreement | core/qoi/state_machine.py:329-381 | With f = 0, four correct nodes suffice for a run with two different outcomes. |
| QoIFaultless.FaultlessAgreement | core/qoi/state_machine.py:329-381 | With f = 0 and at most three nodes all outcomes name one class, although a single PREPARE settles a class: an outcome takes a second node of its class. |
| QoINetwork.RunOk | core/qoi/state_machine.py:299-419 | The inductive invariant of every run among any number of nodes: correct nodes only ever send their own argmax, stored PREPAREs and COMMITs have distinct member senders, settled and decided classes keep their quorums of PREPAREs through view changes, outcomes carry a certificate. |
| QoINetwork.Certified | core/qoi/state_machine.py:329-381 | In every run among any number of nodes, an outcome of a correct node carries commits of at least 2f+1 distinct members, and its class is the own argmax of at least f+1 correct nodes. |
| QoINetwork.Final | core/qoi/state_machine.py:383-419 | Among at most 4f+1 nodes, once a correct node has a consensus class or an outcome, no continuation of the run changes that class or takes the outcome away, although a NEW_VIEW can re-open a committed round. |
| QoIFinality.FinalExactly | core/qoi/state_machine.py:329-419 | Classes and outcomes last through every run of every system of these nodes if and only if f = 0 or there are at most 4f+1 of them. |
| QoIFinality.DecidesTwice | core/qoi/state_machine.py:329-419 | For every f >= 1 and every set of 4f+2 or more nodes there is a run in which one correct node decides on class 0 and later, after a NEW_VIEW, on class 1. |
| QoIOrigins.RunOrigins | core/qoi/state_machine.py:220-499 | In every run among any number of nodes: a correct node signs only its own result, under the request and round it was started with, proposes only as its own first primary, asks only for the next view, and opens a view only with 2f+1 view changes that were sent and that it comes first among; its machine holds only messages that were sent to this round, votes of their voters, a proposal of its view's primary, and the primary of its view. |
| QoIOrigins.OutcomeTraced | core/qoi/state_machine.py:451-476 | In every run an outcome names the request, round and committee of its node's start, votes and COMMIT signatures that were sent, and a view of the node with the primary of that view: the one the node was started with, or who opened it. |
| QoIOrigins.DecidedOnce | core/qoi/state_machine.py:364-381 | Every outcome was set by one delivery of a COMMIT in the COMMIT phase, is made of what the node held then, with the COMMITs it had and this one, and has stayed as it was. |
| QoIOrigins.TimeoutAsks | core/qoi/state_machine.py:284-295 | In every run an expired timer makes a node ask everybody for the next view exactly unless it has decided in the view it is in. |
| QoIOrigins.StartForgets | core/qoi/state_machine.py:220-254 | A round starts from scratch: only the machine's name, fault bound, view, primary and committee carry over. |
| QoIProgress.Opening | core/qoi/state_machine.py:220-254 | At the start exactly the nodes that take themselves for the leader broadcast a proposal, with their own vote and counter. |
| QoIProgress.LockStepProgress | core/qoi/state_machine.py:220-381 | Correct nodes of one class, each with its own leader, counter and vector: if each has 2f+1 voters with vectors of its own length, delivering all proposals, then all PREPAREs, then all COMMITs, in any order per node and with any repetition, leaves every node COMMITTED on the class, with its own leader as the primary, view 0 and its own round in the outcome, though leaders send no PREPARE. |
| QoIProgress.ProgressExactly | core/qoi/state_machine.py:299-476 | Among any number of such nodes, rounds commit everywhere in all orders if and only if every node has 2f+1 voters, nodes that hear a proposal of their own leader in the node's own round, all with vectors of the node's length. |
| QoIProgress.FewNodesExactly | core/qoi/state_machine.py:299-476 | Among at most 4f+1 nodes that is so if and only if all vectors have one length, all counters stand alike, and 2f+1 nodes follow a leader that proposes, whichever it is. |
| QoIProgress.OneLeaderExactly | core/consensus/engine.py:376-394 | With one leader among 2f+2 to 4f+1 nodes that is so if and only if all vectors have one length and all counters stand alike. |
| QoIProgress.OthersStall | core/qoi/state_machine.py:299-476 | A node with fewer than 2f+1 voters, and a follower whose vector has another length than its leader's, never gets an outcome, in any order of the messages. |
| QoIProgress.SomeOrderStalls | core/qoi/state_machine.py:329-476 | A node and any voter of its with vectors of different lengths: some order of the messages leaves the node without an outcome. |
| QoIProgress.AloneIgnores | core/qoi/state_machine.py:299-381 | A node whose counter is nobody else's ends any such round in the state it started in. |
| QoIProgress.CountersApartStall | core/consensus/engine.py:376-394 | Four nodes with one vector and one leader, one of which has sat out a round: it ignores the proposal and every vote, and so never commits. |
| QoIOutcomes.OutcomesPayable | core/qoi/state_machine.py:451-476 | In every run among any number of nodes, an outcome of a correct node can be scored, at least f+1 correct nodes are recorded with votes for its class, and every recorded correct node is recorded with its own argmax. |
| QoIOutcomes.OutcomesSeal | core/consensus/engine.py:505-566 | Such an outcome, elected by the whole committee, always becomes a block that its tip rejects only for a user transaction, and that, unless the pool of fees and inference reward is negative, mints exactly this pool, the bonus of an agreeing primary and the block's negative fees. |
| QoIMachine.QoIStateMachine.constructor | core/qoi/state_machine.py:174-207 | A new machine is idle, in view 0, with nothing stored. |
| QoIMachine.QoIStateMachine.SetElectedQuorum | core/qoi/state_machine.py:212-218 | Sets the committee and nothing else. |
| QoIMachine.QoIStateMachine.StartRound | core/qoi/state_machine.py:220-254 | The whole new state and the reply are those of the specification the network model is built on: round reset, own vote fixed, proposal by the primary only. |
| QoIMachine.QoIStateMachine.HandleMessage | core/qoi/state_machine.py:256-282 | State and reply for every message kind equal the network model's, stale views ignored. |
| QoIMachine.QoIStateMachine.CheckTimeout | core/qoi/state_machine.py:284-295 | An expired timer of a started, uncommitted round moves to VIEW_CHANGE and asks for the next view; otherwise nothing happens. |
| QoIMachine.QoIStateMachine.HandlePrePrepare | core/qoi/state_machine.py:299-327 | Same effect as in the network model: only the current primary's proposal, answered with the node's own recorded vote. |
| QoIMachine.QoIStateMachine.HandlePrepare | core/qoi/state_machine.py:329-362 | Same effect as in the network model, including the first PREPARE per sender and the class that a quorum agrees on. |
| QoIMachine.QoIStateMachine.HandleCommit | core/qoi/state_machine.py:364-381 | Same effect as in the network model; at 2f+1 commits the round is finalised or scoring raises. |
| QoIMachine.QoIStateMachine.HandleViewChange | core/qoi/state_machine.py:383-410 | Same effect as in the network model; stored PREPAREs and COMMITs are kept. |
| QoIMachine.QoIStateMachine.HandleNewView | core/qoi/state_machine.py:412-419 | Same effect as in the network model: any sender can open a later view. |
| QoIMachine.QoIStateMachine.ComputeConsensusClass | core/qoi/state_machine.py:436-449 | The tallying loop returns the first listed class with 2f+1 stored votes, or none when no class has them. |
| QoIMachine.FirstOverWins | core/qoi/state_machine.py:436-449 | Walking the vote counts in insertion order finds the same class as looking for the first vote of a winning class. |
| QoIMachine.QoIStateMachine.FinaliseRound | core/qoi/state_machine.py:451-476 | The outcome holds the round's class, votes and commit signatures, unless scoring raises; then the machine stays as it was. |
| Election.ElectedIsAhead | core/qoi/state_machine.py:489-499 | The elected primary sent a collected view change, and no collected one has a higher last sequence number, or the same with a smaller id. |
| Election.SameCollectionSamePrimary | core/qoi/state_machine.py:489-499 | Nodes that collected the same view changes, in any order, elect the same primary. |
| Election.OpensExactly | core/qoi/state_machine.py:383-410 | A node opens a view exactly when a VIEW_CHANGE for a later view brings its collection to 2f+1 nodes and it comes first among them; the view is the highest asked for and the primary is itself. |
| Sorting.StringLessExactly | core/qoi/state_machine.py:489-499 | The order of ids is the lexicographic one. |
| Quality.ArgMax | core/qoi/state_machine.py:220-254 | The first position of the maximum. |
| Quality.CauchySchwarz | core/qoi/quality.py:44-52 | For vectors of any length the squared dot product is at most the product of the squared norms. |
| Quality.ClampIdle | core/qoi/quality.py:35-52 | On non-negative vectors of equal length the clamp never acts: the quotient itself lies between 0 and 1 and is the score. |
| Rewards.AggregateProbabilities | core/qoi/quality.py:55-74 | The nested loops return the column means, or raise exactly for no vectors or vectors of different lengths. |
| Rewards.MeanOfDistributions | core/qoi/quality.py:55-74 | The mean of probability distributions is a probability distribution. |
| Incentives.MeanExactly | core/qoi/quality.py:55-74 | The mean exists exactly for vectors of one length, and its j-th component times their number is the sum of their j-th components. |
| Incentives.ScoreExactly | core/qoi/quality.py:35-52 | On non-negative vectors the score times both lengths is the dot product; it is 0 for a zero vector, and 1 for a vector like the reference. |
| Rewards.ClassifyVotes | core/qoi/quality.py:135-144 | Splits the votes into agreeing and dissenting ones, in order. |
| Rewards.ScoreVotes | core/qoi/quality.py:156-161 | Every agreeing node is scored once against the reference vector. |
| Rewards.PayShares | core/qoi/quality.py:163-178 | Every agreeing node gets its share by score, or an equal share when no score is positive, and the primary its bonus on top. |
| Rewards.RateNodes | core/qoi/quality.py:180-190 | Agreeing nodes gain at most the cap plus the leader's bonus, dissenting ones lose the penalty. |
| Rewards.ComputeRoundRewards | core/qoi/quality.py:112-214 | The loops over dicts give each response the result that depends only on its own vote and the totals; none exactly where the source raises. |
| Rewards.RewardsExist | core/qoi/quality.py:134-161 | Scoring succeeds if and only if there is a response and all agreeing vectors have one length. |
| Rewards.SharesExact | core/qoi/quality.py:163-174 | In both branches the shares add up to exactly the pool, and none is negative when the pool is not. |
| Rewards.RewardsConserved | core/qoi/quality.py:132-178 | With an agreeing response, the honest nodes receive exactly fees plus the inference reward, plus the bonus exactly when the primary agrees; unless that pool is negative no reward is. |
| Incentives.RoundFair | core/qoi/quality.py:112-214 | Result by result: an honest node's share is to the pool as its score to all scores, or an equal part when no score is positive; a leader has its bonus on top; reputation gains are the score up to the cap, with the leader's bonus; a dissenter gets nothing and loses the penalty. |
| BlockBuilder.Confidence | core/qoi/state_machine.py:115-118 | The highest score among the honest results, 0 when there are none. |
| BlockBuilder.BuildSystemTxs | core/qoi/state_machine.py:76-159 | One response per node, one result, a reward for each honest node that earned something and a slash for each dissenter, in this order and numbered from 1. |
| BlockBuilder.RecoversVotes | core/consensus/block_builder.py:44-53 | The votes rebuilt from a round's results are all its votes. |
| BlockBuilder.BuildQoIBlock | core/consensus/block_builder.py:21-93 | Rewards are recomputed with the block's fees from the original votes, signatures are deduplicated per node, and the Merkle root is that of the block's own transactions. |
| Settlement.SignersCounted | core/blockchain/block.py:42-46 | After deduplication there is exactly one signature per node that signed. |
| Settlement.SystemTxsMint | core/qoi/state_machine.py:76-159 | The system transactions mint exactly the rewards of the honest nodes that have a positive one, whatever the signs of the others. |
| Settlement.BuiltBlockMints | core/consensus/block_builder.py:21-93 | A block built for the fees of its own user transactions exists, is well sorted, and mints exactly what it pays out and its negative fees; unless the pool is negative, the payment is the pool and the bonus of an agreeing primary. |
| Settlement.BuiltBlockSupply | core/consensus/block_builder.py:42-68 | Applying such a block changes balances plus stakes by exactly that amount minus what the block burns. |
| Settlement.FeesPaidSupply | core/consensus/block_builder.py:42-68 | With fees that are not negative: by exactly the fees, the inference reward and the bonus of an agreeing primary, less what the block burns. |
| Settlement.BuiltBlockVerdict | core/blockchain/chain.py:190-213 | On the tip it was built for, a block is rejected exactly for too few distinct signers or for the first failing user transaction; links and Merkle root always hold. |
| Settlement.Settles | core/blockchain/chain.py:453-473 | The system transactions pay every account its positive rewards and slash it once per dissenting result, never below zero; no other account's money moves. |
| Settlement.SettledOnce | core/qoi/quality.py:192-205 | With one result per node, each node is either paid just its reward, nothing if that is negative, or slashed just once. |
| Reputation.ReputationExactly | core/blockchain/chain.py:327-473 | After any transactions a reputation is what it was, or the initial one if the node has registered, less one penalty for every slash since, down to zero. |
| Reputation.DeltasExactly | core/blockchain/chain.py:479-487 | A round's results move a listed node's reputation by its delta, down to zero, and no other. |
| Standing.RoundRated | core/consensus/engine.py:505-551 | A sealed round costs a dissenter the reputation penalty twice, by its slash and by its result, down to zero; it raises an agreeing node by its capped score, the leader by a bonus, and leaves everyone who has not answered as it was. |
| Engine.ConsensusEngine.BeginRound | core/consensus/engine.py:307-421 | With the ledger's registered nodes: a committee member takes the next request, counts the round and starts a fresh machine once, with the committee's own f and ids; every other node changes nothing. |
| Engine.PlanGood | core/consensus/engine.py:319-389 | The primary is a member, members are distinct, registered, active DNN validators, and the round agrees in all runs if and only if it has at most 3f+1 members, or 3 for f = 0. |
| Engine.PlanExactly | core/consensus/engine.py:319-389 | With fewer than four active, staked DNN validators that serve the requested model all validators take part under the chain's f; otherwise a committee of them drawn by the tip and the request, under its own f. |
| Engine.PlanLeads | core/consensus/engine.py:378-389 | With positive total weight the primary is the member whose interval holds the roll of the tip and the view. |
| Registry.RegistryKeyed | core/blockchain/chain.py:327-427 | On every chain, every registered node stands under its own id, so the registry lists each id once. |
| LifeCycle.RegisteredExactly | core/blockchain/chain.py:327-394 | After any history, exactly those are registered who have sent a registration. |
| LifeCycle.ActiveExactly | core/blockchain/chain.py:327-473 | A registered node is active if and only if the last of its registrations, admissions, rejections and slashes below the minimum stake was an admission or a legacy registration. |
| LifeCycle.RecordExactly | core/blockchain/chain.py:327-427 | A node's record is, field by field, what its last registration wrote, with whether and at what height it has been admitted since. |
| LifeCycle.ContractsExactly | core/blockchain/chain.py:429-443 | The contracts are exactly those deployed, each as its last deployment says. |
| LifeCycle.LogExactly | core/blockchain/chain.py:475-477 | The log holds exactly the requests with a result, each with its last one. |
| LifeCycle.KeysExactly | core/blockchain/chain.py:293-330 | The learned keys are those of exactly the senders that have shown one in a transfer or a change of stake, the first one each. |
| Engine.RegistryListed | core/blockchain/chain.py:120-133 | The registry of every chain has a listing with each node once, which is what BeginRound takes. |
| Engine.ConsensusEngine.CommitOutcome | core/consensus/engine.py:505-566 | Outsiders' signatures are stripped, the best paying ready transactions selected, the block built in the name of the outcome's primary and view, and appended. A rejected block changes nothing. After an accepted one every balance is what it was, with what users send it, less what it spends, with its rewards, and with all positive fees for the outcome's primary; every stake is cut by one penalty per dissenting result; the log has the agreed class under the request's id; the supply changes, unless the pool is negative, by exactly fees, reward, bonus and negative fees less burns; the mempool is emptied of its transactions and the reputation changes applied. |
| Engine.InsidersExactly | core/consensus/engine.py:505-530 | Of a known committee exactly its members' signatures count, of an unknown one everybody's, and nothing else of the outcome changes. |
| Sealing.SealedBlock | core/consensus/block_builder.py:21-93 | What that block does to every account and to the log, from its contents alone, on any ledger. |
| Sealing.Transcript | core/qoi/state_machine.py:76-159 | The protocol's transactions for a round, one by one: numbered from 1, free; every node's answer in order, then the result, then exactly the earned rewards and the dissents, with amount, reason and request. |
| Engine.SelectedBlockSolvent | core/blockchain/mempool.py:58-83 | An accepted block filled by the mempool with harmless transactions leaves no account in debt that was not in debt before and that the block brings nothing negative in all. |
| Engine.SelectedBlockSolventForAll | core/blockchain/mempool.py:58-83 | With amounts that are not negative, that is every account that was not in debt before. |
| Chains.ChainState.ApplyTx | core/blockchain/chain.py:284-477 | In-place application of any transaction equals the specification, on the books and on the reputations. |
| Chains.ChainState.ApplySimple | core/blockchain/chain.py:293-451 | The same for every user transaction kind. |
| Chains.ChainState.ApplySystem | core/blockchain/chain.py:399-477 | The same for every protocol transaction kind. |
| Chains.Chain.constructor | core/blockchain/chain.py:150-156 | The first block is applied without validation, and the books are what replaying it gives. |
| Chains.Chain.Append | core/blockchain/chain.py:168-172 | A rejected block changes nothing; the verdict and the new books never depend on reputations; the books stay the replay of the blocks. |
| Chains.Chain.ValidateSimple | core/blockchain/chain.py:209-213 | The loop with the running nonces reports the error of the first failing transaction. |
| Chains.Chain.ApplyBlock | core/blockchain/chain.py:279-282 | All transactions in canonical order. |
| Chains.Chain.ApplyReputationDeltas | core/blockchain/chain.py:479-487 | Adds each delta, not below zero, and touches nothing else. |
| Supply.TxSupply | core/blockchain/chain.py:284-477 | One transaction changes balances plus stakes by what it mints, a reward or a negative fee, minus what it burns, for every kind and every sign. |
| Supply.SupplyEquation | core/blockchain/chain.py:279-477 | After any sequence of blocks, balances plus stakes equal all rewards and negative fees minus contract call values and the stake really removed by slashes. |
| Nonces.AcceptedInOrder | core/blockchain/chain.py:209-242 | Accepted user transactions of one block continue each sender's nonces without gaps, several per sender included. |
| Nonces.GaplessNonces | core/blockchain/chain.py:209-242 | In every chain grown by accepted appends from an ordered first block, each sender's k-th transaction carries nonce k, and the ledger's nonce is the number committed. |
| Nonces.NoncesUnique | core/blockchain/chain.py:232-242 | In such an order one sender's nonces strictly increase, so no nonce is used twice. |
| Nonces.BlockAcceptedExactly | core/blockchain/chain.py:190-270 | A block is accepted if and only if it links to the tip by hash and height, has 2f+1 signatures and the root of its own transactions, every user transaction has an unchecked signature or one that verifies under its key (a node's registered one, or else its own, or else the learned one), its sender has the balance and stake its kind needs, and each carries its sender's next nonce. |
| Nonces.TxsAcceptedExactly | core/blockchain/chain.py:209-270 | The same for a list of user transactions against the state before the block, earlier nonces in the block counted. |
| Nonces.FirstFailure | core/blockchain/chain.py:209-270 | The error of a block's user transactions is that of the first one that fails: BadSignature if and only if its key rejects its signature, else a wrong nonce, else too little stake, else too little balance. |
| Validation.BalanceExactly | core/blockchain/chain.py:244-270 | The balance check fails exactly when stake or balance is short of what the kind needs, and says which and by how much. |
| Genesis.CreateGenesisBlock | core/blockchain/genesis.py:27-180 | Every requested allocation, registration and stake in order, one admission per DNN node, and gapless nonces from 1 for every sender, as GaplessNonces demands. |
| Genesis.OwnRootExactly | core/blockchain/genesis.py:154-180 | The first block's root covers its user transactions only: it passes the check of its own root if and only if no DNN node is admitted, if the hashes in the two trees do not collide and ids differ. |
| FirstValidators.FoundersValidate | core/blockchain/genesis.py:27-180 | After the first block every listed DNN node is registered as given, admitted, active and has its stake; it is a DNN validator if and only if that reaches the minimum. |
| FirstValidators.OlderFounderActive | core/blockchain/genesis.py:27-180 | After the first block every listed node of the older kind is registered as given and active at once, if nobody else registers its address. |
| FirstValidators.AllocationsArrive | core/blockchain/genesis.py:27-180 | After the first block every account but the genesis account has exactly what was allocated to it, a DNN node that less its stake. |
| Solvency.CheckCoversExactly | core/blockchain/chain.py:244-270 | Passing the balance check implies that the whole debit is covered for every sender not in debt if and only if the transaction is harmless: of a fully checked kind, or with nothing unchecked to pay. |
| Solvency.TxMoves | core/blockchain/chain.py:284-477 | Any transaction changes any account's balance by exactly what it earns less what it debits, and its stake likewise unless it is slashed, whatever the signs. |
| Solvency.BlockSolventExactly | core/blockchain/chain.py:279-477 | A block of any user and protocol transactions leaves an account out of debt if and only if its balance and income cover all it spends, and its stake and staked amounts all it withdraws unless it is slashed. |
| Solvency.AcceptedBlockSolvent | core/blockchain/chain.py:209-270 | An accepted block with one harmless transaction per sender leaves every account that was not in debt, and that the block brings nothing negative in all, not in debt. |
| Solvency.TransferSparesOthersExactly | core/blockchain/chain.py:244-249 | A transfer lowers no other account's balance, in any ledger, if and only if its amount is not negative or it is to the sender; the source checks no sign. |
| Solvency.TwoTransfersExactly | core/blockchain/chain.py:209-250 | One sender's two transfers to others leave it solvent if and only if they do not add up to more than it has, though each is checked alone. |
| Merkle.MerkleFromHashes | core/blockchain/utils.py:76-85 | The loop computes the root, and stops because every level is shorter than the last. |
| Merkle.VerifyMerkleProof | core/blockchain/utils.py:88-100 | Accepts exactly when hashing up the proof ends at the root. |
| Merkle.InclusionComplete | core/blockchain/utils.py:76-100 | The sibling path of every leaf, built level by level with the same padding, is accepted, and its length is the binary logarithm of the number of leaves rounded up. |
| Merkle.InclusionSound | core/blockchain/utils.py:88-100 | An accepted proof of the tree's depth, with digests for siblings, is of a leaf that is in the tree, if no two of the strings hashed collide. |
| Merkle.RootInjective | core/blockchain/utils.py:57-85 | Two lists of equally many 64-character ids with the same root are equal, if no two of the strings hashed collide. |
| Merkle.RootsShareLeaves | core/blockchain/utils.py:57-85 | Two non-empty lists of ids with the same root have the same members, whatever their lengths, if no two of the strings hashed collide and none of the ids is itself such a string's hash. |
| MerkleLists.RepeatedCollides | core/blockchain/utils.py:76-85 | For every hash function, a list whose length is no power of two has the root of the longer list that repeats its last Low(n) ids, where Low(n) is the largest power of two that divides its length n. |
| MerkleLists.RootsEqualExactly | core/blockchain/utils.py:57-85 | Without collisions, two lists of any lengths, empty ones included, have one root if and only if repeating their ends fills them up to the same list. |
| MerkleLists.DeterminedExactly | core/blockchain/utils.py:57-85 | Without collisions, a list is the only one with its root if and only if its length is a power of two and no end of it is repeated. |
| MerkleLists.DuplicatelessDeterminedExactly | core/blockchain/utils.py:57-85 | For a list that names no id twice: if and only if its length is a power of two. |
| MerkleLists.EqualUnderRoot | core/blockchain/utils.py:57-85 | Under one root, two lists are equal if they are equally long or the longer one names no id twice. |
| MerkleLists.JointsExactly | core/blockchain/utils.py:76-85 | Two equally long lists of strings of any lengths have one root if and only if, pair by pair, they join up to the same strings. |
| MerkleLists.UnevenIdsCollide | core/blockchain/utils.py:81-84 | For every hash function, two pairs of ids cut differently have the same root. |
| HashChain.TipDeterminesHeaders | core/blockchain/chain.py:190-201 | Two chains grown by append from height-0 blocks with equal tip hashes have equal length and equal headers throughout, if no two of their headers collide. |
| HashChain.TipDeterminesLedger | core/blockchain/chain.py:190-207 | In addition, the ids of any two later blocks at one height fill up to the same list, and are the same if they are equally many or the longer block repeats none, where nothing collides. |
| HashChain.TipDeterminesIds | core/blockchain/chain.py:190-207 | Whatever the numbers of transactions, two later blocks at one height hold the same ids, where nothing collides. |
| HashChain.TipDeterminesBooks | core/blockchain/chain.py:190-282 | Chains with equal tips have equal books if their first blocks hold the same transactions, ids bind contents, and later blocks at one height are equally long or repeat no id. |
| HashChain.RepeatedEnd | core/blockchain/chain.py:190-282 | Otherwise not: the last block of any valid chain, if its length n is no power of two and it ends in Low(n) protocol transactions, can be replaced by one that repeats these, with the same header; the chain stays valid and its books apply them again. |
| HashChain.RewardTwice | core/blockchain/chain.py:453-456 | For an odd number of transactions above one that ends in a REWARD, the new chain has the same tip hash, and its supply is larger by the reward. |
| Mempools.Mempool.Add | core/blockchain/mempool.py:34-54 | Duplicates and, for user transactions, a full pool are refused; otherwise the queue or the sender's list sorted by nonce grows by the transaction. |
| Mempools.Mempool.SelectSimple | core/blockchain/mempool.py:58-83 | The first ready transaction per sender, sorted by fee, cut to the limit. |
| Mempools.Mempool.NextInference | core/blockchain/mempool.py:85-91 | Takes the oldest request out of the queue and of the index. |
| Mempools.Mempool.Remove | core/blockchain/mempool.py:99-109 | Removes listed ids from the index, and user transactions from their sender's list. |
| Mempools.Mempool.ClearSender | core/blockchain/mempool.py:111-123 | Removes a sender's transactions up to a nonce from both indexes. |
| MempoolIndex.AlwaysConsistent | core/blockchain/mempool.py:34-123 | After every run of adds, takes, clears and removals of user transactions, the pending transactions are exactly the disjoint union of the nonce-sorted lists of their senders and the queue. |
| MempoolRuns.RunsAsMeant | core/blockchain/mempool.py:34-123 | After every such run the mempool holds exactly the transactions, and the line of requests, that a plain set and a plain queue would. |
| MempoolRuns.FirstInFirstOut | core/blockchain/mempool.py:85-91 | Requests are served in the order they were accepted, none lost and none twice. |
| MempoolIndex.RemoveConsistentExactly | core/blockchain/mempool.py:99-109 | `remove` keeps that agreement if and only if no listed id is a pending inference request. |
| MempoolIndex.SelectionGood | core/blockchain/mempool.py:58-83 | The selection has one pending, ready transaction per sender, best paying first, within the limit. |
| MempoolIndex.SelectionPaysMost | core/blockchain/mempool.py:66-83 | With non-negative fees, no choice of at most max_txs candidates pays a higher total fee. |
| SimpleVM.Labels | core/blockchain/vm/simple_vm.py:152-155 | None if and only if some LABEL is nameless, which raises; otherwise exactly the names of LABELs, each with its last position in the program. |
| SimpleVM.Execute | core/blockchain/vm/simple_vm.py:133-300 | The loop over program counter, stack, state and gas ends in the result, difference and gas of the step semantics, or in its fault, for every opcode. |
| VMMeaning.CodeMeans | core/blockchain/vm/simple_vm.py:168-259 | The code of an expression over literals, entries, balances, caller and value with NOT and all binary operators, wherever it stands and whatever is on the stack, leaves exactly the expression's value on top, or fails as it does, with one unit of gas per instruction. |
| VMMeaning.CompiledMeans | core/blockchain/vm/simple_vm.py:168-282 | The code of a structured statement with STORE, ASSERT, if-else and while, wherever it stands, reaches its end with the statement's state, or fails as the statement does, whatever the number of rounds. |
| VMMeaning.ProgramMeans | core/blockchain/vm/simple_vm.py:133-300 | Such a program, run as a contract under any limit that covers its gas, returns the value of its last expression, the difference of its final state to the original one, and its gas, or its fault. |
| VMMeaning.UnknownExactly | core/blockchain/vm/simple_vm.py:168-296 | Unknown opcodes fault, and exactly the words outside the instruction set are unknown. |
| VMMeaning.UnderflowExactly | core/blockchain/vm/simple_vm.py:190-258 | An operator without its operands, and NOT, ASSERT, STORE or JUMPI on an empty stack, fault as underflow. |
| VMMeaning.UnknownLabelExactly | core/blockchain/vm/simple_vm.py:270-282 | A jump to an unknown label faults if it is taken, and a conditional one that is not taken goes on. |
| SimpleVM.CallSucceedsExactly | core/blockchain/vm/simple_vm.py:69-114 | A call succeeds if and only if the contract has the function and the code, the function's own before the contract's, succeeds with at most a million units of gas; the answer is that of every limit it succeeds under, and every other call is refused. |
| SimpleVM.CodeExactly | core/blockchain/vm/simple_vm.py:69-95 | A function's own code comes before the contract's. |
| SimpleVM.GasLimitNeverMatters | core/blockchain/vm/simple_vm.py:160-167 | A run that succeeds with g gas succeeds under another limit if and only if that limit is at least g, with the same result, state and gas; otherwise it runs out of gas. |
| SimpleVM.FaultsPersist | core/blockchain/vm/simple_vm.py:160-167 | Any failure but running out of gas is the same under every larger limit. |
| SimpleVM.ExecutionIgnoresLimit | core/blockchain/vm/simple_vm.py:133-300 | The same for a whole execution: return value, state difference and gas. |
| SimpleVM.ForwardRunsAreShort | core/blockchain/vm/simple_vm.py:160-282 | A run whose steps all go forward uses at most one unit of gas per instruction, and never runs out of gas under a limit of the program's length. |
| SimpleVM.ForwardProgramsFit | core/blockchain/vm/simple_vm.py:152-282 | The same for every program whose jumps all lead to labels behind them. |
| Funds.TransferConserves | core/blockchain/vm/simple_vm.py:261-268 | A transfer keeps the sum of the contract's balance and all transfer entries, and leaves a non-negative balance non-negative. |
| Funds.TransferMoves | core/blockchain/vm/simple_vm.py:261-268 | A transfer moves exactly its amount from the balance to the recipient's entry, touches no other entry, and is refused when the balance is smaller. |
| Funds.RunConserves | core/blockchain/vm/simple_vm.py:160-296 | So does every run of a program that never stores to those entries itself. |
| Funds.OneStoreSetsFunds | core/blockchain/vm/simple_vm.py:190-196 | A program that stores to them can leave any sum: one STORE of an argument does. |
| Funds.RebuildsExactly | core/blockchain/vm/simple_vm.py:96-300 | For all programs, writing the reported difference over the original state gives the final state up to equality, if and only if None is neither an argument, the caller, the value nor an entry of the contract's state. |
| Funds.RebuildsWithoutNewNone | core/blockchain/vm/simple_vm.py:298-300 | For any final state that keeps the original entries, the difference is enough if and only if no new entry equals None. |
| Funds.DiffOnlyChanges | core/blockchain/vm/simple_vm.py:298-300 | The difference reports nothing but entries of the final state that differ from the original one. |
| Quorums.FilterEligible | core/consensus/quorum.py:198-214 | The nodes that match the model and dataset filters, in order. |
| Quorums.EligibleExactly | core/consensus/quorum.py:198-214 | Eligible are exactly the listed nodes that serve the model and the dataset, if one is named. |
| Quorums.SelectQuorum | core/consensus/quorum.py:87-193 | A quorum is elected exactly when enough nodes match; it has the announced number of distinct matching nodes in order of their ids, with 3f+1 <= k and 0 < threshold <= k; and it is the same for every node. |
| Quorums.QuorumGood | core/consensus/quorum.py:126-193 | A quorum is elected if and only if enough nodes match; it has exactly the announced number of distinct matching nodes in order of their ids, even after shortlisting, with 3f+1 <= k and 0 < threshold <= k. |
| Quorums.ElectedByDraw | core/consensus/quorum.py:126-193 | The members are those at the positions that the seed, the hash of the tip and the request, draws from the candidates: all matching nodes, or, with a ranking, those whom fewer than 2k others outscore or who have no profile; f is (k-1)/3 and the threshold 2f+1. |
| Quorums.ShortlistKeepsBest | core/consensus/quorum.py:155-162 | The shortlist drops a scored node only for 2k others that score no worse. |
| Quorums.OverlapExact | core/consensus/quorum.py:217-224 | Any two threshold-sized sets of a quorum's members share more than f of them if and only if the size leaves the remainder 1 when divided by 3. |
| Quorums.QuorumAgreesExactly | core/consensus/quorum.py:217-224 | A committee of 4 or more with the announced f agrees in all runs if and only if its size leaves the remainder 1 when divided by 3. |
| Quorums.DefaultSizes | core/consensus/quorum.py:137 | Under the default bounds the size is the pool's up to 10, hence safe exactly for pools of 4, of 7, and of 10 or more. |
| Proposers.SelectProposer | core/qoi/proposer.py:52-85 | The loops choose by running totals, or in turn when all weights are zero. |
| Proposers.WeightExactly | core/qoi/proposer.py:56-66 | A weight is the stake, plus the stake times the reputation when that is positive. |
| Proposers.TakingTurns | core/qoi/proposer.py:67-70 | Without any weight each of n nodes leads once in any n views in a row, whatever the digests. |
| Proposers.ChosenByInterval | core/qoi/proposer.py:71-85 | With non-negative weights of positive total, the chosen node is the only one whose interval of running totals holds the roll; its weight is positive, so the fallback line is never the reason. |
| Proposers.ChoiceProportional | core/qoi/proposer.py:71-85 | The number of 64-bit seeds that choose a node differs from its proportional part of all seeds by less than 1. |
| Proposers.PrimaryIsStaked | core/qoi/proposer.py:59-85 | As soon as anyone's weight is positive, the primary is a node with a stake. |
| Proposers.ProposerForView | core/qoi/proposer.py:88-103 | The primary after a view change is that of the new view alone; the view it started from plays no part. |
| Proposers.LeadsViewExactly | core/qoi/proposer.py:71-103 | With positive total weight, a node leads a view if and only if its interval holds that view's roll, whether or not it led and failed before. |
| Proposers.FailedPrimaryReturns | core/qoi/proposer.py:88-103 | For any two nodes there are stakes of both and digests with which one of them leads two views in a row. |
| PoM.PoMVerificationState.AddVerify | core/node/pom.py:189-196 | Only a verifier's first vote counts, on its side, with its accuracy. |
| PoM.ReasonsTruthful | core/node/pom.py:213-253 | A rejected node is rejected for its accuracy if and only if a counted vote measured too little, and for its weights only if every counted vote against it found them different. |
| PoM.AdmissionTruthful | core/node/pom.py:207-235 | An admission announces the node's type and the mean accuracy of the counted votes. |
| PoM.VotesCounted | core/node/pom.py:189-196 | Whatever the order and repetitions, the lists hold each voter once and are exactly the voters for and against. |
| PoM.VerdictIsFinal | core/node/pom.py:198-253 | With at most 4f+1 validators, any verdict along any order of votes is the verdict of the full vote. |
| PoM.VerdictNeverFlips | core/node/pom.py:198-253 | With at most 4f+1 validators, a verdict stays the same when more votes arrive. |
| PoM.DecidedWhenAllVoted | core/node/pom.py:198-253 | Once all validators have voted there is a verdict, that of the full vote. |
| PoM.OrderIrrelevantExactly | core/node/pom.py:198-205 | The order of the votes never matters if and only if there are at most 4f+1 validators. |
| PoM.ChainRecordsVotes | core/blockchain/chain.py:399-408 | The ledger's record of a pending node after any transactions equals the verification state after the same votes. |
| Sync.SeenKeys.Mark | core/network/p2p_server.py:550-557 | Deque and set stay equal and bounded; a new key goes in, the oldest out when full. |
| Sync.Remembered | core/network/p2p_server.py:547-557 | A new key is remembered while fewer than 10 000 others are marked after it. |
| Sync.ServedIsNext | core/network/p2p_server.py:280-372 | Blocks are asked for if and only if the peer is ahead, and what it then serves are exactly the next ones, 50 at most. |
| Sync.Peer.OnGetBlocks | core/network/p2p_server.py:355-372 | Serves the requested blocks it has, in order, 50 at most. |
| Sync.Peer.OnBlocks | core/network/p2p_server.py:374-403 | Seen, malformed and rejected blocks are skipped, the others appended; asks for more exactly when it made progress and is still behind. |
| Sync.ExchangeShrinksGap | core/network/p2p_server.py:355-403 | Against a peer whose chain extends ours, one exchange leaves our chain a prefix of theirs, longer by 50 blocks or up to the first missing block whose hash counts as seen when its turn comes, or their end. |
| Sync.UnseenReachTheEnd | core/network/p2p_server.py:374-403 | Nothing stops it if the missing blocks' hashes are unseen and distinct. |
| Sync.CatchUp | core/network/p2p_server.py:280-403 | The exchanges end, with our chain extended along the peer's exactly to that block, and with the peer's books if that is the end. |

## Left out

- General liveness and real time: a timeout is a choice of each run, and nothing is claimed about messages that arrive in no phase.
- The uniqueness of a primary per view: nodes may elect from different collections of view changes.
- Request ids and sequence numbers across rounds: one round per machine; the machine itself does not compare request ids.
- The proof-of-stake vote machine, its block builder and the PoS half of the engine: an easier copy of the quorum count.
- Floating-point rounding, NaN and infinities, except infinite scores in the committee election.
- ECDSA, SHA-256, JSON encoding and the parsing of contract text into instructions: given functions, or inputs.
- Transport, gossip fan-out, peers joining or leaving during a sync, persistence, HTTP routes, wallets, the faucet.
- Inference itself, image exchange, calibration and out-of-distribution scorers: their results are inputs.
- Building challenges and verifying model answers off-chain: only the votes they lead to are modelled.
- Plain queries, record conversions to and from dicts, and event logging: they would only add easy members.
- Aliasing: node and contract records are values; the source shares the objects it stores.
- HashChain.TipDeterminesLedger: says nothing about the first block's transactions, which are never checked against its root.
- HashChain.TipDeterminesHeaders: ids are compared, not contents, because a received transaction keeps the id it came with.
- Funds.RunConserves: programs that store to the balance or transfer entries themselves are excluded; OneStoreSetsFunds shows that they can leave any sum.
- Sync.CatchUp: the peer's chain stands still during the exchange, and the two nodes use the same fault bound.
- Engine.ConsensusEngine.CommitOutcome: the waiting loop around it and the re-queueing of a timed-out request are not modelled.
- Settlement.SystemTxsMint: transaction ids and timestamps come from given functions of the transaction's content and number.
