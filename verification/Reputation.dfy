/** How reputations move: with registrations and slashes, and with a round's results. */
module Reputation {
  import opened Collections
  import opened Constants
  import opened Ledger

  predicate RegistersNode(tx: Tx, a: Address) {
    tx.sender == a && tx.payload.Simple?
    && (tx.payload.user.NodeRegister? || tx.payload.user.NodeRegisterDNN? || tx.payload.user.NodeRegisterPOS?)
  }

  predicate SlashesNode(tx: Tx, a: Address) {
    tx.sender == a && tx.payload.System? && tx.payload.protocol.Slash?
  }

  /** Whether the node registers, and how often it is slashed after that. */
  function Reset(txs: seq<Tx>, a: Address): bool {
    txs != [] && (RegistersNode(txs[|txs| - 1], a) || Reset(txs[..|txs| - 1], a))
  }

  function Falls(txs: seq<Tx>, a: Address): nat {
    if txs == [] || RegistersNode(txs[|txs| - 1], a) then 0
    else Falls(txs[..|txs| - 1], a) + if SlashesNode(txs[|txs| - 1], a) then 1 else 0
  }

  /** A registration resets a reputation, every slash takes the same penalty off it, down to zero. */
  lemma {:induction false} ReputationExactly(r: Reputations, txs: seq<Tx>, a: Address)
    requires ReputationOf(r, a) >= 0.0
    ensures var start := if Reset(txs, a) then INITIAL_REPUTATION else ReputationOf(r, a);
            var left := start - Falls(txs, a) as real * REP_PENALTY;
            ReputationOf(RateTxs(r, txs), a) == if left > 0.0 then left else 0.0
  {
    if txs != [] {
      var before, last := txs[..|txs| - 1], txs[|txs| - 1];
      ReputationExactly(r, before, a);
      OneRated(RateTxs(r, before), last, a);
      if !RegistersNode(last, a) && SlashesNode(last, a) {
        OneMoreFall(Falls(before, a));
      }
    }
  }

  lemma OneMoreFall(n: nat)
    ensures (n + 1) as real * REP_PENALTY == n as real * REP_PENALTY + REP_PENALTY
  {}

  lemma OneRated(r: Reputations, tx: Tx, a: Address)
    ensures ReputationOf(RateTx(r, tx), a)
              == if RegistersNode(tx, a) then INITIAL_REPUTATION
                 else if SlashesNode(tx, a) then
                   if ReputationOf(r, a) > REP_PENALTY then ReputationOf(r, a) - REP_PENALTY else 0.0
                 else ReputationOf(r, a)
  {}

  /** A round's results: a listed node's reputation moves by its delta, down to zero; no other moves. */
  lemma {:induction false} DeltasExactly(r: Reputations, deltas: seq<(Address, real)>, a: Address)
    requires forall i, j :: 0 <= i < j < |deltas| ==> deltas[i].0 != deltas[j].0
    ensures (forall i :: 0 <= i < |deltas| ==> deltas[i].0 != a) ==> ReputationOf(RateDeltas(r, deltas), a) == ReputationOf(r, a)
    ensures forall i :: 0 <= i < |deltas| && deltas[i].0 == a ==>
              ReputationOf(RateDeltas(r, deltas), a)
                == if ReputationOf(r, a) + deltas[i].1 > 0.0 then ReputationOf(r, a) + deltas[i].1 else 0.0
  {
    if deltas != [] {
      DeltasExactly(r, deltas[..|deltas| - 1], a);
    }
  }
}
