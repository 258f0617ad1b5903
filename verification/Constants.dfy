/** The protocol's constants. */
module Constants {
  const GENESIS_ADDRESS := "0000000000000000000000000000000000000000"
  const GENESIS_PREV_HASH := "0000000000000000000000000000000000000000000000000000000000000000"

  const MIN_STAKE := 1000.0
  const MIN_STAKE_DNN := 1000.0
  const SLASH_PENALTY := 100.0

  const INFERENCE_REWARD := 10.0
  const LEADER_BONUS := 2.0

  const INITIAL_REPUTATION := 0.0
  const REP_CAP_PER_ROUND := 0.5
  const REP_PENALTY := 0.3
  const REP_LEADER_BONUS := 0.1

  const QUORUM_TARGET := 10
  const QUORUM_FLOOR := 4
  const QUORUM_CEILING := 19

  const MIN_MODEL_ACCURACY := 0.8

  const CONTRACT_GAS_LIMIT := 1000000

  const MEMPOOL_MAX_SIZE := 10000
  const MAX_SIMPLE_TXS := 50
}
