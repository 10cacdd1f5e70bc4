/** Macro-block finality and intent validity arithmetic of the Albatross network. */
module Policy {
  import opened Domain

  datatype NetworkPolicy = NetworkPolicy(
    blocksPerBatch: int,
    blockSeparationTimeMs: int,
    genesisBlockNumber: int,
    transactionValidityWindowBlocks: int)

  const NIMIQ_TESTNET_POLICY := NetworkPolicy(60, 1_000, 3_032_010, 7_200)
  const NIMIQ_POLICY := NIMIQ_TESTNET_POLICY
  const DEFAULT_SAFETY_BUFFER_MS := 5 * 60 * 1000
  const INTENT_VALIDITY_WINDOW_MS := IntentValidityWindowMs(DEFAULT_SAFETY_BUFFER_MS, NIMIQ_POLICY)

  function LastMacroBlock(blockNumber: int, policy: NetworkPolicy): int
    requires policy.blocksPerBatch > 0
  {
    var rel := blockNumber - policy.genesisBlockNumber;
    if rel < 0 then policy.genesisBlockNumber
    else rel / policy.blocksPerBatch * policy.blocksPerBatch + policy.genesisBlockNumber
  }

  function ConfirmationsToFinality(blockNumber: int, policy: NetworkPolicy): int
    requires policy.blocksPerBatch > 0
  {
    var nextMacro := LastMacroBlock(blockNumber, policy) + policy.blocksPerBatch;
    if nextMacro - blockNumber < 0 then 0 else nextMacro - blockNumber
  }

  /** A transaction still in the mempool is never final. */
  predicate HasReachedFinality(blockNumber: Option<int>, head: int, policy: NetworkPolicy)
    requires policy.blocksPerBatch > 0
  {
    blockNumber.Some? && head >= LastMacroBlock(blockNumber.value, policy) + policy.blocksPerBatch
  }

  function IntentValidityWindowMs(safetyBufferMs: int, policy: NetworkPolicy): int {
    policy.transactionValidityWindowBlocks * policy.blockSeparationTimeMs + safetyBufferMs
  }

  /** The k-th batch boundary, counting genesis as the zeroth. */
  function Boundary(k: nat, policy: NetworkPolicy): int {
    policy.genesisBlockNumber + k * policy.blocksPerBatch
  }

  ghost predicate IsMacroBlock(m: int, policy: NetworkPolicy) {
    exists k: nat :: m == Boundary(k, policy)
  }

  lemma ScaleIsMonotone(j: int, k: int, b: int)
    requires j <= k && b > 0
    ensures j * b <= k * b
  {
    assert (k - j) * b >= 0;
  }

  lemma QuotientBounds(rel: int, b: int)
    requires b > 0
    ensures rel / b * b <= rel < rel / b * b + b
  {
    assert rel == rel / b * b + rel % b;
  }

  /** At or after genesis the result is the greatest batch boundary not above the block; before it, genesis itself. */
  lemma LastMacroBlockIsGreatestBoundary(blockNumber: int, policy: NetworkPolicy)
    requires policy.blocksPerBatch > 0
    ensures IsMacroBlock(LastMacroBlock(blockNumber, policy), policy)
    ensures blockNumber >= policy.genesisBlockNumber ==> LastMacroBlock(blockNumber, policy) <= blockNumber
    ensures forall m :: IsMacroBlock(m, policy) && m <= blockNumber ==> m <= LastMacroBlock(blockNumber, policy)
    ensures blockNumber < policy.genesisBlockNumber ==> LastMacroBlock(blockNumber, policy) == policy.genesisBlockNumber
  {
    var b, rel := policy.blocksPerBatch, blockNumber - policy.genesisBlockNumber;
    QuotientBounds(rel, b);
    var q: nat := if rel < 0 then 0 else rel / b;
    assert LastMacroBlock(blockNumber, policy) == Boundary(q, policy);
    forall m | IsMacroBlock(m, policy) && m <= blockNumber ensures m <= LastMacroBlock(blockNumber, policy) {
      var k: nat :| m == Boundary(k, policy);
      if k > q {
        ScaleIsMonotone(q + 1, k, b);
      } else {
        ScaleIsMonotone(k, q, b);
      }
    }
  }

  /** Finality is exactly a confirmation count, in 1..blocksPerBatch for every block of the chain, and is never lost. */
  lemma FinalityIsAConfirmationCount(blockNumber: int, head: int, policy: NetworkPolicy)
    requires policy.blocksPerBatch > 0
    ensures HasReachedFinality(Some(blockNumber), head, policy)
            <==> head - blockNumber >= ConfirmationsToFinality(blockNumber, policy)
    ensures blockNumber >= policy.genesisBlockNumber ==>
              1 <= ConfirmationsToFinality(blockNumber, policy) <= policy.blocksPerBatch
    ensures HasReachedFinality(Some(blockNumber), head, policy) ==>
              forall later | later >= head :: HasReachedFinality(Some(blockNumber), later, policy)
  {
    QuotientBounds(blockNumber - policy.genesisBlockNumber, policy.blocksPerBatch);
  }

  /** A transaction in an earlier block is final no later than one in a later block. */
  lemma EarlierBlocksFinaliseFirst(early: int, late: int, head: int, policy: NetworkPolicy)
    requires policy.blocksPerBatch > 0 && early <= late
    requires HasReachedFinality(Some(late), head, policy)
    ensures HasReachedFinality(Some(early), head, policy)
  {
    LastMacroBlockIsGreatestBoundary(early, policy);
    LastMacroBlockIsGreatestBoundary(late, policy);
    var m := LastMacroBlock(early, policy);
    if early >= policy.genesisBlockNumber {
      assert IsMacroBlock(m, policy) && m <= late;
    }
  }

  /** With a nonnegative buffer an intent outlives every block in which its transaction can still be included. */
  lemma WindowCoversTransactionValidity(safetyBufferMs: int, policy: NetworkPolicy)
    ensures safetyBufferMs >= 0
       <==> IntentValidityWindowMs(safetyBufferMs, policy)
            >= policy.transactionValidityWindowBlocks * policy.blockSeparationTimeMs
  {
  }
}
