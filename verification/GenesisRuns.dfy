/** Genesis blocks made transaction by transaction, for concrete chains. */
module GenesisRuns {
  import opened Options
  import opened Ledger
  import opened LedgerChain

  ghost predicate Becomes(s: State, tx: Tx, s': State) {
    ApplyTransaction(s, tx).Ok? && ApplyTransaction(s, tx).value.0 == s' && ApplyTransaction(s, tx).value.1.executed
  }

  /** After the first k transactions of a genesis block. */
  ghost predicate After(txs: seq<Tx>, k: nat, s: State) {
    k <= |txs| && GenesisState(txs[..k]) == Ok(s)
  }

  lemma GoesOn(txs: seq<Tx>, k: nat, s: State, s': State)
    requires After(txs, k, s) && k < |txs| && Becomes(s, txs[k], s')
    ensures After(txs, k + 1, s')
  {
    assert txs[..k + 1][..k] == txs[..k];
  }

  /** Charging nothing to a sender without payer only advances its nonce. */
  lemma FreeOfCharge(s: State, tx: Tx, acc: Account)
    requires tx.payer.None? && GetAccount(s, tx.from) == Ok(acc)
    ensures Charge(s, tx, 0) == Ok(s.accounts[tx.from := acc.(nonce := acc.nonce + 1)])
  {
    var next := acc.(nonce := acc.nonce + 1);
    assert next.(points := next.points - 0) == next;
  }
}
