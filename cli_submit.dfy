/** `boundless povw submit`: given the work-log state and the commit the PoVW
    accounting contract holds for the log, decide which log-builder receipts
    still have to go on chain, and send them one by one, recording each
    transaction in the state as pending and then as confirmed. Proving,
    sending and receipt retrieval are foreign and given as a `Network`;
    saving the state file after each step is not modelled. */
module CliSubmit {
  import opened Wrappers
  import opened Ints
  import opened MintGuest
  import opened CliState

  datatype SubmitError =
    | SignerMismatch
    | NoReceipts
    | LatestJournalUndecodable
    | JournalUndecodable(index: nat)
    | NoMatchingReceipt(onchain: Commit)
    | SendFailed
    | ReceiptUnavailable
    | TransactionFailed(txHash: TxHash)
    | UpdateValueTooLarge(txHash: TxHash)
    | ConfirmFailed(error: StateError)

  datatype SubmitPlan = UpToDate | SendFrom(index: nat)

  /** Proving and sending the update for a receipt, yielding the transaction
      hash; and waiting for a transaction's receipt. */
  datatype Network = Network(
    send: Receipt -> Option<TxHash>,
    receiptOf: TxHash -> Option<TransactionReceipt>)

  predicate StartsAt(receipt: Receipt, commit: Commit)
  {
    receipt.journal.Some? && receipt.journal.value.initialCommit == commit
  }

  /** The scan of the receipts below index `n`, from the highest index down:
      the first undecodable journal is an error, the first journal starting at
      `onchain` gives its index. */
  function MatchBelow(receipts: seq<Receipt>, onchain: Commit, n: nat): (r: Result<nat, SubmitError>)
    requires n <= |receipts|
    ensures r.Ok? ==>
              r.value < n && StartsAt(receipts[r.value], onchain)
              && forall j :: r.value < j < n ==> receipts[j].journal.Some? && !StartsAt(receipts[j], onchain)
    ensures r.Err? && r.error.JournalUndecodable? ==>
              r.error.index < n && receipts[r.error.index].journal.None?
              && forall j :: r.error.index < j < n ==> receipts[j].journal.Some? && !StartsAt(receipts[j], onchain)
    ensures r.Err? && !r.error.JournalUndecodable? ==>
              r.error == NoMatchingReceipt(onchain)
              && forall j :: 0 <= j < n ==> receipts[j].journal.Some? && !StartsAt(receipts[j], onchain)
    decreases n
  {
    if n == 0 then Err(NoMatchingReceipt(onchain))
    else match receipts[n - 1].journal
      case None => Err(JournalUndecodable(n - 1))
      case Some(journal) =>
        if journal.initialCommit == onchain then Ok(n - 1) else MatchBelow(receipts, onchain, n - 1)
  }

  /** `matching_receipt_index`: `enumerate().rev().map(..).find_map(..)`. */
  function MatchingReceiptIndex(receipts: seq<Receipt>, onchain: Commit): Result<nat, SubmitError>
  {
    MatchBelow(receipts, onchain, |receipts|)
  }

  /** What `run` decides before sending anything. */
  function Plan(logId: Address, signer: Address, receipts: seq<Receipt>, onchain: Commit): Result<SubmitPlan, SubmitError>
  {
    if signer != logId then Err(SignerMismatch)
    else if receipts == [] then Err(NoReceipts)
    else match receipts[|receipts| - 1].journal
      case None => Err(LatestJournalUndecodable)
      case Some(latest) =>
        if latest.updatedCommit == onchain then Ok(UpToDate)
        else match MatchingReceiptIndex(receipts, onchain)
          case Err(e) => Err(e)
          case Ok(index) => Ok(SendFrom(index))
  }

  /** Nothing is sent by a signer other than the log's owner or from a state
      without receipts; the chain is up to date exactly when the latest
      receipt ends at the on-chain commit; otherwise sending starts from the
      last receipt that starts at the on-chain commit. */
  lemma PlanFacts(logId: Address, signer: Address, receipts: seq<Receipt>, onchain: Commit)
    ensures var r := Plan(logId, signer, receipts, onchain);
            (signer != logId ==> r == Err(SignerMismatch))
            && (signer == logId && receipts == [] ==> r == Err(NoReceipts))
            && (r == Ok(UpToDate) <==>
                  signer == logId && receipts != []
                  && receipts[|receipts| - 1].journal.Some?
                  && receipts[|receipts| - 1].journal.value.updatedCommit == onchain)
            && (r.Ok? && r.value.SendFrom? ==>
                  var i := r.value.index;
                  i < |receipts| && StartsAt(receipts[i], onchain)
                  && (forall j :: i < j < |receipts| ==> !StartsAt(receipts[j], onchain))
                  && receipts[|receipts| - 1].journal.value.updatedCommit != onchain)
  {
  }

  /** In a valid state, the receipts sent form a chain from the on-chain
      commit to the state's work-log commit. */
  lemma SentSuffixChains(logId: Address, signer: Address, receipts: seq<Receipt>, onchain: Commit, last: Commit)
    requires ChainsTo(logId, receipts, last)
    requires Plan(logId, signer, receipts, onchain).Ok?
    requires Plan(logId, signer, receipts, onchain).value.SendFrom?
    ensures var s := receipts[Plan(logId, signer, receipts, onchain).value.index..];
            s != []
            && s[0].journal.value.initialCommit == onchain
            && (forall k :: 0 < k < |s| ==> s[k].journal.value.initialCommit == s[k - 1].journal.value.updatedCommit)
            && s[|s| - 1].journal.value.updatedCommit == last
            && (forall k :: 0 <= k < |s| ==> s[k].journal.value.workLogId == logId)
  {
    var i := Plan(logId, signer, receipts, onchain).value.index;
    var s := receipts[i..];
    assert forall k :: 0 <= k < |s| ==> s[k] == receipts[i + k];
  }

  /** The transaction map and `updated_at` of the state. */
  datatype TxRecord = TxRecord(transactions: map<TxHash, UpdateTransactionState>, updatedAt: nat)

  /** One pass of the send loop for `receipt`: after sending, the hash is
      recorded as pending (an entry already present is kept); the receipt
      must be available and successful, and its update value must fit in 64
      bits for the confirmation log line (`to::<u64>()` panics otherwise);
      then the transaction is confirmed with its block number and first
      `WorkLogUpdated` event. A failure ends the loop with the record as it
      stands. */
  function SendStep(rec: TxRecord, network: Network, receipt: Receipt, now: nat): (Outcome<SubmitError>, TxRecord)
  {
    match network.send(receipt)
    case None => (Fail(SendFailed), rec)
    case Some(txHash) =>
      var pending := TxRecord(if txHash in rec.transactions then rec.transactions
                              else rec.transactions[txHash := PENDING], now);
      match network.receiptOf(txHash)
      case None => (Fail(ReceiptUnavailable), pending)
      case Some(txReceipt) =>
        var event := FirstEvent(txReceipt.logs);
        if !txReceipt.status then (Fail(TransactionFailed(txReceipt.transactionHash)), pending)
        else if event.Some? && event.value.updateValue >= U64_LIMIT then
          (Fail(UpdateValueTooLarge(txReceipt.transactionHash)), pending)
        else if event.None? then (Fail(ConfirmFailed(NoWorkLogUpdatedEvent)), pending)
        else if txReceipt.blockNumber.None? then (Fail(ConfirmFailed(NoBlockNumber)), pending)
        else
          (Pass, TxRecord(pending.transactions[txReceipt.transactionHash :=
                            UpdateTransactionState(txReceipt.blockNumber, event)], now))
  }

  /** The send loop over `toSend`, stopping at the first failing pass. */
  function SendAll(rec: TxRecord, network: Network, toSend: seq<Receipt>, now: nat): (Outcome<SubmitError>, TxRecord)
    decreases |toSend|
  {
    if toSend == [] then (Pass, rec)
    else
      var (o, next) := SendStep(rec, network, toSend[0], now);
      if o.Fail? then (o, next) else SendAll(next, network, toSend[1..], now)
  }

  /** Every receipt in `sent` has its transaction recorded, and the
      transaction receipt it produced recorded as confirmed. */
  ghost predicate Recorded(m: map<TxHash, UpdateTransactionState>, network: Network, sent: seq<Receipt>)
  {
    forall k :: 0 <= k < |sent| ==>
      network.send(sent[k]).Some?
      && network.send(sent[k]).value in m
      && network.receiptOf(network.send(sent[k]).value).Some?
      && network.receiptOf(network.send(sent[k]).value).value.transactionHash in m
      && m[network.receiptOf(network.send(sent[k]).value).value.transactionHash].blockNumber.Some?
  }

  /** Recording more transactions keeps earlier ones recorded. */
  lemma RecordedGrows(m: map<TxHash, UpdateTransactionState>, m2: map<TxHash, UpdateTransactionState>,
                      network: Network, sent: seq<Receipt>)
    requires Recorded(m, network, sent)
    requires forall h :: h in m ==> h in m2
    requires forall h :: h in m && m[h].blockNumber.Some? ==> m2[h].blockNumber.Some?
    ensures Recorded(m2, network, sent)
  {
  }

  /** The send loop never forgets a transaction nor un-confirms one; the
      stamp is `now` once anything was sent; and when the loop passes, every
      receipt's transaction is recorded as confirmed. */
  lemma {:induction false} SendAllFacts(rec: TxRecord, network: Network, toSend: seq<Receipt>, now: nat)
    ensures var (o, out) := SendAll(rec, network, toSend, now);
            (forall h :: h in rec.transactions ==> h in out.transactions)
            && (forall h :: h in rec.transactions && rec.transactions[h].blockNumber.Some? ==>
                  out.transactions[h].blockNumber.Some?)
            && (out.updatedAt == rec.updatedAt || out.updatedAt == now)
            && (toSend != [] && network.send(toSend[0]).Some? ==> out.updatedAt == now)
            && (o.Pass? ==> Recorded(out.transactions, network, toSend))
    decreases |toSend|
  {
    if toSend != [] {
      var (o1, next) := SendStep(rec, network, toSend[0], now);
      SendStepFacts(rec, network, toSend[0], now);
      if o1.Pass? {
        SendAllFacts(next, network, toSend[1..], now);
        var (o, out) := SendAll(next, network, toSend[1..], now);
        assert SendAll(rec, network, toSend, now) == (o, out);
        if o.Pass? {
          RecordedGrows(next.transactions, out.transactions, network, [toSend[0]]);
          RecordedCons(out.transactions, network, toSend);
        }
      }
    }
  }

  /** One pass keeps and never un-confirms earlier transactions, stamps
      `now` once the transaction was sent, and records it when it passes. */
  lemma SendStepFacts(rec: TxRecord, network: Network, receipt: Receipt, now: nat)
    ensures var (o, next) := SendStep(rec, network, receipt, now);
            (forall h :: h in rec.transactions ==> h in next.transactions)
            && (forall h :: h in rec.transactions && rec.transactions[h].blockNumber.Some? ==>
                  next.transactions[h].blockNumber.Some?)
            && (next.updatedAt == rec.updatedAt || next.updatedAt == now)
            && (network.send(receipt).Some? ==> next.updatedAt == now)
            && (o.Pass? ==> Recorded(next.transactions, network, [receipt]))
  {
  }

  lemma RecordedCons(m: map<TxHash, UpdateTransactionState>, network: Network, sent: seq<Receipt>)
    requires sent != []
    requires Recorded(m, network, [sent[0]]) && Recorded(m, network, sent[1..])
    ensures Recorded(m, network, sent)
  {
    assert [sent[0]][0] == sent[0];
    forall k | 1 <= k < |sent| ensures sent[k] == sent[1..][k - 1] {
    }
  }

  /** The loop of `run` over the receipts to send: each is proved and sent,
      its transaction recorded as pending, its receipt awaited and checked,
      and the transaction recorded as confirmed. `sent` lists the receipts
      whose transactions were confirmed, in order. */
  method SendReceipts(state: State, toSend: seq<Receipt>, network: Network, now: nat)
    returns (r: Outcome<SubmitError>, sent: seq<Receipt>)
    modifies state
    ensures state.logId == old(state.logId) && state.workLog == old(state.workLog)
    ensures state.receipts == old(state.receipts)
    ensures (r, TxRecord(state.updateTransactions, state.updatedAt))
            == SendAll(TxRecord(old(state.updateTransactions), old(state.updatedAt)), network, toSend, now)
    ensures |sent| <= |toSend| && sent == toSend[..|sent|]
    ensures r.Pass? ==> sent == toSend
    ensures r.Fail? ==> |sent| < |toSend|
  {
    sent := [];
    for k := 0 to |toSend|
      invariant state.logId == old(state.logId) && state.workLog == old(state.workLog)
      invariant state.receipts == old(state.receipts)
      invariant sent == toSend[..k]
      invariant SendAll(TxRecord(state.updateTransactions, state.updatedAt), network, toSend[k..], now)
                == SendAll(TxRecord(old(state.updateTransactions), old(state.updatedAt)), network, toSend, now)
    {
      var receipt := toSend[k];
      assert toSend[k..][0] == receipt && toSend[k..][1..] == toSend[k + 1..];
      var sendResult := network.send(receipt);
      if sendResult.None? {
        return Fail(SendFailed), sent;
      }
      var txHash := sendResult.value;
      state.AddPendingUpdateTx(txHash, now);
      var receiptResult := network.receiptOf(txHash);
      if receiptResult.None? {
        return Fail(ReceiptUnavailable), sent;
      }
      var txReceipt := receiptResult.value;
      if !txReceipt.status {
        return Fail(TransactionFailed(txReceipt.transactionHash)), sent;
      }
      var event := FirstEvent(txReceipt.logs);
      if event.Some? && event.value.updateValue >= U64_LIMIT {
        return Fail(UpdateValueTooLarge(txReceipt.transactionHash)), sent;
      }
      var confirmed := state.ConfirmUpdateTx(txReceipt, now);
      if confirmed.Fail? {
        return Fail(ConfirmFailed(confirmed.error)), sent;
      }
      assert toSend[..k + 1] == sent + [receipt];
      sent := sent + [receipt];
    }
    assert toSend[..|toSend|] == toSend;
    return Pass, sent;
  }

  /** `run` from the signer check on: nothing changes unless `Plan` says to
      send from some index, and then the receipts from that index on go
      through the send loop, which determines the new transaction map and
      stamp. The state's log, receipts and log ID are never changed. */
  method Submit(state: State, signer: Address, onchain: Commit, network: Network, now: nat)
    returns (r: Result<SubmitPlan, SubmitError>, sent: seq<Receipt>)
    modifies state
    ensures state.logId == old(state.logId) && state.workLog == old(state.workLog)
    ensures state.receipts == old(state.receipts)
    ensures Plan(old(state.logId), signer, old(state.receipts), onchain).Err? ==>
              r == Plan(old(state.logId), signer, old(state.receipts), onchain) && sent == []
              && state.updateTransactions == old(state.updateTransactions) && state.updatedAt == old(state.updatedAt)
    ensures Plan(old(state.logId), signer, old(state.receipts), onchain) == Ok(UpToDate) ==>
              r == Ok(UpToDate) && sent == []
              && state.updateTransactions == old(state.updateTransactions) && state.updatedAt == old(state.updatedAt)
    ensures Plan(old(state.logId), signer, old(state.receipts), onchain).Ok?
            && Plan(old(state.logId), signer, old(state.receipts), onchain).value.SendFrom? ==>
              var from := Plan(old(state.logId), signer, old(state.receipts), onchain).value.index;
              var (o, rec) := SendAll(TxRecord(old(state.updateTransactions), old(state.updatedAt)), network,
                                      old(state.receipts)[from..], now);
              from < |old(state.receipts)|
              && state.updateTransactions == rec.transactions && state.updatedAt == rec.updatedAt
              && from + |sent| <= |old(state.receipts)| && sent == old(state.receipts)[from..from + |sent|]
              && (o.Pass? ==> r == Ok(SendFrom(from)) && sent == old(state.receipts)[from..])
              && (o.Fail? ==> r == Err(o.error) && from + |sent| < |old(state.receipts)|)
  {
    var plan := Plan(state.logId, signer, state.receipts, onchain);
    PlanFacts(state.logId, signer, state.receipts, onchain);
    if plan.Err? || plan.value.UpToDate? {
      return plan, [];
    }
    var from := plan.value.index;
    var toSend := state.receipts[from..];
    var sendOutcome;
    sendOutcome, sent := SendReceipts(state, toSend, network, now);
    assert toSend[..|sent|] == old(state.receipts)[from..from + |sent|];
    if sendOutcome.Fail? {
      return Err(sendOutcome.error), sent;
    }
    return plan, sent;
  }
}
