/** The work-log state file of the PoVW commands of the Boundless CLI: the
    work log being built, the ordered log-builder receipts whose journals
    chain the log's commits, and the update transactions sent to the chain.
    Receipt verification and journal decoding are foreign and appear as data
    on each receipt; bincode serialisation is foreign and only the version
    byte framing is modelled. */
module CliState {
  import opened Wrappers
  import opened Ints
  import opened MintGuest

  type Byte = x: nat | x < 256

  /** `StateVersion::V1 as u8`. */
  const STATE_VERSION_V1: Byte := 0

  /** The commit of `WorkLog::EMPTY`, the Merkle root of the empty nonce tree. */
  const EMPTY_COMMIT: Commit := 0

  /** `RISC0_POVW_LOG_BUILDER_ID`; only its identity matters. */
  const LOG_BUILDER_ID: nat := 1

  /** A work log: the job numbers it has consumed nonces for, and the Merkle
      root over them. The root of the empty log is the fixed `EMPTY_COMMIT`. */
  datatype WorkLog = WorkLog(jobs: set<u64>, root: Commit)
  {
    function Commit(): Commit
    {
      if jobs == {} then EMPTY_COMMIT else root
    }

    predicate IsEmpty()
    {
      jobs == {}
    }
  }

  const EMPTY_WORK_LOG: WorkLog := WorkLog({}, EMPTY_COMMIT)

  datatype LogBuilderJournal = LogBuilderJournal(
    selfImageId: nat,
    workLogId: Address,
    initialCommit: Commit,
    updatedCommit: Commit)

  /** A log-builder receipt: whether it verifies against the log-builder
      image, and its journal, `None` when the journal does not decode. */
  datatype Receipt = Receipt(verifies: bool, journal: Option<LogBuilderJournal>)

  type TxHash = nat

  datatype UpdateTransactionState = UpdateTransactionState(
    blockNumber: Option<u64>,
    updateEvent: Option<WorkLogUpdated>)

  const PENDING: UpdateTransactionState := UpdateTransactionState(None, None)

  /** A transaction receipt: its hash, its status, its block number if any,
      and each of its logs decoded as a `WorkLogUpdated` event, or `None`. */
  datatype TransactionReceipt = TransactionReceipt(
    transactionHash: TxHash,
    status: bool,
    blockNumber: Option<u64>,
    logs: seq<Option<WorkLogUpdated>>)

  datatype StateError =
    | ReceiptVerificationFailed
    | JournalDecodeFailed
    | SelfImageIdMismatch
    | LogIdMismatch
    | InitialCommitMismatch
    | UpdatedCommitMismatch
    | NoWorkLogUpdatedEvent
    | NoBlockNumber

  datatype ValidationError =
    | NonEmptyLogWithoutReceipts
    | ReceiptUnverified(index: nat)
    | ReceiptJournalUndecodable(index: nat)
    | FirstInitialCommitMismatch
    | ChainBroken(index: nat)
    | ReceiptLogIdMismatch(index: nat)
    | FinalCommitMismatch

  datatype DecodeError = EmptyBuffer | UnknownVersion(version: Byte)

  // ---------------------------------------------------------------------------
  // Version-byte framing
  // ---------------------------------------------------------------------------

  /** `encode`: the version byte, then the serialised state. */
  function Encode(body: seq<Byte>): (r: seq<Byte>)
    ensures |r| == |body| + 1 && r[0] == STATE_VERSION_V1 && r[1..] == body
  {
    [STATE_VERSION_V1] + body
  }

  /** `decode`: rejects an empty buffer and an unknown version byte, and
      hands the bytes after a V1 version byte to the deserialiser. */
  function Decode(buffer: seq<Byte>): Result<seq<Byte>, DecodeError>
  {
    if buffer == [] then Err(EmptyBuffer)
    else if buffer[0] == STATE_VERSION_V1 then Ok(buffer[1..])
    else Err(UnknownVersion(buffer[0]))
  }

  lemma DecodeEncode(body: seq<Byte>)
    ensures Decode(Encode(body)) == Ok(body)
  {
  }

  /** Every buffer that decodes is the encoding of what it decodes to, and
      every other buffer is empty or carries an unknown version. */
  lemma DecodeCharacterised(buffer: seq<Byte>)
    ensures Decode(buffer).Ok? ==> Encode(Decode(buffer).value) == buffer
    ensures buffer == [] ==> Decode(buffer) == Err(EmptyBuffer)
    ensures buffer != [] && buffer[0] != STATE_VERSION_V1 ==>
              Decode(buffer) == Err(UnknownVersion(buffer[0]))
  {
    if buffer != [] && buffer[0] == STATE_VERSION_V1 {
      assert [buffer[0]] + buffer[1..] == buffer;
    }
  }

  // ---------------------------------------------------------------------------
  // Admitting a new log-builder receipt
  // ---------------------------------------------------------------------------

  /** The checks of `update_work_log`, in their order. */
  function UpdateCheck(logId: Address, current: WorkLog, next: WorkLog, receipt: Receipt): (r: Outcome<StateError>)
    ensures r.Pass? <==>
              receipt.verifies && receipt.journal.Some?
              && receipt.journal.value.selfImageId == LOG_BUILDER_ID
              && receipt.journal.value.workLogId == logId
              && receipt.journal.value.initialCommit == current.Commit()
              && receipt.journal.value.updatedCommit == next.Commit()
  {
    if !receipt.verifies then Fail(ReceiptVerificationFailed)
    else if receipt.journal.None? then Fail(JournalDecodeFailed)
    else
      var journal := receipt.journal.value;
      if journal.selfImageId != LOG_BUILDER_ID then Fail(SelfImageIdMismatch)
      else if journal.workLogId != logId then Fail(LogIdMismatch)
      else if journal.initialCommit != current.Commit() then Fail(InitialCommitMismatch)
      else if journal.updatedCommit != next.Commit() then Fail(UpdatedCommitMismatch)
      else Pass
  }

  // ---------------------------------------------------------------------------
  // Validation
  // ---------------------------------------------------------------------------

  /** The check `validate_with_ctx` makes of receipt `index`, expecting its
      journal to start at `expected`; on success, the commit it ends at. */
  function CheckReceipt(logId: Address, receipt: Receipt, index: nat, expected: Commit): Result<Commit, ValidationError>
  {
    if !receipt.verifies then Err(ReceiptUnverified(index))
    else if receipt.journal.None? then Err(ReceiptJournalUndecodable(index))
    else
      var journal := receipt.journal.value;
      if journal.initialCommit != expected then
        Err(if index == 0 then FirstInitialCommitMismatch else ChainBroken(index))
      else if journal.workLogId != logId then Err(ReceiptLogIdMismatch(index))
      else Ok(journal.updatedCommit)
  }

  /** The expected commit after checking `receipts` in order from the empty
      log's commit, or the first failure. */
  function ReceiptChain(logId: Address, receipts: seq<Receipt>): Result<Commit, ValidationError>
  {
    if receipts == [] then Ok(EMPTY_COMMIT)
    else match ReceiptChain(logId, receipts[..|receipts| - 1])
      case Err(e) => Err(e)
      case Ok(expected) => CheckReceipt(logId, receipts[|receipts| - 1], |receipts| - 1, expected)
  }

  /** `validate_with_ctx` as a function of the state's fields. */
  function Validation(logId: Address, workLog: WorkLog, receipts: seq<Receipt>): Outcome<ValidationError>
  {
    if receipts == [] then
      if workLog.IsEmpty() then Pass else Fail(NonEmptyLogWithoutReceipts)
    else match ReceiptChain(logId, receipts)
      case Err(e) => Fail(e)
      case Ok(last) => if last == workLog.Commit() then Pass else Fail(FinalCommitMismatch)
  }

  /** The receipts verify, decode, carry the state's log ID, and their
      journals chain from the empty log's commit to `last`. */
  ghost predicate ChainsTo(logId: Address, receipts: seq<Receipt>, last: Commit)
  {
    (forall i :: 0 <= i < |receipts| ==>
       receipts[i].verifies && receipts[i].journal.Some? && receipts[i].journal.value.workLogId == logId)
    && (forall i :: 0 < i < |receipts| ==>
          receipts[i].journal.value.initialCommit == receipts[i - 1].journal.value.updatedCommit)
    && (receipts == [] ==> last == EMPTY_COMMIT)
    && (receipts != [] ==>
          receipts[0].journal.value.initialCommit == EMPTY_COMMIT
          && receipts[|receipts| - 1].journal.value.updatedCommit == last)
  }

  lemma {:induction false} ReceiptChainIsChainsTo(logId: Address, receipts: seq<Receipt>)
    ensures ReceiptChain(logId, receipts).Ok? ==> ChainsTo(logId, receipts, ReceiptChain(logId, receipts).value)
    ensures forall last: Commit :: ChainsTo(logId, receipts, last) ==> ReceiptChain(logId, receipts) == Ok(last)
  {
    if receipts != [] {
      var init := receipts[..|receipts| - 1];
      ReceiptChainIsChainsTo(logId, init);
      var r := ReceiptChain(logId, receipts);
      if r.Ok? {
        assert ReceiptChain(logId, init).Ok?;
        assert ChainsTo(logId, init, ReceiptChain(logId, init).value);
      }
      forall last: Commit | ChainsTo(logId, receipts, last) ensures r == Ok(last) {
        if init != [] {
          assert ChainsTo(logId, init, init[|init| - 1].journal.value.updatedCommit);
        } else {
          assert ChainsTo(logId, init, EMPTY_COMMIT);
        }
      }
    }
  }

  /** A state passes validation exactly when it has no receipts and an empty
      work log, or its receipts chain from the empty commit to the work log's
      commit with the state's log ID throughout. */
  lemma ValidationIff(logId: Address, workLog: WorkLog, receipts: seq<Receipt>)
    ensures Validation(logId, workLog, receipts).Pass? <==>
              (receipts == [] && workLog.IsEmpty())
              || (receipts != [] && ChainsTo(logId, receipts, workLog.Commit()))
  {
    ReceiptChainIsChainsTo(logId, receipts);
  }

  /** A successful `update_work_log` keeps a valid state valid. */
  lemma UpdatePreservesValidity(logId: Address, workLog: WorkLog, receipts: seq<Receipt>,
                                next: WorkLog, receipt: Receipt)
    requires Validation(logId, workLog, receipts).Pass?
    requires UpdateCheck(logId, workLog, next, receipt).Pass?
    ensures Validation(logId, next, receipts + [receipt]).Pass?
  {
    ValidationIff(logId, workLog, receipts);
    ValidationIff(logId, next, receipts + [receipt]);
    var rs := receipts + [receipt];
    assert rs[..|receipts|] == receipts;
    assert ChainsTo(logId, rs, next.Commit());
  }

  lemma {:induction false} ReceiptChainFailureSticks(logId: Address, receipts: seq<Receipt>, n: nat)
    requires n <= |receipts|
    requires ReceiptChain(logId, receipts[..n]).Err?
    ensures ReceiptChain(logId, receipts) == ReceiptChain(logId, receipts[..n])
    decreases |receipts| - n
  {
    if n < |receipts| {
      assert receipts[..n + 1][..n] == receipts[..n];
      ReceiptChainFailureSticks(logId, receipts, n + 1);
    } else {
      assert receipts[..n] == receipts;
    }
  }

  // ---------------------------------------------------------------------------
  // The state object
  // ---------------------------------------------------------------------------

  class State {
    var logId: Address
    var workLog: WorkLog
    var receipts: seq<Receipt>
    var updateTransactions: map<TxHash, UpdateTransactionState>
    /** `updated_at`, in seconds; the clock reading is passed in as `now`. */
    var updatedAt: nat

    /** `State::new`: an empty work log with no receipts or transactions. */
    constructor (logId0: Address, now: nat)
      ensures logId == logId0 && workLog == EMPTY_WORK_LOG && receipts == []
      ensures updateTransactions == map[] && updatedAt == now
    {
      logId := logId0;
      workLog := EMPTY_WORK_LOG;
      receipts := [];
      updateTransactions := map[];
      updatedAt := now;
    }

    /** `update_work_log`: on any failed check nothing changes; otherwise the
        receipt is appended and the work log replaced. */
    method UpdateWorkLog(next: WorkLog, receipt: Receipt, now: nat) returns (r: Outcome<StateError>)
      modifies this
      ensures r == UpdateCheck(old(logId), old(workLog), next, receipt)
      ensures r.Fail? ==> unchanged(this)
      ensures r.Pass? ==>
                logId == old(logId) && workLog == next && receipts == old(receipts) + [receipt]
                && updateTransactions == old(updateTransactions) && updatedAt == now
    {
      if !receipt.verifies {
        return Fail(ReceiptVerificationFailed);
      }
      if receipt.journal.None? {
        return Fail(JournalDecodeFailed);
      }
      var journal := receipt.journal.value;
      if journal.selfImageId != LOG_BUILDER_ID {
        return Fail(SelfImageIdMismatch);
      }
      if journal.workLogId != logId {
        return Fail(LogIdMismatch);
      }
      var initialCommit := workLog.Commit();
      if journal.initialCommit != initialCommit {
        return Fail(InitialCommitMismatch);
      }
      var updatedCommit := next.Commit();
      if journal.updatedCommit != updatedCommit {
        return Fail(UpdatedCommitMismatch);
      }
      receipts := receipts + [receipt];
      workLog := next;
      updatedAt := now;
      return Pass;
    }

    /** `add_pending_update_tx`: records a pending entry unless the hash is
        already known, in which case its entry is kept. */
    method AddPendingUpdateTx(txHash: TxHash, now: nat)
      modifies this
      ensures txHash in old(updateTransactions) ==> updateTransactions == old(updateTransactions)
      ensures txHash !in old(updateTransactions) ==>
                updateTransactions == old(updateTransactions)[txHash := PENDING]
      ensures logId == old(logId) && workLog == old(workLog) && receipts == old(receipts)
      ensures updatedAt == now
    {
      if txHash !in updateTransactions {
        updateTransactions := updateTransactions[txHash := PENDING];
      }
      updatedAt := now;
    }

    /** `confirm_update_tx`: the first log that decodes as `WorkLogUpdated`
        and the block number are recorded for the transaction, overwriting any
        entry; without either nothing changes. */
    method ConfirmUpdateTx(txReceipt: TransactionReceipt, now: nat) returns (r: Outcome<StateError>)
      modifies this
      ensures r.Pass? <==> FirstEvent(txReceipt.logs).Some? && txReceipt.blockNumber.Some?
      ensures r.Fail? ==>
                updateTransactions == old(updateTransactions) && updatedAt == old(updatedAt)
                && r.error == (if FirstEvent(txReceipt.logs).None? then NoWorkLogUpdatedEvent else NoBlockNumber)
      ensures r.Pass? ==>
                updateTransactions == old(updateTransactions)[txReceipt.transactionHash :=
                  UpdateTransactionState(txReceipt.blockNumber, FirstEvent(txReceipt.logs))]
                && updatedAt == now
      ensures logId == old(logId) && workLog == old(workLog) && receipts == old(receipts)
    {
      var event := FirstEvent(txReceipt.logs);
      if event.None? {
        return Fail(NoWorkLogUpdatedEvent);
      }
      if txReceipt.blockNumber.None? {
        return Fail(NoBlockNumber);
      }
      updateTransactions := updateTransactions[txReceipt.transactionHash :=
        UpdateTransactionState(Some(txReceipt.blockNumber.value), event)];
      updatedAt := now;
      return Pass;
    }

    /** `validate_with_ctx`: walks the receipts carrying the expected commit. */
    method Validate() returns (r: Outcome<ValidationError>)
      ensures r == Validation(logId, workLog, receipts)
    {
      if receipts == [] {
        if !workLog.IsEmpty() {
          return Fail(NonEmptyLogWithoutReceipts);
        }
        return Pass;
      }
      var expected := EMPTY_COMMIT;
      for i := 0 to |receipts|
        invariant ReceiptChain(logId, receipts[..i]) == Ok(expected)
      {
        var receipt := receipts[i];
        assert receipts[..i + 1][..i] == receipts[..i];
        if !receipt.verifies {
          ReceiptChainFailureSticks(logId, receipts, i + 1);
          return Fail(ReceiptUnverified(i));
        }
        if receipt.journal.None? {
          ReceiptChainFailureSticks(logId, receipts, i + 1);
          return Fail(ReceiptJournalUndecodable(i));
        }
        var journal := receipt.journal.value;
        if i == 0 {
          if journal.initialCommit != EMPTY_COMMIT {
            ReceiptChainFailureSticks(logId, receipts, i + 1);
            return Fail(FirstInitialCommitMismatch);
          }
        } else {
          if journal.initialCommit != expected {
            ReceiptChainFailureSticks(logId, receipts, i + 1);
            return Fail(ChainBroken(i));
          }
        }
        if journal.workLogId != logId {
          ReceiptChainFailureSticks(logId, receipts, i + 1);
          return Fail(ReceiptLogIdMismatch(i));
        }
        expected := journal.updatedCommit;
      }
      assert receipts[..|receipts|] == receipts;
      if expected != workLog.Commit() {
        return Fail(FinalCommitMismatch);
      }
      return Pass;
    }
  }

  /** `logs().iter().filter_map(..).next()`: the first log that decodes as a
      `WorkLogUpdated` event. */
  function FirstEvent(logs: seq<Option<WorkLogUpdated>>): (r: Option<WorkLogUpdated>)
    ensures r.None? <==> forall i :: 0 <= i < |logs| ==> logs[i].None?
    ensures r.Some? ==> exists i :: 0 <= i < |logs| && logs[i] == r
                          && forall j :: 0 <= j < i ==> logs[j].None?
  {
    if logs == [] then None
    else if logs[0].Some? then logs[0]
    else
      var rest := FirstEvent(logs[1..]);
      assert forall i :: 1 <= i < |logs| ==> logs[i] == logs[1..][i - 1];
      if rest.Some? then
        var k :| 0 <= k < |logs[1..]| && logs[1..][k] == rest && forall j :: 0 <= j < k ==> logs[1..][j].None?;
        assert logs[k + 1] == rest;
        rest
      else rest
  }
}
