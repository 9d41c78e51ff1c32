/** `boundless povw prepare`: gather the work receipts to add to the work log
    (from files, or from a Bento listing filtered by log ID and job number),
    decide whether loading errors abort the update, and hand the receipts
    that loaded to the log-builder prover. Reading files, HTTP requests,
    receipt deserialisation, the log ID parser and the prover are foreign
    and given as functions. */
module CliPrepare {
  import opened Wrappers
  import opened Ints
  import opened Decimal
  import opened MintGuest
  import opened CliState

  /** A receipt claim part that is either present or pruned to its digest. */
  datatype MaybePruned<T> = Value(value: T) | Pruned(digest: nat)

  /** The first nonce of a work claim: its log ID and job number. */
  datatype WorkClaim = WorkClaim(nonceMinLog: Address, nonceMinJob: u64)

  datatype ReceiptClaim = ReceiptClaim(work: MaybePruned<WorkClaim>)

  /** A work receipt from a prover; only its claim is read here. */
  datatype WorkReceipt = WorkReceipt(claim: MaybePruned<ReceiptClaim>)

  /** An entry of the Bento work-receipt listing. */
  datatype WorkReceiptInfo = WorkReceiptInfo(
    key: string,
    povwLogId: Option<string>,
    povwJobNumber: Option<string>)

  datatype PrepareError =
    | PrunedClaim
    | PrunedWorkClaim
    | WrongLogId(found: Address)
    | JobAlreadyInLog(job: u64)
    | NoLogId
    | BadLogId
    | NoJobNumber
    | BadJobNumber
    | LoadFailed
    | LoadErrors
    | NoLogBuilderReceipt
    | ProvingFailed
    | UpdateFailed(error: StateError)

  // ---------------------------------------------------------------------------
  // Admission of a work receipt
  // ---------------------------------------------------------------------------

  /** `check_work_receipt`: rejects pruned claims, a log ID other than the
      work log's, and a job number the work log already holds; otherwise
      returns the receipt unchanged. */
  function CheckWorkReceipt(logId: Address, workLog: WorkLog, receipt: WorkReceipt): (r: Result<WorkReceipt, PrepareError>)
    ensures r.Ok? <==>
              receipt.claim.Value? && receipt.claim.value.work.Value?
              && receipt.claim.value.work.value.nonceMinLog == logId
              && receipt.claim.value.work.value.nonceMinJob !in workLog.jobs
    ensures r.Ok? ==> r.value == receipt
    ensures receipt.claim.Pruned? ==> r == Err(PrunedClaim)
    ensures receipt.claim.Value? && receipt.claim.value.work.Pruned? ==> r == Err(PrunedWorkClaim)
  {
    match receipt.claim
    case Pruned(_) => Err(PrunedClaim)
    case Value(claim) =>
      match claim.work
      case Pruned(_) => Err(PrunedWorkClaim)
      case Value(work) =>
        if work.nonceMinLog != logId then Err(WrongLogId(work.nonceMinLog))
        else if work.nonceMinJob in workLog.jobs then Err(JobAlreadyInLog(work.nonceMinJob))
        else Ok(receipt)
  }

  // ---------------------------------------------------------------------------
  // Parsing a listing entry
  // ---------------------------------------------------------------------------

  /** `u64::from_str`: an optional `+`, then one or more decimal digits
      denoting a value below 2^64. */
  function ParseU64(s: string): (r: Option<u64>)
    ensures r.Some? ==>
              var body := if |s| > 0 && s[0] == '+' then s[1..] else s;
              body != [] && AllDigits(body) && r.value == DigitsValue(body)
  {
    var body := if |s| > 0 && s[0] == '+' then s[1..] else s;
    if body == [] || !AllDigits(body) then None
    else
      var v := DigitsValue(body);
      if v < U64_LIMIT then Some(v) else None
  }

  lemma ParseU64ToDecimal(n: u64)
    ensures ParseU64(ToDecimal(n)) == Some(n)
  {
    ToDecimalValue(n);
    var s := ToDecimal(n);
    assert s[0] != '+';
  }

  /** `parse_receipt_info`: the log ID (parsed by `parseLogId`) and the job
      number; a missing or unparsable field is an error. */
  function ParseReceiptInfo(info: WorkReceiptInfo, parseLogId: string -> Option<Address>)
    : (r: Result<(Address, u64), PrepareError>)
    ensures r.Ok? <==>
              info.povwLogId.Some? && parseLogId(info.povwLogId.value).Some?
              && info.povwJobNumber.Some? && ParseU64(info.povwJobNumber.value).Some?
    ensures r.Ok? ==>
              r.value == (parseLogId(info.povwLogId.value).value, ParseU64(info.povwJobNumber.value).value)
    ensures info.povwLogId.None? ==> r == Err(NoLogId)
  {
    match info.povwLogId
    case None => Err(NoLogId)
    case Some(logIdText) =>
      match parseLogId(logIdText)
      case None => Err(BadLogId)
      case Some(logId) =>
        match info.povwJobNumber
        case None => Err(NoJobNumber)
        case Some(jobText) =>
          match ParseU64(jobText)
          case None => Err(BadJobNumber)
          case Some(job) => Ok((logId, job))
  }

  // ---------------------------------------------------------------------------
  // Choosing the Bento receipts to fetch
  // ---------------------------------------------------------------------------

  /** A listing entry is fetched when it parses, names this log, and its job
      is not yet in the work log. */
  predicate Wanted(info: WorkReceiptInfo, logId: Address, workLog: WorkLog,
                   parseLogId: string -> Option<Address>)
  {
    var parsed := ParseReceiptInfo(info, parseLogId);
    parsed.Ok? && parsed.value.0 == logId && parsed.value.1 !in workLog.jobs
  }

  /** The filter loop of `fetch_work_receipts`: the set of keys to fetch. */
  method KeysToFetch(receipts: seq<WorkReceiptInfo>, logId: Address, workLog: WorkLog,
                     parseLogId: string -> Option<Address>)
    returns (keys: set<string>)
    ensures forall k :: k in keys <==>
              exists i :: 0 <= i < |receipts| && receipts[i].key == k && Wanted(receipts[i], logId, workLog, parseLogId)
  {
    keys := {};
    for i := 0 to |receipts|
      invariant forall k :: k in keys <==>
                  exists j :: 0 <= j < i && receipts[j].key == k && Wanted(receipts[j], logId, workLog, parseLogId)
    {
      var info := receipts[i];
      var parsed := ParseReceiptInfo(info, parseLogId);
      if parsed.Err? {
        continue;
      }
      var (infoLogId, infoJobNumber) := parsed.value;
      if infoLogId != logId {
        // The source also collects the other log IDs here, only to log them.
        continue;
      }
      if infoJobNumber in workLog.jobs {
        continue;
      }
      keys := keys + {info.key};
    }
  }

  /** The fetch loop of `fetch_work_receipts`: each key once, in the hash
      set's unspecified order, with its fetch result. */
  method FetchKeys(keys: set<string>, fetch: string -> Result<WorkReceipt, PrepareError>)
    returns (order: seq<string>, results: seq<Result<WorkReceipt, PrepareError>>)
    ensures |order| == |keys| && |results| == |order|
    ensures forall k :: k in keys <==> k in order
    ensures forall i, j :: 0 <= i < j < |order| ==> order[i] != order[j]
    ensures forall i :: 0 <= i < |order| ==> results[i] == fetch(order[i])
  {
    var remaining := keys;
    order, results := [], [];
    while remaining != {}
      invariant remaining <= keys
      invariant forall k :: k in keys <==> k in order || k in remaining
      invariant forall k :: k in order ==> k !in remaining
      invariant forall i, j :: 0 <= i < j < |order| ==> order[i] != order[j]
      invariant |results| == |order| && |order| + |remaining| == |keys|
      invariant forall i :: 0 <= i < |order| ==> results[i] == fetch(order[i])
      decreases |remaining|
    {
      var key :| key in remaining;
      order := order + [key];
      results := results + [fetch(key)];
      remaining := remaining - {key};
    }
  }

  /** `load_work_receipts`: each file is loaded and then checked, in order. */
  method LoadWorkReceipts(logId: Address, workLog: WorkLog, files: seq<string>,
                          load: string -> Result<WorkReceipt, PrepareError>)
    returns (results: seq<Result<WorkReceipt, PrepareError>>)
    ensures |results| == |files|
    ensures forall i :: 0 <= i < |files| ==>
              results[i] == match load(files[i])
                            case Err(e) => Err(e)
                            case Ok(receipt) => CheckWorkReceipt(logId, workLog, receipt)
  {
    results := [];
    for i := 0 to |files|
      invariant |results| == i
      invariant forall j :: 0 <= j < i ==>
                  results[j] == match load(files[j])
                                case Err(e) => Err(e)
                                case Ok(receipt) => CheckWorkReceipt(logId, workLog, receipt)
    {
      var loaded := load(files[i]);
      var checked := match loaded
        case Err(e) => Err(e)
        case Ok(receipt) => CheckWorkReceipt(logId, workLog, receipt);
      results := results + [checked];
    }
  }

  // ---------------------------------------------------------------------------
  // The update decision in `run`
  // ---------------------------------------------------------------------------

  /** The receipts that loaded, in their order. */
  function Loaded(results: seq<Result<WorkReceipt, PrepareError>>): seq<WorkReceipt>
  {
    if results == [] then []
    else Loaded(results[..|results| - 1])
         + (if results[|results| - 1].Ok? then [results[|results| - 1].value] else [])
  }

  predicate AnyFailed(results: seq<Result<WorkReceipt, PrepareError>>)
  {
    exists i :: 0 <= i < |results| && results[i].Err?
  }

  /** Loading distributes over concatenation. */
  lemma {:induction false} LoadedAppend(a: seq<Result<WorkReceipt, PrepareError>>, b: seq<Result<WorkReceipt, PrepareError>>)
    ensures Loaded(a + b) == Loaded(a) + Loaded(b)
    decreases |b|
  {
    if b == [] {
      assert a + b == a;
    } else {
      var b0 := b[..|b| - 1];
      LoadedAppend(a, b0);
      assert (a + b)[..|a + b| - 1] == a + b0;
    }
  }

  /** Each receipt that loaded keeps its place: the receipt at input index `i`
      follows exactly those that loaded before it. */
  lemma LoadedKeepsPlace(results: seq<Result<WorkReceipt, PrepareError>>, i: nat)
    requires i < |results| && results[i].Ok?
    ensures |Loaded(results[..i])| < |Loaded(results)|
    ensures Loaded(results)[|Loaded(results[..i])|] == results[i].value
  {
    assert results == results[..i] + ([results[i]] + results[i + 1..]);
    LoadedAppend(results[..i], [results[i]] + results[i + 1..]);
    LoadedAppend([results[i]], results[i + 1..]);
    assert [results[i]][..0] == [];
  }

  /** Without failures every receipt loads, in order. */
  lemma {:induction false} LoadedWithoutFailures(results: seq<Result<WorkReceipt, PrepareError>>)
    requires !AnyFailed(results)
    ensures |Loaded(results)| == |results|
    ensures forall i :: 0 <= i < |results| ==> Loaded(results)[i] == results[i].value
  {
    if results != [] {
      var init := results[..|results| - 1];
      assert !AnyFailed(init) by {
        forall i | 0 <= i < |init| ensures init[i].Ok? {
          assert results[i] == init[i];
        }
      }
      LoadedWithoutFailures(init);
      assert results[|results| - 1].Ok?;
    }
  }

  /** The collection loop of `run`: failures only raise the warning flag,
      the receipts that loaded are kept in order. */
  method Collect(results: seq<Result<WorkReceipt, PrepareError>>)
    returns (warning: bool, workReceipts: seq<WorkReceipt>)
    ensures warning <==> AnyFailed(results)
    ensures workReceipts == Loaded(results)
  {
    warning := false;
    workReceipts := [];
    for i := 0 to |results|
      invariant workReceipts == Loaded(results[..i])
      invariant warning <==> AnyFailed(results[..i])
    {
      assert results[..i + 1][..i] == results[..i];
      match results[i] {
        case Err(_) =>
          warning := true;
        case Ok(receipt) =>
          workReceipts := workReceipts + [receipt];
      }
      assert AnyFailed(results[..i + 1]) <==> AnyFailed(results[..i]) || results[i].Err? by {
        if results[i].Err? {
          assert results[..i + 1][i] == results[i];
        }
      }
    }
    assert results[..|results|] == results;
  }

  datatype Prepared = NothingToProve | Updated(receipts: seq<WorkReceipt>)

  /** The log builder's proving of an update: from the current log and its
      latest receipt (`None` for an empty log) and the new work receipts, the
      updated log and the log-builder receipt. */
  type Prover = (Option<(WorkLog, Receipt)>, seq<WorkReceipt>) -> Option<(WorkLog, Receipt)>

  /** `run` from the loaded receipt results on: load errors abort unless
      partial updates are allowed; with no receipts nothing is proved and the
      state is left as it is; a non-empty log without log-builder receipts is
      an error; otherwise the proved update is applied to the state. */
  method Prepare(state: State, results: seq<Result<WorkReceipt, PrepareError>>,
                 allowPartialUpdate: bool, prove: Prover, now: nat)
    returns (r: Result<Prepared, PrepareError>)
    modifies state
    ensures AnyFailed(results) && !allowPartialUpdate ==>
              r == Err(LoadErrors) && unchanged(state)
    ensures r == Ok(NothingToProve) <==>
              (!AnyFailed(results) || allowPartialUpdate) && Loaded(results) == []
    ensures r.Err? || r == Ok(NothingToProve) ==> unchanged(state)
    ensures r == Err(NoLogBuilderReceipt) ==>
              !old(state.workLog).IsEmpty() && old(state.receipts) == []
    ensures r.Ok? && r.value.Updated? ==>
              r.value.receipts == Loaded(results) && r.value.receipts != []
              && (!AnyFailed(results) || allowPartialUpdate)
              && (!old(state.workLog).IsEmpty() ==> old(state.receipts) != [])
              && var seed := if old(state.workLog).IsEmpty() then None
                             else Some((old(state.workLog), old(state.receipts)[|old(state.receipts)| - 1]));
                 prove(seed, Loaded(results)).Some?
                 && state.workLog == prove(seed, Loaded(results)).value.0
                 && state.receipts == old(state.receipts) + [prove(seed, Loaded(results)).value.1]
                 && state.logId == old(state.logId)
                 && state.updateTransactions == old(state.updateTransactions)
                 && state.updatedAt == now
  {
    var warning, workReceipts := Collect(results);
    if warning && !allowPartialUpdate {
      return Err(LoadErrors);
    }
    if workReceipts == [] {
      return Ok(NothingToProve);
    }
    var seed: Option<(WorkLog, Receipt)> := None;
    if !state.workLog.IsEmpty() {
      if state.receipts == [] {
        return Err(NoLogBuilderReceipt);
      }
      seed := Some((state.workLog, state.receipts[|state.receipts| - 1]));
    }
    var proved := prove(seed, workReceipts);
    if proved.None? {
      return Err(ProvingFailed);
    }
    var (nextLog, receipt) := proved.value;
    var updated := state.UpdateWorkLog(nextLog, receipt, now);
    if updated.Fail? {
      return Err(UpdateFailed(updated.error));
    }
    return Ok(Updated(workReceipts));
  }
}
