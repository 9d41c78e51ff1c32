/** The mint calculator guest (crates/povw/mint-calculator/src/main.rs): from
    the PoVW accounting events in a sequence of blocks it checks that the
    work-log updates form unbroken commit chains, weighs each update by its
    share of the epoch's total work, and shares out each work log's reward cap
    between its recipients. Block environments are given as data: their
    events, and the contract reads the guest makes against them. */
module MintGuest {
  import opened Wrappers
  import opened Ints
  import opened Sorting
  import opened Folds
  import opened MintCalculator

  /** A 256-bit work-log commitment; only its identity matters. */
  type Commit = nat

  datatype EpochFinalized = EpochFinalized(epoch: u256, totalWork: u256)

  datatype WorkLogUpdated = WorkLogUpdated(
    workLogId: Address,
    epochNumber: u256,
    initialCommit: Commit,
    updatedCommit: Commit,
    updateValue: u256,
    valueRecipient: Address)

  /** One block environment: its number and the events of the PoVW accounting
      contract in it. */
  datatype BlockEnv = BlockEnv(number: u64, finalized: seq<EpochFinalized>, updated: seq<WorkLogUpdated>)

  /** The contract reads, by the number of the block they are made against,
      and the Steel commitment to the block sequence. */
  datatype Chain = Chain(
    workLogCommit: (u64, Address) -> Commit,
    povwEmissionsForEpoch: (u64, nat) -> u256,
    epochEndTime: (u64, nat) -> u256,
    pastPovwRewardCap: (u64, Address, u256) -> u256,
    commitment: Commit)

  /** The panics that end the guest without a journal. */
  datatype Abort =
    | DuplicateFinalization(epoch: u256)
    | BrokenChain(workLogId: Address)
    | WeightPanic(panic: Panic)
    | NoFinalization
    | MissingCompletenessEnv
    | IncompleteUpdate(workLogId: Address)
    | RewardPanic(rewardPanic: Panic)

  // ---------------------------------------------------------------------
  // Epoch finalizations

  /** The finalization events of one block, tagged with its number. */
  function FinalizationsIn(env: BlockEnv): seq<(u64, EpochFinalized)>
  {
    seq(|env.finalized|, k requires 0 <= k < |env.finalized| => (env.number, env.finalized[k]))
  }

  function FinalizationBlocks(envs: seq<BlockEnv>): seq<seq<(u64, EpochFinalized)>>
  {
    seq(|envs|, i requires 0 <= i < |envs| => FinalizationsIn(envs[i]))
  }

  /** Every finalization event, block by block in the order of `envs`. */
  function FinalizationLog(envs: seq<BlockEnv>): seq<(u64, EpochFinalized)>
  {
    Flatten(FinalizationBlocks(envs))
  }

  /** Total work by finalized epoch, and the last block with a finalization. */
  datatype Epochs = Epochs(totalWork: map<u256, u256>, latestBlock: Option<u64>)

  const NoEpochs := Epochs(map[], None)

  function RecordFinalization(s: Epochs, x: (u64, EpochFinalized)): Result<Epochs, Abort>
  {
    if x.1.epoch in s.totalWork then Err(DuplicateFinalization(x.1.epoch))
    else Ok(Epochs(s.totalWork[x.1.epoch := x.1.totalWork], Some(x.0)))
  }

  function FinalizedEpochs(envs: seq<BlockEnv>): Result<Epochs, Abort>
  {
    Fold(NoEpochs, RecordFinalization, FinalizationLog(envs))
  }

  method CollectEpochs(envs: seq<BlockEnv>) returns (r: Result<Epochs, Abort>)
    ensures r == FinalizedEpochs(envs)
  {
    ghost var blocks := FinalizationBlocks(envs);
    var epochs: map<u256, u256> := map[];
    var latestEpochFinalizationBlock: Option<u64> := None;
    for i := 0 to |envs|
      invariant Fold(NoEpochs, RecordFinalization, Flatten(blocks[..i]))
             == Ok(Epochs(epochs, latestEpochFinalizationBlock))
    {
      var env := envs[i];
      assert Flatten(blocks[..i]) + blocks[i][..0] == Flatten(blocks[..i]);
      for j := 0 to |env.finalized|
        invariant Fold(NoEpochs, RecordFinalization, Flatten(blocks[..i]) + blocks[i][..j])
               == Ok(Epochs(epochs, latestEpochFinalizationBlock))
      {
        var event := env.finalized[j];
        NestedStep(NoEpochs, RecordFinalization, blocks, i, j);
        if event.epoch in epochs {
          r := Err(DuplicateFinalization(event.epoch));
          NestedFailure(NoEpochs, RecordFinalization, blocks, i, j + 1);
          return;
        }
        epochs := epochs[event.epoch := event.totalWork];
        latestEpochFinalizationBlock := Some(env.number);
      }
      FlattenNext(blocks, i);
    }
    assert blocks[..|envs|] == blocks;
    r := Ok(Epochs(epochs, latestEpochFinalizationBlock));
  }

  // ---------------------------------------------------------------------
  // Work-log updates and reward weights

  /** Reward weight by epoch, then work log, then recipient. */
  type Weights = map<u256, map<Address, map<Address, FixedPoint>>>

  /** A missing weight is the default, zero. */
  function WeightOf(w: Weights, epoch: u256, id: Address, recipient: Address): FixedPoint
  {
    if epoch in w && id in w[epoch] && recipient in w[epoch][id] then w[epoch][id][recipient]
    else FixedPoint(0)
  }

  /** The nested `entry(..).or_default()` update of one weight. */
  function SetWeight(w: Weights, epoch: u256, id: Address, recipient: Address, v: FixedPoint): Weights
  {
    var byLog: map<Address, map<Address, FixedPoint>> := if epoch in w then w[epoch] else map[];
    var byRecipient: map<Address, FixedPoint> := if id in byLog then byLog[id] else map[];
    w[epoch := byLog[id := byRecipient[recipient := v]]]
  }

  /** Commit range by work log, and the reward weights. */
  datatype Progress = Progress(updates: map<Address, (Commit, Commit)>, weights: Weights)

  const NoProgress := Progress(map[], map[])

  /** An update counts when the filter includes its work log and its epoch
      has been finalized. */
  predicate Included(filter: WorkLogFilter, epochs: map<u256, u256>, ev: WorkLogUpdated)
  {
    Includes(filter, ev.workLogId) && ev.epochNumber in epochs
  }

  function ApplyUpdate(filter: WorkLogFilter, epochs: map<u256, u256>, s: Progress, ev: WorkLogUpdated): Result<Progress, Abort>
  {
    if !Included(filter, epochs, ev) then Ok(s)
    else if ev.workLogId in s.updates && s.updates[ev.workLogId].1 != ev.initialCommit then
      Err(BrokenChain(ev.workLogId))
    else
      var first := if ev.workLogId in s.updates then s.updates[ev.workLogId].0 else ev.initialCommit;
      var updates := s.updates[ev.workLogId := (first, ev.updatedCommit)];
      if ev.updateValue == 0 then Ok(Progress(updates, s.weights))
      else
        match Fraction(ev.updateValue, epochs[ev.epochNumber])
        case Err(p) => Err(WeightPanic(p))
        case Ok(fraction) =>
          match Add(WeightOf(s.weights, ev.epochNumber, ev.workLogId, ev.valueRecipient), fraction)
          case Err(p) => Err(WeightPanic(p))
          case Ok(sum) =>
            Ok(Progress(updates, SetWeight(s.weights, ev.epochNumber, ev.workLogId, ev.valueRecipient, sum)))
  }

  function UpdateStep(filter: WorkLogFilter, epochs: map<u256, u256>): (Progress, WorkLogUpdated) -> Result<Progress, Abort>
  {
    (s, ev) => ApplyUpdate(filter, epochs, s, ev)
  }

  function UpdateBlocks(envs: seq<BlockEnv>): seq<seq<WorkLogUpdated>>
  {
    seq(|envs|, i requires 0 <= i < |envs| => envs[i].updated)
  }

  /** Every update event, block by block in the order of `envs`. */
  function UpdateLog(envs: seq<BlockEnv>): seq<WorkLogUpdated>
  {
    Flatten(UpdateBlocks(envs))
  }

  function CollectedUpdates(envs: seq<BlockEnv>, filter: WorkLogFilter, epochs: map<u256, u256>): Result<Progress, Abort>
  {
    Fold(NoProgress, UpdateStep(filter, epochs), UpdateLog(envs))
  }

  /** The body of the update loop: one event checked against, and added to,
      the commit ranges and reward weights gathered so far. */
  method CollectUpdate(filter: WorkLogFilter, epochs: map<u256, u256>, updates0: map<Address, (Commit, Commit)>,
                       weights0: Weights, event: WorkLogUpdated)
    returns (r: Result<Progress, Abort>)
    ensures r == ApplyUpdate(filter, epochs, Progress(updates0, weights0), event)
  {
    var updates, rewardsWeights := updates0, weights0;
    if Includes(filter, event.workLogId) && event.epochNumber in epochs {
      var epochTotalWork := epochs[event.epochNumber];
      if event.workLogId !in updates {
        updates := updates[event.workLogId := (event.initialCommit, event.updatedCommit)];
      } else if updates[event.workLogId].1 != event.initialCommit {
        return Err(BrokenChain(event.workLogId));
      } else {
        updates := updates[event.workLogId := (updates[event.workLogId].0, event.updatedCommit)];
      }
      if event.updateValue > 0 {
        var fraction := Fraction(event.updateValue, epochTotalWork);
        if fraction.Err? {
          return Err(WeightPanic(fraction.error));
        }
        var current := WeightOf(rewardsWeights, event.epochNumber, event.workLogId, event.valueRecipient);
        var sum := Add(current, fraction.value);
        if sum.Err? {
          return Err(WeightPanic(sum.error));
        }
        rewardsWeights := SetWeight(rewardsWeights, event.epochNumber, event.workLogId, event.valueRecipient, sum.value);
      }
    }
    r := Ok(Progress(updates, rewardsWeights));
  }

  method CollectUpdates(envs: seq<BlockEnv>, filter: WorkLogFilter, epochs: map<u256, u256>)
    returns (r: Result<Progress, Abort>)
    ensures r == CollectedUpdates(envs, filter, epochs)
  {
    ghost var blocks := UpdateBlocks(envs);
    ghost var step := UpdateStep(filter, epochs);
    var rewardsWeights: Weights := map[];
    var updates: map<Address, (Commit, Commit)> := map[];
    for i := 0 to |envs|
      invariant Fold(NoProgress, step, Flatten(blocks[..i])) == Ok(Progress(updates, rewardsWeights))
    {
      var env := envs[i];
      assert Flatten(blocks[..i]) + blocks[i][..0] == Flatten(blocks[..i]);
      for j := 0 to |env.updated|
        invariant Fold(NoProgress, step, Flatten(blocks[..i]) + blocks[i][..j]) == Ok(Progress(updates, rewardsWeights))
      {
        var event := env.updated[j];
        NestedStep(NoProgress, step, blocks, i, j);
        var next := CollectUpdate(filter, epochs, updates, rewardsWeights, event);
        assert step(Progress(updates, rewardsWeights), event) == next;
        if next.Err? {
          r := next;
          NestedFailure(NoProgress, step, blocks, i, j + 1);
          return;
        }
        updates, rewardsWeights := next.value.updates, next.value.weights;
      }
      FlattenNext(blocks, i);
    }
    assert blocks[..|envs|] == blocks;
    r := Ok(Progress(updates, rewardsWeights));
  }

  // ---------------------------------------------------------------------
  // Properties of the finalizations

  ghost predicate DistinctEpochs(log: seq<(u64, EpochFinalized)>)
  {
    forall a, b :: 0 <= a < b < |log| ==> log[a].1.epoch != log[b].1.epoch
  }

  /** `s` records the finalizations of `log`: its epochs are distinct, each
      is mapped to its total work, and the latest block is the last event's. */
  ghost predicate Recorded(log: seq<(u64, EpochFinalized)>, s: Epochs)
  {
    DistinctEpochs(log)
    && (forall e :: e in s.totalWork <==> exists k :: 0 <= k < |log| && log[k].1.epoch == e)
    && (forall k :: 0 <= k < |log| ==> s.totalWork[log[k].1.epoch] == log[k].1.totalWork)
    && s.latestBlock == (if log == [] then None else Some(log[|log| - 1].0))
  }

  /** Epoch `e` is finalized at two positions of `log`. */
  ghost predicate Duplicated(log: seq<(u64, EpochFinalized)>, e: u256)
  {
    exists a, b :: 0 <= a < b < |log| && log[a].1.epoch == e && log[b].1.epoch == e
  }

  lemma RecordStep(log: seq<(u64, EpochFinalized)>, s: Epochs)
    requires log != [] && Recorded(log[..|log| - 1], s)
    ensures var r := RecordFinalization(s, log[|log| - 1]);
      (r.Ok? ==> Recorded(log, r.value))
      && (r.Err? ==> r.error.DuplicateFinalization? && Duplicated(log, r.error.epoch))
  {
    var init, x := log[..|log| - 1], log[|log| - 1];
    if x.1.epoch in s.totalWork {
      var k :| 0 <= k < |init| && init[k].1.epoch == x.1.epoch;
      assert log[k] == init[k];
      assert log[k].1.epoch == x.1.epoch && log[|log| - 1] == x;
    } else {
      RecordFresh(log, s);
    }
  }

  lemma RecordFresh(log: seq<(u64, EpochFinalized)>, s: Epochs)
    requires log != [] && Recorded(log[..|log| - 1], s) && log[|log| - 1].1.epoch !in s.totalWork
    ensures var x := log[|log| - 1];
      Recorded(log, Epochs(s.totalWork[x.1.epoch := x.1.totalWork], Some(x.0)))
  {
    var init, x := log[..|log| - 1], log[|log| - 1];
    var m := s.totalWork[x.1.epoch := x.1.totalWork];
    forall a, b | 0 <= a < b < |log| ensures log[a].1.epoch != log[b].1.epoch {
      assert log[a] == init[a];
      if b < |log| - 1 {
        assert log[b] == init[b];
      } else {
        assert log[a].1.epoch in s.totalWork;
      }
    }
    forall e | e in m ensures exists k :: 0 <= k < |log| && log[k].1.epoch == e {
      if e == x.1.epoch {
        assert log[|log| - 1].1.epoch == e;
      } else {
        var k :| 0 <= k < |init| && init[k].1.epoch == e;
        assert log[k] == init[k];
      }
    }
    forall e | exists k :: 0 <= k < |log| && log[k].1.epoch == e ensures e in m {
      var k :| 0 <= k < |log| && log[k].1.epoch == e;
      if k < |init| {
        assert log[k] == init[k];
      }
    }
    forall k | 0 <= k < |log| ensures m[log[k].1.epoch] == log[k].1.totalWork {
      if k < |init| {
        assert log[k] == init[k];
        assert log[k].1.epoch in s.totalWork;
      }
    }
  }

  lemma DuplicatedExtends(log: seq<(u64, EpochFinalized)>, e: u256)
    requires log != [] && Duplicated(log[..|log| - 1], e)
    ensures Duplicated(log, e)
  {
    var init := log[..|log| - 1];
    var a, b :| 0 <= a < b < |init| && init[a].1.epoch == e && init[b].1.epoch == e;
    assert log[a] == init[a] && log[b] == init[b];
  }

  /** Collecting finalizations succeeds exactly when no epoch is finalized
      twice; it then records each event's total work under its epoch and the
      block of the last event. A second finalization of an epoch aborts. */
  lemma {:induction false} FinalizationFacts(log: seq<(u64, EpochFinalized)>)
    ensures var r := Fold(NoEpochs, RecordFinalization, log);
      (r.Ok? <==> DistinctEpochs(log))
      && (r.Ok? ==> Recorded(log, r.value))
      && (r.Err? ==> r.error.DuplicateFinalization? && Duplicated(log, r.error.epoch))
    decreases |log|
  {
    var r := Fold(NoEpochs, RecordFinalization, log);
    if log != [] {
      FinalizationFacts(log[..|log| - 1]);
      var p := Fold(NoEpochs, RecordFinalization, log[..|log| - 1]);
      if p.Ok? {
        RecordStep(log, p.value);
      } else {
        DuplicatedExtends(log, p.error.epoch);
      }
    }
    if r.Err? {
      var a, b :| 0 <= a < b < |log| && log[a].1.epoch == r.error.epoch && log[b].1.epoch == r.error.epoch;
    }
  }

  // ---------------------------------------------------------------------
  // Properties of the update chains and weights

  /** The counted updates of work log `id`, in log order. */
  function ChainOf(filter: WorkLogFilter, epochs: map<u256, u256>, log: seq<WorkLogUpdated>, id: Address): seq<WorkLogUpdated>
    decreases |log|
  {
    if log == [] then []
    else
      var x := log[|log| - 1];
      ChainOf(filter, epochs, log[..|log| - 1], id) + (if Included(filter, epochs, x) && x.workLogId == id then [x] else [])
  }

  /** Each update starts from the commit the previous one ended at. */
  ghost predicate Linked(c: seq<WorkLogUpdated>)
  {
    forall k :: 0 < k < |c| ==> c[k].initialCommit == c[k - 1].updatedCommit
  }

  lemma LinkedPrefix(c: seq<WorkLogUpdated>, d: seq<WorkLogUpdated>)
    requires Linked(c + d)
    ensures Linked(c)
  {
    forall k | 0 < k < |c| ensures c[k].initialCommit == c[k - 1].updatedCommit {
      assert (c + d)[k] == c[k] && (c + d)[k - 1] == c[k - 1];
    }
  }

  /** `c` is a non-empty linked chain from commit `first` to commit `last`. */
  ghost predicate Spans(c: seq<WorkLogUpdated>, first: Commit, last: Commit)
  {
    c != [] && Linked(c) && c[0].initialCommit == first && c[|c| - 1].updatedCommit == last
  }

  /** The recorded range of each work log spans its chain of counted
      updates. */
  ghost predicate ChainsRecorded(filter: WorkLogFilter, epochs: map<u256, u256>, log: seq<WorkLogUpdated>,
                                 updates: map<Address, (Commit, Commit)>)
  {
    forall id ::
      (id in updates <==> ChainOf(filter, epochs, log, id) != [])
      && (id in updates ==> Spans(ChainOf(filter, epochs, log, id), updates[id].0, updates[id].1))
  }

  /** One counted update extends its work log's chain and keeps the others. */
  lemma ChainOfStep(filter: WorkLogFilter, epochs: map<u256, u256>, log: seq<WorkLogUpdated>)
    requires log != [] && Included(filter, epochs, log[|log| - 1])
    ensures var init, x := log[..|log| - 1], log[|log| - 1];
      ChainOf(filter, epochs, log, x.workLogId) == ChainOf(filter, epochs, init, x.workLogId) + [x]
      && forall id :: id != x.workLogId ==> ChainOf(filter, epochs, log, id) == ChainOf(filter, epochs, init, id)
  {
  }

  /** The commit ranges after one update, whatever happens to the weights. */
  lemma ApplyUpdateRanges(filter: WorkLogFilter, epochs: map<u256, u256>, s: Progress, ev: WorkLogUpdated)
    ensures var r := ApplyUpdate(filter, epochs, s, ev);
      var id := ev.workLogId;
      (!Included(filter, epochs, ev) ==> r == Ok(s))
      && (Included(filter, epochs, ev) && id in s.updates && s.updates[id].1 != ev.initialCommit ==> r == Err(BrokenChain(id)))
      && (r.Err? && r.error.BrokenChain? ==> Included(filter, epochs, ev) && id in s.updates && s.updates[id].1 != ev.initialCommit)
      && (Included(filter, epochs, ev) && r.Ok? ==>
            r.value.updates == s.updates[id := (if id in s.updates then s.updates[id].0 else ev.initialCommit, ev.updatedCommit)])
  {
  }

  lemma ChainExtends(c0: seq<WorkLogUpdated>, x: WorkLogUpdated)
    requires Linked(c0) && (c0 != [] ==> c0[|c0| - 1].updatedCommit == x.initialCommit)
    ensures Linked(c0 + [x])
  {
    var c := c0 + [x];
    forall k | 0 < k < |c| ensures c[k].initialCommit == c[k - 1].updatedCommit {
      if k < |c0| {
        assert c[k] == c0[k] && c[k - 1] == c0[k - 1];
      }
    }
  }

  lemma ChainStep(filter: WorkLogFilter, epochs: map<u256, u256>, log: seq<WorkLogUpdated>, s: Progress)
    requires log != [] && ChainsRecorded(filter, epochs, log[..|log| - 1], s.updates)
    ensures var r := ApplyUpdate(filter, epochs, s, log[|log| - 1]);
      (r.Ok? ==> ChainsRecorded(filter, epochs, log, r.value.updates))
      && (r.Err? && r.error.BrokenChain? ==> !Linked(ChainOf(filter, epochs, log, r.error.workLogId)))
  {
    var x := log[|log| - 1];
    var r := ApplyUpdate(filter, epochs, s, x);
    ApplyUpdateRanges(filter, epochs, s, x);
    if !Included(filter, epochs, x) {
      assert forall id :: ChainOf(filter, epochs, log, id) == ChainOf(filter, epochs, log[..|log| - 1], id);
    } else if x.workLogId in s.updates && s.updates[x.workLogId].1 != x.initialCommit {
      ChainBreaks(filter, epochs, log, s.updates);
    } else if r.Ok? {
      var id0 := x.workLogId;
      ChainGrows(filter, epochs, log, s.updates, (if id0 in s.updates then s.updates[id0].0 else x.initialCommit));
    }
  }

  lemma ChainBreaks(filter: WorkLogFilter, epochs: map<u256, u256>, log: seq<WorkLogUpdated>,
                    updates: map<Address, (Commit, Commit)>)
    requires log != [] && ChainsRecorded(filter, epochs, log[..|log| - 1], updates)
    requires var x := log[|log| - 1];
      Included(filter, epochs, x) && x.workLogId in updates && updates[x.workLogId].1 != x.initialCommit
    ensures !Linked(ChainOf(filter, epochs, log, log[|log| - 1].workLogId))
  {
    var x := log[|log| - 1];
    var c0 := ChainOf(filter, epochs, log[..|log| - 1], x.workLogId);
    ChainOfStep(filter, epochs, log);
    var c := c0 + [x];
    assert Spans(c0, updates[x.workLogId].0, updates[x.workLogId].1);
    assert c[|c| - 1] == x && c[|c| - 2] == c0[|c0| - 1];
  }

  lemma ChainGrows(filter: WorkLogFilter, epochs: map<u256, u256>, log: seq<WorkLogUpdated>,
                   updates: map<Address, (Commit, Commit)>, first: Commit)
    requires log != [] && ChainsRecorded(filter, epochs, log[..|log| - 1], updates)
    requires var x := log[|log| - 1];
      Included(filter, epochs, x) && (x.workLogId in updates ==> updates[x.workLogId].1 == x.initialCommit)
      && first == if x.workLogId in updates then updates[x.workLogId].0 else x.initialCommit
    ensures var x := log[|log| - 1];
      ChainsRecorded(filter, epochs, log, updates[x.workLogId := (first, x.updatedCommit)])
  {
    var x := log[|log| - 1];
    var id0 := x.workLogId;
    var c0 := ChainOf(filter, epochs, log[..|log| - 1], id0);
    ChainOfStep(filter, epochs, log);
    var next := updates[id0 := (first, x.updatedCommit)];
    if id0 in updates {
      assert Spans(c0, updates[id0].0, updates[id0].1);
    }
    ChainExtends(c0, x);
    var c := c0 + [x];
    assert c[0].initialCommit == first;
    assert Spans(c, first, x.updatedCommit);
    forall id
      ensures (id in next <==> ChainOf(filter, epochs, log, id) != [])
      ensures id in next ==> Spans(ChainOf(filter, epochs, log, id), next[id].0, next[id].1)
    {
    }
  }

  /** If the updates are collected, every work log's counted updates form an
      unbroken chain of commits, recorded from the first initial commit to the
      last updated commit; an abort for a broken chain names a work log whose
      counted updates are not linked. */
  lemma {:induction false} UpdatesFormChains(filter: WorkLogFilter, epochs: map<u256, u256>, log: seq<WorkLogUpdated>)
    ensures var r := Fold(NoProgress, UpdateStep(filter, epochs), log);
      (r.Ok? ==> ChainsRecorded(filter, epochs, log, r.value.updates))
      && (r.Err? && r.error.BrokenChain? ==> !Linked(ChainOf(filter, epochs, log, r.error.workLogId)))
    decreases |log|
  {
    if log != [] {
      var init, x := log[..|log| - 1], log[|log| - 1];
      UpdatesFormChains(filter, epochs, init);
      var p := Fold(NoProgress, UpdateStep(filter, epochs), init);
      if p.Ok? {
        ChainStep(filter, epochs, log, p.value);
      } else if p.error.BrokenChain? {
        var id0 := p.error.workLogId;
        var c0 := ChainOf(filter, epochs, init, id0);
        if Linked(ChainOf(filter, epochs, log, id0)) {
          LinkedPrefix(c0, if Included(filter, epochs, x) && x.workLogId == id0 then [x] else []);
        }
      }
    }
  }

  function FractionRaw(num: u256, dem: u256): nat
  {
    match Fraction(num, dem)
    case Ok(f) => f.raw
    case Err(_) => 0
  }

  /** The sum of the fractions of the counted, non-zero updates of one
      (epoch, work log, recipient). */
  function WeightTotal(filter: WorkLogFilter, epochs: map<u256, u256>, log: seq<WorkLogUpdated>,
                       epoch: u256, id: Address, recipient: Address): nat
    decreases |log|
  {
    if log == [] then 0
    else
      var x := log[|log| - 1];
      WeightTotal(filter, epochs, log[..|log| - 1], epoch, id, recipient)
      + (if Included(filter, epochs, x) && x.updateValue > 0
            && x.epochNumber == epoch && x.workLogId == id && x.valueRecipient == recipient
         then FractionRaw(x.updateValue, epochs[x.epochNumber]) else 0)
  }

  lemma WeightOfSet(w: Weights, e0: u256, id0: Address, r0: Address, v: FixedPoint, e: u256, id: Address, r: Address)
    ensures WeightOf(SetWeight(w, e0, id0, r0, v), e, id, r)
         == if e == e0 && id == id0 && r == r0 then v else WeightOf(w, e, id, r)
  {
  }

  /** If the updates are collected, every reward weight is the exact sum of
      `fraction(value, total work)` over the counted updates with a non-zero
      value for that epoch, work log and recipient; excluded, unfinalized and
      zero-valued updates add nothing. */
  lemma {:induction false} WeightsAreSums(filter: WorkLogFilter, epochs: map<u256, u256>, log: seq<WorkLogUpdated>)
    ensures var r := Fold(NoProgress, UpdateStep(filter, epochs), log);
      r.Ok? ==> forall e, id, recipient ::
        WeightOf(r.value.weights, e, id, recipient).raw == WeightTotal(filter, epochs, log, e, id, recipient)
    decreases |log|
  {
    if log != [] {
      var init, x := log[..|log| - 1], log[|log| - 1];
      var p := Fold(NoProgress, UpdateStep(filter, epochs), init);
      var r := Fold(NoProgress, UpdateStep(filter, epochs), log);
      if r.Ok? {
        WeightsAreSums(filter, epochs, init);
        assert p.Ok? && r == ApplyUpdate(filter, epochs, p.value, x);
        if Included(filter, epochs, x) && x.updateValue > 0 {
          forall e, id, recipient
            ensures WeightOf(r.value.weights, e, id, recipient).raw == WeightTotal(filter, epochs, log, e, id, recipient)
          {
            var f := Fraction(x.updateValue, epochs[x.epochNumber]);
            var cur := WeightOf(p.value.weights, x.epochNumber, x.workLogId, x.valueRecipient);
            var sum := Add(cur, f.value);
            WeightOfSet(p.value.weights, x.epochNumber, x.workLogId, x.valueRecipient, sum.value, e, id, recipient);
          }
        }
      }
    }
  }

  /** An update the filter excludes, or whose epoch is not finalized, changes
      nothing wherever it appears. */
  lemma {:induction false} ExcludedUpdateIgnored(filter: WorkLogFilter, epochs: map<u256, u256>,
                                                 before: seq<WorkLogUpdated>, ev: WorkLogUpdated, after: seq<WorkLogUpdated>)
    requires !Included(filter, epochs, ev)
    ensures Fold(NoProgress, UpdateStep(filter, epochs), before + [ev] + after)
         == Fold(NoProgress, UpdateStep(filter, epochs), before + after)
    decreases |after|
  {
    var step := UpdateStep(filter, epochs);
    if after == [] {
      assert before + [ev] + after == before + [ev];
      assert before + after == before;
      FoldSnoc(NoProgress, step, before, ev);
    } else {
      var a0, y := after[..|after| - 1], after[|after| - 1];
      ExcludedUpdateIgnored(filter, epochs, before, ev, a0);
      assert before + [ev] + after == (before + [ev] + a0) + [y];
      assert before + after == (before + a0) + [y];
      FoldSnoc(NoProgress, step, before + [ev] + a0, y);
      FoldSnoc(NoProgress, step, before + a0, y);
    }
  }

  // ---------------------------------------------------------------------
  // Completeness of the updates

  /** The contract's commit for the work log equals the last recorded one. */
  predicate Matches(chain: Chain, block: u64, updates: map<Address, (Commit, Commit)>, id: Address)
  {
    id in updates && chain.workLogCommit(block, id) == updates[id].1
  }

  function CheckStep(chain: Chain, block: u64, updates: map<Address, (Commit, Commit)>): ((), nat) -> Result<(), Abort>
  {
    (u: (), id: nat) => if Matches(chain, block, updates, id) then Ok(()) else Err(IncompleteUpdate(id))
  }

  /** The check of every recorded work log, in ascending ID order. */
  function Completeness(chain: Chain, block: u64, updates: map<Address, (Commit, Commit)>): Result<(), Abort>
  {
    Fold((), CheckStep(chain, block, updates), AscendingKeys(updates.Keys))
  }

  method CheckCompleteness(chain: Chain, block: u64, updates: map<Address, (Commit, Commit)>) returns (r: Result<(), Abort>)
    ensures r == Completeness(chain, block, updates)
  {
    var ids := AscendingKeys(updates.Keys);
    ghost var step := CheckStep(chain, block, updates);
    for i := 0 to |ids|
      invariant Fold((), step, ids[..i]) == Ok(())
    {
      var workLogId := ids[i];
      assert workLogId in ids;
      PrefixStep((), step, ids, i);
      var finalCommit := chain.workLogCommit(block, workLogId);
      if finalCommit != updates[workLogId].1 {
        r := Err(IncompleteUpdate(workLogId));
        PrefixFailure((), step, ids, i + 1);
        return;
      }
    }
    assert ids[..|ids|] == ids;
    r := Ok(());
  }

  lemma {:induction false} CheckFoldFacts(chain: Chain, block: u64, updates: map<Address, (Commit, Commit)>, ids: seq<nat>)
    ensures var r := Fold((), CheckStep(chain, block, updates), ids);
      (r.Ok? <==> forall k :: 0 <= k < |ids| ==> Matches(chain, block, updates, ids[k]))
      && (r.Err? ==> exists k :: 0 <= k < |ids| && r.error == IncompleteUpdate(ids[k])
                      && !Matches(chain, block, updates, ids[k])
                      && forall j :: 0 <= j < k ==> Matches(chain, block, updates, ids[j]))
    decreases |ids|
  {
    if ids != [] {
      var init := ids[..|ids| - 1];
      CheckFoldFacts(chain, block, updates, init);
      assert forall k :: 0 <= k < |init| ==> ids[k] == init[k];
    }
  }

  /** The completeness check passes exactly when the contract's commit at the
      check block equals the last updated commit of every recorded work log;
      otherwise it aborts on the smallest work log ID that differs. */
  lemma CompletenessFacts(chain: Chain, block: u64, updates: map<Address, (Commit, Commit)>)
    ensures var r := Completeness(chain, block, updates);
      (r.Ok? <==> forall id :: id in updates ==> chain.workLogCommit(block, id) == updates[id].1)
      && (r.Err? ==>
            r.error.IncompleteUpdate?
            && var id := r.error.workLogId;
            id in updates && chain.workLogCommit(block, id) != updates[id].1
            && forall id' :: id' in updates && id' < id ==> chain.workLogCommit(block, id') == updates[id'].1)
  {
    var ids := AscendingKeys(updates.Keys);
    var r := Fold((), CheckStep(chain, block, updates), ids);
    assert r == Completeness(chain, block, updates);
    CheckFoldFacts(chain, block, updates, ids);
    if r.Ok? {
      forall id | id in updates ensures Matches(chain, block, updates, id) {
        assert id in ids;
      }
    } else {
      CompletenessFirstMismatch(chain, block, updates, ids, r);
    }
  }

  lemma CompletenessFirstMismatch(chain: Chain, block: u64, updates: map<Address, (Commit, Commit)>, ids: seq<nat>, r: Result<(), Abort>)
    requires Increasing(ids) && forall x :: x in ids <==> x in updates
    requires r.Err?
    requires exists k :: 0 <= k < |ids| && r.error == IncompleteUpdate(ids[k])
                      && !Matches(chain, block, updates, ids[k])
                      && forall j :: 0 <= j < k ==> Matches(chain, block, updates, ids[j])
    ensures r.error.IncompleteUpdate?
    ensures var id := r.error.workLogId;
      id in updates && !Matches(chain, block, updates, id)
      && forall id' :: id' in updates && id' < id ==> Matches(chain, block, updates, id')
  {
    var k :| 0 <= k < |ids| && r.error == IncompleteUpdate(ids[k])
            && !Matches(chain, block, updates, ids[k])
            && forall j :: 0 <= j < k ==> Matches(chain, block, updates, ids[j]);
    assert ids[k] in ids;
    forall id' | id' in updates && id' < ids[k] ensures Matches(chain, block, updates, id') {
      assert id' in ids;
      var j :| 0 <= j < |ids| && ids[j] == id';
      assert j < k;
    }
  }

  // ---------------------------------------------------------------------
  // Rewards

  /** The rewards so far and the cap left for the current work log. */
  datatype CapState = CapState(rewards: map<Address, u256>, cap: u256)

  function RewardOf(rewards: map<Address, u256>, recipient: Address): u256
  {
    if recipient in rewards then rewards[recipient] else 0
  }

  /** `*rewards.entry(recipient).or_default() += reward` for a non-zero
      reward; `U256` addition wraps. */
  function Credit(rewards: map<Address, u256>, recipient: Address, reward: u256): map<Address, u256>
  {
    if reward > 0 then rewards[recipient := WrappingAdd(RewardOf(rewards, recipient), reward)] else rewards
  }

  /** One recipient: the uncapped reward, cut to the cap left, is credited and
      taken off the cap. */
  function RecipientStep(emissions: u256): (CapState, (nat, FixedPoint)) -> Result<CapState, Abort>
  {
    (s: CapState, e: (nat, FixedPoint)) =>
      match MulUnwrap(e.1, emissions)
      case Err(p) => Err(RewardPanic(p))
      case Ok(uncapped) =>
        var reward: u256 := Min(uncapped, s.cap);
        Ok(CapState(Credit(s.rewards, e.0, reward), SaturatingSub(s.cap, reward)))
  }

  /** One work log of an epoch: its recipients share the reward cap it had at
      the end of the epoch. */
  function WorkLogStep(chain: Chain, latest: u64, emissions: u256, endTime: u256)
    : (map<Address, u256>, (nat, map<Address, FixedPoint>)) -> Result<map<Address, u256>, Abort>
  {
    (rewards: map<Address, u256>, e: (nat, map<Address, FixedPoint>)) =>
      match Fold(CapState(rewards, chain.pastPovwRewardCap(latest, e.0, endTime)), RecipientStep(emissions), Entries(e.1))
      case Err(err) => Err(err)
      case Ok(s) => Ok(s.rewards)
  }

  /** One epoch: its emissions and end time are read at the latest
      finalization block. */
  function EpochStep(chain: Chain, latest: u64)
    : (map<Address, u256>, (nat, map<Address, map<Address, FixedPoint>>)) -> Result<map<Address, u256>, Abort>
  {
    (rewards: map<Address, u256>, e: (nat, map<Address, map<Address, FixedPoint>>)) =>
      Fold(rewards, WorkLogStep(chain, latest, chain.povwEmissionsForEpoch(latest, e.0), chain.epochEndTime(latest, e.0)), Entries(e.1))
  }

  function Rewards(chain: Chain, latest: u64, weights: Weights): Result<map<Address, u256>, Abort>
  {
    Fold(map[], EpochStep(chain, latest), Entries(weights))
  }

  /** The recipient loop, over a work log's weights by ascending recipient. */
  method RewardRecipients(rewards: map<Address, u256>, cap: u256, emissions: u256, es: seq<(nat, FixedPoint)>)
    returns (r: Result<CapState, Abort>)
    ensures r == Fold(CapState(rewards, cap), RecipientStep(emissions), es)
  {
    ghost var step := RecipientStep(emissions);
    var out: map<Address, u256>, rewardCap: u256 := rewards, cap;
    for i := 0 to |es|
      invariant Fold(CapState(rewards, cap), step, es[..i]) == Ok(CapState(out, rewardCap))
    {
      var (recipient, weight) := es[i];
      PrefixStep(CapState(rewards, cap), step, es, i);
      var uncappedReward := MulUnwrap(weight, emissions);
      if uncappedReward.Err? {
        r := Err(RewardPanic(uncappedReward.error));
        PrefixFailure(CapState(rewards, cap), step, es, i + 1);
        return;
      }
      var reward: u256 := Min(uncappedReward.value, rewardCap);
      if reward > 0 {
        out := out[recipient := WrappingAdd(RewardOf(out, recipient), reward)];
      }
      rewardCap := SaturatingSub(rewardCap, reward);
    }
    assert es[..|es|] == es;
    r := Ok(CapState(out, rewardCap));
  }

  /** The work-log loop, over an epoch's weights by ascending work-log ID. */
  method RewardWorkLogs(rewards: map<Address, u256>, chain: Chain, latest: u64, emissions: u256, endTime: u256,
                        es: seq<(nat, map<Address, FixedPoint>)>)
    returns (r: Result<map<Address, u256>, Abort>)
    ensures r == Fold(rewards, WorkLogStep(chain, latest, emissions, endTime), es)
  {
    ghost var step := WorkLogStep(chain, latest, emissions, endTime);
    var out := rewards;
    for i := 0 to |es|
      invariant Fold(rewards, step, es[..i]) == Ok(out)
    {
      var (workLogId, workLogWeights) := es[i];
      PrefixStep(rewards, step, es, i);
      var rewardCap := chain.pastPovwRewardCap(latest, workLogId, endTime);
      var s := RewardRecipients(out, rewardCap, emissions, Entries(workLogWeights));
      assert step(out, es[i]) == if s.Err? then Err(s.error) else Ok(s.value.rewards);
      if s.Err? {
        r := Err(s.error);
        PrefixFailure(rewards, step, es, i + 1);
        return;
      }
      out := s.value.rewards;
    }
    assert es[..|es|] == es;
    r := Ok(out);
  }

  method ComputeRewards(chain: Chain, latest: u64, weights: Weights) returns (r: Result<map<Address, u256>, Abort>)
    ensures r == Rewards(chain, latest, weights)
  {
    r := RewardEpochs(chain, latest, Entries(weights));
  }

  /** The epoch loop of `ComputeRewards`, over the epochs' weights in
      ascending epoch order. */
  method RewardEpochs(chain: Chain, latest: u64, es: seq<(nat, map<Address, map<Address, FixedPoint>>)>)
    returns (r: Result<map<Address, u256>, Abort>)
    ensures r == Fold(map[], EpochStep(chain, latest), es)
  {
    ghost var step := EpochStep(chain, latest);
    var rewards: map<Address, u256> := map[];
    for i := 0 to |es|
      invariant Fold(map[], step, es[..i]) == Ok(rewards)
    {
      var (epoch, epochWeights) := es[i];
      PrefixStep(map[], step, es, i);
      var epochEmissions := chain.povwEmissionsForEpoch(latest, epoch);
      var epochEndTime := chain.epochEndTime(latest, epoch);
      var next := RewardWorkLogs(rewards, chain, latest, epochEmissions, epochEndTime, Entries(epochWeights));
      assert step(rewards, es[i]) == next;
      if next.Err? {
        r := Err(next.error);
        PrefixFailure(map[], step, es, i + 1);
        return;
      }
      rewards := next.value;
    }
    assert es[..|es|] == es;
    r := Ok(rewards);
  }

  // ---------------------------------------------------------------------
  // Properties of the cap sharing

  function Total(xs: seq<nat>): nat
    decreases |xs|
  {
    if xs == [] then 0 else Total(xs[..|xs| - 1]) + xs[|xs| - 1]
  }

  /** What the recipient loop grants: each recipient in turn gets its uncapped
      reward, cut down to what is left of the cap. Nobody gets more than
      uncapped, and the grants add up to the uncapped total or the whole cap,
      whichever is less. */
  function Granted(uncapped: seq<nat>, cap: nat): (r: seq<nat>)
    ensures |r| == |uncapped|
    ensures Total(r) == Min(Total(uncapped), cap)
    decreases |uncapped|
  {
    if uncapped == [] then []
    else
      var g := Granted(uncapped[..|uncapped| - 1], cap);
      var r := g + [Min(uncapped[|uncapped| - 1], cap - Total(g))];
      assert r[..|r| - 1] == g;
      r
  }

  /** Nobody is granted more than their uncapped reward. */
  lemma {:induction false} GrantedAtMostUncapped(uncapped: seq<nat>, cap: nat)
    ensures var g := Granted(uncapped, cap);
      forall i :: 0 <= i < |g| ==> g[i] <= uncapped[i]
    decreases |uncapped|
  {
    if uncapped != [] {
      var init := uncapped[..|uncapped| - 1];
      GrantedAtMostUncapped(init, cap);
      GrantedLast(uncapped, cap);
      var g, g0 := Granted(uncapped, cap), Granted(init, cap);
      forall i | 0 <= i < |g| ensures g[i] <= uncapped[i] {
        if i < |g0| {
          assert g[i] == g0[i] && uncapped[i] == init[i];
        }
      }
    }
  }

  /** When the uncapped rewards fit under the cap, nobody is cut. */
  lemma {:induction false} NoCapNoCut(uncapped: seq<nat>, cap: nat)
    requires Total(uncapped) <= cap
    ensures Granted(uncapped, cap) == uncapped
    decreases |uncapped|
  {
    if uncapped != [] {
      var init := uncapped[..|uncapped| - 1];
      NoCapNoCut(init, cap);
      assert uncapped == init + [uncapped[|uncapped| - 1]];
    }
  }

  /** The uncapped reward `weight.mul_unwrap(emissions)` (zero where the
      product overflows). */
  function UncappedReward(weight: FixedPoint, emissions: u256): nat
  {
    match MulUnwrap(weight, emissions)
    case Ok(v) => v
    case Err(_) => 0
  }

  /** The uncapped rewards of the recipients. */
  function Uncapped(emissions: u256, es: seq<(nat, FixedPoint)>): (r: seq<nat>)
    ensures |r| == |es|
    decreases |es|
  {
    if es == [] then [] else Uncapped(emissions, es[..|es| - 1]) + [UncappedReward(es[|es| - 1].1, emissions)]
  }

  /** The sum of the grants made to one recipient. */
  function GrantsTo(es: seq<(nat, FixedPoint)>, grants: seq<nat>, recipient: Address): nat
    requires |grants| == |es|
    decreases |es|
  {
    if es == [] then 0
    else
      GrantsTo(es[..|es| - 1], grants[..|grants| - 1], recipient)
      + (if es[|es| - 1].0 == recipient then grants[|grants| - 1] else 0)
  }

  lemma CreditOf(rewards: map<Address, u256>, recipient: Address, reward: u256, x: Address)
    ensures RewardOf(Credit(rewards, recipient, reward), x)
         == if x == recipient && reward > 0 then WrappingAdd(RewardOf(rewards, x), reward) else RewardOf(rewards, x)
  {
  }

  /** The recipient loop of a work log succeeds exactly when no uncapped
      reward overflows. */
  lemma {:induction false} RecipientFoldSucceeds(emissions: u256, s: CapState, es: seq<(nat, FixedPoint)>)
    ensures Fold(s, RecipientStep(emissions), es).Ok? <==> forall k :: 0 <= k < |es| ==> MulUnwrap(es[k].1, emissions).Ok?
    decreases |es|
  {
    if es != [] {
      var init := es[..|es| - 1];
      assert forall k :: 0 <= k < |init| ==> es[k] == init[k];
      RecipientFoldSucceeds(emissions, s, init);
    }
  }

  /** `t` is what the recipient loop leaves after granting `g` from `s`. */
  ghost predicate GrantedFrom(s: CapState, es: seq<(nat, FixedPoint)>, g: seq<nat>, t: CapState)
    requires |g| == |es|
  {
    t.cap == s.cap - Total(g)
    && forall x :: RewardOf(t.rewards, x) == (RewardOf(s.rewards, x) + GrantsTo(es, g, x)) % U256_LIMIT
  }

  lemma GrantStep(emissions: u256, s: CapState, es: seq<(nat, FixedPoint)>, p: CapState)
    requires es != []
    requires GrantedFrom(s, es[..|es| - 1], Granted(Uncapped(emissions, es[..|es| - 1]), s.cap), p)
    requires RecipientStep(emissions)(p, es[|es| - 1]).Ok?
    ensures GrantedFrom(s, es, Granted(Uncapped(emissions, es), s.cap), RecipientStep(emissions)(p, es[|es| - 1]).value)
  {
    var e := es[|es| - 1];
    var reward := RecipientStepValue(emissions, p, e);
    var g0 := Granted(Uncapped(emissions, es[..|es| - 1]), s.cap);
    GrantedSnoc(emissions, es, s.cap, p.cap, reward);
    GrantedFromStep(s, es, g0, p, reward);
  }

  /** A recipient step that succeeds credits the uncapped reward cut to the
      cap, and takes it off the cap. */
  lemma RecipientStepValue(emissions: u256, p: CapState, e: (nat, FixedPoint)) returns (reward: u256)
    requires RecipientStep(emissions)(p, e).Ok?
    ensures MulUnwrap(e.1, emissions).Ok? && reward == Min(MulUnwrap(e.1, emissions).value, p.cap)
    ensures RecipientStep(emissions)(p, e).value == CapState(Credit(p.rewards, e.0, reward), p.cap - reward)
  {
    reward := Min(MulUnwrap(e.1, emissions).value, p.cap);
  }

  lemma GrantedSnoc(emissions: u256, es: seq<(nat, FixedPoint)>, cap: nat, left: nat, reward: nat)
    requires es != [] && MulUnwrap(es[|es| - 1].1, emissions).Ok?
    requires left == cap - Total(Granted(Uncapped(emissions, es[..|es| - 1]), cap))
    requires reward == Min(MulUnwrap(es[|es| - 1].1, emissions).value, left)
    ensures Granted(Uncapped(emissions, es), cap) == Granted(Uncapped(emissions, es[..|es| - 1]), cap) + [reward]
  {
    var u := Uncapped(emissions, es);
    var u0 := Uncapped(emissions, es[..|es| - 1]);
    assert u == u0 + [UncappedReward(es[|es| - 1].1, emissions)];
    assert u[..|u| - 1] == u0;
    assert u[|u| - 1] == MulUnwrap(es[|es| - 1].1, emissions).value;
    GrantedLast(u, cap);
  }

  lemma GrantedLast(u: seq<nat>, cap: nat)
    requires u != []
    ensures Granted(u, cap) == Granted(u[..|u| - 1], cap) + [Min(u[|u| - 1], cap - Total(Granted(u[..|u| - 1], cap)))]
  {
  }

  lemma GrantedFromStep(s: CapState, es: seq<(nat, FixedPoint)>, g0: seq<nat>, p: CapState, reward: u256)
    requires es != [] && |g0| == |es| - 1 && reward <= p.cap
    requires GrantedFrom(s, es[..|es| - 1], g0, p)
    ensures var e := es[|es| - 1];
      GrantedFrom(s, es, g0 + [reward], CapState(Credit(p.rewards, e.0, reward), p.cap - reward))
  {
    var init, e := es[..|es| - 1], es[|es| - 1];
    var g := g0 + [reward];
    assert g[..|g| - 1] == g0 && g[|g| - 1] == reward;
    assert Total(g) == Total(g0) + reward;
    forall x ensures RewardOf(Credit(p.rewards, e.0, reward), x) == (RewardOf(s.rewards, x) + GrantsTo(es, g0 + [reward], x)) % U256_LIMIT {
      CreditOf(p.rewards, e.0, reward, x);
      GrantsToSnoc(es, g0, reward, x);
      WrappedTotalStep(RewardOf(s.rewards, x), GrantsTo(init, g0, x), GrantsTo(es, g0 + [reward], x),
                       RewardOf(p.rewards, x), RewardOf(Credit(p.rewards, e.0, reward), x), reward, x == e.0);
    }
  }

  /** A wrapping credit of `reward` (when it goes to this recipient and is
      not zero) to a balance that is `start + granted` wrapped gives
      `start + granted'` wrapped, where `granted'` counts the new grant. */
  lemma WrappedTotalStep(start: nat, granted: nat, granted': nat, balance: u256, balance': u256, reward: u256,
                         toRecipient: bool)
    requires balance == (start + granted) % U256_LIMIT
    requires balance' == if toRecipient && reward > 0 then WrappingAdd(balance, reward) else balance
    requires granted' == granted + (if toRecipient then reward else 0)
    ensures balance' == (start + granted') % U256_LIMIT
  {
    if toRecipient && reward > 0 {
      ModAddStep(start + granted, reward);
      WrapCongruent(start + granted + reward, start + granted');
    } else {
      WrapCongruent(start + granted, start + granted');
    }
  }

  lemma GrantsToSnoc(es: seq<(nat, FixedPoint)>, g0: seq<nat>, reward: nat, x: Address)
    requires es != [] && |g0| == |es| - 1
    ensures GrantsTo(es, g0 + [reward], x)
         == GrantsTo(es[..|es| - 1], g0, x) + (if x == es[|es| - 1].0 then reward else 0)
  {
    var g := g0 + [reward];
    assert g[..|g| - 1] == g0 && g[|g| - 1] == reward;
  }

  /** If the recipient loop of a work log succeeds, it leaves the cap minus
      the total it granted, and adds to each recipient's reward (modulo 2^256)
      what it granted them. */
  lemma {:induction false} RecipientFoldGrants(emissions: u256, s: CapState, es: seq<(nat, FixedPoint)>)
    ensures var r := Fold(s, RecipientStep(emissions), es);
      r.Ok? ==> GrantedFrom(s, es, Granted(Uncapped(emissions, es), s.cap), r.value)
    decreases |es|
  {
    var r := Fold(s, RecipientStep(emissions), es);
    if es == [] {
      forall x ensures RewardOf(s.rewards, x) == (RewardOf(s.rewards, x) + 0) % U256_LIMIT {
      }
    } else if r.Ok? {
      var init := es[..|es| - 1];
      RecipientFoldGrants(emissions, s, init);
      var p := Fold(s, RecipientStep(emissions), init);
      GrantStep(emissions, s, es, p.value);
    }
  }

  /** A recipient holds an entry after the loop exactly when it held one
      before or the loop granted it something. */
  lemma {:induction false} RecipientFoldKeys(emissions: u256, s: CapState, es: seq<(nat, FixedPoint)>)
    ensures var r := Fold(s, RecipientStep(emissions), es);
      r.Ok? ==> forall x :: x in r.value.rewards <==>
                  x in s.rewards || GrantsTo(es, Granted(Uncapped(emissions, es), s.cap), x) > 0
    decreases |es|
  {
    var r := Fold(s, RecipientStep(emissions), es);
    if es != [] && r.Ok? {
      var init, e := es[..|es| - 1], es[|es| - 1];
      RecipientFoldKeys(emissions, s, init);
      RecipientFoldGrants(emissions, s, init);
      var p := Fold(s, RecipientStep(emissions), init).value;
      var reward := RecipientStepValue(emissions, p, e);
      var g0 := Granted(Uncapped(emissions, init), s.cap);
      GrantedSnoc(emissions, es, s.cap, p.cap, reward);
      forall x ensures x in r.value.rewards <==> x in s.rewards || GrantsTo(es, g0 + [reward], x) > 0 {
        GrantsToSnoc(es, g0, reward, x);
      }
    }
  }

  // ---------------------------------------------------------------------
  // Rewards across work logs and epochs

  /** What one work log grants a recipient in an epoch: its grants under the
      work log's reward cap. */
  function LogGrantsTo(chain: Chain, latest: u64, emissions: u256, endTime: u256,
                       e: (nat, map<Address, FixedPoint>), x: Address): nat
  {
    var es := Entries(e.1);
    GrantsTo(es, Granted(Uncapped(emissions, es), chain.pastPovwRewardCap(latest, e.0, endTime)), x)
  }

  /** What the work logs of an epoch grant a recipient, in total. */
  function EpochGrantsTo(chain: Chain, latest: u64, emissions: u256, endTime: u256,
                         ls: seq<(nat, map<Address, FixedPoint>)>, x: Address): nat
    decreases |ls|
  {
    if ls == [] then 0
    else EpochGrantsTo(chain, latest, emissions, endTime, ls[..|ls| - 1], x)
         + LogGrantsTo(chain, latest, emissions, endTime, ls[|ls| - 1], x)
  }

  /** What all epochs grant a recipient, in total. */
  function AllGrantsTo(chain: Chain, latest: u64, es: seq<(nat, map<Address, map<Address, FixedPoint>>)>, x: Address): nat
    decreases |es|
  {
    if es == [] then 0
    else
      var e := es[|es| - 1];
      AllGrantsTo(chain, latest, es[..|es| - 1], x)
      + EpochGrantsTo(chain, latest, chain.povwEmissionsForEpoch(latest, e.0), chain.epochEndTime(latest, e.0), Entries(e.1), x)
  }

  /** Going from `start` to `m` credited `granted` to `x`: its balance is the
      wrapped sum, and it has an entry exactly when it had one or was granted
      something. */
  ghost predicate Accumulated(start: map<Address, u256>, m: map<Address, u256>, x: Address, granted: nat)
  {
    RewardOf(m, x) == (RewardOf(start, x) + granted) % U256_LIMIT
    && (x in m <==> x in start || granted > 0)
  }

  lemma AccumulatedStep(start: map<Address, u256>, mid: map<Address, u256>, end: map<Address, u256>,
                        x: Address, before: nat, added: nat, total: nat)
    requires Accumulated(start, mid, x, before) && Accumulated(mid, end, x, added)
    requires total == before + added
    ensures Accumulated(start, end, x, total)
  {
    ModAbsorb(RewardOf(start, x) + before, added);
    WrapCongruent(RewardOf(start, x) + before + added, RewardOf(start, x) + (before + added));
  }

  /** The recipient loop credits each recipient what it granted it. */
  lemma RecipientFoldAccumulates(emissions: u256, s: CapState, es: seq<(nat, FixedPoint)>)
    ensures var r := Fold(s, RecipientStep(emissions), es);
      r.Ok? ==> forall x :: Accumulated(s.rewards, r.value.rewards, x, GrantsTo(es, Granted(Uncapped(emissions, es), s.cap), x))
  {
    var r := Fold(s, RecipientStep(emissions), es);
    if r.Ok? {
      RecipientFoldGrants(emissions, s, es);
      RecipientFoldKeys(emissions, s, es);
      var g := Granted(Uncapped(emissions, es), s.cap);
      forall x ensures Accumulated(s.rewards, r.value.rewards, x, GrantsTo(es, g, x)) {
        assert RewardOf(r.value.rewards, x) == (RewardOf(s.rewards, x) + GrantsTo(es, g, x)) % U256_LIMIT;
      }
    }
  }

  /** One work log credits each recipient what it granted it. */
  lemma LogStepGrants(chain: Chain, latest: u64, emissions: u256, endTime: u256,
                      p: map<Address, u256>, e: (nat, map<Address, FixedPoint>))
    ensures var r := WorkLogStep(chain, latest, emissions, endTime)(p, e);
      r.Ok? ==> forall x :: Accumulated(p, r.value, x, LogGrantsTo(chain, latest, emissions, endTime, e, x))
  {
    var es := Entries(e.1);
    var s := CapState(p, chain.pastPovwRewardCap(latest, e.0, endTime));
    var inner := Fold(s, RecipientStep(emissions), es);
    var r := WorkLogStep(chain, latest, emissions, endTime)(p, e);
    assert r == if inner.Err? then Err(inner.error) else Ok(inner.value.rewards);
    if r.Ok? {
      RecipientFoldAccumulates(emissions, s, es);
      var g := Granted(Uncapped(emissions, es), s.cap);
      forall x ensures Accumulated(p, r.value, x, LogGrantsTo(chain, latest, emissions, endTime, e, x)) {
        assert LogGrantsTo(chain, latest, emissions, endTime, e, x) == GrantsTo(es, g, x);
        assert Accumulated(s.rewards, inner.value.rewards, x, GrantsTo(es, g, x));
      }
    }
  }

  /** The work-log loop of an epoch credits each recipient the sum of what
      every work log granted it. */
  lemma {:induction false} WorkLogFoldGrants(chain: Chain, latest: u64, emissions: u256, endTime: u256,
                                             rewards: map<Address, u256>, ls: seq<(nat, map<Address, FixedPoint>)>)
    ensures var r := Fold(rewards, WorkLogStep(chain, latest, emissions, endTime), ls);
      r.Ok? ==> forall x :: Accumulated(rewards, r.value, x, EpochGrantsTo(chain, latest, emissions, endTime, ls, x))
    decreases |ls|
  {
    var step := WorkLogStep(chain, latest, emissions, endTime);
    var r := Fold(rewards, step, ls);
    if ls == [] {
      forall x ensures Accumulated(rewards, rewards, x, 0) {
      }
    } else if r.Ok? {
      var init, e := ls[..|ls| - 1], ls[|ls| - 1];
      WorkLogFoldGrants(chain, latest, emissions, endTime, rewards, init);
      var p := Fold(rewards, step, init).value;
      assert r == step(p, e);
      LogStepGrants(chain, latest, emissions, endTime, p, e);
      forall x ensures Accumulated(rewards, r.value, x, EpochGrantsTo(chain, latest, emissions, endTime, ls, x)) {
        var before, added := EpochGrantsTo(chain, latest, emissions, endTime, init, x), LogGrantsTo(chain, latest, emissions, endTime, e, x);
        AccumulatedStep(rewards, p, r.value, x, before, added, EpochGrantsTo(chain, latest, emissions, endTime, ls, x));
      }
    }
  }

  /** The epoch loop credits each recipient the sum of what every epoch
      granted it. */
  lemma {:induction false} EpochFoldGrants(chain: Chain, latest: u64, rewards: map<Address, u256>,
                                           es: seq<(nat, map<Address, map<Address, FixedPoint>>)>)
    ensures var r := Fold(rewards, EpochStep(chain, latest), es);
      r.Ok? ==> forall x :: Accumulated(rewards, r.value, x, AllGrantsTo(chain, latest, es, x))
    decreases |es|
  {
    var r := Fold(rewards, EpochStep(chain, latest), es);
    if es == [] {
      forall x ensures Accumulated(rewards, rewards, x, 0) {
      }
    } else if r.Ok? {
      var init, e := es[..|es| - 1], es[|es| - 1];
      EpochFoldGrants(chain, latest, rewards, init);
      var p := Fold(rewards, EpochStep(chain, latest), init).value;
      var emissions, endTime := chain.povwEmissionsForEpoch(latest, e.0), chain.epochEndTime(latest, e.0);
      assert EpochStep(chain, latest)(p, e) == Fold(p, WorkLogStep(chain, latest, emissions, endTime), Entries(e.1));
      WorkLogFoldGrants(chain, latest, emissions, endTime, p, Entries(e.1));
      forall x ensures Accumulated(rewards, r.value, x, AllGrantsTo(chain, latest, es, x)) {
        AccumulatedStep(rewards, p, r.value, x, AllGrantsTo(chain, latest, init, x),
                        EpochGrantsTo(chain, latest, emissions, endTime, Entries(e.1), x), AllGrantsTo(chain, latest, es, x));
      }
    }
  }

  /** The rewards the guest mints: a recipient is listed exactly when some
      work log of some epoch granted it something, and its reward is the sum
      of all its grants across epochs and work logs, modulo 2^256. */
  lemma RewardsAreGrantSums(chain: Chain, latest: u64, weights: Weights)
    ensures var r := Rewards(chain, latest, weights);
      r.Ok? ==> forall x ::
        (x in r.value <==> AllGrantsTo(chain, latest, Entries(weights), x) > 0)
        && (x in r.value ==> r.value[x] == AllGrantsTo(chain, latest, Entries(weights), x) % U256_LIMIT)
  {
    EpochFoldGrants(chain, latest, map[], Entries(weights));
  }

  // ---------------------------------------------------------------------
  // The guest

  /** The events of one block. */
  datatype BlockEvents = BlockEvents(finalized: seq<EpochFinalized>, updated: seq<WorkLogUpdated>)

  datatype Input = Input(
    povwAccountingAddress: Address,
    zkcAddress: Address,
    zkcRewardsAddress: Address,
    envs: map<u64, BlockEvents>,
    workLogFilter: WorkLogFilter)

  datatype Mint = Mint(recipient: Address, value: u256)

  datatype Update = Update(workLogId: Address, initialCommit: Commit, updatedCommit: Commit)

  datatype Journal = Journal(
    mints: seq<Mint>,
    updates: seq<Update>,
    zkcAddress: Address,
    zkcRewardsAddress: Address,
    povwAccountingAddress: Address,
    steelCommit: Commit)

  /** The block environments by increasing block number. */
  function BlockOrder(envs: map<u64, BlockEvents>): seq<BlockEnv>
  {
    var ks := AscendingKeys(envs.Keys);
    seq(|ks|, i requires 0 <= i < |ks| =>
      assert ks[i] in ks; BlockEnv(ks[i], envs[ks[i]].finalized, envs[ks[i]].updated))
  }

  /** `latest - 1` on a `u64`, wrapping as the guest's release build does. */
  function PreviousBlock(latest: u64): u64
  {
    if latest == 0 then U64_LIMIT - 1 else latest - 1
  }

  function Mints(rewards: map<Address, u256>): seq<Mint>
  {
    var es := Entries(rewards);
    seq(|es|, i requires 0 <= i < |es| => Mint(es[i].0, es[i].1))
  }

  function Updates(updates: map<Address, (Commit, Commit)>): seq<Update>
  {
    var es := Entries(updates);
    seq(|es|, i requires 0 <= i < |es| => Update(es[i].0, es[i].1.0, es[i].1.1))
  }

  /** What the guest commits, or why it panics. */
  function MintSpec(input: Input, chain: Chain): Result<Journal, Abort>
  {
    var blocks := BlockOrder(input.envs);
    match FinalizedEpochs(blocks)
    case Err(e) => Err(e)
    case Ok(epochs) =>
      match CollectedUpdates(blocks, input.workLogFilter, epochs.totalWork)
      case Err(e) => Err(e)
      case Ok(progress) =>
        if epochs.latestBlock.None? then Err(NoFinalization)
        else
          var latest := epochs.latestBlock.value;
          if PreviousBlock(latest) !in input.envs then Err(MissingCompletenessEnv)
          else
            match Completeness(chain, PreviousBlock(latest), progress.updates)
            case Err(e) => Err(e)
            case Ok(_) =>
              match Rewards(chain, latest, progress.weights)
              case Err(e) => Err(e)
              case Ok(rewards) =>
                Ok(Journal(Mints(rewards), Updates(progress.updates), input.zkcAddress,
                           input.zkcRewardsAddress, input.povwAccountingAddress, chain.commitment))
  }

  method MintCalculatorMain(input: Input, chain: Chain) returns (r: Result<Journal, Abort>)
    ensures r == MintSpec(input, chain)
  {
    var envs := BlockOrder(input.envs);
    var epochs := CollectEpochs(envs);
    if epochs.Err? {
      return Err(epochs.error);
    }
    var progress := CollectUpdates(envs, input.workLogFilter, epochs.value.totalWork);
    if progress.Err? {
      return Err(progress.error);
    }
    if epochs.value.latestBlock.None? {
      return Err(NoFinalization);
    }
    var latestEpochFinalizationBlock := epochs.value.latestBlock.value;
    var checkBlock := PreviousBlock(latestEpochFinalizationBlock);
    if checkBlock !in input.envs {
      return Err(MissingCompletenessEnv);
    }
    var complete := CheckCompleteness(chain, checkBlock, progress.value.updates);
    if complete.Err? {
      return Err(complete.error);
    }
    var rewards := ComputeRewards(chain, latestEpochFinalizationBlock, progress.value.weights);
    if rewards.Err? {
      return Err(rewards.error);
    }
    r := Ok(Journal(Mints(rewards.value), Updates(progress.value.updates), input.zkcAddress,
                    input.zkcRewardsAddress, input.povwAccountingAddress, chain.commitment));
  }

  // ---------------------------------------------------------------------
  // Properties of the guest

  /** The journal lists the mints by strictly ascending recipient, one per
      rewarded recipient, with its reward. */
  lemma MintsListRewards(rewards: map<Address, u256>)
    ensures var ms := Mints(rewards);
      |ms| == |rewards|
      && (forall i, j :: 0 <= i < j < |ms| ==> ms[i].recipient < ms[j].recipient)
      && (forall k :: 0 <= k < |ms| ==> ms[k].recipient in rewards && ms[k].value == rewards[ms[k].recipient])
      && (forall x :: x in rewards ==> exists k :: 0 <= k < |ms| && ms[k].recipient == x)
  {
    var ms, es := Mints(rewards), Entries(rewards);
    EntriesListing(rewards);
    forall i, j | 0 <= i < j < |ms| ensures ms[i].recipient < ms[j].recipient {
      assert ms[i].recipient == es[i].0 && ms[j].recipient == es[j].0;
    }
    forall k | 0 <= k < |ms| ensures ms[k].recipient in rewards && ms[k].value == rewards[ms[k].recipient] {
      assert ms[k] == Mint(es[k].0, es[k].1);
    }
    forall x | x in rewards ensures exists k :: 0 <= k < |ms| && ms[k].recipient == x {
      var k :| 0 <= k < |es| && es[k].0 == x;
      assert ms[k].recipient == x;
    }
  }

  /** The journal lists the updates by strictly ascending work log ID, one per
      recorded work log, with its commit range. */
  lemma UpdatesListRanges(updates: map<Address, (Commit, Commit)>)
    ensures var us := Updates(updates);
      |us| == |updates|
      && (forall i, j :: 0 <= i < j < |us| ==> us[i].workLogId < us[j].workLogId)
      && (forall k :: 0 <= k < |us| ==>
            us[k].workLogId in updates && updates[us[k].workLogId] == (us[k].initialCommit, us[k].updatedCommit))
      && (forall id :: id in updates ==> exists k :: 0 <= k < |us| && us[k].workLogId == id)
  {
    var us, es := Updates(updates), Entries(updates);
    EntriesListing(updates);
    forall i, j | 0 <= i < j < |us| ensures us[i].workLogId < us[j].workLogId {
      assert us[i].workLogId == es[i].0 && us[j].workLogId == es[j].0;
    }
    forall k | 0 <= k < |us|
      ensures us[k].workLogId in updates && updates[us[k].workLogId] == (us[k].initialCommit, us[k].updatedCommit)
    {
      assert us[k] == Update(es[k].0, es[k].1.0, es[k].1.1);
    }
    forall id | id in updates ensures exists k :: 0 <= k < |us| && us[k].workLogId == id {
      var k :| 0 <= k < |es| && es[k].0 == id;
      assert us[k].workLogId == id;
    }
  }

  /** The stages a committed journal has passed. */
  lemma CommittedStages(input: Input, chain: Chain)
    requires MintSpec(input, chain).Ok?
    ensures var blocks := BlockOrder(input.envs);
      var epochs := FinalizedEpochs(blocks);
      epochs.Ok? && epochs.value.latestBlock.Some?
      && var progress := CollectedUpdates(blocks, input.workLogFilter, epochs.value.totalWork);
      var checkBlock := PreviousBlock(epochs.value.latestBlock.value);
      progress.Ok? && checkBlock in input.envs
      && Completeness(chain, checkBlock, progress.value.updates).Ok?
      && MintSpec(input, chain).value.updates == Updates(progress.value.updates)
  {
  }

  /** The journal listing of chained ranges whose final commits the contract
      holds. */
  lemma ListedChains(filter: WorkLogFilter, epochs: map<u256, u256>, log: seq<WorkLogUpdated>,
                     updates: map<Address, (Commit, Commit)>, chain: Chain, checkBlock: u64)
    requires ChainsRecorded(filter, epochs, log, updates)
    requires forall id :: id in updates ==> chain.workLogCommit(checkBlock, id) == updates[id].1
    ensures var us := Updates(updates);
      (forall k :: 0 <= k < |us| ==>
         Spans(ChainOf(filter, epochs, log, us[k].workLogId), us[k].initialCommit, us[k].updatedCommit)
         && chain.workLogCommit(checkBlock, us[k].workLogId) == us[k].updatedCommit)
      && (forall id :: ChainOf(filter, epochs, log, id) != [] ==> exists k :: 0 <= k < |us| && us[k].workLogId == id)
  {
    UpdatesListRanges(updates);
    var us := Updates(updates);
    forall k | 0 <= k < |us|
      ensures Spans(ChainOf(filter, epochs, log, us[k].workLogId), us[k].initialCommit, us[k].updatedCommit)
        && chain.workLogCommit(checkBlock, us[k].workLogId) == us[k].updatedCommit
    {
      ListedChain(filter, epochs, log, updates, chain, checkBlock, us[k]);
    }
    forall id | ChainOf(filter, epochs, log, id) != [] ensures exists k :: 0 <= k < |us| && us[k].workLogId == id {
      RecordedChain(filter, epochs, log, updates, id);
    }
  }

  lemma RecordedChain(filter: WorkLogFilter, epochs: map<u256, u256>, log: seq<WorkLogUpdated>,
                      updates: map<Address, (Commit, Commit)>, id: Address)
    requires ChainsRecorded(filter, epochs, log, updates)
    ensures id in updates <==> ChainOf(filter, epochs, log, id) != []
    ensures id in updates ==> Spans(ChainOf(filter, epochs, log, id), updates[id].0, updates[id].1)
  {
  }

  lemma ListedChain(filter: WorkLogFilter, epochs: map<u256, u256>, log: seq<WorkLogUpdated>,
                    updates: map<Address, (Commit, Commit)>, chain: Chain, checkBlock: u64, u: Update)
    requires ChainsRecorded(filter, epochs, log, updates)
    requires forall id :: id in updates ==> chain.workLogCommit(checkBlock, id) == updates[id].1
    requires u.workLogId in updates && updates[u.workLogId] == (u.initialCommit, u.updatedCommit)
    ensures Spans(ChainOf(filter, epochs, log, u.workLogId), u.initialCommit, u.updatedCommit)
    ensures chain.workLogCommit(checkBlock, u.workLogId) == u.updatedCommit
  {
    RecordedChain(filter, epochs, log, updates, u.workLogId);
  }

  /** The journal updates of collected, complete update ranges. */
  lemma CommittedUpdates(filter: WorkLogFilter, epochs: map<u256, u256>, log: seq<WorkLogUpdated>,
                         updates: map<Address, (Commit, Commit)>, chain: Chain, checkBlock: u64)
    requires Fold(NoProgress, UpdateStep(filter, epochs), log).Ok?
    requires updates == Fold(NoProgress, UpdateStep(filter, epochs), log).value.updates
    requires Completeness(chain, checkBlock, updates).Ok?
    ensures var us := Updates(updates);
      (forall k :: 0 <= k < |us| ==>
         Spans(ChainOf(filter, epochs, log, us[k].workLogId), us[k].initialCommit, us[k].updatedCommit)
         && chain.workLogCommit(checkBlock, us[k].workLogId) == us[k].updatedCommit)
      && (forall id :: ChainOf(filter, epochs, log, id) != [] ==> exists k :: 0 <= k < |us| && us[k].workLogId == id)
  {
    UpdatesFormChains(filter, epochs, log);
    CompletenessFacts(chain, checkBlock, updates);
    ListedChains(filter, epochs, log, updates, chain, checkBlock);
  }

  /** Every update in a committed journal spans the unbroken chain of the
      counted updates of its work log, and its final commit is the one the
      accounting contract holds at the block before the last finalization;
      every work log with a counted update is in the journal. */
  lemma JournalUpdatesAreCompleteChains(input: Input, chain: Chain)
    requires MintSpec(input, chain).Ok?
    ensures var blocks := BlockOrder(input.envs);
      var epochs := FinalizedEpochs(blocks).value.totalWork;
      var checkBlock := PreviousBlock(FinalizedEpochs(blocks).value.latestBlock.value);
      var log := UpdateLog(blocks);
      var us := MintSpec(input, chain).value.updates;
      checkBlock in input.envs
      && (forall k :: 0 <= k < |us| ==>
            Spans(ChainOf(input.workLogFilter, epochs, log, us[k].workLogId), us[k].initialCommit, us[k].updatedCommit)
            && chain.workLogCommit(checkBlock, us[k].workLogId) == us[k].updatedCommit)
      && (forall id :: ChainOf(input.workLogFilter, epochs, log, id) != [] ==>
            exists k :: 0 <= k < |us| && us[k].workLogId == id)
  {
    CommittedStages(input, chain);
    var blocks := BlockOrder(input.envs);
    var epochs := FinalizedEpochs(blocks).value;
    var progress := CollectedUpdates(blocks, input.workLogFilter, epochs.totalWork).value;
    CommittedUpdates(input.workLogFilter, epochs.totalWork, UpdateLog(blocks), progress.updates,
                     chain, PreviousBlock(epochs.latestBlock.value));
  }

  /** Two finalizations of one epoch anywhere in the blocks abort the guest. */
  lemma DuplicateFinalizationAborts(input: Input, chain: Chain)
    requires !DistinctEpochs(FinalizationLog(BlockOrder(input.envs)))
    ensures MintSpec(input, chain).Err? && MintSpec(input, chain).error.DuplicateFinalization?
  {
    FinalizationFacts(FinalizationLog(BlockOrder(input.envs)));
  }

  /** With no finalized epoch, nothing is counted. */
  lemma {:induction false} NothingCounted(filter: WorkLogFilter, log: seq<WorkLogUpdated>)
    ensures Fold(NoProgress, UpdateStep(filter, map[]), log) == Ok(NoProgress)
    decreases |log|
  {
    if log != [] {
      NothingCounted(filter, log[..|log| - 1]);
    }
  }

  /** Blocks without a finalization event abort the guest: there is no epoch
      to mint for. */
  lemma NoFinalizationAborts(input: Input, chain: Chain)
    requires FinalizationLog(BlockOrder(input.envs)) == []
    ensures MintSpec(input, chain) == Err(NoFinalization)
  {
    var blocks := BlockOrder(input.envs);
    assert FinalizedEpochs(blocks) == Ok(NoEpochs);
    NothingCounted(input.workLogFilter, UpdateLog(blocks));
  }
}
