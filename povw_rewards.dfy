/** Off-chain proof-of-verifiable-work reward accounting
    (crates/rewards/src/povw.rs): each epoch's emissions are shared out in
    proportion to the work each work log submitted, every share is capped by
    the work log's reward cap, and the per-epoch results are aggregated per
    work log and over all epochs.

    The cached chain data arrives as maps. `HashMap` iteration order is not
    specified, so the loops below visit keys in an arbitrary order; every
    result they build is independent of it. */
module PovwRewards {
  import opened Wrappers
  import opened Ints
  import opened Sums

  datatype EpochTimeRange = EpochTimeRange(startTime: u64, endTime: u64)

  /** The pre-fetched data both computations read. */
  datatype Caches = Caches(
    workByLogByEpoch: map<(Address, u64), u256>,
    recipientsByEpoch: map<(Address, u64), Address>,
    totalWorkByEpoch: map<u64, u256>,
    pendingEpochTotalWork: u256,
    emissionsByEpoch: map<u64, u256>,
    rewardCaps: map<(Address, u64), u256>,
    stakingAmountsByEpoch: map<(Address, u64), u256>,
    timeRanges: map<u64, EpochTimeRange>)

  datatype WorkLogRewardInfo = WorkLogRewardInfo(
    workLogId: Address,
    work: u256,
    proportionalRewards: u256,
    cappedRewards: u256,
    rewardCap: u256,
    isCapped: bool,
    recipientAddress: Address,
    stakingAmount: u256)

  datatype EpochPovwRewards = EpochPovwRewards(
    epoch: u64,
    totalWork: u256,
    totalEmissions: u256,
    totalCappedRewards: u256,
    totalProportionalRewards: u256,
    epochStartTime: u64,
    epochEndTime: u64,
    rewardsByWorkLogId: map<Address, WorkLogRewardInfo>)

  /** The errors of `compute_povw_rewards_for_epoch`. The source's message for
      a missing cap also names the work log met first in iteration order; the
      model keeps only the epoch. */
  datatype PovwError =
    | EmissionsNotFound(epoch: u64)
    | TimeRangeNotFound(epoch: u64)
    | RewardCapNotFound(epoch: u64)

  // ---------------------------------------------------------------------
  // One epoch
  // ---------------------------------------------------------------------

  /** The total work an epoch's shares are computed against: the pending
      total for the current epoch, the finalized total (or zero) otherwise. */
  function TotalWorkFor(c: Caches, epoch: u64, current: u64): (w: u256)
    ensures epoch == current ==> w == c.pendingEpochTotalWork
    ensures epoch != current ==> w == (if epoch in c.totalWorkByEpoch then c.totalWorkByEpoch[epoch] else 0)
  {
    if epoch == current then c.pendingEpochTotalWork
    else if epoch in c.totalWorkByEpoch then c.totalWorkByEpoch[epoch]
    else 0
  }

  /** The work of each work log in one epoch. */
  function EpochWork(work: map<(Address, u64), u256>, epoch: u64): map<Address, u256>
  {
    map p | p in work.Keys && p.1 == epoch :: p.0 := work[p]
  }

  /** `work * emissions / total_work` with `U256` wrap-around on the product,
      or zero when the epoch has no work. */
  function ProportionalReward(work: u256, emissions: u256, totalWork: u256): u256
  {
    if totalWork > 0 then WrappingMul(work, emissions) / totalWork else 0
  }

  /** The reward record of one work log in one epoch. */
  function RewardInfo(c: Caches, epoch: u64, id: Address, work: u256, totalWork: u256, emissions: u256): WorkLogRewardInfo
    requires (id, epoch) in c.rewardCaps
  {
    var proportional := ProportionalReward(work, emissions, totalWork);
    var cap := c.rewardCaps[(id, epoch)];
    var capped := Min(proportional, cap);
    var staking := if (id, epoch) in c.stakingAmountsByEpoch then c.stakingAmountsByEpoch[(id, epoch)] else 0;
    var recipient := if (id, epoch) in c.recipientsByEpoch then c.recipientsByEpoch[(id, epoch)] else id;
    WorkLogRewardInfo(id, work, proportional, capped, cap, capped < proportional, recipient, staking)
  }

  /** A record pays the proportional share cut down to the cap, flags the
      cut, and falls back to zero stake and to the work log itself as
      recipient when the caches have no entry. */
  lemma RewardInfoIsCappedShare(c: Caches, epoch: u64, id: Address, work: u256, totalWork: u256, emissions: u256)
    requires (id, epoch) in c.rewardCaps
    ensures var info := RewardInfo(c, epoch, id, work, totalWork, emissions);
      info.workLogId == id && info.work == work &&
      info.proportionalRewards == ProportionalReward(work, emissions, totalWork) &&
      info.rewardCap == c.rewardCaps[(id, epoch)] &&
      info.cappedRewards <= info.proportionalRewards && info.cappedRewards <= info.rewardCap &&
      (info.cappedRewards == info.proportionalRewards || info.cappedRewards == info.rewardCap) &&
      (info.isCapped <==> info.rewardCap < info.proportionalRewards) &&
      (info.isCapped <==> info.cappedRewards < info.proportionalRewards) &&
      info.stakingAmount == (if (id, epoch) in c.stakingAmountsByEpoch then c.stakingAmountsByEpoch[(id, epoch)] else 0) &&
      info.recipientAddress == (if (id, epoch) in c.recipientsByEpoch then c.recipientsByEpoch[(id, epoch)] else id)
  {
  }

  /** Every work log with work in the epoch has a reward cap. */
  predicate CapsPresent(c: Caches, epoch: u64)
  {
    forall p :: p in c.workByLogByEpoch && p.1 == epoch ==> p in c.rewardCaps
  }

  function EpochRewardsMap(c: Caches, epoch: u64, current: u64): (rewards: map<Address, WorkLogRewardInfo>)
    requires epoch in c.emissionsByEpoch && CapsPresent(c, epoch)
    ensures forall id :: id in rewards ==> rewards[id].cappedRewards <= rewards[id].proportionalRewards
  {
    var work := EpochWork(c.workByLogByEpoch, epoch);
    RewardsFor(c, epoch, work, TotalWorkFor(c, epoch, current), c.emissionsByEpoch[epoch], work.Keys)
  }

  function ProportionalOf(info: WorkLogRewardInfo): nat
  {
    info.proportionalRewards
  }

  function CappedOf(info: WorkLogRewardInfo): nat
  {
    info.cappedRewards
  }

  /** The exact sum of the proportional rewards. */
  ghost function ProportionalTotal(rewards: map<Address, WorkLogRewardInfo>): nat
  {
    SumMap(rewards, ProportionalOf)
  }

  /** The exact sum of the capped rewards. */
  ghost function CappedTotal(rewards: map<Address, WorkLogRewardInfo>): nat
  {
    SumMap(rewards, CappedOf)
  }

  /** What `compute_povw_rewards_for_epoch` returns. The totals are the
      exact sums wrapped modulo 2^256, as `U256 +=` computes them. */
  ghost function EpochRewards(c: Caches, epoch: u64, current: u64): Result<EpochPovwRewards, PovwError>
  {
    if epoch !in c.emissionsByEpoch then Err(EmissionsNotFound(epoch))
    else if epoch !in c.timeRanges then Err(TimeRangeNotFound(epoch))
    else if !CapsPresent(c, epoch) then Err(RewardCapNotFound(epoch))
    else
      var rewards := EpochRewardsMap(c, epoch, current);
      Ok(EpochPovwRewards(
        epoch, TotalWorkFor(c, epoch, current), c.emissionsByEpoch[epoch],
        CappedTotal(rewards) % U256_LIMIT, ProportionalTotal(rewards) % U256_LIMIT,
        c.timeRanges[epoch].startTime, c.timeRanges[epoch].endTime, rewards))
  }

  lemma ProportionalTotalInsert(rewards: map<Address, WorkLogRewardInfo>, id: Address, info: WorkLogRewardInfo)
    requires id !in rewards
    ensures ProportionalTotal(rewards[id := info]) == ProportionalTotal(rewards) + info.proportionalRewards
    ensures CappedTotal(rewards[id := info]) == CappedTotal(rewards) + info.cappedRewards
  {
    SumMapInsert(rewards, ProportionalOf, id, info);
    SumMapInsert(rewards, CappedOf, id, info);
  }

  /** The records of the work logs in `ids`. */
  function RewardsFor(c: Caches, epoch: u64, work: map<Address, u256>, totalWork: u256, emissions: u256, ids: set<Address>): map<Address, WorkLogRewardInfo>
    requires forall id :: id in ids ==> id in work && (id, epoch) in c.rewardCaps
  {
    map id | id in ids :: RewardInfo(c, epoch, id, work[id], totalWork, emissions)
  }

  lemma RewardsForInsert(c: Caches, epoch: u64, work: map<Address, u256>, totalWork: u256, emissions: u256, ids: set<Address>, id: Address)
    requires forall i :: i in ids ==> i in work && (i, epoch) in c.rewardCaps
    requires id in work && (id, epoch) in c.rewardCaps
    ensures RewardsFor(c, epoch, work, totalWork, emissions, ids + {id})
         == RewardsFor(c, epoch, work, totalWork, emissions, ids)[id := RewardInfo(c, epoch, id, work[id], totalWork, emissions)]
  {
  }

  lemma EpochWorkStep(m: map<(Address, u64), u256>, unseen: set<(Address, u64)>, key: (Address, u64), epoch: u64)
    requires key in unseen && unseen <= m.Keys
    ensures key.1 == epoch ==> EpochWork(m - (unseen - {key}), epoch) == EpochWork(m - unseen, epoch)[key.0 := m[key]]
    ensures key.1 != epoch ==> EpochWork(m - (unseen - {key}), epoch) == EpochWork(m - unseen, epoch)
  {
    var before := m - unseen;
    var after := m - (unseen - {key});
    assert after == before[key := m[key]];
  }

  /** Adding a record to the running wrapped totals tracks the exact totals
      modulo 2^256. */
  ghost predicate Tracked(rewards: map<Address, WorkLogRewardInfo>, tp: u256, tc: u256)
  {
    tp == ProportionalTotal(rewards) % U256_LIMIT && tc == CappedTotal(rewards) % U256_LIMIT
  }

  lemma WrappedTotalsStep(rewards: map<Address, WorkLogRewardInfo>, tp: u256, tc: u256, id: Address, info: WorkLogRewardInfo)
    requires id !in rewards
    requires Tracked(rewards, tp, tc)
    ensures Tracked(rewards[id := info], WrappingAdd(tp, info.proportionalRewards), WrappingAdd(tc, info.cappedRewards))
  {
    ModAddStep(ProportionalTotal(rewards), info.proportionalRewards);
    ModAddStep(CappedTotal(rewards), info.cappedRewards);
    ProportionalTotalInsert(rewards, id, info);
  }

  /** What the reward loop has built once the work logs in `done` are
      handled: their records, and the wrapped totals of those records. */
  ghost predicate RecordsUpTo(c: Caches, epoch: u64, work: map<Address, u256>, totalWork: u256, emissions: u256,
                              done: set<Address>, rewards: map<Address, WorkLogRewardInfo>, tp: u256, tc: u256)
  {
    (forall i :: i in done ==> i in work && (i, epoch) in c.rewardCaps) &&
    rewards == RewardsFor(c, epoch, work, totalWork, emissions, done) &&
    Tracked(rewards, tp, tc)
  }

  lemma RecordsUpToEmpty(c: Caches, epoch: u64, work: map<Address, u256>, totalWork: u256, emissions: u256)
    ensures RecordsUpTo(c, epoch, work, totalWork, emissions, {}, map[], 0, 0)
  {
  }

  lemma RecordsStep(c: Caches, epoch: u64, work: map<Address, u256>, totalWork: u256, emissions: u256,
                    done: set<Address>, rewards: map<Address, WorkLogRewardInfo>, tp: u256, tc: u256, id: Address)
    requires RecordsUpTo(c, epoch, work, totalWork, emissions, done, rewards, tp, tc)
    requires id in work && id !in done && (id, epoch) in c.rewardCaps
    ensures var info := RewardInfo(c, epoch, id, work[id], totalWork, emissions);
      RecordsUpTo(c, epoch, work, totalWork, emissions, done + {id}, rewards[id := info],
                  WrappingAdd(tp, info.proportionalRewards), WrappingAdd(tc, info.cappedRewards))
  {
    var info := RewardInfo(c, epoch, id, work[id], totalWork, emissions);
    assert id !in rewards;
    WrappedTotalsStep(rewards, tp, tc, id, info);
    RewardsForInsert(c, epoch, work, totalWork, emissions, done, id);
  }

  /** The `work_by_work_log_id` loop: keep the entries of the requested
      epoch. */
  method CollectEpochWork(m: map<(Address, u64), u256>, epoch: u64) returns (workByLog: map<Address, u256>)
    ensures workByLog == EpochWork(m, epoch)
  {
    workByLog := map[];
    var unseen := m.Keys;
    while unseen != {}
      invariant unseen <= m.Keys
      invariant workByLog == EpochWork(m - unseen, epoch)
      decreases |unseen|
    {
      var key :| key in unseen;
      EpochWorkStep(m, unseen, key, epoch);
      if key.1 == epoch {
        workByLog := workByLog[key.0 := m[key]];
      }
      unseen := unseen - {key};
    }
    assert m - unseen == m;
  }

  /** The reward loop: one record per work log, failing on the first work
      log met without a reward cap, with the totals summed by wrapping
      addition. */
  method ComputeEpochRecords(c: Caches, epoch: u64, workByLog: map<Address, u256>, totalWork: u256, emissions: u256)
    returns (r: Result<(map<Address, WorkLogRewardInfo>, u256, u256), PovwError>)
    ensures (forall id :: id in workByLog ==> (id, epoch) in c.rewardCaps) <==> r.Ok?
    ensures r.Err? ==> r.error == RewardCapNotFound(epoch)
    ensures r.Ok? ==> RecordsUpTo(c, epoch, workByLog, totalWork, emissions, workByLog.Keys, r.value.0, r.value.1, r.value.2)
  {
    var rewards: map<Address, WorkLogRewardInfo> := map[];
    var totalProportional: u256 := 0;
    var totalCapped: u256 := 0;
    var todo := workByLog.Keys;
    RecordsUpToEmpty(c, epoch, workByLog, totalWork, emissions);
    while todo != {}
      invariant todo <= workByLog.Keys
      invariant RecordsUpTo(c, epoch, workByLog, totalWork, emissions, workByLog.Keys - todo, rewards, totalProportional, totalCapped)
      decreases |todo|
    {
      var id :| id in todo;
      var work := workByLog[id];
      if (id, epoch) !in c.rewardCaps {
        return Err(RewardCapNotFound(epoch));
      }
      var info := RewardInfo(c, epoch, id, work, totalWork, emissions);
      RecordsStep(c, epoch, workByLog, totalWork, emissions, workByLog.Keys - todo, rewards, totalProportional, totalCapped, id);
      assert workByLog.Keys - (todo - {id}) == (workByLog.Keys - todo) + {id};
      totalProportional := WrappingAdd(totalProportional, info.proportionalRewards);
      totalCapped := WrappingAdd(totalCapped, info.cappedRewards);
      rewards := rewards[id := info];
      todo := todo - {id};
    }
    assert workByLog.Keys - todo == workByLog.Keys;
    return Ok((rewards, totalProportional, totalCapped));
  }

  /** `compute_povw_rewards_for_epoch`. */
  method ComputePovwRewardsForEpoch(c: Caches, epoch: u64, current: u64) returns (r: Result<EpochPovwRewards, PovwError>)
    ensures r == EpochRewards(c, epoch, current)
  {
    if epoch !in c.emissionsByEpoch {
      return Err(EmissionsNotFound(epoch));
    }
    var emissions := c.emissionsByEpoch[epoch];
    if epoch !in c.timeRanges {
      return Err(TimeRangeNotFound(epoch));
    }
    var range := c.timeRanges[epoch];
    var totalWork := if epoch == current then c.pendingEpochTotalWork
      else if epoch in c.totalWorkByEpoch then c.totalWorkByEpoch[epoch] else 0;
    var workByLog := CollectEpochWork(c.workByLogByEpoch, epoch);
    var records := ComputeEpochRecords(c, epoch, workByLog, totalWork, emissions);
    if records.Err? {
      return Err(records.error);
    }
    var (rewards, totalProportional, totalCapped) := records.value;
    assert rewards == EpochRewardsMap(c, epoch, current);
    return Ok(EpochPovwRewards(epoch, totalWork, emissions, totalCapped, totalProportional,
                               range.startTime, range.endTime, rewards));
  }

  /** An epoch fails exactly when its emissions or its time range are missing,
      or some work log with work in it has no reward cap. */
  lemma EpochFailsIff(c: Caches, epoch: u64, current: u64)
    ensures EpochRewards(c, epoch, current).Err? <==>
      (epoch !in c.emissionsByEpoch || epoch !in c.timeRanges ||
       exists p :: p in c.workByLogByEpoch && p.1 == epoch && p !in c.rewardCaps)
  {
    if epoch in c.emissionsByEpoch && epoch in c.timeRanges {
      var work := EpochWork(c.workByLogByEpoch, epoch);
      if exists p :: p in c.workByLogByEpoch && p.1 == epoch && p !in c.rewardCaps {
        var p :| p in c.workByLogByEpoch && p.1 == epoch && p !in c.rewardCaps;
        assert p.0 in work && (p.0, epoch) == p;
      }
    }
  }

  /** A successful epoch has one record per work log with work in that
      epoch, carrying that work. */
  lemma EpochRecordsAreTheWorkers(c: Caches, epoch: u64, current: u64, id: Address)
    requires EpochRewards(c, epoch, current).Ok?
    ensures var rewards := EpochRewards(c, epoch, current).value.rewardsByWorkLogId;
      (id in rewards <==> (id, epoch) in c.workByLogByEpoch) &&
      (id in rewards ==> rewards[id].work == c.workByLogByEpoch[(id, epoch)] && rewards[id].workLogId == id)
  {
    var work := EpochWork(c.workByLogByEpoch, epoch);
    if (id, epoch) in c.workByLogByEpoch {
      assert id in work;
    }
  }

  /** The capped total never exceeds the proportional total: exactly, and
      also for the wrapped totals whenever the proportional sum fits in 256
      bits. */
  lemma EpochCappedTotalBounded(c: Caches, epoch: u64, current: u64)
    requires EpochRewards(c, epoch, current).Ok?
    ensures var e := EpochRewards(c, epoch, current).value;
      CappedTotal(e.rewardsByWorkLogId) <= ProportionalTotal(e.rewardsByWorkLogId) &&
      (ProportionalTotal(e.rewardsByWorkLogId) < U256_LIMIT ==> e.totalCappedRewards <= e.totalProportionalRewards)
  {
    CappedTotalBounded(EpochRewards(c, epoch, current).value.rewardsByWorkLogId);
  }

  /** Records that never pay more than their proportional share have a
      capped total no larger than the proportional total. */
  lemma CappedTotalBounded(rewards: map<Address, WorkLogRewardInfo>)
    requires forall id :: id in rewards ==> rewards[id].cappedRewards <= rewards[id].proportionalRewards
    ensures CappedTotal(rewards) <= ProportionalTotal(rewards)
  {
    SumMapMono(rewards, CappedOf, ProportionalOf);
  }

  /** Without overflow the proportional reward is the floor of the exact
      share, and a work log with no more than the total work never gets more
      than the epoch's emissions. */
  lemma ProportionalIsFloorShare(work: u256, emissions: u256, totalWork: u256)
    requires totalWork > 0 && work * emissions < U256_LIMIT
    ensures ProportionalReward(work, emissions, totalWork) == (work * emissions) / totalWork
    ensures ProportionalReward(work, emissions, totalWork) * totalWork <= work * emissions
    ensures work <= totalWork ==> ProportionalReward(work, emissions, totalWork) <= emissions
  {
    WrappingMulExact(work, emissions);
    FloorMul(work * emissions, totalWork);
    if work <= totalWork {
      MulMono(work, totalWork, emissions);
      DivMono(work * emissions, totalWork * emissions, totalWork);
      MulDivCancel(emissions, totalWork);
    }
  }

  /** An epoch without work pays nothing to anyone. */
  lemma NoWorkNoRewards(c: Caches, epoch: u64, current: u64, id: Address)
    requires EpochRewards(c, epoch, current).Ok?
    requires EpochRewards(c, epoch, current).value.totalWork == 0
    requires id in EpochRewards(c, epoch, current).value.rewardsByWorkLogId
    ensures EpochRewards(c, epoch, current).value.rewardsByWorkLogId[id].cappedRewards == 0
  {
  }

  // ---------------------------------------------------------------------
  // All epochs
  // ---------------------------------------------------------------------

  /** A work log's totals over all epochs. */
  datatype WorkLogIdSummary = WorkLogIdSummary(
    workLogId: Address,
    totalWorkSubmitted: u256,
    totalActualRewards: u256,
    totalUncappedRewards: u256,
    epochsParticipated: nat)

  datatype PovwSummary = PovwSummary(
    totalEpochsWithWork: nat,
    totalUniqueWorkLogIds: nat,
    totalWorkAllTime: u256,
    totalEmissionsAllTime: u256,
    totalCappedRewardsAllTime: u256,
    totalUncappedRewardsAllTime: u256)

  datatype PovwRewardsResult = PovwRewardsResult(
    epochRewards: seq<EpochPovwRewards>,
    summaryByWorkLogId: map<Address, WorkLogIdSummary>,
    summary: PovwSummary)

  /** The per-epoch totals the summary adds up. */
  datatype EpochField = WorkField | EmissionsField | CappedField | ProportionalField

  function EpochValue(e: EpochPovwRewards, f: EpochField): u256
  {
    match f
    case WorkField => e.totalWork
    case EmissionsField => e.totalEmissions
    case CappedField => e.totalCappedRewards
    case ProportionalField => e.totalProportionalRewards
  }

  /** The per-record values a work log's summary adds up. */
  datatype RecordField = WorkSubmitted | ActualRewards | UncappedRewards

  function RecordValue(info: WorkLogRewardInfo, f: RecordField): u256
  {
    match f
    case WorkSubmitted => info.work
    case ActualRewards => info.cappedRewards
    case UncappedRewards => info.proportionalRewards
  }

  /** The number of epochs with some total work. */
  function EpochsWithWork(rs: seq<EpochPovwRewards>): nat
  {
    if rs == [] then 0 else EpochsWithWork(rs[..|rs| - 1]) + (if rs[|rs| - 1].totalWork > 0 then 1 else 0)
  }

  /** The exact sum of one per-epoch total over all epochs. */
  function AllTimeSum(rs: seq<EpochPovwRewards>, f: EpochField): nat
  {
    if rs == [] then 0 else AllTimeSum(rs[..|rs| - 1], f) + EpochValue(rs[|rs| - 1], f)
  }

  /** The exact sum of one record value of a work log over the epochs it
      has a record in. */
  function IdSum(rs: seq<EpochPovwRewards>, id: Address, f: RecordField): nat
  {
    if rs == [] then 0
    else
      var last := rs[|rs| - 1].rewardsByWorkLogId;
      IdSum(rs[..|rs| - 1], id, f) + (if id in last then RecordValue(last[id], f) else 0)
  }

  /** The epochs in which a work log has a record with positive work. */
  function Participations(rs: seq<EpochPovwRewards>, id: Address): nat
  {
    if rs == [] then 0
    else
      var last := rs[|rs| - 1].rewardsByWorkLogId;
      Participations(rs[..|rs| - 1], id) + (if id in last && last[id].work > 0 then 1 else 0)
  }

  /** Every work log with a record in some epoch. */
  function Participants(rs: seq<EpochPovwRewards>): set<Address>
  {
    if rs == [] then {} else Participants(rs[..|rs| - 1]) + rs[|rs| - 1].rewardsByWorkLogId.Keys
  }

  /** A work log's summary: wrapped sums of its records and its count of
      epochs with positive work. */
  function Aggregate(rs: seq<EpochPovwRewards>, id: Address): WorkLogIdSummary
  {
    WorkLogIdSummary(id, IdSum(rs, id, WorkSubmitted) % U256_LIMIT, IdSum(rs, id, ActualRewards) % U256_LIMIT,
                     IdSum(rs, id, UncappedRewards) % U256_LIMIT, Participations(rs, id))
  }

  function Aggregates(rs: seq<EpochPovwRewards>): map<Address, WorkLogIdSummary>
  {
    map id | id in Participants(rs) :: Aggregate(rs, id)
  }

  function Summary(rs: seq<EpochPovwRewards>): PovwSummary
  {
    PovwSummary(EpochsWithWork(rs), |Aggregates(rs)|,
                AllTimeSum(rs, WorkField) % U256_LIMIT, AllTimeSum(rs, EmissionsField) % U256_LIMIT,
                AllTimeSum(rs, CappedField) % U256_LIMIT, AllTimeSum(rs, ProportionalField) % U256_LIMIT)
  }

  /** A summary before any record of its work log. */
  function EmptySummary(id: Address): WorkLogIdSummary
  {
    WorkLogIdSummary(id, 0, 0, 0, 0)
  }

  /** Folding one epoch's record into a work log's summary. */
  function AddRecord(s: WorkLogIdSummary, info: WorkLogRewardInfo): WorkLogIdSummary
  {
    WorkLogIdSummary(s.workLogId, WrappingAdd(s.totalWorkSubmitted, info.work),
                     WrappingAdd(s.totalActualRewards, info.cappedRewards),
                     WrappingAdd(s.totalUncappedRewards, info.proportionalRewards),
                     s.epochsParticipated + (if info.work > 0 then 1 else 0))
  }

  lemma LastSplit(rs: seq<EpochPovwRewards>, e: EpochPovwRewards)
    ensures (rs + [e])[..|rs|] == rs && (rs + [e])[|rs|] == e
  {
  }

  /** A work log that has no record yet has an all-zero summary. */
  lemma {:induction false} NonParticipantIsEmpty(rs: seq<EpochPovwRewards>, id: Address)
    requires id !in Participants(rs)
    ensures Aggregate(rs, id) == EmptySummary(id)
    ensures IdSum(rs, id, WorkSubmitted) == 0 && IdSum(rs, id, ActualRewards) == 0 && IdSum(rs, id, UncappedRewards) == 0
    decreases |rs|
  {
    if rs != [] {
      NonParticipantIsEmpty(rs[..|rs| - 1], id);
    }
  }

  /** Appending an epoch adds its record to the summary of each work log
      that has one, and leaves every other summary as it was. */
  lemma AggregateAppend(rs: seq<EpochPovwRewards>, e: EpochPovwRewards, id: Address)
    ensures var rewards := e.rewardsByWorkLogId;
      var before := if id in Participants(rs) then Aggregate(rs, id) else EmptySummary(id);
      Aggregate(rs + [e], id) == if id in rewards then AddRecord(before, rewards[id]) else Aggregate(rs, id)
  {
    LastSplit(rs, e);
    var rewards := e.rewardsByWorkLogId;
    if id in rewards {
      if id !in Participants(rs) {
        NonParticipantIsEmpty(rs, id);
      }
      ModAddStep(IdSum(rs, id, WorkSubmitted), rewards[id].work);
      ModAddStep(IdSum(rs, id, ActualRewards), rewards[id].cappedRewards);
      ModAddStep(IdSum(rs, id, UncappedRewards), rewards[id].proportionalRewards);
    }
  }

  /** The summaries once the work logs in `done` have had this epoch's
      record folded in. */
  function PartlyAggregated(rs: seq<EpochPovwRewards>, e: EpochPovwRewards, done: set<Address>): map<Address, WorkLogIdSummary>
  {
    map id | id in Participants(rs) + done :: if id in done then Aggregate(rs + [e], id) else Aggregate(rs, id)
  }

  lemma PartlyAggregatedStart(rs: seq<EpochPovwRewards>, e: EpochPovwRewards)
    ensures PartlyAggregated(rs, e, {}) == Aggregates(rs)
  {
  }

  /** Folding in the record of one more work log. */
  lemma PartlyAggregatedStep(rs: seq<EpochPovwRewards>, e: EpochPovwRewards, done: set<Address>, id: Address)
    requires id in e.rewardsByWorkLogId && id !in done
    ensures var m := PartlyAggregated(rs, e, done);
      var entry := if id in m then m[id] else EmptySummary(id);
      PartlyAggregated(rs, e, done + {id}) == m[id := AddRecord(entry, e.rewardsByWorkLogId[id])]
  {
    AggregateAppend(rs, e, id);
    var m := PartlyAggregated(rs, e, done);
    assert id in m <==> id in Participants(rs);
  }

  /** Once every record is folded in, the summaries are those of the longer
      run. */
  lemma PartlyAggregatedEnd(rs: seq<EpochPovwRewards>, e: EpochPovwRewards)
    ensures PartlyAggregated(rs, e, e.rewardsByWorkLogId.Keys) == Aggregates(rs + [e])
  {
    LastSplit(rs, e);
    assert Participants(rs + [e]) == Participants(rs) + e.rewardsByWorkLogId.Keys;
    forall id | id in Participants(rs + [e])
      ensures PartlyAggregated(rs, e, e.rewardsByWorkLogId.Keys)[id] == Aggregate(rs + [e], id)
    {
      AggregateAppend(rs, e, id);
    }
  }

  /** The inner loop of `compute_povw_rewards`: fold one epoch's records into
      the per-work-log summaries, creating a summary on a work log's first
      record (`or_insert_with`). */
  method AggregateEpoch(aggregates: map<Address, WorkLogIdSummary>, ghost rs: seq<EpochPovwRewards>, e: EpochPovwRewards)
    returns (next: map<Address, WorkLogIdSummary>)
    requires aggregates == PartlyAggregated(rs, e, {})
    ensures next == PartlyAggregated(rs, e, e.rewardsByWorkLogId.Keys)
  {
    next := aggregates;
    var todo := e.rewardsByWorkLogId.Keys;
    while todo != {}
      invariant todo <= e.rewardsByWorkLogId.Keys
      invariant next == PartlyAggregated(rs, e, e.rewardsByWorkLogId.Keys - todo)
      decreases |todo|
    {
      var id :| id in todo;
      var info := e.rewardsByWorkLogId[id];
      var entry := if id in next then next[id] else EmptySummary(id);
      PartlyAggregatedStep(rs, e, e.rewardsByWorkLogId.Keys - todo, id);
      assert e.rewardsByWorkLogId.Keys - (todo - {id}) == (e.rewardsByWorkLogId.Keys - todo) + {id};
      next := next[id := AddRecord(entry, info)];
      todo := todo - {id};
    }
    assert e.rewardsByWorkLogId.Keys - todo == e.rewardsByWorkLogId.Keys;
  }

  /** The running statistics of `compute_povw_rewards`. */
  datatype Tally = Tally(
    epochsWithWork: nat,
    workAllTime: u256,
    emissionsAllTime: u256,
    cappedAllTime: u256,
    uncappedAllTime: u256,
    aggregates: map<Address, WorkLogIdSummary>)

  /** The statistics after the epochs `rs`. */
  function TallyOf(rs: seq<EpochPovwRewards>): Tally
  {
    Tally(EpochsWithWork(rs),
          AllTimeSum(rs, WorkField) % U256_LIMIT, AllTimeSum(rs, EmissionsField) % U256_LIMIT,
          AllTimeSum(rs, CappedField) % U256_LIMIT, AllTimeSum(rs, ProportionalField) % U256_LIMIT,
          Aggregates(rs))
  }

  /** One pass of the epoch loop after the epoch's rewards are known: count
      it if it has work, add its totals with wrap-around, and fold its
      records into the summaries. */
  method AddEpoch(t: Tally, ghost rs: seq<EpochPovwRewards>, e: EpochPovwRewards) returns (next: Tally)
    requires t == TallyOf(rs)
    ensures next == TallyOf(rs + [e])
  {
    var epochsWithWork := t.epochsWithWork;
    if e.totalWork > 0 {
      epochsWithWork := epochsWithWork + 1;
    }
    EpochsWithWorkAppend(rs, e);
    AllTimeSumAppend(rs, e, WorkField);
    AllTimeSumAppend(rs, e, EmissionsField);
    AllTimeSumAppend(rs, e, CappedField);
    AllTimeSumAppend(rs, e, ProportionalField);
    PartlyAggregatedStart(rs, e);
    var aggregates := AggregateEpoch(t.aggregates, rs, e);
    PartlyAggregatedEnd(rs, e);
    next := Tally(epochsWithWork,
                  WrappingAdd(t.workAllTime, e.totalWork), WrappingAdd(t.emissionsAllTime, e.totalEmissions),
                  WrappingAdd(t.cappedAllTime, e.totalCappedRewards), WrappingAdd(t.uncappedAllTime, e.totalProportionalRewards),
                  aggregates);
  }

  lemma EpochsWithWorkAppend(rs: seq<EpochPovwRewards>, e: EpochPovwRewards)
    ensures EpochsWithWork(rs + [e]) == EpochsWithWork(rs) + (if e.totalWork > 0 then 1 else 0)
  {
    LastSplit(rs, e);
  }

  /** Adding an epoch's total to the wrapped all-time sum wraps the exact
      sum. */
  lemma AllTimeSumAppend(rs: seq<EpochPovwRewards>, e: EpochPovwRewards, f: EpochField)
    ensures AllTimeSum(rs + [e], f) % U256_LIMIT == WrappingAdd(AllTimeSum(rs, f) % U256_LIMIT, EpochValue(e, f))
  {
    LastSplit(rs, e);
    ModAddStep(AllTimeSum(rs, f), EpochValue(e, f));
  }

  /** `rs` are the results of epochs `0..|rs|`, in order. */
  ghost predicate EpochsInOrder(c: Caches, current: u64, rs: seq<EpochPovwRewards>)
  {
    |rs| <= U64_LIMIT &&
    forall i :: 0 <= i < |rs| ==> EpochRewards(c, i, current) == Ok(rs[i]) && rs[i].epoch == i
  }

  /** Epoch `i <= end` is the first epoch that fails, with error `err`. */
  ghost predicate FirstFailure(c: Caches, current: u64, end: u64, err: PovwError)
  {
    exists i: u64 :: i <= end && EpochRewards(c, i, current) == Err(err) &&
      forall j: u64 :: j < i ==> EpochRewards(c, j, current).Ok?
  }

  lemma EpochsInOrderAppend(c: Caches, current: u64, rs: seq<EpochPovwRewards>, e: EpochPovwRewards)
    requires |rs| < U64_LIMIT
    requires EpochsInOrder(c, current, rs) && EpochRewards(c, |rs|, current) == Ok(e)
    ensures EpochsInOrder(c, current, rs + [e])
  {
    LastSplit(rs, e);
  }

  lemma FirstFailureHere(c: Caches, current: u64, end: u64, rs: seq<EpochPovwRewards>)
    requires |rs| <= end
    requires EpochsInOrder(c, current, rs) && EpochRewards(c, |rs|, current).Err?
    ensures FirstFailure(c, current, end, EpochRewards(c, |rs|, current).error)
  {
    var i: u64 := |rs|;
    forall j: u64 | j < i
      ensures EpochRewards(c, j, current).Ok?
    {
      assert EpochRewards(c, j, current) == Ok(rs[j]);
    }
  }

  /** `compute_povw_rewards`: the epochs `0..=end` in order, stopping at the
      first epoch that fails, with the summary statistics and per-work-log
      summaries accumulated along the way. */
  method ComputePovwRewards(c: Caches, current: u64, end: u64) returns (r: Result<PovwRewardsResult, PovwError>)
    ensures r.Err? ==> FirstFailure(c, current, end, r.error)
    ensures r.Ok? ==>
      var rs := r.value.epochRewards;
      |rs| == end + 1 && EpochsInOrder(c, current, rs) &&
      r.value.summaryByWorkLogId == Aggregates(rs) &&
      r.value.summary == Summary(rs)
  {
    var epochRewards: seq<EpochPovwRewards> := [];
    var tally := Tally(0, 0, 0, 0, 0, map[]);
    var epoch: nat := 0;
    while epoch <= end
      invariant epoch <= end + 1 && |epochRewards| == epoch
      invariant EpochsInOrder(c, current, epochRewards)
      invariant tally == TallyOf(epochRewards)
      decreases end + 1 - epoch
    {
      var result := ComputePovwRewardsForEpoch(c, epoch, current);
      if result.Err? {
        FirstFailureHere(c, current, end, epochRewards);
        return Err(result.error);
      }
      EpochsInOrderAppend(c, current, epochRewards, result.value);
      tally := AddEpoch(tally, epochRewards, result.value);
      epochRewards := epochRewards + [result.value];
      epoch := epoch + 1;
    }
    var summary := PovwSummary(tally.epochsWithWork, |tally.aggregates|, tally.workAllTime, tally.emissionsAllTime,
                               tally.cappedAllTime, tally.uncappedAllTime);
    return Ok(PovwRewardsResult(epochRewards, tally.aggregates, summary));
  }

  /** A run fails exactly when some epoch up to `end` fails. */
  lemma FailureIsSomeEpoch(c: Caches, current: u64, end: u64, err: PovwError)
    requires FirstFailure(c, current, end, err)
    ensures !(forall i: u64 :: i <= end ==> EpochRewards(c, i, current).Ok?)
  {
  }

  /** There is one per-work-log summary for each work log with a record in
      some epoch, and the summary count is the number of such work logs. */
  lemma {:induction false} SummariesAreTheParticipants(rs: seq<EpochPovwRewards>, id: Address)
    ensures id in Aggregates(rs) <==> exists i :: 0 <= i < |rs| && id in rs[i].rewardsByWorkLogId
    ensures Summary(rs).totalUniqueWorkLogIds == |Participants(rs)|
    decreases |rs|
  {
    assert Aggregates(rs).Keys == Participants(rs);
    if rs != [] {
      var init := rs[..|rs| - 1];
      SummariesAreTheParticipants(init, id);
      if id in Participants(init) {
        var i :| 0 <= i < |init| && id in init[i].rewardsByWorkLogId;
        assert rs[i] == init[i];
      }
      if exists i :: 0 <= i < |rs| && id in rs[i].rewardsByWorkLogId {
        var i :| 0 <= i < |rs| && id in rs[i].rewardsByWorkLogId;
        if i < |init| {
          assert init[i] == rs[i];
        }
      }
    }
  }

  /** A work log participates at most once per epoch, and only in epochs
      where it has a record with positive work. */
  lemma {:induction false} ParticipationsBounded(rs: seq<EpochPovwRewards>, id: Address)
    ensures Participations(rs, id) <= |rs|
    ensures Participations(rs, id) > 0 ==> exists i :: 0 <= i < |rs| && id in rs[i].rewardsByWorkLogId && rs[i].rewardsByWorkLogId[id].work > 0
    decreases |rs|
  {
    if rs != [] {
      var init := rs[..|rs| - 1];
      ParticipationsBounded(init, id);
      if Participations(init, id) > 0 {
        var i :| 0 <= i < |init| && id in init[i].rewardsByWorkLogId && init[i].rewardsByWorkLogId[id].work > 0;
        assert rs[i] == init[i];
      }
    }
  }

  /** The number of epochs with work never exceeds the number of epochs. */
  lemma {:induction false} EpochsWithWorkBounded(rs: seq<EpochPovwRewards>)
    ensures EpochsWithWork(rs) <= |rs|
    ensures EpochsWithWork(rs) == 0 <==> forall i :: 0 <= i < |rs| ==> rs[i].totalWork == 0
    decreases |rs|
  {
    if rs != [] {
      var init := rs[..|rs| - 1];
      EpochsWithWorkBounded(init);
      assert forall i :: 0 <= i < |init| ==> init[i] == rs[i];
    }
  }
}
