/** Voting and reward delegation power tracking (crates/rewards/src/powers.rs):
    delegation events are replayed in order over four maps, and the state is
    captured for every epoch at epoch boundaries and up to the processing end. */
module Powers {
  import opened Wrappers
  import opened Ints
  import opened Sorting

  datatype DelegationEvent =
    | VoteDelegationChange(delegator: Address, newDelegate: Address)
    | RewardDelegationChange(delegator: Address, newDelegate: Address)
    | VotePowerChange(delegate: Address, newVotes: u256)
    | RewardPowerChange(delegate: Address, newRewards: u256)

  datatype TimestampedDelegationEvent = TimestampedDelegationEvent(
    event: DelegationEvent,
    timestamp: u64,
    blockNumber: u64,
    transactionIndex: u64,
    logIndex: u64,
    epoch: u64)

  /** The delegator lists are collected from a hash map in no particular
      order; only their contents are modelled. */
  datatype DelegationPowers = DelegationPowers(
    votePower: u256,
    rewardPower: u256,
    voteDelegators: set<Address>,
    rewardDelegators: set<Address>)

  datatype EpochDelegationPowers = EpochDelegationPowers(
    epoch: u64,
    powers: map<Address, DelegationPowers>)

  /** The four maps the replay keeps current: powers by delegate, and
      delegate by delegator. */
  datatype Ledger = Ledger(
    votePowers: map<Address, u256>,
    rewardPowers: map<Address, u256>,
    voteDelegations: map<Address, Address>,
    rewardDelegations: map<Address, Address>)

  const EmptyLedger := Ledger(map[], map[], map[], map[])

  // ---------------------------------------------------------------------
  // Applying one event

  /** The effect of one event on the ledger. */
  function Apply(l: Ledger, e: DelegationEvent): Ledger
  {
    match e
    case VoteDelegationChange(delegator, newDelegate) =>
      l.(voteDelegations :=
           if delegator == newDelegate then l.voteDelegations - {delegator}
           else l.voteDelegations[delegator := newDelegate])
    case RewardDelegationChange(delegator, newDelegate) =>
      l.(rewardDelegations :=
           if delegator == newDelegate then l.rewardDelegations - {delegator}
           else l.rewardDelegations[delegator := newDelegate])
    case VotePowerChange(delegate, newVotes) =>
      l.(votePowers :=
           if newVotes > 0 then l.votePowers[delegate := newVotes]
           else l.votePowers - {delegate})
    case RewardPowerChange(delegate, newRewards) =>
      l.(rewardPowers :=
           if newRewards > 0 then l.rewardPowers[delegate := newRewards]
           else l.rewardPowers - {delegate})
  }

  /** A power that is absent counts as zero. */
  function PowerOf(m: map<Address, u256>, a: Address): u256
  {
    if a in m then m[a] else 0
  }

  /** A delegation change records the new delegate, or removes the entry when
      the delegator delegates to itself; no other delegator and no power
      changes. */
  lemma VoteDelegationEffect(l: Ledger, delegator: Address, newDelegate: Address)
    ensures var l' := Apply(l, VoteDelegationChange(delegator, newDelegate));
      (delegator in l'.voteDelegations <==> delegator != newDelegate)
      && (delegator in l'.voteDelegations ==> l'.voteDelegations[delegator] == newDelegate)
      && (forall x :: x != delegator ==>
            (x in l'.voteDelegations <==> x in l.voteDelegations)
            && (x in l.voteDelegations ==> l'.voteDelegations[x] == l.voteDelegations[x]))
      && l'.rewardDelegations == l.rewardDelegations
      && l'.votePowers == l.votePowers && l'.rewardPowers == l.rewardPowers
  {
  }

  lemma RewardDelegationEffect(l: Ledger, delegator: Address, newDelegate: Address)
    ensures var l' := Apply(l, RewardDelegationChange(delegator, newDelegate));
      (delegator in l'.rewardDelegations <==> delegator != newDelegate)
      && (delegator in l'.rewardDelegations ==> l'.rewardDelegations[delegator] == newDelegate)
      && (forall x :: x != delegator ==>
            (x in l'.rewardDelegations <==> x in l.rewardDelegations)
            && (x in l.rewardDelegations ==> l'.rewardDelegations[x] == l.rewardDelegations[x]))
      && l'.voteDelegations == l.voteDelegations
      && l'.votePowers == l.votePowers && l'.rewardPowers == l.rewardPowers
  {
  }

  /** A power change sets the delegate's power exactly; a change to zero
      removes the delegate; nothing else changes. */
  lemma PowerChangeEffect(l: Ledger, delegate: Address, newVotes: u256, newRewards: u256)
    ensures var v := Apply(l, VotePowerChange(delegate, newVotes));
      PowerOf(v.votePowers, delegate) == newVotes
      && (delegate in v.votePowers <==> newVotes > 0)
      && (forall x :: x != delegate ==> PowerOf(v.votePowers, x) == PowerOf(l.votePowers, x))
      && v.rewardPowers == l.rewardPowers
      && v.voteDelegations == l.voteDelegations && v.rewardDelegations == l.rewardDelegations
    ensures var w := Apply(l, RewardPowerChange(delegate, newRewards));
      PowerOf(w.rewardPowers, delegate) == newRewards
      && (delegate in w.rewardPowers <==> newRewards > 0)
      && (forall x :: x != delegate ==> PowerOf(w.rewardPowers, x) == PowerOf(l.rewardPowers, x))
      && w.votePowers == l.votePowers
      && w.voteDelegations == l.voteDelegations && w.rewardDelegations == l.rewardDelegations
  {
  }

  /** What every reachable ledger satisfies: nobody is recorded as delegating
      to itself, and every recorded power is positive. */
  ghost predicate WellFormed(l: Ledger)
  {
    (forall d :: d in l.voteDelegations ==> l.voteDelegations[d] != d)
    && (forall d :: d in l.rewardDelegations ==> l.rewardDelegations[d] != d)
    && (forall d :: d in l.votePowers ==> l.votePowers[d] > 0)
    && (forall d :: d in l.rewardPowers ==> l.rewardPowers[d] > 0)
  }

  lemma ApplyPreservesWellFormed(l: Ledger, e: DelegationEvent)
    requires WellFormed(l)
    ensures WellFormed(Apply(l, e))
  {
  }

  // ---------------------------------------------------------------------
  // Snapshots (build_epoch_delegation_powers)

  /** The delegators whose current delegate is `d`. */
  function DelegatorsOf(m: map<Address, Address>, d: Address): set<Address>
  {
    set x | x in m && m[x] == d
  }

  function Entry(l: Ledger, d: Address): DelegationPowers
  {
    DelegationPowers(
      PowerOf(l.votePowers, d), PowerOf(l.rewardPowers, d),
      DelegatorsOf(l.voteDelegations, d), DelegatorsOf(l.rewardDelegations, d))
  }

  /** The powers of every delegate that holds vote or reward power. */
  function Snapshot(l: Ledger): map<Address, DelegationPowers>
  {
    map d | d in l.votePowers.Keys + l.rewardPowers.Keys :: Entry(l, d)
  }

  method BuildEpochDelegationPowers(
    votePowers: map<Address, u256>,
    rewardPowers: map<Address, u256>,
    voteDelegations: map<Address, Address>,
    rewardDelegations: map<Address, Address>)
    returns (epochPowers: map<Address, DelegationPowers>)
    ensures epochPowers == Snapshot(Ledger(votePowers, rewardPowers, voteDelegations, rewardDelegations))
  {
    ghost var l := Ledger(votePowers, rewardPowers, voteDelegations, rewardDelegations);
    epochPowers := map[];
    var allDelegates := votePowers.Keys + rewardPowers.Keys;
    var todo := allDelegates;
    while todo != {}
      invariant todo <= allDelegates
      invariant epochPowers == map d | d in allDelegates - todo :: Entry(l, d)
      decreases todo
    {
      var delegate :| delegate in todo;
      var votePower := if delegate in votePowers then votePowers[delegate] else 0;
      var rewardPower := if delegate in rewardPowers then rewardPowers[delegate] else 0;
      var voteDelegators := set x | x in voteDelegations && voteDelegations[x] == delegate;
      var rewardDelegators := set x | x in rewardDelegations && rewardDelegations[x] == delegate;
      epochPowers := epochPowers[delegate := DelegationPowers(votePower, rewardPower, voteDelegators, rewardDelegators)];
      todo := todo - {delegate};
    }
  }

  /** Every listed delegate holds some power and is not among its own
      delegators. */
  ghost predicate ProperSnapshot(p: map<Address, DelegationPowers>)
  {
    forall d :: d in p ==>
      (p[d].votePower > 0 || p[d].rewardPower > 0)
      && d !in p[d].voteDelegators && d !in p[d].rewardDelegators
  }

  /** On a reachable ledger, an address is listed exactly when it holds vote or
      reward power (absent powers are zero), and its delegators are exactly
      those currently delegating to it. */
  lemma SnapshotOfWellFormed(l: Ledger)
    requires WellFormed(l)
    ensures ProperSnapshot(Snapshot(l))
    ensures forall d :: d in Snapshot(l) <==> PowerOf(l.votePowers, d) > 0 || PowerOf(l.rewardPowers, d) > 0
    ensures forall d, x :: d in Snapshot(l) ==>
      (x in Snapshot(l)[d].voteDelegators <==> x in l.voteDelegations && l.voteDelegations[x] == d)
      && (x in Snapshot(l)[d].rewardDelegators <==> x in l.rewardDelegations && l.rewardDelegations[x] == d)
  {
  }

  // ---------------------------------------------------------------------
  // The replay (compute_delegation_powers)

  datatype Replay = Replay(
    ledger: Ledger,
    states: map<u64, map<Address, DelegationPowers>>,
    last: Option<u64>)

  /** `states` with `snap` recorded for every epoch in lo..hi (none when
      hi <= lo). */
  function Fill(states: map<u64, map<Address, DelegationPowers>>, lo: nat, hi: nat,
                snap: map<Address, DelegationPowers>): map<u64, map<Address, DelegationPowers>>
    requires hi <= U64_LIMIT
    decreases hi
  {
    if hi <= lo then states else Fill(states, lo, hi - 1, snap)[hi - 1 := snap]
  }

  lemma {:induction false} FillContents(states: map<u64, map<Address, DelegationPowers>>, lo: nat, hi: nat,
                                        snap: map<Address, DelegationPowers>)
    requires hi <= U64_LIMIT
    ensures forall ep: u64 :: ep in Fill(states, lo, hi, snap) <==> ep in states || lo <= ep < hi
    ensures forall ep: u64 :: ep in Fill(states, lo, hi, snap) ==>
      Fill(states, lo, hi, snap)[ep] == if lo <= ep < hi then snap else states[ep]
    decreases hi
  {
    if hi > lo {
      FillContents(states, lo, hi - 1, snap);
    }
  }

  /** One event: capture the current state for the epochs it moves past, then
      apply it. */
  function Step(r: Replay, e: TimestampedDelegationEvent): Replay
  {
    var states :=
      if r.last.Some? && r.last.value != e.epoch then Fill(r.states, r.last.value, e.epoch, Snapshot(r.ledger))
      else r.states;
    Replay(Apply(r.ledger, e.event), states, Some(e.epoch))
  }

  /** The replay after the first `n` events. */
  function ReplayPrefix(events: seq<TimestampedDelegationEvent>, n: nat): Replay
    requires n <= |events|
  {
    if n == 0 then Replay(EmptyLedger, map[], None)
    else Step(ReplayPrefix(events, n - 1), events[n - 1])
  }

  /** The captured states once the final state has been recorded for the last
      event's epoch through `end`. */
  function FinalStates(events: seq<TimestampedDelegationEvent>, end: u64): map<u64, map<Address, DelegationPowers>>
  {
    var r := ReplayPrefix(events, |events|);
    if r.last.Some? then Fill(r.states, r.last.value, end + 1, Snapshot(r.ledger)) else r.states
  }

  /** The captured states as a list in ascending epoch order. */
  function Ascending(states: map<u64, map<Address, DelegationPowers>>): seq<EpochDelegationPowers>
  {
    var ks := AscendingKeys(states.Keys);
    seq(|ks|, i requires 0 <= i < |ks| =>
      assert ks[i] in ks; EpochDelegationPowers(ks[i], states[ks[i]]))
  }

  /** The list holds each captured epoch once, with its state, in strictly
      ascending epoch order. */
  lemma AscendingListing(states: map<u64, map<Address, DelegationPowers>>)
    ensures |Ascending(states)| == |states|
    ensures forall i, j :: 0 <= i < j < |Ascending(states)| ==> Ascending(states)[i].epoch < Ascending(states)[j].epoch
    ensures forall e :: e in Ascending(states) <==> e.epoch in states && e.powers == states[e.epoch]
  {
    var ks := AscendingKeys(states.Keys);
    var r := Ascending(states);
    AscendingFollowsKeys(states);
    forall e | e in r ensures e.epoch in states && e.powers == states[e.epoch] {
      var i :| 0 <= i < |r| && r[i] == e;
    }
    forall e: EpochDelegationPowers | e.epoch in states && e.powers == states[e.epoch] ensures e in r {
      assert e.epoch in ks;
      var i :| 0 <= i < |ks| && ks[i] == e.epoch;
      assert r[i] == e;
    }
  }

  lemma AscendingFollowsKeys(states: map<u64, map<Address, DelegationPowers>>)
    ensures var ks, r := AscendingKeys(states.Keys), Ascending(states);
      |r| == |ks| == |states|
      && forall i :: 0 <= i < |r| ==> ks[i] in states && r[i] == EpochDelegationPowers(ks[i], states[ks[i]])
  {
    var ks := AscendingKeys(states.Keys);
    assert |states.Keys| == |states|;
    forall i | 0 <= i < |ks| ensures ks[i] in states {
      assert ks[i] in ks;
    }
  }

  /** The delegation history the replay produces. */
  function DelegationHistory(events: seq<TimestampedDelegationEvent>, end: u64): seq<EpochDelegationPowers>
  {
    Ascending(FinalStates(events, end))
  }

  /** Records `snap` for the epochs lo..hi, building it afresh for each. */
  method CaptureEpochs(
    states: map<u64, map<Address, DelegationPowers>>, lo: u64, hi: nat,
    votePowers: map<Address, u256>,
    rewardPowers: map<Address, u256>,
    voteDelegations: map<Address, Address>,
    rewardDelegations: map<Address, Address>)
    returns (next: map<u64, map<Address, DelegationPowers>>)
    requires hi <= U64_LIMIT
    ensures next == Fill(states, lo, hi,
                         Snapshot(Ledger(votePowers, rewardPowers, voteDelegations, rewardDelegations)))
  {
    ghost var snap := Snapshot(Ledger(votePowers, rewardPowers, voteDelegations, rewardDelegations));
    next := states;
    var epoch: nat := lo;
    while epoch < hi
      invariant lo <= epoch && (epoch <= hi || epoch == lo)
      invariant next == Fill(states, lo, epoch, snap)
      decreases hi - epoch
    {
      var epochPowers := BuildEpochDelegationPowers(votePowers, rewardPowers, voteDelegations, rewardDelegations);
      next := next[epoch := epochPowers];
      epoch := epoch + 1;
    }
  }

  method ComputeDelegationPowers(
    timestampedEvents: seq<TimestampedDelegationEvent>, currentEpoch: u64, processingEndEpoch: u64)
    returns (r: Result<seq<EpochDelegationPowers>, string>)
    ensures r == Ok(DelegationHistory(timestampedEvents, processingEndEpoch))
  {
    var votePowers: map<Address, u256> := map[];
    var rewardPowers: map<Address, u256> := map[];
    var voteDelegations: map<Address, Address> := map[];
    var rewardDelegations: map<Address, Address> := map[];
    var epochStates: map<u64, map<Address, DelegationPowers>> := map[];
    var lastEpoch: Option<u64> := None;

    var i := 0;
    while i < |timestampedEvents|
      invariant i <= |timestampedEvents|
      invariant Replay(Ledger(votePowers, rewardPowers, voteDelegations, rewardDelegations), epochStates, lastEpoch)
             == ReplayPrefix(timestampedEvents, i)
    {
      var event := timestampedEvents[i];
      if lastEpoch.Some? && lastEpoch.value != event.epoch {
        epochStates := CaptureEpochs(epochStates, lastEpoch.value, event.epoch,
                                     votePowers, rewardPowers, voteDelegations, rewardDelegations);
      }
      match event.event {
        case VoteDelegationChange(delegator, newDelegate) =>
          if delegator == newDelegate {
            voteDelegations := voteDelegations - {delegator};
          } else {
            voteDelegations := voteDelegations[delegator := newDelegate];
          }
        case RewardDelegationChange(delegator, newDelegate) =>
          if delegator == newDelegate {
            rewardDelegations := rewardDelegations - {delegator};
          } else {
            rewardDelegations := rewardDelegations[delegator := newDelegate];
          }
        case VotePowerChange(delegate, newVotes) =>
          if newVotes > 0 {
            votePowers := votePowers[delegate := newVotes];
          } else {
            votePowers := votePowers - {delegate};
          }
        case RewardPowerChange(delegate, newRewards) =>
          if newRewards > 0 {
            rewardPowers := rewardPowers[delegate := newRewards];
          } else {
            rewardPowers := rewardPowers - {delegate};
          }
      }
      lastEpoch := Some(event.epoch);
      i := i + 1;
    }

    if lastEpoch.Some? {
      epochStates := CaptureEpochs(epochStates, lastEpoch.value, processingEndEpoch + 1,
                                   votePowers, rewardPowers, voteDelegations, rewardDelegations);
    }
    r := Ok(Ascending(epochStates));
  }

  // ---------------------------------------------------------------------
  // Properties of the history

  /** No events, no history. */
  lemma NoEventsNoHistory(end: u64)
    ensures DelegationHistory([], end) == []
  {
  }

  /** Every ledger the replay goes through is well formed, and so is every
      snapshot it captures. */
  lemma {:induction false} ReplayStaysProper(events: seq<TimestampedDelegationEvent>, n: nat)
    requires n <= |events|
    ensures WellFormed(ReplayPrefix(events, n).ledger)
    ensures forall ep :: ep in ReplayPrefix(events, n).states ==> ProperSnapshot(ReplayPrefix(events, n).states[ep])
  {
    if n > 0 {
      ReplayStaysProper(events, n - 1);
      var r := ReplayPrefix(events, n - 1);
      SnapshotOfWellFormed(r.ledger);
      ApplyPreservesWellFormed(r.ledger, events[n - 1].event);
      if r.last.Some? {
        FillContents(r.states, r.last.value, events[n - 1].epoch, Snapshot(r.ledger));
      }
    }
  }

  /** In every captured epoch, each listed delegate holds power and no
      delegator is listed under itself. */
  lemma HistoryIsProper(events: seq<TimestampedDelegationEvent>, end: u64)
    ensures forall e :: e in DelegationHistory(events, end) ==> ProperSnapshot(e.powers)
  {
    ReplayStaysProper(events, |events|);
    var r := ReplayPrefix(events, |events|);
    var snap := Snapshot(r.ledger);
    SnapshotOfWellFormed(r.ledger);
    var fs := FinalStates(events, end);
    if r.last.Some? {
      FillContents(r.states, r.last.value, end + 1, snap);
      assert fs == Fill(r.states, r.last.value, end + 1, snap);
    }
    assert forall ep :: ep in fs ==> ProperSnapshot(fs[ep]);
    AscendingListing(fs);
  }

  ghost predicate EpochsNonDecreasing(events: seq<TimestampedDelegationEvent>)
  {
    forall i, j :: 0 <= i < j < |events| ==> events[i].epoch <= events[j].epoch
  }

  /** With non-decreasing epochs, the replayed prefix has captured exactly the
      epochs from the first event's up to (not including) the latest. */
  lemma {:induction false} ReplayedEpochs(events: seq<TimestampedDelegationEvent>, n: nat)
    requires EpochsNonDecreasing(events)
    requires 0 < n <= |events|
    ensures ReplayPrefix(events, n).last == Some(events[n - 1].epoch)
    ensures forall ep: u64 :: ep in ReplayPrefix(events, n).states <==> events[0].epoch <= ep < events[n - 1].epoch
  {
    if n > 1 {
      ReplayedEpochs(events, n - 1);
      assert events[0].epoch <= events[n - 2].epoch <= events[n - 1].epoch;
      var r := ReplayPrefix(events, n - 1);
      FillContents(r.states, r.last.value, events[n - 1].epoch, Snapshot(r.ledger));
    }
  }

  /** Captured states covering exactly the epochs `lo` through `hi` list one
      entry per epoch, in order. */
  lemma IntervalStates(fs: map<u64, map<Address, DelegationPowers>>, lo: nat, hi: nat)
    requires lo <= hi
    requires forall x: nat :: x in fs.Keys <==> lo <= x <= hi
    ensures |Ascending(fs)| == hi - lo + 1
    ensures forall i :: 0 <= i < |Ascending(fs)| ==> Ascending(fs)[i].epoch == lo + i
  {
    var ks := AscendingKeys(fs.Keys);
    IntervalListing(ks, lo, hi);
  }

  /** With non-decreasing epochs ending at or before `end`, the final states
      cover exactly the epochs from the first event's through `end`. */
  lemma FinalEpochs(events: seq<TimestampedDelegationEvent>, end: u64)
    requires events != [] && EpochsNonDecreasing(events)
    requires events[|events| - 1].epoch <= end
    ensures forall x: nat :: x in FinalStates(events, end).Keys <==> events[0].epoch <= x <= end
  {
    ReplayedEpochs(events, |events|);
    var r := ReplayPrefix(events, |events|);
    assert FinalStates(events, end) == Fill(r.states, r.last.value, end + 1, Snapshot(r.ledger));
    FillContents(r.states, r.last.value, end + 1, Snapshot(r.ledger));
  }

  /** With non-decreasing epochs ending at or before `end`, the history lists
      every epoch from the first event's through `end`, once each, in order. */
  lemma HistoryCoversEpochs(events: seq<TimestampedDelegationEvent>, end: u64)
    requires events != [] && EpochsNonDecreasing(events)
    requires events[|events| - 1].epoch <= end
    ensures var h := DelegationHistory(events, end);
      |h| == end - events[0].epoch + 1
      && forall i :: 0 <= i < |h| ==> h[i].epoch == events[0].epoch + i
  {
    assert events[0].epoch <= events[|events| - 1].epoch;
    FinalEpochs(events, end);
    IntervalStates(FinalStates(events, end), events[0].epoch, end);
  }

  /** The snapshot captured at index `i` of a boundary survives the rest of the
      replay: later captures only cover later epochs. */
  lemma {:induction false} CapturedSnapshotStays(events: seq<TimestampedDelegationEvent>, i: nat, ep: u64, n: nat)
    requires EpochsNonDecreasing(events)
    requires 0 < i < n <= |events|
    requires events[i - 1].epoch <= ep < events[i].epoch
    ensures ep in ReplayPrefix(events, n).states
    ensures ReplayPrefix(events, n).states[ep] == Snapshot(ReplayPrefix(events, i).ledger)
  {
    var r := ReplayPrefix(events, n - 1);
    if n == i + 1 {
      ReplayedEpochs(events, i);
      FillContents(r.states, r.last.value, events[i].epoch, Snapshot(r.ledger));
    } else {
      CapturedSnapshotStays(events, i, ep, n - 1);
      ReplayedEpochs(events, n - 1);
      assert events[i].epoch <= events[n - 2].epoch;
      FillContents(r.states, r.last.value, events[n - 1].epoch, Snapshot(r.ledger));
    }
  }

  /** The final states keep, for an epoch before a boundary, the snapshot
      taken before the first event of the next epoch was applied. */
  lemma FinalStatesBeforeBoundary(events: seq<TimestampedDelegationEvent>, end: u64, i: nat, ep: u64)
    requires EpochsNonDecreasing(events)
    requires 0 < i < |events|
    requires events[i - 1].epoch <= ep < events[i].epoch
    ensures ep in FinalStates(events, end)
    ensures FinalStates(events, end)[ep] == Snapshot(ReplayPrefix(events, i).ledger)
  {
    CapturedSnapshotStays(events, i, ep, |events|);
    ReplayedEpochs(events, |events|);
    assert events[i].epoch <= events[|events| - 1].epoch;
    var r := ReplayPrefix(events, |events|);
    var snap := Snapshot(r.ledger);
    FillContents(r.states, r.last.value, end + 1, snap);
    assert FinalStates(events, end) == Fill(r.states, r.last.value, end + 1, snap);
  }

  /** An epoch before a boundary shows the state before the first event of the
      next epoch was applied. */
  lemma SnapshotBeforeBoundary(events: seq<TimestampedDelegationEvent>, end: u64, i: nat, ep: u64)
    requires EpochsNonDecreasing(events)
    requires 0 < i < |events|
    requires events[i - 1].epoch <= ep < events[i].epoch
    ensures EpochDelegationPowers(ep, Snapshot(ReplayPrefix(events, i).ledger)) in DelegationHistory(events, end)
  {
    FinalStatesBeforeBoundary(events, end, i, ep);
    AscendingListing(FinalStates(events, end));
  }

  /** From the last event's epoch through `end`, the history shows the final
      state. */
  lemma SnapshotAfterLastEvent(events: seq<TimestampedDelegationEvent>, end: u64, ep: u64)
    requires events != []
    requires events[|events| - 1].epoch <= ep <= end
    ensures EpochDelegationPowers(ep, Snapshot(ReplayPrefix(events, |events|).ledger)) in DelegationHistory(events, end)
  {
    var r := ReplayPrefix(events, |events|);
    var snap := Snapshot(r.ledger);
    assert r.last == Some(events[|events| - 1].epoch);
    FillContents(r.states, r.last.value, end + 1, snap);
    var fs := FinalStates(events, end);
    assert fs == Fill(r.states, r.last.value, end + 1, snap);
    assert ep in fs && fs[ep] == snap;
    AscendingListing(fs);
  }
}
