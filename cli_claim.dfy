/** `boundless povw claim`: find the block range to search, collect the
    `WorkLogUpdated` events linking the commit the mint contract holds for a
    work log to the one the accounting contract holds, drop updates of
    epochs that are not finalized, and collect the `EpochFinalized` events of
    the remaining epochs. Chain reads are total functions or `Option`s given
    as parameters; building the mint-calculator input, proving and sending
    the mint transaction are not modelled. */
module CliClaim {
  import opened Wrappers
  import opened Ints
  import opened MintGuest

  const HOUR: nat := 3600
  const DAY: nat := 24 * HOUR
  const DEFAULT_DAYS: nat := 30
  const DEFAULT_EVENT_QUERY_CHUNK_SIZE: nat := 10000
  const LINEAR_SEARCH_CHUNK_SIZE: nat := 100000

  datatype ClaimError =
    | BlockUnavailable(block: nat)
    | ReachedLowerLimit(lowerLimit: nat)
    | QueryFailed(from: nat, to: nat)
    | LogWithoutBlockNumber
    | MissingUpdate(commit: Commit)
    | NoFinalizedUpdates

  /** The timestamp, in seconds, of each block's header; `None` when the block
      cannot be fetched or does not exist. */
  type BlockTimestamps = nat -> Option<nat>

  // ---------------------------------------------------------------------------
  // `block_number_near_timestamp`
  // ---------------------------------------------------------------------------

  /** Every block up to `latest` has a header. */
  ghost predicate Available(header: BlockTimestamps, latest: nat)
  {
    forall b :: 0 <= b <= latest ==> header(b).Some?
  }

  /** Block timestamps never decrease up to `latest`. */
  ghost predicate Monotone(header: BlockTimestamps, latest: nat)
  {
    forall a, b :: 0 <= a <= b <= latest && header(a).Some? && header(b).Some? ==>
      header(a).value <= header(b).value
  }

  /** Every block after `block`, up to `latest`, is later than `target`. */
  ghost predicate AllLaterAfter(header: BlockTimestamps, target: int, block: nat, latest: nat)
  {
    forall b :: block < b <= latest ==> header(b).Some? && header(b).value > target
  }

  /** `block` is the last block up to `latest` not later than `target`. */
  ghost predicate LastNotLater(header: BlockTimestamps, target: int, block: nat, latest: nat)
  {
    block <= latest && header(block).Some? && header(block).value <= target
    && AllLaterAfter(header, target, block, latest)
  }

  /** `block` is an acceptable answer: not later than the target, and either
      the last such block or, with `approx`, within `approx` seconds below the
      target. */
  ghost predicate Near(header: BlockTimestamps, target: int, approx: Option<nat>, block: nat, latest: nat)
  {
    block <= latest && header(block).Some? && header(block).value <= target
    && (LastNotLater(header, target, block, latest)
        || (approx.Some? && header(block).value >= target - approx.value))
  }

  /** How the linear phase ends: at a probe not later than the target, or by
      giving up at block 0. */
  datatype LinearEnd = Below(probe: nat) | Genesis

  /** The linear phase as written: step back a chunk at a time from `probe`,
      and give up with block 0 as soon as the step saturates to 0, before
      looking at block 0 or at the blocks between 0 and the last probe. */
  function LinearPhaseAsWritten(header: BlockTimestamps, target: int, probe: nat): (r: Result<LinearEnd, ClaimError>)
    ensures r.Ok? && r.value.Below? ==>
              r.value.probe <= probe && header(r.value.probe).Some? && header(r.value.probe).value <= target
    decreases probe
  {
    match header(probe)
    case None => Err(BlockUnavailable(probe))
    case Some(ts) =>
      if ts <= target then Ok(Below(probe))
      else
        var next := SaturatingSub(probe, LINEAR_SEARCH_CHUNK_SIZE);
        if next == 0 then Ok(Genesis) else LinearPhaseAsWritten(header, target, next)
  }

  /** The linear phase as intended: block 0 is the answer only when block 0
      itself is later than the target. */
  function LinearPhase(header: BlockTimestamps, target: int, probe: nat): (r: Result<LinearEnd, ClaimError>)
    ensures r.Ok? && r.value.Below? ==>
              r.value.probe <= probe && header(r.value.probe).Some? && header(r.value.probe).value <= target
    decreases probe
  {
    match header(probe)
    case None => Err(BlockUnavailable(probe))
    case Some(ts) =>
      if ts <= target then Ok(Below(probe))
      else if probe == 0 then Ok(Genesis)
      else LinearPhase(header, target, SaturatingSub(probe, LINEAR_SEARCH_CHUNK_SIZE))
  }

  /** `(low + high).div_ceil(2)`: a midpoint above `low`. */
  function CeilMid(low: nat, high: nat): (mid: nat)
    requires low < high
    ensures low < mid <= high
  {
    (low + high + 1) / 2
  }

  /** The binary phase over `[low, high]`: `low` is never later than the
      target; with `approx`, the search stops at the first midpoint within
      `approx` seconds below the target. */
  function BinaryPhase(header: BlockTimestamps, target: int, approx: Option<nat>, low: nat, high: nat)
    : (r: Result<nat, ClaimError>)
    ensures r.Ok? && low <= high ==>
              low <= r.value <= high
              && (r.value == low || (header(r.value).Some? && header(r.value).value <= target))
    decreases high - low
  {
    if low >= high then Ok(low)
    else
      var mid := CeilMid(low, high);
      match header(mid)
      case None => Err(BlockUnavailable(mid))
      case Some(ts) =>
        if ts <= target then
          if approx.Some? && ts >= target - approx.value then Ok(mid)
          else BinaryPhase(header, target, approx, mid, high)
        else BinaryPhase(header, target, approx, low, mid - 1)
  }

  /** `block_number_near_timestamp` as written. */
  function NearTimestampAsWritten(header: BlockTimestamps, latest: nat, target: int, approx: Option<nat>)
    : Result<nat, ClaimError>
  {
    match LinearPhaseAsWritten(header, target, latest)
    case Err(e) => Err(e)
    case Ok(Genesis) => Ok(0)
    case Ok(Below(probe)) =>
      BinaryPhase(header, target, approx, probe, Min(probe + LINEAR_SEARCH_CHUNK_SIZE, latest))
  }

  /** `block_number_near_timestamp` as intended. */
  function NearTimestamp(header: BlockTimestamps, latest: nat, target: int, approx: Option<nat>)
    : Result<nat, ClaimError>
  {
    match LinearPhase(header, target, latest)
    case Err(e) => Err(e)
    case Ok(Genesis) => Ok(0)
    case Ok(Below(probe)) =>
      BinaryPhase(header, target, approx, probe, Min(probe + LINEAR_SEARCH_CHUNK_SIZE, latest))
  }

  /** As written, the search answers 0 or a block not later than the target. */
  lemma AsWrittenNotLater(header: BlockTimestamps, latest: nat, target: int, approx: Option<nat>)
    ensures var r := NearTimestampAsWritten(header, latest, target, approx);
            r.Ok? ==> r.value <= latest && (r.value == 0 || (header(r.value).Some? && header(r.value).value <= target))
  {
    var linear := LinearPhaseAsWritten(header, target, latest);
    if linear.Ok? && linear.value.Below? {
      var probe := linear.value.probe;
      var r := BinaryPhase(header, target, approx, probe, Min(probe + LINEAR_SEARCH_CHUNK_SIZE, latest));
      assert r.Ok? ==> r.value == probe || (header(r.value).Some? && header(r.value).value <= target);
    }
  }

  /** With timestamps 0, 1, 2, … and a target of 40000 seconds, the probes
      go 150000, 50000 and then saturate to 0, so the search as written
      answers block 0 although block 40000 is the last block not later than
      the target. */
  lemma NearTimestampGivesUpEarly()
    ensures var header: BlockTimestamps := b => Some(b);
            NearTimestampAsWritten(header, 150000, 40000, None) == Ok(0)
            && LastNotLater(header, 40000, 40000, 150000)
  {
    var header: BlockTimestamps := b => Some(b);
    assert LinearPhaseAsWritten(header, 40000, 50000) == Ok(Genesis);
    assert LinearPhaseAsWritten(header, 40000, 150000) == Ok(Genesis);
  }

  /** On the same chain the intended search answers block 40000. */
  lemma NearTimestampExample()
    ensures NearTimestamp(b => Some(b), 150000, 40000, None) == Ok(40000)
  {
    var header: BlockTimestamps := b => Some(b);
    assert Available(header, 150000) && Monotone(header, 150000);
    NearTimestampFinds(header, 150000, 40000, None);
    var r := NearTimestamp(header, 150000, 40000, None);
    assert LastNotLater(header, 40000, r.value, 150000);
    assert header(40000).value <= 40000;
  }

  /** With non-decreasing timestamps, the blocks up to `latest` not later
      than the target are exactly those below a cut `c`. */
  ghost predicate CutAt(header: BlockTimestamps, target: int, c: nat, latest: nat)
  {
    c <= latest + 1
    && forall b :: 0 <= b <= latest ==> header(b).Some? && (header(b).value <= target <==> b < c)
  }

  /** The first block from `b` on that is later than the target, or
      `latest + 1`. */
  ghost function FirstLater(header: BlockTimestamps, target: int, b: nat, latest: nat): (c: nat)
    requires Available(header, latest)
    ensures b <= c <= latest + 1 || (b > latest && c == b)
    ensures forall x :: b <= x < c && x <= latest ==> header(x).value <= target
    ensures c <= latest ==> header(c).value > target
    decreases latest + 1 - b
  {
    if b > latest || header(b).value > target then b
    else FirstLater(header, target, b + 1, latest)
  }

  lemma MonotoneCut(header: BlockTimestamps, target: int, latest: nat)
    requires Available(header, latest) && Monotone(header, latest)
    ensures CutAt(header, target, FirstLater(header, target, 0, latest), latest)
  {
    var c := FirstLater(header, target, 0, latest);
    forall b | 0 <= b <= latest ensures header(b).value <= target <==> b < c {
      if b >= c {
        assert header(c).value <= header(b).value;
      }
    }
  }

  /** The binary phase keeps its invariant: `low` is below the cut and
      `high` is at or above the block before it. It ends at the block before
      the cut, or, with `approx`, possibly earlier at a block within `approx`
      seconds below the target. */
  lemma {:induction false} BinaryPhaseFinds(header: BlockTimestamps, target: int, approx: Option<nat>,
                                            low: nat, high: nat, latest: nat, c: nat)
    requires CutAt(header, target, c, latest)
    requires low < c <= high + 1 && high <= latest
    ensures var r := BinaryPhase(header, target, approx, low, high);
            r.Ok? && low <= r.value < c
            && (r.value == c - 1 || (approx.Some? && header(r.value).value >= target - approx.value))
    decreases high - low
  {
    var r := BinaryPhase(header, target, approx, low, high);
    if low == high {
      assert r == Ok(low) && low == c - 1;
    } else {
      var mid := CeilMid(low, high);
      var ts := header(mid).value;
      if ts <= target {
        assert mid < c;
        if approx.Some? && ts >= target - approx.value {
          assert r == Ok(mid);
        } else {
          assert r == BinaryPhase(header, target, approx, mid, high);
          BinaryPhaseFinds(header, target, approx, mid, high, latest, c);
        }
      } else {
        assert c <= mid;
        assert r == BinaryPhase(header, target, approx, low, mid - 1);
        BinaryPhaseFinds(header, target, approx, low, mid - 1, latest, c);
      }
    }
  }

  /** The intended linear phase, from a probe whose chunk reaches the cut,
      ends at a probe below the cut whose chunk reaches it, or at block 0
      when the cut is 0, that is, when every block is later. */
  lemma {:induction false} LinearPhaseFinds(header: BlockTimestamps, target: int, probe: nat, latest: nat, c: nat)
    requires CutAt(header, target, c, latest)
    requires probe <= latest && c <= Min(probe + LINEAR_SEARCH_CHUNK_SIZE, latest) + 1
    ensures var r := LinearPhase(header, target, probe);
            r.Ok?
            && (r.value.Below? ==>
                  r.value.probe < c && c <= Min(r.value.probe + LINEAR_SEARCH_CHUNK_SIZE, latest) + 1)
            && (r.value.Genesis? ==> c == 0)
    decreases probe
  {
    if header(probe).value > target && probe != 0 {
      LinearPhaseFinds(header, target, SaturatingSub(probe, LINEAR_SEARCH_CHUNK_SIZE), latest, c);
    }
  }

  /** With a header for every block and non-decreasing timestamps, the
      intended search answers: either block 0 when every block is later than
      the target, or a block not later than it, which without `approx` is the
      last such block and with `approx` is that or a block within `approx`
      seconds below the target. */
  lemma NearTimestampFinds(header: BlockTimestamps, latest: nat, target: int, approx: Option<nat>)
    requires Available(header, latest) && Monotone(header, latest)
    ensures var r := NearTimestamp(header, latest, target, approx);
            r.Ok?
            && ((r.value == 0 && AllLaterAfter(header, target, 0, latest) && header(0).value > target)
                || Near(header, target, approx, r.value, latest))
  {
    var linear := LinearPhase(header, target, latest);
    var r := NearTimestamp(header, latest, target, approx);
    var c := FirstLater(header, target, 0, latest);
    if linear.Ok? && linear.value.Below? {
      var probe := linear.value.probe;
      var high := Min(probe + LINEAR_SEARCH_CHUNK_SIZE, latest);
      assert r == BinaryPhase(header, target, approx, probe, high);
      MonotoneCut(header, target, latest);
      LinearPhaseFinds(header, target, latest, latest, c);
      BinaryPhaseFinds(header, target, approx, probe, high, latest, c);
      if r.value == c - 1 {
        assert LastNotLater(header, target, r.value, latest);
      }
    } else {
      assert linear.Err? || r == Ok(0);
      MonotoneCut(header, target, latest);
      LinearPhaseFinds(header, target, latest, latest, c);
    }
  }

  /** The loop of the binary phase. */
  method BinarySearch(header: BlockTimestamps, target: int, approx: Option<nat>, low0: nat, high0: nat)
    returns (r: Result<nat, ClaimError>)
    ensures r == BinaryPhase(header, target, approx, low0, high0)
  {
    var low, high := low0, high0;
    while low < high
      invariant BinaryPhase(header, target, approx, low, high) == BinaryPhase(header, target, approx, low0, high0)
      decreases high as int - low
    {
      var mid := CeilMid(low, high);
      var block := header(mid);
      if block.None? {
        return Err(BlockUnavailable(mid));
      }
      if block.value <= target {
        low := mid;
        if approx.Some? && block.value >= target - approx.value {
          break;
        }
      } else {
        assert low < mid;
        high := mid - 1;
      }
    }
    return Ok(low);
  }

  /** `block_number_near_timestamp` as written. */
  method BlockNumberNearTimestampAsWritten(header: BlockTimestamps, latest: u64, target: int, approx: Option<nat>)
    returns (r: Result<nat, ClaimError>)
    ensures r == NearTimestampAsWritten(header, latest, target, approx)
  {
    var probe: nat := latest;
    while true
      invariant probe <= latest
      invariant LinearPhaseAsWritten(header, target, probe) == LinearPhaseAsWritten(header, target, latest)
      decreases probe
    {
      var block := header(probe);
      if block.None? {
        return Err(BlockUnavailable(probe));
      }
      if block.value <= target {
        break;
      }
      probe := SaturatingSub(probe, LINEAR_SEARCH_CHUNK_SIZE);
      if probe == 0 {
        return Ok(0);
      }
    }
    r := BinarySearch(header, target, approx, probe, Min(probe + LINEAR_SEARCH_CHUNK_SIZE, latest));
  }

  /** `block_number_near_timestamp` with block 0 looked at before it is
      given as the answer. */
  method BlockNumberNearTimestamp(header: BlockTimestamps, latest: u64, target: int, approx: Option<nat>)
    returns (r: Result<nat, ClaimError>)
    ensures r == NearTimestamp(header, latest, target, approx)
  {
    var probe: nat := latest;
    while true
      invariant probe <= latest
      invariant LinearPhase(header, target, probe) == LinearPhase(header, target, latest)
      decreases probe
    {
      var block := header(probe);
      if block.None? {
        return Err(BlockUnavailable(probe));
      }
      if block.value <= target {
        break;
      }
      if probe == 0 {
        return Ok(0);
      }
      probe := SaturatingSub(probe, LINEAR_SEARCH_CHUNK_SIZE);
    }
    r := BinarySearch(header, target, approx, probe, Min(probe + LINEAR_SEARCH_CHUNK_SIZE, latest));
  }

  // ---------------------------------------------------------------------------
  // `search_events`
  // ---------------------------------------------------------------------------

  /** An inclusive block range queried for events. */
  datatype Window = Window(from: nat, to: nat)

  /** How a scan ends without error: the predicate asked to stop, or the
      scan came down to block 0. */
  datatype ScanEnd = Halted | ReachedGenesis

  /** The windows go down from `upper` without gaps or overlaps, each at most
      `chunk` blocks wide and none reaching below `lower`. */
  ghost predicate Windows(ws: seq<Window>, lower: nat, upper: nat, chunk: nat)
  {
    (ws != [] ==> ws[0].to == upper)
    && (forall k :: 0 <= k < |ws| ==> lower <= ws[k].from <= ws[k].to && ws[k].to - ws[k].from < chunk)
    && (forall k :: 0 < k < |ws| ==> ws[k].to + 1 == ws[k - 1].from)
  }

  /** The window below `upper`: `chunk` blocks down to `upper - chunk + 1`,
      cut off at `lower`. */
  function WindowBelow(upper: nat, lower: nat, chunk: nat): (w: Window)
    requires 0 < chunk && 0 < upper && lower <= upper
    ensures lower <= w.from <= w.to == upper && w.to - w.from < chunk && w.from >= 1
  {
    var from := SaturatingSub(upper, chunk) + 1;
    Window(if from < lower then lower else from, upper)
  }

  /** The scan from `upper` down, as the loop of `search_events` performs
      it: the result of the predicate's state-threading, and the windows
      queried. The predicate `f` takes its state and a window's logs to its
      new state and whether to go on, or to `None` when a log has no block
      number. */
  function Scan<E, S>(query: (nat, nat) -> Option<seq<E>>, f: (S, seq<E>) -> Option<(S, bool)>,
                      state: S, lower: nat, upper: nat, chunk: nat)
    : (Result<(S, ScanEnd), ClaimError>, seq<Window>)
    requires chunk > 0
    decreases upper
  {
    if upper == 0 then (Ok((state, ReachedGenesis)), [])
    else if upper < lower then (Err(ReachedLowerLimit(lower)), [])
    else
      var w := WindowBelow(upper, lower, chunk);
      match query(w.from, w.to)
      case None => (Err(QueryFailed(w.from, w.to)), [w])
      case Some(logs) =>
        match f(state, logs)
        case None => (Err(LogWithoutBlockNumber), [w])
        case Some((next, more)) =>
          if !more then (Ok((next, Halted)), [w])
          else
            var rest := Scan(query, f, next, lower, w.from - 1, chunk);
            (rest.0, [w] + rest.1)
  }

  /** The windows of a scan, and how it ended: it fails with the lower limit
      only once the windows have covered everything down to `lower`, and it
      reaches block 0 only once they have covered everything down to block 1. */
  ghost predicate ScanShape<S>(r: Result<(S, ScanEnd), ClaimError>, ws: seq<Window>, lower: nat, upper: nat, chunk: nat)
  {
    Windows(ws, lower, upper, chunk)
    && (r == Err(ReachedLowerLimit(lower)) ==>
          upper > 0 && (if ws == [] then upper < lower else ws[|ws| - 1].from == lower))
    && (r.Ok? && r.value.1 == ReachedGenesis ==>
          if ws == [] then upper == 0 else ws[|ws| - 1].from == 1)
  }

  lemma ScanShapeCons<S>(r: Result<(S, ScanEnd), ClaimError>, w: Window, ws: seq<Window>,
                         lower: nat, upper: nat, chunk: nat)
    requires 0 < chunk && 0 < upper && lower <= upper && w == WindowBelow(upper, lower, chunk)
    requires ScanShape(r, ws, lower, w.from - 1, chunk)
    ensures ScanShape(r, [w] + ws, lower, upper, chunk)
  {
    var all := [w] + ws;
    assert forall k :: 0 < k < |all| ==> all[k] == ws[k - 1];
    if ws != [] {
      assert all[|all| - 1] == ws[|ws| - 1];
    }
  }

  /** The scan queries contiguous, descending, non-overlapping windows of at
      most `chunk` blocks, none below `lower`, and ends as `ScanShape`
      says. */
  lemma {:induction false} ScanWindows<E, S>(query: (nat, nat) -> Option<seq<E>>,
                                             f: (S, seq<E>) -> Option<(S, bool)>,
                                             state: S, lower: nat, upper: nat, chunk: nat)
    requires chunk > 0
    ensures ScanShape(Scan(query, f, state, lower, upper, chunk).0, Scan(query, f, state, lower, upper, chunk).1,
                      lower, upper, chunk)
    decreases upper
  {
    if !Continues(query, f, state, lower, upper, chunk) {
      ScanShapeAtStop(query, f, state, lower, upper, chunk);
    } else {
      var w := WindowBelow(upper, lower, chunk);
      var next := f(state, query(w.from, w.to).value).value.0;
      var rest := Scan(query, f, next, lower, w.from - 1, chunk);
      assert Scan(query, f, state, lower, upper, chunk) == (rest.0, [w] + rest.1);
      ScanWindows(query, f, next, lower, w.from - 1, chunk);
      ScanShapeCons(rest.0, w, rest.1, lower, upper, chunk);
    }
  }

  /** The scan goes on past the window below `upper`. */
  ghost predicate Continues<E, S>(query: (nat, nat) -> Option<seq<E>>, f: (S, seq<E>) -> Option<(S, bool)>,
                                  state: S, lower: nat, upper: nat, chunk: nat)
    requires chunk > 0
  {
    upper > 0 && lower <= upper &&
    var w := WindowBelow(upper, lower, chunk);
    query(w.from, w.to).Some? && f(state, query(w.from, w.to).value).Some?
    && f(state, query(w.from, w.to).value).value.1
  }

  /** A scan that stops at once queried no window or only the one below
      `upper`. */
  lemma ScanShapeAtStop<E, S>(query: (nat, nat) -> Option<seq<E>>, f: (S, seq<E>) -> Option<(S, bool)>,
                              state: S, lower: nat, upper: nat, chunk: nat)
    requires chunk > 0 && !Continues(query, f, state, lower, upper, chunk)
    ensures ScanShape(Scan(query, f, state, lower, upper, chunk).0, Scan(query, f, state, lower, upper, chunk).1,
                      lower, upper, chunk)
  {
    if upper > 0 && lower <= upper {
      var w := WindowBelow(upper, lower, chunk);
      var r := Scan(query, f, state, lower, upper, chunk);
      assert r.1 == [w];
      assert r.0 != Err(ReachedLowerLimit(lower)) && !(r.0.Ok? && r.0.value.1 == ReachedGenesis);
    }
  }

  /** The predicate's state after each of `ws` in turn, provided every query
      answered and the predicate asked to go on after each. */
  ghost function Threaded<E, S>(query: (nat, nat) -> Option<seq<E>>, f: (S, seq<E>) -> Option<(S, bool)>,
                                state: S, ws: seq<Window>): Option<S>
    decreases |ws|
  {
    if ws == [] then Some(state)
    else match query(ws[0].from, ws[0].to)
      case None => None
      case Some(logs) =>
        match f(state, logs)
        case Some((next, true)) => Threaded(query, f, next, ws[1..])
        case _ => None
  }

  /** The scan stops as soon as the predicate says so: before the last
      window the predicate asked to go on after every window, and a halted
      scan ends at the first window after which it asked to stop. */
  lemma {:induction false} ScanStopsAtFalse<E, S>(query: (nat, nat) -> Option<seq<E>>,
                                                  f: (S, seq<E>) -> Option<(S, bool)>,
                                                  state: S, lower: nat, upper: nat, chunk: nat)
    requires chunk > 0
    ensures StopsAtFalse(query, f, state, Scan(query, f, state, lower, upper, chunk))
    decreases upper
  {
    if !Continues(query, f, state, lower, upper, chunk) {
      StopsAtFalseAtStop(query, f, state, lower, upper, chunk);
    } else {
      var w := WindowBelow(upper, lower, chunk);
      var next := f(state, query(w.from, w.to).value).value.0;
      var rest := Scan(query, f, next, lower, w.from - 1, chunk);
      assert Scan(query, f, state, lower, upper, chunk) == (rest.0, [w] + rest.1);
      ScanStopsAtFalse(query, f, next, lower, w.from - 1, chunk);
      StopsAtFalseCons(query, f, state, next, w, rest.0, rest.1);
    }
  }

  /** Before the last window the predicate asked to go on after every
      window; a halted scan ends at the first window after which it asked to
      stop; a scan that reached block 0 asked to go on after every window. */
  ghost predicate StopsAtFalse<E, S>(query: (nat, nat) -> Option<seq<E>>, f: (S, seq<E>) -> Option<(S, bool)>,
                                     state: S, scan: (Result<(S, ScanEnd), ClaimError>, seq<Window>))
  {
    var (r, ws) := scan;
    (ws != [] ==> Threaded(query, f, state, ws[..|ws| - 1]).Some?)
    && (r.Ok? && r.value.1 == Halted ==>
          ws != [] && query(ws[|ws| - 1].from, ws[|ws| - 1].to).Some?
          && f(Threaded(query, f, state, ws[..|ws| - 1]).value, query(ws[|ws| - 1].from, ws[|ws| - 1].to).value)
             == Some((r.value.0, false)))
    && (r.Ok? && r.value.1 == ReachedGenesis ==> Threaded(query, f, state, ws) == Some(r.value.0))
  }

  lemma StopsAtFalseAtStop<E, S>(query: (nat, nat) -> Option<seq<E>>, f: (S, seq<E>) -> Option<(S, bool)>,
                                 state: S, lower: nat, upper: nat, chunk: nat)
    requires chunk > 0 && !Continues(query, f, state, lower, upper, chunk)
    ensures StopsAtFalse(query, f, state, Scan(query, f, state, lower, upper, chunk))
  {
    if upper > 0 && lower <= upper {
      var w := WindowBelow(upper, lower, chunk);
      assert Scan(query, f, state, lower, upper, chunk).1 == [w];
      assert [w][..0] == [];
    }
  }

  /** Going on after the first window `w` puts it in front of the rest. */
  lemma StopsAtFalseCons<E, S>(query: (nat, nat) -> Option<seq<E>>, f: (S, seq<E>) -> Option<(S, bool)>,
                               state: S, next: S, w: Window, r: Result<(S, ScanEnd), ClaimError>, rest: seq<Window>)
    requires query(w.from, w.to).Some? && f(state, query(w.from, w.to).value) == Some((next, true))
    requires StopsAtFalse(query, f, next, (r, rest))
    ensures StopsAtFalse(query, f, state, (r, [w] + rest))
  {
    var ws := [w] + rest;
    assert ws[0] == w && ws[1..] == rest;
    if rest != [] {
      assert ws[..|ws| - 1][0] == w && ws[..|ws| - 1][1..] == rest[..|rest| - 1];
      assert ws[|ws| - 1] == rest[|rest| - 1];
    } else {
      assert ws[..|ws| - 1] == [];
    }
  }

  /** `search_events`: query windows from `upper` down until the predicate
      asks to stop, block 0 is reached, or a window would start below
      `lower`. */
  method SearchEvents<E, S>(query: (nat, nat) -> Option<seq<E>>, f: (S, seq<E>) -> Option<(S, bool)>,
                            state0: S, lower: nat, upper0: nat, chunk: nat)
    returns (r: Result<(S, ScanEnd), ClaimError>, windows: seq<Window>)
    requires chunk > 0
    ensures r == Scan(query, f, state0, lower, upper0, chunk).0
    ensures windows == Scan(query, f, state0, lower, upper0, chunk).1
  {
    var state: S := state0;
    var upper: nat := upper0;
    windows := [];
    assert windows + Scan(query, f, state, lower, upper, chunk).1 == Scan(query, f, state, lower, upper, chunk).1;
    while true
      invariant Scan(query, f, state0, lower, upper0, chunk).0 == Scan(query, f, state, lower, upper, chunk).0
      invariant Scan(query, f, state0, lower, upper0, chunk).1 == windows + Scan(query, f, state, lower, upper, chunk).1
      decreases upper
    {
      if upper == 0 {
        assert windows + [] == windows;
        return Ok((state, ReachedGenesis)), windows;
      }
      if upper < lower {
        assert windows + [] == windows;
        return Err(ReachedLowerLimit(lower)), windows;
      }
      var w := WindowBelow(upper, lower, chunk);
      var logs := query(w.from, w.to);
      if logs.None? {
        return Err(QueryFailed(w.from, w.to)), windows + [w];
      }
      var step := f(state, logs.value);
      if step.None? {
        return Err(LogWithoutBlockNumber), windows + [w];
      }
      var (next, more) := step.value;
      if !more {
        return Ok((next, Halted)), windows + [w];
      }
      assert windows + [w] + Scan(query, f, next, lower, w.from - 1, chunk).1
          == windows + ([w] + Scan(query, f, next, lower, w.from - 1, chunk).1);
      state, upper, windows := next, w.from - 1, windows + [w];
    }
  }

  lemma StepKeeps<E, S>(f: (S, seq<E>) -> Option<(S, bool)>, inv: S -> bool, state: S, logs: seq<E>)
    requires inv(state)
    requires forall st, logs :: inv(st) && f(st, logs).Some? ==> inv(f(st, logs).value.0)
    ensures f(state, logs).Some? ==> inv(f(state, logs).value.0)
  {
  }

  /** Every step of the predicate keeps `inv`: then so does the whole scan. */
  lemma {:induction false} ScanPreserves<E, S>(query: (nat, nat) -> Option<seq<E>>,
                                               f: (S, seq<E>) -> Option<(S, bool)>, inv: S -> bool,
                                               state: S, lower: nat, upper: nat, chunk: nat)
    requires chunk > 0 && inv(state)
    requires forall st, logs :: inv(st) && f(st, logs).Some? ==> inv(f(st, logs).value.0)
    ensures var r := Scan(query, f, state, lower, upper, chunk).0;
            r.Ok? ==> inv(r.value.0)
    decreases upper
  {
    if upper > 0 && lower <= upper {
      var w := WindowBelow(upper, lower, chunk);
      if query(w.from, w.to).Some? {
        var logs := query(w.from, w.to).value;
        var step := f(state, logs);
        StepKeeps(f, inv, state, logs);
        if step.Some? && step.value.1 {
          ScanPreserves(query, f, inv, step.value.0, lower, w.from - 1, chunk);
        }
      }
    }
  }

  // ---------------------------------------------------------------------------
  // `search_work_log_updated`
  // ---------------------------------------------------------------------------

  /** A queried log: the event and the block number it carries, if any. */
  datatype Log<T> = Log(event: T, blockNumber: Option<nat>)

  /** An event with the block it was emitted in. */
  datatype Located<T> = Located(event: T, block: nat)

  type UpdateMap = map<Commit, Located<WorkLogUpdated>>

  /** Each update is filed under its initial commit. */
  predicate KeyedByInitial(m: UpdateMap)
  {
    forall c :: c in m ==> m[c].event.initialCommit == c
  }

  /** The loop in the predicate of `search_work_log_updated`: file each
      update under its initial commit, a later one replacing an earlier one;
      a log without a block number is an error. */
  function InsertUpdates(m: UpdateMap, logs: seq<Log<WorkLogUpdated>>): (r: Option<UpdateMap>)
    ensures r.Some? <==> forall i :: 0 <= i < |logs| ==> logs[i].blockNumber.Some?
    ensures r.Some? ==>
              forall c :: c in r.value <==> c in m || exists i :: 0 <= i < |logs| && logs[i].event.initialCommit == c
    ensures r.Some? && KeyedByInitial(m) ==> KeyedByInitial(r.value)
    ensures r.Some? && logs != [] ==>
              var last := logs[|logs| - 1];
              r.value[last.event.initialCommit] == Located(last.event, last.blockNumber.value)
    decreases |logs|
  {
    if logs == [] then Some(m)
    else
      var last := logs[|logs| - 1];
      match InsertUpdates(m, logs[..|logs| - 1])
      case None => None
      case Some(mid) =>
        match last.blockNumber
        case None => None
        case Some(b) => Some(mid[last.event.initialCommit := Located(last.event, b)])
  }

  /** The predicate of `search_work_log_updated`: go on until the update
      starting at `initial` has been seen. */
  function UpdatesStep(initial: Commit, m: UpdateMap, logs: seq<Log<WorkLogUpdated>>): (r: Option<(UpdateMap, bool)>)
    ensures r.Some? ==> (r.value.1 <==> initial !in r.value.0)
  {
    match InsertUpdates(m, logs)
    case None => None
    case Some(next) => Some((next, initial !in next))
  }

  /** The updates form a chain from `initial` to `final`: none when the two
      are equal, otherwise starting at `initial`, each starting where the
      previous one ended, the last ending at `final`, no commit started from
      twice. */
  ghost predicate ChainLinks(chain: seq<Located<WorkLogUpdated>>, initial: Commit, final: Commit)
  {
    (chain == [] <==> initial == final)
    && (chain != [] ==>
          chain[0].event.initialCommit == initial && chain[|chain| - 1].event.updatedCommit == final)
    && (forall k :: 0 < k < |chain| ==> chain[k].event.initialCommit == chain[k - 1].event.updatedCommit)
    && (forall i, j :: 0 <= i < j < |chain| ==> chain[i].event.initialCommit != chain[j].event.initialCommit)
  }

  /** Following the updates from `commit`, each taken out of the map once
      used, until `final`. */
  function ChainFrom(events: UpdateMap, commit: Commit, final: Commit): Result<seq<Located<WorkLogUpdated>>, ClaimError>
    decreases |events|
  {
    if commit == final then Ok([])
    else if commit !in events then Err(MissingUpdate(commit))
    else
      var e := events[commit];
      match ChainFrom(events - {commit}, e.event.updatedCommit, final)
      case Err(err) => Err(err)
      case Ok(rest) => Ok([e] + rest)
  }

  /** The rebuilt chain links `commit` to `final` with updates taken from the
      map; a missing link is reported with the commit it should start at. */
  lemma {:induction false} ChainFromLinks(events: UpdateMap, commit: Commit, final: Commit)
    requires KeyedByInitial(events)
    ensures var r := ChainFrom(events, commit, final);
            (r.Ok? ==> ChainLinks(r.value, commit, final)
                       && forall k :: 0 <= k < |r.value| ==>
                            r.value[k].event.initialCommit in events
                            && events[r.value[k].event.initialCommit] == r.value[k])
            && (r.Err? ==> r.error.MissingUpdate? && r.error.commit != final)
    decreases |events|
  {
    if commit != final && commit in events {
      var e := events[commit];
      var rest := events - {commit};
      assert KeyedByInitial(rest);
      ChainFromLinks(rest, e.event.updatedCommit, final);
      var tail := ChainFrom(rest, e.event.updatedCommit, final);
      if tail.Ok? {
        var chain := [e] + tail.value;
        assert forall k :: 0 < k < |chain| ==> chain[k] == tail.value[k - 1];
        assert forall k :: 0 < k < |chain| ==> chain[k].event.initialCommit in rest;
      }
    }
  }

  function Prepend<T>(p: seq<T>, r: Result<seq<T>, ClaimError>): Result<seq<T>, ClaimError>
  {
    match r
    case Err(e) => Err(e)
    case Ok(v) => Ok(p + v)
  }

  /** The rebuild loop of `search_work_log_updated`. */
  method RebuildChain(events: UpdateMap, initial: Commit, final: Commit)
    returns (r: Result<seq<Located<WorkLogUpdated>>, ClaimError>)
    ensures r == ChainFrom(events, initial, final)
  {
    var commit := initial;
    var remaining := events;
    var sorted := [];
    assert ChainFrom(events, initial, final).Ok? ==> [] + ChainFrom(events, initial, final).value == ChainFrom(events, initial, final).value;
    while commit != final
      invariant ChainFrom(events, initial, final) == Prepend(sorted, ChainFrom(remaining, commit, final))
      decreases |remaining|
    {
      if commit !in remaining {
        return Err(MissingUpdate(commit));
      }
      var e := remaining[commit];
      ghost var tail := ChainFrom(remaining - {commit}, e.event.updatedCommit, final);
      assert tail.Ok? ==> sorted + ([e] + tail.value) == (sorted + [e]) + tail.value;
      sorted := sorted + [e];
      remaining := remaining - {commit};
      commit := e.event.updatedCommit;
    }
    assert sorted + [] == sorted;
    return Ok(sorted);
  }

  /** What `search_work_log_updated` answers. */
  function WorkLogUpdates(query: (nat, nat) -> Option<seq<Log<WorkLogUpdated>>>, initial: Commit, final: Commit,
                          upper: nat, lower: nat, chunk: nat): Result<seq<Located<WorkLogUpdated>>, ClaimError>
    requires chunk > 0
  {
    match Scan(query, (m, logs) => UpdatesStep(initial, m, logs), map[], lower, upper, chunk).0
    case Err(e) => Err(e)
    case Ok((events, _)) => ChainFrom(events, initial, final)
  }

  /** The updates found link the mint contract's commit to the accounting
      contract's, each filed under its initial commit. */
  lemma WorkLogUpdatesLink(query: (nat, nat) -> Option<seq<Log<WorkLogUpdated>>>, initial: Commit, final: Commit,
                           upper: nat, lower: nat, chunk: nat)
    requires chunk > 0
    ensures var r := WorkLogUpdates(query, initial, final, upper, lower, chunk);
            r.Ok? ==> ChainLinks(r.value, initial, final)
  {
    var f := (m, logs) => UpdatesStep(initial, m, logs);
    var scan := Scan(query, f, map[], lower, upper, chunk).0;
    ScanPreserves(query, f, KeyedByInitial, map[], lower, upper, chunk);
    if scan.Ok? {
      ChainFromLinks(scan.value.0, initial, final);
    }
  }

  /** `search_work_log_updated`: scan for the updates of the log down from
      `upper` until the one starting at `initial` is seen, then rebuild the
      chain from `initial` to `final`. */
  method SearchWorkLogUpdated(query: (nat, nat) -> Option<seq<Log<WorkLogUpdated>>>, initial: Commit, final: Commit,
                              upper: nat, lower: nat, chunk: nat)
    returns (r: Result<seq<Located<WorkLogUpdated>>, ClaimError>)
    requires chunk > 0
    ensures r == WorkLogUpdates(query, initial, final, upper, lower, chunk)
  {
    var scanned, _ := SearchEvents(query, (m, logs) => UpdatesStep(initial, m, logs), map[], lower, upper, chunk);
    if scanned.Err? {
      return Err(scanned.error);
    }
    r := RebuildChain(scanned.value.0, initial, final);
  }

  // ---------------------------------------------------------------------------
  // `search_epoch_finalized`
  // ---------------------------------------------------------------------------

  /** The epochs still sought, and the finalization events found so far by
      block number. */
  datatype EpochSearch = EpochSearch(epochs: set<u256>, found: map<nat, EpochFinalized>)

  /** Every event found is for one of the `requested` epochs no longer
      sought, and no epoch is recorded under two blocks. */
  predicate RecordedOnce(requested: set<u256>, s: EpochSearch)
  {
    s.epochs <= requested
    && (forall b :: b in s.found ==> s.found[b].epoch in requested && s.found[b].epoch !in s.epochs)
    && (forall b1, b2 :: b1 in s.found && b2 in s.found && b1 != b2 ==> s.found[b1].epoch != s.found[b2].epoch)
  }

  /** The loop in the predicate of `search_epoch_finalized`: an event for an
      epoch still sought takes that epoch off the list and is recorded under
      its block number, which it must carry; other events are ignored. */
  function RecordEpochs(s: EpochSearch, logs: seq<Log<EpochFinalized>>): (r: Option<EpochSearch>)
    ensures r.Some? ==> r.value.epochs <= s.epochs
    ensures r.Some? ==> forall i :: 0 <= i < |logs| ==> logs[i].event.epoch !in r.value.epochs
    ensures r.Some? ==> forall e :: e in s.epochs && e !in r.value.epochs ==>
              exists i :: 0 <= i < |logs| && logs[i].event.epoch == e
    decreases |logs|
  {
    if logs == [] then Some(s)
    else
      var last := logs[|logs| - 1];
      match RecordEpochs(s, logs[..|logs| - 1])
      case None => None
      case Some(mid) =>
        if last.event.epoch !in mid.epochs then Some(mid)
        else match last.blockNumber
          case None => None
          case Some(b) => Some(EpochSearch(mid.epochs - {last.event.epoch}, mid.found[b := last.event]))
  }

  /** Recording keeps every epoch recorded at most once. */
  lemma {:induction false} RecordEpochsOnce(requested: set<u256>, s: EpochSearch, logs: seq<Log<EpochFinalized>>)
    requires RecordedOnce(requested, s)
    ensures RecordEpochs(s, logs).Some? ==> RecordedOnce(requested, RecordEpochs(s, logs).value)
    decreases |logs|
  {
    if logs != [] {
      RecordEpochsOnce(requested, s, logs[..|logs| - 1]);
    }
  }

  /** The predicate of `search_epoch_finalized`: go on while some epoch is
      still sought. */
  function EpochsStep(s: EpochSearch, logs: seq<Log<EpochFinalized>>): (r: Option<(EpochSearch, bool)>)
    ensures r.Some? ==> (r.value.1 <==> r.value.0.epochs != {})
  {
    match RecordEpochs(s, logs)
    case None => None
    case Some(next) => Some((next, next.epochs != {}))
  }

  /** What `search_epoch_finalized` answers. */
  function EpochEvents(query: (nat, nat) -> Option<seq<Log<EpochFinalized>>>, epochs: set<u256>,
                       upper: nat, lower: nat, chunk: nat): Result<map<nat, EpochFinalized>, ClaimError>
    requires chunk > 0
  {
    match Scan(query, EpochsStep, EpochSearch(epochs, map[]), lower, upper, chunk).0
    case Err(e) => Err(e)
    case Ok((s, _)) => Ok(s.found)
  }

  /** Each event kept is for a requested epoch no longer sought, and no
      epoch is kept under two blocks; the scan halts only once no requested
      epoch is left to seek. */
  lemma EpochEventsOnce(query: (nat, nat) -> Option<seq<Log<EpochFinalized>>>, epochs: set<u256>,
                        upper: nat, lower: nat, chunk: nat)
    requires chunk > 0
    ensures var r := EpochEvents(query, epochs, upper, lower, chunk);
            r.Ok? ==>
              (forall b :: b in r.value ==> r.value[b].epoch in epochs)
              && (forall b1, b2 :: b1 in r.value && b2 in r.value && b1 != b2 ==> r.value[b1].epoch != r.value[b2].epoch)
    ensures var r := Scan(query, EpochsStep, EpochSearch(epochs, map[]), lower, upper, chunk).0;
            r.Ok? && r.value.1 == Halted ==> r.value.0.epochs == {}
  {
    var inv := (s: EpochSearch) => RecordedOnce(epochs, s);
    forall st, logs | inv(st) && EpochsStep(st, logs).Some? ensures inv(EpochsStep(st, logs).value.0) {
      RecordEpochsOnce(epochs, st, logs);
    }
    ScanPreserves(query, EpochsStep, inv, EpochSearch(epochs, map[]), lower, upper, chunk);
    ScanStopsAtFalse(query, EpochsStep, EpochSearch(epochs, map[]), lower, upper, chunk);
  }

  /** The logs a scan window returned; none for a failed query. */
  function WindowLogs<E>(query: (nat, nat) -> Option<seq<E>>, w: Window): seq<E>
  {
    match query(w.from, w.to)
    case None => []
    case Some(logs) => logs
  }

  /** Some window of `ws` returned a log finalizing `epoch` in block `b`. */
  ghost predicate FinalizedIn(query: (nat, nat) -> Option<seq<Log<EpochFinalized>>>, ws: seq<Window>,
                              epoch: u256, b: nat)
  {
    exists k, i :: 0 <= k < |ws| && 0 <= i < |WindowLogs(query, ws[k])|
                   && WindowLogs(query, ws[k])[i].event.epoch == epoch
                   && WindowLogs(query, ws[k])[i].blockNumber == Some(b)
  }

  /** Every requested epoch no longer sought was finalized, in the windows
      scanned, in a block that is a key of the events found. */
  ghost predicate BlocksKept(query: (nat, nat) -> Option<seq<Log<EpochFinalized>>>, requested: set<u256>,
                             ws: seq<Window>, s: EpochSearch)
  {
    forall epoch :: epoch in requested && epoch !in s.epochs ==>
      exists b :: b in s.found && FinalizedIn(query, ws, epoch, b)
  }

  /** Recording keeps every block found, and each epoch it stops seeking
      was finalized by one of the logs in a block it keeps. A later event in
      the same block may replace that epoch's event, but not the block. */
  lemma {:induction false} RecordEpochsBlocks(s: EpochSearch, logs: seq<Log<EpochFinalized>>)
    ensures var r := RecordEpochs(s, logs);
            r.Some? ==>
              s.found.Keys <= r.value.found.Keys
              && forall e :: e in s.epochs && e !in r.value.epochs ==>
                   exists i, b :: 0 <= i < |logs| && logs[i].event.epoch == e && logs[i].blockNumber == Some(b)
                                  && b in r.value.found
    decreases |logs|
  {
    if logs != [] {
      var init, last := logs[..|logs| - 1], logs[|logs| - 1];
      RecordEpochsBlocks(s, init);
      var r := RecordEpochs(s, logs);
      if r.Some? {
        var mid := RecordEpochs(s, init).value;
        forall e | e in s.epochs && e !in r.value.epochs
          ensures exists i, b :: 0 <= i < |logs| && logs[i].event.epoch == e && logs[i].blockNumber == Some(b)
                                 && b in r.value.found
        {
          if e in mid.epochs {
            assert e == last.event.epoch;
            assert logs[|logs| - 1] == last;
          } else {
            var i, b :| 0 <= i < |init| && init[i].event.epoch == e && init[i].blockNumber == Some(b) && b in mid.found;
            assert logs[i] == init[i];
          }
        }
      }
    }
  }

  /** A finalization seen in some windows is still seen with more windows
      after them. */
  lemma FinalizedInAppend(query: (nat, nat) -> Option<seq<Log<EpochFinalized>>>, ws: seq<Window>,
                          more: seq<Window>, epoch: u256, b: nat)
    requires FinalizedIn(query, ws, epoch, b)
    ensures FinalizedIn(query, ws + more, epoch, b)
  {
    var k, i :| 0 <= k < |ws| && 0 <= i < |WindowLogs(query, ws[k])|
                && WindowLogs(query, ws[k])[i].event.epoch == epoch
                && WindowLogs(query, ws[k])[i].blockNumber == Some(b);
    assert (ws + more)[k] == ws[k];
  }

  /** One window of the scan keeps the blocks of every epoch it stops seeking. */
  lemma EpochWindowKeeps(query: (nat, nat) -> Option<seq<Log<EpochFinalized>>>, requested: set<u256>,
                         prior: seq<Window>, w: Window, s: EpochSearch)
    requires BlocksKept(query, requested, prior, s)
    requires query(w.from, w.to).Some? && RecordEpochs(s, query(w.from, w.to).value).Some?
    ensures BlocksKept(query, requested, prior + [w], RecordEpochs(s, query(w.from, w.to).value).value)
  {
    var logs := query(w.from, w.to).value;
    var next := RecordEpochs(s, logs).value;
    var ws := prior + [w];
    RecordEpochsBlocks(s, logs);
    assert ws[|prior|] == w;
    forall epoch | epoch in requested && epoch !in next.epochs
      ensures exists b :: b in next.found && FinalizedIn(query, ws, epoch, b)
    {
      if epoch in s.epochs {
        var i, b :| 0 <= i < |logs| && logs[i].event.epoch == epoch && logs[i].blockNumber == Some(b) && b in next.found;
        assert WindowLogs(query, ws[|prior|])[i] == logs[i];
        assert FinalizedIn(query, ws, epoch, b);
      } else {
        var b :| b in s.found && FinalizedIn(query, prior, epoch, b);
        FinalizedInAppend(query, prior, [w], epoch, b);
      }
    }
  }

  /** The scan keeps, for every epoch it stops seeking, the block of a log
      finalizing it in the windows queried. */
  lemma {:induction false} ScanKeepsBlocks(query: (nat, nat) -> Option<seq<Log<EpochFinalized>>>,
                                           requested: set<u256>, prior: seq<Window>, s: EpochSearch,
                                           lower: nat, upper: nat, chunk: nat)
    requires chunk > 0 && BlocksKept(query, requested, prior, s)
    ensures var sc := Scan(query, EpochsStep, s, lower, upper, chunk);
            sc.0.Ok? ==> BlocksKept(query, requested, prior + sc.1, sc.0.value.0)
    decreases upper
  {
    var sc := Scan(query, EpochsStep, s, lower, upper, chunk);
    if upper == 0 || upper < lower {
      assert prior + sc.1 == prior;
    } else {
      var w := WindowBelow(upper, lower, chunk);
      if query(w.from, w.to).Some? && RecordEpochs(s, query(w.from, w.to).value).Some? {
        var next := RecordEpochs(s, query(w.from, w.to).value).value;
        EpochWindowKeeps(query, requested, prior, w, s);
        if next.epochs != {} {
          var rest := Scan(query, EpochsStep, next, lower, w.from - 1, chunk);
          assert sc == (rest.0, [w] + rest.1);
          ScanKeepsBlocks(query, requested, prior + [w], next, lower, w.from - 1, chunk);
          assert prior + sc.1 == (prior + [w]) + rest.1;
        } else {
          assert sc == (Ok((next, Halted)), [w]);
        }
      }
    }
  }

  /** The epoch search keeps the block of every requested epoch it found:
      each requested epoch is either still sought, which a halted search
      rules out, or finalized by a queried log in a block of the result.
      This holds even where two finalizations share a block and the later
      replaces the earlier one's event. */
  lemma EpochEventsKeepBlocks(query: (nat, nat) -> Option<seq<Log<EpochFinalized>>>, epochs: set<u256>,
                              upper: nat, lower: nat, chunk: nat)
    requires chunk > 0
    ensures var sc := Scan(query, EpochsStep, EpochSearch(epochs, map[]), lower, upper, chunk);
            sc.0.Ok? ==>
              sc.0.value.0.found == EpochEvents(query, epochs, upper, lower, chunk).value
              && (sc.0.value.1 == Halted ==> sc.0.value.0.epochs == {})
              && forall epoch :: epoch in epochs ==>
                   epoch in sc.0.value.0.epochs
                   || exists b :: b in sc.0.value.0.found && FinalizedIn(query, sc.1, epoch, b)
  {
    ScanKeepsBlocks(query, epochs, [], EpochSearch(epochs, map[]), lower, upper, chunk);
    EpochEventsOnce(query, epochs, upper, lower, chunk);
    var sc := Scan(query, EpochsStep, EpochSearch(epochs, map[]), lower, upper, chunk);
    assert [] + sc.1 == sc.1;
  }

  /** `search_epoch_finalized`. */
  method SearchEpochFinalized(query: (nat, nat) -> Option<seq<Log<EpochFinalized>>>, epochs: set<u256>,
                              upper: nat, lower: nat, chunk: nat)
    returns (r: Result<map<nat, EpochFinalized>, ClaimError>)
    requires chunk > 0
    ensures r == EpochEvents(query, epochs, upper, lower, chunk)
  {
    var scanned, _ := SearchEvents(query, EpochsStep, EpochSearch(epochs, map[]), lower, upper, chunk);
    if scanned.Err? {
      return Err(scanned.error);
    }
    return Ok(scanned.value.0.found);
  }

  // ---------------------------------------------------------------------------
  // `run`
  // ---------------------------------------------------------------------------

  /** The updates of finalized epochs, that is, of epochs before the pending
      one, in their order. */
  function Finalized(updates: seq<Located<WorkLogUpdated>>, pending: u256): (r: seq<Located<WorkLogUpdated>>)
    ensures |r| <= |updates|
    ensures forall x :: x in r <==> x in updates && x.event.epochNumber < pending
    decreases |updates|
  {
    if updates == [] then []
    else
      var last := updates[|updates| - 1];
      Finalized(updates[..|updates| - 1], pending) + (if last.event.epochNumber < pending then [last] else [])
  }

  /** Filtering distributes over concatenation, so the kept updates stay in
      their input order. */
  lemma {:induction false} FinalizedAppend(a: seq<Located<WorkLogUpdated>>, b: seq<Located<WorkLogUpdated>>, pending: u256)
    ensures Finalized(a + b, pending) == Finalized(a, pending) + Finalized(b, pending)
    decreases |b|
  {
    if b == [] {
      assert a + b == a;
    } else {
      var b0 := b[..|b| - 1];
      assert (a + b)[..|a + b| - 1] == a + b0;
      assert (a + b)[|a + b| - 1] == b[|b| - 1];
      FinalizedAppend(a, b0, pending);
    }
  }

  /** The first kept update is the first update of a finalized epoch, so
      `finalized[0].block` is the block of the earliest of them. */
  lemma FinalizedFirst(updates: seq<Located<WorkLogUpdated>>, pending: u256)
    requires Finalized(updates, pending) != []
    ensures exists i :: 0 <= i < |updates| && updates[i] == Finalized(updates, pending)[0]
              && updates[i].event.epochNumber < pending
              && forall j :: 0 <= j < i ==> updates[j].event.epochNumber >= pending
  {
    var i := FirstKept(updates, pending);
  }

  lemma {:induction false} FirstKept(updates: seq<Located<WorkLogUpdated>>, pending: u256) returns (i: nat)
    requires Finalized(updates, pending) != []
    ensures i < |updates| && updates[i] == Finalized(updates, pending)[0]
    ensures updates[i].event.epochNumber < pending
    ensures forall j :: 0 <= j < i ==> updates[j].event.epochNumber >= pending
    decreases |updates|
  {
    var init, last := updates[..|updates| - 1], updates[|updates| - 1];
    var tail := if last.event.epochNumber < pending then [last] else [];
    assert Finalized(updates, pending) == Finalized(init, pending) + tail;
    if Finalized(init, pending) != [] {
      i := FirstKept(init, pending);
      assert Finalized(updates, pending)[0] == Finalized(init, pending)[0];
      assert updates[i] == init[i];
      assert forall j :: 0 <= j < i ==> updates[j] == init[j];
    } else {
      assert Finalized(updates, pending) == tail;
      i := |updates| - 1;
      forall j | 0 <= j < i
        ensures updates[j].event.epochNumber >= pending
      {
        assert updates[j] == init[j] && init[j] in init;
      }
    }
  }

  /** What `run` reads from the chain: the latest block number, block
      timestamps, the commit each contract holds for a log, the pending
      epoch, and the two event queries over an inclusive block range (the
      update query is already restricted to the log). */
  datatype Chain = Chain(
    latestBlock: u64,
    header: BlockTimestamps,
    mintCommit: Address -> Commit,
    accountingCommit: Address -> Commit,
    pendingEpoch: u256,
    updateLogs: (nat, nat) -> Option<seq<Log<WorkLogUpdated>>>,
    epochLogs: (nat, nat) -> Option<seq<Log<EpochFinalized>>>)

  /** What the claim goes on to prove: nothing when both contracts hold the
      same commit, otherwise the finalized updates, the finalization events
      of their epochs, and the blocks the mint calculator needs. */
  datatype ClaimPlan =
    | NothingToClaim
    | Claimable(updates: seq<Located<WorkLogUpdated>>, epochEvents: map<nat, EpochFinalized>, eventBlocks: set<nat>)

  /** The epochs of a list of updates. */
  function EpochsOf(updates: seq<Located<WorkLogUpdated>>): set<u256>
  {
    set k | 0 <= k < |updates| :: updates[k].event.epochNumber
  }

  /** The blocks of a list of updates. */
  function BlocksOf(updates: seq<Located<WorkLogUpdated>>): set<nat>
  {
    set k | 0 <= k < |updates| :: updates[k].block
  }

  /** `run` once the lower search limit is known, stage by stage: nothing to
      claim when both contracts hold the same commit; else the update search
      down to the limit; the updates of finalized epochs, failing when there
      are none; the finalization events of their epochs, searched from the
      first such update's block; and the blocks of both. */
  function ClaimSpec(chain: Chain, logId: Address, lowerLimit: nat, chunk: nat): Result<ClaimPlan, ClaimError>
    requires chunk > 0
  {
    var initial := chain.mintCommit(logId);
    var final := chain.accountingCommit(logId);
    if initial == final then Ok(NothingToClaim)
    else match WorkLogUpdates(chain.updateLogs, initial, final, chain.latestBlock, lowerLimit, chunk)
      case Err(e) => Err(e)
      case Ok(updates) =>
        var finalized := Finalized(updates, chain.pendingEpoch);
        if finalized == [] then Err(NoFinalizedUpdates)
        else match EpochEvents(chain.epochLogs, EpochsOf(finalized), chain.latestBlock, finalized[0].block, chunk)
          case Err(e) => Err(e)
          case Ok(events) => Ok(Claimable(finalized, events, BlocksOf(finalized) + events.Keys))
  }

  /** What the claim amounts to. Nothing is claimed exactly when the two
      contracts hold the same commit. Otherwise the claim succeeds exactly
      when the update search succeeds, keeps some update of a finalized
      epoch, and the epoch search succeeds; with no such update it fails
      with NoFinalizedUpdates. A claimable plan holds the finalized part of
      the update chain the search found, which links the mint contract's
      commit to the accounting contract's; every kept update is of an epoch
      before the pending one; the events are those the epoch search found,
      each for one of those epochs and no epoch twice; and the blocks are
      exactly those of the updates and the events. */
  lemma ClaimPlanFacts(chain: Chain, logId: Address, lowerLimit: nat, chunk: nat)
    requires chunk > 0
    ensures var r := ClaimSpec(chain, logId, lowerLimit, chunk);
            var initial := chain.mintCommit(logId);
            var final := chain.accountingCommit(logId);
            var found := WorkLogUpdates(chain.updateLogs, initial, final, chain.latestBlock, lowerLimit, chunk);
            (r == Ok(NothingToClaim) <==> initial == final)
            && (initial != final && found.Err? ==> r == Err(found.error))
            && (initial != final && found.Ok? && Finalized(found.value, chain.pendingEpoch) == [] ==>
                  r == Err(NoFinalizedUpdates))
            && (initial != final && found.Ok? && Finalized(found.value, chain.pendingEpoch) != [] ==>
                  var finalized := Finalized(found.value, chain.pendingEpoch);
                  var events := EpochEvents(chain.epochLogs, EpochsOf(finalized), chain.latestBlock, finalized[0].block, chunk);
                  r.Ok? == events.Ok? && (events.Err? ==> r == Err(events.error)))
    ensures var r := ClaimSpec(chain, logId, lowerLimit, chunk);
            var initial := chain.mintCommit(logId);
            var final := chain.accountingCommit(logId);
            var found := WorkLogUpdates(chain.updateLogs, initial, final, chain.latestBlock, lowerLimit, chunk);
            r.Ok? && r.value.Claimable? ==>
              var plan := r.value;
              initial != final
              && found.Ok? && ChainLinks(found.value, initial, final)
              && plan.updates == Finalized(found.value, chain.pendingEpoch) && plan.updates != []
              && plan.epochEvents == EpochEvents(chain.epochLogs, EpochsOf(plan.updates), chain.latestBlock,
                                                 plan.updates[0].block, chunk).value
              && (forall k :: 0 <= k < |plan.updates| ==> plan.updates[k].event.epochNumber < chain.pendingEpoch)
              && (forall b :: b in plan.epochEvents ==> plan.epochEvents[b].epoch in EpochsOf(plan.updates))
              && (forall b1, b2 :: b1 in plan.epochEvents && b2 in plan.epochEvents && b1 != b2 ==>
                    plan.epochEvents[b1].epoch != plan.epochEvents[b2].epoch)
              && (forall b :: b in plan.eventBlocks <==>
                    b in plan.epochEvents || exists k :: 0 <= k < |plan.updates| && plan.updates[k].block == b)
  {
    var initial := chain.mintCommit(logId);
    var final := chain.accountingCommit(logId);
    WorkLogUpdatesLink(chain.updateLogs, initial, final, chain.latestBlock, lowerLimit, chunk);
    var found := WorkLogUpdates(chain.updateLogs, initial, final, chain.latestBlock, lowerLimit, chunk);
    if initial != final && found.Ok? && Finalized(found.value, chain.pendingEpoch) != [] {
      var finalized := Finalized(found.value, chain.pendingEpoch);
      EpochEventsOnce(chain.epochLogs, EpochsOf(finalized), chain.latestBlock, finalized[0].block, chunk);
      forall k | 0 <= k < |finalized| ensures finalized[k].event.epochNumber < chain.pendingEpoch {
        assert finalized[k] in finalized;
      }
    }
  }

  /** The blocks a claimable plan hands to the prover hold a finalization
      of every epoch of its updates that the epoch search stopped seeking;
      when the search halted, that is every one of them. Only a search that
      came down to block 0 can leave an epoch unfound. */
  lemma ClaimBlocksFinalizeEpochs(chain: Chain, logId: Address, lowerLimit: nat, chunk: nat)
    requires chunk > 0
    ensures var r := ClaimSpec(chain, logId, lowerLimit, chunk);
            r.Ok? && r.value.Claimable? ==>
              var plan := r.value;
              plan.updates != []
              && var sc := Scan(chain.epochLogs, EpochsStep, EpochSearch(EpochsOf(plan.updates), map[]),
                                plan.updates[0].block, chain.latestBlock, chunk);
                 sc.0.Ok? && sc.0.value.0.found == plan.epochEvents
                 && (sc.0.value.1 == Halted ==> sc.0.value.0.epochs == {})
                 && forall epoch :: epoch in EpochsOf(plan.updates) ==>
                      epoch in sc.0.value.0.epochs
                      || exists b :: b in plan.eventBlocks && FinalizedIn(chain.epochLogs, sc.1, epoch, b)
  {
    var r := ClaimSpec(chain, logId, lowerLimit, chunk);
    if r.Ok? && r.value.Claimable? {
      var initial := chain.mintCommit(logId);
      var final := chain.accountingCommit(logId);
      var found := WorkLogUpdates(chain.updateLogs, initial, final, chain.latestBlock, lowerLimit, chunk);
      var finalized := Finalized(found.value, chain.pendingEpoch);
      EpochEventsKeepBlocks(chain.epochLogs, EpochsOf(finalized), chain.latestBlock, finalized[0].block, chunk);
    }
  }

  /** `run` after the lower search limit is known: compare the commits,
      search the updates down to the limit, keep the finalized ones and
      search their epochs' finalization events. */
  method ClaimAbove(chain: Chain, logId: Address, lowerLimit: nat, chunk: nat)
    returns (r: Result<ClaimPlan, ClaimError>)
    requires chunk > 0
    ensures r == ClaimSpec(chain, logId, lowerLimit, chunk)
  {
    var latest := chain.latestBlock;
    var initial := chain.mintCommit(logId);
    var final := chain.accountingCommit(logId);
    if initial == final {
      return Ok(NothingToClaim);
    }
    var updates := SearchWorkLogUpdated(chain.updateLogs, initial, final, latest, lowerLimit, chunk);
    if updates.Err? {
      return Err(updates.error);
    }
    var finalized := Finalized(updates.value, chain.pendingEpoch);
    if finalized == [] {
      return Err(NoFinalizedUpdates);
    }
    var epochLower := finalized[0].block;
    var epochs := set k | 0 <= k < |finalized| :: finalized[k].event.epochNumber;
    var epochEvents := SearchEpochFinalized(chain.epochLogs, epochs, latest, epochLower, chunk);
    if epochEvents.Err? {
      return Err(epochEvents.error);
    }
    var eventBlocks := (set k | 0 <= k < |finalized| :: finalized[k].block) + epochEvents.value.Keys;
    return Ok(Claimable(finalized, epochEvents.value, eventBlocks));
  }

  /** `run` up to building the mint-calculator input, with the lower search
      limit from `block_number_near_timestamp` as written: a failing limit
      search is the claim's error, otherwise the claim is ClaimSpec above
      that limit. `now` is the clock in seconds. */
  method Claim(chain: Chain, logId: Address, now: nat, days: nat, chunk: nat)
    returns (r: Result<ClaimPlan, ClaimError>)
    requires chunk > 0
    ensures var lowerLimit := NearTimestampAsWritten(chain.header, chain.latestBlock, now - days * DAY, Some(HOUR));
            r == if lowerLimit.Err? then Err(lowerLimit.error) else ClaimSpec(chain, logId, lowerLimit.value, chunk)
  {
    var lowerLimit := BlockNumberNearTimestampAsWritten(chain.header, chain.latestBlock, now - days * DAY, Some(HOUR));
    if lowerLimit.Err? {
      return Err(lowerLimit.error);
    }
    r := ClaimAbove(chain, logId, lowerLimit.value, chunk);
  }

  /** `run` with the corrected search for the lower limit, which reads
      block 0 before answering it. */
  method ClaimCorrected(chain: Chain, logId: Address, now: nat, days: nat, chunk: nat)
    returns (r: Result<ClaimPlan, ClaimError>)
    requires chunk > 0
    ensures var lowerLimit := NearTimestamp(chain.header, chain.latestBlock, now - days * DAY, Some(HOUR));
            r == if lowerLimit.Err? then Err(lowerLimit.error) else ClaimSpec(chain, logId, lowerLimit.value, chunk)
  {
    var lowerLimit := BlockNumberNearTimestamp(chain.header, chain.latestBlock, now - days * DAY, Some(HOUR));
    if lowerLimit.Err? {
      return Err(lowerLimit.error);
    }
    r := ClaimAbove(chain, logId, lowerLimit.value, chunk);
  }

  // ---------------------------------------------------------------------------
  // How the lower limit changes what `run` finds
  // ---------------------------------------------------------------------------

  /** One update of log 7, from commit 1 to commit 2, emitted at block 100. */
  const OldUpdate: WorkLogUpdated := WorkLogUpdated(7, 0, 1, 2, 5, 7)

  /** An update-log query over a chain whose only update is `OldUpdate`. */
  function OldUpdateLogs(from: nat, to: nat): Option<seq<Log<WorkLogUpdated>>>
  {
    if from <= 100 <= to then Some([Log(OldUpdate, Some(100))]) else Some([])
  }

  /** On the chain of NearTimestampGivesUpEarly, the as-written lower limit
      is block 0, so the update search of `Claim` goes down to block 1 and
      finds the update at block 100, which is older than the search window. */
  lemma AsWrittenLimitReachesOldUpdate()
    ensures NearTimestampAsWritten(b => Some(b), 150000, 40000, Some(HOUR)) == Ok(0)
    ensures WorkLogUpdates(OldUpdateLogs, 1, 2, 150000, 0, 100000) == Ok([Located(OldUpdate, 100)])
  {
    var header: BlockTimestamps := b => Some(b);
    assert LinearPhaseAsWritten(header, 40000, 50000) == Ok(Genesis);
    assert LinearPhaseAsWritten(header, 40000, 150000) == Ok(Genesis);
    var f := (m, logs) => UpdatesStep(1, m, logs);
    var found: UpdateMap := map[1 := Located(OldUpdate, 100)];
    assert WindowBelow(150000, 0, 100000) == Window(50001, 150000);
    assert WindowBelow(50000, 0, 100000) == Window(1, 50000);
    assert f(map[], []) == Some((map[], true));
    assert [Log(OldUpdate, Some(100))][..0] == [];
    assert InsertUpdates(map[], [Log(OldUpdate, Some(100))]) == Some(found);
    assert f(map[], [Log(OldUpdate, Some(100))]) == Some((found, false));
    assert Scan(OldUpdateLogs, f, map[], 0, 50000, 100000).0 == Ok((found, Halted));
    assert Scan(OldUpdateLogs, f, map[], 0, 150000, 100000).0 == Ok((found, Halted));
    assert ChainFrom(found - {1}, 2, 2) == Ok([]);
    assert [Located(OldUpdate, 100)] + [] == [Located(OldUpdate, 100)];
    assert ChainFrom(found, 1, 2) == Ok([Located(OldUpdate, 100)]);
  }

  /** On the same chain the corrected lower limit lies above block 100, so
      the update search of `ClaimCorrected` stops at the limit without
      reaching the update. */
  lemma CorrectedLimitStopsAboveOldUpdate()
    ensures var limit := NearTimestamp(b => Some(b), 150000, 40000, Some(HOUR));
            limit.Ok? && limit.value > 100
            && WorkLogUpdates(OldUpdateLogs, 1, 2, 150000, limit.value, 100000) == Err(ReachedLowerLimit(limit.value))
  {
    var header: BlockTimestamps := b => Some(b);
    assert Available(header, 150000) && Monotone(header, 150000);
    NearTimestampFinds(header, 150000, 40000, Some(HOUR));
    var limit := NearTimestamp(header, 150000, 40000, Some(HOUR)).value;
    assert header(0).value <= 40000;
    assert 40000 - HOUR <= limit <= 40000;
    SearchStopsAtLimit(limit);
  }

  /** A lower limit between the old update and the second window's top
      makes the update search fail at that limit. */
  lemma SearchStopsAtLimit(limit: nat)
    requires 100 < limit <= 50000
    ensures WorkLogUpdates(OldUpdateLogs, 1, 2, 150000, limit, 100000) == Err(ReachedLowerLimit(limit))
  {
    var f := (m, logs) => UpdatesStep(1, m, logs);
    assert f(map[], []) == Some((map[], true));
    assert WindowBelow(150000, limit, 100000) == Window(50001, 150000);
    assert WindowBelow(50000, limit, 100000) == Window(limit, 50000);
    assert Scan(OldUpdateLogs, f, map[], limit, limit - 1, 100000).0 == Err(ReachedLowerLimit(limit));
    assert Scan(OldUpdateLogs, f, map[], limit, 50000, 100000).0 == Err(ReachedLowerLimit(limit));
    assert Scan(OldUpdateLogs, f, map[], limit, 150000, 100000).0 == Err(ReachedLowerLimit(limit));
  }
}
