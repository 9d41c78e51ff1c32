/** Pagination parameters and leaderboard response envelopes of the indexer
    API (crates/lambdas/indexer-api/src/models.rs). */
module ApiModels {
  import opened Wrappers
  import opened Ints

  /** The limit used when a query gives none. */
  const DEFAULT_LIMIT: u64 := 50

  /** The largest limit a query may ask for. */
  const MAX_LIMIT: u64 := 100

  datatype PaginationParams = PaginationParams(limit: u64, offset: u64)

  /** Deserialising the query string: a missing limit is `DEFAULT_LIMIT`, a
      missing offset is 0. */
  function FromQuery(limit: Option<u64>, offset: Option<u64>): (p: PaginationParams)
    ensures limit.None? ==> p.limit == DEFAULT_LIMIT
    ensures offset.None? ==> p.offset == 0
    ensures limit.Some? ==> p.limit == limit.value
    ensures offset.Some? ==> p.offset == offset.value
  {
    PaginationParams(limit.GetOr(DEFAULT_LIMIT), offset.GetOr(0))
  }

  /** `PaginationParams::validate`: the limit is capped at `MAX_LIMIT`, the
      offset is kept. */
  function Validate(p: PaginationParams): (q: PaginationParams)
    ensures q.limit <= MAX_LIMIT
    ensures q.limit <= p.limit
    ensures p.limit <= MAX_LIMIT ==> q.limit == p.limit
    ensures p.limit > MAX_LIMIT ==> q.limit == MAX_LIMIT
    ensures q.offset == p.offset
  {
    PaginationParams(Min(p.limit, MAX_LIMIT), p.offset)
  }

  /** Validating twice is the same as validating once. */
  lemma ValidateIdempotent(p: PaginationParams)
    ensures Validate(Validate(p)) == Validate(p)
  {
  }

  /** A parameter set is left unchanged by validation exactly when its limit
      is within the cap. */
  lemma ValidateFixedPoints(p: PaginationParams)
    ensures Validate(p) == p <==> p.limit <= MAX_LIMIT
  {
  }

  /** The defaults a query without parameters gets are already valid. */
  lemma DefaultsAreValid()
    ensures Validate(FromQuery(None, None)) == FromQuery(None, None)
    ensures FromQuery(None, None) == PaginationParams(50, 0)
  {
  }

  datatype PaginationMetadata = PaginationMetadata(count: nat, offset: u64, limit: u64)

  datatype LeaderboardResponse<T> = LeaderboardResponse(entries: seq<T>, pagination: PaginationMetadata)

  datatype AddressLeaderboardResponse<T, S> =
    AddressLeaderboardResponse(entries: seq<T>, pagination: PaginationMetadata, summary: S)

  /** `LeaderboardResponse::new`: the count is the number of entries; the
      offset and limit are echoed. */
  function NewLeaderboardResponse<T>(entries: seq<T>, offset: u64, limit: u64): (r: LeaderboardResponse<T>)
    ensures r.entries == entries
    ensures r.pagination.count == |entries|
    ensures r.pagination.offset == offset && r.pagination.limit == limit
  {
    LeaderboardResponse(entries, PaginationMetadata(|entries|, offset, limit))
  }

  /** `AddressLeaderboardResponse::new`: the same pagination metadata as a
      leaderboard response, plus the summary. */
  function NewAddressLeaderboardResponse<T, S>(entries: seq<T>, offset: u64, limit: u64, summary: S): (r: AddressLeaderboardResponse<T, S>)
    ensures r.entries == entries
    ensures r.pagination.count == |entries|
    ensures r.pagination.offset == offset && r.pagination.limit == limit
    ensures r.summary == summary
  {
    AddressLeaderboardResponse(entries, PaginationMetadata(|entries|, offset, limit), summary)
  }

  /** Both envelopes carry the same entries and the same metadata. */
  lemma AddressResponseAgreesWithLeaderboard<T, S>(entries: seq<T>, offset: u64, limit: u64, summary: S)
    ensures NewAddressLeaderboardResponse(entries, offset, limit, summary).pagination
         == NewLeaderboardResponse(entries, offset, limit).pagination
    ensures NewAddressLeaderboardResponse(entries, offset, limit, summary).entries
         == NewLeaderboardResponse(entries, offset, limit).entries
  {
  }

  /** A page requested with validated parameters reports a count no larger than
      the limit, when the page holds at most `limit` entries. */
  lemma PageCountWithinLimit<T>(entries: seq<T>, p: PaginationParams)
    requires |entries| <= Validate(p).limit
    ensures NewLeaderboardResponse(entries, Validate(p).offset, Validate(p).limit).pagination.count <= MAX_LIMIT
  {
  }
}
