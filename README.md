# Boundless reward accounting, mint calculation and work-log bookkeeping in Dafny

This project is a Dafny model of the deterministic core of the Boundless
repository. It covers the integer arithmetic over maps and sequences that
decides who is rewarded and how much, and it proves properties of that model.

- **PoVW reward accounting** (`povw_rewards.dfy`). Proof-of-verifiable-work (PoVW) rewards are computed per epoch. Each epoch's emissions are shared out in proportion to the work each work log submitted. Each share is capped by the work log's reward cap. The results are aggregated per work log and in an all-epochs summary.
- **Delegation powers** (`delegation_powers.dfy`). Vote and reward delegation events are replayed over four maps. The state is captured at every epoch boundary and up to the processing end.
- **Mint calculator** (`mint_calculator_lib.dfy`, `mint_calculator_guest.dfy`).
  - The guest checks that each work log's updates form an unbroken chain of commits.
  - It weighs each update by its share of the epoch's work, as a 128-bit fixed-point fraction.
  - It shares each work log's reward cap between the recipients in ascending address order.
  - It checks the result against the accounting contract's commits, and builds the journal of mints.
  - The shared helpers are the work-log filter, the `FixedPoint` type and the gap-patching block iterator.
- **Broker order prioritisation** (`prioritization.dfy`). Covers the saturating expected-profit estimate, the priority-client split, the per-mode orderings and the two order pickers.
- **PoVW commands of the CLI** (`cli_state.dfy`, `cli_prepare.dfy`, `cli_submit.dfy`, `cli_claim.dfy`).
  - The versioned work-log state file: its update rules and its chain-validity invariant.
  - Receipt admission in `prepare`.
  - Choosing the receipt suffix in `submit`.
  - In `claim`: the block-by-timestamp search, the backward chunked event scan, rebuilding the update chain, and collecting the finalized epochs.
- **Indexer database helpers** (`indexer_rewards_db.dfy`). The order-preserving zero-padded `U256` encoding, and the placeholder numbering of the batch upserts and history queries.
- **Indexer API** (`api_models.dfy`, `api_utils.dfy`). Pagination, response envelopes, and number formatting with thousands separators.

Shared vocabulary lives in these files:

| file | contents |
|---|---|
| `wrappers.dfy` | `Option`, `Result`, `Outcome` |
| `ints.dfy` | `u64` and `U256`, wrapping and saturating arithmetic, `as i64` |
| `decimal.dfy` | decimal rendering and parsing |
| `sorting.dfy` | `BTreeMap` key order, stable `sort_by_key` |
| `folds.dfy` | fallible folds, used to state what a loop that may panic computes |
| `sums.dfy` | order-independent sums over maps |

Files that only compute values are modelled as functions with lemmas. Code that mutates state step by step is modelled as methods with loop invariants, proved against specification functions. The state file, the order vector and the patched iterator are classes with `modifies` frames.

A Rust panic (an `unwrap`, a `checked_*` overflow, an `assert!`) becomes an error value of the enclosing operation. Calls into code outside the model become function-typed parameters or input data. These include the chain and its contracts, the Bento service, the prover, files and the clock.

## Model

| member | source | states |
|---|---|---|
| Ints.WrappingAdd | crates/rewards/src/povw.rs:185-186 | U256 addition: the exact sum when below 2^256, the sum less 2^256 otherwise |
| Ints.WrappingAddIsModular | crates/rewards/src/povw.rs:185-186 | U256 addition is addition modulo 2^256 |
| Ints.WrappingMulExact | crates/rewards/src/povw.rs:161 | a U256 product that fits is the exact product |
| Ints.SaturatingSub | crates/broker/src/prioritization.rs:90 | `saturating_sub`: never more than the minuend, exact when the subtrahend is not larger, and 0 otherwise |
| Ints.AsI64 | crates/indexer/src/db/rewards.rs:1496-1501 | `as i64` on a u64: a signed 64-bit value congruent to the input modulo 2^64 |
| Ints.Min | crates/lambdas/indexer-api/src/models.rs:45 | `min` is one of its arguments and at most both |
| Decimal.DigitChar | crates/lambdas/indexer-api/src/utils.rs:49 | the character of a decimal digit |
| Decimal.DigitValue | crates/indexer/src/db/rewards.rs:36 | the digit a decimal character stands for |
| Decimal.ToDecimal | crates/lambdas/indexer-api/src/utils.rs:49 | `to_string` of a number is a non-empty digit string |
| Decimal.DigitsValue | crates/indexer/src/db/rewards.rs:36 | the value of a digit string is below ten to its length |
| Decimal.ToDecimalValue | crates/lambdas/indexer-api/src/utils.rs:49 | the decimal rendering of a number reads back as that number |
| Decimal.ToDecimalNoLeadingZero | crates/indexer/src/db/rewards.rs:30-32 | the rendering of a positive number has no leading zero, and zero renders as "0" |
| Decimal.ToDecimalLength | crates/indexer/src/db/rewards.rs:28-32 | a number below 10^k renders in at most `k` digits |
| Decimal.ToDecimalInjective | crates/indexer/src/db/rewards.rs:28-32 | different numbers render differently |
| Decimal.U256HasAtMost78Digits | crates/indexer/src/db/rewards.rs:29 | every U256 renders in at most 78 digits, because 2^256 is below 10^78 |
| Decimal.DecimalDigitsParse | crates/indexer/src/db/rewards.rs:36 | `U256::from_str` reads a digit string to its value |
| Decimal.ParseToDecimal | crates/lambdas/indexer-api/src/utils.rs:20-41 | parsing the rendering of a U256 gives it back |
| Decimal.BadCharRejected | crates/indexer/src/db/rewards.rs:36-42 | a character that is no digit, letter or underscore makes `from_str` fail |
| Sorting.SetMin | crates/povw/mint-calculator/src/main.rs:60-62 | the least key of a non-empty key set |
| Sorting.AscendingKeys | crates/povw/mint-calculator/src/main.rs:45-61 | the keys of a `BTreeMap`, in the order it iterates them: each once, strictly ascending |
| Sorting.IntervalListing | crates/rewards/src/powers.rs:127-147 | an ascending listing of exactly the numbers `lo..=hi` is `lo, lo+1, …, hi` |
| Sorting.InsertByFacts | crates/broker/src/prioritization.rs:128-130 | inserting into a sorted list keeps it sorted and adds exactly the element |
| Sorting.SortByPermutes | crates/broker/src/prioritization.rs:128-147 | `sort_by_key` only reorders: the result is a permutation of the input |
| Sorting.SortBySorts | crates/broker/src/prioritization.rs:128-147 | `sort_by_key` leaves the keys non-decreasing |
| Sorting.SortByStable | crates/broker/src/prioritization.rs:128-147 | `sort_by_key` is stable: elements with one key keep their input order |
| Sorting.SortBySortedIsIdentity | crates/broker/src/prioritization.rs:128-147 | sorting an already sorted list changes nothing |
| Sorting.EntriesListing | crates/povw/mint-calculator/src/main.rs:196-200 | the entries of a `BTreeMap` in iteration order: each key once, strictly ascending, with its value |
| Sums.SumMapRemove | crates/rewards/src/povw.rs:185-186 | a sum over a map is one entry plus the sum over the rest |
| Sums.SumMapInsert | crates/rewards/src/povw.rs:185-186 | adding an entry to a map adds its value to the sum |
| Sums.SumMapMono | crates/rewards/src/povw.rs:173-186 | summing pointwise smaller values gives a smaller sum |
| Sums.SumMapBound | crates/rewards/src/povw.rs:185-186 | no entry exceeds the sum |
| Ints.AsI64ReadsBack | crates/indexer/src/db/rewards.rs:546 | an epoch bound `as i64` reads back modulo 2^64 to the original u64 |
| Decimal.HexDigits | crates/indexer/src/db/rewards.rs:545 | exactly the requested number of lowercase hexadecimal digits |
| Decimal.HexDigitsValue | crates/indexer/src/db/rewards.rs:545 | a value below 16^n reads back from its n digits |
| Decimal.AddressHex | crates/indexer/src/db/rewards.rs:545 | `{:#x}` of an address: "0x" followed by 40 hexadecimal digits, 42 characters in all |
| Decimal.AddressHexReadsBack | crates/indexer/src/db/rewards.rs:545 | the digits after "0x" read back to the address, so distinct addresses get distinct text |
| ApiModels.FromQuery | crates/lambdas/indexer-api/src/models.rs:27-39 | a missing limit defaults to 50 and a missing offset to 0; given values are taken as they are |
| ApiModels.Validate | crates/lambdas/indexer-api/src/models.rs:43-48 | the limit is capped at 100 (kept when already at most 100, 100 otherwise) and the offset is unchanged |
| ApiModels.ValidateIdempotent | crates/lambdas/indexer-api/src/models.rs:43-48 | validating twice is validating once |
| ApiModels.ValidateFixedPoints | crates/lambdas/indexer-api/src/models.rs:43-48 | validation leaves the parameters alone exactly when the limit is at most 100 |
| ApiModels.DefaultsAreValid | crates/lambdas/indexer-api/src/models.rs:29-39 | the defaults are limit 50, offset 0, and validation keeps them |
| ApiModels.NewLeaderboardResponse | crates/lambdas/indexer-api/src/models.rs:156-161 | the response carries the entries, counts them, and echoes offset and limit |
| ApiModels.NewAddressLeaderboardResponse | crates/lambdas/indexer-api/src/models.rs:176-181 | as the leaderboard response, and it also carries the summary |
| ApiModels.AddressResponseAgreesWithLeaderboard | crates/lambdas/indexer-api/src/models.rs:156-181 | both constructors build the same entries and pagination metadata from the same inputs |
| ApiModels.PageCountWithinLimit | crates/lambdas/indexer-api/src/models.rs:43-48 | a page of at most the validated limit reports a count of at most 100 |
| ApiUtils.CommasCons | crates/lambdas/indexer-api/src/utils.rs:53-59 | putting one more digit in front of a grouped string adds a comma exactly when the groups already there are full |
| ApiUtils.GroupThousands | crates/lambdas/indexer-api/src/utils.rs:49-62 | the character loop that inserts a comma before every fourth character from the right yields the grouping of the whole string |
| ApiUtils.FormatWithCommas | crates/lambdas/indexer-api/src/utils.rs:48-63 | `format_with_commas(n)` is the grouping of the decimal rendering of `n` |
| ApiUtils.FormatWithCommasU256 | crates/lambdas/indexer-api/src/utils.rs:66-81 | `format_with_commas_u256(n)` is the grouping of the decimal rendering of `n` |
| ApiUtils.RemoveCommasAppend | crates/lambdas/indexer-api/src/utils.rs:48-63 | deleting commas distributes over concatenation |
| ApiUtils.RemoveCommasOfDigits | crates/lambdas/indexer-api/src/utils.rs:48-63 | a digit string has no comma to delete |
| ApiUtils.CommasRemoved | crates/lambdas/indexer-api/src/utils.rs:48-63 | deleting the commas from a grouped digit string gives the digits back |
| ApiUtils.CommasShape | crates/lambdas/indexer-api/src/utils.rs:52-60 | grouping adds one comma per full group after the first, and a position holds a comma exactly when it is a multiple of four from the end: the leading group has one to three digits and every other group three |
| ApiUtils.SmallNumbersHaveNoComma | crates/lambdas/indexer-api/src/utils.rs:107-113 | numbers below 1000 are printed without a comma |
| ApiUtils.FormatZkc | crates/lambdas/indexer-api/src/utils.rs:20-31 | `format_zkc` parses the wei amount, divides by 10^18, groups the digits and appends " ZKC"; text that does not parse gives "0 ZKC" |
| ApiUtils.FormatCycles | crates/lambdas/indexer-api/src/utils.rs:35-44 | `format_cycles` parses the count, groups its digits unscaled and appends " cycles"; text that does not parse gives "0 cycles" |
| ApiUtils.AmountTextReadsBack | crates/lambdas/indexer-api/src/utils.rs:20-44 | a printed amount ends in a space and the unit, and the text before it with commas deleted is the decimal rendering of the parsed value divided by the scale |
| ApiUtils.UnparsableIsZero | crates/lambdas/indexer-api/src/utils.rs:29-42 | text that does not parse prints exactly like the amount zero |
| ApiUtils.CyclesUnscaled | crates/lambdas/indexer-api/src/utils.rs:35-41 | the rendering of a value printed as cycles shows that value, grouped, with no scaling |
| IndexerRewardsDb.Zeros | crates/indexer/src/db/rewards.rs:30-32 | the padding is a string of the requested number of '0' digits |
| IndexerRewardsDb.DigitsValueOfZeros | crates/indexer/src/db/rewards.rs:36-40 | a string of zeros is a digit string of value 0 |
| IndexerRewardsDb.DigitsValueZerosPrefix | crates/indexer/src/db/rewards.rs:30-32 | leading zeros do not change the value of a digit string |
| IndexerRewardsDb.TrimZerosPrefix | crates/indexer/src/db/rewards.rs:36 | trimming leading zeros ignores any zeros put in front |
| IndexerRewardsDb.PadU256Shape | crates/indexer/src/db/rewards.rs:28-32 | `pad_u256` always yields exactly 78 decimal digits whose value is the input |
| IndexerRewardsDb.UnpadPad | crates/indexer/src/db/rewards.rs:30-44 | `unpad_u256(pad_u256(v))` is `Ok(v)` for every U256 |
| IndexerRewardsDb.DigitsValueCons | crates/indexer/src/db/rewards.rs:28-29 | a leading digit contributes its value times the power of ten of the rest |
| IndexerRewardsDb.LeadingDigitOrder | crates/indexer/src/db/rewards.rs:28-29 | of two digit strings of one length, a smaller leading digit means a smaller value; equal leading digits leave the order to the rest |
| IndexerRewardsDb.LexLessIsNumericLess | crates/indexer/src/db/rewards.rs:28-29 | on digit strings of one length, text order is numeric order, both ways |
| IndexerRewardsDb.PadPreservesOrder | crates/indexer/src/db/rewards.rs:28-29 | `a < b` exactly when `pad(a)` sorts before `pad(b)` as text, and `a <= b` exactly when `pad(b)` does not sort before `pad(a)` |
| IndexerRewardsDb.TrimAllZeros | crates/indexer/src/db/rewards.rs:36 | trimming an all-zeros string leaves nothing |
| IndexerRewardsDb.UnpadAllZeros | crates/indexer/src/db/rewards.rs:36-40 | an all-zeros string (the empty string included) unpads to 0 |
| IndexerRewardsDb.TrimIsSuffix | crates/indexer/src/db/rewards.rs:36 | trimming leading zeros leaves a suffix of the input |
| IndexerRewardsDb.UnpadRejectsForeignChar | crates/indexer/src/db/rewards.rs:36-42 | a string holding a character that is neither an underscore nor a digit or letter is rejected with an error |
| IndexerRewardsDb.TrimKeepsNonZero | crates/indexer/src/db/rewards.rs:36 | trimming never removes a character other than a leading zero |
| IndexerRewardsDb.ChunkClauses | crates/indexer/src/db/rewards.rs:508-523 | the values clauses of a chunk: row `r` of a table of `k` columns uses placeholders `r*k+1 .. r*k+k`, the stamp column where the table has one |
| IndexerRewardsDb.ChunkBinds | crates/indexer/src/db/rewards.rs:542-554 | the values bound for a chunk are each row's values, in row order |
| IndexerRewardsDb.ChunkStatementsFirst | crates/indexer/src/db/rewards.rs:505 | splitting off the first chunk of at most 75 rows splits off the first statement |
| IndexerRewardsDb.BatchUpsert | crates/indexer/src/db/rewards.rs:498-559 | the `upsert_*` builders: an empty row list is a no-op; otherwise one statement per chunk of 75 rows, each numbered from `$1`, inside one transaction for every table but the staking rewards, whose chunks run separately |
| IndexerRewardsDb.ChunksCover | crates/indexer/src/db/rewards.rs:473-505 | the chunks hold every row in order; each holds between 1 and 75 rows, and all but the last exactly 75 |
| IndexerRewardsDb.FlattenUniform | crates/indexer/src/db/rewards.rs:542-554 | in the bound values, field `f` of row `r` sits at position `r*k+f` |
| IndexerRewardsDb.FlattenUniformLength | crates/indexer/src/db/rewards.rs:542-554 | a chunk binds `k` values per row |
| IndexerRewardsDb.PlaceholdersMatchBinds | crates/indexer/src/db/rewards.rs:508-554 | placeholder `r*k+f+1` of a chunk's statement names exactly field `f` of row `r`, and a chunk binds at most `75*k` values |
| IndexerRewardsDb.PovwRewardBinds | crates/indexer/src/db/rewards.rs:543-553 | each PoVW reward row binds nine values in column order: the log ID as 42-character `0x` text, the epoch as an i64, text for the U256 amounts, the percentage, and the capped flag as 1 exactly when the reward is capped and 0 otherwise |
| IndexerRewardsDb.UpsertPovwRewardsByEpoch | crates/indexer/src/db/rewards.rs:489-559 | `upsert_povw_rewards_by_epoch`: nothing for no rows, otherwise one transaction holding one statement per chunk of 75 rows with each row's values bound in order |
| IndexerRewardsDb.HistoryFilter | crates/indexer/src/db/rewards.rs:1484-1501 | the history query builders number the optional start and end placeholders consecutively from `$2`, in order of presence, and bind the address then the epochs as i64 |
| IndexerRewardsDb.PadU256 | crates/indexer/src/db/rewards.rs:29-31 | the definition of `pad_u256`: the decimal text of the value left-padded with '0' to 78 characters; its properties are PadU256Shape, UnpadPad and PadPreservesOrder |
| IndexerRewardsDb.UnpadU256 | crates/indexer/src/db/rewards.rs:34-44 | the definition of `unpad_u256`: parse the text without its leading zeros; on a parse failure an all-zeros text is 0 and anything else a `BadTransaction` error; its properties are UnpadPad, UnpadAllZeros and UnpadRejectsForeignChar |
| IndexerRewardsDb.PovwRewardBindsReadBack | crates/indexer/src/db/rewards.rs:543-553 | the bound values read back to the row: the log ID from its hexadecimal digits, the epoch modulo 2^64, each amount through `unpad_u256` from 78 digits, and the percentage as given |
| IndexerRewardsDb.StakingRewardBinds | crates/indexer/src/db/rewards.rs:1992-2000 | each staking reward row binds five values: the staker as 42-character `0x` text, the epoch as an i64, and text for the power and the rewards |
| IndexerRewardsDb.StakingRewardBindsReadBack | crates/indexer/src/db/rewards.rs:1992-2000 | the staker, the epoch modulo 2^64, the power and the rewards read back from the bound values |
| IndexerRewardsDb.UpsertStakingRewardsByEpoch | crates/indexer/src/db/rewards.rs:1954-2004 | `upsert_staking_rewards_by_epoch`: nothing for no rows, otherwise one statement per chunk executed on its own, outside any transaction |
| PovwRewards.TotalWorkFor | crates/rewards/src/povw.rs:134-144 | the current epoch uses the pending total work; a past epoch uses its cached total, or zero when none is cached |
| PovwRewards.RewardInfoIsCappedShare | crates/rewards/src/povw.rs:159-199 | a work log's record carries its work, its proportional share, its cap, the smaller of share and cap as its capped reward, `is_capped` exactly when the cap cuts the share, its staking amount (zero by default) and its recipient (the log itself by default) |
| PovwRewards.EpochRewardsMap | crates/rewards/src/povw.rs:159-201 | no work log's capped reward exceeds its proportional reward |
| PovwRewards.ProportionalTotalInsert | crates/rewards/src/povw.rs:185-186 | adding a new work log's record adds its proportional and capped rewards to the epoch's totals |
| PovwRewards.RewardsForInsert | crates/rewards/src/povw.rs:188-200 | the records of a set of work logs grow by one record per added log, computed from that log's work alone |
| PovwRewards.EpochWorkStep | crates/rewards/src/povw.rs:147-152 | visiting one more cached work entry adds it to the epoch's work map exactly when it belongs to the epoch |
| PovwRewards.WrappedTotalsStep | crates/rewards/src/povw.rs:184-186 | the running U256 totals stay the exact totals of the records so far, reduced modulo 2^256 |
| PovwRewards.RecordsUpToEmpty | crates/rewards/src/povw.rs:155-157 | before any work log is visited there are no records and both totals are zero |
| PovwRewards.RecordsStep | crates/rewards/src/povw.rs:159-201 | visiting one more work log keeps the records equal to those of the logs visited and the totals equal to their wrapped sums |
| PovwRewards.CollectEpochWork | crates/rewards/src/povw.rs:146-152 | the loop over the cache yields exactly the work of each log in the requested epoch |
| PovwRewards.ComputeEpochRecords | crates/rewards/src/povw.rs:154-201 | the records are built for every log with work in the epoch; the loop fails with a missing-cap error exactly when some such log has no cached cap |
| PovwRewards.ComputePovwRewardsForEpoch | crates/rewards/src/povw.rs:107-213 | the method computes exactly the epoch's rewards as specified, including its three error cases in source order |
| PovwRewards.EpochFailsIff | crates/rewards/src/povw.rs:121-170 | an epoch fails exactly when its emissions or time range are missing, or when some log with work in it has no reward cap |
| PovwRewards.EpochRecordsAreTheWorkers | crates/rewards/src/povw.rs:146-201 | an epoch has a record for a log exactly when the log submitted work in that epoch, and the record holds that work |
| PovwRewards.EpochCappedTotalBounded | crates/rewards/src/povw.rs:184-186 | the epoch's capped total never exceeds its proportional total, and the wrapped totals keep that order when nothing wraps |
| PovwRewards.CappedTotalBounded | crates/rewards/src/povw.rs:173-186 | when each capped reward is at most its proportional reward, so are their totals |
| PovwRewards.ProportionalIsFloorShare | crates/rewards/src/povw.rs:160-161 | when nothing overflows, the proportional reward is the floor of work times emissions over total work, and a log with at most the total work gets at most the emissions |
| PovwRewards.NoWorkNoRewards | crates/rewards/src/povw.rs:160-161 | in an epoch with zero total work every log's capped reward is zero |
| PovwRewards.LastSplit | crates/rewards/src/povw.rs:283 | pushing an epoch's result keeps the earlier results and puts the new one last |
| PovwRewards.NonParticipantIsEmpty | crates/rewards/src/povw.rs:264-273 | a log that appears in no epoch has an all-zero summary |
| PovwRewards.AggregateAppend | crates/rewards/src/povw.rs:264-281 | one more epoch adds its record to a log's summary, starting from a zero entry, and leaves logs absent from that epoch unchanged |
| PovwRewards.PartlyAggregatedStart | crates/rewards/src/povw.rs:264 | before an epoch's records are visited the aggregates are those of the earlier epochs |
| PovwRewards.PartlyAggregatedStep | crates/rewards/src/povw.rs:265-280 | visiting one record updates only that log's entry, created empty when missing |
| PovwRewards.PartlyAggregatedEnd | crates/rewards/src/povw.rs:264-281 | once all of an epoch's records are visited the aggregates are those of all epochs so far |
| PovwRewards.AggregateEpoch | crates/rewards/src/povw.rs:264-281 | the inner loop turns the aggregates of the earlier epochs into those including the new epoch, whatever order the records are visited in |
| PovwRewards.AddEpoch | crates/rewards/src/povw.rs:254-281 | the running statistics and aggregates after one more epoch are exactly those of the longer list of epochs |
| PovwRewards.EpochsWithWorkAppend | crates/rewards/src/povw.rs:255-257 | the count of epochs with work grows by one exactly when the new epoch has positive total work |
| PovwRewards.AllTimeSumAppend | crates/rewards/src/povw.rs:258-261 | each all-time total is the sum over the epochs reduced modulo 2^256, and grows by a wrapping add |
| PovwRewards.EpochsInOrderAppend | crates/rewards/src/povw.rs:240-283 | appending the next epoch's successful result keeps the list equal to the results of epochs 0, 1, 2, … in order |
| PovwRewards.FirstFailureHere | crates/rewards/src/povw.rs:241-252 | when every earlier epoch succeeded and this one fails, this is the first failing epoch |
| PovwRewards.ComputePovwRewards | crates/rewards/src/povw.rs:217-296 | the run either returns the error of the first failing epoch, or the results of epochs 0 to the end epoch in order with their per-log summaries and the summary statistics |
| PovwRewards.FailureIsSomeEpoch | crates/rewards/src/povw.rs:240-252 | a failed run means some epoch up to the end epoch fails |
| PovwRewards.SummariesAreTheParticipants | crates/rewards/src/povw.rs:286-295 | a log has a summary exactly when it has a record in some epoch, and the unique-log count is the number of such logs |
| PovwRewards.ParticipationsBounded | crates/rewards/src/povw.rs:278-280 | a log participates in at most as many epochs as were processed, and participating at all means it submitted positive work in some epoch |
| PovwRewards.EpochsWithWorkBounded | crates/rewards/src/povw.rs:255-257 | the count of epochs with work is at most the number of epochs, and zero exactly when every epoch had zero total work |
| PovwRewards.EpochRewards | crates/rewards/src/povw.rs:107-213 | the definition of one epoch's result: the emissions, time range and total-work lookups with their errors, then one capped record per work log with work; its properties are EpochFailsIff, EpochRecordsAreTheWorkers and EpochCappedTotalBounded |
| Powers.VoteDelegationEffect | crates/rewards/src/powers.rs:93-99 | a vote delegation change points the delegator at the new delegate, or removes its delegation when it delegates to itself, and changes nothing else |
| Powers.RewardDelegationEffect | crates/rewards/src/powers.rs:100-106 | a reward delegation change points the delegator at the new delegate, or removes its delegation when it delegates to itself, and changes nothing else |
| Powers.PowerChangeEffect | crates/rewards/src/powers.rs:107-120 | a power change sets the delegate's vote or reward power, keeping an entry only for a positive power, and changes no other address and no other map |
| Powers.ApplyPreservesWellFormed | crates/rewards/src/powers.rs:91-121 | applying any event keeps every stored power positive and every stored delegation away from the delegator itself |
| Powers.BuildEpochDelegationPowers | crates/rewards/src/powers.rs:150-186 | the loop over the delegates builds exactly the snapshot of the current powers and delegations |
| Powers.SnapshotOfWellFormed | crates/rewards/src/powers.rs:158-183 | a snapshot lists exactly the addresses with positive vote or reward power, and each lists exactly the addresses delegating votes or rewards to it |
| Powers.FillContents | crates/rewards/src/powers.rs:79-87 | capturing a snapshot for a range of epochs stores it for those epochs and keeps every other epoch's state |
| Powers.AscendingListing | crates/rewards/src/powers.rs:139-145 | the listing holds each captured epoch once, with its powers, sorted by strictly increasing epoch |
| Powers.CaptureEpochs | crates/rewards/src/powers.rs:79-87 | the capture loop stores the current snapshot for every epoch of the range and keeps every other epoch's state |
| Powers.ComputeDelegationPowers | crates/rewards/src/powers.rs:62-148 | the method returns exactly the epoch-by-epoch history that replaying the events specifies |
| Powers.NoEventsNoHistory | crates/rewards/src/powers.rs:126-137 | with no events no epoch is captured and the history is empty |
| Powers.ReplayStaysProper | crates/rewards/src/powers.rs:75-124 | every prefix of the replay keeps a well-formed ledger and only captures proper snapshots |
| Powers.HistoryIsProper | crates/rewards/src/powers.rs:62-148 | every epoch of the history lists only addresses with power, and no address among its own delegators |
| Powers.ReplayedEpochs | crates/rewards/src/powers.rs:76-89 | for events in non-decreasing epoch order, replaying a prefix has captured exactly the epochs from the first event's epoch up to, not including, the last event's epoch |
| Powers.IntervalStates | crates/rewards/src/powers.rs:139-145 | when the captured epochs form an interval, the sorted listing has one entry per epoch of it, in order |
| Powers.FinalEpochs | crates/rewards/src/powers.rs:126-137 | after the final capture the captured epochs are exactly those from the first event's epoch to the end epoch |
| Powers.HistoryCoversEpochs | crates/rewards/src/powers.rs:62-148 | for ordered events ending by the end epoch, the history has one entry for each epoch from the first event's epoch to the end epoch, in order |
| Powers.CapturedSnapshotStays | crates/rewards/src/powers.rs:76-89 | an epoch captured at a boundary keeps the snapshot taken there for the rest of the replay |
| Powers.FinalStatesBeforeBoundary | crates/rewards/src/powers.rs:76-137 | an epoch between two events' epochs keeps the snapshot of all events before the later one |
| Powers.SnapshotBeforeBoundary | crates/rewards/src/powers.rs:62-148 | each epoch between two events' epochs appears in the history with the powers of all events before the later event |
| Powers.SnapshotAfterLastEvent | crates/rewards/src/powers.rs:126-137 | each epoch from the last event's epoch to the end epoch appears in the history with the powers after all events |
| MintCalculator.FilterSemantics | crates/povw/src/mint_calculator.rs:107-140 | the default filter includes every work log, the empty filter none, and a filter built from a list exactly the logs on the list (none for an empty list) |
| MintCalculator.Fraction | crates/povw/src/mint_calculator.rs:195-205 | a fraction is at most one (the base 2^128); it fails with an overflow exactly when the numerator times the base does not fit in 256 bits |
| MintCalculator.FractionIsFloor | crates/povw/src/mint_calculator.rs:201-205 | a fraction is the floor of the numerator times 2^128 over the denominator |
| MintCalculator.FractionAcceptsProperFractions | crates/povw/src/mint_calculator.rs:195-205 | `fraction` succeeds exactly for a numerator below 2^128, a positive denominator and a numerator not above the denominator |
| MintCalculator.MulUnwrap | crates/povw/src/mint_calculator.rs:207-209 | the product panics exactly when the raw value times the argument does not fit in 256 bits |
| MintCalculator.MulUnwrapAtMostWhole | crates/povw/src/mint_calculator.rs:207-209 | a fraction of at most one times an amount is at most that amount |
| MintCalculator.MulUnwrapIsFloor | crates/povw/src/mint_calculator.rs:207-209 | the product is the floor of the raw value times the argument over 2^128 |
| MintCalculator.Add | crates/povw/src/mint_calculator.rs:212-224 | adding fixed-point values adds their raw values exactly and panics exactly when the sum does not fit in 256 bits |
| MintCalculator.AddZero | crates/povw/src/mint_calculator.rs:189-218 | the default fixed-point value, zero, is an identity for addition |
| MintCalculator.PatchedKeepsInput | crates/povw/src/mint_calculator.rs:869-880 | each input value is emitted, preceded by the filler values its gap from the previous value requires |
| MintCalculator.FillerSteps | crates/povw/src/mint_calculator.rs:872-875 | filler values climb from the previous value in steps of exactly the maximum gap, stay below the next input, and leave at most one maximum gap before it |
| MintCalculator.PatchedGapsBounded | crates/povw/src/mint_calculator.rs:854-881 | no two consecutive values of the patched sequence are more than the maximum gap apart |
| MintCalculator.PatchedNoGapIsIdentity | crates/povw/src/mint_calculator.rs:869-880 | a sequence with no gap larger than the maximum passes through unchanged |
| MintCalculator.PatchedIterator.constructor | crates/povw/src/mint_calculator.rs:860-864 | a new iterator has nothing buffered and no previous value, and will yield the patched input |
| MintCalculator.PatchedIterator.Next | crates/povw/src/mint_calculator.rs:869-880 | `next` returns nothing exactly when the buffer and the input are exhausted, and otherwise the first value of the patched sequence still to come |
| MintCalculator.PatchedIterator.Collect | crates/povw/src/mint_calculator.rs:885-887 | collecting the iterator yields exactly the patched sequence and exhausts it |
| MintCalculator.PatchedExamples | crates/povw/src/mint_calculator.rs:889-898 | the patched sequences of the source's own examples for a maximum gap of 10 |
| MintCalculator.Patched | crates/povw/src/mint_calculator.rs:869-880 | the definition of what `PatchedIterator` yields: each input value, preceded by `prev + MAX_GAP` steps while the next value is more than MAX_GAP above the previous output; its properties are PatchedKeepsInput, PatchedGapsBounded and PatchedNoGapIsIdentity |
| MintGuest.CollectEpochs | crates/povw/mint-calculator/src/main.rs:42-64 | the first loop over the blocks computes exactly the specified finalized-epoch map and latest finalization block, or the duplicate-finalization panic |
| MintGuest.CollectUpdate | crates/povw/mint-calculator/src/main.rs:77-119 | one event is skipped when filtered out or its epoch is unfinalized, otherwise extends its log's commit range (panicking when it does not chain) and adds its fraction of the epoch's work to the recipient's weight, exactly as the specified update step |
| MintGuest.CollectUpdates | crates/povw/mint-calculator/src/main.rs:66-121 | the second loop over the blocks computes exactly the specified commit ranges and reward weights, or the broken-chain or fraction panic |
| MintGuest.RecordStep | crates/povw/mint-calculator/src/main.rs:54-63 | recording one more finalization either keeps every finalized epoch's total work and the latest block, or panics because that epoch was already finalized |
| MintGuest.RecordFresh | crates/povw/mint-calculator/src/main.rs:56-62 | a finalization for a new epoch records its total work and moves the latest finalization block to its block |
| MintGuest.DuplicatedExtends | crates/povw/mint-calculator/src/main.rs:54-58 | a duplicate finalization stays a duplicate as more events follow |
| MintGuest.FinalizationFacts | crates/povw/mint-calculator/src/main.rs:42-64 | the finalization loop succeeds exactly when no epoch is finalized twice; then it records each epoch's total work and the block of the last finalization, and otherwise panics on a duplicated epoch |
| MintGuest.LinkedPrefix | crates/povw/mint-calculator/src/main.rs:96-104 | a prefix of a linked chain of updates is linked |
| MintGuest.ChainOfStep | crates/povw/mint-calculator/src/main.rs:78-105 | an included update extends only its own work log's chain of updates |
| MintGuest.ApplyUpdateRanges | crates/povw/mint-calculator/src/main.rs:78-105 | an update that the filter or the missing finalization excludes changes nothing; one that does not start at its log's last commit panics; otherwise the log's range keeps its first commit and ends at the update's commit |
| MintGuest.ChainExtends | crates/povw/mint-calculator/src/main.rs:96-104 | an update starting at a chain's last commit keeps the chain linked |
| MintGuest.ChainStep | crates/povw/mint-calculator/src/main.rs:78-105 | one more update keeps every recorded range equal to the span of its log's linked chain, or panics because that log's chain is broken |
| MintGuest.ChainBreaks | crates/povw/mint-calculator/src/main.rs:96-102 | an update not starting where its log's chain ends breaks the chain |
| MintGuest.ChainGrows | crates/povw/mint-calculator/src/main.rs:92-105 | an update that starts where its log's chain ends extends the recorded range to its updated commit |
| MintGuest.UpdatesFormChains | crates/povw/mint-calculator/src/main.rs:66-121 | after the update loop, each work log's recorded range spans the linked chain of its included updates; a broken-chain panic names a log whose chain is not linked |
| MintGuest.WeightOfSet | crates/povw/mint-calculator/src/main.rs:111-118 | setting one reward weight changes that (epoch, work log, recipient) weight only |
| MintGuest.WeightsAreSums | crates/povw/mint-calculator/src/main.rs:107-119 | each reward weight is the sum of the fractions of the included non-zero updates for that epoch, work log and recipient |
| MintGuest.ExcludedUpdateIgnored | crates/povw/mint-calculator/src/main.rs:79-89 | an update for a filtered-out log or an unfinalized epoch has no effect at all |
| MintGuest.CheckCompleteness | crates/povw/mint-calculator/src/main.rs:136-146 | the loop over the ranges computes exactly the specified completeness check |
| MintGuest.CheckFoldFacts | crates/povw/mint-calculator/src/main.rs:136-146 | checking a list of logs succeeds exactly when each one's on-chain commit matches its last update, and otherwise fails on the first log that does not |
| MintGuest.CompletenessFacts | crates/povw/mint-calculator/src/main.rs:123-146 | the completeness check passes exactly when every recorded log's commit at the check block equals its last updated commit, and otherwise panics on the lowest log that does not match |
| MintGuest.CompletenessFirstMismatch | crates/povw/mint-calculator/src/main.rs:136-146 | the first mismatch in ascending log order is the lowest mismatching log |
| MintGuest.RewardRecipients | crates/povw/mint-calculator/src/main.rs:181-192 | the recipient loop computes exactly the specified cap sharing among a work log's recipients |
| MintGuest.RewardWorkLogs | crates/povw/mint-calculator/src/main.rs:163-193 | the work-log loop computes exactly the specified rewards of one epoch, each log with its own reward cap |
| MintGuest.ComputeRewards | crates/povw/mint-calculator/src/main.rs:148-194 | running the epoch loop over the weights map in ascending epoch order computes exactly the specified rewards of all epochs |
| MintGuest.RewardEpochs | crates/povw/mint-calculator/src/main.rs:157-193 | the loop over the epochs' weights, in ascending epoch order, folds the epoch step over them, stopping at the first panic |
| MintGuest.Granted | crates/povw/mint-calculator/src/main.rs:181-192 | the recipient loop grants as many amounts as there are recipients, adding up to the uncapped total or the cap, whichever is less |
| MintGuest.GrantedAtMostUncapped | crates/povw/mint-calculator/src/main.rs:183-186 | no recipient is granted more than its uncapped reward |
| MintGuest.NoCapNoCut | crates/povw/mint-calculator/src/main.rs:183-191 | when the uncapped rewards fit under the cap every recipient gets its full uncapped reward |
| MintGuest.Uncapped | crates/povw/mint-calculator/src/main.rs:183 | there is one uncapped reward per recipient |
| MintGuest.CreditOf | crates/povw/mint-calculator/src/main.rs:187-189 | crediting a non-zero reward adds it to that recipient's total, wrapping in U256, and leaves everyone else unchanged |
| MintGuest.RecipientFoldSucceeds | crates/povw/mint-calculator/src/main.rs:181-192 | the recipient loop succeeds exactly when no recipient's uncapped reward overflows |
| MintGuest.GrantStep | crates/povw/mint-calculator/src/main.rs:181-192 | one more recipient keeps the rewards equal to the starting rewards plus the specified grants |
| MintGuest.GrantedSnoc | crates/povw/mint-calculator/src/main.rs:186 | the next recipient is granted its uncapped reward cut to the cap left |
| MintGuest.GrantedLast | crates/povw/mint-calculator/src/main.rs:186-191 | the last recipient's grant is its uncapped reward cut to what the earlier grants left of the cap |
| MintGuest.GrantedFromStep | crates/povw/mint-calculator/src/main.rs:186-191 | crediting a grant within the cap left takes it off the cap and adds it to its recipient |
| MintGuest.WrappedTotalStep | crates/povw/mint-calculator/src/main.rs:187-189 | crediting a grant, with U256 wrap-around, to a balance that is its start plus the earlier grants modulo 2^256 leaves the start plus all grants, modulo 2^256 |
| MintGuest.RecipientFoldGrants | crates/povw/mint-calculator/src/main.rs:175-192 | after the recipient loop the cap left is the cap minus all grants, and each recipient holds its start plus its grants modulo 2^256 |
| MintGuest.MintCalculatorMain | crates/povw/mint-calculator/src/main.rs:34-215 | the guest commits exactly the specified journal, or panics for exactly the specified reason |
| MintGuest.RecipientFoldKeys | crates/povw/mint-calculator/src/main.rs:175-192 | after the recipient loop a recipient has an entry exactly when it had one before or the loop granted it something |
| MintGuest.RecipientFoldAccumulates | crates/povw/mint-calculator/src/main.rs:175-192 | the recipient loop credits each recipient its grants: the balance is the wrapped sum and the entry exists exactly when it existed or something was granted |
| MintGuest.AccumulatedStep | crates/povw/mint-calculator/src/main.rs:187-189 | crediting in two stages is crediting the sum of both stages, modulo 2^256 |
| MintGuest.LogStepGrants | crates/povw/mint-calculator/src/main.rs:167-193 | one work log credits each recipient what it granted it under that work log's cap |
| MintGuest.WorkLogFoldGrants | crates/povw/mint-calculator/src/main.rs:160-193 | the work-log loop of an epoch credits each recipient the sum of its grants from every work log |
| MintGuest.EpochFoldGrants | crates/povw/mint-calculator/src/main.rs:148-194 | the epoch loop credits each recipient the sum of its grants from every epoch |
| MintGuest.RewardsAreGrantSums | crates/povw/mint-calculator/src/main.rs:148-200 | the rewards the guest mints list a recipient exactly when some work log of some epoch granted it something, and its reward is the sum of all its grants modulo 2^256 |
| MintGuest.MintsListRewards | crates/povw/mint-calculator/src/main.rs:196-200 | the journal lists one mint per rewarded recipient, by ascending address, each with its reward |
| MintGuest.UpdatesListRanges | crates/povw/mint-calculator/src/main.rs:201-208 | the journal lists one update per work log with a range, by ascending log ID, each with its first and last commit |
| MintGuest.CommittedStages | crates/povw/mint-calculator/src/main.rs:42-146 | a committed journal means no duplicate finalization, some finalization block, a linked update history, a completeness block present and passing, and the journal's updates are the recorded ranges |
| MintGuest.ListedChains | crates/povw/mint-calculator/src/main.rs:123-208 | every journal update spans its log's chain of updates and ends at the commit on chain, and every log with an included update is listed |
| MintGuest.RecordedChain | crates/povw/mint-calculator/src/main.rs:92-105 | a log has a recorded range exactly when it has included updates, and the range spans them |
| MintGuest.ListedChain | crates/povw/mint-calculator/src/main.rs:201-208 | a listed update spans its log's chain and ends at the on-chain commit |
| MintGuest.CommittedUpdates | crates/povw/mint-calculator/src/main.rs:66-146 | after a successful update loop and completeness check, the listed updates are exactly the complete chains of the included logs |
| MintGuest.JournalUpdatesAreCompleteChains | crates/povw/mint-calculator/src/main.rs:22-34 | every update in a committed journal is a complete, linked chain of that log's included events ending at the log's commit on chain, and no work log with included events is left out |
| MintGuest.DuplicateFinalizationAborts | crates/povw/mint-calculator/src/main.rs:56-58 | an epoch finalized twice makes the guest panic |
| MintGuest.NothingCounted | crates/povw/mint-calculator/src/main.rs:87-89 | with no finalized epoch every update is skipped |
| MintGuest.NoFinalizationAborts | crates/povw/mint-calculator/src/main.rs:132 | with no finalization event at all the guest panics |
| MintGuest.CollectedUpdates | crates/povw/mint-calculator/src/main.rs:66-121 | the definition of the update loop as a fold over every block's events: the range and weight of each included, finalized update, or the abort on a broken chain or a failing fraction; its properties are UpdatesFormChains, WeightsAreSums and ExcludedUpdateIgnored |
| MintGuest.Rewards | crates/povw/mint-calculator/src/main.rs:148-194 | the definition of the reward loop as folds over epochs, work logs and recipients in ascending order; its properties are Granted, GrantedAtMostUncapped, RecipientFoldGrants and RewardsAreGrantSums |
| MintGuest.MintSpec | crates/povw/mint-calculator/src/main.rs:34-215 | the definition of the guest's journal as its stages in source order: epochs, updates, completeness, rewards, then mints and updates listed in ascending order; its properties are JournalUpdatesAreCompleteChains, MintsListRewards and UpdatesListRanges |
| Prioritization.ExpectedProfit | crates/broker/src/prioritization.rs:64-93 | the expected profit never exceeds the order's maximum price |
| Prioritization.TimesOne | crates/broker/src/prioritization.rs:56-60 | multiplying by the constant success probability 1 leaves the profit unchanged |
| Prioritization.ProfitIsFlooredMargin | crates/broker/src/prioritization.rs:73-92 | when the costs do not overflow, the profit is the maximum price minus the proving and gas costs, or zero when the costs reach the price |
| Prioritization.NoCyclesNoProvingCost | crates/broker/src/prioritization.rs:76-81 | an order with unknown cycles, or fewer than a million, costs only gas |
| Prioritization.Swap | crates/broker/src/prioritization.rs:124 | a swap keeps the orders, as a multiset |
| Prioritization.ShuffleDownPermutes | crates/broker/src/prioritization.rs:124 | the Fisher-Yates passes keep the orders, as a multiset |
| Prioritization.ShuffledPermutes | crates/broker/src/prioritization.rs:124 | a shuffle is a permutation of the orders |
| Prioritization.ByModePermutes | crates/broker/src/prioritization.rs:119-149 | sorting by any mode is a permutation of the orders |
| Prioritization.ShortestExpiryOrder | crates/broker/src/prioritization.rs:128-130 | shortest-expiry mode orders by non-decreasing expiry and keeps orders with equal expiry in their original order |
| Prioritization.HighestValueOrder | crates/broker/src/prioritization.rs:131-147 | highest-expected-value mode orders by non-increasing profit, puts unprofitable orders last, and keeps orders of equal profit in their original order |
| Prioritization.TimeOrderedKeepsOrder | crates/broker/src/prioritization.rs:125-127 | observation-time mode without priority addresses leaves the orders as they were observed |
| Prioritization.PartitionPermutes | crates/broker/src/prioritization.rs:108-110 | the priority and regular groups together hold exactly the drained orders |
| Prioritization.PartitionSeparates | crates/broker/src/prioritization.rs:108-110 | the priority group holds only orders of listed clients and the regular group only orders of other clients |
| Prioritization.PrioritizedPermutes | crates/broker/src/prioritization.rs:95-117 | prioritising is a permutation of the orders |
| Prioritization.GroupsInPlace | crates/broker/src/prioritization.rs:115-116 | refilling with the priority group and then the regular group puts exactly the priority clients' orders first |
| Prioritization.PriorityClientsFirst | crates/broker/src/prioritization.rs:95-117 | with priority addresses, every order of a listed client comes before every other order |
| Prioritization.ByModeOrdered | crates/broker/src/prioritization.rs:119-149 | the result of sorting by a mode is ordered as that mode requires |
| Prioritization.PrioritizedGroupsOrdered | crates/broker/src/prioritization.rs:103-116 | with priority addresses each group is ordered by the mode, and in observation-time mode each keeps its observation order |
| Prioritization.OrderVec.constructor | crates/broker/src/prioritization.rs:177 | a new vector holds the given orders |
| Prioritization.Shuffle | crates/broker/src/prioritization.rs:124 | the in-place shuffle of the slice produces the specified shuffle for the given random draws |
| Prioritization.SortByMode | crates/broker/src/prioritization.rs:119-149 | sorting the slice in place produces exactly the specified order for the mode |
| Prioritization.SortSlice | crates/broker/src/prioritization.rs:104-113 | sorting a vector's storage yields the specified order for the mode |
| Prioritization.Partition | crates/broker/src/prioritization.rs:108-110 | the partition loop yields exactly the priority and the regular group, each in its original order |
| Prioritization.SortOrdersByPriorityAndMode | crates/broker/src/prioritization.rs:95-117 | the vector afterwards holds exactly the prioritised orders |
| Prioritization.SelectPricingOrders | crates/broker/src/prioritization.rs:153-169 | nothing is taken, and the vector is left as it was, when it is empty or the capacity is zero; otherwise the first `min(capacity, len)` prioritised orders are taken and the rest stay behind, in order |
| Prioritization.PrioritizeOrders | crates/broker/src/prioritization.rs:175-191 | the orders come back in the specified commitment order |
| Prioritization.ByMode | crates/broker/src/prioritization.rs:119-149 | the definition of `sort_by_mode` on values: the shuffle for Random, unchanged for TimeOrdered, a stable sort by expiry or by descending expected profit; its properties are ByModePermutes, ByModeOrdered and the per-mode order lemmas |
| Prioritization.Prioritized | crates/broker/src/prioritization.rs:95-117 | the definition of `sort_orders_by_priority_and_mode` on values: without priority addresses the sort by mode, otherwise the priority group sorted by mode followed by the rest sorted by mode; its properties are PrioritizedPermutes, PriorityClientsFirst and PrioritizedGroupsOrdered |
| CliState.Encode | crates/boundless-cli/src/commands/povw/state.rs:88-93 | the encoding is the version byte 0 followed by the serialised body |
| CliState.DecodeEncode | crates/boundless-cli/src/commands/povw/state.rs:88-108 | decoding an encoded state gives back its body |
| CliState.DecodeCharacterised | crates/boundless-cli/src/commands/povw/state.rs:95-108 | an empty buffer and an unknown version byte are rejected with their own errors, and whatever decodes re-encodes to the same buffer |
| CliState.UpdateCheck | crates/boundless-cli/src/commands/povw/state.rs:116-147 | an update is accepted exactly when the receipt verifies, its journal decodes, names the log builder's image and the state's log, starts at the current commit and ends at the new work log's commit |
| CliState.ReceiptChainIsChainsTo | crates/boundless-cli/src/commands/povw/state.rs:228-265 | the receipt loop succeeds with a final commit exactly when the receipts verify, decode, belong to the log and chain from the empty commit to that commit |
| CliState.ValidationIff | crates/boundless-cli/src/commands/povw/state.rs:218-275 | a state is valid exactly when it has no receipts and an empty work log, or its receipts chain from the empty commit to the work log's commit |
| CliState.UpdatePreservesValidity | crates/boundless-cli/src/commands/povw/state.rs:111-153 | an accepted update of a valid state leaves a valid state |
| CliState.ReceiptChainFailureSticks | crates/boundless-cli/src/commands/povw/state.rs:230-236 | once a receipt fails validation, later receipts do not change the error |
| CliState.State.constructor | crates/boundless-cli/src/commands/povw/state.rs:77-86 | a new state has the given log ID, the empty work log, no receipts and no transactions |
| CliState.State.UpdateWorkLog | crates/boundless-cli/src/commands/povw/state.rs:110-153 | a rejected update changes nothing; an accepted one replaces the work log, appends the receipt and stamps the time, and changes nothing else |
| CliState.State.AddPendingUpdateTx | crates/boundless-cli/src/commands/povw/state.rs:155-162 | a new transaction hash is recorded as pending, an existing one is left as it was, and the time is stamped |
| CliState.State.ConfirmUpdateTx | crates/boundless-cli/src/commands/povw/state.rs:164-198 | confirmation fails, changing no transaction, exactly when the receipt has no work-log-updated event or no block number; otherwise it records the block and the first such event for the transaction; a missing event is reported before a missing block number |
| CliState.State.Validate | crates/boundless-cli/src/commands/povw/state.rs:200-275 | the validation loop computes exactly the specified verdict, with the first failing check's error |
| CliState.FirstEvent | crates/boundless-cli/src/commands/povw/state.rs:170-180 | the first log that decodes as a work-log-updated event, or none exactly when no log does |
| CliState.Decode | crates/boundless-cli/src/commands/povw/state.rs:95-108 | the definition of `decode`'s framing: an empty buffer and a version byte other than V1 are errors, otherwise the bytes after the version byte go to the deserialiser; its properties are DecodeEncode and DecodeCharacterised |
| CliSubmit.MatchBelow | crates/boundless-cli/src/commands/povw/submit.rs:127-145 | scanning from the highest index down, the result is the highest receipt starting at the on-chain commit, an error naming the first undecodable journal met, or no match when no receipt starts there |
| CliSubmit.PlanFacts | crates/boundless-cli/src/commands/povw/submit.rs:76-145 | a signer other than the log's owner and a state without receipts are rejected; the chain is up to date exactly when the latest receipt ends at the on-chain commit; otherwise sending starts at the last receipt that starts at the on-chain commit |
| CliSubmit.SentSuffixChains | crates/boundless-cli/src/commands/povw/submit.rs:147-151 | in a valid state the receipts to send form a chain of the log's updates from the on-chain commit to the state's commit |
| CliSubmit.RecordedGrows | crates/boundless-cli/src/commands/povw/submit.rs:188-230 | recording more transactions keeps the earlier ones recorded and confirmed |
| CliSubmit.SendReceipts | crates/boundless-cli/src/commands/povw/submit.rs:161-231 | the loop's outcome, new transaction map and new `updated_at` are exactly those of SendAll over the receipts; the receipts confirmed are a prefix, all of them on success and fewer on failure; the log, the work log and the receipts are left alone |
| CliSubmit.Submit | crates/boundless-cli/src/commands/povw/submit.rs:65-236 | when Plan fails or the chain is up to date, nothing changes, the transaction map and stamp included; otherwise the receipts from the matching index on go through the send loop, whose result gives the new transaction map, stamp and outcome |
| CliSubmit.MatchingReceiptIndex | crates/boundless-cli/src/commands/povw/submit.rs:127-145 | the definition of `matching_receipt_index` as the scan below the number of receipts; its property is MatchBelow's contract |
| CliSubmit.Plan | crates/boundless-cli/src/commands/povw/submit.rs:76-145 | the definition of what `run` decides before sending: the signer check, the empty-state error, the up-to-date check on the latest journal, then the matching index; its properties are PlanFacts and SentSuffixChains |
| CliSubmit.SendStep | crates/boundless-cli/src/commands/povw/submit.rs:161-231 | the definition of one pass of the send loop: send, record pending without overwriting, await the receipt, check its status and the 64-bit update value, then confirm with the block number and first event; each failure keeps the record as it stands |
| CliSubmit.SendAll | crates/boundless-cli/src/commands/povw/submit.rs:161-231 | the definition of the whole send loop, stopping at the first failing pass; SendReceipts and Submit are proved equal to it |
| CliSubmit.SendAllFacts | crates/boundless-cli/src/commands/povw/submit.rs:188-231 | the send loop keeps every earlier transaction and never un-confirms one, stamps `now` once a transaction was sent, and on success leaves every sent receipt's transaction confirmed |
| CliPrepare.CheckWorkReceipt | crates/boundless-cli/src/commands/povw/prepare.rs:221-250 | a work receipt is accepted, unchanged, exactly when neither its claim nor its work claim is pruned, its minimum nonce belongs to the log and its job is not yet in the work log; pruned claims get their own errors |
| CliPrepare.ParseU64 | crates/boundless-cli/src/commands/povw/prepare.rs:351-354 | a parsed job number is a non-empty run of decimal digits, optionally after a '+', and its value |
| CliPrepare.ParseU64ToDecimal | crates/boundless-cli/src/commands/povw/prepare.rs:351-354 | the decimal text of any u64 parses back to that number |
| CliPrepare.ParseReceiptInfo | crates/boundless-cli/src/commands/povw/prepare.rs:347-356 | a receipt listing parses exactly when both its log ID and job number are present and parse, and yields those two values; a missing log ID is reported first |
| CliPrepare.KeysToFetch | crates/boundless-cli/src/commands/povw/prepare.rs:289-327 | the keys to fetch are exactly those of listings that parse, belong to the log and name a job not yet in the work log, each once |
| CliPrepare.FetchKeys | crates/boundless-cli/src/commands/povw/prepare.rs:329-342 | every key is fetched exactly once, and each result is that key's fetch |
| CliPrepare.LoadWorkReceipts | crates/boundless-cli/src/commands/povw/prepare.rs:174-198 | there is one result per file, in order: the load error, or the checked receipt |
| CliPrepare.LoadedAppend | crates/boundless-cli/src/commands/povw/prepare.rs:107-117 | the receipts kept from two runs of results are those kept from each, in order |
| CliPrepare.LoadedKeepsPlace | crates/boundless-cli/src/commands/povw/prepare.rs:109-116 | every successful result is kept, after the receipts before it |
| CliPrepare.LoadedWithoutFailures | crates/boundless-cli/src/commands/povw/prepare.rs:107-117 | without failures every result is kept, in order |
| CliPrepare.Collect | crates/boundless-cli/src/commands/povw/prepare.rs:106-117 | the warning is raised exactly when some result failed, and the receipts kept are exactly the successful ones, in order |
| CliPrepare.Prepare | crates/boundless-cli/src/commands/povw/prepare.rs:106-170 | load errors without the partial-update option abort with the state untouched; no receipts means nothing to prove; a non-empty work log without a log-builder receipt is refused; otherwise the kept receipts are proved on top of the state's last update and the state takes the new work log and receipt, keeps its log ID and update transactions, and is stamped with the current time |
| CliClaim.LinearPhaseAsWritten | crates/boundless-cli/src/commands/povw/claim.rs:307-328 | as written, the linear phase stops at a probe at or below its start whose block is no later than the target, or gives up at block 0 |
| CliClaim.LinearPhase | crates/boundless-cli/src/commands/povw/claim.rs:307-328 | the linear phase stops at a probe at or below its start whose block is no later than the target, or reports that even block 0 is later |
| CliClaim.CeilMid | crates/boundless-cli/src/commands/povw/claim.rs:335 | the rounded-up midpoint lies above the low end and at most the high end |
| CliClaim.BinaryPhase | crates/boundless-cli/src/commands/povw/claim.rs:330-358 | the binary phase answers a block between its bounds that is the low end or a block no later than the target |
| CliClaim.AsWrittenNotLater | crates/boundless-cli/src/commands/povw/claim.rs:299-359 | as written, the answer is block 0 or a block no later than the target, at most the latest block |
| CliClaim.NearTimestampGivesUpEarly | crates/boundless-cli/src/commands/povw/claim.rs:323-327 | with the latest block 150000, timestamps equal to block numbers and target 40000, the search as written answers block 0 although block 40000 is the last block not past the target |
| CliClaim.NearTimestampExample | crates/boundless-cli/src/commands/povw/claim.rs:299-359 | on that input the corrected search answers block 40000 |
| CliClaim.FirstLater | crates/boundless-cli/src/commands/povw/claim.rs:319 | the first block from a given one whose timestamp passes the target; all blocks before it up to the latest are not later |
| CliClaim.MonotoneCut | crates/boundless-cli/src/commands/povw/claim.rs:319-344 | with non-decreasing timestamps, the blocks not past the target are exactly those below the first later block |
| CliClaim.BinaryPhaseFinds | crates/boundless-cli/src/commands/povw/claim.rs:330-358 | with non-decreasing timestamps, the binary phase answers the last block not past the target, or stops early at one within the approximation window |
| CliClaim.LinearPhaseFinds | crates/boundless-cli/src/commands/povw/claim.rs:307-328 | with non-decreasing timestamps, the linear phase stops at a probe below the first later block and within one chunk of it, or reaches genesis only when block 0 is already later |
| CliClaim.NearTimestampFinds | crates/boundless-cli/src/commands/povw/claim.rs:299-359 | with non-decreasing timestamps, the corrected search answers the last block not past the target (or one within the approximation window), or block 0 when every block is later |
| CliClaim.BinarySearch | crates/boundless-cli/src/commands/povw/claim.rs:330-358 | the loop computes exactly the specified binary phase |
| CliClaim.BlockNumberNearTimestampAsWritten | crates/boundless-cli/src/commands/povw/claim.rs:299-359 | the two loops as written compute exactly the as-written search |
| CliClaim.BlockNumberNearTimestamp | crates/boundless-cli/src/commands/povw/claim.rs:299-359 | the corrected loops compute exactly the corrected search |
| CliClaim.WindowBelow | crates/boundless-cli/src/commands/povw/claim.rs:490-493 | each query window ends at the current upper block, is at most one chunk long, starts at block 1 or later, and not below the lower limit |
| CliClaim.ScanShapeCons | crates/boundless-cli/src/commands/povw/claim.rs:490-511 | a window followed by the windows below it still tiles downward from the upper block |
| CliClaim.ScanWindows | crates/boundless-cli/src/commands/povw/claim.rs:471-514 | the windows queried are adjacent, non-overlapping and descending from the upper block, each at most a chunk long and none below the lower limit |
| CliClaim.ScanStopsAtFalse | crates/boundless-cli/src/commands/povw/claim.rs:505-508 | the scan halts exactly when the predicate says stop on the logs of the last window; reaching block 0 means the predicate consumed every window |
| CliClaim.SearchEvents | crates/boundless-cli/src/commands/povw/claim.rs:471-514 | the loop queries exactly the specified windows and returns the specified outcome |
| CliClaim.StepKeeps | crates/boundless-cli/src/commands/povw/claim.rs:505-506 | a predicate that keeps an invariant keeps it for one window |
| CliClaim.ScanPreserves | crates/boundless-cli/src/commands/povw/claim.rs:471-514 | an invariant the predicate keeps holds of the state the scan ends with |
| CliClaim.InsertUpdates | crates/boundless-cli/src/commands/povw/claim.rs:376-383 | recording a window's update logs fails exactly when one has no block number, and otherwise keys each by its initial commit, the later log winning |
| CliClaim.UpdatesStep | crates/boundless-cli/src/commands/povw/claim.rs:384-389 | the update search continues exactly while the initial commit has not been found |
| CliClaim.ChainFromLinks | crates/boundless-cli/src/commands/povw/claim.rs:409-420 | the rebuilt sequence links from the initial to the final commit using recorded events only, or fails naming a missing commit other than the final one |
| CliClaim.RebuildChain | crates/boundless-cli/src/commands/povw/claim.rs:409-420 | the loop computes exactly the specified chain reconstruction |
| CliClaim.WorkLogUpdatesLink | crates/boundless-cli/src/commands/povw/claim.rs:366-423 | the update search returns updates that link the mint contract's commit to the accounting contract's commit |
| CliClaim.SearchWorkLogUpdated | crates/boundless-cli/src/commands/povw/claim.rs:366-423 | the method computes exactly the specified update search |
| CliClaim.RecordEpochs | crates/boundless-cli/src/commands/povw/claim.rs:435-444 | recording a window's finalization logs only removes epochs still sought, removes each epoch seen, and removes none that was not seen |
| CliClaim.RecordEpochsOnce | crates/boundless-cli/src/commands/povw/claim.rs:435-444 | every event kept is for a requested epoch no longer sought, and no epoch is kept under two blocks; a later finalization in the same block replaces the earlier event |
| CliClaim.RecordEpochsBlocks | crates/boundless-cli/src/commands/povw/claim.rs:435-444 | recording never drops a block, and each epoch it stops seeking was finalized by one of the window's logs in a block it keeps |
| CliClaim.EpochsStep | crates/boundless-cli/src/commands/povw/claim.rs:445-449 | the epoch search continues exactly while some requested epoch is still sought |
| CliClaim.EpochEventsOnce | crates/boundless-cli/src/commands/povw/claim.rs:425-469 | the events kept are for requested epochs, no epoch under two blocks, and a halted search has no epoch left to seek |
| CliClaim.EpochWindowKeeps | crates/boundless-cli/src/commands/povw/claim.rs:435-449 | one window of the epoch search keeps, for every epoch it stops seeking, the block of a log in that window finalizing it |
| CliClaim.ScanKeepsBlocks | crates/boundless-cli/src/commands/povw/claim.rs:425-514 | the whole scan keeps, for every epoch it stops seeking, the block of a queried log finalizing it |
| CliClaim.EpochEventsKeepBlocks | crates/boundless-cli/src/commands/povw/claim.rs:425-469 | every requested epoch is either still sought, which a halted search rules out, or finalized by a queried log in a block of the result |
| CliClaim.SearchEpochFinalized | crates/boundless-cli/src/commands/povw/claim.rs:425-469 | the method computes exactly the specified epoch search |
| CliClaim.Finalized | crates/boundless-cli/src/commands/povw/claim.rs:189-202 | the updates kept are exactly those of epochs before the pending epoch |
| CliClaim.ClaimPlanFacts | crates/boundless-cli/src/commands/povw/claim.rs:136-243 | once the lower search limit is known: nothing is claimed exactly when the two contracts hold the same commit; otherwise an update-search error is the claim's error, no update of a finalized epoch fails with NoFinalizedUpdates, and otherwise the claim succeeds exactly when the epoch search does; a claimable plan holds the finalized part of the chain the update search found, which links the mint contract's commit to the accounting contract's, the events the epoch search found from the first kept update's block (each for one of those epochs, none twice), and exactly the blocks of both |
| CliClaim.ClaimBlocksFinalizeEpochs | crates/boundless-cli/src/commands/povw/claim.rs:209-243 | the blocks of a claimable plan hold a finalization of every epoch of its updates that the epoch search stopped seeking, which is every epoch when the search halted; only a search that came down to block 0 can leave one unfound |
| CliClaim.ClaimAbove | crates/boundless-cli/src/commands/povw/claim.rs:136-243 | the method computes exactly ClaimSpec for its lower limit |
| CliClaim.Claim | crates/boundless-cli/src/commands/povw/claim.rs:94-243 | `run` with the lower search limit from `block_number_near_timestamp` as written: a failing limit search is the claim's error, otherwise the claim is exactly ClaimSpec above that limit |
| CliClaim.ClaimCorrected | crates/boundless-cli/src/commands/povw/claim.rs:94-243 | the same, with the lower limit from the corrected search |
| CliClaim.AsWrittenLimitReachesOldUpdate | crates/boundless-cli/src/commands/povw/claim.rs:127-134 | on the chain where the search as written gives up early, its limit 0 lets the update search find an update at block 100, far older than the search window |
| CliClaim.SearchStopsAtLimit | crates/boundless-cli/src/commands/povw/claim.rs:471-514 | on that chain, any lower limit between block 100 and block 50000 makes the update search fail at the limit |
| CliClaim.CorrectedLimitStopsAboveOldUpdate | crates/boundless-cli/src/commands/povw/claim.rs:127-134 | on the same chain the corrected limit lies above block 100, so the corrected claim's update search stops at the limit |
| CliClaim.ClaimSpec | crates/boundless-cli/src/commands/povw/claim.rs:136-243 | the definition of `run` after the lower limit: commit comparison, update search, finalized filter with the NoFinalizedUpdates failure, epoch search from the first kept update's block, and the block set; its properties are ClaimPlanFacts |
| CliClaim.NearTimestampAsWritten | crates/boundless-cli/src/commands/povw/claim.rs:299-359 | the definition of `block_number_near_timestamp` as written: the linear phase that gives up at a saturated 0, then the binary phase; its properties are AsWrittenNotLater and NearTimestampGivesUpEarly |
| CliClaim.NearTimestamp | crates/boundless-cli/src/commands/povw/claim.rs:299-359 | the definition of the corrected search, which reads block 0 before answering it; its properties are NearTimestampFinds and NearTimestampExample |
| CliClaim.Scan | crates/boundless-cli/src/commands/povw/claim.rs:471-514 | the definition of `search_events`: from the upper block down, stop at block 0, fail below the lower limit, else query the window and thread the predicate's state; its properties are ScanWindows, ScanStopsAtFalse and ScanPreserves |
| CliClaim.ChainFrom | crates/boundless-cli/src/commands/povw/claim.rs:409-420 | the definition of the chain rebuild: follow the updates keyed by initial commit from the initial to the final commit, naming the first missing link; its property is ChainFromLinks |
| CliClaim.WorkLogUpdates | crates/boundless-cli/src/commands/povw/claim.rs:366-423 | the definition of `search_work_log_updated`: the event scan keyed by initial commit, then the chain rebuild; its property is WorkLogUpdatesLink |
| CliClaim.EpochEvents | crates/boundless-cli/src/commands/povw/claim.rs:425-469 | the definition of `search_epoch_finalized`: the event scan that takes each sought epoch off the list when a log finalizes it, keeps the event under its block, and stops when none is left; its properties are EpochEventsOnce and EpochEventsKeepBlocks |
| CliClaim.FinalizedAppend | crates/boundless-cli/src/commands/povw/claim.rs:189-202 | the finalized-epoch filter distributes over concatenation, so it keeps the updates in their input order |
| CliClaim.FinalizedFirst | crates/boundless-cli/src/commands/povw/claim.rs:189-213 | the first finalized update, whose block bounds the epoch search, is the earliest update of an epoch before the pending one |

## Left out

- Task graph, scheduling and the Bento workflow tasks: not part of this model. Those files are Redis, S3 and prover calls.
- Cryptography and proving are foreign:
  - ZK proving and receipt verification appear as a boolean on each receipt;
  - journal decoding appears as an `Option` on each receipt;
  - Steel commitments are a field of the chain input;
  - the work log's Merkle commit is a field of the work log;
  - EIP-712 signing is not part of this model.
- RPC, multicall and event fetching are inputs:
  - event lists per block;
  - total functions for contract reads;
  - `Option`-valued functions for block headers and log queries.
  - The reward cache, the events fetcher, the indexer service and the distributor are not part of this model.
- Concurrency (`tokio::join!`, `try_join_all`): no concurrency is modelled. Each operation is sequential.
- SQL execution and migrations: only the text and placeholder numbering of the statements is modelled.
- HTTP and OpenAPI plumbing of the indexer API: not part of this model.
- Floating point:
  - `calculate_success_probability` returns 1.0 for every order, and is modelled as the factor 1;
  - the f64 `percentage` of a reward row is passed through to its bind as given; how the indexer service computes it is not part of this model.
- The `Random` order mode shuffles with a random number generator. It is modelled as a permutation taken as a parameter.
- Serialisation (bincode, borsh, postcard, serde_json) is foreign. Only the version-byte framing of the state file is modelled.
- `HashMap` iteration order is unspecified in the source. Loops over a `HashMap` visit the keys in an arbitrary order chosen with `:|`. Every result is proved independent of that order.
- PovwRewards.ComputePovwRewardsForEpoch, PovwRewards.EpochRewards: the missing-cap error `RewardCapNotFound` carries only the epoch. The source's message also names the work log met first in `HashMap` order, which is unspecified, so that work log is not modelled.
- Powers.BuildEpochDelegationPowers: the delegator lists are `Vec`s built from `HashMap` iteration, so their order is unspecified. The model keeps them as sets, stating their contents but no order.
- Saving the state file after each step of `prepare` and `submit`, and loading it, are file I/O and not modelled. So is the refusal of `prepare --new` to overwrite an existing state file (`crates/boundless-cli/src/commands/povw/prepare.rs:77-82`); the model starts `prepare` from a given state.
- Addresses are unbounded naturals in the model. Decimal.AddressHex renders the low 160 bits, which is the whole of every address the source can hold.
- The clock (`SystemTime::now()`) is read in whole seconds. It is modelled as a parameter `now`.
- Bento HTTP requests, receipt file reads and `PovwLogId::from_str` are function parameters of the `prepare` model.
- Sending transactions and awaiting their receipts are the `Network` parameter of the `submit` model. In `claim`, building the mint-calculator input, proving and sending the mint transaction are not part of this model.
- The mcycle price setting of the broker is modelled as an optional value that defaults to 0.00001 ether. Parsing it from configuration text is not modelled.
- MintCalculator.PatchedIterator.Next: `prev + MAX_GAP` is computed on `u64` in the source and could overflow near 2^64. The model adds on unbounded integers, so it does not capture that overflow.
- CliClaim.SearchEvents, CliClaim.Scan, CliClaim.WorkLogUpdates, CliClaim.SearchWorkLogUpdated, CliClaim.EpochEvents, CliClaim.SearchEpochFinalized, CliClaim.ClaimSpec, CliClaim.ClaimAbove, CliClaim.Claim, CliClaim.ClaimCorrected: the chunk size, the `--event-query-chunk-size` option, must be positive (`requires chunk > 0`). Each of these passes the option down to `search_events` unchanged (claim.rs:86), so each carries the same requirement. With a chunk size of 0 the source queries an empty window and stays at the same upper block for as long as the predicate goes on; that case is not modelled.
- CliClaim.BlockNumberNearTimestamp, CliClaim.BlockNumberNearTimestampAsWritten, CliClaim.NearTimestamp, CliClaim.NearTimestampAsWritten, CliClaim.LinearPhaseAsWritten: `probe + CHUNK` and `(low + high).div_ceil(2)` are `u64` arithmetic in the source and could overflow near 2^64. The model computes them on unbounded integers.
- CliClaim.Claim, CliClaim.ClaimCorrected: the search-limit time is `now - days * DAY` on unbounded integers and may be negative. The overflow of the `Duration` product `days * 24 * HOUR` and a failing `SystemTime::checked_sub` ("Invalid number of days") are not modelled.
- `U256` `+` and `*` in the source are ruint's operators, which wrap modulo 2^256 in release builds. They are modelled as wrapping (Ints.WrappingAdd, Ints.WrappingMul). Debug-build overflow panics are not modelled.

## Findings

| source | as written | input that shows it | evidently intended | confidence | as-written member | corrected member |
|---|---|---|---|---|---|---|
| crates/boundless-cli/src/commands/povw/claim.rs:323-327 | `block_number_near_timestamp` returns 0 as soon as the downward probe saturates to 0. It reads neither block 0 nor any block between 0 and the previous probe. | The latest block is 150000 and block `b` has timestamp `b`. The target is 40000 and `approx` is unset. The probe steps back 100000 blocks at a time: 150000, 50000, then 0, and the function answers 0. Block 40000 is the latest block whose timestamp is not after the target. | A binary search over the blocks between 0 and the previous probe, as after any other probe that lands below the target | not executed | CliClaim.BlockNumberNearTimestampAsWritten, CliClaim.NearTimestampGivesUpEarly, CliClaim.Claim, CliClaim.AsWrittenLimitReachesOldUpdate | CliClaim.BlockNumberNearTimestamp, CliClaim.NearTimestampFinds, CliClaim.ClaimCorrected, CliClaim.CorrectedLimitStopsAboveOldUpdate |
