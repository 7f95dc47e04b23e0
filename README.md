# Dash masternode and governance core, modelled in Dafny

This project models the core of a Dash node (C++): the masternode layer and the
governance bookkeeping that pays masternodes and superblocks from the coinbase.
Each source file becomes one Dafny module:

- `cache_map.dfy` (`CacheMaps`): `CacheMap`, the bounded key/value cache from
  `src/cachemap.h`. It keeps a most-recent-first key list, a map and a size
  counter, and evicts the oldest key at capacity.
- `cache_multimap.dfy` (`CacheMultiMaps`): `CacheMultiMap` from `src/cachemultimap.h`.
  It is a bounded multimap with a most-recent-first item list and a per-key
  index of list iterators. Iterators are modelled as item identities.
- `masternode_man.dfy` (`Masternodes`): the masternode registry `CMasternodeMan`
  from `src/masternodeman.cpp`. It covers adding, removing and indexing records,
  ranking by score, choosing the next payee, random selection and the
  masternode-count estimate.
- `masternode_payments.dfy` (`Payments`): the payment-vote tally of
  `src/masternode-payments.cpp`. It covers vote storage, the quorum rule for
  coinbase outputs, pruning old votes, the validity of a vote and filling the
  coinbase.
- `governance_classes.dfy` (`GovernanceClasses`): superblocks and the trigger
  manager of `src/governance-classes.h` and `src/governance-classes.cpp`. It
  covers payment schedules, superblock heights, choosing the best trigger and
  building and checking the superblock coinbase.
- `governance_validators.dfy` (`GovernanceValidators`): `CProposalValidator`
  from `src/governance-validators.cpp`. It covers whitespace stripping, the URL
  check and the staged proposal validation with its error log.
- `masternode_sync.dfy` (`MasternodeSync`): the sync state machine of
  `src/masternode-sync.cpp`. It covers the asset sequence, failure, reset and
  the timeout rules of the tick.
- `governance_exceptions.dfy` (`GovernanceExceptions`): `CGovernanceException`
  and the text form of its severity, from `src/governance-exceptions.h`.
- `common.dfy` (`Common`): shared values. These are scripts, amounts and
  outputs, C++ truncating division and remainder, and list reversal.

Each class that the C++ updates in place is a Dafny `class`. Its state
functions (`State()`, `Valid()`) tie every method to a pure specification
function, such as `AfterInsert`, `AfterPruneLast`, `Survivors`, `Ranking` or
`KeptVotes`. The lemmas about those functions carry the properties. Chain
state, time, sporks, hashing, scores and address checks are parameters of the
operations that use them.

The model follows the code as written. Where the code does something other
than its comments describe, the model keeps the code's
behaviour and a lemma states the consequence:

- `CMasternodeBlockPayees::IsTransactionValid` accepts a coinbase that pays
  ANY payee at or above the vote threshold, not only the top-voted one
  (`Payments.RunnerUpAccepted`).
- `CSuperblockManager::IsValidSuperblockHeight` returns the remainder as a
  bool. It is therefore true exactly when the height is NOT a multiple of the
  cycle (`GovernanceClasses.CycleMultipleRejected`).
- `CGovernanceTriggerManager::AddNewTrigger` adds an untracked hash only when
  the object is NOT a trigger (`GovernanceClasses.TriggerManager.AddNewTrigger`).
- `CSuperblock::ParsePaymentSchedule` returns false on every path, success
  included (`GovernanceClasses.Superblock.ParsePaymentSchedule`).
- `CSuperblockManager::GetBestSuperblock` writes its choice into a by-value
  pointer parameter, so the choice never reaches the caller. `CreateSuperblock`,
  `IsValid` and `GetRequiredPaymentsString` each declare their pointer NULL and
  dereference it whenever `GetBestSuperblock` returns true, that is whenever a
  trigger starting at the height has a positive yes count. These three end in
  `DereferencesNull` exactly then, and otherwise return what the intended
  versions return (`GovernanceClasses.CreateSuperblock`,
  `GovernanceClasses.IsValid`, `GovernanceClasses.GetRequiredPaymentsString`).
  The `...Intended` versions hand the chosen trigger over as the callers
  evidently mean to, and state what they then compute
  (`GovernanceClasses.CreateSuperblockIntended` and the others).
- `CProposalValidator::SetHexData` decodes into a local that shadows the
  `strData` field. JSON is therefore never parsed from hex data
  (`GovernanceValidators.ValidateFreshProposal`).
- `ValidateStartEndEpoch` reads the end epoch into `nStartEpoch`. The range
  check passes exactly when the end epoch is negative
  (`GovernanceValidators.EpochStageAsWritten`).
- `ValidateURL` returns false on every path, so `Validate` never succeeds
  (`GovernanceValidators.ProposalValidator.Validate`).
- `CheckURL` skips three characters after "//", so a bracket right after
  "//" is never examined (`GovernanceValidators.CheckURLSkipsFirstNetlocCharacter`).
- `CacheMap::Insert` evicts only when the size EQUALS the capacity. With
  capacity 0, or after `SetMaxSize` below the size, the cache grows without
  bound (`CacheMaps.InsertAboveCapacityGrows`).
- `CacheMultiMap::Insert` does not de-duplicate.
- `CacheMultiMap::RebuildIndex` reverses each key's index order. `Get` then
  returns the oldest value of a key instead of the newest
  (`CacheMultiMaps.RebuildReversesGet`).
- Ranking ties go to the GREATER outpoint, because the ascending comparison is
  applied over reverse iterators (`Masternodes.TieGoesToGreaterOutpoint`).
- `CMasternodeMan::Remove` does not rebuild the index
  (`Masternodes.RemoveLeavesStaleIndex`).

## Model

| member | source | states |
|---|---|---|
| CacheMaps.DistinctKeysCardinality | src/cachemap.h:68-81 | a duplicate-free key list whose elements are exactly the map's keys has as many entries as the map |
| CacheMaps.WellformedSizes | src/cachemap.h:64-66 | under the invariant the size counter equals both the key-list length and the number of map entries |
| CacheMaps.Empty | src/cachemap.h:41-46 | a fresh cache satisfies the invariant, has size 0, no items and the requested capacity |
| CacheMaps.AfterPruneLast | src/cachemap.h:111-120 | pruning keeps the invariant; on a non-empty cache it removes exactly the last (oldest) key and its map entry; on an empty one it changes nothing |
| CacheMaps.AfterInsert | src/cachemap.h:68-81 | an insert keeps the invariant and the capacity, and afterwards the key maps to the inserted value |
| CacheMaps.InsertExistingKey | src/cachemap.h:70-74 | re-inserting a present key overwrites its value and leaves the size and the key order unchanged |
| CacheMaps.InsertEvictsOldest | src/cachemap.h:75-80 | a new key at capacity first evicts exactly the oldest key, then goes to the front; the size stays at capacity |
| CacheMaps.InsertBelowCapacity | src/cachemap.h:75-80 | a new key below capacity goes to the front, the size grows by one and nothing is evicted |
| CacheMaps.InsertKeepsBound | src/cachemap.h:68-81 | with capacity at least 1 and size within it, an insert never pushes the size above the capacity |
| CacheMaps.InsertAboveCapacityGrows | src/cachemap.h:55-58 | with capacity 0, or a size above the capacity, a new key is added without eviction, so the size exceeds the capacity |
| CacheMaps.InsertOtherKeys | src/cachemap.h:68-81 | an insert leaves every other surviving key's value as it was |
| CacheMaps.InsertAll | src/cachemap.h:68-81 | inserting a list of pairs in order keeps the invariant and the capacity |
| CacheMaps.CacheMapScenario | src/test/cachemap_tests.cpp:14-47 | capacity 10, insert -1 then 0..9: size 10, each i in 0..9 maps to i, and -1 has been evicted |
| CacheMaps.CacheMap.constructor | src/cachemap.h:41-46 | the new cache's state is the empty state with the given capacity |
| CacheMaps.CacheMap.Clear | src/cachemap.h:48-53 | afterwards the state is empty with the old capacity |
| CacheMaps.CacheMap.SetMaxSize | src/cachemap.h:55-58 | only the capacity changes; the entries stay, even above the new capacity |
| CacheMaps.CacheMap.GetMaxSize | src/cachemap.h:60-62 | returns the capacity |
| CacheMaps.CacheMap.GetSize | src/cachemap.h:64-66 | returns the number of entries, equal to the key-list length |
| CacheMaps.CacheMap.Insert | src/cachemap.h:68-81 | keeps the invariant; the new state is `AfterInsert` of the old one |
| CacheMaps.CacheMap.HasKey | src/cachemap.h:83-87 | true exactly when the key is in the key list |
| CacheMaps.CacheMap.Get | src/cachemap.h:89-97 | the value stored for the key, or nothing exactly when the key is absent |
| CacheMaps.CacheMap.PruneLast | src/cachemap.h:111-120 | keeps the invariant; the new state is `AfterPruneLast` of the old one |
| CacheMultiMaps.HasKeyIffStored | src/cachemultimap.h:118-122 | under the invariant a key is in the index exactly when some stored item has that key |
| CacheMultiMaps.PruneLastWellformed | src/cachemultimap.h:194-227 | pruning keeps the invariant and the newest-first index order, drops exactly the last (oldest) item and lowers the size by one; the key leaves the index only with its last item |
| CacheMultiMaps.InsertWellformed | src/cachemultimap.h:101-116 | an insert keeps the invariant, always puts a new item at the front (no de-duplication) after pruning the oldest one when the size equals the capacity, and grows the size by one unless it pruned |
| CacheMultiMaps.InsertThenGet | src/cachemultimap.h:110-114 | after an insert, `Get` of that key yields the value just inserted |
| CacheMultiMaps.InsertOtherKey | src/cachemultimap.h:101-116 | without a prune, an insert leaves every other key's stored values and presence unchanged |
| CacheMultiMaps.GetSpec | src/cachemultimap.h:124-134 | `Get` succeeds exactly for present keys and yields one of the key's stored values: the newest one while the index is in insertion order |
| CacheMultiMaps.GetAllSpec | src/cachemultimap.h:136-149 | `GetAll` fails exactly for an absent key; otherwise it yields one value per stored item of the key, newest first while the index is in insertion order |
| CacheMultiMaps.EraseWellformed | src/cachemultimap.h:151-165 | an erase keeps the invariant and the newest-first index order |
| CacheMultiMaps.EraseSpec | src/cachemultimap.h:151-165 | an erase removes every item of the key, lowers the size by their number, leaves other keys alone and changes nothing for an absent key |
| CacheMultiMaps.BuildIndexSpec | src/cachemultimap.h:229-240 | the rebuilt index holds exactly the stored keys, each with its items' identities in reverse list order, i.e. oldest first |
| CacheMultiMaps.RebuildWellformed | src/cachemultimap.h:229-240 | rebuilding the index restores the invariant for any well-formed item list |
| CacheMultiMaps.RebuildReversesGet | src/cachemultimap.h:229-240 | inserting (1,10) then (1,20) makes `Get(1)` yield 20; after `RebuildIndex` it yields 10 |
| CacheMultiMaps.TwoInserts | src/cachemultimap.h:101-116 | the exact state after inserting (1,10) and (1,20) into an empty container of capacity 5 |
| CacheMultiMaps.EraseFirst | src/cachemultimap.h:206-211 | the find-and-erase loop removes the first occurrence of the identity, shortening the list by one, and returns the list unchanged when it is absent |
| CacheMultiMaps.UnindexLast | src/cachemultimap.h:204-220 | the index update of `PruneLast` equals `Unindex`: the identity leaves its key's list, and the key leaves the index when its list becomes empty |
| CacheMultiMaps.IndexOf | src/cachemultimap.h:232-239 | the rebuild loop produces exactly `BuildIndex` of the item list |
| CacheMultiMaps.CacheMultiMap.constructor | src/cachemultimap.h:62-68 | the new container's state is the empty state with the given capacity |
| CacheMultiMaps.CacheMultiMap.Clear | src/cachemultimap.h:80-86 | afterwards the items and the index are empty and the size is 0, with the old capacity |
| CacheMultiMaps.CacheMultiMap.SetMaxSize | src/cachemultimap.h:88-91 | only the capacity changes |
| CacheMultiMaps.CacheMultiMap.GetSize | src/cachemultimap.h:97-99 | returns the number of stored items |
| CacheMultiMaps.CacheMultiMap.Insert | src/cachemultimap.h:101-116 | keeps the invariant; the new state is `AfterInsert` of the old one |
| CacheMultiMaps.CacheMultiMap.HasKey | src/cachemultimap.h:118-122 | true exactly when some stored item has the key |
| CacheMultiMaps.CacheMultiMap.Get | src/cachemultimap.h:124-134 | the value of the item the key's first index entry names, or nothing for an absent key |
| CacheMultiMaps.CacheMultiMap.GetAll | src/cachemultimap.h:136-149 | false and the output unchanged for an absent key; otherwise the key's values in index order appended to the output |
| CacheMultiMaps.CacheMultiMap.Erase | src/cachemultimap.h:151-165 | keeps the invariant; the new state is `AfterErase` of the old one |
| CacheMultiMaps.CacheMultiMap.PruneLast | src/cachemultimap.h:194-227 | keeps the invariant; the new state is `AfterPruneLast` of the old one |
| CacheMultiMaps.CacheMultiMap.RebuildIndex | src/cachemultimap.h:229-240 | from a well-formed item list it establishes the invariant; only the index changes, to `BuildIndex` of the items |
| Masternodes.IndexUnique | src/masternodeman.cpp:826-844 | an index built from a record list is uniquely determined by that list |
| Masternodes.IndexPositions | src/masternodeman.cpp:835-838 | with distinct outpoints the index maps each record's outpoint to its position |
| Masternodes.SortDescViaReverseSpec | src/masternodeman.cpp:478 | sorting ascending and reading backwards gives a descending permutation of the entries |
| Masternodes.PositionIn | src/masternodeman.cpp:482-488 | the 1-based position of the first entry with the outpoint, or -1 exactly when no entry has it |
| Masternodes.PermutationDistinct | src/masternodeman.cpp:478 | sorting keeps the entries distinct |
| Masternodes.RankCountsHigher | src/masternodeman.cpp:478-488 | a record's 1-based position in the descending order is one more than the number of records ranked above it |
| Masternodes.RankOfPosition | src/masternodeman.cpp:528-560 | the record at 1-based position r of the ranked list has rank r |
| Masternodes.TieGoesToGreaterOutpoint | src/masternodeman.cpp:478 | of two records with the same score, the one with the greater outpoint ranks first |
| Masternodes.KeyedSpec | src/masternodeman.cpp:470-480 | the scored list holds exactly the eligible records with their scores, and outpoints stay distinct |
| Masternodes.SurvivorsMembers | src/masternodeman.cpp:108-131 | `CheckAndRemove` keeps exactly the records that are not in REMOVE, OUTPOINT_SPENT or (when forced) EXPIRED state |
| Masternodes.SurvivorsLength | src/masternodeman.cpp:133-135 | the list shrinks exactly when one of its records is removable |
| Masternodes.SurvivorsDistinct | src/masternodeman.cpp:106-131 | removing records keeps the outpoints distinct |
| Masternodes.RankIsOnePlusHigher | src/masternodeman.cpp:459-491 | the rank of an eligible record is one more than the number of eligible records that outrank it |
| Masternodes.UnrankedIsMinusOne | src/masternodeman.cpp:459-491 | an absent or ineligible record has rank -1 |
| Masternodes.ScanLimit | src/masternodeman.cpp:400-412 | the number of scored candidates is at most their count and at least one when there are any |
| Masternodes.FirstMaximumUnique | src/masternodeman.cpp:400-412 | at most one record is the first strict maximum, so the payee choice is deterministic |
| Masternodes.SelectedIsCandidate | src/masternodeman.cpp:370-413 | a selected payee is a registry record with a positive score that passes every candidate filter |
| Masternodes.EraseRemovable | src/masternodeman.cpp:106-131 | the erase loop leaves exactly `Survivors` of the list, and reports a removal exactly when the list shrank |
| Masternodes.NumberRanks | src/masternodeman.cpp:519-523 | pairs each ranked record with its 1-based rank, in rank order |
| Masternodes.ScanFirstTenth | src/masternodeman.cpp:400-412 | the scoring loop returns the first strict maximum among the first `ScanLimit` candidates, or nothing when none scores above 0 |
| Masternodes.FirstIndex | src/masternodeman.cpp:253-287 | the first position whose record matches, or nothing exactly when none does |
| Masternodes.RemoveLeavesStaleIndex | src/masternodeman.cpp:710-723 | after erasing a record without `UpdateMNIndex`, the old index no longer describes the list |
| Masternodes.MasternodeMan.constructor | src/masternodeman.cpp:38-51 | an empty registry with an empty index that describes it |
| Masternodes.MasternodeMan.Add | src/masternodeman.cpp:53-70 | succeeds exactly for an ENABLED or PRE_ENABLED record whose outpoint is new; then appends it and maps its outpoint to the last position, otherwise changes nothing; keeps a correct index correct |
| Masternodes.MasternodeMan.CheckAndRemove | src/masternodeman.cpp:98-135 | the list becomes `Survivors` of the old list; the index is rebuilt exactly when something was removed |
| Masternodes.MasternodeMan.UpdateMNIndex | src/masternodeman.cpp:826-844 | the list is unchanged and the index maps each record's outpoint to its position and nothing else |
| Masternodes.MasternodeMan.Remove | src/masternodeman.cpp:710-723 | erases the first record with an equal input, keeps the index as it was, and changes nothing when no record matches |
| Masternodes.MasternodeMan.GetMasternodeIndex | src/masternodeman.cpp:325-336 | with a correct index, the position of the record with the outpoint, or -1 exactly when there is none |
| Masternodes.MasternodeMan.FindByPayee | src/masternodeman.cpp:253-263 | the first record whose collateral script is the payee, or nothing exactly when none is |
| Masternodes.MasternodeMan.FindByVin | src/masternodeman.cpp:265-275 | the first record with the outpoint, or nothing exactly when none has it |
| Masternodes.MasternodeMan.FindByPubKey | src/masternodeman.cpp:277-287 | the first record with the masternode key, or nothing exactly when none has it |
| Payments.GetMinMasternodePaymentsProto | src/masternode-payments.cpp:253-257 | one of the two minimum versions, between them when they are ordered |
| Masternodes.Spork10ShrinksEnabledCount | src/masternode-payments.cpp:253-257 | activating spork 10 raises the payment minimum, so the records `CountEnabled(-1)` counts can only shrink |
| Masternodes.MasternodeMan.CountEnabled | src/masternodeman.cpp:203-215 | the number of enabled records at the protocol (the payment minimum for -1) or later |
| Masternodes.MasternodeMan.Collect | src/masternodeman.cpp:470-480 | the loop that pairs each kept record with its score yields `Keyed` of the list |
| Masternodes.MasternodeMan.GetMasternodeRank | src/masternodeman.cpp:459-491 | -1 for an unknown block hash; otherwise the input's 1-based position in the descending ranking, or -1 when it is not ranked |
| Masternodes.MasternodeMan.GetMasternodeRanks | src/masternodeman.cpp:493-526 | empty for an unknown block hash; otherwise every eligible record with its 1-based rank, in rank order |
| Masternodes.MasternodeMan.GetMasternodeByRank | src/masternodeman.cpp:528-560 | the record at 1-based position r of the ranking, or nothing exactly when r is outside 1..n |
| Masternodes.MasternodeMan.GetNextMasternodeInQueueForPayment | src/masternodeman.cpp:358-415 | the candidates are the filtered records, the filter on signature time dropped once when it leaves fewer than a third; the result is the first strict maximum among the first max(1, enabled/10) candidates in (last paid, outpoint) order |
| Masternodes.MasternodeMan.FindRandomNotInVec | src/masternodeman.cpp:417-457 | nothing when enabled minus excluded is below 1; any result is an enabled registry record at the protocol that is not excluded; nothing otherwise only when every such record is excluded |
| Masternodes.MasternodeMan.GetEstimatedMasternodes | src/masternodeman.cpp:738-759 | the estimate is (total / 100 * (52 + m)) / 1000, with m the number of doubling periods of 35040 blocks that have passed |
| Payments.AddPayeeCounts | src/masternode-payments.cpp:416 | adding votes for a script raises its count by exactly that much and leaves every other count alone |
| Payments.AddPayeeUnique | src/masternode-payments.cpp:416 | the tally keeps one entry per script and gains an entry only for a new script |
| Payments.BestPayeeIndex | src/masternode-payments.cpp:359-366 | the leading payee is one with the most votes and the first of equals; there is none only when no count exceeds -1 |
| Payments.TopPayeeRuleIsStricter | src/masternode-payments.cpp:421-466 | every coinbase that pays the top-voted payee is accepted by the rule as written |
| Payments.RunnerUpAccepted | src/masternode-payments.cpp:439-465 | with 7 votes for A and 6 for B, a coinbase paying only B is accepted, though B is not the top payee |
| Payments.BelowQuorumAcceptsAll | src/masternode-payments.cpp:432-437 | when no payee reaches the vote threshold every coinbase is accepted |
| Payments.QuorumScenario | src/masternode-payments.cpp:421-466 | with 6 votes for P a coinbase paying P is valid and one paying Q is not; with 5 votes both are valid |
| Payments.BlockPayees.IsTransactionValid | src/masternode-payments.cpp:421-466 | valid exactly when no payee reaches the threshold or some payee at or above it has an output with its exact script and the masternode payment |
| Payments.PruneVotes | src/masternode-payments.cpp:521-533 | the loop keeps exactly the votes within the limit of the tip and drops the tally of every height a removed vote was for |
| Payments.PruneIdempotent | src/masternode-payments.cpp:512-535 | pruning again with the same tip and limit removes nothing more |
| Payments.WinnerIsValid | src/masternode-payments.cpp:537-572 | a vote is valid exactly when the voter is known, recent enough and ranked at most TOTAL; an error is set above 2*TOTAL, and only that is penalised (20, when synced) |
| Payments.UnrankedVoterPasses | src/masternode-payments.cpp:556-571 | a known, recent voter with rank -1 passes the rank test |
| Payments.FillBlockPayee | src/masternode-payments.cpp:211-251 | unchanged without a tip; with a payee, exactly two outputs (block value minus payment to the miner, payment to the payee) summing to the block value; otherwise the first output gets the whole block value |
| Payments.MasternodePayments.AddWinningMasternode | src/masternode-payments.cpp:394-419 | fails, changing nothing, when the block hash is unknown or the vote is already stored; otherwise stores the vote and adds exactly one vote for its payee at its height |
| Payments.MasternodePayments.GetBlockPayee | src/masternode-payments.cpp:359-366 | nothing for a height without a tally; otherwise the leading payee of that height |
| Payments.MasternodePayments.IsScheduled | src/masternode-payments.cpp:370-392 | true exactly when there is a tip and the payee leads the tally of some height from the tip to tip+8 other than the excluded one |
| Payments.MasternodePayments.IsTransactionValid | src/masternode-payments.cpp:501-510 | a height without a tally accepts every coinbase; otherwise the height's quorum rule decides |
| Payments.MasternodePayments.IsBlockPayeeValid | src/masternode-payments.cpp:95-153 | true when not synced; on a triggered superblock height, valid superblock or spork 9 off; otherwise spork 8 off, no tally, or the quorum rule |
| Payments.MasternodePayments.CheckAndRemove | src/masternode-payments.cpp:512-535 | nothing changes without a tip; otherwise the votes become `KeptVotes` and each dropped vote's height loses its tally |
| Payments.MasternodePayments.SyncInventory | src/masternode-payments.cpp:679-699 | offers exactly the votes whose height is in the sync range, with the requested count capped at 1.25 times the enabled count; nothing without a tip |
| Payments.MasternodePayments.GetOldestBlock | src/masternode-payments.cpp:713-728 | the lowest tallied height, or INT_MAX when there is none |
| Payments.MasternodePayments.GetNewestBlock | src/masternode-payments.cpp:732-747 | the highest tallied height, or 0 when there is none |
| Payments.MasternodePayments.IsEnoughData | src/masternode-payments.cpp:749-759 | true exactly when there are more tallied heights than 1.25 per masternode and than the storage minimum, and more votes than 10 per masternode and than 8 times the storage minimum |
| GovernanceClasses.BoostSplit | src/governance-classes.cpp:45 | the pieces number one more than the delimiters and none contains a delimiter character |
| GovernanceClasses.SplitBy | src/governance-classes.cpp:40-55 | the result is the split pieces, in order, without those found inside the delimiter string |
| GovernanceClasses.DropSubstringsIsNonEmpty | src/governance-classes.cpp:46-53 | for delimiter-free pieces, dropping those found in the delimiter string drops exactly the empty ones |
| GovernanceClasses.SplitByPieces | src/governance-classes.cpp:40-55 | every returned piece is non-empty and delimiter-free, and together they spell the input without its delimiters |
| GovernanceClasses.SplitByExample | src/governance-classes.cpp:40-55 | "a\|\|b" split by "\|" gives ["a", "b"] |
| GovernanceClasses.GovernancePayment.SetNull | src/governance-classes.h:106-111 | the reset payment is invalid, with an empty script and amount 0 |
| GovernanceClasses.ParsedPaymentsValid | src/governance-classes.h:113-116 | every payment a schedule parse keeps reads as valid through `IsValid` |
| GovernanceClasses.FirstFailure | src/governance-classes.h:243-258 | the first schedule entry with an invalid address or an unparsable amount, every entry before it being good |
| GovernanceClasses.BuildPayments | src/governance-classes.h:243-258 | the loop builds the payments of the entries before the first failure, in order and only the valid ones; it reports a bad address or an amount parse failure at that entry |
| GovernanceClasses.Superblock.GetBlockStart | src/governance-classes.h:199-218 | the predicted height rounded toward zero to a multiple of the cycle, never more than one cycle away |
| GovernanceClasses.Superblock.ParsePaymentSchedule | src/governance-classes.h:220-261 | always false; mismatched lists set "Mismatched payments and amounts" and add nothing; otherwise the payments before the first failure are appended and the failure is reported |
| GovernanceClasses.Superblock.CountPayments | src/governance-classes.h:275-278 | the number of scheduled payments |
| GovernanceClasses.Superblock.GetPayment | src/governance-classes.h:280-289 | succeeds exactly for an index below the count and then copies that payment; otherwise leaves the output as given |
| GovernanceClasses.Superblock.SetExecuted | src/governance-classes.h:264-273 | a tracked trigger's status becomes executed, and then it reads as executed; an untracked one changes nothing |
| GovernanceClasses.Superblock.IsValid | src/governance-classes.cpp:338-382 | true exactly when output i pays exactly scheduled payment i for every i; later outputs are not examined |
| GovernanceClasses.TriggerManager.AddNewTrigger | src/governance-classes.cpp:62-85 | succeeds exactly for an untracked hash of an object that is not a trigger, which is then tracked as valid; nothing changes otherwise |
| GovernanceClasses.TriggerManager.CleanAndRemove | src/governance-classes.cpp:93-110 | the tracked hashes stay; each non-trigger object is marked invalid and the others keep their status |
| GovernanceClasses.TriggerManager.UpdateStatus | src/governance-classes.cpp:118-128 | succeeds exactly for a tracked hash and then changes only its status; nothing changes otherwise |
| GovernanceClasses.TriggerManager.GetStatus | src/governance-classes.cpp:137-147 | the stored status, or 0 (valid) for an untracked hash |
| GovernanceClasses.Superblock.IsExecuted | src/governance-classes.h:264-268 | true exactly when the manager tracks the trigger's hash with status executed |
| GovernanceClasses.UntrackedNeverExecuted | src/governance-classes.h:264-273 | a trigger the manager does not track never reads as executed |
| GovernanceClasses.IsValidSuperblockHeight | src/governance-classes.cpp:185-189 | true exactly when the height is not a multiple of the cycle |
| GovernanceClasses.CycleMultipleRejected | src/governance-classes.cpp:185-189 | a multiple of the cycle is never accepted as a superblock height |
| GovernanceClasses.IsSuperblockTriggered | src/governance-classes.cpp:197-229 | true exactly when some active trigger starting at the height is funded |
| GovernanceClasses.BestAmong | src/governance-classes.cpp:239-263 | the choice after n triggers is one of them |
| GovernanceClasses.BestAmongSpec | src/governance-classes.cpp:239-263 | a trigger is chosen exactly when one starting at the height has a positive yes count; the chosen one is the first with the strictly greatest count |
| GovernanceClasses.GetBestSuperblock | src/governance-classes.cpp:232-264 | true exactly when some trigger starting at the height has a positive yes count; the best one is left only in the function's own copy of the pointer |
| GovernanceClasses.CreateSuperblock | src/governance-classes.cpp:272-317 | dereferences the NULL pointer exactly when there is a tip and a best trigger; otherwise returns the coinbase unchanged, as the intended version does |
| GovernanceClasses.CreateSuperblockIntended | src/governance-classes.cpp:272-317 | unchanged without a tip or a best trigger; otherwise the outputs are exactly the best trigger's payments, in order |
| GovernanceClasses.IsValid | src/governance-classes.cpp:319-330 | dereferences the NULL pointer exactly when there is a best trigger; otherwise false, as the intended version |
| GovernanceClasses.IsValidIntended | src/governance-classes.cpp:319-330 | true exactly when there is a best trigger and the coinbase pays its schedule |
| GovernanceClasses.RequiredPaymentsTextJoins | src/governance-classes.cpp:394-427 | "Unknown" for an empty schedule, otherwise the addresses joined by ", " |
| GovernanceClasses.GetRequiredPaymentsString | src/governance-classes.cpp:390-429 | dereferences the NULL pointer exactly when there is a best trigger; otherwise "error", as the intended version |
| GovernanceClasses.GetRequiredPaymentsStringIntended | src/governance-classes.cpp:390-429 | "error" without a best trigger, otherwise the text built from its payees' addresses |
| GovernanceValidators.LeadingWhitespace | src/governance-validators.cpp:240 | the index of the first non-whitespace character, everything before it being whitespace |
| GovernanceValidators.TrailingWhitespace | src/governance-validators.cpp:241 | the length of the whitespace run at the end, the character before it not being whitespace |
| GovernanceValidators.StripWhitespace | src/governance-validators.cpp:236-248 | "" exactly when the input is all whitespace; otherwise the slice of the input from its first to its last non-whitespace character, with whitespace only around it |
| GovernanceValidators.LeadingWhitespaceIs | src/governance-validators.cpp:240 | the first non-whitespace character is found where it is |
| GovernanceValidators.TrailingWhitespaceIs | src/governance-validators.cpp:241 | the last non-whitespace character is found where it is |
| GovernanceValidators.StripWhitespaceIdempotent | src/governance-validators.cpp:236-248 | stripping twice is stripping once |
| GovernanceValidators.StripWhitespaceIgnoresPadding | src/governance-validators.cpp:236-248 | surrounding whitespace does not change what is stripped |
| GovernanceValidators.FindFirstOf | src/governance-validators.cpp:279 | the first position holding one of the characters, or nothing exactly when none does |
| GovernanceValidators.AfterScheme | src/governance-validators.cpp:257-270 | the text after the first ':' is a suffix of the input |
| GovernanceValidators.NetlocChecked | src/governance-validators.cpp:273-288 | the segment checked for brackets is a slice of the input |
| GovernanceValidators.CheckURL | src/governance-validators.cpp:255-293 | false exactly when the checked segment holds '[' without ']' or ']' without '[' |
| GovernanceValidators.CheckURLWithoutBrackets | src/governance-validators.cpp:255-293 | a string without square brackets always passes |
| GovernanceValidators.CheckURLWithoutAuthority | src/governance-validators.cpp:272-290 | when the text after the scheme does not start with "//", the string passes |
| GovernanceValidators.CheckURLWithoutPathDelimiter | src/governance-validators.cpp:272-290 | when none of "/?#" follows the netloc, the string passes |
| GovernanceValidators.CheckURLRefusesUnclosedBracket | src/governance-validators.cpp:281-284 | "http://a[b/" is refused |
| GovernanceValidators.CheckURLSkipsFirstNetlocCharacter | src/governance-validators.cpp:275 | "http://[::1/" passes, because the bracket right after "//" is skipped |
| GovernanceValidators.FetchString | src/governance-validators.cpp:188-202 | a string is fetched exactly when the field holds a string |
| GovernanceValidators.FetchInt64 | src/governance-validators.cpp:204-218 | a fetched value is a 64-bit integer equal to the field, and every whole number in range is fetched |
| GovernanceValidators.FetchReal | src/governance-validators.cpp:220-234 | a number is fetched, with its value, exactly when the field holds a number that does not overflow a double; an overflowing one throws "JSON double out of range" |
| GovernanceValidators.NameStageSpec | src/governance-validators.cpp:71-91 | the name passes exactly when it is a string that, unstripped, matches [-_a-zA-Z0-9]+; a non-string logs the fetch error |
| GovernanceValidators.EpochStageAsWritten | src/governance-validators.cpp:93-111 | the range check passes exactly when both epochs are readable integers and the end epoch is negative |
| GovernanceValidators.EpochStageRefusesOrderedRange | src/governance-validators.cpp:93-111 | a proposal from epoch 1000 to 2000 is refused |
| GovernanceValidators.AmountStageSpec | src/governance-validators.cpp:113-126 | the amount passes exactly when it is a number above zero that does not overflow a double |
| GovernanceValidators.AmountStageRefusesOverflow | src/governance-validators.cpp:220-234 | an amount of 2^1024 - 2^970 fails, and the log gains get_real's "JSON double out of range;" |
| GovernanceValidators.ValidationLogEndsWithStageMessage | src/governance-validators.cpp:38-64 | on parsed data the log is non-empty and ends with one of the five stage messages |
| GovernanceValidators.PassingStagesAreSilent | src/governance-validators.cpp:71-142 | a stage that passes logs nothing |
| GovernanceValidators.ValidationLogAfterGoodName | src/governance-validators.cpp:38-51 | after a good name, an unreadable start epoch logs its fetch error followed by the range message |
| GovernanceValidators.ProposalValidator.constructor | src/governance-validators.cpp:12-21 | whatever the hex data, the data stays empty, nothing is parsed and the log is empty |
| GovernanceValidators.ProposalValidator.Clear | src/governance-validators.cpp:23-29 | data, JSON, validity flag and log are reset |
| GovernanceValidators.ProposalValidator.SetHexData | src/governance-validators.cpp:31-36 | the data field is unchanged, and only it is parsed |
| GovernanceValidators.ProposalValidator.ParseJSONData | src/governance-validators.cpp:164-186 | empty data changes nothing; otherwise the parse outcome sets the JSON and the validity flag, or logs the error |
| GovernanceValidators.ProposalValidator.GetDataString | src/governance-validators.cpp:188-202 | succeeds exactly when `FetchString` does, returning its value; a failure appends the error text to the log |
| GovernanceValidators.ProposalValidator.GetDataInt64 | src/governance-validators.cpp:204-218 | succeeds exactly when `FetchInt64` does, returning its value; a failure appends the error text to the log |
| GovernanceValidators.ProposalValidator.GetDataReal | src/governance-validators.cpp:220-234 | succeeds exactly when `FetchReal` does, returning its value; a failure appends the error text to the log |
| GovernanceValidators.ProposalValidator.ValidateName | src/governance-validators.cpp:71-91 | the name stage's verdict, with its messages appended to the log |
| GovernanceValidators.ProposalValidator.ValidateStartEndEpoch | src/governance-validators.cpp:93-111 | the range stage's verdict, with its messages appended to the log |
| GovernanceValidators.ProposalValidator.ValidatePaymentAmount | src/governance-validators.cpp:113-126 | the amount stage's verdict, with its messages appended to the log |
| GovernanceValidators.ProposalValidator.ValidatePaymentAddress | src/governance-validators.cpp:128-142 | the address stage's verdict, with its messages appended to the log |
| GovernanceValidators.ProposalValidator.ValidateURL | src/governance-validators.cpp:144-162 | always false; the URL stage's messages are appended to the log |
| GovernanceValidators.ProposalValidator.Validate | src/governance-validators.cpp:38-64 | never true; the log gains the stages' messages up to the first failure, and nothing when the JSON is not valid |
| GovernanceValidators.ValidateFreshProposal | src/governance-validators.cpp:12-64 | a validator built from hex data fails validation and logs nothing |
| MasternodeSync.AssetName | src/masternode-sync.cpp:63-76 | "UNKNOWN" exactly for an asset value outside the listed ones |
| MasternodeSync.AssetNameRoundTrip | src/masternode-sync.cpp:63-76 | every listed asset has its own name, so the name identifies the asset |
| MasternodeSync.SyncStatus | src/masternode-sync.cpp:121-133 | "" exactly for an asset value outside the listed ones |
| MasternodeSync.NextAssetAdvances | src/masternode-sync.cpp:85-103 | each switch before FINISHED moves strictly forward to a listed asset other than FAILED |
| MasternodeSync.SwitchesReachFinished | src/masternode-sync.cpp:85-103 | every stage reaches FINISHED after its remaining steps and then stays there |
| MasternodeSync.FullSyncTakesFiveSwitches | src/masternode-sync.cpp:85-103 | from INITIAL the sync is in GOVERNANCE after four switches and FINISHED after five |
| MasternodeSync.MasternodeSyncState.GetAssetName | src/masternode-sync.cpp:63-76 | "UNKNOWN" exactly when the requested asset is not a listed one |
| MasternodeSync.MasternodeSyncState.GetSyncStatus | src/masternode-sync.cpp:121-133 | "" exactly when the requested asset is not a listed one |
| MasternodeSync.MasternodeSyncState.Fail | src/masternode-sync.cpp:45-49 | the asset becomes FAILED and the failure time is recorded; every other field is unchanged |
| MasternodeSync.MasternodeSyncState.Reset | src/masternode-sync.cpp:51-61 | the state is the reset state at that time: INITIAL, no attempts, no failures, timers restarted |
| MasternodeSync.MasternodeSyncState.SwitchToNextAsset | src/masternode-sync.cpp:78-119 | throws and changes nothing from FAILED; otherwise moves one step, and resets the attempts and restarts the timer unless the GOVERNANCE step misses its lock |
| MasternodeSync.MasternodeSyncState.ProcessTickReset | src/masternode-sync.cpp:176-197 | a FINISHED sync with no masternodes is reset and the tick goes on; a FAILED one is reset only after the cooldown and the tick stops either way; other stages go on unchanged |
| MasternodeSync.MasternodeSyncState.CheckListOrPaymentTimeout | src/masternode-sync.cpp:262-272 | on a LIST or MNW timeout, zero attempts fail the sync and otherwise it advances; without a timeout nothing changes |
| MasternodeSync.MasternodeSyncState.CheckGovernanceTimeout | src/masternode-sync.cpp:345-352 | on a GOVERNANCE timeout the sync advances to FINISHED whatever the attempt count; without one nothing changes |
| GovernanceExceptions.TypeValue | src/governance-exceptions.h:10-21 | each severity's number lies in 0..4 |
| GovernanceExceptions.TypeValueRoundTrip | src/governance-exceptions.h:10-21 | the numbers 0..4 name the five severities one to one |
| GovernanceExceptions.TypeName | src/governance-exceptions.h:23-43 | each severity is written as an identifier without ':' |
| GovernanceExceptions.TypeNameRoundTrip | src/governance-exceptions.h:23-43 | each severity's written form identifies it |
| GovernanceExceptions.MakeException | src/governance-exceptions.h:60-67 | the type is the given one, and the message is the type's identifier, ':', then the given message; `what()` equals `GetMessage()` for a message without NUL characters |
| GovernanceExceptions.DefaultException | src/governance-exceptions.h:60 | the default exception has type NONE and message "GOVERNANCE_EXCEPTION_NONE:" |
| GovernanceExceptions.FirstColon | src/governance-exceptions.h:60-67 | the position of the first ':' in a text, or nothing exactly when it has none |
| GovernanceExceptions.MessageRoundTrip | src/governance-exceptions.h:60-84 | the composed message determines both the type and the caller's message, whatever that message holds |

## Left out

- Networking and peers: the `ProcessMessage` handlers, `AskForMN`, `DsegUpdate`, `Relay` and the connection handling are not modelled. So are the inventory and message sends of `Sync` and the per-peer loop of `CMasternodeSync::ProcessTick` beyond its reset and timeout rules. `Misbehaving` becomes a returned penalty.
- Cryptography and hashing: `CalculateScore`, `GetCompact`, `GetHash`, signatures and address validity are parameters (score and validity functions, vote hashes).
- Chain and global state: the tip, block hashes, subsidy, masternode payment, coin estimate, sporks, the clock and `mn.Check()` are parameters.
- Randomness: `FindRandomNotInVec` takes the shuffled order as a parameter.
- Concurrency: locks are left out. A `TRY_LOCK` outcome is a boolean parameter.
- Floating point: the 1.25 factors use the exact integer form 5/4, and 2.6 * 60 uses 156 seconds. The proposal amount is a `real`. `nSyncProgress` and the *0.9 estimate are left out.
- Masternodes.MasternodeMan.GetNextMasternodeInQueueForPayment: the signature-time filter uses exactly 156 seconds per masternode. The rounding of the source's floating-point `nMnCount * 2.6 * 60` is not modelled.
- Masternodes.MasternodeMan.GetEstimatedMasternodes: the loop counter and the doubling period are unbounded. The source's `int` overflows for block heights above about 1.1 billion, which is not modelled.
- Integer widths: apart from the 64-bit range check of JSON integers, no wrap-around is modelled.
- Headers not in this model: `masternode-payments.h`, `masternode-sync.h` and `masternode.h`. Their constants (vote threshold 6, total 10, storage coefficient, sync timeouts, asset numbers) and constructors are restated. `CMasternodeBlockPayees::AddPayee` and `GetPayee` are modelled on values from their uses.
- JSON: `UniValue` parsing is a parse function passed in, and its exception text is an opaque string. Values are a small JSON datatype in which a number keeps only its value as a real, not its text. The failed typed reads use `UniValue`'s own exception texts.
- GovernanceValidators.FetchInt64: because a number's text is not kept, a whole value written as "1.0" or "1e3" is read as an integer, where `UniValue`'s `get_int64` would throw "JSON integer out of range". No validation reaches this as written, since `SetHexData` never fills the data the JSON is parsed from.
- `std::regex` is modelled by an explicit character-class predicate for `[-_a-zA-Z0-9]+`.
- `GetActiveTriggers` is not modelled, because it loops without advancing and returns pointers into a destroyed local. The active triggers are an input.
- The `CSuperblock(CGovernanceObject*)` constructor is not modelled, because it reads an uninitialised member. A superblock is built from its epoch start, hash, funding flag and yes count, and `fValid` of a payment is an input.
- `CleanAndRemove` and `AddNewTrigger` dereference objects that may be NULL. The object type is a parameter.
- `IsBlockValueValid` is not modelled. It returns true before any check.
- `IsBlockchainSynced`, `ClearFulfilledRequests`, `UpdatedBlockTip`, `AddedBudgetItem` and `ProcessBlock` are not modelled. They are clock, peer or wallet orchestration.
- `CMasternodeBlockPayees::GetRequiredPaymentsString` and the payments variant are not modelled. The superblock manager's `GetRequiredPaymentsString` is, with the address text passed in as a function.
- Serialization (`READWRITE`) and logging are not modelled.
- GovernanceValidators.FetchReal: a number is kept as an exact real. Its rounding to the nearest double is not modelled, and neither is what the C++ stream does with a text that underflows (such as 1e-400). Only the overflow throw of `get_real` is.
- Payments.BlockPayees.IsTransactionValid: the output total stands for `txNew.GetValueOut()` (masternode-payments.cpp:428). That call throws when an output value or the running sum leaves the money range, and the model has no such exit.
- GovernanceExceptions.MakeException: `what()` returns `strMessage.c_str()` (governance-exceptions.h:71). A message containing a NUL character therefore reads shorter through `what()` than through `GetMessage()`. Strings here have no terminator, so the model's `What` always equals `GetMessage`.
- Payments.FillBlockPayee: with a tip, the source writes `txNew.vout[0]` without checking that the coinbase has an output (masternode-payments.cpp:235). The model requires at least one output on that path instead of modelling the out-of-bounds write. Without a tip, any coinbase, the empty one included, comes back unchanged.
- CacheMultiMaps.CacheMultiMap.Clear: the source's `mapCrossIndex();` (cachemultimap.h:82) calls a `std::map` as a function, which does not compile once the template is instantiated. The cross index is never read, so the model leaves that line out.
- GovernanceClasses.Superblock.IsValid: the source reads `txNew.vout[i]` without a bounds check (governance-classes.cpp:358). A coinbase shorter than the schedule is an out-of-bounds read there; the model treats it as a mismatch and returns false.
- Payments.MasternodePayments.CheckAndRemove: the source also erases each removed vote's hash from `masternodeSync.mapSeenSyncMNW` (masternode-payments.cpp:527). That table belongs to the sync object and is not modelled, so this effect is dropped.
- CacheMultiMaps.CacheMultiMap.GetAll: the source binds `*it`, a list iterator, to an `item_t&` (cachemultimap.h:145), which does not compile once the template is instantiated. The model dereferences the iterator twice, reading the item the index entry names.
- Iterators and pointers: list iterators of `CacheMultiMap` are item identities, and `CMasternode*` results are record values or positions. Aliasing through those pointers is not modelled.
