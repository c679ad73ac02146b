# Match-state reconciliation of the cricket and 1xbet odds scrapers

This project models how the two scrapers turn a freshly scraped batch of
match records into a new in-memory state, and proves what that merge
promises.

**Cricket odds (`app.py`).**
- `CricketOddsScraper._create_stable_id` builds an order-independent team key (`stable_identity.dfy`).
- `extract_cricket_odds` keeps only real prices in the back and lay ladders (`odds_ladder.dfy`).
- `_detect_changes` classifies the difference between two versions of a match (`change_detector.dfy`).
- `update_global_state` is the merge (`reconciliation.dfy`, `reconciliation_properties.dfy`). It looks up each batch record by id and then by team key, keeps the old id, records history, grows the id mapping, counts changes and throttles file writes.
- `find_match_by_id` resolves a requested id in three steps: direct hit, one hop through the mapping, then a team-name fallback (`match_lookup.dfy`).

**1xbet events (`paste.py`).**
- `XbetScraper.update_match_odds` merges one event dict into another in place (`event_merge.dfy`). Events are heap objects, so the merge updates the very dicts that other lists share.
- The per-round merge of `run_continuous_updates` updates known events in place and appends unseen ones (`event_store.dfy`). The same file has the odds diff that fills the change log.
- `continuous_updates.dfy` covers:
  - the `data_store` and the bounded loop of rounds;
  - the 100-entry cap on the change log;
  - the interval and update-count clamps of `start_continuous`, `run_continuous_scraper` and `run_continuous_updates`;
  - the `limit` slice of `get_odds_changes`.
- `get_sport_name` and the league de-duplication of `get_all_leagues` (`leagues.dfy`).

**How each part is modelled.**
- Pure computations are functions with lemmas.
- Loops are methods proved against those functions:
  - the ladder loop;
  - the merge loop of `update_global_state`;
  - the lookup loops;
  - the league loop;
  - the per-key loop of `update_match_odds`;
  - the round loop.
- The mutable state is a class in each variant:
  - `scraper_state` is `Reconciliation.ScraperState`;
  - `data_store` and the task globals are `ContinuousUpdates.DataStore`.

## Model

| member | source | states |
|---|---|---|
| StableIdentity.LowerString | app.py:250 | keeps the length, leaves no upper-case letter, keeps every other character, and turns each upper-case letter into the letter 32 code points above it |
| StableIdentity.LowerStringIdempotent | app.py:250 | lower-casing twice is lower-casing once |
| StableIdentity.MapCharsShape | app.py:250 | the per-character map keeps the length, yields only lower-case alphanumerics and `_`, and yields `_` exactly where the input was not alphanumeric |
| StableIdentity.CollapseShape | app.py:252 | collapsing runs of `_` never lengthens the name, leaves no `__`, keeps the first and last characters, and changes nothing in a name without `__` |
| StableIdentity.CollapseFixpoint | app.py:252 | collapsing changes nothing in a name without `__` |
| StableIdentity.CollapseWiden | app.py:252 | widening a run of `_` by one leaves the collapsed name unchanged; with `CollapseShape` this fixes `re.sub(r'_+', '_', s)` |
| StableIdentity.TrimLeftShape | app.py:252 | the leading strip removes only `_` characters, keeps a suffix that does not start with `_`, and is the identity when there is no leading `_` |
| StableIdentity.TrimRightShape | app.py:252 | the trailing strip removes only `_` characters, keeps a prefix that does not end with `_`, and is the identity when there is no trailing `_` |
| StableIdentity.MapCharsLetters | app.py:250 | the non-`_` characters of the mapped name are exactly the name's alphanumerics, lower-cased, in order |
| StableIdentity.CollapseLetters | app.py:252 | collapsing removes `_` characters only |
| StableIdentity.TrimLetters | app.py:252 | `strip('_')` removes `_` characters only, on either side |
| StableIdentity.NormalizeKeepsLetters | app.py:248-253 | the non-`_` characters of a normalised name are exactly the name's alphanumerics, lower-cased, in order |
| StableIdentity.NormalizeEmpty | app.py:248-253 | a name normalises to the empty string iff it has no alphanumeric character |
| StableIdentity.Normalize | app.py:248-253 | the definition of the per-name normalisation: map, collapse, strip |
| StableIdentity.NormalizeIsNormal | app.py:248-253 | every normalised name uses only key characters, has no `__` and no edge `_` |
| StableIdentity.NormalNameIsFixpoint | app.py:248-253 | normalisation leaves an already normal name unchanged |
| StableIdentity.NormalizeIdempotent | app.py:248-253 | normalising twice is normalising once |
| StableIdentity.NormalizeOneChar | app.py:250-252 | a single alphanumeric character normalises to its lower-case form |
| StableIdentity.NormalizeAllElements | app.py:248-253 | the loop over the teams normalises each name at its own index |
| StableIdentity.LexLessTotal | app.py:244 | the string order that `sorted` uses is total and strict on distinct names |
| StableIdentity.KeyTeams | app.py:244 | `[team1]` alone when `team2` is empty or equal to `team1`; otherwise both names, each once, in ascending `<` order |
| StableIdentity.StableKey | app.py:238-258 | the definition of `_create_stable_id`: `unknown_match` for an empty first name, else the normalised key names joined by `__vs__` |
| StableIdentity.MatchId | app.py:290 | the definition of the public id `match_<key>` |
| StableIdentity.SingleNameKey | app.py:240-253 | a named match with no distinct second name is keyed by its first name, normalised |
| StableIdentity.KeyOrderIndependent | app.py:240-256 | with both names non-empty, swapping them changes neither the key nor the public id `match_<key>` (app.py:290) |
| StableIdentity.KeyOrderDependsOnEmptyFirst | app.py:240-244 | an empty first name gives `unknown_match` even when the second is named, while the swap gives that name's key |
| StableIdentity.SortPrecedesNormalization | app.py:244-252 | names are sorted before they are lower-cased, so `("b","A")` and `("B","a")` give different keys although each name normalises the same |
| StableIdentity.FirstDoubleUnderscore | app.py:256 | finds the first `__`, and reports none only when there is none |
| StableIdentity.SplitJoinRoundTrip | app.py:256 | splitting a joined key at its first `__` gives back the normal names it was joined from |
| StableIdentity.StableKeyRoundTrip | app.py:240-256 | the key of a named match splits back into the normalised team names it was built from |
| OddsLadder.Ladder | app.py:319-341 | the ladder is never longer than its row of buttons |
| OddsLadder.LadderEntriesPriced | app.py:319-328 | every entry is a button with a price that is neither missing, empty nor `-`, carrying that button's index, price and volume |
| OddsLadder.LadderOrdered | app.py:319-328 | positions strictly increase: entries follow the buttons and no button appears twice |
| OddsLadder.LadderComplete | app.py:319-328 | no priced button is dropped |
| OddsLadder.BuildLadder | app.py:319-341 | the `enumerate` loop builds exactly the ladder of its buttons |
| OddsLadder.BuildOdds | app.py:316-343 | the `odds` dict holds the back ladder and the lay ladder |
| ChangeDetector.InsertByPosition | app.py:387 | inserting adds one entry and keeps the other entries as a multiset |
| ChangeDetector.SortByPosition | app.py:387-388 | `sorted(..., key=position)` is a permutation of its input |
| ChangeDetector.InsertKeepsSorted | app.py:387 | inserting into a position-sorted ladder keeps it sorted |
| ChangeDetector.InsertKeepsStrictlySorted | app.py:387 | inserting a new position into a strictly sorted ladder keeps it strictly sorted |
| ChangeDetector.SortIsSorted | app.py:387-388 | the result is sorted by position, and strictly sorted when positions are distinct |
| ChangeDetector.SortedArrangementUnique | app.py:387-388 | a strictly sorted ladder is the only sorted arrangement of its entries |
| ChangeDetector.SortShuffleInvariant | app.py:387-388 | with distinct positions, any reordering of a ladder sorts to the same ladder |
| ChangeDetector.PricesDifferIff | app.py:392-396 | the early-exit price loop reports a difference iff some index has different prices |
| ChangeDetector.SideChangedMeaning | app.py:387-409 | a side is flagged iff its sorted ladders differ in length or in some price |
| ChangeDetector.DetectChanges | app.py:364-411 | the definition of `_detect_changes` |
| ChangeDetector.DetectChangesMeaning | app.py:373-409 | `status_changed` iff `in_play` differs; `score_changed` iff the scores differ, absent included; `odds_changed` iff the back or the lay side differs, with a missing `odds` read as empty ladders |
| ChangeDetector.DetectChangesReflexive | app.py:373-409 | a match compared with itself shows no change |
| ChangeDetector.SideChangedIrreflexive | app.py:387-396 | a ladder never differs from itself |
| ChangeDetector.WithoutVolumes | app.py:392-396 | clearing the volumes keeps the length and every entry's position and price, and leaves no volume |
| ChangeDetector.SameUpToVolumes | app.py:392-396 | two ladders look alike without volumes iff they agree entry by entry on position and price, the only fields the price loop and the sort read |
| ChangeDetector.InsertWithoutVolumes | app.py:387 | inserting commutes with clearing volumes |
| ChangeDetector.SortWithoutVolumes | app.py:387-388 | sorting commutes with clearing volumes |
| ChangeDetector.SideChangedIgnoresVolume | app.py:387-396 | a side's verdict does not depend on volumes |
| ChangeDetector.DetectChangesIgnoresVolume | app.py:373-409 | the verdict is the same with every new volume cleared |
| ChangeDetector.VolumeOnlyDifferenceNotFlagged | app.py:387-409 | odds that differ only in volume are not flagged |
| ChangeDetector.DetectChangesShuffleInvariant | app.py:387-409 | with distinct positions, reordering either new ladder does not change the verdict |
| Reconciliation.IndexById | app.py:426 | each id maps to a match carrying that id |
| Reconciliation.IndexByIdMembers | app.py:426 | an id is indexed iff some current match has it, and the indexed match is one of them |
| Reconciliation.IndexByIdLastWins | app.py:426 | of several matches with the same id, the last one is indexed |
| Reconciliation.TeamIndexCovers | app.py:429-435 | every current match with a team name has its key in the team index |
| Reconciliation.TeamIndexSound | app.py:429-435 | every key of the team index comes from a named current match, and maps to that match's id |
| Reconciliation.BuildTeamIndex | app.py:429-435 | the loop builds exactly the team index |
| Reconciliation.FindPrevious | app.py:449-461 | the previous version is found by id first, and only then by team key through an indexed id; the current id is reported exactly on a team-key hit |
| Reconciliation.AppendRecord | app.py:463-497 | appends the record's output; a new or odds-changed record adds one history entry under its output id and one change, an equal-odds record adds neither |
| Reconciliation.Step | app.py:441-497 | the definition of one pass of the batch loop: resolve, output, mapping, history and count |
| Reconciliation.Reconcile | app.py:438-497 | the definition of the merge: the fold of one step per batch record, from the old mapping and history |
| Reconciliation.ShouldPersist | app.py:518-520 | the definition of the write test: no write yet, more than `FILE_WRITE_INTERVAL` elapsed, or more than five changes |
| Reconciliation.Merge | app.py:438-497 | the loop over the batch computes exactly `Reconcile`, the fold of one step per record |
| Reconciliation.ScraperState.constructor | app.py:109-121 | the initial state is empty and idle, with no write yet |
| Reconciliation.ScraperState.RecordStartup | app.py:771 | startup records the first file-write time |
| Reconciliation.ScraperState.UpdateGlobalState | app.py:413-526 | snapshot, id mapping, history and change count become the result of `Reconcile` on the old state. The timestamps and `running` status are set and `error_count` is kept. Files are written iff there was no write, more than `FILE_WRITE_INTERVAL` (app.py:51) elapsed, or more than five records changed; only then does `last_file_write` advance |
| Reconciliation.ScraperState.Publish | app.py:507-512 | the assignments under the lock set exactly the data fields, timestamps and status |
| ReconciliationProperties.ReconcileFromShape | app.py:438-503 | the output holds one match per batch record, in batch order, after what was already built |
| ReconciliationProperties.ReconcileOutputs | app.py:438-503 | the new snapshot has exactly one match per batch record, with that record's odds, under the old id on a team-key hit and under the record's id otherwise; old matches missing from the batch are dropped |
| ReconciliationProperties.OutputForFacts | app.py:463-497 | a record's output carries its odds, and the old id exactly on a team-key hit |
| ReconciliationProperties.EqualOddsKeepPrevious | app.py:465-483 | with equal odds the old version is kept whole, with no history and no change, even when score or in-play status moved |
| ReconciliationProperties.ChangesCountTouched | app.py:463-489 | the change count is the number of new records plus records whose odds changed |
| ReconciliationProperties.AllNewAllCounted | app.py:486-496 | a batch of only new records counts every record |
| ReconciliationProperties.FirstBatchAllNew | app.py:438-512 | against an empty snapshot the batch is taken as is, every record counts and the mapping is untouched |
| ReconciliationProperties.MappingChangesOnlyOnTeamHits | app.py:455-461 | the mapping never loses a key, and each new or rewritten entry comes from a team-key hit on that key |
| ReconciliationProperties.MappingUntouchedWithoutTeamHits | app.py:455-461 | without team-key hits the mapping is unchanged |
| ReconciliationProperties.TeamHitsRecorded | app.py:455-461 | every team-key hit leaves its old id in the mapping |
| ReconciliationProperties.TeamHitEntryNeverFollowed | app.py:728-738 | the mapping entry that a team-key hit writes (app.py:461) points from the old id, which stays in the snapshot, so a lookup of that id is a direct hit and the entry is never used |
| ReconciliationProperties.TeamIndexOfCanonical | app.py:429-435 | over matches (ids built at app.py:290) with ids `match_<key>`, the team index maps each key to `match_<key>` |
| ReconciliationProperties.CanonicalIdsSkipTeamKeys | app.py:449-461 | when every id is `match_<key>`, a record missing by id is missing by team key too |
| ReconciliationProperties.CanonicalIdsKeepMapping | app.py:449-461 | when every id (as built at app.py:290) is `match_<key>`, the merge never changes the mapping |
| ReconciliationProperties.HistoryAppendOnly | app.py:475-497 | each history list only grows, new entries carry the batch's timestamp, and a list no record is recorded under is unchanged |
| ReconciliationProperties.QuietFold | app.py:463-483 | records that keep their odds and hit by id change neither mapping, history nor count |
| ReconciliationProperties.SecondPassIsQuiet | app.py:438-512 | merging the same batch again (distinct ids, no team-key hits) reproduces the state and counts no change |
| ReconciliationProperties.VolumeOnlyUpdateCountedUnflagged | app.py:465-480 | a volume-only odds difference replaces the match and counts as a change, but its history entry says the odds did not change |
| MatchLookup.FirstWithId | app.py:728-730 | finds the first match with the id, or reports that none has it |
| MatchLookup.FirstNamedIn | app.py:745-755 | finds the first match with a non-empty team1 whose lower-cased team1 or team2 occurs in the lower-cased id, or reports none |
| MatchLookup.Lookup | app.py:721-758 | the definition of `find_match_by_id` as a value: direct hit, one hop through the mapping, then the team-name fallback |
| MatchLookup.FindMatchById | app.py:721-758 | the three loops compute exactly `Lookup`: direct hit, one hop through the mapping, team-name fallback for `match_` ids of more than two parts, else nothing |
| MatchLookup.LookupDirectHit | app.py:728-730 | an id present in the snapshot returns the first match with it and no redirect |
| MatchLookup.LookupRedirectNamesFound | app.py:733-755 | a found match is in the snapshot, and a redirect is the found match's id and differs from the requested one |
| MatchLookup.LookupNotFound | app.py:757-758 | nothing is found iff no match has the id, none has its mapped id, and the fallback (when it applies) names none |
| EventMerge.Event.constructor | paste.py:490 | an event object holds the dict it was created with |
| EventMerge.Merged | paste.py:490-531 | the definition of the merged dict: every key of the new record but `match_id` copied over the old one |
| EventMerge.ChangeReported | paste.py:490-531 | the definition of the returned flag: some `score`, `status` or `odd_` key of the record is missing or different |
| EventMerge.MatchIdNotTracked | paste.py:518-519 | `match_id` is never one of the reported keys |
| EventMerge.HeadWritten | paste.py:496-509 | the four fixed steps copy those of `timestamp`, `score`, `scores` and `status` that the new record has |
| EventMerge.HeadFlagged | paste.py:499-510 | the fixed steps report a change iff `score` or `status` is new or different |
| EventMerge.WrittenStep | paste.py:516-529 | one pass of the key loop writes that key's value unless it was handled already or is `match_id` |
| EventMerge.FlaggedStep | paste.py:516-527 | one pass of the key loop adds a report iff the key is an `odd_` key that is new or different |
| EventMerge.LoopDone | paste.py:516-529 | after the loop every key of the new record except `match_id` is written, and the report covers every key |
| EventMerge.UpdateHandledKeys | paste.py:496-510 | the fixed steps write and report as `HeadWritten` and `HeadFlagged` say |
| EventMerge.UpdateMatchOdds | paste.py:490-531 | the event becomes the merge of the old dict with the record, and the result is true iff `score`, `status` or some `odd_` key is missing or different |
| EventMerge.MergedAgreement | paste.py:496-529 | after the merge the event agrees with the record on every key but `match_id`, keeps its other keys, and keeps its own `match_id` |
| EventMerge.MergeIdempotent | paste.py:490-531 | merging the same record twice is merging it once |
| EventMerge.SecondUpdateReportsNothing | paste.py:490-531 | a second update with the same record reports no change |
| EventMerge.UntrackedDifferencesNotReported | paste.py:505-529 | differences only in `timestamp`, `scores` or other untracked keys are written but not reported |
| EventStore.FieldsOf | paste.py:617 | the dicts of a list of events, position by position |
| EventStore.PositionIndex | paste.py:617-618 | every indexed id points at a dict carrying that id |
| EventStore.PositionIndexLast | paste.py:617-618 | every id in the list is indexed, at its last position |
| EventStore.BuildIdMap | paste.py:617-618 | the comprehension maps each id to the event object at its indexed position |
| EventStore.MergeStep | paste.py:627-637 | one record never shrinks the list |
| EventStore.MergeFrom | paste.py:627-637 | the merge of a batch never shrinks the list |
| EventStore.MergeKeepsAndAppends | paste.py:627-637 | the events keep their positions and ids, exactly the records with an unseen id are appended, and only existing events are reported as changed |
| EventStore.MergeReportsOddsMoves | paste.py:627-637 | a stored `odd_` key is never dropped, and when its final value differs from the stored one the merge has reported that event as changed |
| EventStore.MergeSkipsRecordsWithoutId | paste.py:628-629 | a record without `match_id` changes nothing |
| EventStore.MergeLeavesUnnamed | paste.py:627-637 | an event no record names keeps its dict |
| EventStore.MergeLastRecordWins | paste.py:632-633 | an event agrees with the last record naming it on every key but `match_id` |
| EventStore.MergeRecord | paste.py:627-637 | one record of the loop updates the shared objects and the lists as `MergeStep` says, allocating only the appended event |
| EventStore.MergeSection | paste.py:617-650 | one list's loop leaves the dicts and the changed events that `MergeFrom` describes, keeps every existing object at its place, and appends only fresh objects |
| EventStore.OddsDiff | paste.py:672-677 | the diff is empty iff the dicts agree on every shared `odd_` key; otherwise it holds one real move (from, to), with from != to, for each shared `odd_` key that differs |
| EventStore.DiffOfMergeIsMovedOdds | paste.py:664-677 | diffing an event against its merge with a record lists exactly the `odd_` keys the record brings with a new value, each as (stored, new), and a non-empty diff means the merge reported a change |
| EventStore.DiffOdds | paste.py:672-677 | the key loop computes exactly `OddsDiff` |
| EventStore.ChangeEntries | paste.py:664-699 | the definition of the change entries: one per changed event with a non-empty diff against the first old dict with its id |
| EventStore.FindFirstNamed | paste.py:665 | the `next(...)` search computes exactly the first dict with the id, or `{}` |
| EventStore.CollectChanges | paste.py:664-679 | the loop over the changed events computes exactly their change entries |
| EventStore.ChangeEntriesAt | paste.py:664-679 | one changed event contributes an entry with its id, teams and diff iff the diff is non-empty |
| EventStore.OddsDiffSelf | paste.py:672-677 | a dict has no odds difference with itself |
| EventStore.FirstNamedIsSelf | paste.py:665 | with distinct ids, the first dict with an event's id is that event's own dict |
| EventStore.AsWrittenDiffIsEmpty | paste.py:596-677 | with the shallow copies of paste.py:596-597, distinct ids in the stored list and each changed event carrying an id, diffing changed events against the list that holds those same objects finds nothing |
| EventStore.SnapshotDiffReportsOddsChanges | paste.py:664-679 | against a copy taken before the merge, an event gets an entry iff some shared `odd_` key moved, with exactly the moved keys and their old and new values |
| EventStore.AliasingHidesOddsChange | paste.py:596-677 | a concrete event whose `odd_1` moves from 1.5 to 1.7: the as-written diff is empty, the snapshot diff reports the move |
| Leagues.GetSportName | paste.py:413-429 | the definition of `get_sport_name`: the twelve fixed names, else `Sport <id>` |
| Leagues.SportNameCases | paste.py:413-429 | each of the twelve ids of `sport_mapping` gets its name from that table, none of them starting with `S`; every other id gets `Sport <id>` |
| Leagues.SportNameInjective | paste.py:413-429 | different sport ids never share a name |
| Leagues.AfterLastSuffix | paste.py:457 | `split('#')[-1]` is the longest suffix without `#` |
| Leagues.RemoveAllFacts | paste.py:457 | `replace('sports_', '')` leaves a string without the pattern unchanged and drops a leading occurrence |
| Leagues.StripTrims | paste.py:452 | `strip()` returns a slice with no whitespace (Python's `isspace` set) at either end, and everything it cuts off is whitespace |
| Leagues.LeagueOf | paste.py:445-470 | the definition of one header's league record, or none without a league element |
| Leagues.LeagueIdShape | paste.py:452-470 | a missing sport icon gives `Sport Unknown`, a missing flag gives `International`, and the league name has no whitespace at either end |
| Leagues.SameSportLeagueIds | paste.py:452-470 | two linked headers with the same sport icon share a league id iff their link texts strip to the same name |
| Leagues.Candidates | paste.py:445-449 | there is at most one league per header |
| Leagues.CandidatesContain | paste.py:445-449 | every header with a league element yields its league |
| Leagues.AnyWithId | paste.py:484 | the `any(...)` loop reports exactly whether a kept league has the id |
| Leagues.GetAllLeagues | paste.py:431-488 | the header loop returns exactly the de-duplicated leagues |
| Leagues.FirstIndex | paste.py:484 | the position of the first league with the id |
| Leagues.Dedup | paste.py:483-485 | the definition of the de-duplication: a candidate is kept unless an earlier kept league has its id |
| Leagues.DedupDistinct | paste.py:483-485 | the kept leagues have pairwise distinct ids |
| Leagues.DedupCovers | paste.py:483-485 | every candidate's id is kept |
| Leagues.DedupFirstWins | paste.py:483-485 | each kept league is the first candidate with its id |
| Leagues.DedupKeepsOrder | paste.py:483-485 | kept leagues come from the candidates, in candidate order |
| Leagues.EveryLinkedHeaderCovered | paste.py:443-485 | every header with a league element has its league id in the result |
| ContinuousUpdates.CapLog | paste.py:701-703 | the log holds at most 100 entries, is unchanged when it fits, and otherwise keeps exactly its newest 100 |
| ContinuousUpdates.GetOddsChanges | paste.py:911-915 | the last `limit` entries when `0 < limit < len`, otherwise the whole log |
| ContinuousUpdates.OrTen | paste.py:587 | `x or 10` (also at paste.py:730 and paste.py:939): a missing or zero count becomes 10, any other is kept |
| ContinuousUpdates.StartInterval | paste.py:938 | the interval is clamped to [5, 30] |
| ContinuousUpdates.StartMaxUpdates | paste.py:939 | the count is clamped to [1, 20], a missing or zero count becoming 10 |
| ContinuousUpdates.ScraperInterval | paste.py:729 | the interval is at least 5 and kept when it already is |
| ContinuousUpdates.UpdateLimit | paste.py:587 | the round limit is at most 10, and 10 for a missing or zero count |
| ContinuousUpdates.Iterations | paste.py:588-591 | the loop runs `min(limit, polls)` rounds for a positive limit and none otherwise |
| ContinuousUpdates.StartedRunBounds | paste.py:938-939 | through paste.py:729-730 and paste.py:587, a run started through the API keeps its clamped interval and runs between 1 and 10 rounds, `min(count, 10)` of them |
| ContinuousUpdates.NegativeCountRunsNothing | paste.py:587-590 | a negative count passed directly to the loop runs no round |
| ContinuousUpdates.Picks | paste.py:631-633 | the changed events' dicts, in the order they were reported |
| ContinuousUpdates.MergeList | paste.py:617-650 | a list never shrinks and changed positions are existing events |
| ContinuousUpdates.Round | paste.py:590-703 | the definition of one round, with the diff taken against the dicts as they were before the merge |
| ContinuousUpdates.RoundAsWritten | paste.py:590-703 | the definition of one round as written, with the diff read through the shallow copies after the merge |
| ContinuousUpdates.RoundsSnoc | paste.py:590-703 | running one more round is applying that round to the state so far |
| ContinuousUpdates.RoundKeepsEvents | paste.py:626-650 | no event is removed or moves, and each list grows by exactly the records with unseen ids |
| ContinuousUpdates.RoundLogShape | paste.py:657-703 | a round leaves the log as it was, only capped, or with one new non-empty entry stamped with the round's time; after a page it holds at most 100 entries |
| ContinuousUpdates.RoundsLogBounded | paste.py:701-703 | after any number of rounds the log holds at most 100 entries |
| ContinuousUpdates.ChangeEntriesContain | paste.py:664-679 | a changed event with a non-empty diff has its entry in the collected changes |
| ContinuousUpdates.ListLogsOddsMoves | paste.py:664-697 | with the pre-merge diff and distinct ids, every stored event of a list with an id whose `odd_` value moved has an entry in that list's change entries, with exactly its moves |
| ContinuousUpdates.ListLogsReportedOddsMoves | paste.py:664-697 | the same for an event the merge reported as changed, given by its place in the changed list |
| ContinuousUpdates.RoundLogsOddsMoves | paste.py:657-699 | with the pre-merge diff and distinct ids, every stored live event with an id whose `odd_` value moved appears among the live changes of the round's new log entry, stamped with the round's time, with exactly its moves |
| ContinuousUpdates.RoundLogsUpcomingOddsMoves | paste.py:657-699 | the same for a stored upcoming event, among the upcoming changes of that entry |
| ContinuousUpdates.LoggedEndsWith | paste.py:696-703 | a round with live or upcoming change entries ends the log with its entry, also after the cap |
| ContinuousUpdates.RoundAsWrittenLogsNothing | paste.py:596-703 | as written, with distinct ids, a round never adds a log entry |
| ContinuousUpdates.AsWrittenListQuiet | paste.py:596-679 | as written, with distinct ids in the stored list, a list's change entries are empty whatever the batch |
| ContinuousUpdates.MergeChangedIsIndexed | paste.py:631-633 | every changed position holds an event with an id |
| ContinuousUpdates.Materialize | paste.py:578-582 | parsed dicts become distinct fresh event objects holding them |
| ContinuousUpdates.TrackedFields | paste.py:617-650 | the objects' dicts are the merged list and the changed events' dicts |
| ContinuousUpdates.DataStore.constructor | paste.py:50-60 | the store starts empty and idle |
| ContinuousUpdates.DataStore.MergeBoth | paste.py:612-650 | both lists are merged in place as `MergeList` says, returning the pre-merge dicts and the changed events |
| ContinuousUpdates.DataStore.MergeAndCollect | paste.py:612-699 | merges both lists and collects their change entries against the pre-merge dicts |
| ContinuousUpdates.DataStore.ApplyPoll | paste.py:590-703 | one iteration moves the store by exactly `Round` and stamps the scrape time |
| ContinuousUpdates.DataStore.RunRounds | paste.py:588-703 | the loop runs `Iterations` rounds and leaves the state of those rounds in order |
| ContinuousUpdates.DataStore.RunContinuousUpdates | paste.py:561-711 | a failed first fetch changes no data; otherwise the store is loaded, with the leagues of its headers each id once, and then moved by the bounded rounds; when no round runs, the scrape time stays as it was. Either way the task ends `stopped` and not running |
| ContinuousUpdates.DataStore.Load | paste.py:577-584 | the first fetch's lists replace the stored ones, and the leagues become those `get_all_leagues` finds in its headers, each id once |
| ContinuousUpdates.DataStore.Stop | paste.py:708-710 | the task ends `stopped` and not running, and no data changes |

## Left out

- Browser and HTML parsing are not modelled:
  - Selenium navigation and the DOM queries of `extract_cricket_odds`;
  - `get_page_content`, `parse_live_events` and `parse_upcoming_events`;
  - BeautifulSoup.
- What replaces them:
  - a ladder is built from abstract buttons (price text and volume text, each optional);
  - a league from an abstract header;
  - a round receives its parsed page, or nothing when the fetch failed.
- File persistence (`_save_data_files`, `load_existing_data`, the JSON files) is OS I/O. Only the decision to write is modelled.
- Threads and locks are not modelled: each method is one critical section.
- `time.sleep` and `datetime.now()` are not modelled. Clock values are parameters: ISO strings for stamps, and integer microseconds for the write throttle.
- A stop request is modelled by where the sequence of polls ends. A stop during the sleep is a final `Poll(time, None)`: the round was already counted and stamped (paste.py:591-592) and the `break` (paste.py:603-604) changes nothing else. A stop at any other point ends the polls after the round in progress.
- Logging is not modelled.
- The FastAPI routes other than the `limit` slice and the clamps are not modelled.
- `CricketOddsScraper.run` (its retry and backoff loop exists only to drive the browser), `main.py` and `scraper.py` are not part of this model.
- `str.isalnum` and `str.lower` are modelled over ASCII only.
- Python's `sorted` on strings is modelled by code-point order.
- ContinuousUpdates.DataStore.RunContinuousUpdates: does not model the `error` status that an exception sets just before `finally` overwrites it with `stopped`. Only a failed first fetch is modelled as the exception path.
- ContinuousUpdates.DataStore.ApplyPoll, ContinuousUpdates.DataStore.MergeAndCollect, ContinuousUpdates.DataStore.RunRounds and ContinuousUpdates.DataStore.RunContinuousUpdates: compute the odds diff against the dicts as they were before the merge, which is the corrected behaviour below. The as-written diff is modelled by `RoundAsWritten` and its lemmas.
- ContinuousUpdates.DataStore.RunRounds: computes the round count before the loop. The source tests `update_count < max_updates` on every pass, which gives the same count.
- Reconciliation.ScraperState.UpdateGlobalState: does not model the exception branch (`error_count += 1`, return False). Only malformed records reach it, such as a current match without `id`; `_save_data_files` catches its own exceptions (app.py:556-558).
- Reconciliation.ScraperState.UpdateGlobalState: does not model the `updated` display string, which is a second clock reading.
- EventStore.MergeSection and EventMerge.UpdateMatchOdds: require every parsed record to carry `timestamp`, which both parsers always set. A record without it would make the source raise `KeyError`.

## Findings

| source | as written | input that shows it | evidently intended | confidence | as-written member | corrected member |
|---|---|---|---|---|---|---|
| paste.py:596-597, paste.py:664-677 | The "old" lists are shallow copies. The merge updates the same dict objects in place, so each changed event is diffed against itself and no odds move is ever logged while ids are distinct. | One stored event `{match_id: m1, odd_1: 1.5}` and a batch record `{match_id: m1, odd_1: 1.7}`: the event is reported changed, but its change entry is empty (`AliasingHidesOddsChange`) | Diff against the dicts as they were before the merge, and log `odd_1: 1.5 → 1.7` | not executed | EventStore.AsWrittenDiffIsEmpty, ContinuousUpdates.RoundAsWrittenLogsNothing | EventStore.SnapshotDiffReportsOddsChanges, ContinuousUpdates.RoundLogsOddsMoves, ContinuousUpdates.RoundLogsUpcomingOddsMoves |
