/**
 * `CricketOddsScraper.update_global_state`: merging a freshly scraped batch
 * into the shared scraper state. The batch is looked up record by record in
 * the previous snapshot, first by id and then by team key; the new snapshot
 * holds exactly one match per batch record, the id mapping and the per-match
 * change history grow, and the write-throttle decides whether to persist.
 *
 * The merge is specified by `Reconcile`, a left fold of `Step` over the batch;
 * `ScraperState.UpdateGlobalState` is the imperative loop proved against it.
 */
module Reconciliation {

  import opened Wrappers
  import opened StableIdentity
  import opened ChangeDetector
  import opened MatchLookup

  /** One entry of `match_history[id]`. */
  datatype HistoryEntry = HistoryEntry(timestamp: string, oddsChanged: bool, scoreChanged: bool, statusChanged: bool)

  // ---------------------------------------------------------------------------
  // Lookup indexes over the previous snapshot
  // ---------------------------------------------------------------------------

  /** `{m.get('id'): m for m in current_matches}`: a later match with the same id wins. */
  function IndexById(ms: seq<Match>): (idx: map<string, Match>)
    ensures forall id :: id in idx ==> idx[id].id == id
  {
    if ms == [] then map[]
    else
      var n := |ms| - 1;
      IndexById(ms[..n])[ms[n].id := ms[n]]
  }

  /** The id index holds exactly the ids of the snapshot, each mapped to one of its matches. */
  lemma {:induction false} IndexByIdMembers(ms: seq<Match>, id: string)
    ensures id in IndexById(ms) <==> exists j :: 0 <= j < |ms| && ms[j].id == id
    ensures id in IndexById(ms) ==> IndexById(ms)[id] in ms
  {
    if ms != [] {
      var n := |ms| - 1;
      IndexByIdMembers(ms[..n], id);
      assert forall j :: 0 <= j < n ==> ms[..n][j] == ms[j];
      if id in IndexById(ms[..n]) && id != ms[n].id {
        assert IndexById(ms[..n])[id] in ms[..n];
      }
    }
  }

  /** The last match carrying an id is the one the id index keeps. */
  lemma {:induction false} IndexByIdLastWins(ms: seq<Match>, j: nat)
    requires j < |ms|
    requires forall k :: j < k < |ms| ==> ms[k].id != ms[j].id
    ensures ms[j].id in IndexById(ms) && IndexById(ms)[ms[j].id] == ms[j]
  {
    var n := |ms| - 1;
    if j < n {
      assert forall k :: j < k < n ==> ms[..n][k] == ms[k];
      IndexByIdLastWins(ms[..n], j);
    }
  }

  /** A match that names at least one team (`if team1 or team2`). */
  predicate HasTeams(m: Match) {
    m.team1 != "" || m.team2 != ""
  }

  function TeamKey(m: Match): string {
    StableKey(m.team1, m.team2)
  }

  /** `team_to_id_map`: team key to the id of the last match with that key. */
  function TeamIndex(ms: seq<Match>): map<string, string> {
    if ms == [] then map[]
    else
      var n := |ms| - 1;
      var rest := TeamIndex(ms[..n]);
      if HasTeams(ms[n]) then rest[TeamKey(ms[n]) := ms[n].id] else rest
  }

  /** Every named match of the snapshot has its key in the team index. */
  lemma {:induction false} TeamIndexCovers(ms: seq<Match>, j: nat)
    requires j < |ms| && HasTeams(ms[j])
    ensures TeamKey(ms[j]) in TeamIndex(ms)
  {
    var n := |ms| - 1;
    if j < n {
      assert ms[..n][j] == ms[j];
      TeamIndexCovers(ms[..n], j);
    }
  }

  /** Every key in the team index is the key of a named match, and maps to that match's id. */
  lemma {:induction false} TeamIndexSound(ms: seq<Match>, key: string)
    requires key in TeamIndex(ms)
    ensures exists j :: 0 <= j < |ms| && HasTeams(ms[j]) && TeamKey(ms[j]) == key && ms[j].id == TeamIndex(ms)[key]
  {
    var n := |ms| - 1;
    var prefix := ms[..n];
    if HasTeams(ms[n]) && TeamKey(ms[n]) == key {
      assert TeamIndex(ms)[key] == ms[n].id;
    } else {
      assert TeamIndex(ms)[key] == TeamIndex(prefix)[key];
      TeamIndexSound(prefix, key);
      var j :| 0 <= j < n && HasTeams(prefix[j]) && TeamKey(prefix[j]) == key && prefix[j].id == TeamIndex(prefix)[key];
      assert ms[j] == prefix[j];
    }
  }

  /** The loop that fills `team_to_id_map`. */
  method BuildTeamIndex(ms: seq<Match>) returns (idx: map<string, string>)
    ensures idx == TeamIndex(ms)
  {
    idx := map[];
    var i := 0;
    while i < |ms|
      invariant 0 <= i <= |ms|
      invariant idx == TeamIndex(ms[..i])
    {
      assert ms[..i + 1][..i] == ms[..i];
      var m := ms[i];
      if m.team1 != "" || m.team2 != "" {
        idx := idx[TeamKey(m) := m.id];
      }
      i := i + 1;
    }
    assert ms[..i] == ms;
  }

  /** Both indexes, built once before the batch is processed. */
  datatype Indexes = Indexes(byId: map<string, Match>, byTeams: map<string, string>)

  function IndexesOf(ms: seq<Match>): Indexes {
    Indexes(IndexById(ms), TeamIndex(ms))
  }

  // ---------------------------------------------------------------------------
  // One batch record
  // ---------------------------------------------------------------------------

  datatype Resolution = NewMatch | FoundById(current: Match) | FoundByTeams(current: Match)

  /** Find the previous version of a batch record: by id, else by team key. */
  function Resolve(ix: Indexes, r: Match): Resolution {
    if r.id in ix.byId then FoundById(ix.byId[r.id])
    else
      var key := TeamKey(r);
      if key in ix.byTeams && ix.byTeams[key] in ix.byId then FoundByTeams(ix.byId[ix.byTeams[key]])
      else NewMatch
  }

  /** The record counts as a change: it is new, or its odds dict differs from the previous one. */
  predicate Touched(res: Resolution, r: Match) {
    res.NewMatch? || res.current.odds != r.odds
  }

  /** What the record contributes to the new snapshot. */
  function OutputFor(res: Resolution, r: Match): Match {
    if res.NewMatch? then r
    else if res.current.odds != r.odds then r.(id := res.current.id)
    else res.current
  }

  /** The history entry recorded for a touched record. */
  function EntryFor(res: Resolution, r: Match, time: string): HistoryEntry {
    if res.NewMatch? then HistoryEntry(time, true, false, false)
    else
      var c := DetectChanges(res.current, r);
      HistoryEntry(time, c.oddsChanged, c.scoreChanged, c.statusChanged)
  }

  /** `id_mapping[current_id] = match_id` on a team-key hit. */
  function MappingAfter(res: Resolution, r: Match, mapping: map<string, string>): map<string, string> {
    if res.FoundByTeams? then mapping[res.current.id := r.id] else mapping
  }

  function HistoryOf(h: map<string, seq<HistoryEntry>>, id: string): seq<HistoryEntry> {
    if id in h then h[id] else []
  }

  /** `match_history.setdefault(id, []).append(entry)` */
  function AppendHistory(h: map<string, seq<HistoryEntry>>, id: string, e: HistoryEntry): map<string, seq<HistoryEntry>> {
    h[id := HistoryOf(h, id) + [e]]
  }

  /** What the loop has built so far. */
  datatype Outcome = Outcome(
    matches: seq<Match>,
    idMapping: map<string, string>,
    history: map<string, seq<HistoryEntry>>,
    changes: nat)

  function Step(ix: Indexes, time: string, acc: Outcome, r: Match): Outcome {
    var res := Resolve(ix, r);
    var out := OutputFor(res, r);
    Outcome(
      acc.matches + [out],
      MappingAfter(res, r, acc.idMapping),
      if Touched(res, r) then AppendHistory(acc.history, out.id, EntryFor(res, r, time)) else acc.history,
      if Touched(res, r) then acc.changes + 1 else acc.changes)
  }

  function ReconcileFrom(ix: Indexes, time: string, start: Outcome, batch: seq<Match>): Outcome
    decreases |batch|
  {
    if batch == [] then start
    else Step(ix, time, ReconcileFrom(ix, time, start, batch[..|batch| - 1]), batch[|batch| - 1])
  }

  /** The whole merge of `update_global_state`, from the previous state and a batch. */
  function Reconcile(current: seq<Match>, mapping: map<string, string>, history: map<string, seq<HistoryEntry>>,
                     batch: seq<Match>, time: string): Outcome {
    ReconcileFrom(IndexesOf(current), time, Outcome([], mapping, history, 0), batch)
  }

  /**
   * The lookup at the head of the loop body: the previous version of `r`, and
   * the id it was found under when the team key found it.
   */
  method FindPrevious(byId: map<string, Match>, byTeams: map<string, string>, r: Match)
    returns (current: Option<Match>, currentId: Option<string>)
    requires forall id :: id in byId ==> byId[id].id == id
    ensures var res := Resolve(Indexes(byId, byTeams), r);
      && (current.None? <==> res.NewMatch?)
      && (current.Some? ==> current.value == res.current)
      && (currentId.Some? <==> res.FoundByTeams?)
      && (currentId.Some? ==> currentId.value == res.current.id)
  {
    current := None;
    currentId := None;
    if r.id in byId {
      current := Some(byId[r.id]);
    } else {
      var key := TeamKey(r);
      if key in byTeams {
        var id := byTeams[key];
        if id in byId {
          current := Some(byId[id]);
          currentId := Some(id);
        }
      }
    }
  }

  /**
   * The rest of the loop body: output the record under the previous id when
   * its odds dict changed, keep the previous match when it did not, and add
   * a new record as it is; a changed or new record gets a history entry.
   */
  method AppendRecord(ghost res: Resolution, current: Option<Match>, r: Match, time: string,
                      updated: seq<Match>, hist: map<string, seq<HistoryEntry>>, changesMade: nat)
    returns (updated': seq<Match>, hist': map<string, seq<HistoryEntry>>, changes': nat)
    requires current.None? <==> res.NewMatch?
    requires current.Some? ==> current.value == res.current
    ensures updated' == updated + [OutputFor(res, r)]
    ensures hist' == if Touched(res, r) then AppendHistory(hist, OutputFor(res, r).id, EntryFor(res, r, time)) else hist
    ensures changes' == if Touched(res, r) then changesMade + 1 else changesMade
  {
    if current.Some? {
      var cur := current.value;
      if cur.odds != r.odds {
        var c := DetectChanges(cur, r);
        var out := r.(id := cur.id);
        updated' := updated + [out];
        changes' := changesMade + 1;
        hist' := AppendHistory(hist, out.id, HistoryEntry(time, c.oddsChanged, c.scoreChanged, c.statusChanged));
      } else {
        updated' := updated + [cur];
        hist' := hist;
        changes' := changesMade;
      }
    } else {
      updated' := updated + [r];
      changes' := changesMade + 1;
      hist' := AppendHistory(hist, r.id, HistoryEntry(time, true, false, false));
    }
  }

  /** The loop of `update_global_state` over the batch, from the indexes to the counted changes. */
  method Merge(current: seq<Match>, idMapping: map<string, string>, history: map<string, seq<HistoryEntry>>,
               batch: seq<Match>, currentTime: string)
    returns (updated: seq<Match>, mapping: map<string, string>, hist: map<string, seq<HistoryEntry>>, changesMade: nat)
    ensures Outcome(updated, mapping, hist, changesMade) == Reconcile(current, idMapping, history, batch, currentTime)
  {
    var byId := IndexById(current);
    var byTeams := BuildTeamIndex(current);
    ghost var ix := Indexes(byId, byTeams);
    ghost var start := Outcome([], idMapping, history, 0);

    updated := [];
    mapping := idMapping;
    hist := history;
    changesMade := 0;
    var i := 0;
    while i < |batch|
      invariant 0 <= i <= |batch|
      invariant Outcome(updated, mapping, hist, changesMade) == ReconcileFrom(ix, currentTime, start, batch[..i])
    {
      assert batch[..i + 1][..i] == batch[..i];
      var r := batch[i];
      ghost var acc := Outcome(updated, mapping, hist, changesMade);
      ghost var res := Resolve(ix, r);
      var previous, previousId := FindPrevious(byId, byTeams, r);
      if previousId.Some? {
        mapping := mapping[previousId.value := r.id];
      }
      assert mapping == MappingAfter(res, r, acc.idMapping);
      updated, hist, changesMade := AppendRecord(res, previous, r, currentTime, updated, hist, changesMade);
      assert Outcome(updated, mapping, hist, changesMade) == Step(ix, currentTime, acc, r);
      i := i + 1;
    }
    assert batch[..i] == batch;
  }

  // ---------------------------------------------------------------------------
  // The write throttle
  // ---------------------------------------------------------------------------

  /** `FILE_WRITE_INTERVAL`, in the microseconds of the clock values. */
  const FileWriteInterval: int := 60 * 1000000

  /** Write when nothing was written yet, more than a minute has passed, or more than five records changed. */
  predicate ShouldPersist(lastWrite: Option<int>, now: int, changes: nat) {
    lastWrite.None? || now - lastWrite.value > FileWriteInterval || changes > 5
  }

  // ---------------------------------------------------------------------------
  // The shared state and the method that updates it
  // ---------------------------------------------------------------------------

  /**
   * The fields of `scraper_state` that the merge reads and writes. Clock
   * values (`last_file_write`) are microsecond counts passed in by the caller;
   * the lock is not modelled, each method is one critical section.
   */
  class ScraperState {
    var matches: seq<Match>
    var dataTimestamp: Option<string>
    var status: string
    var lastUpdated: Option<string>
    var errorCount: nat
    var changesSinceLastUpdate: nat
    var idMapping: map<string, string>
    var history: map<string, seq<HistoryEntry>>
    var lastFileWrite: Option<int>

    /** The initial `scraper_state`. */
    constructor ()
      ensures matches == [] && dataTimestamp.None? && status == "idle" && lastUpdated.None?
      ensures errorCount == 0 && changesSinceLastUpdate == 0
      ensures idMapping == map[] && history == map[] && lastFileWrite.None?
    {
      matches := [];
      dataTimestamp := None;
      status := "idle";
      lastUpdated := None;
      errorCount := 0;
      changesSinceLastUpdate := 0;
      idMapping := map[];
      history := map[];
      lastFileWrite := None;
    }

    /** The startup hook stamps `last_file_write` with the start time. */
    method RecordStartup(now: int)
      modifies this`lastFileWrite
      ensures lastFileWrite == Some(now)
    {
      lastFileWrite := Some(now);
    }

    /**
     * `update_global_state(new_matches)`. Returns whether the data files are
     * written this time; the write itself is not modelled.
     */
    method UpdateGlobalState(batch: seq<Match>, currentTime: string, now: int) returns (persist: bool)
      modifies this
      ensures var out := Reconcile(old(matches), old(idMapping), old(history), batch, currentTime);
        && matches == out.matches
        && idMapping == out.idMapping
        && history == out.history
        && changesSinceLastUpdate == out.changes
      ensures dataTimestamp == Some(currentTime) && lastUpdated == Some(currentTime) && status == "running"
      ensures errorCount == old(errorCount)
      ensures persist == ShouldPersist(old(lastFileWrite), now, changesSinceLastUpdate)
      ensures lastFileWrite == if persist then Some(now) else old(lastFileWrite)
    {
      ghost var out := Reconcile(matches, idMapping, history, batch, currentTime);
      var updated, mapping, hist, changesMade := Merge(matches, idMapping, history, batch, currentTime);
      assert updated == out.matches && mapping == out.idMapping && hist == out.history && changesMade == out.changes;
      var lastWrite := lastFileWrite;
      persist := lastWrite.None? || now - lastWrite.value > FileWriteInterval || changesMade > 5;
      Publish(updated, mapping, hist, changesMade, currentTime);
      if persist {
        lastFileWrite := Some(now);
      }
    }

    /** The fields `update_global_state` assigns under the lock. */
    method Publish(updated: seq<Match>, mapping: map<string, string>, hist: map<string, seq<HistoryEntry>>,
                   changesMade: nat, currentTime: string)
      modifies this
      ensures matches == updated && idMapping == mapping && history == hist && changesSinceLastUpdate == changesMade
      ensures dataTimestamp == Some(currentTime) && lastUpdated == Some(currentTime) && status == "running"
      ensures errorCount == old(errorCount) && lastFileWrite == old(lastFileWrite)
    {
      matches := updated;
      dataTimestamp := Some(currentTime);
      lastUpdated := Some(currentTime);
      status := "running";
      idMapping := mapping;
      history := hist;
      changesSinceLastUpdate := changesMade;
    }
  }
}
