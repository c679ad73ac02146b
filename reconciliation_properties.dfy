/**
 * What `update_global_state` guarantees about the state it leaves behind,
 * proved about the fold `Reconcile` that `ScraperState.UpdateGlobalState`
 * computes: one output per batch record carrying that record's odds, a change
 * counter that counts exactly the changed and new records, an append-only
 * history, an id mapping that only team-key hits touch, and a second pass of
 * the same batch that changes nothing.
 */
module ReconciliationProperties {

  import opened Wrappers
  import opened StableIdentity
  import opened ChangeDetector
  import opened MatchLookup
  import opened Reconciliation

  // ---------------------------------------------------------------------------
  // The new snapshot
  // ---------------------------------------------------------------------------

  /** The fold appends, for each batch record in order, exactly what `OutputFor` gives. */
  lemma {:induction false} ReconcileFromShape(ix: Indexes, time: string, start: Outcome, batch: seq<Match>)
    ensures var out := ReconcileFrom(ix, time, start, batch);
      && |out.matches| == |start.matches| + |batch|
      && out.matches[..|start.matches|] == start.matches
      && (forall i :: 0 <= i < |batch| ==> out.matches[|start.matches| + i] == OutputFor(Resolve(ix, batch[i]), batch[i]))
    decreases |batch|
  {
    if batch != [] {
      var n := |batch| - 1;
      ReconcileFromShape(ix, time, start, batch[..n]);
      var prev := ReconcileFrom(ix, time, start, batch[..n]).matches;
      var out := ReconcileFrom(ix, time, start, batch).matches;
      MatchesSnoc(ix, time, start, batch);
      assert out[..|start.matches|] == prev[..|start.matches|];
      forall i | 0 <= i < |batch|
        ensures out[|start.matches| + i] == OutputFor(Resolve(ix, batch[i]), batch[i])
      {
        if i < n {
          assert batch[..n][i] == batch[i];
          assert out[|start.matches| + i] == prev[|start.matches| + i];
        }
      }
    }
  }

  /** The loop's last record appends its output to the snapshot built so far. */
  lemma MatchesSnoc(ix: Indexes, time: string, start: Outcome, batch: seq<Match>)
    requires batch != []
    ensures var n := |batch| - 1;
      ReconcileFrom(ix, time, start, batch).matches
        == ReconcileFrom(ix, time, start, batch[..n]).matches + [OutputFor(Resolve(ix, batch[n]), batch[n])]
  {
  }

  /**
   * The new snapshot has one match per batch record, in batch order, carrying
   * that record's odds dict; previous matches absent from the batch are gone.
   * Its id is the record's own id, unless the record was found through its
   * team key, in which case it is the id of the previous match.
   */
  lemma {:induction false} ReconcileOutputs(current: seq<Match>, mapping: map<string, string>, history: map<string, seq<HistoryEntry>>,
                         batch: seq<Match>, time: string)
    ensures var out := Reconcile(current, mapping, history, batch, time);
      && |out.matches| == |batch|
      && forall i :: 0 <= i < |batch| ==>
           && out.matches[i].odds == batch[i].odds
           && var res := Resolve(IndexesOf(current), batch[i]);
              out.matches[i].id == if res.FoundByTeams? then res.current.id else batch[i].id
  {
    FoldOutputs(IndexesOf(current), time, Outcome([], mapping, history, 0), batch);
  }

  /** `ReconcileOutputs` for any indexes whose id index is keyed by the matches' own ids. */
  lemma {:induction false} FoldOutputs(ix: Indexes, time: string, start: Outcome, batch: seq<Match>)
    requires start.matches == []
    requires forall id :: id in ix.byId ==> ix.byId[id].id == id
    ensures var ms := ReconcileFrom(ix, time, start, batch).matches;
      && |ms| == |batch|
      && forall i :: 0 <= i < |batch| ==>
           && ms[i].odds == batch[i].odds
           && var res := Resolve(ix, batch[i]);
              ms[i].id == if res.FoundByTeams? then res.current.id else batch[i].id
  {
    var ms := ReconcileFrom(ix, time, start, batch).matches;
    ReconcileFromShape(ix, time, start, batch);
    forall i | 0 <= i < |batch|
      ensures ms[i].odds == batch[i].odds
      ensures var res := Resolve(ix, batch[i]);
        ms[i].id == if res.FoundByTeams? then res.current.id else batch[i].id
    {
      assert ms[|start.matches| + i] == OutputFor(Resolve(ix, batch[i]), batch[i]);
      OutputForFacts(ix, batch[i]);
    }
  }

  /** A record's output carries its odds, under its own id unless found by team key. */
  lemma OutputForFacts(ix: Indexes, r: Match)
    requires forall id :: id in ix.byId ==> ix.byId[id].id == id
    ensures var res := Resolve(ix, r);
      && OutputFor(res, r).odds == r.odds
      && OutputFor(res, r).id == if res.FoundByTeams? then res.current.id else r.id
  {
  }

  /**
   * When the odds dict is unchanged the previous version is kept whole: a new
   * score or in-play flag in the record is dropped and nothing is counted.
   */
  lemma EqualOddsKeepPrevious(ix: Indexes, time: string, acc: Outcome, r: Match)
    requires !Resolve(ix, r).NewMatch? && Resolve(ix, r).current.odds == r.odds
    ensures var out := Step(ix, time, acc, r);
      && out.matches == acc.matches + [Resolve(ix, r).current]
      && out.history == acc.history
      && out.changes == acc.changes
  {
  }

  // ---------------------------------------------------------------------------
  // The change counter
  // ---------------------------------------------------------------------------

  /** The batch positions whose record is new or has a different odds dict. */
  ghost function TouchedIndices(ix: Indexes, batch: seq<Match>): set<int> {
    set i | 0 <= i < |batch| && Touched(Resolve(ix, batch[i]), batch[i])
  }

  /** Extending the batch by one record adds that record's position exactly when it is touched. */
  lemma TouchedIndicesSnoc(ix: Indexes, batch: seq<Match>)
    requires batch != []
    ensures var n := |batch| - 1;
      |TouchedIndices(ix, batch)| ==
        |TouchedIndices(ix, batch[..n])| + if Touched(Resolve(ix, batch[n]), batch[n]) then 1 else 0
  {
    var n := |batch| - 1;
    var before := TouchedIndices(ix, batch[..n]);
    var after := TouchedIndices(ix, batch);
    var last: set<int> := if Touched(Resolve(ix, batch[n]), batch[n]) then {n} else {};
    forall i | i in after ensures i in before + last {
      if i < n {
        assert batch[..n][i] == batch[i];
      }
    }
    forall i | i in before + last ensures i in after {
      if i < n {
        assert batch[..n][i] == batch[i];
      }
    }
    assert after == before + last;
    assert n !in before;
  }

  /** `changes_made` counts each changed or new record once, and nothing else. */
  lemma {:induction false} ChangesCountTouched(ix: Indexes, time: string, start: Outcome, batch: seq<Match>)
    ensures ReconcileFrom(ix, time, start, batch).changes == start.changes + |TouchedIndices(ix, batch)|
    decreases |batch|
  {
    if batch == [] {
      assert TouchedIndices(ix, batch) == {};
    } else {
      var n := |batch| - 1;
      ChangesCountTouched(ix, time, start, batch[..n]);
      TouchedIndicesSnoc(ix, batch);
    }
  }

  /** When every record is new, every record is counted. */
  lemma {:induction false} AllNewAllCounted(ix: Indexes, time: string, start: Outcome, batch: seq<Match>)
    requires forall i :: 0 <= i < |batch| ==> Resolve(ix, batch[i]).NewMatch?
    ensures ReconcileFrom(ix, time, start, batch).changes == start.changes + |batch|
    decreases |batch|
  {
    if batch != [] {
      var n := |batch| - 1;
      assert forall i :: 0 <= i < n ==> batch[..n][i] == batch[i];
      AllNewAllCounted(ix, time, start, batch[..n]);
    }
  }

  /** Against an empty snapshot every record is new: all are counted and output as they are. */
  lemma FirstBatchAllNew(mapping: map<string, string>, history: map<string, seq<HistoryEntry>>, batch: seq<Match>, time: string)
    ensures var out := Reconcile([], mapping, history, batch, time);
      && out.matches == batch
      && out.changes == |batch|
      && out.idMapping == mapping
  {
    var ix := IndexesOf([]);
    var start := Outcome([], mapping, history, 0);
    ReconcileFromShape(ix, time, start, batch);
    assert forall i :: 0 <= i < |batch| ==> Resolve(ix, batch[i]).NewMatch?;
    AllNewAllCounted(ix, time, start, batch);
    MappingUntouchedWithoutTeamHits(ix, time, start, batch);
  }

  // ---------------------------------------------------------------------------
  // The id mapping
  // ---------------------------------------------------------------------------

  /** The batch position `i` was found through its team key, under previous id `k`. */
  ghost predicate TeamHitAt(ix: Indexes, batch: seq<Match>, i: int, k: string) {
    0 <= i < |batch| && Resolve(ix, batch[i]).FoundByTeams? && Resolve(ix, batch[i]).current.id == k
  }

  /**
   * The mapping keeps every entry it had unless a team-key hit rewrote it, and
   * every entry that is new or rewritten comes from a team-key hit on that
   * previous id.
   */
  lemma {:induction false} MappingChangesOnlyOnTeamHits(ix: Indexes, time: string, start: Outcome, batch: seq<Match>)
    ensures var out := ReconcileFrom(ix, time, start, batch);
      && start.idMapping.Keys <= out.idMapping.Keys
      && forall k :: k in out.idMapping && (k !in start.idMapping || out.idMapping[k] != start.idMapping[k]) ==>
           exists i :: TeamHitAt(ix, batch, i, k)
    decreases |batch|
  {
    if batch != [] {
      var n := |batch| - 1;
      MappingChangesOnlyOnTeamHits(ix, time, start, batch[..n]);
      var prev := ReconcileFrom(ix, time, start, batch[..n]);
      var out := ReconcileFrom(ix, time, start, batch);
      forall k | k in out.idMapping && (k !in start.idMapping || out.idMapping[k] != start.idMapping[k])
        ensures exists i :: TeamHitAt(ix, batch, i, k)
      {
        if TeamHitAt(ix, batch, n, k) {
        } else {
          assert k in prev.idMapping && out.idMapping[k] == prev.idMapping[k];
          var i :| TeamHitAt(ix, batch[..n], i, k);
          assert batch[..n][i] == batch[i];
          assert TeamHitAt(ix, batch, i, k);
        }
      }
    }
  }

  /** With no team-key hit the mapping is left exactly as it was. */
  lemma MappingUntouchedWithoutTeamHits(ix: Indexes, time: string, start: Outcome, batch: seq<Match>)
    requires forall i :: 0 <= i < |batch| ==> !Resolve(ix, batch[i]).FoundByTeams?
    ensures ReconcileFrom(ix, time, start, batch).idMapping == start.idMapping
  {
    MappingChangesOnlyOnTeamHits(ix, time, start, batch);
    var out := ReconcileFrom(ix, time, start, batch);
    forall k | k in out.idMapping ensures k in start.idMapping && out.idMapping[k] == start.idMapping[k] {
      assert forall i :: !TeamHitAt(ix, batch, i, k);
    }
  }

  /** Every team-key hit leaves an entry for the previous id in the mapping. */
  lemma {:induction false} TeamHitsRecorded(ix: Indexes, time: string, start: Outcome, batch: seq<Match>, i: int, k: string)
    requires TeamHitAt(ix, batch, i, k)
    ensures k in ReconcileFrom(ix, time, start, batch).idMapping
    decreases |batch|
  {
    var n := |batch| - 1;
    var prev := ReconcileFrom(ix, time, start, batch[..n]);
    var res := Resolve(ix, batch[n]);
    assert ReconcileFrom(ix, time, start, batch).idMapping == MappingAfter(res, batch[n], prev.idMapping);
    if i < n {
      assert batch[..n][i] == batch[i];
      TeamHitsRecorded(ix, time, start, batch[..n], i, k);
      assert k in prev.idMapping;
    } else {
      assert res.FoundByTeams? && res.current.id == k;
    }
  }

  /**
   * The entry written on a team-key hit maps the previous id to the batch id,
   * but the record is output under the previous id, so `find_match_by_id` on
   * that id is answered directly and never follows the entry.
   */
  lemma TeamHitEntryNeverFollowed(current: seq<Match>, mapping: map<string, string>, history: map<string, seq<HistoryEntry>>,
                                  batch: seq<Match>, time: string, i: int)
    requires 0 <= i < |batch| && Resolve(IndexesOf(current), batch[i]).FoundByTeams?
    ensures var out := Reconcile(current, mapping, history, batch, time);
      var k := Resolve(IndexesOf(current), batch[i]).current.id;
      var found := Lookup(out.matches, out.idMapping, k);
      && k in out.idMapping
      && found.redirect.None? && found.found.Some? && found.found.value.id == k
  {
    var ix := IndexesOf(current);
    var k := Resolve(ix, batch[i]).current.id;
    var out := Reconcile(current, mapping, history, batch, time);
    TeamHitsRecorded(ix, time, Outcome([], mapping, history, 0), batch, i, k);
    ReconcileOutputs(current, mapping, history, batch, time);
    LookupDirectHit(out.matches, out.idMapping, k, i);
  }

  /** A stored match whose id is `match_` followed by its own team key. */
  predicate CanonicalId(m: Match) {
    m.id == "match_" + TeamKey(m)
  }

  /** Over a snapshot of canonical ids, the team index maps each key to the id built from it. */
  lemma TeamIndexOfCanonical(ms: seq<Match>, key: string)
    requires forall j :: 0 <= j < |ms| ==> CanonicalId(ms[j])
    requires key in TeamIndex(ms)
    ensures TeamIndex(ms)[key] == "match_" + key
  {
    TeamIndexSound(ms, key);
  }

  /**
   * When the stored matches and the record all carry canonical ids, the team-key
   * path never finds anything the id path missed: a record is found by id or is new.
   */
  lemma CanonicalIdsSkipTeamKeys(current: seq<Match>, r: Match)
    requires forall j :: 0 <= j < |current| ==> CanonicalId(current[j])
    requires CanonicalId(r)
    ensures !Resolve(IndexesOf(current), r).FoundByTeams?
  {
    var key := TeamKey(r);
    if key in TeamIndex(current) {
      TeamIndexOfCanonical(current, key);
    }
  }

  /** With canonical ids throughout, a merge leaves the id mapping as it was. */
  lemma CanonicalIdsKeepMapping(current: seq<Match>, mapping: map<string, string>, history: map<string, seq<HistoryEntry>>,
                                batch: seq<Match>, time: string)
    requires forall j :: 0 <= j < |current| ==> CanonicalId(current[j])
    requires forall i :: 0 <= i < |batch| ==> CanonicalId(batch[i])
    ensures Reconcile(current, mapping, history, batch, time).idMapping == mapping
  {
    var ix := IndexesOf(current);
    forall i | 0 <= i < |batch| ensures !Resolve(ix, batch[i]).FoundByTeams? {
      CanonicalIdsSkipTeamKeys(current, batch[i]);
    }
    MappingUntouchedWithoutTeamHits(ix, time, Outcome([], mapping, history, 0), batch);
  }

  // ---------------------------------------------------------------------------
  // The change history
  // ---------------------------------------------------------------------------

  /** Batch position `i` is a changed or new record output under id `k`. */
  ghost predicate RecordedUnder(ix: Indexes, batch: seq<Match>, i: int, k: string) {
    0 <= i < |batch| && Touched(Resolve(ix, batch[i]), batch[i]) && OutputFor(Resolve(ix, batch[i]), batch[i]).id == k
  }

  /**
   * The history is append-only: each id's list keeps its old entries as a
   * prefix, every entry added carries this batch's timestamp, and the list of
   * an id under which no changed or new record was output is left as it was.
   */
  lemma {:induction false} HistoryAppendOnly(ix: Indexes, time: string, start: Outcome, batch: seq<Match>, k: string)
    ensures var h := HistoryOf(ReconcileFrom(ix, time, start, batch).history, k);
      var h0 := HistoryOf(start.history, k);
      && h0 <= h
      && (forall j :: |h0| <= j < |h| ==> h[j].timestamp == time)
      && ((forall i :: !RecordedUnder(ix, batch, i, k)) ==> h == h0)
    decreases |batch|
  {
    if batch != [] {
      var n := |batch| - 1;
      HistoryAppendOnly(ix, time, start, batch[..n], k);
      assert forall i :: RecordedUnder(ix, batch[..n], i, k) ==> RecordedUnder(ix, batch, i, k) by {
        forall i | RecordedUnder(ix, batch[..n], i, k) ensures RecordedUnder(ix, batch, i, k) {
          assert batch[..n][i] == batch[i];
        }
      }
      var prev := ReconcileFrom(ix, time, start, batch[..n]);
      StepHistory(ix, time, prev, batch[n], k);
      if forall i :: !RecordedUnder(ix, batch, i, k) {
        assert !RecordedUnder(ix, batch, n, k);
        assert HistoryOf(prev.history, k) == HistoryOf(start.history, k);
      }
    }
  }

  /** One record adds at most one entry, stamped with the batch time, and only under its own output id. */
  lemma StepHistory(ix: Indexes, time: string, acc: Outcome, r: Match, k: string)
    ensures var res := Resolve(ix, r);
      var h := HistoryOf(Step(ix, time, acc, r).history, k);
      var h0 := HistoryOf(acc.history, k);
      && (h == h0 || h == h0 + [EntryFor(res, r, time)])
      && (!Touched(res, r) || OutputFor(res, r).id != k ==> h == h0)
      && EntryFor(res, r, time).timestamp == time
  {
  }

  // ---------------------------------------------------------------------------
  // A second pass over the same batch
  // ---------------------------------------------------------------------------

  /** When nothing is touched and nothing is found by team key, the fold keeps history and mapping. */
  lemma {:induction false} QuietFold(ix: Indexes, time: string, start: Outcome, batch: seq<Match>)
    requires forall i :: 0 <= i < |batch| ==> !Touched(Resolve(ix, batch[i]), batch[i]) && !Resolve(ix, batch[i]).FoundByTeams?
    ensures var out := ReconcileFrom(ix, time, start, batch);
      out.idMapping == start.idMapping && out.history == start.history && out.changes == start.changes
    decreases |batch|
  {
    if batch != [] {
      var n := |batch| - 1;
      assert forall i :: 0 <= i < n ==> batch[..n][i] == batch[i];
      QuietFold(ix, time, start, batch[..n]);
    }
  }

  /**
   * Merging the same batch a second time into the state the first merge left
   * counts nothing and changes nothing, provided the batch ids are distinct
   * and the first merge found nothing by team key (for instance because all
   * ids are canonical).
   */
  lemma SecondPassIsQuiet(current: seq<Match>, mapping: map<string, string>, history: map<string, seq<HistoryEntry>>,
                          batch: seq<Match>, time: string, later: string)
    requires forall i, j :: 0 <= i < j < |batch| ==> batch[i].id != batch[j].id
    requires forall i :: 0 <= i < |batch| ==> !Resolve(IndexesOf(current), batch[i]).FoundByTeams?
    ensures var out := Reconcile(current, mapping, history, batch, time);
      Reconcile(out.matches, out.idMapping, out.history, batch, later) == Outcome(out.matches, out.idMapping, out.history, 0)
  {
    var out := Reconcile(current, mapping, history, batch, time);
    ReconcileOutputs(current, mapping, history, batch, time);
    var ix := IndexesOf(out.matches);
    var start := Outcome([], out.idMapping, out.history, 0);
    forall i | 0 <= i < |batch|
      ensures Resolve(ix, batch[i]) == FoundById(out.matches[i])
    {
      IndexByIdLastWins(out.matches, i);
    }
    QuietFold(ix, later, start, batch);
    ReconcileFromShape(ix, later, start, batch);
    var again := ReconcileFrom(ix, later, start, batch);
    assert again.matches == out.matches;
  }

  // ---------------------------------------------------------------------------
  // Volume-only updates
  // ---------------------------------------------------------------------------

  /**
   * A record whose odds dict differs from the previous one only in volumes is
   * counted as a change and given a history entry, but that entry says the
   * odds did not change.
   */
  lemma VolumeOnlyUpdateCountedUnflagged(ix: Indexes, time: string, acc: Outcome, r: Match)
    requires !Resolve(ix, r).NewMatch?
    requires Resolve(ix, r).current.odds.Some? && r.odds.Some?
    requires Resolve(ix, r).current.odds != r.odds
    requires OddsWithoutVolumes(Resolve(ix, r).current.odds.value) == OddsWithoutVolumes(r.odds.value)
    ensures var out := Step(ix, time, acc, r);
      && out.changes == acc.changes + 1
      && !EntryFor(Resolve(ix, r), r, time).oddsChanged
      && HistoryOf(out.history, Resolve(ix, r).current.id)
           == HistoryOf(acc.history, Resolve(ix, r).current.id) + [EntryFor(Resolve(ix, r), r, time)]
  {
    VolumeOnlyDifferenceNotFlagged(Resolve(ix, r).current, r);
  }
}
