/**
 * One polling round of `XbetScraper.run_continuous_updates` on one event list
 * (`data_store["live_events"]` or `data_store["upcoming_events"]`): the
 * batch is merged into the stored event objects in place, unseen events are
 * appended, and the odds differences of the changed events are collected
 * for the change log.
 *
 * `MergeFrom` is the value-level reading of the merge; `MergeSection` is the
 * loop over heap objects proved against it.
 */
module EventStore {

  import opened Wrappers
  import opened EventMerge

  /** `match['match_id'] if 'match_id' in match` */
  function IdOf(f: Fields): Option<Value> {
    if "match_id" in f then Some(f["match_id"]) else None
  }

  /** The dicts of a list of events, read in the current heap. */
  function FieldsOf(events: seq<Event>): (fs: seq<Fields>)
    reads (set e | e in events)`fields
    ensures |fs| == |events|
    ensures forall i :: 0 <= i < |events| ==> fs[i] == events[i].fields
  {
    if events == [] then [] else [events[0].fields] + FieldsOf(events[1..])
  }

  /** `{m['match_id']: m for m in events if 'match_id' in m}`, by position: the last event with an id wins. */
  function PositionIndex(fs: seq<Fields>): (idx: map<Value, nat>)
    ensures forall id :: id in idx ==> idx[id] < |fs| && IdOf(fs[idx[id]]) == Some(id)
  {
    if fs == [] then map[]
    else
      var n := |fs| - 1;
      var rest := PositionIndex(fs[..n]);
      match IdOf(fs[n])
      case None => rest
      case Some(id) => rest[id := n]
  }

  /** The index of a prefix one record longer. */
  lemma PositionIndexSnoc(fs: seq<Fields>, i: nat)
    requires i < |fs|
    ensures IdOf(fs[i]).None? ==> PositionIndex(fs[..i + 1]) == PositionIndex(fs[..i])
    ensures IdOf(fs[i]).Some? ==> PositionIndex(fs[..i + 1]) == PositionIndex(fs[..i])[IdOf(fs[i]).value := i]
  {
    assert fs[..i + 1][..i] == fs[..i] && fs[..i + 1][i] == fs[i];
  }

  /** Every id in the list is indexed, at its last position. */
  lemma {:induction false} PositionIndexLast(fs: seq<Fields>, j: nat, id: Value)
    requires j < |fs| && IdOf(fs[j]) == Some(id)
    ensures id in PositionIndex(fs) && j <= PositionIndex(fs)[id]
    ensures forall k :: PositionIndex(fs)[id] < k < |fs| ==> IdOf(fs[k]) != Some(id)
  {
    var n := |fs| - 1;
    if j < n && IdOf(fs[n]) != Some(id) {
      var rest := PositionIndex(fs[..n]);
      assert fs[..n][j] == fs[j];
      PositionIndexLast(fs[..n], j, id);
      assert PositionIndex(fs)[id] == rest[id];
      forall k | rest[id] < k < |fs|
        ensures IdOf(fs[k]) != Some(id)
      {
        if k < n {
          assert fs[..n][k] == fs[k];
        }
      }
    }
  }

  // ---------------------------------------------------------------------------
  // The merge, on values
  // ---------------------------------------------------------------------------

  /** The list after the merge, the positions reported as changed (in order), and the appended records. */
  datatype MergeOutcome = MergeOutcome(events: seq<Fields>, changed: seq<nat>, added: seq<Fields>)

  /** One record of the batch: merged into the indexed event, appended when its id is unknown, skipped without an id. */
  function MergeStep(idx: map<Value, nat>, prev: MergeOutcome, rec: Fields): (r: MergeOutcome)
    requires forall id :: id in idx ==> idx[id] < |prev.events|
    ensures |r.events| >= |prev.events|
  {
    match IdOf(rec)
    case None => prev
    case Some(id) =>
      if id in idx then
        var p := idx[id];
        MergeOutcome(
          prev.events[p := Merged(prev.events[p], rec)],
          if ChangeReported(prev.events[p], rec) then prev.changed + [p] else prev.changed,
          prev.added)
      else
        MergeOutcome(prev.events + [rec], prev.changed, prev.added + [rec])
  }

  /** The merge of `batch` into the list `fs`, whose index `idx` was built before the loop. */
  function MergeFrom(idx: map<Value, nat>, fs: seq<Fields>, batch: seq<Fields>): (r: MergeOutcome)
    requires forall id :: id in idx ==> idx[id] < |fs|
    ensures |r.events| >= |fs|
    decreases |batch|
  {
    if batch == [] then MergeOutcome(fs, [], [])
    else
      var n := |batch| - 1;
      MergeStep(idx, MergeFrom(idx, fs, batch[..n]), batch[n])
  }

  /** The outcome after one more record is one step further. */
  lemma MergeFromSnoc(idx: map<Value, nat>, fs: seq<Fields>, batch: seq<Fields>, i: nat)
    requires forall id :: id in idx ==> idx[id] < |fs|
    requires i < |batch|
    ensures MergeFrom(idx, fs, batch[..i + 1]) == MergeStep(idx, MergeFrom(idx, fs, batch[..i]), batch[i])
  {
    assert batch[..i + 1][..i] == batch[..i];
  }

  /** The batch records that carry an id the index does not know, in order. */
  function Unseen(idx: map<Value, nat>, batch: seq<Fields>): seq<Fields> {
    if batch == [] then []
    else
      var n := |batch| - 1;
      var rest := Unseen(idx, batch[..n]);
      if IdOf(batch[n]).Some? && IdOf(batch[n]).value !in idx then rest + [batch[n]] else rest
  }

  /**
   * No event is removed: the old events keep their positions and their ids,
   * the list grows by exactly the unseen records, appended in batch order,
   * and every position reported as changed is an old one.
   */
  lemma {:induction false} MergeKeepsAndAppends(idx: map<Value, nat>, fs: seq<Fields>, batch: seq<Fields>)
    requires forall id :: id in idx ==> idx[id] < |fs|
    ensures var r := MergeFrom(idx, fs, batch);
      && r.added == Unseen(idx, batch)
      && r.events[|fs|..] == r.added
      && |r.events| == |fs| + |r.added|
      && (forall p :: 0 <= p < |fs| ==> IdOf(r.events[p]) == IdOf(fs[p]))
      && (forall j :: 0 <= j < |r.changed| ==> r.changed[j] < |fs|)
    decreases |batch|
  {
    if batch != [] {
      var n := |batch| - 1;
      MergeKeepsAndAppends(idx, fs, batch[..n]);
      var prev := MergeFrom(idx, fs, batch[..n]);
      var rec := batch[n];
      if IdOf(rec).Some? && IdOf(rec).value in idx {
        var p := idx[IdOf(rec).value];
        MergedAgreement(prev.events[p], rec);
      }
    }
  }

  /**
   * A stored `odd_*` key is never dropped by the merge, and when its value at
   * the end differs from the stored one, the merge has reported that
   * position as changed.
   */
  lemma {:induction false} MergeReportsOddsMoves(idx: map<Value, nat>, fs: seq<Fields>, batch: seq<Fields>, p: nat, k: string)
    requires forall id :: id in idx ==> idx[id] < |fs|
    requires p < |fs| && k in fs[p] && IsOddsKey(k)
    ensures var r := MergeFrom(idx, fs, batch);
      && k in r.events[p]
      && (r.events[p][k] != fs[p][k] ==> p in r.changed)
    decreases |batch|
  {
    if batch != [] {
      var n := |batch| - 1;
      MergeReportsOddsMoves(idx, fs, batch[..n], p, k);
      var prev := MergeFrom(idx, fs, batch[..n]);
      var r := MergeFrom(idx, fs, batch);
      var rec := batch[n];
      assert r == MergeStep(idx, prev, rec);
      if IdOf(rec).Some? && IdOf(rec).value in idx && idx[IdOf(rec).value] == p {
        var e := prev.events[p];
        MergedAgreement(e, rec);
        if !ChangeReported(e, rec) {
          MatchIdNotTracked();
          assert k in rec ==> Tracked(k) && rec[k] == e[k];
          assert r.events[p][k] == e[k];
        }
      } else {
        assert r.events[p] == prev.events[p];
      }
    }
  }

  /** Records that carry no `match_id` are skipped: dropping them changes nothing. */
  lemma {:induction false} MergeSkipsRecordsWithoutId(idx: map<Value, nat>, fs: seq<Fields>, batch: seq<Fields>, rec: Fields)
    requires forall id :: id in idx ==> idx[id] < |fs|
    requires "match_id" !in rec
    ensures MergeFrom(idx, fs, batch + [rec]) == MergeFrom(idx, fs, batch)
  {
    assert (batch + [rec])[..|batch|] == batch;
  }

  /** An old event that no batch record names keeps its dict. */
  lemma {:induction false} MergeLeavesUnnamed(idx: map<Value, nat>, fs: seq<Fields>, batch: seq<Fields>, p: nat)
    requires forall id :: id in idx ==> idx[id] < |fs|
    requires p < |fs|
    requires forall i :: 0 <= i < |batch| && IdOf(batch[i]).Some? && IdOf(batch[i]).value in idx ==> idx[IdOf(batch[i]).value] != p
    ensures MergeFrom(idx, fs, batch).events[p] == fs[p]
    decreases |batch|
  {
    if batch != [] {
      var n := |batch| - 1;
      assert forall i :: 0 <= i < n ==> batch[..n][i] == batch[i];
      MergeLeavesUnnamed(idx, fs, batch[..n], p);
    }
  }

  /**
   * The last batch record naming a stored id wins: that event agrees with it
   * on every key but `match_id`.
   */
  lemma {:induction false} MergeLastRecordWins(idx: map<Value, nat>, fs: seq<Fields>, batch: seq<Fields>, i: nat)
    requires forall id :: id in idx ==> idx[id] < |fs| && IdOf(fs[idx[id]]) == Some(id)
    requires i < |batch| && IdOf(batch[i]).Some? && IdOf(batch[i]).value in idx
    requires forall j :: i < j < |batch| ==> IdOf(batch[j]) != IdOf(batch[i])
    ensures var e := MergeFrom(idx, fs, batch).events[idx[IdOf(batch[i]).value]];
      forall k :: k in batch[i] && k != "match_id" ==> k in e && e[k] == batch[i][k]
    decreases |batch|
  {
    var n := |batch| - 1;
    var id := IdOf(batch[i]).value;
    var p := idx[id];
    var prev := MergeFrom(idx, fs, batch[..n]);
    MergeKeepsAndAppends(idx, fs, batch[..n]);
    if i == n {
      MergedAgreement(prev.events[p], batch[n]);
    } else {
      assert batch[..n][i] == batch[i];
      assert forall j :: i < j < n ==> batch[..n][j] == batch[j];
      MergeLastRecordWins(idx, fs, batch[..n], i);
      var rec := batch[n];
      if IdOf(rec).Some? && IdOf(rec).value in idx {
        assert IdOf(fs[idx[IdOf(rec).value]]) == IdOf(rec);
      }
    }
  }

  // ---------------------------------------------------------------------------
  // The merge, on the stored objects
  // ---------------------------------------------------------------------------

  /** `live_map`: each id to the stored event object it names. */
  method BuildIdMap(events: seq<Event>) returns (m: map<Value, Event>)
    ensures var idx := PositionIndex(FieldsOf(events));
      && m.Keys == idx.Keys
      && forall id :: id in m ==> m[id] == events[idx[id]]
  {
    ghost var fs := FieldsOf(events);
    ghost var idx: map<Value, nat> := map[];
    m := map[];
    var i := 0;
    while i < |events|
      invariant 0 <= i <= |events|
      invariant idx == PositionIndex(fs[..i])
      invariant forall id :: id in m <==> id in idx
      invariant forall id :: id in m ==> idx[id] < |events| && m[id] == events[idx[id]]
    {
      var f := events[i].fields;
      assert f == fs[i];
      PositionIndexSnoc(fs, i);
      if "match_id" in f {
        assert IdOf(fs[i]) == Some(f["match_id"]);
        m := m[f["match_id"] := events[i]];
        idx := idx[f["match_id"] := i];
      } else {
        assert IdOf(fs[i]) == None;
      }
      i := i + 1;
    }
    assert fs[..i] == fs;
    assert m.Keys == idx.Keys;
  }

  /** No object appears twice in the list. */
  predicate DistinctObjects(events: seq<Event>) {
    forall p, q :: 0 <= p < q < |events| ==> events[p] != events[q]
  }

  /**
   * The stored list `result` and the list `changed` of changed objects are
   * the value-level outcome `out`, read in the current heap.
   */
  predicate Tracks(result: seq<Event>, changed: seq<Event>, out: MergeOutcome)
    reads (set e | e in result)`fields
  {
    && |result| == |out.events|
    && (forall p :: 0 <= p < |result| ==> result[p].fields == out.events[p])
    && |changed| == |out.changed|
    && (forall j :: 0 <= j < |changed| ==> out.changed[j] < |result| && changed[j] == result[out.changed[j]])
  }

  /** The parsers put a timestamp on every record. */
  predicate Stamped(records: seq<Fields>) {
    forall i :: 0 <= i < |records| ==> "timestamp" in records[i]
  }

  /** `result` starts with the objects of `prefix`, in order. */
  predicate Extends(result: seq<Event>, prefix: seq<Event>) {
    |result| >= |prefix| && forall p :: 0 <= p < |prefix| ==> result[p] == prefix[p]
  }

  /** `liveMap` sends each id of the index to the stored object at its indexed position. */
  predicate IndexedBy(liveMap: map<Value, Event>, idx: map<Value, nat>, stored: seq<Event>) {
    && liveMap.Keys == idx.Keys
    && forall id :: id in idx ==> idx[id] < |stored| && liveMap[id] == stored[idx[id]]
  }

  /** The body of the loop for one record `rec`, against the outcome `prev` of the records before it. */
  method MergeRecord(result: seq<Event>, changed: seq<Event>, liveMap: map<Value, Event>, rec: Fields,
                     stored: seq<Event>, ghost idx: map<Value, nat>, ghost prev: MergeOutcome)
    returns (result': seq<Event>, changed': seq<Event>)
    requires "timestamp" in rec
    requires |result| == |prev.events| && Extends(result, stored) && IndexedBy(liveMap, idx, stored)
    requires Tracks(result, changed, prev) && DistinctObjects(result)
    modifies set e | e in stored
    ensures Tracks(result', changed', MergeStep(idx, prev, rec)) && DistinctObjects(result')
    ensures Extends(result', result) && Extends(result', stored)
    ensures forall p :: |result| <= p < |result'| ==> fresh(result'[p])
  {
    result', changed' := result, changed;
    if "match_id" in rec {
      var id := rec["match_id"];
      if id in liveMap {
        var target := liveMap[id];
        assert target == stored[idx[id]] == result[idx[id]];
        var c := UpdateMatchOdds(target, rec);
        if c {
          changed' := changed + [target];
        }
      } else {
        var e := new Event(rec);
        result' := result + [e];
      }
    }
  }

  /**
   * The loops of `run_continuous_updates` over one parsed list (paste.py
   * 617-650 for live events; the upcoming loop is the same). Returns the list
   * with the unseen records appended as new objects, and the events whose
   * `update_match_odds` reported a change, in order. Every parsed record
   * carries a timestamp.
   */
  method MergeSection(events: seq<Event>, batch: seq<Fields>) returns (result: seq<Event>, changed: seq<Event>)
    requires Stamped(batch) && DistinctObjects(events)
    modifies set e | e in events
    ensures var fs := old(FieldsOf(events));
      Tracks(result, changed, MergeFrom(PositionIndex(fs), fs, batch))
    ensures DistinctObjects(result)
    ensures |result| >= |events| && result[..|events|] == events
    ensures forall p :: |events| <= p < |result| ==> fresh(result[p])
    ensures forall e :: e in result ==> e in events || fresh(e)
  {
    ghost var fs0 := FieldsOf(events);
    ghost var idx := PositionIndex(fs0);
    var liveMap := BuildIdMap(events);
    assert IndexedBy(liveMap, idx, events);
    result := events;
    changed := [];
    var i := 0;
    assert batch[..0] == [];
    while i < |batch|
      invariant 0 <= i <= |batch|
      invariant Tracks(result, changed, MergeFrom(idx, fs0, batch[..i])) && DistinctObjects(result)
      invariant Extends(result, events)
      invariant forall p :: |events| <= p < |result| ==> fresh(result[p])
    {
      ghost var prev := MergeFrom(idx, fs0, batch[..i]);
      MergeFromSnoc(idx, fs0, batch, i);
      result, changed := MergeRecord(result, changed, liveMap, batch[i], events, idx, prev);
      i := i + 1;
    }
    assert batch[..i] == batch;
    assert fs0 == old(FieldsOf(events)) && idx == PositionIndex(old(FieldsOf(events)));
    assert result[..|events|] == events;
    forall e | e in result
      ensures e in events || fresh(e)
    {
      var p :| 0 <= p < |result| && result[p] == e;
      if p < |events| {
        assert events[p] == e;
      }
    }
  }

  // ---------------------------------------------------------------------------
  // The odds differences logged for the changed events
  // ---------------------------------------------------------------------------

  /**
   * `{key: {'from': old[key], 'to': new[key]}}` for the `odd_*` keys present
   * in both with different values: empty exactly when the two dicts agree on
   * every shared `odd_*` key, and otherwise one real move per such key.
   */
  function OddsDiff(before: Fields, after: Fields): (d: map<string, (Value, Value)>)
    ensures d == map[] <==> forall k :: k in before && k in after && IsOddsKey(k) ==> before[k] == after[k]
    ensures forall k :: k in d ==>
      && IsOddsKey(k) && k in before && k in after
      && d[k].0 == before[k] && d[k].1 == after[k] && d[k].0 != d[k].1
    ensures forall k :: k in before && k in after && IsOddsKey(k) && before[k] != after[k] ==> k in d
  {
    var d := map k | k in after.Keys && IsOddsKey(k) && k in before && before[k] != after[k] :: (before[k], after[k]);
    assert (forall k :: k in before && k in after && IsOddsKey(k) ==> before[k] == after[k]) ==> d.Keys == {};
    assert d.Keys == {} <==> d == map[];
    d
  }

  /**
   * Diffing a stored event against its merge with a new record lists exactly
   * the `odd_*` keys the record carries with a value different from the
   * stored one, each as (stored, new); and a non-empty diff means the merge
   * reported the event as changed.
   */
  lemma DiffOfMergeIsMovedOdds(e: Fields, n: Fields)
    ensures var d := OddsDiff(e, Merged(e, n));
      && (forall k :: k in d <==> k in n && IsOddsKey(k) && k in e && e[k] != n[k])
      && (forall k :: k in d ==> d[k] == (e[k], n[k]))
      && (d != map[] ==> ChangeReported(e, n))
  {
    MergedAgreement(e, n);
    MatchIdNotTracked();
    var m := Merged(e, n);
    var d := OddsDiff(e, m);
    if d != map[] {
      var k :| k in d;
      assert k in n && Tracked(k) && e[k] != n[k];
    }
  }

  /** One `match_changes` entry. */
  datatype MatchChange = MatchChange(matchId: Value, team1: Value, team2: Value, changes: map<string, (Value, Value)>)

  /** `next((m for m in old if 'match_id' in m and m['match_id'] == id), {})` */
  function FirstNamed(prior: seq<Fields>, id: Value): Fields {
    if prior == [] then map[]
    else if IdOf(prior[0]) == Some(id) then prior[0]
    else FirstNamed(prior[1..], id)
  }

  function GetOr(f: Fields, k: string, default: Value): Value {
    if k in f then f[k] else default
  }

  /**
   * The entries for the changed events, each compared with the first event
   * of `old` that has its id; an event with no odds difference is left out.
   */
  function ChangeEntries(prior: seq<Fields>, changed: seq<Fields>): seq<MatchChange> {
    if changed == [] then []
    else
      var m := changed[0];
      var rest := ChangeEntries(prior, changed[1..]);
      var id := GetOr(m, "match_id", Text(""));
      var d := OddsDiff(FirstNamed(prior, id), m);
      if d == map[] then rest
      else [MatchChange(id, GetOr(m, "team1", Text("")), GetOr(m, "team2", Text("")), d)] + rest
  }

  /** The entry list from position `i` on: the entry of the event at `i`, if any, then the rest. */
  lemma ChangeEntriesAt(prior: seq<Fields>, changed: seq<Fields>, i: nat)
    requires i < |changed|
    ensures var m := changed[i];
      var id := GetOr(m, "match_id", Text(""));
      var d := OddsDiff(FirstNamed(prior, id), m);
      ChangeEntries(prior, changed[i..])
        == (if d == map[] then [] else [MatchChange(id, GetOr(m, "team1", Text("")), GetOr(m, "team2", Text("")), d)])
           + ChangeEntries(prior, changed[i + 1..])
  {
    assert changed[i..][0] == changed[i] && changed[i..][1..] == changed[i + 1..];
  }

  /** The `next(...)` search for the first event of `prior` with the id `id`, or `{}`. */
  method FindFirstNamed(prior: seq<Fields>, id: Value) returns (f: Fields)
    ensures f == FirstNamed(prior, id)
  {
    var i := 0;
    while i < |prior|
      invariant 0 <= i <= |prior|
      invariant FirstNamed(prior[i..], id) == FirstNamed(prior, id)
    {
      if "match_id" in prior[i] && prior[i]["match_id"] == id {
        return prior[i];
      }
      assert prior[i..][1..] == prior[i + 1..];
      i := i + 1;
    }
    return map[];
  }

  /** The `for key in match` loop collecting the `odd_*` differences. */
  method DiffOdds(before: Fields, after: Fields) returns (d: map<string, (Value, Value)>)
    ensures d == OddsDiff(before, after)
  {
    d := map[];
    var pending := after.Keys;
    while pending != {}
      invariant pending <= after.Keys
      invariant forall k :: k in d <==> k in after && k !in pending && IsOddsKey(k) && k in before && before[k] != after[k]
      invariant forall k :: k in d ==> d[k] == (before[k], after[k])
      decreases pending
    {
      var k :| k in pending;
      if IsOddsKey(k) && k in before && before[k] != after[k] {
        d := d[k := (before[k], after[k])];
      }
      pending := pending - {k};
    }
    assert d.Keys == OddsDiff(before, after).Keys;
  }

  /**
   * The loop over the changed events, each compared with the first event of
   * `prior` that has its id; `changed` holds the dicts of the changed events
   * as the merge left them. The source passes the shallow copy
   * `old_live_events`, read after the merge: `prior` is then `FieldsOf` of
   * the stored list in the current heap.
   */
  method CollectChanges(prior: seq<Fields>, changed: seq<Fields>) returns (entries: seq<MatchChange>)
    ensures entries == ChangeEntries(prior, changed)
  {
    entries := [];
    var i := 0;
    while i < |changed|
      invariant 0 <= i <= |changed|
      invariant entries + ChangeEntries(prior, changed[i..]) == ChangeEntries(prior, changed)
    {
      var m := changed[i];
      var id := GetOr(m, "match_id", Text(""));
      var first := FindFirstNamed(prior, id);
      var d := DiffOdds(first, m);
      ChangeEntriesAt(prior, changed, i);
      if d != map[] {
        entries := entries + [MatchChange(id, GetOr(m, "team1", Text("")), GetOr(m, "team2", Text("")), d)];
      }
      i := i + 1;
    }
  }

  /** An event compared with itself has no odds difference. */
  lemma OddsDiffSelf(f: Fields)
    ensures OddsDiff(f, f) == map[]
  {
  }

  /** In a list with distinct ids, the first event carrying an event's id is that event. */
  lemma {:induction false} FirstNamedIsSelf(fs: seq<Fields>, p: nat)
    requires p < |fs| && IdOf(fs[p]).Some?
    requires forall a, b :: 0 <= a < b < |fs| && IdOf(fs[a]).Some? ==> IdOf(fs[a]) != IdOf(fs[b])
    ensures FirstNamed(fs, IdOf(fs[p]).value) == fs[p]
  {
    if p > 0 {
      assert IdOf(fs[0]) != IdOf(fs[p]);
      assert forall a, b :: 0 <= a < b < |fs| - 1 ==> fs[1..][a] == fs[a + 1] && fs[1..][b] == fs[b + 1];
      FirstNamedIsSelf(fs[1..], p - 1);
    }
  }

  /**
   * As written, when the stored ids are distinct, every changed event is
   * compared with itself, so no entry is ever produced and the change log
   * never grows.
   */
  lemma {:induction false} AsWrittenDiffIsEmpty(now: seq<Fields>, changed: seq<Fields>, changedAt: seq<nat>)
    requires forall a, b :: 0 <= a < b < |now| && IdOf(now[a]).Some? ==> IdOf(now[a]) != IdOf(now[b])
    requires |changed| == |changedAt|
    requires forall j :: 0 <= j < |changedAt| ==>
      changedAt[j] < |now| && changed[j] == now[changedAt[j]] && IdOf(now[changedAt[j]]).Some?
    ensures ChangeEntries(now, changed) == []
    decreases |changed|
  {
    if changed != [] {
      var p := changedAt[0];
      FirstNamedIsSelf(now, p);
      OddsDiffSelf(now[p]);
      assert GetOr(changed[0], "match_id", Text("")) == IdOf(now[p]).value;
      AsWrittenDiffIsEmpty(now, changed[1..], changedAt[1..]);
    }
  }

  /**
   * Against a snapshot of the dicts taken before the merge, a changed event's
   * entry is present exactly when one of its `odd_*` values that existed
   * before now differs, and records each such key with its old and new value.
   */
  lemma SnapshotDiffReportsOddsChanges(before: seq<Fields>, now: seq<Fields>, p: nat)
    requires |before| == |now| && p < |now|
    requires forall a, b :: 0 <= a < b < |before| && IdOf(before[a]).Some? ==> IdOf(before[a]) != IdOf(before[b])
    requires IdOf(before[p]).Some? && IdOf(now[p]) == IdOf(before[p])
    ensures var entries := ChangeEntries(before, [now[p]]);
      && (entries != [] <==> exists k :: k in now[p] && IsOddsKey(k) && k in before[p] && before[p][k] != now[p][k])
      && (entries != [] ==> entries[0].matchId == IdOf(before[p]).value)
      && (entries != [] ==>
            forall k :: k in entries[0].changes <==> k in now[p] && IsOddsKey(k) && k in before[p] && before[p][k] != now[p][k])
      && (entries != [] ==> forall k :: k in entries[0].changes ==> entries[0].changes[k] == (before[p][k], now[p][k]))
  {
    FirstNamedIsSelf(before, p);
    var d := OddsDiff(before[p], now[p]);
    if exists k :: k in now[p] && IsOddsKey(k) && k in before[p] && before[p][k] != now[p][k] {
      var k :| k in now[p] && IsOddsKey(k) && k in before[p] && before[p][k] != now[p][k];
      assert k in d;
    }
  }

  /**
   * A concrete round: one stored event whose `odd_1` moves from 1.5 to 1.7.
   * The merge reports it as changed, but the diff read through the shared
   * objects is empty, while the diff against the pre-merge snapshot records
   * the move.
   */
  lemma AliasingHidesOddsChange()
    ensures var before := [map["match_id" := Text("m1"), "odd_1" := Text("1.5")]];
      var batch := [map["match_id" := Text("m1"), "odd_1" := Text("1.7"), "timestamp" := Text("t")]];
      var out := MergeFrom(PositionIndex(before), before, batch);
      && out.changed == [0]
      && ChangeEntries(out.events, [out.events[0]]) == []
      && |ChangeEntries(before, [out.events[0]])| == 1
      && ChangeEntries(before, [out.events[0]])[0].changes["odd_1"] == (Text("1.5"), Text("1.7"))
  {
    var e0 := map["match_id" := Text("m1"), "odd_1" := Text("1.5")];
    var before := [e0];
    var rec := map["match_id" := Text("m1"), "odd_1" := Text("1.7"), "timestamp" := Text("t")];
    var batch := [rec];
    var idx := PositionIndex(before);
    assert idx == map[Text("m1") := 0] by {
      assert before[..0] == [];
    }
    assert batch[..0] == [];
    var out := MergeFrom(idx, before, batch);
    var start := MergeFrom(idx, before, []);
    assert start == MergeOutcome(before, [], []);
    assert out == MergeStep(idx, start, rec);
    assert IdOf(rec) == Some(Text("m1"));
    assert "odd_1" in rec && Tracked("odd_1") && e0["odd_1"] != rec["odd_1"];
    assert ChangeReported(e0, rec);
    var m := Merged(e0, rec);
    MergedAgreement(e0, rec);
    assert out.events == [m] && out.changed == [0];
    OddsDiffSelf(m);
    assert FirstNamed(out.events, Text("m1")) == m;
    assert FirstNamed(before, Text("m1")) == e0;
    var d := OddsDiff(e0, m);
    assert "odd_1" in m && m["odd_1"] == Text("1.7");
  }
}
