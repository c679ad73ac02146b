/**
 * `XbetScraper.run_continuous_updates` and its callers: the in-memory
 * `data_store`, one polling round (merge both event lists, log the odds
 * differences, cap the log), the bounded loop of rounds, the clamps applied
 * to the interval and the update count on the way in, and the `limit` slice
 * of `get_odds_changes`.
 *
 * Fetching and parsing the page is outside the model: each round receives
 * the parsed page, or nothing when the fetch failed, together with its
 * clock reading. A concurrent stop request ends the sequence of rounds.
 */
module ContinuousUpdates {

  import opened Wrappers
  import opened EventMerge
  import opened EventStore
  import opened Leagues

  // ---------------------------------------------------------------------------
  // The change log
  // ---------------------------------------------------------------------------

  /** One `changes_data` entry of `data_store["odds_changes"]`. */
  datatype ChangeSet = ChangeSet(timestamp: string, liveChanges: seq<MatchChange>, upcomingChanges: seq<MatchChange>)

  const LogCapacity: nat := 100

  /** `log[-100:]` when the log holds more than 100 entries. */
  function CapLog<T>(log: seq<T>): (r: seq<T>)
    ensures |r| <= LogCapacity
    ensures |log| <= LogCapacity ==> r == log
    ensures |log| > LogCapacity ==> |r| == LogCapacity
    ensures r == log[|log| - |r|..]
  {
    if |log| > LogCapacity then log[|log| - LogCapacity..] else log
  }

  /** `changes[-limit:]` when `0 < limit < len(changes)`, else the whole log. */
  function GetOddsChanges(log: seq<ChangeSet>, limit: int): (r: seq<ChangeSet>)
    ensures |r| == (if 0 < limit < |log| then limit else |log|)
    ensures r == log[|log| - |r|..]
  {
    if 0 < limit < |log| then log[|log| - limit..] else log
  }

  // ---------------------------------------------------------------------------
  // Clamps
  // ---------------------------------------------------------------------------

  function Min(a: int, b: int): int { if a <= b then a else b }
  function Max(a: int, b: int): int { if a >= b then a else b }

  /** Python's `count or 10` on an optional count: `None` and `0` become 10, anything else is kept. */
  function OrTen(count: Option<int>): (r: int)
    ensures r != 0
    ensures count.Some? && count.value != 0 ==> r == count.value
    ensures count.None? || count == Some(0) ==> r == 10
  {
    if count.None? || count.value == 0 then 10 else count.value
  }

  /** `start_continuous`: `max(5, min(interval, 30))`. */
  function StartInterval(interval: int): (r: int)
    ensures 5 <= r <= 30
    ensures 5 <= interval <= 30 ==> r == interval
    ensures interval < 5 ==> r == 5
    ensures interval > 30 ==> r == 30
  {
    Max(5, Min(interval, 30))
  }

  /** `start_continuous`: `max(1, min(max_updates or 10, 20))`. */
  function StartMaxUpdates(maxUpdates: Option<int>): (r: int)
    ensures 1 <= r <= 20
    ensures maxUpdates.None? || maxUpdates == Some(0) ==> r == 10
    ensures maxUpdates.Some? && 1 <= maxUpdates.value <= 20 ==> r == maxUpdates.value
  {
    Max(1, Min(OrTen(maxUpdates), 20))
  }

  /** `run_continuous_scraper`: `max(interval, 5)`. */
  function ScraperInterval(interval: int): (r: int)
    ensures r >= 5
    ensures interval >= 5 ==> r == interval
  {
    Max(interval, 5)
  }

  /** `run_continuous_scraper`: `max_updates or 10`. */
  function ScraperMaxUpdates(maxUpdates: Option<int>): int {
    OrTen(maxUpdates)
  }

  /** `run_continuous_updates`: `min(max_updates or 10, 10)`. */
  function UpdateLimit(maxUpdates: Option<int>): (r: int)
    ensures r <= 10
    ensures maxUpdates.None? || maxUpdates == Some(0) ==> r == 10
  {
    Min(OrTen(maxUpdates), 10)
  }

  /** The number of rounds a run performs: `update_count` stops at the limit, or when stopped. */
  function Iterations(limit: int, available: nat): (n: nat)
    ensures n <= available
    ensures limit <= 0 ==> n == 0
    ensures limit > 0 ==> n == Min(limit, available)
  {
    if limit <= 0 then 0 else Min(limit, available)
  }

  /**
   * A run started through `start_continuous` keeps its interval in [5, 30]
   * through `run_continuous_scraper`, and performs between one and ten
   * rounds (fewer only when stopped): the requested count clamped to
   * [1, 20], then to at most 10.
   */
  lemma StartedRunBounds(interval: int, maxUpdates: Option<int>, available: nat)
    ensures ScraperInterval(StartInterval(interval)) == StartInterval(interval)
    ensures var limit := UpdateLimit(Some(ScraperMaxUpdates(Some(StartMaxUpdates(maxUpdates)))));
      && 1 <= limit <= 10
      && limit == Min(StartMaxUpdates(maxUpdates), 10)
      && Iterations(limit, available) == Min(limit, available)
  {
  }

  /** A negative count is truthy in Python, so a direct call with one performs no round at all. */
  lemma NegativeCountRunsNothing(maxUpdates: int, available: nat)
    requires maxUpdates < 0
    ensures Iterations(UpdateLimit(Some(maxUpdates)), available) == 0
  {
  }

  // ---------------------------------------------------------------------------
  // One round, on values
  // ---------------------------------------------------------------------------

  /** The parsed page of a round: its live and upcoming records. */
  datatype Page = Page(live: seq<Fields>, upcoming: seq<Fields>)

  /** A round's clock reading (`last_scrape_time`) and its page, `None` when the fetch failed. */
  datatype Poll = Poll(time: string, page: Option<Page>)

  /** The first fetch: both lists and the league headers of the page. */
  datatype Snapshot = Snapshot(live: seq<Fields>, upcoming: seq<Fields>, headers: seq<Header>)

  /** No league id is stored twice. */
  predicate DistinctLeagueIds(ls: seq<League>) {
    forall a, b :: 0 <= a < b < |ls| ==> ls[a].leagueId != ls[b].leagueId
  }

  /** The parts of `data_store` a round changes, as values. */
  datatype Store = Store(live: seq<Fields>, upcoming: seq<Fields>, log: seq<ChangeSet>)

  predicate PollStamped(poll: Poll) {
    poll.page.Some? ==> Stamped(poll.page.value.live) && Stamped(poll.page.value.upcoming)
  }

  /** The dicts at the given positions. */
  function Picks(fs: seq<Fields>, ps: seq<nat>): (r: seq<Fields>)
    requires forall j :: 0 <= j < |ps| ==> ps[j] < |fs|
    ensures |r| == |ps|
    ensures forall j :: 0 <= j < |ps| ==> r[j] == fs[ps[j]]
  {
    if ps == [] then [] else [fs[ps[0]]] + Picks(fs, ps[1..])
  }

  /** The merge of one parsed list into one stored list. */
  function MergeList(stored: seq<Fields>, batch: seq<Fields>): (out: MergeOutcome)
    ensures |out.events| >= |stored|
    ensures forall j :: 0 <= j < |out.changed| ==> out.changed[j] < |stored|
  {
    MergeKeepsAndAppends(PositionIndex(stored), stored, batch);
    MergeFrom(PositionIndex(stored), stored, batch)
  }

  /** The log after a round whose entries for the two lists are `liveCh` and `upCh`. */
  function Logged(log: seq<ChangeSet>, time: string, liveCh: seq<MatchChange>, upCh: seq<MatchChange>): seq<ChangeSet> {
    CapLog(if liveCh != [] || upCh != [] then log + [ChangeSet(time, liveCh, upCh)] else log)
  }

  /**
   * One round, with the odds differences taken against the dicts as they
   * were before the merge. A failed fetch skips the round. (The source
   * first tests whether anything changed at all; when nothing did, both
   * entry lists are empty, so the test adds nothing.)
   */
  function Round(s: Store, poll: Poll): Store {
    match poll.page
    case None => s
    case Some(page) =>
      var live := MergeList(s.live, page.live);
      var up := MergeList(s.upcoming, page.upcoming);
      var liveCh := ChangeEntries(s.live, Picks(live.events, live.changed));
      var upCh := ChangeEntries(s.upcoming, Picks(up.events, up.changed));
      Store(live.events, up.events, Logged(s.log, poll.time, liveCh, upCh))
  }

  /** A round that fetched a page, spelled out: the proof step `ApplyPoll` needs. */
  lemma RoundOfPage(s: Store, poll: Poll)
    requires poll.page.Some?
    ensures var live := MergeList(s.live, poll.page.value.live);
      var up := MergeList(s.upcoming, poll.page.value.upcoming);
      Round(s, poll) == Store(live.events, up.events,
        Logged(s.log, poll.time, ChangeEntries(s.live, Picks(live.events, live.changed)),
                                 ChangeEntries(s.upcoming, Picks(up.events, up.changed))))
  {
  }

  /**
   * One round as written: the "old" dicts are read through the shallow copy
   * of the lists, after the merge has updated the very objects it holds.
   */
  function RoundAsWritten(s: Store, poll: Poll): Store {
    match poll.page
    case None => s
    case Some(page) =>
      var live := MergeList(s.live, page.live);
      var up := MergeList(s.upcoming, page.upcoming);
      var liveCh := ChangeEntries(live.events[..|s.live|], Picks(live.events, live.changed));
      var upCh := ChangeEntries(up.events[..|s.upcoming|], Picks(up.events, up.changed));
      Store(live.events, up.events, Logged(s.log, poll.time, liveCh, upCh))
  }

  /** The rounds in order. */
  function Rounds(s: Store, polls: seq<Poll>): Store
    decreases |polls|
  {
    if polls == [] then s else Round(Rounds(s, polls[..|polls| - 1]), polls[|polls| - 1])
  }

  /** One more round. */
  lemma RoundsSnoc(s: Store, polls: seq<Poll>, n: nat)
    requires n < |polls|
    ensures Rounds(s, polls[..n + 1]) == Round(Rounds(s, polls[..n]), polls[n])
  {
    assert polls[..n + 1][..n] == polls[..n];
  }

  // ---------------------------------------------------------------------------
  // What a round guarantees
  // ---------------------------------------------------------------------------

  /** Every event dict carrying an id carries a different one. */
  predicate DistinctIds(fs: seq<Fields>) {
    forall a, b :: 0 <= a < b < |fs| && IdOf(fs[a]).Some? ==> IdOf(fs[a]) != IdOf(fs[b])
  }

  /**
   * No event is ever removed: each list keeps its events at their positions
   * with their ids, and grows by exactly the unseen records of the page.
   */
  lemma RoundKeepsEvents(s: Store, poll: Poll)
    requires poll.page.Some?
    ensures var r := Round(s, poll);
      && |r.live| == |s.live| + |Unseen(PositionIndex(s.live), poll.page.value.live)|
      && r.live[|s.live|..] == Unseen(PositionIndex(s.live), poll.page.value.live)
      && (forall p :: 0 <= p < |s.live| ==> IdOf(r.live[p]) == IdOf(s.live[p]))
      && |r.upcoming| == |s.upcoming| + |Unseen(PositionIndex(s.upcoming), poll.page.value.upcoming)|
      && r.upcoming[|s.upcoming|..] == Unseen(PositionIndex(s.upcoming), poll.page.value.upcoming)
      && (forall p :: 0 <= p < |s.upcoming| ==> IdOf(r.upcoming[p]) == IdOf(s.upcoming[p]))
  {
    var page := poll.page.value;
    MergeKeepsAndAppends(PositionIndex(s.live), s.live, page.live);
    MergeKeepsAndAppends(PositionIndex(s.upcoming), s.upcoming, page.upcoming);
  }

  /**
   * The log holds at most 100 entries after any round that fetched a page;
   * a round either logs nothing new, or appends one entry stamped with its
   * clock reading that holds at least one event's differences, and only the
   * oldest entries are dropped.
   */
  lemma {:induction false} RoundLogShape(s: Store, poll: Poll)
    ensures var log := Round(s, poll).log;
      && (poll.page.Some? ==> |log| <= LogCapacity)
      && (log == s.log || log == CapLog(s.log) ||
          exists c: ChangeSet :: c.timestamp == poll.time && (c.liveChanges != [] || c.upcomingChanges != [])
                   && log == CapLog(s.log + [c]))
  {
    if poll.page.Some? {
      var page := poll.page.value;
      var live := MergeList(s.live, page.live);
      var up := MergeList(s.upcoming, page.upcoming);
      var liveCh := ChangeEntries(s.live, Picks(live.events, live.changed));
      var upCh := ChangeEntries(s.upcoming, Picks(up.events, up.changed));
      if liveCh != [] || upCh != [] {
        var c := ChangeSet(poll.time, liveCh, upCh);
        assert Round(s, poll).log == CapLog(s.log + [c]);
      }
    }
  }

  /** Starting from a log of at most 100 entries, it stays within 100 over any number of rounds. */
  lemma {:induction false} RoundsLogBounded(s: Store, polls: seq<Poll>)
    requires |s.log| <= LogCapacity
    ensures |Rounds(s, polls).log| <= LogCapacity
    decreases |polls|
  {
    if polls != [] {
      var n := |polls| - 1;
      RoundsLogBounded(s, polls[..n]);
      RoundLogShape(Rounds(s, polls[..n]), polls[n]);
    }
  }

  /** An event whose entry the diff produces is found in the entry list. */
  lemma {:induction false} ChangeEntriesContain(prior: seq<Fields>, cs: seq<Fields>, j: nat)
    requires j < |cs|
    requires OddsDiff(FirstNamed(prior, GetOr(cs[j], "match_id", Text(""))), cs[j]) != map[]
    ensures exists e :: (e in ChangeEntries(prior, cs) && e.matchId == GetOr(cs[j], "match_id", Text(""))
      && e.changes == OddsDiff(FirstNamed(prior, GetOr(cs[j], "match_id", Text(""))), cs[j]))
    decreases |cs|
  {
    var id := GetOr(cs[0], "match_id", Text(""));
    var d := OddsDiff(FirstNamed(prior, id), cs[0]);
    var rest := ChangeEntries(prior, cs[1..]);
    if j > 0 {
      assert cs[1..][j - 1] == cs[j];
      ChangeEntriesContain(prior, cs[1..], j - 1);
      var e :| e in rest && e.matchId == GetOr(cs[j], "match_id", Text(""))
        && e.changes == OddsDiff(FirstNamed(prior, GetOr(cs[j], "match_id", Text(""))), cs[j]);
      assert e in ChangeEntries(prior, cs);
    } else {
      var e := MatchChange(id, GetOr(cs[0], "team1", Text("")), GetOr(cs[0], "team2", Text("")), d);
      assert ChangeEntries(prior, cs) == [e] + rest;
    }
  }

  /**
   * With distinct ids in a stored list, a stored event that carries an id
   * and one of whose `odd_*` values moved during the merge has its entry in
   * the list's change entries, with its differences: old and new value for
   * each key.
   */
  lemma ListLogsOddsMoves(stored: seq<Fields>, batch: seq<Fields>, p: nat)
    requires DistinctIds(stored) && p < |stored| && IdOf(stored[p]).Some?
    ensures var out := MergeList(stored, batch);
      (exists k :: k in out.events[p] && IsOddsKey(k) && k in stored[p] && stored[p][k] != out.events[p][k]) ==>
        exists e :: e in ChangeEntries(stored, Picks(out.events, out.changed)) && e.matchId == IdOf(stored[p]).value
          && e.changes == OddsDiff(stored[p], out.events[p])
  {
    var idx := PositionIndex(stored);
    var out := MergeList(stored, batch);
    MergeKeepsAndAppends(idx, stored, batch);
    if exists k :: k in out.events[p] && IsOddsKey(k) && k in stored[p] && stored[p][k] != out.events[p][k] {
      var k :| k in out.events[p] && IsOddsKey(k) && k in stored[p] && stored[p][k] != out.events[p][k];
      MergeReportsOddsMoves(idx, stored, batch, p, k);
      var j :| 0 <= j < |out.changed| && out.changed[j] == p;
      ListLogsReportedOddsMoves(stored, batch, j);
    }
  }

  /**
   * With distinct ids in a stored list, when the merge reports an event as
   * changed and one of its `odd_*` values that existed before now differs,
   * the list's change entries hold that event's differences.
   */
  lemma ListLogsReportedOddsMoves(stored: seq<Fields>, batch: seq<Fields>, j: nat)
    requires DistinctIds(stored)
    requires var out := MergeList(stored, batch);
      j < |out.changed| && IdOf(stored[out.changed[j]]).Some?
    ensures var out := MergeList(stored, batch);
      var p := out.changed[j];
      (exists k :: k in out.events[p] && IsOddsKey(k) && k in stored[p] && stored[p][k] != out.events[p][k]) ==>
        exists e :: e in ChangeEntries(stored, Picks(out.events, out.changed)) && e.matchId == IdOf(stored[p]).value
          && e.changes == OddsDiff(stored[p], out.events[p])
  {
    var out := MergeList(stored, batch);
    var p := out.changed[j];
    MergeKeepsAndAppends(PositionIndex(stored), stored, batch);
    var cs := Picks(out.events, out.changed);
    var id := IdOf(stored[p]).value;
    assert GetOr(cs[j], "match_id", Text("")) == id;
    FirstNamedIsSelf(stored, p);
    if exists k :: k in out.events[p] && IsOddsKey(k) && k in stored[p] && stored[p][k] != out.events[p][k] {
      var k :| k in out.events[p] && IsOddsKey(k) && k in stored[p] && stored[p][k] != out.events[p][k];
      assert k in OddsDiff(stored[p], out.events[p]);
      ChangeEntriesContain(stored, cs, j);
    }
  }

  /**
   * With distinct ids in the live list, a stored live event that carries an
   * id and one of whose `odd_*` values moved during the merge is logged: the
   * round ends with a log entry stamped with its clock reading that holds
   * that event's differences among its live changes.
   */
  lemma RoundLogsOddsMoves(s: Store, poll: Poll, p: nat)
    requires poll.page.Some? && DistinctIds(s.live)
    requires p < |s.live| && IdOf(s.live[p]).Some?
    ensures var live := MergeList(s.live, poll.page.value.live);
      var log := Round(s, poll).log;
      (exists k :: k in live.events[p] && IsOddsKey(k) && k in s.live[p] && s.live[p][k] != live.events[p][k]) ==>
        && |log| > 0 && log[|log| - 1].timestamp == poll.time
        && exists e :: e in log[|log| - 1].liveChanges && e.matchId == IdOf(s.live[p]).value
             && e.changes == OddsDiff(s.live[p], live.events[p])
  {
    var page := poll.page.value;
    var live := MergeList(s.live, page.live);
    var up := MergeList(s.upcoming, page.upcoming);
    var liveCh := ChangeEntries(s.live, Picks(live.events, live.changed));
    var upCh := ChangeEntries(s.upcoming, Picks(up.events, up.changed));
    ListLogsOddsMoves(s.live, page.live, p);
    if exists k :: k in live.events[p] && IsOddsKey(k) && k in s.live[p] && s.live[p][k] != live.events[p][k] {
      assert Round(s, poll).log == Logged(s.log, poll.time, liveCh, upCh);
      LoggedEndsWith(s.log, poll.time, liveCh, upCh);
    }
  }

  /**
   * The same for the upcoming list: a stored upcoming event with an id whose
   * `odd_*` value moved is among the last log entry's upcoming changes.
   */
  lemma RoundLogsUpcomingOddsMoves(s: Store, poll: Poll, p: nat)
    requires poll.page.Some? && DistinctIds(s.upcoming)
    requires p < |s.upcoming| && IdOf(s.upcoming[p]).Some?
    ensures var up := MergeList(s.upcoming, poll.page.value.upcoming);
      var log := Round(s, poll).log;
      (exists k :: k in up.events[p] && IsOddsKey(k) && k in s.upcoming[p] && s.upcoming[p][k] != up.events[p][k]) ==>
        && |log| > 0 && log[|log| - 1].timestamp == poll.time
        && exists e :: e in log[|log| - 1].upcomingChanges && e.matchId == IdOf(s.upcoming[p]).value
             && e.changes == OddsDiff(s.upcoming[p], up.events[p])
  {
    var page := poll.page.value;
    var live := MergeList(s.live, page.live);
    var up := MergeList(s.upcoming, page.upcoming);
    var liveCh := ChangeEntries(s.live, Picks(live.events, live.changed));
    var upCh := ChangeEntries(s.upcoming, Picks(up.events, up.changed));
    ListLogsOddsMoves(s.upcoming, page.upcoming, p);
    if exists k :: k in up.events[p] && IsOddsKey(k) && k in s.upcoming[p] && s.upcoming[p][k] != up.events[p][k] {
      assert Round(s, poll).log == Logged(s.log, poll.time, liveCh, upCh);
      LoggedEndsWith(s.log, poll.time, liveCh, upCh);
    }
  }

  /** A round with entries logs them last. */
  lemma LoggedEndsWith(log: seq<ChangeSet>, time: string, liveCh: seq<MatchChange>, upCh: seq<MatchChange>)
    requires liveCh != [] || upCh != []
    ensures var r := Logged(log, time, liveCh, upCh);
      |r| > 0 && r[|r| - 1] == ChangeSet(time, liveCh, upCh)
  {
  }

  /**
   * As written, with distinct ids in both stored lists, every changed event
   * is compared with itself: a round never adds an entry to the log.
   */
  lemma RoundAsWrittenLogsNothing(s: Store, poll: Poll)
    requires DistinctIds(s.live) && DistinctIds(s.upcoming)
    ensures RoundAsWritten(s, poll).log == s.log || RoundAsWritten(s, poll).log == CapLog(s.log)
  {
    if poll.page.Some? {
      var page := poll.page.value;
      AsWrittenListQuiet(s.live, page.live);
      AsWrittenListQuiet(s.upcoming, page.upcoming);
    }
  }

  /** The as-written diff of one list is empty when the stored ids are distinct. */
  lemma AsWrittenListQuiet(stored: seq<Fields>, batch: seq<Fields>)
    requires DistinctIds(stored)
    ensures var out := MergeList(stored, batch);
      ChangeEntries(out.events[..|stored|], Picks(out.events, out.changed)) == []
  {
    var idx := PositionIndex(stored);
    var out := MergeList(stored, batch);
    MergeKeepsAndAppends(idx, stored, batch);
    var now := out.events[..|stored|];
    assert forall p :: 0 <= p < |stored| ==> IdOf(now[p]) == IdOf(stored[p]);
    forall j | 0 <= j < |out.changed|
      ensures IdOf(now[out.changed[j]]).Some?
    {
      MergeChangedIsIndexed(idx, stored, batch, j);
    }
    AsWrittenDiffIsEmpty(now, Picks(out.events, out.changed), out.changed);
  }

  /** A position the merge reports as changed is the indexed position of some id. */
  lemma {:induction false} MergeChangedIsIndexed(idx: map<Value, nat>, fs: seq<Fields>, batch: seq<Fields>, j: nat)
    requires forall id :: id in idx ==> idx[id] < |fs| && IdOf(fs[idx[id]]) == Some(id)
    requires j < |MergeFrom(idx, fs, batch).changed|
    ensures MergeFrom(idx, fs, batch).changed[j] < |fs|
    ensures IdOf(fs[MergeFrom(idx, fs, batch).changed[j]]).Some?
    decreases |batch|
  {
    var n := |batch| - 1;
    var prev := MergeFrom(idx, fs, batch[..n]);
    if j < |prev.changed| {
      MergeChangedIsIndexed(idx, fs, batch[..n], j);
    }
  }

  // ---------------------------------------------------------------------------
  // The store
  // ---------------------------------------------------------------------------

  /** Fresh, distinct event objects holding the given dicts. */
  method Materialize(records: seq<Fields>) returns (events: seq<Event>)
    ensures |events| == |records|
    ensures forall i :: 0 <= i < |events| ==> events[i].fields == records[i] && fresh(events[i])
    ensures DistinctObjects(events)
  {
    events := [];
    var i := 0;
    while i < |records|
      invariant 0 <= i <= |records| && |events| == i
      invariant forall k :: 0 <= k < i ==> events[k].fields == records[k] && fresh(events[k])
      invariant DistinctObjects(events)
    {
      var e := new Event(records[i]);
      events := events + [e];
      i := i + 1;
    }
  }

  /** `Tracks` turned into the dicts of the whole list and of the changed events. */
  lemma TrackedFields(result: seq<Event>, changed: seq<Event>, out: MergeOutcome)
    requires Tracks(result, changed, out)
    ensures forall j :: 0 <= j < |out.changed| ==> out.changed[j] < |out.events|
    ensures FieldsOf(result) == out.events
    ensures FieldsOf(changed) == Picks(out.events, out.changed)
  {
  }

  /** `data_store` and the globals of the background task. */
  class DataStore {
    var liveEvents: seq<Event>
    var upcomingEvents: seq<Event>
    var leagues: seq<League>
    var oddsChanges: seq<ChangeSet>
    var running: bool
    var status: string
    var lastScrape: Option<string>
    /** The event objects the store holds: what its rounds may update. */
    ghost var Repr: set<Event>

    constructor ()
      ensures liveEvents == [] && upcomingEvents == [] && leagues == [] && oddsChanges == []
      ensures !running && status == "idle" && lastScrape == None
    {
      liveEvents := [];
      upcomingEvents := [];
      leagues := [];
      oddsChanges := [];
      running := false;
      status := "idle";
      lastScrape := None;
      Repr := {};
    }

    /** No event object is stored twice, in one list or across the two. */
    ghost predicate Valid()
      reads this
    {
      && DistinctObjects(liveEvents)
      && DistinctObjects(upcomingEvents)
      && (forall e :: e in liveEvents ==> e !in upcomingEvents)
      && (forall e :: e in liveEvents ==> e in Repr)
      && (forall e :: e in upcomingEvents ==> e in Repr)
    }

    /** The lists' dicts and the log, as values. */
    function State(): Store
      reads this, (set e | e in liveEvents)`fields, (set e | e in upcomingEvents)`fields
    {
      Store(FieldsOf(liveEvents), FieldsOf(upcomingEvents), oddsChanges)
    }

    /** The store holds what running the rounds `done` from `start` produces. */
    ghost predicate Reached(start: Store, done: seq<Poll>)
      reads this, (set e | e in liveEvents)`fields, (set e | e in upcomingEvents)`fields
    {
      Valid() && State() == Rounds(start, done)
    }

    /** Both merges of a round, with the dicts snapshotted before them. */
    method MergeBoth(page: Page) returns (liveBefore: seq<Fields>, upBefore: seq<Fields>, changedLive: seq<Event>, changedUp: seq<Event>)
      requires Valid() && Stamped(page.live) && Stamped(page.upcoming)
      modifies this, Repr
      ensures Valid()
      ensures liveBefore == old(FieldsOf(liveEvents)) && upBefore == old(FieldsOf(upcomingEvents))
      ensures var lo := MergeList(liveBefore, page.live);
        FieldsOf(liveEvents) == lo.events && FieldsOf(changedLive) == Picks(lo.events, lo.changed)
      ensures var uo := MergeList(upBefore, page.upcoming);
        FieldsOf(upcomingEvents) == uo.events && FieldsOf(changedUp) == Picks(uo.events, uo.changed)
      ensures fresh(Repr - old(Repr))
      ensures leagues == old(leagues) && oddsChanges == old(oddsChanges)
      ensures running == old(running) && status == old(status) && lastScrape == old(lastScrape)
    {
      liveBefore := FieldsOf(liveEvents);
      upBefore := FieldsOf(upcomingEvents);
      var lives, ups := liveEvents, upcomingEvents;
      var live, cl := MergeSection(lives, page.live);
      assert forall e :: e in live ==> e !in ups;
      assert FieldsOf(ups) == upBefore;
      var up, cu := MergeSection(ups, page.upcoming);
      assert forall e :: e in up ==> e !in live;
      TrackedFields(live, cl, MergeList(liveBefore, page.live));
      TrackedFields(up, cu, MergeList(upBefore, page.upcoming));
      SetLists(live, up, cl, cu);
      changedLive, changedUp := cl, cu;
    }

    /** Stores the merged lists; the dicts of these and of the changed events stay as they are. */
    method SetLists(live: seq<Event>, up: seq<Event>, cl: seq<Event>, cu: seq<Event>)
      modifies this
      ensures liveEvents == live && upcomingEvents == up
      ensures forall e :: e in Repr <==> e in live || e in up
      ensures leagues == old(leagues) && oddsChanges == old(oddsChanges)
      ensures running == old(running) && status == old(status) && lastScrape == old(lastScrape)
      ensures FieldsOf(live) == old(FieldsOf(live)) && FieldsOf(up) == old(FieldsOf(up))
      ensures FieldsOf(cl) == old(FieldsOf(cl)) && FieldsOf(cu) == old(FieldsOf(cu))
    {
      liveEvents, upcomingEvents := live, up;
      Repr := (set e | e in live) + (set e | e in up);
    }

    /**
     * The merges of a round followed by the odds diff of each list's changed
     * events against the dicts as they were before the merge; `anyChanged`
     * is the source's `live_changed or upcoming_changed`.
     */
    method MergeAndCollect(page: Page) returns (liveCh: seq<MatchChange>, upCh: seq<MatchChange>, anyChanged: bool)
      requires Valid() && Stamped(page.live) && Stamped(page.upcoming)
      modifies this, Repr
      ensures Valid()
      ensures var lo := MergeList(old(FieldsOf(liveEvents)), page.live);
        var uo := MergeList(old(FieldsOf(upcomingEvents)), page.upcoming);
        && FieldsOf(liveEvents) == lo.events && FieldsOf(upcomingEvents) == uo.events
        && liveCh == ChangeEntries(old(FieldsOf(liveEvents)), Picks(lo.events, lo.changed))
        && upCh == ChangeEntries(old(FieldsOf(upcomingEvents)), Picks(uo.events, uo.changed))
      ensures !anyChanged ==> liveCh == [] && upCh == []
      ensures fresh(Repr - old(Repr))
      ensures leagues == old(leagues) && oddsChanges == old(oddsChanges)
      ensures running == old(running) && status == old(status) && lastScrape == old(lastScrape)
    {
      var liveBefore, upBefore, changedLive, changedUp := MergeBoth(page);
      liveCh := CollectChanges(liveBefore, FieldsOf(changedLive));
      upCh := CollectChanges(upBefore, FieldsOf(changedUp));
      anyChanged := changedLive != [] || changedUp != [];
    }

    /** Stores a round's log and clock reading; the event dicts stay as they are. */
    method SetLog(log: seq<ChangeSet>, time: string)
      modifies this
      ensures oddsChanges == log && lastScrape == Some(time)
      ensures liveEvents == old(liveEvents) && upcomingEvents == old(upcomingEvents) && leagues == old(leagues)
      ensures running == old(running) && status == old(status) && Repr == old(Repr)
      ensures FieldsOf(liveEvents) == old(FieldsOf(liveEvents)) && FieldsOf(upcomingEvents) == old(FieldsOf(upcomingEvents))
    {
      oddsChanges, lastScrape := log, Some(time);
    }

    /**
     * One round of `run_continuous_updates`, stamped with its clock reading
     * (`last_scrape_time`): a failed fetch changes nothing else; otherwise both lists are merged, the odds differences
     * logged against the dicts as they were before the merge, and the log
     * capped.
     */
    method ApplyPoll(poll: Poll)
      requires Valid() && PollStamped(poll)
      modifies this, Repr
      ensures Valid()
      ensures State() == Round(old(State()), poll)
      ensures fresh(Repr - old(Repr))
      ensures leagues == old(leagues) && lastScrape == Some(poll.time)
      ensures running == old(running) && status == old(status)
    {
      if poll.page.None? {
        lastScrape := Some(poll.time);
        return;
      }
      ghost var s0 := State();
      RoundOfPage(s0, poll);
      var liveCh, upCh, anyChanged := MergeAndCollect(poll.page.value);
      var log := oddsChanges;
      if anyChanged {
        if liveCh != [] || upCh != [] {
          log := log + [ChangeSet(poll.time, liveCh, upCh)];
        }
      }
      log := CapLog(log);
      SetLog(log, poll.time);
    }

    /**
     * `run_continuous_updates(max_updates=maxUpdates)`: the first fetch
     * replaces both lists and the leagues, or, when it fails, leaves the
     * store as it was; then up to `min(max_updates or 10, 10)` rounds run
     * until the rounds run out. Returns the number of rounds performed.
     */
    method RunContinuousUpdates(maxUpdates: Option<int>, initial: Option<Snapshot>, polls: seq<Poll>) returns (updates: nat)
      requires forall i :: 0 <= i < |polls| ==> PollStamped(polls[i])
      modifies this
      ensures !running && status == "stopped"
      ensures initial.None? ==> (updates == 0
        && liveEvents == old(liveEvents) && upcomingEvents == old(upcomingEvents)
        && leagues == old(leagues) && oddsChanges == old(oddsChanges) && lastScrape == old(lastScrape))
      ensures initial.Some? ==> updates == Iterations(UpdateLimit(maxUpdates), |polls|)
      ensures initial.Some? ==> (Valid() && leagues == Dedup(Candidates(initial.value.headers)) && DistinctLeagueIds(leagues)
        && State() == Rounds(Store(initial.value.live, initial.value.upcoming, old(oddsChanges)), polls[..updates]))
      ensures initial.Some? && updates > 0 ==> lastScrape == Some(polls[updates - 1].time)
      ensures initial.Some? && updates == 0 ==> lastScrape == old(lastScrape)
    {
      running, status := true, "running";
      if initial.None? {
        // The missing page raises; `finally` marks the task stopped.
        running, status := false, "stopped";
        return 0;
      }
      Load(initial.value);
      updates := RunRounds(UpdateLimit(maxUpdates), polls);
      Stop();
    }

    /** The `while` loop: rounds until `update_count` reaches the limit or the rounds run out. */
    method RunRounds(limit: int, polls: seq<Poll>) returns (updates: nat)
      requires Valid() && forall i :: 0 <= i < |polls| ==> PollStamped(polls[i])
      modifies this, Repr
      ensures updates == Iterations(limit, |polls|)
      ensures Valid() && State() == Rounds(old(State()), polls[..updates])
      ensures leagues == old(leagues) && running == old(running) && status == old(status)
      ensures updates == 0 ==> lastScrape == old(lastScrape)
      ensures updates > 0 ==> lastScrape == Some(polls[updates - 1].time)
    {
      ghost var start := State();
      // The rounds end when `update_count` reaches the limit or no poll is left.
      var rounds := Iterations(limit, |polls|);
      updates := 0;
      while updates < rounds
        invariant updates <= rounds
        invariant Reached(start, polls[..updates])
        invariant fresh(Repr - old(Repr))
        invariant leagues == old(leagues) && running == old(running) && status == old(status)
        invariant updates == 0 ==> lastScrape == old(lastScrape)
        invariant updates > 0 ==> lastScrape == Some(polls[updates - 1].time)
      {
        NextRound(start, polls, updates);
        updates := updates + 1;
      }
    }

    /** Round `n` of the loop, applied to the store the first `n` rounds produced. */
    method NextRound(ghost start: Store, polls: seq<Poll>, n: nat)
      requires n < |polls| && PollStamped(polls[n]) && Reached(start, polls[..n])
      modifies this, Repr
      ensures Reached(start, polls[..n + 1])
      ensures fresh(Repr - old(Repr))
      ensures leagues == old(leagues) && lastScrape == Some(polls[n].time)
      ensures running == old(running) && status == old(status)
    {
      ApplyPoll(polls[n]);
      RoundsSnoc(start, polls, n);
    }

    /**
     * The initial fetch stored: fresh event objects holding the parsed dicts,
     * and the leagues `get_all_leagues` finds in the headers, each id once.
     */
    method Load(snap: Snapshot)
      modifies this
      ensures Valid() && State() == Store(snap.live, snap.upcoming, old(oddsChanges))
      ensures fresh(Repr)
      ensures leagues == Dedup(Candidates(snap.headers)) && DistinctLeagueIds(leagues)
      ensures running == old(running) && status == old(status) && lastScrape == old(lastScrape)
    {
      leagues := GetAllLeagues(snap.headers);
      DedupDistinct(Candidates(snap.headers));
      var live := Materialize(snap.live);
      var up := Materialize(snap.upcoming);
      assert FieldsOf(live) == snap.live && FieldsOf(up) == snap.upcoming;
      SetLists(live, up, [], []);
    }

    /** The `finally` clause: the task is marked stopped and nothing else changes. */
    method Stop()
      modifies this
      ensures !running && status == "stopped"
      ensures liveEvents == old(liveEvents) && upcomingEvents == old(upcomingEvents)
      ensures leagues == old(leagues) && oddsChanges == old(oddsChanges) && lastScrape == old(lastScrape)
      ensures Repr == old(Repr)
      ensures FieldsOf(liveEvents) == old(FieldsOf(liveEvents)) && FieldsOf(upcomingEvents) == old(FieldsOf(upcomingEvents))
    {
      running, status := false, "stopped";
    }
  }
}
