/**
 * `XbetScraper.update_match_odds`: merging a freshly parsed event record into
 * the stored event dict in place, and reporting whether a score, a status or
 * an `odd_*` value is new or different.
 *
 * An event is a heap object holding a dictionary, because the stored lists
 * share these objects and the merge writes through them.
 */
module EventMerge {

  /** The values an event dict holds: text (ids, names, prices, scores), lists of texts, flags. */
  datatype Value = Text(text: string) | Texts(items: seq<string>) | Flag(flag: bool)

  type Fields = map<string, Value>

  /** A stored or freshly parsed event dict. */
  class Event {
    var fields: Fields

    constructor (f: Fields)
      ensures fields == f
    {
      fields := f;
    }
  }

  /** `key.startswith('odd_')` */
  predicate IsOddsKey(k: string) {
    "odd_" <= k
  }

  /** The keys whose change makes `update_match_odds` return `True`. */
  predicate Tracked(k: string) {
    k == "score" || k == "status" || IsOddsKey(k)
  }

  /** Keys the generic loop skips because they were handled before it, or must not be copied. */
  predicate Skipped(k: string) {
    k == "timestamp" || k == "score" || k == "scores" || k == "status" || k == "match_id"
  }

  /** `e` with the keys `ks` taken from `n`. */
  function Overlay(e: Fields, n: Fields, ks: set<string>): Fields
    requires ks <= n.Keys
  {
    map k | k in e.Keys + ks :: if k in ks then n[k] else e[k]
  }

  /** Reference result of the merge: every key of the new record except `match_id` copied over. */
  function Merged(e: Fields, n: Fields): Fields {
    Overlay(e, n, n.Keys - {"match_id"})
  }

  /** Some key among `ks` is tracked and is missing from, or different in, `e`. */
  predicate ReportedAmong(e: Fields, n: Fields, ks: set<string>)
    requires ks <= n.Keys
  {
    exists k :: k in ks && Tracked(k) && (k !in e || e[k] != n[k])
  }

  /** Reference result of the flag: a tracked key of the new record is missing or different. */
  predicate ChangeReported(e: Fields, n: Fields) {
    ReportedAmong(e, n, n.Keys)
  }

  /** The keys the loop has written once `done` has been iterated. */
  function WrittenKeys(n: Fields, done: set<string>): set<string> {
    (n.Keys * {"timestamp", "score", "scores", "status"}) + set k | k in done && !Skipped(k)
  }

  /** The keys whose difference the flag has accounted for once `done` has been iterated. */
  function FlaggedKeys(n: Fields, done: set<string>): set<string> {
    (n.Keys * {"score", "status"}) + set k | k in done && !Skipped(k)
  }

  lemma MatchIdNotTracked()
    ensures !Tracked("match_id")
  {
    assert "match_id"[0] != "odd_"[0];
  }

  /** One iteration of the generic loop, on the keys written. */
  lemma WrittenStep(e0: Fields, n: Fields, done: set<string>, k: string)
    requires k in n && k !in done && done <= n.Keys
    ensures Skipped(k) ==> Overlay(e0, n, WrittenKeys(n, done + {k})) == Overlay(e0, n, WrittenKeys(n, done))
    ensures !Skipped(k) ==> k !in WrittenKeys(n, done)
    ensures !Skipped(k) ==> Overlay(e0, n, WrittenKeys(n, done + {k})) == Overlay(e0, n, WrittenKeys(n, done))[k := n[k]]
  {
    if Skipped(k) {
      assert WrittenKeys(n, done + {k}) == WrittenKeys(n, done);
    } else {
      assert WrittenKeys(n, done + {k}) == WrittenKeys(n, done) + {k};
    }
  }

  /** One iteration of the generic loop, on the flag. */
  lemma FlaggedStep(e0: Fields, n: Fields, done: set<string>, k: string)
    requires k in n && k !in done && done <= n.Keys
    ensures ReportedAmong(e0, n, FlaggedKeys(n, done + {k})) ==
      (ReportedAmong(e0, n, FlaggedKeys(n, done)) || (!Skipped(k) && IsOddsKey(k) && (k !in e0 || e0[k] != n[k])))
  {
    if Skipped(k) {
      assert FlaggedKeys(n, done + {k}) == FlaggedKeys(n, done);
    } else {
      assert FlaggedKeys(n, done + {k}) == FlaggedKeys(n, done) + {k};
      assert Tracked(k) <==> IsOddsKey(k);
    }
  }

  /** Once every key has been iterated, the written and flagged keys are those of the reference results. */
  lemma LoopDone(e0: Fields, n: Fields)
    ensures WrittenKeys(n, n.Keys) == n.Keys - {"match_id"}
    ensures ReportedAmong(e0, n, FlaggedKeys(n, n.Keys)) == ReportedAmong(e0, n, n.Keys)
  {
    MatchIdNotTracked();
    assert FlaggedKeys(n, n.Keys) <= n.Keys;
    if ReportedAmong(e0, n, n.Keys) {
      var k :| k in n.Keys && Tracked(k) && (k !in e0 || e0[k] != n[k]);
      assert k in FlaggedKeys(n, n.Keys);
    }
  }

  /** `m` with key `k` copied from `n` when `n` has it. */
  function Put(m: Fields, n: Fields, k: string): Fields {
    if k in n then m[k := n[k]] else m
  }

  /** The four fixed steps, in effect, copy those of the four keys the new record has. */
  lemma HeadWritten(e0: Fields, n: Fields)
    requires "timestamp" in n
    ensures Put(Put(Put(Put(e0, n, "timestamp"), n, "score"), n, "scores"), n, "status")
         == Overlay(e0, n, WrittenKeys(n, {}))
  {
    var ks := WrittenKeys(n, {});
    assert ks == n.Keys * {"timestamp", "score", "scores", "status"};
  }

  /** Before the loop the flag accounts for the score and the status. */
  lemma HeadFlagged(e0: Fields, n: Fields)
    ensures ReportedAmong(e0, n, FlaggedKeys(n, {})) ==
      (("score" in n && ("score" !in e0 || e0["score"] != n["score"])) ||
       ("status" in n && ("status" !in e0 || e0["status"] != n["status"])))
  {
    assert FlaggedKeys(n, {}) == n.Keys * {"score", "status"};
  }

  /** The timestamp, score, scores and status steps that precede the generic loop. */
  method UpdateHandledKeys(existing: Event, incoming: Fields) returns (changed: bool)
    requires "timestamp" in incoming
    modifies existing
    ensures existing.fields == Overlay(old(existing.fields), incoming, WrittenKeys(incoming, {}))
    ensures changed == ReportedAmong(old(existing.fields), incoming, FlaggedKeys(incoming, {}))
  {
    ghost var e0 := existing.fields;
    HeadWritten(e0, incoming);
    HeadFlagged(e0, incoming);
    changed := false;
    existing.fields := existing.fields["timestamp" := incoming["timestamp"]];
    assert existing.fields == Put(e0, incoming, "timestamp");
    if "score" in incoming {
      if "score" !in existing.fields || existing.fields["score"] != incoming["score"] {
        existing.fields := existing.fields["score" := incoming["score"]];
        changed := true;
      }
    }
    assert existing.fields == Put(Put(e0, incoming, "timestamp"), incoming, "score");
    if "scores" in incoming {
      if "scores" !in existing.fields || existing.fields["scores"] != incoming["scores"] {
        existing.fields := existing.fields["scores" := incoming["scores"]];
      }
    }
    assert existing.fields == Put(Put(Put(e0, incoming, "timestamp"), incoming, "score"), incoming, "scores");
    assert "status" in existing.fields <==> "status" in e0;
    assert "status" in e0 ==> existing.fields["status"] == e0["status"];
    if "status" in incoming && ("status" !in existing.fields || existing.fields["status"] != incoming["status"]) {
      existing.fields := existing.fields["status" := incoming["status"]];
      changed := true;
    }

  }

  /**
   * `update_match_odds(existing_match, new_match)`. Python raises `KeyError`
   * when the new record has no timestamp, so the caller must supply one.
   */
  method UpdateMatchOdds(existing: Event, incoming: Fields) returns (changed: bool)
    requires "timestamp" in incoming
    modifies existing
    ensures existing.fields == Merged(old(existing.fields), incoming)
    ensures changed == ChangeReported(old(existing.fields), incoming)
  {
    ghost var e0 := existing.fields;
    changed := UpdateHandledKeys(existing, incoming);
    var pending := incoming.Keys;
    ghost var done: set<string> := {};
    while pending != {}
      invariant pending + done == incoming.Keys && pending !! done
      invariant existing.fields == Overlay(e0, incoming, WrittenKeys(incoming, done))
      invariant changed == ReportedAmong(e0, incoming, FlaggedKeys(incoming, done))
      decreases pending
    {
      var k :| k in pending;
      WrittenStep(e0, incoming, done, k);
      FlaggedStep(e0, incoming, done, k);
      if !Skipped(k) {
        assert k in existing.fields <==> k in e0;
        assert k in e0 ==> existing.fields[k] == e0[k];
        if IsOddsKey(k) {
          if k !in existing.fields || existing.fields[k] != incoming[k] {
            existing.fields := existing.fields[k := incoming[k]];
            changed := true;
          }
        } else if k !in existing.fields || existing.fields[k] != incoming[k] {
          existing.fields := existing.fields[k := incoming[k]];
        }
      }
      pending := pending - {k};
      done := done + {k};
    }
    LoopDone(e0, incoming);
  }

  // ---------------------------------------------------------------------------
  // What the merge guarantees
  // ---------------------------------------------------------------------------

  /**
   * After the merge the event agrees with the new record on all its keys but
   * `match_id`, keeps every key the new record lacks, and never touches `match_id`.
   */
  lemma MergedAgreement(e: Fields, n: Fields)
    ensures var m := Merged(e, n);
      && m.Keys == e.Keys + (n.Keys - {"match_id"})
      && (forall k :: k in n && k != "match_id" ==> m[k] == n[k])
      && (forall k :: k in e && k !in n ==> m[k] == e[k])
      && ("match_id" in m <==> "match_id" in e)
      && ("match_id" in e ==> m["match_id"] == e["match_id"])
  {
  }

  /** Merging the same record again changes nothing. */
  lemma MergeIdempotent(e: Fields, n: Fields)
    ensures Merged(Merged(e, n), n) == Merged(e, n)
  {
    var m := Merged(e, n);
    assert Merged(m, n).Keys == m.Keys;
  }

  /** A second `update_match_odds` with the same record reports no change. */
  lemma SecondUpdateReportsNothing(e: Fields, n: Fields)
    ensures !ChangeReported(Merged(e, n), n)
  {
    var m := Merged(e, n);
    MatchIdNotTracked();
  }

  /**
   * A new record that differs from the stored one only outside the score,
   * the status and the `odd_*` keys (its `scores` list or timestamp, say) is
   * merged in but reported as no change.
   */
  lemma UntrackedDifferencesNotReported(e: Fields, n: Fields)
    requires forall k :: k in n && Tracked(k) ==> k in e && e[k] == n[k]
    ensures !ChangeReported(e, n)
    ensures forall k :: k in n && !Tracked(k) && k != "match_id" ==> Merged(e, n)[k] == n[k]
  {
  }
}
