/**
 * Match records of the cricket scraper and `CricketOddsScraper._detect_changes`,
 * which classifies the difference between an old and a new version of a match.
 */
module ChangeDetector {

  import opened Wrappers
  import opened OddsLadder

  /**
   * One match dict. Optional keys (`date`, `time`, `in_play`, `score`,
   * `odds`) are `None` when the dict does not hold them.
   */
  datatype Match = Match(
    id: string,
    timestamp: string,
    team1: string,
    team2: string,
    date: Option<string>,
    time: Option<string>,
    inPlay: Option<bool>,
    score: Option<seq<string>>,
    odds: Option<OddsData>)

  /** The dict `{"odds_changed", "score_changed", "status_changed"}`. */
  datatype Changes = Changes(oddsChanged: bool, scoreChanged: bool, statusChanged: bool)

  // ---------------------------------------------------------------------------
  // sorted(ladder, key=position)
  // ---------------------------------------------------------------------------

  predicate SortedByPosition(s: seq<OddEntry>) {
    forall i, j :: 0 <= i < j < |s| ==> s[i].position <= s[j].position
  }

  predicate StrictlySortedByPosition(s: seq<OddEntry>) {
    forall i, j :: 0 <= i < j < |s| ==> s[i].position < s[j].position
  }

  predicate DistinctPositions(s: seq<OddEntry>) {
    forall i, j :: 0 <= i < |s| && 0 <= j < |s| && i != j ==> s[i].position != s[j].position
  }

  /** Inserts `e` before the first entry whose position is not smaller. */
  function InsertByPosition(e: OddEntry, s: seq<OddEntry>): (r: seq<OddEntry>)
    ensures |r| == |s| + 1
    ensures multiset(r) == multiset(s) + multiset{e}
  {
    if s == [] || e.position <= s[0].position then [e] + s
    else
      assert s == [s[0]] + s[1..];
      [s[0]] + InsertByPosition(e, s[1..])
  }

  /** `sorted(ladder, key=lambda x: x.get('position', 0))`, as an insertion sort: ordered by position, same entries. */
  function SortByPosition(s: seq<OddEntry>): (r: seq<OddEntry>)
    ensures |r| == |s|
    ensures multiset(r) == multiset(s)
  {
    if s == [] then []
    else
      assert s == [s[0]] + s[1..];
      InsertByPosition(s[0], SortByPosition(s[1..]))
  }

  /** Every entry of `s` sits at position `p` or later. */
  predicate AllFrom(p: nat, s: seq<OddEntry>) {
    forall i :: 0 <= i < |s| ==> p <= s[i].position
  }

  /** Every entry of `s` sits after position `p`. */
  predicate AllAfter(p: nat, s: seq<OddEntry>) {
    forall i :: 0 <= i < |s| ==> p < s[i].position
  }

  /** No entry of `s` sits at position `p`. */
  predicate NoneAt(p: nat, s: seq<OddEntry>) {
    forall i :: 0 <= i < |s| ==> s[i].position != p
  }

  /** Inserting an entry that respects a bound keeps the bound. */
  lemma {:induction false} InsertBounds(e: OddEntry, s: seq<OddEntry>, p: nat)
    ensures AllFrom(p, s) && p <= e.position ==> AllFrom(p, InsertByPosition(e, s))
    ensures AllAfter(p, s) && p < e.position ==> AllAfter(p, InsertByPosition(e, s))
    ensures NoneAt(p, s) && e.position != p ==> NoneAt(p, InsertByPosition(e, s))
  {
    if s != [] && e.position > s[0].position {
      var rest := InsertByPosition(e, s[1..]);
      InsertBounds(e, s[1..], p);
      assert InsertByPosition(e, s) == [s[0]] + rest;
      assert forall i :: 1 <= i < |s| ==> s[1..][i - 1] == s[i];
    }
  }

  /** A sorted ladder is its first entry followed by a sorted ladder that starts no earlier. */
  lemma SortedTail(s: seq<OddEntry>)
    requires |s| > 0
    ensures SortedByPosition(s) ==> SortedByPosition(s[1..]) && AllFrom(s[0].position, s[1..])
    ensures StrictlySortedByPosition(s) ==> StrictlySortedByPosition(s[1..]) && AllAfter(s[0].position, s[1..])
  {
  }

  /** An entry put in front of a sorted ladder that starts no earlier gives a sorted ladder. */
  lemma SortedCons(x: OddEntry, r: seq<OddEntry>)
    ensures SortedByPosition(r) && AllFrom(x.position, r) ==> SortedByPosition([x] + r)
    ensures StrictlySortedByPosition(r) && AllAfter(x.position, r) ==> StrictlySortedByPosition([x] + r)
  {
    assert forall i :: 1 <= i < |r| + 1 ==> ([x] + r)[i] == r[i - 1];
  }

  lemma {:induction false} InsertKeepsSorted(e: OddEntry, s: seq<OddEntry>)
    requires SortedByPosition(s)
    ensures SortedByPosition(InsertByPosition(e, s))
  {
    if s == [] || e.position <= s[0].position {
      assert AllFrom(e.position, s);
      SortedCons(e, s);
    } else {
      SortedTail(s);
      InsertKeepsSorted(e, s[1..]);
      InsertBounds(e, s[1..], s[0].position);
      SortedCons(s[0], InsertByPosition(e, s[1..]));
    }
  }

  lemma {:induction false} InsertKeepsStrictlySorted(e: OddEntry, s: seq<OddEntry>)
    requires StrictlySortedByPosition(s) && NoneAt(e.position, s)
    ensures StrictlySortedByPosition(InsertByPosition(e, s))
  {
    if s == [] || e.position <= s[0].position {
      assert AllAfter(e.position, s);
      SortedCons(e, s);
    } else {
      SortedTail(s);
      InsertKeepsStrictlySorted(e, s[1..]);
      InsertBounds(e, s[1..], s[0].position);
      SortedCons(s[0], InsertByPosition(e, s[1..]));
    }
  }

  /** Sorting keeps a position free when the ladder leaves it free. */
  lemma {:induction false} SortNoneAt(s: seq<OddEntry>, p: nat)
    requires NoneAt(p, s)
    ensures NoneAt(p, SortByPosition(s))
  {
    if s != [] {
      SortNoneAt(s[1..], p);
      InsertBounds(s[0], SortByPosition(s[1..]), p);
    }
  }

  /** The sorted ladder is ordered by position, strictly so when the positions are distinct. */
  lemma {:induction false} SortIsSorted(s: seq<OddEntry>)
    ensures SortedByPosition(SortByPosition(s))
    ensures DistinctPositions(s) ==> StrictlySortedByPosition(SortByPosition(s))
  {
    if s != [] {
      var tail := SortByPosition(s[1..]);
      SortIsSorted(s[1..]);
      InsertKeepsSorted(s[0], tail);
      if DistinctPositions(s) {
        assert DistinctPositions(s[1..]) by {
          forall i, j | 0 <= i < |s[1..]| && 0 <= j < |s[1..]| && i != j
            ensures s[1..][i].position != s[1..][j].position
          {
            assert s[1..][i] == s[i + 1] && s[1..][j] == s[j + 1];
          }
        }
        assert NoneAt(s[0].position, s[1..]) by {
          forall i | 0 <= i < |s[1..]| ensures s[1..][i].position != s[0].position {
            assert s[1..][i] == s[i + 1];
          }
        }
        SortNoneAt(s[1..], s[0].position);
        InsertKeepsStrictlySorted(s[0], tail);
      }
    }
  }

  /** Two sorted arrangements of the same entries, one strictly sorted, start with the same entry. */
  lemma HeadsAgree(s: seq<OddEntry>, t: seq<OddEntry>)
    requires StrictlySortedByPosition(s) && SortedByPosition(t)
    requires multiset(s) == multiset(t) && |s| > 0 && |t| > 0
    ensures s[0] == t[0]
  {
    assert s[0] in multiset(t);
    var j :| 0 <= j < |t| && t[j] == s[0];
    assert t[0] in multiset(s);
    var k :| 0 <= k < |s| && s[k] == t[0];
    assert t[0].position <= t[j].position;
    assert s[0].position <= s[k].position;
    assert s[k].position == s[0].position;
    assert k == 0;
  }

  /** Removing the same first entry from two arrangements of the same entries leaves arrangements of the same entries. */
  lemma TailsAgree(s: seq<OddEntry>, t: seq<OddEntry>)
    requires multiset(s) == multiset(t) && |s| > 0 && |t| > 0 && s[0] == t[0]
    ensures multiset(s[1..]) == multiset(t[1..])
  {
    assert s == [s[0]] + s[1..] && t == [t[0]] + t[1..];
    assert multiset(s[1..]) == multiset(s) - multiset{s[0]};
    assert multiset(t[1..]) == multiset(t) - multiset{t[0]};
  }

  /** A strictly sorted ladder is the only sorted arrangement of its entries. */
  lemma {:induction false} SortedArrangementUnique(s: seq<OddEntry>, t: seq<OddEntry>)
    requires StrictlySortedByPosition(s) && SortedByPosition(t)
    requires multiset(s) == multiset(t)
    ensures s == t
  {
    assert |t| == |multiset(t)| == |multiset(s)| == |s|;
    if |s| > 0 {
      HeadsAgree(s, t);
      TailsAgree(s, t);
      SortedTail(s);
      SortedTail(t);
      SortedArrangementUnique(s[1..], t[1..]);
      assert s == [s[0]] + s[1..] && t == [t[0]] + t[1..];
    }
  }

  // ---------------------------------------------------------------------------
  // Comparing two ladders
  // ---------------------------------------------------------------------------

  /** The `zip` loop: some pair of entries, taken in order, differs in price. */
  predicate PricesDiffer(a: seq<OddEntry>, b: seq<OddEntry>)
    requires |a| == |b|
  {
    |a| > 0 && (a[0].price != b[0].price || PricesDiffer(a[1..], b[1..]))
  }

  /** One side of the odds check: lengths differ, or the position-sorted prices do. */
  predicate SideChanged(oldSide: seq<OddEntry>, newSide: seq<OddEntry>) {
    var o := SortByPosition(oldSide);
    var n := SortByPosition(newSide);
    |o| != |n| || PricesDiffer(o, n)
  }

  /** `_detect_changes(old_match, new_match)` */
  function DetectChanges(oldMatch: Match, newMatch: Match): Changes {
    var oldOdds := oldMatch.odds.GetOr(NoOdds);
    var newOdds := newMatch.odds.GetOr(NoOdds);
    Changes(
      oddsChanged := SideChanged(oldOdds.back, newOdds.back) || SideChanged(oldOdds.lay, newOdds.lay),
      scoreChanged := oldMatch.score != newMatch.score,
      statusChanged := oldMatch.inPlay != newMatch.inPlay)
  }

  // ---------------------------------------------------------------------------
  // What the verdict means
  // ---------------------------------------------------------------------------

  /** Reference reading of one side: the sorted ladders differ in length or at some index in price. */
  ghost predicate SideDiffers(oldSide: seq<OddEntry>, newSide: seq<OddEntry>) {
    var o := SortByPosition(oldSide);
    var n := SortByPosition(newSide);
    |o| != |n| || exists i :: 0 <= i < |o| && o[i].price != n[i].price
  }

  lemma {:induction false} PricesDifferIff(a: seq<OddEntry>, b: seq<OddEntry>)
    requires |a| == |b|
    ensures PricesDiffer(a, b) <==> exists i :: 0 <= i < |a| && a[i].price != b[i].price
  {
    if |a| > 0 {
      PricesDifferIff(a[1..], b[1..]);
      if exists i :: 0 <= i < |a| && a[i].price != b[i].price {
        var i :| 0 <= i < |a| && a[i].price != b[i].price;
        if i > 0 {
          assert a[1..][i - 1].price != b[1..][i - 1].price;
        }
      }
      if exists i :: 0 <= i < |a| - 1 && a[1..][i].price != b[1..][i].price {
        var i :| 0 <= i < |a| - 1 && a[1..][i].price != b[1..][i].price;
        assert a[i + 1].price != b[i + 1].price;
      }
    }
  }

  lemma SideChangedMeaning(oldSide: seq<OddEntry>, newSide: seq<OddEntry>)
    ensures SideChanged(oldSide, newSide) <==> SideDiffers(oldSide, newSide)
  {
    var o := SortByPosition(oldSide);
    var n := SortByPosition(newSide);
    if |o| == |n| {
      PricesDifferIff(o, n);
    }
  }

  /**
   * The three flags of `_detect_changes`: status iff `in_play` differs, score iff
   * the score values differ (present versus absent included), odds iff the
   * back sides or the lay sides differ. A missing odds dict reads as two empty sides.
   */
  lemma DetectChangesMeaning(oldMatch: Match, newMatch: Match)
    ensures var c := DetectChanges(oldMatch, newMatch);
      && (c.statusChanged <==> oldMatch.inPlay != newMatch.inPlay)
      && (c.scoreChanged <==> oldMatch.score != newMatch.score)
      && (c.oddsChanged <==>
            SideDiffers(oldMatch.odds.GetOr(NoOdds).back, newMatch.odds.GetOr(NoOdds).back) ||
            SideDiffers(oldMatch.odds.GetOr(NoOdds).lay, newMatch.odds.GetOr(NoOdds).lay))
  {
    var o := oldMatch.odds.GetOr(NoOdds);
    var n := newMatch.odds.GetOr(NoOdds);
    SideChangedMeaning(o.back, n.back);
    SideChangedMeaning(o.lay, n.lay);
  }

  /** A match compared with itself shows no change. */
  lemma DetectChangesReflexive(m: Match)
    ensures DetectChanges(m, m) == Changes(false, false, false)
  {
    var o := m.odds.GetOr(NoOdds);
    PricesDifferIff(SortByPosition(o.back), SortByPosition(o.back));
    PricesDifferIff(SortByPosition(o.lay), SortByPosition(o.lay));
  }

  // ---------------------------------------------------------------------------
  // Volume is never consulted
  // ---------------------------------------------------------------------------

  /** The same ladder with every volume dropped: each entry keeps its position and price, and has no volume. */
  function WithoutVolumes(s: seq<OddEntry>): (r: seq<OddEntry>)
    ensures |r| == |s|
    ensures forall i :: 0 <= i < |s| ==>
      r[i].position == s[i].position && r[i].price == s[i].price && r[i].volume.None?
  {
    seq(|s|, i requires 0 <= i < |s| => s[i].(volume := None))
  }

  /** Two ladders look alike without volumes exactly when they agree entry by entry on position and price. */
  lemma SameUpToVolumes(a: seq<OddEntry>, b: seq<OddEntry>)
    ensures WithoutVolumes(a) == WithoutVolumes(b) <==>
      |a| == |b| && forall i :: 0 <= i < |a| ==> a[i].position == b[i].position && a[i].price == b[i].price
  {
    if |a| == |b| && forall i :: 0 <= i < |a| ==> a[i].position == b[i].position && a[i].price == b[i].price {
      var wa := WithoutVolumes(a);
      var wb := WithoutVolumes(b);
      forall i | 0 <= i < |a| ensures wa[i] == wb[i] {
        assert wa[i] == OddEntry(a[i].position, a[i].price, None);
      }
    }
  }

  function OddsWithoutVolumes(o: OddsData): OddsData {
    OddsData(WithoutVolumes(o.back), WithoutVolumes(o.lay))
  }

  lemma WithoutVolumesCons(x: OddEntry, r: seq<OddEntry>)
    ensures WithoutVolumes([x] + r) == [x.(volume := None)] + WithoutVolumes(r)
  {
    assert forall i :: 1 <= i < |r| + 1 ==> ([x] + r)[i] == r[i - 1];
  }

  lemma {:induction false} InsertWithoutVolumes(e: OddEntry, s: seq<OddEntry>)
    ensures InsertByPosition(e.(volume := None), WithoutVolumes(s)) == WithoutVolumes(InsertByPosition(e, s))
  {
    var w := WithoutVolumes(s);
    if s == [] || e.position <= s[0].position {
      WithoutVolumesCons(e, s);
    } else {
      var rest := InsertByPosition(e, s[1..]);
      assert w[1..] == WithoutVolumes(s[1..]);
      InsertWithoutVolumes(e, s[1..]);
      WithoutVolumesCons(s[0], rest);
    }
  }

  lemma {:induction false} SortWithoutVolumes(s: seq<OddEntry>)
    ensures SortByPosition(WithoutVolumes(s)) == WithoutVolumes(SortByPosition(s))
  {
    if s != [] {
      assert WithoutVolumes(s)[1..] == WithoutVolumes(s[1..]);
      SortWithoutVolumes(s[1..]);
      InsertWithoutVolumes(s[0], SortByPosition(s[1..]));
    }
  }

  lemma SideChangedIgnoresVolume(a: seq<OddEntry>, b: seq<OddEntry>)
    ensures SideChanged(a, WithoutVolumes(b)) == SideChanged(a, b)
  {
    SortWithoutVolumes(b);
    var o := SortByPosition(a);
    var n := SortByPosition(b);
    var nv := SortByPosition(WithoutVolumes(b));
    if |o| == |n| {
      PricesDifferIff(o, n);
      PricesDifferIff(o, nv);
    }
  }

  /** Dropping every volume of the new match never changes the verdict. */
  lemma DetectChangesIgnoresVolume(oldMatch: Match, newMatch: Match)
    requires newMatch.odds.Some?
    ensures DetectChanges(oldMatch, newMatch.(odds := Some(OddsWithoutVolumes(newMatch.odds.value))))
         == DetectChanges(oldMatch, newMatch)
  {
    var o := oldMatch.odds.GetOr(NoOdds);
    var n := newMatch.odds.value;
    SideChangedIgnoresVolume(o.back, n.back);
    SideChangedIgnoresVolume(o.lay, n.lay);
  }

  /** A side compared with itself never reads as changed. */
  lemma SideChangedIrreflexive(side: seq<OddEntry>)
    ensures !SideChanged(side, side)
  {
    var o := SortByPosition(side);
    PricesDifferIff(o, o);
  }

  /**
   * Two odds dicts that differ only in volumes never set the odds flag, even
   * though `update_global_state` sees two different dicts.
   */
  lemma VolumeOnlyDifferenceNotFlagged(oldMatch: Match, newMatch: Match)
    requires oldMatch.odds.Some? && newMatch.odds.Some?
    requires OddsWithoutVolumes(oldMatch.odds.value) == OddsWithoutVolumes(newMatch.odds.value)
    ensures !DetectChanges(oldMatch, newMatch).oddsChanged
  {
    var o := oldMatch.odds.value;
    var n := newMatch.odds.value;
    SideChangedIgnoresVolume(o.back, n.back);
    SideChangedIgnoresVolume(o.back, o.back);
    SideChangedIrreflexive(o.back);
    SideChangedIgnoresVolume(o.lay, n.lay);
    SideChangedIgnoresVolume(o.lay, o.lay);
    SideChangedIrreflexive(o.lay);
  }

  // ---------------------------------------------------------------------------
  // Entry order within a ladder does not matter
  // ---------------------------------------------------------------------------

  /** Shuffling a ladder whose positions are distinct leaves its sorted form as it is. */
  lemma SortShuffleInvariant(s: seq<OddEntry>, t: seq<OddEntry>)
    requires DistinctPositions(s)
    requires multiset(s) == multiset(t)
    ensures SortByPosition(s) == SortByPosition(t)
  {
    SortIsSorted(s);
    SortIsSorted(t);
    SortedArrangementUnique(SortByPosition(s), SortByPosition(t));
  }

  /**
   * Reordering the entries of the new match's back and lay ladders (positions
   * distinct) does not change any flag.
   */
  lemma DetectChangesShuffleInvariant(oldMatch: Match, newMatch: Match, back: seq<OddEntry>, lay: seq<OddEntry>)
    requires newMatch.odds.Some?
    requires DistinctPositions(newMatch.odds.value.back) && multiset(back) == multiset(newMatch.odds.value.back)
    requires DistinctPositions(newMatch.odds.value.lay) && multiset(lay) == multiset(newMatch.odds.value.lay)
    ensures DetectChanges(oldMatch, newMatch.(odds := Some(OddsData(back, lay)))) == DetectChanges(oldMatch, newMatch)
  {
    SortShuffleInvariant(newMatch.odds.value.back, back);
    SortShuffleInvariant(newMatch.odds.value.lay, lay);
  }
}
