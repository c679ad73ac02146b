/**
 * `XbetScraper.get_sport_name` and `XbetScraper.get_all_leagues`: naming the
 * sport of a league header, building one league record per header, and
 * keeping only the first league of each `league_id`.
 *
 * The page is given as the sequence of its league headers, each reduced to
 * the attributes the code reads.
 */
module Leagues {

  import opened Wrappers

  /** `sport_mapping.get(sport_id, f"Sport {sport_id}")` */
  function GetSportName(sportId: string): (name: string) {
    if sportId == "1" then "Football"
    else if sportId == "2" then "Ice Hockey"
    else if sportId == "3" then "Basketball"
    else if sportId == "4" then "Tennis"
    else if sportId == "10" then "Table Tennis"
    else if sportId == "66" then "Cricket"
    else if sportId == "85" then "FIFA"
    else if sportId == "95" then "Volleyball"
    else if sportId == "17" then "Hockey"
    else if sportId == "29" then "Baseball"
    else if sportId == "107" then "Darts"
    else if sportId == "128" then "Handball"
    else "Sport " + sportId
  }

  /** The `sport_mapping` dict, as a table. */
  const SportTable: map<string, string> := map[
    "1" := "Football", "2" := "Ice Hockey", "3" := "Basketball", "4" := "Tennis",
    "10" := "Table Tennis", "66" := "Cricket", "85" := "FIFA", "95" := "Volleyball",
    "17" := "Hockey", "29" := "Baseball", "107" := "Darts", "128" := "Handball"]

  predicate KnownSport(sportId: string) {
    sportId in SportTable
  }

  /**
   * A known id gets its name from the table, and none of those names starts
   * with `S`; any other id is named `Sport <id>`.
   */
  lemma SportNameCases(sportId: string)
    ensures KnownSport(sportId) ==> GetSportName(sportId) == SportTable[sportId]
    ensures KnownSport(sportId) ==> |GetSportName(sportId)| > 0 && GetSportName(sportId)[0] != 'S'
    ensures !KnownSport(sportId) ==> GetSportName(sportId) == "Sport " + sportId
  {
  }

  /** Different sport ids never share a name. */
  lemma {:induction false} SportNameInjective(a: string, b: string)
    requires GetSportName(a) == GetSportName(b)
    ensures a == b
  {
    SportNameCases(a);
    SportNameCases(b);
    if !KnownSport(a) && !KnownSport(b) {
      assert "Sport " + a == "Sport " + b;
      assert a == ("Sport " + a)[6..];
    }
  }

  // ---------------------------------------------------------------------------
  // Text helpers
  // ---------------------------------------------------------------------------

  /** `s.split(c)[-1]`: the text after the last `c`, or all of `s` without one. */
  function AfterLast(s: string, c: char): (r: string)
    decreases |s|
  {
    if s == [] then []
    else if s[|s| - 1] == c then []
    else AfterLast(s[..|s| - 1], c) + [s[|s| - 1]]
  }

  /** The text after the last `c` is a suffix of `s` free of `c`, and preceded by `c` unless it is all of `s`. */
  lemma {:induction false} AfterLastSuffix(s: string, c: char)
    ensures var r := AfterLast(s, c);
      && |r| <= |s| && s[|s| - |r|..] == r
      && c !in r
      && (|r| < |s| ==> s[|s| - |r| - 1] == c)
    decreases |s|
  {
    if s != [] && s[|s| - 1] != c {
      var n := |s| - 1;
      AfterLastSuffix(s[..n], c);
      var r' := AfterLast(s[..n], c);
      assert s[..n][n - |r'|..] == r';
      assert s[|s| - |r'| - 1..] == s[..n][n - |r'|..] + [s[n]];
    }
  }

  /** `s.replace(pattern, '')`: every occurrence found scanning left to right is removed. */
  function RemoveAll(s: string, pattern: string): (r: string)
    requires pattern != []
    decreases |s|
  {
    if s == [] then []
    else if pattern <= s then RemoveAll(s[|pattern|..], pattern)
    else [s[0]] + RemoveAll(s[1..], pattern)
  }

  /** A text without the pattern is returned unchanged, and a leading occurrence is dropped. */
  lemma {:induction false} RemoveAllFacts(s: string, pattern: string)
    requires pattern != []
    ensures (forall i :: 0 <= i <= |s| ==> !(pattern <= s[i..])) ==> RemoveAll(s, pattern) == s
    ensures RemoveAll(pattern + s, pattern) == RemoveAll(s, pattern)
    decreases |s|
  {
    assert (pattern + s)[|pattern|..] == s;
    if s != [] && forall i :: 0 <= i <= |s| ==> !(pattern <= s[i..]) {
      assert s[0..] == s;
      assert forall i :: 0 <= i <= |s| - 1 ==> s[1..][i..] == s[i + 1..];
      RemoveAllFacts(s[1..], pattern);
    }
  }

  /**
   * Python's `str.isspace` on one character: the ASCII controls `\t` to `\r`
   * and `\x1c` to `\x1f`, the space, and the Unicode separators and spaces.
   */
  predicate IsSpace(c: char) {
    || ('\U{0009}' <= c <= '\U{000D}')
    || ('\U{001C}' <= c <= '\U{0020}')
    || c == '\U{0085}' || c == '\U{00A0}' || c == '\U{1680}'
    || ('\U{2000}' <= c <= '\U{200A}')
    || c == '\U{2028}' || c == '\U{2029}' || c == '\U{202F}' || c == '\U{205F}' || c == '\U{3000}'
  }

  /** `str.strip()`: drops whitespace at both ends. */
  function Strip(s: string): (r: string)
    decreases |s|
  {
    if s != [] && IsSpace(s[0]) then Strip(s[1..])
    else if s != [] && IsSpace(s[|s| - 1]) then Strip(s[..|s| - 1])
    else s
  }

  /** `r` is `s[i..j]` with only whitespace cut off before `i` and after `j`. */
  ghost predicate StrippedAt(s: string, r: string, i: int, j: int) {
    && 0 <= i <= j <= |s| && r == s[i..j]
    && (forall k :: 0 <= k < i ==> IsSpace(s[k]))
    && (forall k :: j <= k < |s| ==> IsSpace(s[k]))
  }

  /** A whitespace character in front of a stripped slice is cut off with it. */
  lemma StrippedAfterSpace(s: string, r: string, i: int, j: int)
    requires s != [] && IsSpace(s[0]) && StrippedAt(s[1..], r, i, j)
    ensures StrippedAt(s, r, i + 1, j + 1)
  {
    var t := s[1..];
    assert t[i..j] == s[i + 1..j + 1];
    forall k | 1 <= k < i + 1 || j + 1 <= k < |s|
      ensures IsSpace(s[k])
    {
      assert s[k] == t[k - 1];
    }
  }

  /** A whitespace character behind a stripped slice is cut off with it. */
  lemma StrippedBeforeSpace(s: string, r: string, i: int, j: int)
    requires s != [] && IsSpace(s[|s| - 1]) && StrippedAt(s[..|s| - 1], r, i, j)
    ensures StrippedAt(s, r, i, j)
  {
    var t := s[..|s| - 1];
    assert t[i..j] == s[i..j];
    forall k | 0 <= k < i || j <= k < |s| - 1
      ensures IsSpace(s[k])
    {
      assert s[k] == t[k];
    }
  }

  /**
   * The stripped text is a slice of the text with no whitespace at either
   * end, and everything cut off on either side is whitespace.
   */
  lemma {:induction false} StripTrims(s: string)
    ensures exists i, j :: StrippedAt(s, Strip(s), i, j)
    ensures Strip(s) != [] ==> !IsSpace(Strip(s)[0]) && !IsSpace(Strip(s)[|Strip(s)| - 1])
    decreases |s|
  {
    var r := Strip(s);
    if s != [] && IsSpace(s[0]) {
      StripTrims(s[1..]);
      var i, j :| StrippedAt(s[1..], r, i, j);
      StrippedAfterSpace(s, r, i, j);
    } else if s != [] && IsSpace(s[|s| - 1]) {
      StripTrims(s[..|s| - 1]);
      var i, j :| StrippedAt(s[..|s| - 1], r, i, j);
      StrippedBeforeSpace(s, r, i, j);
    } else {
      assert r == s == s[0..|s|];
      assert StrippedAt(s, r, 0, |s|);
    }
  }

  // ---------------------------------------------------------------------------
  // Headers and league records
  // ---------------------------------------------------------------------------

  /** The `.c-events__liga` link of a header: its text and its `href`, if any. */
  datatype Liga = Liga(text: string, href: Option<string>)

  /**
   * One `.c-events__item_head`: the league link, the `xlink:href` of the
   * sport icon and of the flag icon, the logo `src`, and whether the header
   * sits inside the top-champions banner.
   */
  datatype Header = Header(
    liga: Option<Liga>,
    sportIcon: Option<string>,
    flagIcon: Option<string>,
    logoSrc: Option<string>,
    inTopBanner: bool)

  /** One league record; `isTopEvent` false stands for the absent key. */
  datatype League = League(
    name: string,
    url: string,
    sport: string,
    country: string,
    leagueId: string,
    logoUrl: Option<string>,
    isTopEvent: bool)

  /** `sport_icon['xlink:href'].split('#')[-1].replace('sports_', '')`, or `"Unknown"` without an icon. */
  function SportType(icon: Option<string>): string {
    match icon
    case None => "Unknown"
    case Some(href) => RemoveAll(AfterLast(href, '#'), "sports_")
  }

  /** `country_element['xlink:href'].split('#')[-1]`, or `"International"` without a flag. */
  function Country(flag: Option<string>): string {
    match flag
    case None => "International"
    case Some(href) => AfterLast(href, '#')
  }

  /** The record built from one header; a header without a league link yields none. */
  function LeagueOf(h: Header): (r: Option<League>) {
    match h.liga
    case None => None
    case Some(liga) =>
      var name := Strip(liga.text);
      var sport := GetSportName(SportType(h.sportIcon));
      Some(League(name, liga.href.GetOr(""), sport, Country(h.flagIcon), sport + "_" + name, h.logoSrc, h.inTopBanner))
  }

  /**
   * A header without a sport icon gives `Sport Unknown`, one without a flag
   * `International`, and the league name has no whitespace at either end.
   */
  lemma LeagueIdShape(h: Header)
    requires h.liga.Some?
    ensures var l := LeagueOf(h).value;
      && (h.sportIcon.None? ==> l.sport == "Sport Unknown")
      && (h.flagIcon.None? ==> l.country == "International")
      && (l.name != [] ==> !IsSpace(l.name[0]) && !IsSpace(l.name[|l.name| - 1]))
  {
    var name := Strip(h.liga.value.text);
    StripTrims(h.liga.value.text);
    assert LeagueOf(h).value.name == name;
    if h.sportIcon.None? {
      assert SportType(h.sportIcon) == "Unknown";
      SportNameCases("Unknown");
    }
  }

  /**
   * Two linked headers with the same sport icon get the same league id
   * exactly when their link texts strip to the same name: within a sport,
   * de-duplication by id is de-duplication by stripped name.
   */
  lemma SameSportLeagueIds(h1: Header, h2: Header)
    requires h1.liga.Some? && h2.liga.Some? && h1.sportIcon == h2.sportIcon
    ensures LeagueOf(h1).value.leagueId == LeagueOf(h2).value.leagueId
        <==> Strip(h1.liga.value.text) == Strip(h2.liga.value.text)
  {
    var sport := GetSportName(SportType(h1.sportIcon));
    var n1, n2 := Strip(h1.liga.value.text), Strip(h2.liga.value.text);
    if sport + "_" + n1 == sport + "_" + n2 {
      assert n1 == (sport + "_" + n1)[|sport| + 1..];
      assert n2 == (sport + "_" + n2)[|sport| + 1..];
    }
  }

  /** The records of the headers that have a league link, in page order. */
  function Candidates(headers: seq<Header>): (cs: seq<League>)
    ensures |cs| <= |headers|
  {
    if headers == [] then []
    else
      var n := |headers| - 1;
      var rest := Candidates(headers[..n]);
      match LeagueOf(headers[n])
      case None => rest
      case Some(l) => rest + [l]
  }

  predicate HasId(ls: seq<League>, id: string) {
    exists l :: l in ls && l.leagueId == id
  }

  /** The fold of the loop: a record is appended unless an earlier kept one has its id. */
  function Dedup(cs: seq<League>): seq<League> {
    if cs == [] then []
    else
      var n := |cs| - 1;
      var rest := Dedup(cs[..n]);
      if HasId(rest, cs[n].leagueId) then rest else rest + [cs[n]]
  }

  // ---------------------------------------------------------------------------
  // The loops
  // ---------------------------------------------------------------------------

  /** `any(l['league_id'] == league_id for l in leagues)` */
  method AnyWithId(leagues: seq<League>, id: string) returns (found: bool)
    ensures found <==> HasId(leagues, id)
  {
    var i := 0;
    while i < |leagues|
      invariant 0 <= i <= |leagues|
      invariant forall k :: 0 <= k < i ==> leagues[k].leagueId != id
    {
      if leagues[i].leagueId == id {
        return true;
      }
      i := i + 1;
    }
    return false;
  }

  /** `get_all_leagues` over the parsed headers of a page. */
  method GetAllLeagues(headers: seq<Header>) returns (leagues: seq<League>)
    ensures leagues == Dedup(Candidates(headers))
  {
    leagues := [];
    var i := 0;
    while i < |headers|
      invariant 0 <= i <= |headers|
      invariant leagues == Dedup(Candidates(headers[..i]))
    {
      assert headers[..i + 1][..i] == headers[..i];
      var candidate := LeagueOf(headers[i]);
      if candidate.Some? {
        var l := candidate.value;
        assert Candidates(headers[..i + 1]) == Candidates(headers[..i]) + [l];
        assert (Candidates(headers[..i]) + [l])[..|Candidates(headers[..i])|] == Candidates(headers[..i]);
        var seen := AnyWithId(leagues, l.leagueId);
        if !seen {
          leagues := leagues + [l];
        }
      }
      i := i + 1;
    }
    assert headers[..i] == headers;
  }

  // ---------------------------------------------------------------------------
  // What the de-duplication guarantees
  // ---------------------------------------------------------------------------

  /** Position of the first record with the id `id`. */
  function FirstIndex(cs: seq<League>, id: string): (i: nat)
    requires HasId(cs, id)
    ensures i < |cs| && cs[i].leagueId == id
    ensures forall k :: 0 <= k < i ==> cs[k].leagueId != id
  {
    if cs[0].leagueId == id then 0
    else
      assert HasId(cs[1..], id) by {
        var l :| l in cs && l.leagueId == id;
        assert l in cs[1..];
      }
      1 + FirstIndex(cs[1..], id)
  }

  /** The kept league ids are pairwise distinct. */
  lemma {:induction false} DedupDistinct(cs: seq<League>)
    ensures forall a, b :: 0 <= a < b < |Dedup(cs)| ==> Dedup(cs)[a].leagueId != Dedup(cs)[b].leagueId
    decreases |cs|
  {
    if cs != [] {
      var n := |cs| - 1;
      DedupDistinct(cs[..n]);
      var rest := Dedup(cs[..n]);
      if !HasId(rest, cs[n].leagueId) {
        var r := rest + [cs[n]];
        forall a | 0 <= a < |rest| ensures r[a] == rest[a] && rest[a].leagueId != cs[n].leagueId {
          assert rest[a] in rest;
        }
      }
    }
  }

  /** Every record's league id is kept. */
  lemma {:induction false} DedupCovers(cs: seq<League>)
    ensures forall k :: 0 <= k < |cs| ==> HasId(Dedup(cs), cs[k].leagueId)
    decreases |cs|
  {
    if cs != [] {
      var n := |cs| - 1;
      DedupCovers(cs[..n]);
      var rest := Dedup(cs[..n]);
      assert forall l :: l in rest ==> l in Dedup(cs);
      forall k | 0 <= k < |cs|
        ensures HasId(Dedup(cs), cs[k].leagueId)
      {
        if k < n {
          assert cs[..n][k] == cs[k];
          var l :| l in rest && l.leagueId == cs[k].leagueId;
          assert l in Dedup(cs);
        } else if HasId(rest, cs[n].leagueId) {
          var l :| l in rest && l.leagueId == cs[n].leagueId;
          assert l in Dedup(cs);
        } else {
          assert cs[n] in Dedup(cs);
        }
      }
    }
  }

  /** A record appended by the fold has an id no earlier record has: it is the first of its id. */
  lemma AppendedIsFirst(cs: seq<League>)
    requires cs != [] && !HasId(Dedup(cs[..|cs| - 1]), cs[|cs| - 1].leagueId)
    ensures HasId(cs, cs[|cs| - 1].leagueId) && FirstIndex(cs, cs[|cs| - 1].leagueId) == |cs| - 1
  {
    var n := |cs| - 1;
    DedupCovers(cs[..n]);
    forall k | 0 <= k < n ensures cs[k].leagueId != cs[n].leagueId {
      assert cs[..n][k] == cs[k];
    }
    assert cs[n] in cs;
  }

  /** Each kept record is the first record of its id. */
  lemma {:induction false} DedupFirstWins(cs: seq<League>)
    ensures forall k :: 0 <= k < |Dedup(cs)| ==>
      HasId(cs, Dedup(cs)[k].leagueId) && Dedup(cs)[k] == cs[FirstIndex(cs, Dedup(cs)[k].leagueId)]
    decreases |cs|
  {
    if cs != [] {
      var n := |cs| - 1;
      var prefix := cs[..n];
      assert prefix + [cs[n]] == cs;
      DedupFirstWins(prefix);
      var rest := Dedup(prefix);
      var r := Dedup(cs);
      forall k | 0 <= k < |r|
        ensures HasId(cs, r[k].leagueId) && r[k] == cs[FirstIndex(cs, r[k].leagueId)]
      {
        if k < |rest| {
          assert r[k] == rest[k];
          FirstIndexExtend(prefix, cs[n], rest[k].leagueId);
          assert prefix[FirstIndex(prefix, rest[k].leagueId)] == cs[FirstIndex(prefix, rest[k].leagueId)];
        } else {
          AppendedIsFirst(cs);
        }
      }
    }
  }

  /** The kept records appear in the order of their first occurrences. */
  lemma {:induction false} DedupKeepsOrder(cs: seq<League>)
    ensures forall k :: 0 <= k < |Dedup(cs)| ==> HasId(cs, Dedup(cs)[k].leagueId)
    ensures forall a, b :: 0 <= a < b < |Dedup(cs)| ==>
      FirstIndex(cs, Dedup(cs)[a].leagueId) < FirstIndex(cs, Dedup(cs)[b].leagueId)
    decreases |cs|
  {
    DedupFirstWins(cs);
    if cs != [] {
      var n := |cs| - 1;
      var prefix := cs[..n];
      assert prefix + [cs[n]] == cs;
      DedupKeepsOrder(prefix);
      var rest := Dedup(prefix);
      var r := Dedup(cs);
      forall k | 0 <= k < |rest|
        ensures r[k] == rest[k] && FirstIndex(cs, rest[k].leagueId) == FirstIndex(prefix, rest[k].leagueId)
      {
        FirstIndexExtend(prefix, cs[n], rest[k].leagueId);
      }
      if |r| > |rest| {
        AppendedIsFirst(cs);
      }
    }
  }

  /** Appending a record does not move the first occurrence of an id already present. */
  lemma {:induction false} FirstIndexExtend(cs: seq<League>, x: League, id: string)
    requires HasId(cs, id)
    ensures HasId(cs + [x], id) && FirstIndex(cs + [x], id) == FirstIndex(cs, id)
    decreases |cs|
  {
    var l :| l in cs && l.leagueId == id;
    assert l in cs + [x];
    if cs[0].leagueId != id {
      assert (cs + [x])[1..] == cs[1..] + [x];
      assert HasId(cs[1..], id) by {
        assert l in cs[1..];
      }
      FirstIndexExtend(cs[1..], x, id);
    }
  }

  /** On a page, every header with a league link has its league id in the result. */
  lemma {:induction false} EveryLinkedHeaderCovered(headers: seq<Header>, j: nat)
    requires j < |headers| && headers[j].liga.Some?
    ensures HasId(Dedup(Candidates(headers)), LeagueOf(headers[j]).value.leagueId)
    decreases |headers|
  {
    CandidatesContain(headers, j);
    var cs := Candidates(headers);
    DedupCovers(cs);
    var k :| 0 <= k < |cs| && cs[k] == LeagueOf(headers[j]).value;
  }

  lemma {:induction false} CandidatesContain(headers: seq<Header>, j: nat)
    requires j < |headers| && headers[j].liga.Some?
    ensures LeagueOf(headers[j]).value in Candidates(headers)
    decreases |headers|
  {
    var n := |headers| - 1;
    if j < n {
      assert headers[..n][j] == headers[j];
      CandidatesContain(headers[..n], j);
    }
  }
}
