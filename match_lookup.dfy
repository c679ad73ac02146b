/**
 * `find_match_by_id`: resolving a requested id against the current snapshot,
 * first directly, then one hop through the id mapping, then by a team name
 * occurring in the requested id.
 */
module MatchLookup {

  import opened Wrappers
  import opened StableIdentity
  import opened ChangeDetector

  /** Python's `needle in hay` on strings. */
  predicate Contains(hay: string, needle: string) {
    needle <= hay || (|hay| > 0 && Contains(hay[1..], needle))
  }

  /** `s.count(c)` */
  function CountChar(s: string, c: char): nat {
    if s == [] then 0 else (if s[0] == c then 1 else 0) + CountChar(s[1..], c)
  }

  /** `len(s.split('_'))`: one more part than there are underscores. */
  function SplitPartCount(s: string): nat {
    CountChar(s, '_') + 1
  }

  /** The fallback only looks at ids `match_...` that split into more than two parts. */
  predicate FallbackApplies(id: string) {
    "match_" <= id && SplitPartCount(id) > 2
  }

  /** A match whose (non-empty) team1 or team2, lower-cased, occurs in the lower-cased id. */
  predicate NamedIn(m: Match, lowerId: string) {
    && m.team1 != ""
    && (Contains(lowerId, LowerString(m.team1)) || (m.team2 != "" && Contains(lowerId, LowerString(m.team2))))
  }

  /** The index of the first match carrying `id`. */
  function FirstWithId(ms: seq<Match>, id: string): (r: Option<nat>)
    ensures r.Some? ==> r.value < |ms| && ms[r.value].id == id
    ensures r.Some? ==> forall j :: 0 <= j < r.value ==> ms[j].id != id
    ensures r.None? ==> forall j :: 0 <= j < |ms| ==> ms[j].id != id
  {
    if ms == [] then None
    else if ms[0].id == id then Some(0)
    else match FirstWithId(ms[1..], id)
      case None => None
      case Some(k) => Some(k + 1)
  }

  /** The index of the first match named in `lowerId`. */
  function FirstNamedIn(ms: seq<Match>, lowerId: string): (r: Option<nat>)
    ensures r.Some? ==> r.value < |ms| && NamedIn(ms[r.value], lowerId)
    ensures r.Some? ==> forall j :: 0 <= j < r.value ==> !NamedIn(ms[j], lowerId)
    ensures r.None? ==> forall j :: 0 <= j < |ms| ==> !NamedIn(ms[j], lowerId)
  {
    if ms == [] then None
    else if NamedIn(ms[0], lowerId) then Some(0)
    else match FirstNamedIn(ms[1..], lowerId)
      case None => None
      case Some(k) => Some(k + 1)
  }

  /** The pair `(match, redirect_id)` returned by `find_match_by_id`. */
  datatype LookupResult = LookupResult(found: Option<Match>, redirect: Option<string>)

  /** The three resolution steps, in order. */
  function Lookup(ms: seq<Match>, mapping: map<string, string>, id: string): LookupResult {
    match FirstWithId(ms, id)
    case Some(k) => LookupResult(Some(ms[k]), None)
    case None =>
      if id in mapping && FirstWithId(ms, mapping[id]).Some? then
        LookupResult(Some(ms[FirstWithId(ms, mapping[id]).value]), Some(mapping[id]))
      else if FallbackApplies(id) && FirstNamedIn(ms, LowerString(id)).Some? then
        var m := ms[FirstNamedIn(ms, LowerString(id)).value];
        LookupResult(Some(m), Some(m.id))
      else
        LookupResult(None, None)
  }

  /** `find_match_by_id(match_id)` over a snapshot and mapping read under the lock. */
  method FindMatchById(ms: seq<Match>, mapping: map<string, string>, id: string)
    returns (found: Option<Match>, redirect: Option<string>)
    ensures LookupResult(found, redirect) == Lookup(ms, mapping, id)
  {
    var i := 0;
    while i < |ms|
      invariant 0 <= i <= |ms|
      invariant forall j :: 0 <= j < i ==> ms[j].id != id
    {
      if ms[i].id == id {
        return Some(ms[i]), None;
      }
      i := i + 1;
    }
    if id in mapping {
      var newId := mapping[id];
      i := 0;
      while i < |ms|
        invariant 0 <= i <= |ms|
        invariant forall j :: 0 <= j < i ==> ms[j].id != newId
      {
        if ms[i].id == newId {
          return Some(ms[i]), Some(newId);
        }
        i := i + 1;
      }
    }
    if "match_" <= id {
      if SplitPartCount(id) > 2 {
        var lowerId := LowerString(id);
        i := 0;
        while i < |ms|
          invariant 0 <= i <= |ms|
          invariant forall j :: 0 <= j < i ==> !NamedIn(ms[j], lowerId)
        {
          var m := ms[i];
          if m.team1 != "" {
            if Contains(lowerId, LowerString(m.team1)) || (m.team2 != "" && Contains(lowerId, LowerString(m.team2))) {
              return Some(m), Some(m.id);
            }
          }
          i := i + 1;
        }
      }
    }
    return None, None;
  }

  /** A direct hit wins and is the first match with that id; nothing is redirected. */
  lemma LookupDirectHit(ms: seq<Match>, mapping: map<string, string>, id: string, j: nat)
    requires j < |ms| && ms[j].id == id
    ensures var r := Lookup(ms, mapping, id);
      && r.redirect.None? && r.found.Some? && r.found.value.id == id
      && exists k :: 0 <= k <= j && r.found.value == ms[k] && forall l :: 0 <= l < k ==> ms[l].id != id
  {
  }

  /** Whenever a redirect is reported, it names the returned match, which is in the snapshot. */
  lemma LookupRedirectNamesFound(ms: seq<Match>, mapping: map<string, string>, id: string)
    ensures var r := Lookup(ms, mapping, id);
      && (r.found.Some? ==> r.found.value in ms)
      && (r.redirect.Some? ==> r.found.Some? && r.found.value.id == r.redirect.value && r.redirect.value != id)
  {
  }

  /** Not-found is reported only when no match carries the id and no step applies. */
  lemma LookupNotFound(ms: seq<Match>, mapping: map<string, string>, id: string)
    ensures Lookup(ms, mapping, id).found.None? <==>
      && (forall j :: 0 <= j < |ms| ==> ms[j].id != id)
      && (id in mapping ==> forall j :: 0 <= j < |ms| ==> ms[j].id != mapping[id])
      && (FallbackApplies(id) ==> forall j :: 0 <= j < |ms| ==> !NamedIn(ms[j], LowerString(id)))
  {
  }
}
