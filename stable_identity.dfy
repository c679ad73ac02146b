/**
 * The order-independent match key derived from two team names
 * (`CricketOddsScraper._create_stable_id`) and the public id built from it.
 *
 * Python's `str.isalnum` and `str.lower` are Unicode-aware; this model
 * restricts both to ASCII, so a non-ASCII letter is treated as punctuation.
 */
module StableIdentity {

  import opened Wrappers

  // ---------------------------------------------------------------------------
  // Characters
  // ---------------------------------------------------------------------------

  /** ASCII model of `str.isalnum` on one character. */
  predicate IsAlnum(c: char) {
    ('a' <= c <= 'z') || ('A' <= c <= 'Z') || ('0' <= c <= '9')
  }

  /** ASCII model of `str.lower` on one character. */
  function Lower(c: char): char {
    if 'A' <= c <= 'Z' then (c as int - 'A' as int + 'a' as int) as char else c
  }

  predicate IsUpper(c: char) {
    'A' <= c <= 'Z'
  }

  /**
   * ASCII model of `str.lower` on a string: same length, no upper-case letter
   * left, every other character kept, and each upper-case letter replaced by
   * the letter 32 code points above it.
   */
  function LowerString(s: string): (r: string)
    ensures |r| == |s|
    ensures forall i :: 0 <= i < |r| ==> !IsUpper(r[i])
    ensures forall i :: 0 <= i < |s| && !IsUpper(s[i]) ==> r[i] == s[i]
    ensures forall i :: 0 <= i < |s| && IsUpper(s[i]) ==> r[i] as int == s[i] as int + 32
  {
    seq(|s|, i requires 0 <= i < |s| => Lower(s[i]))
  }

  /** Lower-casing twice is lower-casing once. */
  lemma LowerStringIdempotent(s: string)
    ensures LowerString(LowerString(s)) == LowerString(s)
  {
  }

  /** The characters a normalised name is made of: lower-case letters, digits, `_`. */
  predicate KeyChar(c: char) {
    ('a' <= c <= 'z') || ('0' <= c <= '9') || c == '_'
  }

  predicate AllKeyChars(s: string) {
    forall i :: 0 <= i < |s| ==> KeyChar(s[i])
  }

  predicate NoDoubleUnderscore(s: string) {
    forall i :: 0 <= i < |s| - 1 ==> !(s[i] == '_' && s[i + 1] == '_')
  }

  /** What a team name looks like once normalised. */
  predicate IsNormalName(s: string) {
    && AllKeyChars(s)
    && NoDoubleUnderscore(s)
    && (|s| > 0 ==> s[0] != '_' && s[|s| - 1] != '_')
  }

  // ---------------------------------------------------------------------------
  // Normalisation of one team name
  // ---------------------------------------------------------------------------

  /** One character of `c.lower() if c.isalnum() else '_'`. */
  function MapChar(c: char): char {
    if IsAlnum(c) then Lower(c) else '_'
  }

  /** `"".join(c.lower() if c.isalnum() else '_' for c in team)` */
  function MapChars(s: string): string {
    if s == [] then [] else [MapChar(s[0])] + MapChars(s[1..])
  }

  /** `re.sub(r'_+', '_', s)`: every run of underscores becomes one. */
  function Collapse(s: string): string {
    if |s| <= 1 then s
    else if s[0] == '_' && s[1] == '_' then Collapse(s[1..])
    else [s[0]] + Collapse(s[1..])
  }

  /** The leading half of `strip('_')`. */
  function TrimLeft(s: string): string {
    if |s| > 0 && s[0] == '_' then TrimLeft(s[1..]) else s
  }

  /** The trailing half of `strip('_')`. */
  function TrimRight(s: string): string {
    if |s| > 0 && s[|s| - 1] == '_' then TrimRight(s[..|s| - 1]) else s
  }

  /** `strip('_')` */
  function Trim(s: string): string {
    TrimRight(TrimLeft(s))
  }

  /** The normalisation applied to each team name before it enters a key. */
  function Normalize(team: string): string {
    Trim(Collapse(MapChars(team)))
  }

  /** Mapping keeps the length, yields only key characters, and `_` exactly where the input was not alphanumeric. */
  lemma {:induction false} MapCharsShape(s: string)
    ensures |MapChars(s)| == |s| && AllKeyChars(MapChars(s))
    ensures forall i :: 0 <= i < |s| ==> MapChars(s)[i] == MapChar(s[i])
    ensures forall i :: 0 <= i < |s| ==> (IsAlnum(s[i]) <==> MapChars(s)[i] != '_')
  {
    if s != [] {
      MapCharsShape(s[1..]);
      var r := MapChars(s);
      assert forall i :: 1 <= i < |s| ==> r[i] == MapChars(s[1..])[i - 1] && s[i] == s[1..][i - 1];
    }
  }

  /** Collapsing leaves no two underscores in a row, keeps the end characters, and changes nothing that had none. */
  lemma {:induction false} CollapseShape(s: string)
    ensures |Collapse(s)| <= |s|
    ensures NoDoubleUnderscore(Collapse(s))
    ensures AllKeyChars(s) ==> AllKeyChars(Collapse(s))
    ensures |s| > 0 ==> |Collapse(s)| > 0 && Collapse(s)[0] == s[0] && Collapse(s)[|Collapse(s)| - 1] == s[|s| - 1]
    ensures NoDoubleUnderscore(s) ==> Collapse(s) == s
  {
    CollapseFixpoint(s);
    if |s| > 1 {
      var t := s[1..];
      CollapseShape(t);
      var c := Collapse(t);
      assert AllKeyChars(s) ==> AllKeyChars(t);
      if s[0] == '_' && s[1] == '_' {
        assert Collapse(s) == c;
      } else {
        var r := [s[0]] + c;
        assert Collapse(s) == r;
        assert r[1] == s[1];
        assert forall i :: 1 <= i < |r| ==> r[i] == c[i - 1];
        assert NoDoubleUnderscore(r);
      }
    }
  }

  lemma {:induction false} CollapseFixpoint(s: string)
    ensures NoDoubleUnderscore(s) ==> Collapse(s) == s
  {
    if |s| > 1 && NoDoubleUnderscore(s) {
      var t := s[1..];
      assert NoDoubleUnderscore(t) by {
        forall i | 0 <= i < |t| - 1 ensures !(t[i] == '_' && t[i + 1] == '_') {
          assert t[i] == s[i + 1] && t[i + 1] == s[i + 2];
        }
      }
      CollapseFixpoint(t);
      assert !(s[0] == '_' && s[1] == '_');
      assert Collapse(s) == [s[0]] + t == s;
    }
  }

  /** Trimming on the left drops only underscores and keeps a suffix that does not start with `_`. */
  lemma {:induction false} TrimLeftShape(s: string)
    ensures |TrimLeft(s)| <= |s| && TrimLeft(s) == s[|s| - |TrimLeft(s)|..]
    ensures forall i :: 0 <= i < |s| - |TrimLeft(s)| ==> s[i] == '_'
    ensures |TrimLeft(s)| > 0 ==> TrimLeft(s)[0] != '_'
    ensures (|s| > 0 ==> s[0] != '_') ==> TrimLeft(s) == s
  {
    if |s| > 0 && s[0] == '_' {
      var t := s[1..];
      TrimLeftShape(t);
      var cut := |s| - |TrimLeft(s)|;
      assert TrimLeft(s) == TrimLeft(t) == t[cut - 1..] == s[cut..];
      forall i | 1 <= i < cut
        ensures s[i] == '_'
      {
        assert s[i] == t[i - 1];
      }
    }
  }

  /** Trimming on the right drops only underscores and keeps a prefix that does not end with `_`. */
  lemma {:induction false} TrimRightShape(s: string)
    ensures |TrimRight(s)| <= |s| && TrimRight(s) == s[..|TrimRight(s)|]
    ensures forall i :: |TrimRight(s)| <= i < |s| ==> s[i] == '_'
    ensures |TrimRight(s)| > 0 ==> TrimRight(s)[|TrimRight(s)| - 1] != '_'
    ensures (|s| > 0 ==> s[|s| - 1] != '_') ==> TrimRight(s) == s
  {
    if |s| > 0 && s[|s| - 1] == '_' {
      TrimRightShape(s[..|s| - 1]);
    }
  }

  /**
   * Widening a run of underscores by one does not change the collapsed
   * string; with `CollapseShape` (no run of two is left, and a string without
   * one is unchanged) this pins `Collapse` down as `re.sub(r'_+', '_', s)`.
   */
  lemma {:induction false} CollapseWiden(s: string, i: nat)
    requires i < |s| && s[i] == '_'
    ensures Collapse(s[..i] + ['_'] + s[i..]) == Collapse(s)
  {
    var t := s[..i] + ['_'] + s[i..];
    if i == 0 {
      assert t[1..] == s;
    } else {
      CollapseWiden(s[1..], i - 1);
      assert t[1..] == s[1..][..i - 1] + ['_'] + s[1..][i - 1..];
      assert t[0] == s[0] && t[1] == s[1];
    }
  }

  // ---------------------------------------------------------------------------
  // What survives normalisation
  // ---------------------------------------------------------------------------

  /** The characters of `s` other than `_`, in order. */
  function NonUnderscore(s: string): string {
    if s == [] then [] else (if s[0] == '_' then [] else [s[0]]) + NonUnderscore(s[1..])
  }

  /** The alphanumeric characters of a team name, lower-cased, in order. */
  function KeyLetters(team: string): string {
    if team == [] then [] else (if IsAlnum(team[0]) then [Lower(team[0])] else []) + KeyLetters(team[1..])
  }

  lemma {:induction false} NonUnderscoreAppend(a: string, b: string)
    ensures NonUnderscore(a + b) == NonUnderscore(a) + NonUnderscore(b)
  {
    if a == [] {
      assert a + b == b;
    } else {
      assert (a + b)[1..] == a[1..] + b;
      NonUnderscoreAppend(a[1..], b);
    }
  }

  /** Mapping turns exactly the alphanumerics into non-underscores, lower-cased. */
  lemma {:induction false} MapCharsLetters(team: string)
    ensures NonUnderscore(MapChars(team)) == KeyLetters(team)
  {
    if team != [] {
      MapCharsLetters(team[1..]);
      assert MapChars(team)[1..] == MapChars(team[1..]);
    }
  }

  /** Collapsing removes underscores only. */
  lemma {:induction false} CollapseLetters(s: string)
    ensures NonUnderscore(Collapse(s)) == NonUnderscore(s)
  {
    if |s| > 1 {
      CollapseLetters(s[1..]);
      if !(s[0] == '_' && s[1] == '_') {
        assert ([s[0]] + Collapse(s[1..]))[1..] == Collapse(s[1..]);
      }
    }
  }

  /** Trimming removes underscores only. */
  lemma {:induction false} TrimLetters(s: string)
    ensures NonUnderscore(TrimLeft(s)) == NonUnderscore(s)
    ensures NonUnderscore(TrimRight(s)) == NonUnderscore(s)
  {
    if |s| > 0 {
      TrimLetters(s[1..]);
      var init := s[..|s| - 1];
      TrimLetters(init);
      assert s == init + [s[|s| - 1]];
      NonUnderscoreAppend(init, [s[|s| - 1]]);
    }
  }

  /** Normalisation keeps exactly the lower-cased alphanumerics of the name, in order. */
  lemma NormalizeKeepsLetters(team: string)
    ensures NonUnderscore(Normalize(team)) == KeyLetters(team)
  {
    var m := MapChars(team);
    MapCharsLetters(team);
    CollapseLetters(m);
    TrimLetters(Collapse(m));
    TrimLetters(TrimLeft(Collapse(m)));
  }

  /** A name normalises to the empty string exactly when it holds no alphanumeric character. */
  lemma NormalizeEmpty(team: string)
    ensures Normalize(team) == "" <==> KeyLetters(team) == ""
  {
    NormalizeKeepsLetters(team);
    NormalizeIsNormal(team);
    var n := Normalize(team);
    if n != "" {
      assert NonUnderscore(n)[0] == n[0];
    }
  }

  lemma SliceKeepsShape(s: string, a: nat, b: nat)
    requires a <= b <= |s|
    requires AllKeyChars(s) && NoDoubleUnderscore(s)
    ensures AllKeyChars(s[a..b]) && NoDoubleUnderscore(s[a..b])
  {
    assert forall i :: 0 <= i < b - a ==> s[a..b][i] == s[a + i];
  }

  /** Trimming a string of key characters without doubled underscores leaves a normal name. */
  lemma TrimIsNormal(c: string)
    requires AllKeyChars(c) && NoDoubleUnderscore(c)
    ensures IsNormalName(Trim(c))
  {
    var l := TrimLeft(c);
    var r := TrimRight(l);
    var off := |c| - |l|;
    assert l == c[off..] && (|l| > 0 ==> l[0] != '_') by {
      TrimLeftShape(c);
    }
    assert r == l[..|r|] && (|r| > 0 ==> r[|r| - 1] != '_') by {
      TrimRightShape(l);
    }
    assert r == c[off..off + |r|];
    SliceKeepsShape(c, off, off + |r|);
    if |r| > 0 {
      assert r[0] == l[0];
    }
  }

  /** Whatever the input, a normalised name has the normal shape. */
  lemma NormalizeIsNormal(team: string)
    ensures IsNormalName(Normalize(team))
  {
    var m := MapChars(team);
    MapCharsShape(team);
    CollapseShape(m);
    TrimIsNormal(Collapse(m));
  }

  /** A name that already has the normal shape is left as it is. */
  lemma NormalNameIsFixpoint(s: string)
    requires IsNormalName(s)
    ensures Normalize(s) == s
  {
    assert MapChars(s) == s by {
      MapCharsShape(s);
      forall i | 0 <= i < |s| ensures MapChars(s)[i] == s[i] {
        assert KeyChar(s[i]);
      }
    }
    CollapseShape(s);
    TrimLeftShape(s);
    TrimRightShape(s);
  }

  /** Normalising twice is normalising once. */
  lemma NormalizeIdempotent(team: string)
    ensures Normalize(Normalize(team)) == Normalize(team)
  {
    NormalizeIsNormal(team);
    NormalNameIsFixpoint(Normalize(team));
  }

  // ---------------------------------------------------------------------------
  // Ordering the two names
  // ---------------------------------------------------------------------------

  /** Python's `<` on `str`: lexicographic by code point. */
  predicate LexLess(a: string, b: string) {
    |b| > 0 && (|a| == 0 || a[0] < b[0] || (a[0] == b[0] && LexLess(a[1..], b[1..])))
  }

  /** Two distinct strings are ordered one way and not the other. */
  lemma {:induction false} LexLessTotal(a: string, b: string)
    requires a != b
    ensures LexLess(a, b) != LexLess(b, a)
  {
    if |a| > 0 && |b| > 0 && a[0] == b[0] {
      assert a == [a[0]] + a[1..] && b == [b[0]] + b[1..];
      LexLessTotal(a[1..], b[1..]);
    }
  }

  /** `sorted([a, b])` (a stable sort that swaps only when `b < a`). */
  function SortedPair(a: string, b: string): seq<string> {
    if LexLess(b, a) then [b, a] else [a, b]
  }

  /**
   * The names that make up the key: `[team1]` alone when there is no second
   * name or it repeats the first, otherwise both names in ascending order.
   */
  function KeyTeams(team1: string, team2: string): (ts: seq<string>)
    ensures team2 == "" || team1 == team2 ==> ts == [team1]
    ensures team2 != "" && team1 != team2 ==>
      (ts == [team1, team2] || ts == [team2, team1]) && LexLess(ts[0], ts[1])
  {
    if team2 != "" && team1 != team2 then
      LexLessTotal(team1, team2);
      SortedPair(team1, team2)
    else [team1]
  }

  const Separator: string := "__vs__"

  const UnknownKey: string := "unknown_match"

  /** `"__vs__".join(names)` for the one or two names of a key. */
  function JoinNames(names: seq<string>): string
    requires 1 <= |names| <= 2
  {
    if |names| == 1 then names[0] else names[0] + Separator + names[1]
  }

  /** Each name normalised, in order. */
  function NormalizeAll(ts: seq<string>): (ns: seq<string>)
    ensures |ns| == |ts|
  {
    if ts == [] then [] else [Normalize(ts[0])] + NormalizeAll(ts[1..])
  }

  lemma {:induction false} NormalizeAllElements(ts: seq<string>)
    ensures forall i :: 0 <= i < |ts| ==> NormalizeAll(ts)[i] == Normalize(ts[i])
  {
    if ts != [] {
      NormalizeAllElements(ts[1..]);
      assert forall i :: 1 <= i < |ts| ==> ts[1..][i - 1] == ts[i];
    }
  }

  /** `_create_stable_id(team1, team2)` */
  function StableKey(team1: string, team2: string): string {
    if team1 == "" then UnknownKey
    else
      var ts := KeyTeams(team1, team2);
      JoinNames(NormalizeAll(ts))
  }

  /** The public id `f"match_{stable_id}"`. */
  function MatchId(team1: string, team2: string): string {
    "match_" + StableKey(team1, team2)
  }

  /** A match with one distinct name is keyed by that name alone, normalised. */
  lemma SingleNameKey(team1: string, team2: string)
    requires team1 != "" && (team2 == "" || team2 == team1)
    ensures StableKey(team1, team2) == Normalize(team1)
  {
  }

  /** The key does not depend on which team the source lists first, when both are named. */
  lemma KeyOrderIndependent(a: string, b: string)
    requires a != "" && b != ""
    ensures StableKey(a, b) == StableKey(b, a)
    ensures MatchId(a, b) == MatchId(b, a)
  {
    if a != b {
      LexLessTotal(a, b);
      assert KeyTeams(a, b) == KeyTeams(b, a);
    }
  }

  /** Order independence fails when only the second name is present. */
  lemma KeyOrderDependsOnEmptyFirst()
    ensures StableKey("", "X") == UnknownKey
    ensures StableKey("X", "") == "x"
  {
    assert MapChars("X") == "x";
  }

  /** A one-character alphanumeric name normalises to its lower-case form. */
  lemma NormalizeOneChar(c: char)
    requires IsAlnum(c)
    ensures Normalize([c]) == [Lower(c)]
  {
    assert MapChars([c]) == [Lower(c)];
  }

  /**
   * Names are sorted before they are normalised, so two pairs that normalise
   * alike can still give different keys: `key("b", "A") != key("B", "a")`.
   */
  lemma SortPrecedesNormalization()
    ensures Normalize("b") == Normalize("B") && Normalize("A") == Normalize("a")
    ensures StableKey("b", "A") == "a__vs__b"
    ensures StableKey("B", "a") == "b__vs__a"
  {
    NormalizeOneChar('a');
    NormalizeOneChar('A');
    NormalizeOneChar('b');
    NormalizeOneChar('B');
    assert LexLess("A", "b");
    assert KeyTeams("b", "A") == ["A", "b"];
    assert !LexLess("a", "B");
    assert KeyTeams("B", "a") == ["B", "a"];
  }

  // ---------------------------------------------------------------------------
  // Reading a key back
  // ---------------------------------------------------------------------------

  /** The first index at which `s` holds two underscores in a row. */
  function FirstDoubleUnderscore(s: string): (r: Option<nat>)
    ensures r.Some? ==> r.value + 1 < |s| && s[r.value] == '_' && s[r.value + 1] == '_'
    ensures r.Some? ==> NoDoubleUnderscore(s[..r.value + 1])
    ensures r.None? ==> NoDoubleUnderscore(s)
  {
    if |s| < 2 then None
    else if s[0] == '_' && s[1] == '_' then Some(0)
    else
      match FirstDoubleUnderscore(s[1..])
      case None => None
      case Some(p) => Some(p + 1)
  }

  /** Splits a key back into its normalised names, at the first `__`. */
  function SplitKey(key: string): seq<string> {
    match FirstDoubleUnderscore(key)
    case None => [key]
    case Some(p) => if p + |Separator| <= |key| then [key[..p], key[p + |Separator|..]] else [key]
  }

  lemma {:induction false} FirstDoubleInJoin(n0: string, n1: string)
    requires NoDoubleUnderscore(n0) && (|n0| > 0 ==> n0[|n0| - 1] != '_')
    ensures FirstDoubleUnderscore(n0 + Separator + n1) == Some(|n0|)
  {
    var s := n0 + Separator + n1;
    if |n0| == 0 {
    } else {
      assert s[1..] == n0[1..] + Separator + n1;
      if |n0| == 1 {
        assert s[0] != '_';
      } else {
        assert s[0] == n0[0] && s[1] == n0[1];
        FirstDoubleInJoin(n0[1..], n1);
      }
    }
  }

  /** A key made of normalised names reads back as those names. */
  lemma SplitJoinRoundTrip(names: seq<string>)
    requires 1 <= |names| <= 2
    requires forall i :: 0 <= i < |names| ==> IsNormalName(names[i])
    ensures SplitKey(JoinNames(names)) == names
  {
    if |names| == 2 {
      FirstDoubleInJoin(names[0], names[1]);
      var s := JoinNames(names);
      assert s[..|names[0]|] == names[0];
      assert s[|names[0]| + |Separator|..] == names[1];
    }
  }

  /** The key of a named pair reads back as the normalised, ordered names. */
  lemma StableKeyRoundTrip(team1: string, team2: string)
    requires team1 != ""
    ensures var ts := KeyTeams(team1, team2);
      SplitKey(StableKey(team1, team2)) == NormalizeAll(ts)
  {
    var ts := KeyTeams(team1, team2);
    var ns := NormalizeAll(ts);
    NormalizeAllElements(ts);
    forall i | 0 <= i < |ns| ensures IsNormalName(ns[i]) {
      NormalizeIsNormal(ts[i]);
    }
    SplitJoinRoundTrip(ns);
  }
}
