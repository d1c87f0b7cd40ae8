/**
 * The three-tier natural comparison of two normalised cell texts used by the sorter's comparator:
 * episode labels `Name - S<d>E<d> - Title`, then the first decimal number, then case-insensitive text.
 * The result is the ascending sign (-1, 0, 1); the sorter negates it for a descending sort.
 */
module NaturalOrder {
  import opened Wrappers
  import opened Text

  /**
   * A normalised cell text. Normalisation collapses every run of `\s`, so no line feed is left and
   * the patterns' `.` and `$` behave as on a single line.
   */
  type Plain = s: string | '\n' !in s

  /** The end of the run of `\s` characters that starts at i. */
  function SpacesEnd(s: string, i: nat): (j: nat)
    requires i <= |s|
    ensures i <= j <= |s|
    ensures j == |s| || !IsSpace(s[j])
    decreases |s| - i
  {
    if i < |s| && IsSpace(s[i]) then SpacesEnd(s, i + 1) else i
  }

  /** The end of the run of digits that starts at i. */
  function DigitsEnd(s: string, i: nat): (j: nat)
    requires i <= |s|
    ensures i <= j <= |s|
    ensures j == |s| || !IsDigit(s[j])
    ensures j > i ==> IsDigit(s[i])
    decreases |s| - i
  {
    if i < |s| && IsDigit(s[i]) then DigitsEnd(s, i + 1) else i
  }

  /** Everything `SpacesEnd` skips is a `\s` character. */
  lemma {:induction false} SpacesEndRun(s: string, i: nat)
    requires i <= |s|
    ensures forall k :: i <= k < SpacesEnd(s, i) ==> IsSpace(s[k])
    decreases |s| - i
  {
    if i < |s| && IsSpace(s[i]) { SpacesEndRun(s, i + 1); }
  }

  /** Everything `DigitsEnd` skips is a digit. */
  lemma {:induction false} DigitsEndRun(s: string, i: nat)
    requires i <= |s|
    ensures forall k :: i <= k < DigitsEnd(s, i) ==> IsDigit(s[k])
    decreases |s| - i
  {
    if i < |s| && IsDigit(s[i]) { DigitsEndRun(s, i + 1); }
  }

  // ---------------------------------------------------------------- episode labels

  /** The groups of `^(.+?)\s*-\s*S(\d+)E(\d+)\s*-\s*(.+)$` the comparator uses: name (trimmed), season, episode. */
  datatype Episode = Episode(show: string, season: nat, episode: nat)

  /** Where the season digits `s[seasonFrom..seasonTo]` and episode digits `s[seasonTo + 1..episodeTo]` lie. */
  datatype Groups = Groups(seasonFrom: int, seasonTo: int, episodeTo: int)

  /**
   * Matches `\s*-\s*S(\d+)E(\d+)\s*-\s*(.+)$` from position i and yields the season and episode.
   * Each step is forced: a `\s*` run is followed by a non-space, a `\d+` run by a non-digit.
   */
  function MatchTail(s: Plain, i: nat): (r: Option<Groups>)
    requires i <= |s|
    ensures r.Some? ==> HasDigit(s) && '-' in s
    ensures r.Some? ==> i < r.value.seasonFrom < r.value.seasonTo < r.value.episodeTo <= |s|
  {
    var a := SpacesEnd(s, i);
    if a == |s| || s[a] != '-' then None
    else
      var b := SpacesEnd(s, a + 1);
      if b == |s| || s[b] != 'S' then None
      else
        var c := DigitsEnd(s, b + 1);
        if c == b + 1 || c == |s| || s[c] != 'E' then None
        else
          var d := DigitsEnd(s, c + 1);
          if d == c + 1 then None
          else
            var e := SpacesEnd(s, d);
            if e == |s| || s[e] != '-' || e + 1 == |s| then None
            else Some(Groups(b + 1, c, d))
  }

  /** Where a match of the whole pattern ends its name group, and where its other groups lie. */
  datatype Match = Match(nameEnd: nat, groups: Groups)

  /** The lazy group `(.+?)`: the shortest name, of length at least k, after which the rest matches. */
  function FindTail(s: Plain, k: nat): (r: Option<Match>)
    requires 1 <= k
    ensures r.Some? ==> HasDigit(s) && '-' in s
    ensures r.Some? ==> k <= r.value.nameEnd < r.value.groups.seasonFrom
    ensures r.Some? ==> r.value.groups.seasonFrom < r.value.groups.seasonTo < r.value.groups.episodeTo <= |s|
    decreases |s| - k
  {
    if k >= |s| then None
    else
      match MatchTail(s, k)
      case Some(g) => Some(Match(k, g))
      case None => FindTail(s, k + 1)
  }

  /** `preg_match` of the episode pattern (case-sensitive `S` and `E`): the trimmed name and the two numbers. */
  function ParseEpisode(s: Plain): (r: Option<Episode>)
    ensures r.Some? ==> HasDigit(s) && '-' in s
  {
    match FindTail(s, 1)
    case None => None
    case Some(m) =>
      Some(Episode(Trim(s[..m.nameEnd]),
                   DigitsValue(s[m.groups.seasonFrom..m.groups.seasonTo]),
                   DigitsValue(s[m.groups.seasonTo + 1..m.groups.episodeTo])))
  }

  /** The label `<show> - S<season>E<episode> - <title>`. */
  function Label(show: string, season: string, episode: string, title: string): string {
    show + " - S" + season + "E" + episode + " - " + title
  }

  /** A show name the lazy group captures whole: no dash, and no space or trimmed character at either end. */
  predicate PlainShow(show: string) {
    && show != []
    && '-' !in show && '\n' !in show
    && !IsTrimmed(show[0]) && !IsTrimmed(show[|show| - 1]) && !IsSpace(show[|show| - 1])
  }

  lemma {:induction false} SpacesEndAt(s: string, i: nat, j: nat)
    requires i <= j <= |s|
    requires forall k :: i <= k < j ==> IsSpace(s[k])
    requires j == |s| || !IsSpace(s[j])
    ensures SpacesEnd(s, i) == j
    decreases j - i
  {
    if i < j { SpacesEndAt(s, i + 1, j); }
  }

  lemma {:induction false} DigitsEndAt(s: string, i: nat, j: nat)
    requires i <= j <= |s|
    requires forall k :: i <= k < j ==> IsDigit(s[k])
    requires j == |s| || !IsDigit(s[j])
    ensures DigitsEnd(s, i) == j
    decreases j - i
  {
    if i < j { DigitsEndAt(s, i + 1, j); }
  }

  /** The tail cannot match where the next non-space is not a dash. */
  lemma {:induction false} NoTailWithoutDash(s: Plain, k: nat)
    requires k <= |s| && SpacesEnd(s, k) < |s| && s[SpacesEnd(s, k)] != '-'
    ensures MatchTail(s, k) == None
  {
  }

  /** Where the tail does not match, the lazy group tries one more character. */
  lemma {:induction false} FindTailSkips(s: Plain, k: nat)
    requires 1 <= k < |s| && MatchTail(s, k) == None
    ensures FindTail(s, k) == FindTail(s, k + 1)
  {
  }

  /** Before the end of the show name the tail cannot match: the next non-space is a name character. */
  lemma {:induction false} NoEarlierMatch(s: Plain, show: string, k: nat)
    requires PlainShow(show) && show <= s && 1 <= k <= |show| && |show| < |s|
    ensures FindTail(s, k) == FindTail(s, |show|)
    decreases |show| - k
  {
    if k < |show| {
      var a := SpacesEnd(s, k);
      SpacesEndRun(s, k);
      assert a < |show|;
      assert s[a] == show[a] && show[a] in show;
      NoTailWithoutDash(s, k);
      FindTailSkips(s, k);
      NoEarlierMatch(s, show, k + 1);
    }
  }

  /** Where the parts of a label sit. */
  lemma {:induction false} LabelParts(show: string, season: string, episode: string, title: string)
    ensures var s := Label(show, season, episode, title);
      var n := |show|;
      var c := n + 4 + |season|;
      var d := c + 1 + |episode|;
      && |s| == d + 3 + |title|
      && (forall k :: 0 <= k < n ==> s[k] == show[k])
      && s[n] == ' ' && s[n + 1] == '-' && s[n + 2] == ' ' && s[n + 3] == 'S'
      && (forall k :: 0 <= k < |season| ==> s[n + 4 + k] == season[k])
      && s[c] == 'E'
      && (forall k :: 0 <= k < |episode| ==> s[c + 1 + k] == episode[k])
      && s[d] == ' ' && s[d + 1] == '-' && s[d + 2] == ' '
      && (forall k :: 0 <= k < |title| ==> s[d + 3 + k] == title[k])
  {
  }

  lemma {:induction false} LabelIsPlain(show: string, season: string, episode: string, title: string)
    requires '\n' !in show && '\n' !in title && AllDigits(season) && AllDigits(episode)
    ensures '\n' !in Label(show, season, episode, title)
  {
    var s := Label(show, season, episode, title);
    var n := |show|;
    var c := n + 4 + |season|;
    var d := c + 1 + |episode|;
    LabelParts(show, season, episode, title);
    forall i | 0 <= i < |s| ensures s[i] != '\n' {
      if i < n { assert s[i] == show[i]; }
      else if n + 4 <= i < c { assert s[i] == season[i - n - 4]; }
      else if c < i < d { assert s[i] == episode[i - c - 1]; }
      else if d + 3 <= i { assert s[i] == title[i - d - 3]; }
    }
  }

  /** The tail matches when each of its steps finds what it needs. */
  lemma {:induction false} MatchTailSteps(s: Plain, i: nat, a: nat, b: nat, c: nat, d: nat, e: nat)
    requires i <= |s| && SpacesEnd(s, i) == a && a < |s| && s[a] == '-'
    requires SpacesEnd(s, a + 1) == b && b < |s| && s[b] == 'S'
    requires DigitsEnd(s, b + 1) == c && b + 1 < c < |s| && s[c] == 'E'
    requires DigitsEnd(s, c + 1) == d && c + 1 < d
    requires SpacesEnd(s, d) == e && e + 1 < |s| && s[e] == '-'
    ensures MatchTail(s, i) == Some(Groups(b + 1, c, d))
  {
  }

  /** The tail matches at n when the separators, the `S`, the `E` and the two digit runs sit where a label puts them. */
  lemma {:induction false} MatchTailAt(s: Plain, n: nat, c: nat, d: nat)
    requires n + 4 < c && c + 1 < d && d + 2 < |s|
    requires s[n] == ' ' && s[n + 1] == '-' && s[n + 2] == ' ' && s[n + 3] == 'S'
    requires forall k :: n + 4 <= k < c ==> IsDigit(s[k])
    requires s[c] == 'E'
    requires forall k :: c + 1 <= k < d ==> IsDigit(s[k])
    requires s[d] == ' ' && s[d + 1] == '-'
    ensures MatchTail(s, n) == Some(Groups(n + 4, c, d))
  {
    SpacesEndAt(s, n, n + 1);
    SpacesEndAt(s, n + 2, n + 3);
    DigitsEndAt(s, n + 4, c);
    DigitsEndAt(s, c + 1, d);
    SpacesEndAt(s, d, d + 1);
    MatchTailSteps(s, n, n + 1, n + 3, c, d, d + 1);
  }

  /** Where the tail matches, the lazy group stops and the groups are read off. */
  lemma {:induction false} FoundAt(s: Plain, k: nat, g: Groups)
    requires 1 <= k < |s| && MatchTail(s, k) == Some(g)
    ensures FindTail(s, k) == Some(Match(k, g))
  {
  }

  /**
   * The layout of a label up to the dash before its title, character by character:
   * `<show> - S<season>E<episode> - ` followed by at least one more character.
   */
  predicate LabelShaped(s: string, show: string, season: string, episode: string) {
    var n := |show|;
    var c := n + 4 + |season|;
    var d := c + 1 + |episode|;
    && d + 3 < |s|
    && (forall k :: 0 <= k < n ==> s[k] == show[k])
    && s[n] == ' ' && s[n + 1] == '-' && s[n + 2] == ' ' && s[n + 3] == 'S'
    && (forall k :: 0 <= k < |season| ==> s[n + 4 + k] == season[k])
    && s[c] == 'E'
    && (forall k :: 0 <= k < |episode| ==> s[c + 1 + k] == episode[k])
    && s[d] == ' ' && s[d + 1] == '-'
  }

  /** In a text laid out as a label, the tail matches right after the show name. */
  lemma {:induction false} ShapedTail(s: Plain, show: string, season: string, episode: string)
    requires season != [] && AllDigits(season) && episode != [] && AllDigits(episode)
    requires LabelShaped(s, show, season, episode)
    ensures var c := |show| + 4 + |season|;
      MatchTail(s, |show|) == Some(Groups(|show| + 4, c, c + 1 + |episode|))
  {
    var n := |show|;
    var c := n + 4 + |season|;
    var d := c + 1 + |episode|;
    forall k | n + 4 <= k < c ensures IsDigit(s[k]) { assert s[k] == season[k - n - 4]; }
    forall k | c + 1 <= k < d ensures IsDigit(s[k]) { assert s[k] == episode[k - c - 1]; }
    MatchTailAt(s, n, c, d);
  }

  /** In a text laid out as a label, the show, season and episode sit where the groups say. */
  lemma {:induction false} ShapedSlices(s: string, show: string, season: string, episode: string)
    requires LabelShaped(s, show, season, episode)
    ensures var c := |show| + 4 + |season|;
      && s[..|show|] == show
      && s[|show| + 4..c] == season
      && s[c + 1..c + 1 + |episode|] == episode
  {
  }

  /** In a text laid out as a label, the lazy name group ends exactly at the end of the show name. */
  lemma {:induction false} FindsShapedTail(s: Plain, show: string, season: string, episode: string)
    requires PlainShow(show)
    requires season != [] && AllDigits(season) && episode != [] && AllDigits(episode)
    requires LabelShaped(s, show, season, episode)
    ensures var c := |show| + 4 + |season|;
      FindTail(s, 1) == Some(Match(|show|, Groups(|show| + 4, c, c + 1 + |episode|)))
  {
    var n := |show|;
    var c := n + 4 + |season|;
    ShapedTail(s, show, season, episode);
    ShapedSlices(s, show, season, episode);
    FoundAt(s, n, Groups(n + 4, c, c + 1 + |episode|));
    NoEarlierMatch(s, show, 1);
  }

  /** A match whose groups hold a trimmed show name, a season and an episode parses to them. */
  lemma {:induction false} ParseFromMatch(s: Plain, m: Match, show: string, season: string, episode: string)
    requires FindTail(s, 1) == Some(m)
    requires s[..m.nameEnd] == show && Trim(show) == show
    requires s[m.groups.seasonFrom..m.groups.seasonTo] == season
    requires s[m.groups.seasonTo + 1..m.groups.episodeTo] == episode
    ensures ParseEpisode(s) == Some(Episode(show, DigitsValue(season), DigitsValue(episode)))
  {
  }

  /** Any text laid out as a label parses to its show, season and episode. */
  lemma {:induction false} ParseShaped(s: Plain, show: string, season: string, episode: string)
    requires PlainShow(show)
    requires season != [] && AllDigits(season) && episode != [] && AllDigits(episode)
    requires LabelShaped(s, show, season, episode)
    ensures ParseEpisode(s) == Some(Episode(show, DigitsValue(season), DigitsValue(episode)))
  {
    var n := |show|;
    var c := n + 4 + |season|;
    FindsShapedTail(s, show, season, episode);
    ShapedSlices(s, show, season, episode);
    TrimOfTrimmed(show);
    ParseFromMatch(s, Match(n, Groups(n + 4, c, c + 1 + |episode|)), show, season, episode);
  }

  /** Parsing a well-formed label gives back its show, season and episode; the title is not kept. */
  lemma {:induction false} ParseLabel(show: string, season: string, episode: string, title: string)
    requires PlainShow(show)
    requires season != [] && AllDigits(season) && episode != [] && AllDigits(episode)
    requires title != [] && '\n' !in title
    ensures '\n' !in Label(show, season, episode, title)
    ensures ParseEpisode(Label(show, season, episode, title))
         == Some(Episode(show, DigitsValue(season), DigitsValue(episode)))
  {
    LabelIsPlain(show, season, episode, title);
    LabelParts(show, season, episode, title);
    ParseShaped(Label(show, season, episode, title), show, season, episode);
  }

  /** Every character of s[i..j] is a `\s` character. */
  predicate SpacesIn(s: string, i: int, j: int)
    requires 0 <= i <= j <= |s|
  {
    forall k :: i <= k < j ==> IsSpace(s[k])
  }

  /** Every character of s[i..j] is a digit. */
  predicate DigitsIn(s: string, i: int, j: int)
    requires 0 <= i <= j <= |s|
  {
    forall k :: i <= k < j ==> IsDigit(s[k])
  }

  /**
   * The tail `\s*-\s*S(\d+)E(\d+)\s*-\s*(.+)$` read off the pattern itself: from i, spaces, a dash,
   * spaces, `S`, the season digits, `E`, the episode digits, spaces, a dash and at least one more
   * character (on a single line `\s*(.+)$` takes any non-empty rest).
   */
  ghost predicate TailAt(s: Plain, i: nat, g: Groups) {
    && i + 1 < g.seasonFrom < g.seasonTo && g.seasonTo + 1 < g.episodeTo <= |s|
    && (exists a :: i <= a < g.seasonFrom - 1 && SpacesIn(s, i, a) && s[a] == '-' && SpacesIn(s, a + 1, g.seasonFrom - 1))
    && s[g.seasonFrom - 1] == 'S'
    && DigitsIn(s, g.seasonFrom, g.seasonTo) && s[g.seasonTo] == 'E'
    && DigitsIn(s, g.seasonTo + 1, g.episodeTo)
    && (exists e :: g.episodeTo <= e && e + 1 < |s| && SpacesIn(s, g.episodeTo, e) && s[e] == '-')
  }

  lemma {:induction false} MatchedTailAt(s: Plain, i: nat)
    requires i <= |s| && MatchTail(s, i).Some?
    ensures TailAt(s, i, MatchTail(s, i).value)
  {
    var g := MatchTail(s, i).value;
    var a := SpacesEnd(s, i);
    var e := SpacesEnd(s, g.episodeTo);
    SpacesEndRun(s, i);
    SpacesEndRun(s, a + 1);
    DigitsEndRun(s, g.seasonFrom);
    DigitsEndRun(s, g.seasonTo + 1);
    SpacesEndRun(s, g.episodeTo);
    assert SpacesIn(s, g.episodeTo, e) && s[e] == '-';
  }

  lemma {:induction false} TailAtMatched(s: Plain, i: nat, g: Groups)
    requires i <= |s| && TailAt(s, i, g)
    ensures MatchTail(s, i) == Some(g)
  {
    var a :| i <= a < g.seasonFrom - 1 && SpacesIn(s, i, a) && s[a] == '-' && SpacesIn(s, a + 1, g.seasonFrom - 1);
    var e :| g.episodeTo <= e && e + 1 < |s| && SpacesIn(s, g.episodeTo, e) && s[e] == '-';
    TailRunsAt(s, i, a, g, e);
  }

  lemma {:induction false} TailRunsAt(s: Plain, i: nat, a: nat, g: Groups, e: nat)
    requires i <= a < g.seasonFrom - 1 && g.seasonFrom < g.seasonTo && g.seasonTo + 1 < g.episodeTo <= e && e + 1 < |s|
    requires SpacesIn(s, i, a) && s[a] == '-' && SpacesIn(s, a + 1, g.seasonFrom - 1) && s[g.seasonFrom - 1] == 'S'
    requires DigitsIn(s, g.seasonFrom, g.seasonTo) && s[g.seasonTo] == 'E' && DigitsIn(s, g.seasonTo + 1, g.episodeTo)
    requires SpacesIn(s, g.episodeTo, e) && s[e] == '-'
    ensures MatchTail(s, i) == Some(g)
  {
    SpacesEndAt(s, i, a);
    SpacesEndAt(s, a + 1, g.seasonFrom - 1);
    DigitsEndAt(s, g.seasonFrom, g.seasonTo);
    assert g.episodeTo < e ==> IsSpace(s[g.episodeTo]);
    DigitsEndAt(s, g.seasonTo + 1, g.episodeTo);
    SpacesEndAt(s, g.episodeTo, e);
    MatchTailSteps(s, i, a, g.seasonFrom - 1, g.seasonTo, g.episodeTo, e);
  }

  /** `MatchTail` finds the tail at i exactly when the pattern's tail matches there, with the same groups. */
  lemma {:induction false} MatchTailIff(s: Plain, i: nat)
    requires i <= |s|
    ensures forall g :: MatchTail(s, i) == Some(g) <==> TailAt(s, i, g)
  {
    if MatchTail(s, i).Some? {
      MatchedTailAt(s, i);
    }
    forall g | TailAt(s, i, g)
      ensures MatchTail(s, i) == Some(g)
    {
      TailAtMatched(s, i, g);
    }
  }

  /**
   * The lazy name group `(.+?)` from length k on: the match found ends the name at the shortest
   * length where the tail matches, and no match is found only when the tail matches after no length.
   */
  lemma {:induction false} FindTailShortest(s: Plain, k: nat)
    requires 1 <= k
    ensures FindTail(s, k).Some? ==>
      var m := FindTail(s, k).value;
      && m.nameEnd < |s| && TailAt(s, m.nameEnd, m.groups)
      && forall j, g :: k <= j < m.nameEnd ==> !TailAt(s, j, g)
    ensures FindTail(s, k).None? ==> forall j, g :: k <= j < |s| ==> !TailAt(s, j, g)
    decreases |s| - k
  {
    if k < |s| {
      MatchTailIff(s, k);
      if MatchTail(s, k).None? {
        FindTailShortest(s, k + 1);
      }
    }
  }

  /** A match found from length k on has its groups where the tail matches. */
  lemma {:induction false} FindTailFound(s: Plain, k: nat)
    requires 1 <= k && FindTail(s, k).Some?
    ensures FindTail(s, k).value.nameEnd < |s|
    ensures MatchTail(s, FindTail(s, k).value.nameEnd) == Some(FindTail(s, k).value.groups)
    decreases |s| - k
  {
    if MatchTail(s, k).None? {
      FindTailFound(s, k + 1);
    }
  }

  /** Where the tail matches after j, the lazy group from k up to j finds a match no later than j. */
  lemma {:induction false} FindTailReaches(s: Plain, k: nat, j: nat, g: Groups)
    requires 1 <= k <= j < |s| && TailAt(s, j, g)
    ensures FindTail(s, k).Some? && FindTail(s, k).value.nameEnd <= j
    decreases j - k
  {
    if k == j {
      TailAtMatched(s, j, g);
    } else if MatchTail(s, k).None? {
      FindTailReaches(s, k + 1, j, g);
    }
  }

  lemma {:induction false} ParseFound(s: Plain, m: Match)
    requires FindTail(s, 1) == Some(m)
    ensures ParseEpisode(s)
         == Some(Episode(Trim(s[..m.nameEnd]), DigitsValue(s[m.groups.seasonFrom..m.groups.seasonTo]),
                         DigitsValue(s[m.groups.seasonTo + 1..m.groups.episodeTo])))
  {
  }

  /** The lazy group stops at the shortest name after which the tail matches. */
  lemma {:induction false} ShortestTail(s: Plain, j: nat, g: Groups)
    requires 1 <= j < |s| && TailAt(s, j, g)
    requires forall j', g' :: 1 <= j' < j ==> !TailAt(s, j', g')
    ensures FindTail(s, 1) == Some(Match(j, g))
  {
    FindTailReaches(s, 1, j, g);
    var m := FindTail(s, 1).value;
    FindTailFound(s, 1);
    MatchedTailAt(s, m.nameEnd);
    assert m.nameEnd == j;
    TailAtMatched(s, j, g);
  }

  /** `preg_match` of the whole pattern fails exactly when no name of at least one character is followed by the tail. */
  lemma {:induction false} ParseEpisodeNone(s: Plain)
    ensures ParseEpisode(s).None? <==> forall j, g :: 1 <= j < |s| ==> !TailAt(s, j, g)
  {
    FindTailShortest(s, 1);
  }

  /**
   * Where the tail matches after a name of length j and after no shorter one, `preg_match` captures
   * that name, trimmed, and the values of the season and episode digits.
   */
  lemma {:induction false} ParseEpisodeAt(s: Plain, j: nat, g: Groups)
    requires 1 <= j < |s| && TailAt(s, j, g)
    requires forall j', g' :: 1 <= j' < j ==> !TailAt(s, j', g')
    ensures ParseEpisode(s)
         == Some(Episode(Trim(s[..j]), DigitsValue(s[g.seasonFrom..g.seasonTo]),
                         DigitsValue(s[g.seasonTo + 1..g.episodeTo])))
  {
    ShortestTail(s, j, g);
    ParseFound(s, Match(j, g));
  }

  // ---------------------------------------------------------------- first number

  /** The match of `\d+(\.\d+)?`: the digits before and after the optional decimal point. */
  datatype Decimal = Decimal(whole: string, fraction: string) {
    predicate Valid() {
      whole != [] && AllDigits(whole) && AllDigits(fraction)
    }

    /** The exact value of the decimal string (where the source uses a float). */
    function Value(): real
      requires Valid()
    {
      DigitsValue(whole) as real + DigitsValue(fraction) as real / Pow10(|fraction|) as real
    }
  }

  /** The first position at or after i that holds a digit, or |s|. */
  function FirstDigit(s: string, i: nat): (j: nat)
    requires i <= |s|
    ensures i <= j <= |s|
    ensures j < |s| ==> IsDigit(s[j])
    decreases |s| - i
  {
    if i < |s| && !IsDigit(s[i]) then FirstDigit(s, i + 1) else i
  }

  /** Nothing `FirstDigit` skips is a digit. */
  lemma {:induction false} FirstDigitRun(s: string, i: nat)
    requires i <= |s|
    ensures forall k :: i <= k < FirstDigit(s, i) ==> !IsDigit(s[k])
    decreases |s| - i
  {
    if i < |s| && !IsDigit(s[i]) { FirstDigitRun(s, i + 1); }
  }

  /**
   * `extractNumber`: the leftmost, longest match of `\d+(\.\d+)?`, or nothing. It succeeds exactly
   * when the text holds a digit; ExtractNumberMatch says which digits it takes.
   */
  function ExtractNumber(s: string): (r: Option<Decimal>)
    ensures r.Some? <==> HasDigit(s)
    ensures r.Some? ==> r.value.Valid()
  {
    var i := FirstDigit(s, 0);
    FirstDigitRun(s, 0);
    if i == |s| then None
    else
      var j := DigitsEnd(s, i);
      DigitsEndRun(s, i);
      var whole := s[i..j];
      assert AllDigits(whole) by {
        forall k | 0 <= k < |whole| ensures IsDigit(whole[k]) { assert whole[k] == s[i + k]; }
      }
      if j + 1 < |s| && s[j] == '.' && IsDigit(s[j + 1]) then
        var e := DigitsEnd(s, j + 1);
        DigitsEndRun(s, j + 1);
        var fraction := s[j + 1..e];
        assert AllDigits(fraction) by {
          forall k | 0 <= k < |fraction| ensures IsDigit(fraction[k]) { assert fraction[k] == s[j + 1 + k]; }
        }
        Some(Decimal(s[i..j], fraction))
      else
        Some(Decimal(s[i..j], ""))
  }

  /**
   * The match starts at the first digit and takes the whole run of digits there; it takes a
   * fraction exactly when a point and a digit follow that run, and then the whole run of digits
   * after the point.
   */
  lemma {:induction false} ExtractNumberMatch(s: string)
    requires HasDigit(s)
    ensures var r := ExtractNumber(s).value;
      var i := FirstDigit(s, 0);
      var j := i + |r.whole|;
      && j <= |s| && s[i..j] == r.whole && (j == |s| || !IsDigit(s[j]))
      && (r.fraction != [] <==> j + 1 < |s| && s[j] == '.' && IsDigit(s[j + 1]))
      && (r.fraction != [] ==>
            var e := j + 1 + |r.fraction|;
            e <= |s| && s[j + 1..e] == r.fraction && (e == |s| || !IsDigit(s[e])))
  {
    var i := FirstDigit(s, 0);
    var j := DigitsEnd(s, i);
    assert ExtractNumber(s).value.whole == s[i..j];
  }

  function NumberOf(s: string): real
    requires HasDigit(s)
  {
    ExtractNumber(s).value.Value()
  }

  // ---------------------------------------------------------------- the three tiers

  /** `<=>` on exact decimal values. */
  function RealCmp(a: real, b: real): (r: int)
    ensures r == 0 <==> a == b
    ensures r < 0 <==> a < b
    ensures -1 <= r <= 1
  {
    if a < b then -1 else if a > b then 1 else 0
  }

  /** PHP's `<=>` on integers, which compares as the numbers they are. */
  function IntCmp(a: int, b: int): (r: int)
    ensures r == 0 <==> a == b
    ensures r < 0 <==> a < b
    ensures -1 <= r <= 1
  {
    RealCmp(a as real, b as real)
  }

  /** Show name case-insensitively, then season, then episode; the first difference decides. */
  function EpisodeCmp(a: Episode, b: Episode): (r: int)
    ensures -1 <= r <= 1
    ensures r == 0 <==> LowerAll(a.show) == LowerAll(b.show) && a.season == b.season && a.episode == b.episode
    ensures LowerAll(a.show) != LowerAll(b.show) ==> (r < 0 <==> LexLess(LowerAll(a.show), LowerAll(b.show)))
    ensures LowerAll(a.show) == LowerAll(b.show) && a.season != b.season ==> (r < 0 <==> a.season < b.season)
    ensures LowerAll(a.show) == LowerAll(b.show) && a.season == b.season ==> r == IntCmp(a.episode, b.episode)
  {
    CaseCmpZeroIff(a.show, b.show);
    CaseCmpLess(a.show, b.show);
    var byShow := CaseCmp(a.show, b.show);
    if byShow != 0 then byShow
    else if a.season != b.season then IntCmp(a.season, b.season)
    else IntCmp(a.episode, b.episode)
  }

  datatype Tier = EpisodeTier | NumberTier | TextTier

  /** Which rule decides a pair: chosen per pair, from both texts. */
  function TierOf(a: Plain, b: Plain): (t: Tier)
    ensures t == EpisodeTier <==> ParseEpisode(a).Some? && ParseEpisode(b).Some?
    ensures t == EpisodeTier ==> HasDigit(a) && HasDigit(b)
    ensures t == NumberTier <==> !(ParseEpisode(a).Some? && ParseEpisode(b).Some?) && HasDigit(a) && HasDigit(b)
    ensures t == TextTier <==> !(HasDigit(a) && HasDigit(b))
  {
    if ParseEpisode(a).Some? && ParseEpisode(b).Some? then EpisodeTier
    else if HasDigit(a) && HasDigit(b) then NumberTier
    else TextTier
  }

  /**
   * The comparator's value ordering, ascending. Two episode labels compare by show, season and
   * episode only; otherwise two texts with digits compare by their first number only, so equal
   * numbers are a tie; otherwise the texts compare case-insensitively.
   */
  function NaturalCmp(a: Plain, b: Plain): (r: int)
    ensures -1 <= r <= 1
    ensures TierOf(a, b) == EpisodeTier ==>
      r == EpisodeCmp(ParseEpisode(a).value, ParseEpisode(b).value)
    ensures TierOf(a, b) == NumberTier ==>
      (r == 0 <==> NumberOf(a) == NumberOf(b)) && (r < 0 <==> NumberOf(a) < NumberOf(b))
    ensures TierOf(a, b) == TextTier ==> (r == 0 <==> LowerAll(a) == LowerAll(b))
    ensures TierOf(a, b) == TextTier ==> (r < 0 <==> LexLess(LowerAll(a), LowerAll(b)))
  {
    match TierOf(a, b)
    case EpisodeTier => EpisodeCmp(ParseEpisode(a).value, ParseEpisode(b).value)
    case NumberTier => RealCmp(NumberOf(a), NumberOf(b))
    case TextTier =>
      CaseCmpZeroIff(a, b);
      CaseCmpLess(a, b);
      CaseCmp(a, b)
  }

  lemma {:induction false} EpisodeCmpAntisymmetric(a: Episode, b: Episode)
    ensures EpisodeCmp(a, b) == -EpisodeCmp(b, a)
  {
    CaseCmpAntisymmetric(a.show, b.show);
  }

  /** Swapping the two texts negates the result. */
  lemma {:induction false} NaturalCmpAntisymmetric(a: Plain, b: Plain)
    ensures NaturalCmp(a, b) == -NaturalCmp(b, a)
  {
    match TierOf(a, b)
    case EpisodeTier => EpisodeCmpAntisymmetric(ParseEpisode(a).value, ParseEpisode(b).value);
    case NumberTier =>
    case TextTier => CaseCmpAntisymmetric(a, b);
  }

  /** `strcasecmp` against a third string sees only the lower-cased text. */
  lemma {:induction false} CaseCmpRespectsLower(a: string, b: string, c: string)
    requires LowerAll(a) == LowerAll(b)
    ensures CaseCmp(a, c) == CaseCmp(b, c)
  {
    assert |a| == |LowerAll(a)| == |b|;
    if a != [] && c != [] {
      assert Lower(a[0]) == LowerAll(a)[0] == Lower(b[0]);
      assert LowerAll(a[1..]) == LowerAll(b[1..]) by {
        forall i | 0 <= i < |a| - 1 ensures LowerAll(a[1..])[i] == LowerAll(b[1..])[i] {
          assert Lower(a[i + 1]) == LowerAll(a)[i + 1] == Lower(b[i + 1]);
        }
      }
      CaseCmpRespectsLower(a[1..], b[1..], c[1..]);
    }
  }

  lemma {:induction false} EpisodeCmpTransitive(a: Episode, b: Episode, c: Episode)
    requires EpisodeCmp(a, b) <= 0 && EpisodeCmp(b, c) <= 0
    ensures EpisodeCmp(a, c) <= 0
  {
    CaseCmpZeroIff(a.show, b.show);
    CaseCmpZeroIff(b.show, c.show);
    CaseCmpZeroIff(a.show, c.show);
    CaseCmpTransitive(a.show, b.show, c.show);
    if LowerAll(a.show) == LowerAll(b.show) {
      CaseCmpRespectsLower(a.show, b.show, c.show);
    }
    if LowerAll(b.show) == LowerAll(c.show) {
      CaseCmpAntisymmetric(b.show, a.show);
      CaseCmpAntisymmetric(c.show, a.show);
      CaseCmpRespectsLower(b.show, c.show, a.show);
    }
    if LowerAll(a.show) == LowerAll(c.show) {
      CaseCmpAntisymmetric(a.show, b.show);
      CaseCmpAntisymmetric(c.show, b.show);
      CaseCmpRespectsLower(a.show, c.show, b.show);
    }
  }

  /**
   * Within one tier the ordering is transitive. When the three pairs of a triple fall into
   * different tiers it need not be (see TiersMakeCycles and CycleExample).
   */
  lemma {:induction false} NaturalCmpTransitive(a: Plain, b: Plain, c: Plain)
    requires TierOf(a, b) == TierOf(b, c) == TierOf(a, c)
    requires NaturalCmp(a, b) <= 0 && NaturalCmp(b, c) <= 0
    ensures NaturalCmp(a, c) <= 0
  {
    match TierOf(a, b)
    case EpisodeTier =>
      EpisodeCmpTransitive(ParseEpisode(a).value, ParseEpisode(b).value, ParseEpisode(c).value);
    case NumberTier =>
    case TextTier => CaseCmpTransitive(a, b, c);
  }

  /** Two texts that both parse as episodes compare by their episodes. */
  lemma {:induction false} ParsedCompareAsEpisodes(a: Plain, b: Plain)
    requires ParseEpisode(a).Some? && ParseEpisode(b).Some?
    ensures NaturalCmp(a, b) == EpisodeCmp(ParseEpisode(a).value, ParseEpisode(b).value)
  {
    assert TierOf(a, b) == EpisodeTier;
  }

  /** Two well-formed labels compare as their parsed episodes: the titles play no part. */
  lemma {:induction false} LabelsCompareAsEpisodes(
    show1: string, season1: string, episode1: string, title1: string,
    show2: string, season2: string, episode2: string, title2: string)
    requires PlainShow(show1) && season1 != [] && AllDigits(season1) && episode1 != [] && AllDigits(episode1)
    requires title1 != [] && '\n' !in title1
    requires PlainShow(show2) && season2 != [] && AllDigits(season2) && episode2 != [] && AllDigits(episode2)
    requires title2 != [] && '\n' !in title2
    ensures '\n' !in Label(show1, season1, episode1, title1) && '\n' !in Label(show2, season2, episode2, title2)
    ensures NaturalCmp(Label(show1, season1, episode1, title1), Label(show2, season2, episode2, title2))
         == EpisodeCmp(Episode(show1, DigitsValue(season1), DigitsValue(episode1)),
                       Episode(show2, DigitsValue(season2), DigitsValue(episode2)))
  {
    var a := Label(show1, season1, episode1, title1);
    var b := Label(show2, season2, episode2, title2);
    ParseLabel(show1, season1, episode1, title1);
    ParseLabel(show2, season2, episode2, title2);
    ParsedCompareAsEpisodes(a, b);
  }

  /**
   * Episode numbers compare as numbers, not as text: within one show and season the lower episode
   * comes first (episode "02" before "10", though "1" < "0" would put "10" first as text).
   */
  lemma {:induction false} LowerEpisodeFirst(show: string, season: string, episode1: string, episode2: string, title1: string, title2: string)
    requires PlainShow(show) && season != [] && AllDigits(season)
    requires episode1 != [] && AllDigits(episode1) && episode2 != [] && AllDigits(episode2)
    requires title1 != [] && '\n' !in title1 && title2 != [] && '\n' !in title2
    requires DigitsValue(episode1) < DigitsValue(episode2)
    ensures '\n' !in Label(show, season, episode1, title1) && '\n' !in Label(show, season, episode2, title2)
    ensures NaturalCmp(Label(show, season, episode1, title1), Label(show, season, episode2, title2)) < 0
  {
    LabelsCompareAsEpisodes(show, season, episode1, title1, show, season, episode2, title2);
  }

  lemma {:induction false} FirstDigitAt(s: string, i: nat, j: nat)
    requires i <= j <= |s|
    requires forall k :: i <= k < j ==> !IsDigit(s[k])
    requires j < |s| && IsDigit(s[j])
    ensures FirstDigit(s, i) == j
    decreases j - i
  {
    if i < j { FirstDigitAt(s, i + 1, j); }
  }

  /** A whole number with no digit before it and neither a digit nor a point after it is the match. */
  lemma {:induction false} ExtractWholeAt(s: string, i: nat, j: nat)
    requires i < j <= |s|
    requires forall k :: 0 <= k < i ==> !IsDigit(s[k])
    requires forall k :: i <= k < j ==> IsDigit(s[k])
    requires j == |s| || (!IsDigit(s[j]) && s[j] != '.')
    ensures HasDigit(s) && ExtractNumber(s) == Some(Decimal(s[i..j], ""))
  {
    FirstDigitAt(s, 0, i);
    DigitsEndAt(s, i, j);
  }

  /** In a text laid out as a label with a digit-free show, the season is the first run of digits. */
  lemma {:induction false} ShapedSeasonDigits(s: string, show: string, season: string, episode: string)
    requires !HasDigit(show) && AllDigits(season)
    requires LabelShaped(s, show, season, episode)
    ensures forall k :: 0 <= k < |show| + 4 ==> !IsDigit(s[k])
    ensures forall k :: |show| + 4 <= k < |show| + 4 + |season| ==> IsDigit(s[k])
    ensures s[|show| + 4 + |season|] == 'E'
  {
    var n := |show|;
    forall k | 0 <= k < n + 4 ensures !IsDigit(s[k]) {
      if k < n { assert s[k] == show[k]; }
    }
    forall k | n + 4 <= k < n + 4 + |season| ensures IsDigit(s[k]) { assert s[k] == season[k - n - 4]; }
  }

  /** When the show name holds no digit, the first number of a label is its season. */
  lemma {:induction false} NumberOfShaped(s: string, show: string, season: string, episode: string)
    requires !HasDigit(show) && season != [] && AllDigits(season)
    requires LabelShaped(s, show, season, episode)
    ensures HasDigit(s) && NumberOf(s) == DigitsValue(season) as real
  {
    var n := |show|;
    var c := n + 4 + |season|;
    ShapedSeasonDigits(s, show, season, episode);
    ExtractWholeAt(s, n + 4, c);
    ShapedSlices(s, show, season, episode);
  }

  /** A text with a number and no dash is never an episode label, so it meets a label in the number tier. */
  lemma {:induction false} NumberTierAgainstLabel(x: Plain, m: Plain)
    requires HasDigit(x) && HasDigit(m) && '-' !in m
    ensures TierOf(x, m) == NumberTier && TierOf(m, x) == NumberTier
  {
  }

  /**
   * The tiers are chosen per pair, so the ordering has cycles: two labels whose show names hold no
   * digit compare by show name, while each of them against a plain number compares by first
   * number, which for a label is its season.
   */
  lemma {:induction false} TiersMakeCycles(showX: string, showY: string, seasonX: string, seasonY: string, episode: string, title: string, m: Plain)
    requires PlainShow(showX) && PlainShow(showY) && !HasDigit(showX) && !HasDigit(showY)
    requires LowerAll(showX) != LowerAll(showY) && CaseCmp(showX, showY) < 0
    requires seasonX != [] && AllDigits(seasonX) && seasonY != [] && AllDigits(seasonY)
    requires episode != [] && AllDigits(episode) && title != [] && '\n' !in title
    requires HasDigit(m) && '-' !in m
    requires DigitsValue(seasonY) as real < NumberOf(m) < DigitsValue(seasonX) as real
    ensures '\n' !in Label(showX, seasonX, episode, title) && '\n' !in Label(showY, seasonY, episode, title)
    ensures NaturalCmp(Label(showX, seasonX, episode, title), Label(showY, seasonY, episode, title)) < 0
    ensures NaturalCmp(Label(showY, seasonY, episode, title), m) < 0
    ensures NaturalCmp(m, Label(showX, seasonX, episode, title)) < 0
  {
    LabelsCompareAsEpisodes(showX, seasonX, episode, title, showY, seasonY, episode, title);
    var x: Plain := Label(showX, seasonX, episode, title);
    var y: Plain := Label(showY, seasonY, episode, title);
    LabelParts(showX, seasonX, episode, title);
    LabelParts(showY, seasonY, episode, title);
    NumberOfShaped(x, showX, seasonX, episode);
    NumberOfShaped(y, showY, seasonY, episode);
    NumberTierAgainstLabel(x, m);
    NumberTierAgainstLabel(y, m);
  }

  /** An instance: `A - S3E1 - t` < `B - S1E1 - t` < `2` < `A - S3E1 - t`. */
  lemma {:induction false} CycleExample()
    ensures '\n' !in Label("A", "3", "1", "t") && '\n' !in Label("B", "1", "1", "t")
    ensures NaturalCmp(Label("A", "3", "1", "t"), Label("B", "1", "1", "t")) < 0
    ensures NaturalCmp(Label("B", "1", "1", "t"), "2") < 0
    ensures NaturalCmp("2", Label("A", "3", "1", "t")) < 0
  {
    assert IsDigit("2"[0]);
    assert FirstDigit("2", 0) == 0;
    DigitsEndAt("2", 0, 1);
    assert "2"[0..1] == "2";
    assert ExtractNumber("2") == Some(Decimal("2", ""));
    assert DigitsValue("2") == 2 && DigitsValue("3") == 3 && DigitsValue("1") == 1;
    assert LowerAll("A") == "a" && LowerAll("B") == "b";
    TiersMakeCycles("A", "B", "3", "1", "1", "t", "2");
  }

  /** An instance: episode 2 comes before episode 10. */
  lemma {:induction false} EpisodeTwoBeforeTen()
    ensures '\n' !in Label("Foo Show", "01", "02", "Pilot") && '\n' !in Label("Foo Show", "01", "10", "Finale")
    ensures NaturalCmp(Label("Foo Show", "01", "02", "Pilot"), Label("Foo Show", "01", "10", "Finale")) < 0
  {
    assert "02"[..1] == "0" && "10"[..1] == "1";
    assert DigitsValue("02") == 2 && DigitsValue("10") == 10;
    LowerEpisodeFirst("Foo Show", "01", "02", "10", "Pilot", "Finale");
  }
}
