/** Slugs: the normaliser, the grammar it is checked against, and the search for a free one. */
module Slugs {
  import opened Wrappers
  import opened Text

  predicate IsAlnum(c: char)
  {
    'a' <= c <= 'z' || '0' <= c <= '9'
  }

  /** Case folding and white space, of which only this is used: both leave slug characters alone. */
  datatype Unicode = Unicode(lower: char -> char, space: char -> bool) {
    ghost predicate Valid()
    {
      forall c :: IsAlnum(c) || c == '-' ==> lower(c) == c && !space(c)
    }
  }

  // ---------------------------------------------------------------- the normaliser

  function LowerAll(u: Unicode, s: string): string
  {
    seq(|s|, i requires 0 <= i < |s| => u.lower(s[i]))
  }

  function TrimLeft(s: string, drop: char -> bool): string
  {
    if s != "" && drop(s[0]) then TrimLeft(s[1..], drop) else s
  }

  function TrimRight(s: string, drop: char -> bool): string
  {
    if s != "" && drop(s[|s| - 1]) then TrimRight(s[..|s| - 1], drop) else s
  }

  function Trim(s: string, drop: char -> bool): string
  {
    TrimRight(TrimLeft(s, drop), drop)
  }

  predicate IsDash(c: char)
  {
    c == '-'
  }

  /** Every maximal run of other characters becomes one dash. */
  function ReplaceRuns(s: string): string
  {
    if s == "" then ""
    else
      var n := |s| - 1;
      var before := ReplaceRuns(s[..n]);
      if IsAlnum(s[n]) then before + [s[n]]
      else if n > 0 && !IsAlnum(s[n - 1]) then before
      else before + "-"
  }

  function Slugify(u: Unicode, s: string): string
  {
    Trim(ReplaceRuns(Trim(LowerAll(u, s), u.space)), IsDash)
  }

  // ---------------------------------------------------------------- the grammar

  datatype State = Start | InWord | AfterDash | Dead

  /** The automaton of one or more words of slug characters with single dashes between them. */
  function Scan(s: string): State
  {
    if s == "" then Start
    else
      var before := Scan(s[..|s| - 1]);
      var c := s[|s| - 1];
      if IsAlnum(c) then if before == Dead then Dead else InWord
      else if c == '-' && before == InWord then AfterDash
      else Dead
  }

  predicate MatchesSlug(s: string)
  {
    Scan(s) == InWord
  }

  const MAX_SLUG: nat := 100

  predicate ValidateSlug(s: string)
  {
    1 <= |s| <= MAX_SLUG && MatchesSlug(s)
  }

  predicate IsWord(w: string)
  {
    w != "" && forall c :: c in w ==> IsAlnum(c)
  }

  ghost predicate AreWords(words: seq<string>)
  {
    forall w :: w in words ==> IsWord(w)
  }

  // ---------------------------------------------------------------- words, the reference definition

  /** The maximal runs of slug characters. */
  function Words(s: string): seq<string>
  {
    if s == "" then []
    else
      var n := |s| - 1;
      var before := Words(s[..n]);
      if !IsAlnum(s[n]) then before
      else if n > 0 && IsAlnum(s[n - 1]) && before != [] then before[|before| - 1 := before[|before| - 1] + [s[n]]]
      else before + [[s[n]]]
  }

  lemma {:induction false} WordsFacts(s: string)
    ensures AreWords(Words(s))
    ensures s != "" && IsAlnum(s[|s| - 1]) ==> Words(s) != []
    ensures Words(s) == [] ==> forall c :: c in s ==> !IsAlnum(c)
  {
    if s != "" {
      var n := |s| - 1;
      WordsFacts(s[..n]);
      assert s == s[..n] + [s[n]];
      if n > 0 { assert s[n - 1] == s[..n][|s[..n]| - 1]; }
      var before := Words(s[..n]);
      forall w | w in Words(s) ensures IsWord(w) {
        if w !in before {
          assert w == [s[n]] || (before != [] && IsWord(before[|before| - 1]) && w == before[|before| - 1] + [s[n]]);
        }
      }
    }
  }

  lemma {:induction false} JoinLast(words: seq<string>, w: string)
    ensures Join(words + [w], '-') == if words == [] then w else Join(words, '-') + "-" + w
  {
    if words == [] {
      assert words + [w] == [w];
    } else if |words| == 1 {
      assert (words + [w])[1..] == [w];
    } else {
      JoinLast(words[1..], w);
      assert (words + [w])[1..] == words[1..] + [w];
      assert words[0] + "-" + (Join(words[1..], '-') + "-" + w) == words[0] + "-" + Join(words[1..], '-') + "-" + w;
    }
  }

  lemma JoinExtend(words: seq<string>, c: char)
    requires words != []
    ensures Join(words[|words| - 1 := words[|words| - 1] + [c]], '-') == Join(words, '-') + [c]
  {
    var n := |words| - 1;
    assert words == words[..n] + [words[n]];
    assert words[n := words[n] + [c]] == words[..n] + [words[n] + [c]];
    JoinLast(words[..n], words[n]);
    JoinLast(words[..n], words[n] + [c]);
    assert n > 0 ==> Join(words[..n], '-') + "-" + (words[n] + [c]) == Join(words[..n], '-') + "-" + words[n] + [c];
  }

  predicate LeadsWithGap(s: string)
  {
    s != "" && !IsAlnum(s[0])
  }

  predicate EndsWithGap(s: string)
  {
    s != "" && !IsAlnum(s[|s| - 1])
  }

  /** The words joined with dashes, with one more at each end that is not a word. */
  function JoinedRuns(s: string): string
  {
    (if LeadsWithGap(s) then "-" else "") + Join(Words(s), '-') + (if EndsWithGap(s) && Words(s) != [] then "-" else "")
  }

  lemma SnocWords(s: string, c: char)
    ensures Words(s + [c]) ==
      var before := Words(s);
      if !IsAlnum(c) then before
      else if s != "" && IsAlnum(s[|s| - 1]) && before != [] then before[|before| - 1 := before[|before| - 1] + [c]]
      else before + [[c]]
    ensures s != "" ==> (LeadsWithGap(s + [c]) <==> LeadsWithGap(s))
    ensures EndsWithGap(s + [c]) <==> !IsAlnum(c)
  {
    assert (s + [c])[..|s|] == s;
  }

  lemma JoinedRunsSnocWord(s: string, c: char)
    requires s != "" && IsAlnum(c)
    ensures JoinedRuns(s + [c]) == JoinedRuns(s) + [c]
  {
    SnocWords(s, c);
    WordsFacts(s);
    if IsAlnum(s[|s| - 1]) {
      JoinExtend(Words(s), c);
    } else {
      JoinLast(Words(s), [c]);
      if Words(s) == [] { assert s[0] in s; }
    }
  }

  lemma JoinedRunsSnocGap(s: string, c: char)
    requires s != "" && !IsAlnum(c)
    ensures JoinedRuns(s + [c]) == JoinedRuns(s) + if IsAlnum(s[|s| - 1]) then "-" else ""
  {
    SnocWords(s, c);
    WordsFacts(s);
  }

  /** Replacing runs joins the words. */
  lemma {:induction false} ReplaceRunsIsJoin(s: string)
    ensures ReplaceRuns(s) == JoinedRuns(s)
  {
    if |s| == 1 {
      assert s == [s[0]] && s[..0] == "" && Words("") == [];
      assert Words(s) == if IsAlnum(s[0]) then [s] else [];
    } else if s != "" {
      var n := |s| - 1;
      ReplaceRunsIsJoin(s[..n]);
      assert s == s[..n] + [s[n]] && s[..n][n - 1] == s[n - 1];
      if IsAlnum(s[n]) { JoinedRunsSnocWord(s[..n], s[n]); } else { JoinedRunsSnocGap(s[..n], s[n]); }
    }
  }

  lemma {:induction false} WordsAfterGap(c: char, s: string)
    requires !IsAlnum(c)
    ensures Words([c] + s) == Words(s)
  {
    if s == "" {
      assert ([c] + s)[..0] == "";
    } else {
      var n := |s| - 1;
      WordsAfterGap(c, s[..n]);
      assert ([c] + s)[..n + 1] == [c] + s[..n];
      if n > 0 { assert ([c] + s)[n] == s[n - 1]; }
    }
  }

  lemma {:induction false} WordsTrimmed(s: string, drop: char -> bool)
    requires forall c :: IsAlnum(c) ==> !drop(c)
    ensures Words(TrimLeft(s, drop)) == Words(s)
    ensures Words(TrimRight(s, drop)) == Words(s)
    decreases |s|
  {
    if s != "" && drop(s[0]) {
      assert s == [s[0]] + s[1..];
      WordsAfterGap(s[0], s[1..]);
      WordsTrimmed(s[1..], drop);
    }
    if s != "" && drop(s[|s| - 1]) {
      WordsTrimmed(s[..|s| - 1], drop);
    }
  }

  /** A join of words neither starts nor ends with a dash. */
  lemma {:induction false} JoinEnds(words: seq<string>)
    requires AreWords(words) && words != []
    ensures var j := Join(words, '-'); j != "" && IsAlnum(j[0]) && IsAlnum(j[|j| - 1])
  {
    assert IsWord(words[0]);
    assert words[0][0] in words[0];
    if |words| > 1 {
      JoinEnds(words[1..]);
    } else {
      assert words[0][|words[0]| - 1] in words[0];
    }
  }

  lemma TrimDashes(j: string, left: bool, right: bool)
    requires j != "" && IsAlnum(j[0]) && IsAlnum(j[|j| - 1])
    ensures Trim((if left then "-" else "") + j + (if right then "-" else ""), IsDash) == j
  {
    var tail := j + if right then "-" else "";
    if left {
      var s := "-" + j + (if right then "-" else "");
      assert s[1..] == tail;
      assert TrimLeft(s, IsDash) == TrimLeft(tail, IsDash);
    } else {
      assert "" + j + (if right then "-" else "") == tail;
    }
    assert TrimLeft(tail, IsDash) == tail;
    if right {
      assert tail[..|tail| - 1] == j;
      assert TrimRight(tail, IsDash) == TrimRight(j, IsDash);
    } else {
      assert tail == j;
    }
  }

  /** Slugify is the words of the lower-cased text joined by dashes. */
  lemma SlugifyJoinsWords(u: Unicode, s: string)
    requires u.Valid()
    ensures Slugify(u, s) == Join(Words(LowerAll(u, s)), '-')
  {
    var low := LowerAll(u, s);
    var t := Trim(low, u.space);
    WordsTrimmed(low, u.space);
    WordsTrimmed(TrimLeft(low, u.space), u.space);
    ReplaceRunsIsJoin(t);
    WordsFacts(t);
    if Words(t) == [] {
      assert t != "" ==> t[0] in t;
      assert ReplaceRuns(t) == if t == "" then "" else "-";
      assert "-"[1..] == "" && TrimLeft("-", IsDash) == TrimLeft("", IsDash);
      assert Trim(ReplaceRuns(t), IsDash) == "";
    } else {
      JoinEnds(Words(t));
      TrimDashes(Join(Words(t), '-'), LeadsWithGap(t), EndsWithGap(t));
    }
  }

  // ---------------------------------------------------------------- what slugs are like

  lemma {:induction false} ScanWord(s: string, w: string)
    requires IsWord(w) && Scan(s) != Dead
    ensures Scan(s + w) == InWord
  {
    var n := |w| - 1;
    assert (s + w)[..|s + w| - 1] == s + w[..n];
    assert w[n] in w;
    if n > 0 {
      assert forall c :: c in w[..n] ==> c in w;
      ScanWord(s, w[..n]);
    } else {
      assert s + w[..0] == s;
    }
  }

  lemma ScanDash(s: string)
    requires Scan(s) == InWord
    ensures Scan(s + "-") == AfterDash
  {
  }

  lemma {:induction false} JoinMatches(words: seq<string>)
    requires AreWords(words) && words != []
    ensures MatchesSlug(Join(words, '-'))
  {
    var n := |words| - 1;
    assert words == words[..n] + [words[n]];
    JoinLast(words[..n], words[n]);
    if n == 0 {
      ScanWord("", words[0]);
      assert "" + words[0] == words[0];
    } else {
      JoinMatches(words[..n]);
      ScanDash(Join(words[..n], '-'));
      ScanWord(Join(words[..n], '-') + "-", words[n]);
    }
  }

  lemma StartWord(s: string, c: char)
    requires IsAlnum(c) && !(s != "" && IsAlnum(s[|s| - 1]))
    ensures Words(s + [c]) == Words(s) + [[c]]
  {
    SnocWords(s, c);
  }

  lemma ExtendWord(t: string, words: seq<string>, w: string, c: char)
    requires IsAlnum(c) && t != "" && IsAlnum(t[|t| - 1]) && Words(t) == words + [w]
    ensures Words(t + [c]) == words + [w + [c]]
  {
    SnocWords(t, c);
    assert (words + [w])[|words| := w + [c]] == words + [w + [c]];
  }

  lemma {:induction false} WordsOfWord(s: string, w: string)
    requires IsWord(w) && !(s != "" && IsAlnum(s[|s| - 1]))
    ensures Words(s + w) == Words(s) + [w]
  {
    var n := |w| - 1;
    assert w[n] in w && w == w[..n] + [w[n]];
    if n > 0 {
      assert w[n - 1] in w && forall c :: c in w[..n] ==> c in w;
      WordsOfWord(s, w[..n]);
      ExtendWord(s + w[..n], Words(s), w[..n], w[n]);
      assert s + w == (s + w[..n]) + [w[n]];
    } else {
      StartWord(s, w[0]);
      assert w == [w[0]];
    }
  }

  /** Joining words and finding them again loses nothing. */
  lemma {:induction false} WordsOfJoin(words: seq<string>)
    requires AreWords(words)
    ensures Words(Join(words, '-')) == words
  {
    if words != [] {
      var n := |words| - 1;
      assert words == words[..n] + [words[n]];
      JoinLast(words[..n], words[n]);
      WordsOfJoin(words[..n]);
      if n == 0 {
        WordsOfWord("", words[0]);
        assert "" + words[0] == words[0];
      } else {
        var s := Join(words[..n], '-') + "-";
        assert s[..|s| - 1] == Join(words[..n], '-');
        WordsOfWord(s, words[n]);
      }
    }
  }

  lemma {:induction false} MatchingIsJoin(s: string)
    ensures MatchesSlug(s) || Scan(s) == AfterDash ==>
      Words(s) != [] && s == Join(Words(s), '-') + if Scan(s) == AfterDash then "-" else ""
  {
    if s != "" && Scan(s) != Dead {
      var n := |s| - 1;
      MatchingIsJoin(s[..n]);
      assert s == s[..n] + [s[n]];
      if IsAlnum(s[n]) {
        if Scan(s[..n]) == InWord {
          assert IsAlnum(s[..n][n - 1]);
          JoinExtend(Words(s[..n]), s[n]);
        } else {
          JoinLast(Words(s[..n]), [s[n]]);
        }
      }
    }
  }

  /** The grammar's texts are exactly the joins of one or more words. */
  lemma MatchesIffJoin(s: string)
    ensures MatchesSlug(s) <==> exists words :: words != [] && AreWords(words) && s == Join(words, '-')
  {
    if MatchesSlug(s) {
      MatchingIsJoin(s);
      WordsFacts(s);
      assert Words(s) != [] && AreWords(Words(s)) && s == Join(Words(s), '-');
    }
    if words :| words != [] && AreWords(words) && s == Join(words, '-') {
      JoinMatches(words);
    }
  }

  lemma SlugCharsLowered(u: Unicode, s: string)
    requires u.Valid() && Scan(s) != Dead
    ensures LowerAll(u, s) == s
  {
  }

  lemma {:induction false} TrimShortens(s: string, drop: char -> bool)
    ensures |TrimLeft(s, drop)| <= |s| && |TrimRight(s, drop)| <= |s|
    decreases |s|
  {
    if s != "" {
      TrimShortens(s[1..], drop);
      TrimShortens(s[..|s| - 1], drop);
    }
  }

  lemma {:induction false} ReplaceShortens(s: string)
    ensures |ReplaceRuns(s)| <= |s|
  {
    if s != "" { ReplaceShortens(s[..|s| - 1]); }
  }

  /** A slug is empty or in the grammar, no longer than its text, and its own slug; it is empty exactly
      for texts without a slug character; and texts in the grammar are left as they are. */
  lemma SlugifyWellFormed(u: Unicode, s: string)
    requires u.Valid()
    ensures var slug := Slugify(u, s);
      && (slug == "" || MatchesSlug(slug))
      && (slug == "" <==> forall c :: c in LowerAll(u, s) ==> !IsAlnum(c))
      && |slug| <= |s|
      && Slugify(u, slug) == slug
    ensures MatchesSlug(s) ==> Slugify(u, s) == s
  {
    var low := LowerAll(u, s);
    var slug := Slugify(u, s);
    SlugifyJoinsWords(u, s);
    WordsFacts(low);
    if Words(low) == [] {
      SlugifyJoinsWords(u, "");
    } else {
      JoinMatches(Words(low));
      SlugCharsLowered(u, slug);
      SlugifyJoinsWords(u, slug);
      WordsOfJoin(Words(low));
      assert exists c :: c in low && IsAlnum(c) by {
        if forall c :: c in low ==> !IsAlnum(c) { NoWords(low); }
      }
    }
    var trimmed := Trim(low, u.space);
    TrimShortens(low, u.space);
    TrimShortens(TrimLeft(low, u.space), u.space);
    ReplaceShortens(trimmed);
    TrimShortens(ReplaceRuns(trimmed), IsDash);
    TrimShortens(TrimLeft(ReplaceRuns(trimmed), IsDash), IsDash);
    if MatchesSlug(s) {
      SlugCharsLowered(u, s);
      MatchingIsJoin(s);
    }
  }

  /** The characters of a slug, and of the texts the grammar accepts. */
  lemma {:induction false} SlugCharacters(s: string)
    requires Scan(s) != Dead
    ensures forall c :: c in s ==> 'a' <= c <= 'z' || '0' <= c <= '9' || c == '-'
    ensures forall i :: 0 < i < |s| ==> s[i] != '-' || s[i - 1] != '-'
    ensures s != "" ==> s[0] != '-' && (Scan(s) == AfterDash <==> s[|s| - 1] == '-')
  {
    if s != "" {
      SlugCharacters(s[..|s| - 1]);
      assert s == s[..|s| - 1] + [s[|s| - 1]];
    }
  }

  /** The grammar, character by character: letters, digits and dashes, no dash first, last or twice in a row. */
  lemma {:induction false} MatchesSlugIff(s: string)
    ensures MatchesSlug(s) <==>
      && s != "" && s[0] != '-' && s[|s| - 1] != '-'
      && (forall c :: c in s ==> 'a' <= c <= 'z' || '0' <= c <= '9' || c == '-')
      && (forall i :: 0 < i < |s| ==> s[i] != '-' || s[i - 1] != '-')
  {
    if MatchesSlug(s) {
      SlugCharacters(s);
    }
    if Spaced(s) {
      SpacedAlive(s);
    }
  }

  /** What slug validation accepts. */
  lemma ValidateSlugIff(s: string)
    ensures ValidateSlug(s) <==>
      && 1 <= |s| <= 100 && s[0] != '-' && s[|s| - 1] != '-'
      && (forall c :: c in s ==> 'a' <= c <= 'z' || '0' <= c <= '9' || c == '-')
      && (forall i :: 0 < i < |s| ==> s[i] != '-' || s[i - 1] != '-')
  {
    MatchesSlugIff(s);
  }

  predicate Spaced(s: string)
  {
    && (s != "" ==> s[0] != '-')
    && (forall c :: c in s ==> 'a' <= c <= 'z' || '0' <= c <= '9' || c == '-')
    && (forall i :: 0 < i < |s| ==> s[i] != '-' || s[i - 1] != '-')
  }

  lemma {:induction false} SpacedAlive(s: string)
    requires Spaced(s)
    ensures Scan(s) == if s == "" then Start else if s[|s| - 1] == '-' then AfterDash else InWord
  {
    if s != "" {
      var n := |s| - 1;
      assert s[n] in s && forall c :: c in s[..n] ==> c in s;
      SpacedAlive(s[..n]);
    }
  }

  lemma {:induction false} NoWords(s: string)
    requires forall c :: c in s ==> !IsAlnum(c)
    ensures Words(s) == []
  {
    if s != "" {
      assert s[|s| - 1] in s && forall c :: c in s[..|s| - 1] ==> c in s;
      NoWords(s[..|s| - 1]);
    }
  }

  // ---------------------------------------------------------------- a free slug

  const FALLBACK := "question"
  const MAX_BASE: nat := 80
  const ATTEMPTS: nat := 10

  method TrimSuffixDash(s: string) returns (r: string)
    ensures r == TrimRight(s, IsDash)
  {
    r := s;
    while |r| > 0 && r[|r| - 1] == '-'
      invariant TrimRight(r, IsDash) == TrimRight(s, IsDash)
      decreases |r|
    {
      r := r[..|r| - 1];
    }
  }

  function Base(u: Unicode, title: string): string
  {
    var slug := Slugify(u, title);
    var named := if slug == "" then FALLBACK else slug;
    if |named| > MAX_BASE then TrimRight(named[..MAX_BASE], IsDash) else named
  }

  /** The slug tried in round i: the base, then the base with a fresh suffix. */
  function Candidate(base: string, suffixes: seq<string>, i: nat): string
    requires i <= |suffixes|
  {
    if i == 0 then base else base + "-" + suffixes[i - 1]
  }

  lemma {:induction false} ScanPrefix(s: string, n: nat)
    requires n <= |s| && Scan(s) != Dead
    ensures Scan(s[..n]) != Dead
  {
    if n < |s| {
      ScanPrefix(s[..|s| - 1], n);
      assert s[..|s| - 1][..n] == s[..n];
    } else {
      assert s[..n] == s;
    }
  }

  lemma FallbackMatches()
    ensures MatchesSlug(FALLBACK)
  {
    assert IsWord(FALLBACK);
    ScanWord("", FALLBACK);
    assert "" + FALLBACK == FALLBACK;
  }

  /** The base is a slug of at most 80 characters, cut anywhere. */
  lemma BaseMatches(u: Unicode, title: string)
    requires u.Valid()
    ensures MatchesSlug(Base(u, title)) && 1 <= |Base(u, title)| <= MAX_BASE
  {
    SlugifyWellFormed(u, title);
    FallbackMatches();
    var slug := Slugify(u, title);
    var named := if slug == "" then FALLBACK else slug;
    if |named| > MAX_BASE {
      var cut := named[..MAX_BASE];
      ScanPrefix(named, MAX_BASE);
      TrimShortens(cut, IsDash);
      if cut[|cut| - 1] == '-' {
        var shorter := cut[..|cut| - 1];
        assert Scan(shorter) == InWord;
        assert shorter[|shorter| - 1] != '-';
        assert TrimRight(shorter, IsDash) == shorter;
      }
    }
  }

  /** The base is the slug of the title, or "question" if that is empty. Of one longer than 80 characters it is the
      longest beginning of at most 80 characters that does not end in a dash. */
  lemma BaseOutcome(u: Unicode, title: string)
    requires u.Valid()
    ensures var base, slug := Base(u, title), Slugify(u, title);
      && (slug == "" ==> base == "question")
      && (1 <= |slug| <= 80 ==> base == slug)
      && (|slug| > 80 ==>
            && base <= slug && 1 <= |base| <= 80 && base[|base| - 1] != '-'
            && forall n :: |base| <= n < 80 ==> slug[n] == '-')
  {
    BaseMatches(u, title);
    var slug := Slugify(u, title);
    if |slug| > 80 { TrimmedCut(slug[..80]); }
  }

  lemma {:induction false} TrimmedCut(s: string)
    ensures var r := TrimRight(s, IsDash);
      && r <= s && (r != "" ==> r[|r| - 1] != '-')
      && forall n :: |r| <= n < |s| ==> s[n] == '-'
    decreases |s|
  {
    if s != "" && s[|s| - 1] == '-' { TrimmedCut(s[..|s| - 1]); }
  }

  ghost predicate IsSuffix(w: string)
  {
    |w| == 8 && forall c :: c in w ==> '0' <= c <= '9' || 'a' <= c <= 'f'
  }

  lemma CandidateValid(u: Unicode, title: string, suffixes: seq<string>, i: nat)
    requires u.Valid() && i <= |suffixes| && forall w :: w in suffixes ==> IsSuffix(w)
    ensures var slug := Candidate(Base(u, title), suffixes, i);
      ValidateSlug(slug) && 1 <= |slug| <= 89 && MatchesSlug(slug)
  {
    BaseMatches(u, title);
    if i > 0 {
      var base := Base(u, title);
      assert suffixes[i - 1] in suffixes;
      ScanDash(base);
      ScanWord(base + "-", suffixes[i - 1]);
    }
  }

  datatype SlugError = LookupFailed | NoneFree

  method SlugBase(u: Unicode, title: string) returns (base: string)
    ensures base == Base(u, title)
  {
    base := Slugify(u, title);
    if base == "" {
      base := FALLBACK;
    }
    if |base| > MAX_BASE {
      base := base[..MAX_BASE];
      base := TrimSuffixDash(base);
    }
  }

  /** The first free candidate among those looked up before anything fails. */
  ghost predicate FirstFree(base: string, suffixes: seq<string>, taken: set<string>, slug: string)
  {
    exists i :: 0 <= i < |suffixes| && AllTaken(base, suffixes, taken, i)
                && slug == if i == 0 then base else base + "-" + suffixes[i - 1]
  }

  ghost predicate AllTaken(base: string, suffixes: seq<string>, taken: set<string>, n: nat)
    requires n <= |suffixes|
  {
    forall j :: 0 <= j < n ==> Candidate(base, suffixes, j) in taken
  }

  /** A slug that is returned is valid and was free, the first such candidate; failing to find one means ten
      taken candidates, or a lookup that failed. `suffixes` are the random suffixes drawn, `readable` says
      which lookups work. */
  method UniqueSlug(u: Unicode, title: string, taken: set<string>, suffixes: seq<string>, readable: seq<bool>)
    returns (r: Result<string, SlugError>)
    requires u.Valid()
    requires |suffixes| == |readable| == 10 && forall w :: w in suffixes ==> IsSuffix(w)
    ensures r.Ok? ==> ValidateSlug(r.value) && MatchesSlug(r.value) && 1 <= |r.value| <= 100 && r.value !in taken
    ensures r.Ok? ==> FirstFree(Base(u, title), suffixes, taken, r.value)
    ensures r == Err(NoneFree)
      <==> AllTaken(Base(u, title), suffixes, taken, 10) && forall i :: 0 <= i < 10 ==> readable[i]
  {
    var base := SlugBase(u, title);
    var slug := base;
    for i := 0 to ATTEMPTS
      invariant slug == Candidate(base, suffixes, i)
      invariant AllTaken(base, suffixes, taken, i)
      invariant forall j :: 0 <= j < i ==> readable[j]
    {
      if !readable[i] {
        return Err(LookupFailed);
      }
      if slug !in taken {
        CandidateValid(u, title, suffixes, i);
        return Ok(slug);
      }
      slug := base + "-" + suffixes[i];
    }
    r := Err(NoneFree);
  }
}
