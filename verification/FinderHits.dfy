/** What the finders' hits are: not only whether there is one, but exactly which stretch of the text each one marks. */
module FinderHits {
  import opened Wrappers
  import opened Chars
  import opened Regex
  import opened TextRuns
  import opened Patterns
  import opened MirrorFinders
  import ScanParity

  // ---------- a stretch of the text, and of its collapsed form ----------

  /** A text of some length, its collapsed form, which of its characters are kept there, and how many are kept before
      each. */
  datatype Collapse = Collapse(length: nat, chars: string, kept: nat -> bool, place: nat -> nat)

  ghost function CollapseOf(text: string): Collapse {
    Collapse(|text|, Alnum(text), (i: nat) => i < |text| && Kept(text[i]) != "", (i: nat) => if i <= |text| then |Alnum(text[..i])| else 0)
  }

  /** h starts on the a-th kept character and ends right after the one before the b-th. */
  ghost predicate Reads(c: Collapse, h: Span, a: nat, b: nat) {
    h.start < h.end <= c.length && a < b && c.kept(h.start) && c.kept(h.end - 1) && c.place(h.start) == a && c.place(h.end) == b
  }

  ghost predicate Counts(c: Collapse) { forall i: nat {:trigger c.kept(i)} :: i < c.length ==> c.place(i + 1) == c.place(i) + if c.kept(i) then 1 else 0 }

  lemma {:induction false} AlnumPrefix(text: string, i: nat, j: nat)
    requires i <= j <= |text|
    ensures Alnum(text[..j]) == Alnum(text[..i]) + Alnum(text[i..j])
  {
    assert text[..j] == text[..i] + text[i..j];
    AlnumConcat(text[..i], text[i..j]);
  }

  lemma {:induction false} AlnumNext(text: string, i: nat)
    requires i < |text|
    ensures Alnum(text[..i + 1]) == Alnum(text[..i]) + Kept(text[i])
  {
    AlnumPrefix(text, i, i + 1);
    assert text[i..i + 1] == [text[i]];
    assert Alnum([text[i]]) == Kept(text[i]);
  }

  lemma {:induction false} CollapseCounts(text: string)
    ensures Counts(CollapseOf(text))
  {
    var c := CollapseOf(text);
    forall i: nat | i < c.length ensures c.place(i + 1) == c.place(i) + if c.kept(i) then 1 else 0 { AlnumNext(text, i); }
  }

  /** What such a stretch says is that piece of the collapsed text. */
  lemma {:induction false} ReadsText(text: string, h: Span, a: nat, b: nat)
    requires Reads(CollapseOf(text), h, a, b)
    ensures b <= |Alnum(text)| && Alnum(text[h.start..h.end]) == Alnum(text)[a..b]
  {
    AlnumPrefix(text, h.start, h.end);
    AlnumPrefix(text, h.end, |text|);
    assert text[..|text|] == text;
  }

  lemma {:induction false} PlaceGrows(c: Collapse, i: nat, j: nat)
    requires Counts(c) && i <= j <= c.length
    ensures c.place(i) <= c.place(j) && (i < j && (c.kept(i) || c.kept(j - 1)) ==> c.place(i) < c.place(j))
    decreases j - i
  {
    if i < j {
      PlaceGrows(c, i + 1, j);
      PlaceGrows(c, i, j - 1);
      assert c.kept(i) || !c.kept(i);
      assert c.kept(j - 1) || !c.kept(j - 1);
    }
  }

  lemma {:induction false} ReadsUnique(c: Collapse, h: Span, g: Span, a: nat, b: nat)
    requires Counts(c) && Reads(c, h, a, b) && Reads(c, g, a, b)
    ensures h == g
  {
    if h.start < g.start { PlaceGrows(c, h.start, g.start); }
    if g.start < h.start { PlaceGrows(c, g.start, h.start); }
    if h.end < g.end { PlaceGrows(c, h.end, g.end); }
    if g.end < h.end { PlaceGrows(c, g.end, h.end); }
  }

  /** The shadow is the collapsed text with where each character stands. */
  ghost predicate Shadows(c: Collapse, sh: Shadow) {
    && |sh.at| == |sh.chars| && sh.chars == c.chars && (forall k :: 0 <= k < |sh.at| ==> sh.at[k] < c.length && c.kept(sh.at[k]) && c.place(sh.at[k]) == k)
    && forall j, k :: 0 <= j < k < |sh.at| ==> sh.at[j] < sh.at[k]
  }

  lemma {:induction false} ShadowAt(text: string, n: nat, k: nat)
    requires n <= |text| && k < |ShadowUpTo(text, n).at|
    ensures var i := ShadowUpTo(text, n).at[k]; |Alnum(text[..i])| == k && Kept(text[i]) != ""
  {
    if k < |ShadowUpTo(text, n - 1).at| { ShadowAt(text, n - 1, k); } else { ScanParity.ShadowPrefix(text, n - 1); }
  }

  lemma {:induction false} ShadowOfShadows(text: string)
    ensures Shadows(CollapseOf(text), ShadowOf(text))
  {
    var c, sh := CollapseOf(text), ShadowOf(text);
    ScanParity.ShadowIsAlnum(text);
    forall k | 0 <= k < |sh.at| ensures c.kept(sh.at[k]) && c.place(sh.at[k]) == k { ShadowAt(text, |text|, k); }
  }

  lemma {:induction false} ShadowSpanReads(c: Collapse, sh: Shadow, i: nat, length: nat)
    requires Counts(c) && Shadows(c, sh) && 0 < length && i + length <= |sh.chars|
    ensures Reads(c, ShadowSpan(sh, i, length), i, i + length)
  {
    var last := sh.at[i + length - 1];
    assert c.place(last + 1) == c.place(last) + 1;
  }

  // ---------- long digit runs ----------

  lemma {:induction false} LongRunsMember(sh: Shadow, runs: seq<Span>, h: Span)
    requires |sh.at| == |sh.chars| && forall r :: r in runs ==> r.start < r.end <= |sh.chars|
    ensures h in LongRuns(sh, runs) <==>
      exists r :: r in runs && r.end - r.start >= DIGIT_RUN_MIN && h == ShadowSpan(sh, r.start, r.end - r.start)
  {
    if runs != [] {
      LongRunsMember(sh, runs[..|runs| - 1], h);
      assert runs == runs[..|runs| - 1] + [runs[|runs| - 1]];
    }
  }

  /** A run of at least seven digits in the collapsed text that cannot be extended, marked from its first to its last
      digit. */
  ghost predicate LongDigits(c: Collapse, h: Span, r: Span) {
    Maximal(c.chars, DIGITS, r) && r.end - r.start >= 7 && Reads(c, h, r.start, r.end)
  }

  lemma {:induction false} LongDigitIff(c: Collapse, sh: Shadow, h: Span, r: Span)
    requires Counts(c) && Shadows(c, sh) && Maximal(c.chars, DIGITS, r)
    ensures Reads(c, h, r.start, r.end) <==> h == ShadowSpan(sh, r.start, r.end - r.start)
  {
    ShadowSpanReads(c, sh, r.start, r.end - r.start);
    if Reads(c, h, r.start, r.end) { ReadsUnique(c, h, ShadowSpan(sh, r.start, r.end - r.start), r.start, r.end); }
  }

  lemma {:induction false} LongRunsIff(c: Collapse, sh: Shadow, runs: seq<Span>, h: Span)
    requires Counts(c) && Shadows(c, sh) && forall r :: r in runs ==> r.start < r.end <= |sh.chars|
    requires forall r :: r in runs <==> Maximal(c.chars, DIGITS, r)
    ensures h in LongRuns(sh, runs) <==> exists r :: LongDigits(c, h, r)
  {
    LongRunsMember(sh, runs, h);
    if r :| LongDigits(c, h, r) { LongDigitIff(c, sh, h, r); }
    if r :| r in runs && r.end - r.start >= DIGIT_RUN_MIN && h == ShadowSpan(sh, r.start, r.end - r.start) {
      LongDigitIff(c, sh, h, r);
      assert LongDigits(c, h, r);
    }
  }

  lemma {:induction false} LongDigitRunsIff(text: string, h: Span)
    ensures h in LongDigitRuns(text) <==> exists r :: LongDigits(CollapseOf(text), h, r)
  {
    CollapseCounts(text);
    ShadowOfShadows(text);
    var runs := Runs(ShadowOf(text).chars, DIGITS, 0);
    forall r ensures r in runs <==> Maximal(ShadowOf(text).chars, DIGITS, r) { RunsIff(ShadowOf(text).chars, DIGITS, r); }
    LongRunsIff(CollapseOf(text), ShadowOf(text), runs, h);
  }

  // ---------- collapsed occurrences ----------

  /** h marks the occurrence of needle in the collapsed text that begins at place i. */
  ghost predicate MarksAt(c: Collapse, needle: string, h: Span, i: nat) {
    OccursAt(c.chars, needle, i) && Reads(c, h, i, i + |needle|)
  }

  ghost predicate Marks(c: Collapse, needle: string, h: Span) { exists i: nat :: MarksAt(c, needle, h, i) }

  /** The marked stretch says what was looked for. */
  lemma {:induction false} MarkedText(text: string, needle: string, h: Span)
    requires Marks(CollapseOf(text), needle, h)
    ensures h.start < h.end <= |text| && Alnum(text[h.start..h.end]) == needle
  {
    var i: nat :| MarksAt(CollapseOf(text), needle, h, i);
    ReadsText(text, h, i, i + |needle|);
  }

  /** Some hit marks an occurrence that begins at or before place i and reaches past it. */
  ghost predicate Touched(c: Collapse, needle: string, hits: seq<Span>, i: nat) {
    exists h, j: nat :: h in hits && MarksAt(c, needle, h, j) && j <= i < j + |needle|
  }

  lemma {:induction false} FirstMarked(c: Collapse, sh: Shadow, needle: string, from: nat)
    requires Counts(c) && Shadows(c, sh) && |needle| > 0 && IndexOf(sh.chars, needle, from) != -1
    ensures var i := IndexOf(sh.chars, needle, from); MarksAt(c, needle, ShadowSpan(sh, i, |needle|), i)
  {
    IndexOfFinds(sh.chars, needle, from);
    ShadowSpanReads(c, sh, IndexOf(sh.chars, needle, from), |needle|);
  }

  lemma {:induction false} TailNext(tail: nat -> seq<Span>, sh: Shadow, needle: string, from: nat)
    requires |sh.at| == |sh.chars| && |needle| > 0 && Tails(tail, sh, needle)
    ensures var j := IndexOf(sh.chars, needle, from);
      tail(from) == if j == -1 then [] else [ShadowSpan(sh, j, |needle|)] + tail(j + |needle|)
  {
    var j := IndexOf(sh.chars, needle, from);
    TailStep(tail, sh, needle, from, j, []);
    assert [] + tail(from) == tail(from);
    if j != -1 { assert [] + [ShadowSpan(sh, j, |needle|)] == [ShadowSpan(sh, j, |needle|)]; }
  }

  lemma {:induction false} CollapsedMarks(tail: nat -> seq<Span>, c: Collapse, sh: Shadow, needle: string, from: nat, h: Span)
    requires Counts(c) && Shadows(c, sh) && |needle| > 0 && Tails(tail, sh, needle) && h in tail(from)
    ensures Marks(c, needle, h)
    decreases |sh.chars| + 1 - from
  {
    var i := IndexOf(sh.chars, needle, from);
    TailNext(tail, sh, needle, from);
    FirstMarked(c, sh, needle, from);
    if h != ShadowSpan(sh, i, |needle|) { CollapsedMarks(tail, c, sh, needle, i + |needle|, h); }
  }

  lemma {:induction false} CollapsedTouches(tail: nat -> seq<Span>, c: Collapse, sh: Shadow, needle: string, from: nat, i: nat)
    requires Counts(c) && Shadows(c, sh) && |needle| > 0 && Tails(tail, sh, needle) && from <= i && OccursAt(c.chars, needle, i)
    ensures Touched(c, needle, tail(from), i)
    decreases |sh.chars| + 1 - from
  {
    IndexOfLeast(sh.chars, needle, from, i);
    var j := IndexOf(sh.chars, needle, from);
    TailNext(tail, sh, needle, from);
    if j + |needle| <= i {
      CollapsedTouches(tail, c, sh, needle, j + |needle|, i);
      TouchedBy(c, needle, tail(j + |needle|), tail(from), i);
    } else {
      FirstMarked(c, sh, needle, from);
      TouchedHere(c, needle, tail(from), ShadowSpan(sh, j, |needle|), j, i);
    }
  }

  lemma {:induction false} TouchedHere(c: Collapse, needle: string, hits: seq<Span>, h: Span, j: nat, i: nat)
    requires h in hits && MarksAt(c, needle, h, j) && j <= i < j + |needle|
    ensures Touched(c, needle, hits, i)
  {}

  lemma {:induction false} TouchedBy(c: Collapse, needle: string, some: seq<Span>, hits: seq<Span>, i: nat)
    requires Touched(c, needle, some, i) && forall h :: h in some ==> h in hits
    ensures Touched(c, needle, hits, i)
  {
    var h, j: nat :| h in some && MarksAt(c, needle, h, j) && j <= i < j + |needle|;
    assert h in hits;
  }

  lemma {:induction false} IndexOfLeast(hay: string, needle: string, from: nat, i: nat)
    requires from <= i && OccursAt(hay, needle, i)
    ensures from <= IndexOf(hay, needle, from) <= i
    decreases i - from
  {
    if from < i && !OccursAt(hay, needle, from) { IndexOfLeast(hay, needle, from + 1, i); }
  }

  /** Every hit marks an occurrence of the needle, and no occurrence goes untouched. */
  ghost predicate MarksAll(c: Collapse, needle: string, hits: seq<Span>) {
    (forall h :: h in hits ==> Marks(c, needle, h)) && forall i: nat :: OccursAt(c.chars, needle, i) ==> Touched(c, needle, hits, i)
  }

  lemma {:induction false} CollapsedMarksAll(c: Collapse, sh: Shadow, needle: string)
    requires Counts(c) && Shadows(c, sh) && |needle| > 0
    ensures MarksAll(c, needle, Collapsed(sh, needle, 0))
  {
    var tail: nat -> seq<Span> := (i: nat) => if |sh.at| == |sh.chars| && |needle| > 0 then Collapsed(sh, needle, i) else [];
    forall h | h in tail(0) ensures Marks(c, needle, h) { CollapsedMarks(tail, c, sh, needle, 0, h); }
    forall i: nat | OccursAt(c.chars, needle, i) ensures Touched(c, needle, tail(0), i) { CollapsedTouches(tail, c, sh, needle, 0, i); }
  }

  lemma {:induction false} DenyTermMember(sh: Shadow, terms: seq<string>, h: Span)
    requires |sh.at| == |sh.chars|
    ensures h in DenyTermHits(sh, terms) <==> exists term :: term in terms && h in TermOccurrences(sh, term)
  {
    if terms != [] {
      var front, last := terms[..|terms| - 1], terms[|terms| - 1];
      DenyTermMember(sh, front, h);
      assert h in DenyTermHits(sh, terms) <==> h in DenyTermHits(sh, front) || h in TermOccurrences(sh, last);
      assert forall term :: term in terms <==> term in front || term == last;
    }
  }

  /** The hits are those of the terms with at least three kept characters. */
  lemma {:induction false} DenyTermHitsIff(text: string, terms: seq<string>, h: Span)
    ensures h in DenyTermOccurrences(text, terms) <==> exists term :: term in terms && |Alnum(term)| >= 3 && h in TermHits(text, term)
  {
    DenyTermMember(ShadowOf(text), terms, h);
    if term :| term in terms && h in TermOccurrences(ShadowOf(text), term) { assert h in TermHits(text, term); }
    if term :| term in terms && |Alnum(term)| >= 3 && h in TermHits(text, term) { assert h in TermOccurrences(ShadowOf(text), term); }
  }

  ghost function TermHits(text: string, term: string): seq<Span> {
    if Alnum(term) == "" then [] else Collapsed(ShadowOf(text), Alnum(term), 0)
  }

  /** Each marks an occurrence of its term, and no occurrence goes untouched. */
  lemma {:induction false} TermHitsMark(text: string, term: string)
    requires Alnum(term) != ""
    ensures MarksAll(CollapseOf(text), Alnum(term), TermHits(text, term))
  {
    CollapseCounts(text);
    ShadowOfShadows(text);
    CollapsedMarksAll(CollapseOf(text), ShadowOf(text), Alnum(term));
  }

  // ---------- vaulted values ----------

  /** h marks the words of the text from the i-th on, as many as the needle has, and they are the needle's. */
  ghost predicate MarksWordsAt(runs: seq<Span>, words: seq<string>, needle: seq<string>, h: Span, i: nat) {
    |runs| == |words| && |needle| > 0 && SequenceAt(words, needle, i) && h == Span(runs[i].start, runs[i + |needle| - 1].end)
  }

  ghost predicate TouchedWords(runs: seq<Span>, words: seq<string>, needle: seq<string>, hits: seq<Span>, i: nat) {
    exists h, j: nat :: h in hits && MarksWordsAt(runs, words, needle, h, j) && j <= i < j + |needle|
  }

  /** Every hit marks a word sequence equal to the needle's, and no such sequence goes untouched. */
  ghost predicate MarksAllWords(runs: seq<Span>, words: seq<string>, needle: seq<string>, hits: seq<Span>) {
    && (forall h :: h in hits ==> exists i: nat :: MarksWordsAt(runs, words, needle, h, i))
    && forall i: nat :: SequenceAt(words, needle, i) ==> TouchedWords(runs, words, needle, hits, i)
  }

  lemma {:induction false} SequenceMarks(runs: seq<Span>, words: seq<string>, needle: seq<string>, from: nat, h: Span)
    requires |runs| == |words| && |needle| > 0 && h in SequenceHits(runs, words, needle, from)
    ensures exists i: nat :: MarksWordsAt(runs, words, needle, h, i)
    decreases |words| + 1 - from
  {
    if SequenceAt(words, needle, from) {
      var first := Span(runs[from].start, runs[from + |needle| - 1].end);
      if h == first { assert MarksWordsAt(runs, words, needle, h, from); } else { SequenceMarks(runs, words, needle, from + |needle|, h); }
    } else {
      SequenceMarks(runs, words, needle, from + 1, h);
    }
  }

  lemma {:induction false} WordsTouchedBy(runs: seq<Span>, words: seq<string>, needle: seq<string>, some: seq<Span>, hits: seq<Span>, i: nat)
    requires TouchedWords(runs, words, needle, some, i) && forall h :: h in some ==> h in hits
    ensures TouchedWords(runs, words, needle, hits, i)
  {
    var h, j: nat :| h in some && MarksWordsAt(runs, words, needle, h, j) && j <= i < j + |needle|;
    assert h in hits;
  }

  lemma {:induction false} SequenceTouches(runs: seq<Span>, words: seq<string>, needle: seq<string>, from: nat, i: nat)
    requires |runs| == |words| && |needle| > 0 && from <= i && SequenceAt(words, needle, i)
    ensures TouchedWords(runs, words, needle, SequenceHits(runs, words, needle, from), i)
    decreases |words| + 1 - from
  {
    var hits := SequenceHits(runs, words, needle, from);
    if !SequenceAt(words, needle, from) {
      SequenceTouches(runs, words, needle, from + 1, i);
    } else if from + |needle| <= i {
      SequenceTouches(runs, words, needle, from + |needle|, i);
      WordsTouchedBy(runs, words, needle, SequenceHits(runs, words, needle, from + |needle|), hits, i);
    } else {
      assert hits[0] in hits && MarksWordsAt(runs, words, needle, hits[0], from);
    }
  }

  lemma {:induction false} SequencesMarkAll(runs: seq<Span>, words: seq<string>, needle: seq<string>)
    requires |runs| == |words| && |needle| > 0
    ensures MarksAllWords(runs, words, needle, SequenceHits(runs, words, needle, 0))
  {
    var hits := SequenceHits(runs, words, needle, 0);
    forall h | h in hits ensures exists i: nat :: MarksWordsAt(runs, words, needle, h, i) { SequenceMarks(runs, words, needle, 0, h); }
    forall i: nat | SequenceAt(words, needle, i) ensures TouchedWords(runs, words, needle, hits, i) { SequenceTouches(runs, words, needle, 0, i); }
  }

  /** A vaulted value of eight kept characters or more is looked for in the collapsed text, one of three to seven word by
      word, a shorter one not at all. */
  lemma {:induction false} VaultHitsAre(text: string, plaintext: string)
    ensures var hits, n, runs := VaultOccurrences(text, plaintext), |Alnum(plaintext)|, Runs(text, ALNUMS, 0);
      && (n < 3 ==> hits == [])
      && (n >= 8 ==> MarksAll(CollapseOf(text), Alnum(plaintext), hits))
      && (3 <= n < 8 && WordTokens(plaintext) == [] ==> hits == [])
      && (3 <= n < 8 && WordTokens(plaintext) != [] ==> MarksAllWords(runs, WordsOf(text, runs), WordTokens(plaintext), hits))
  {
    var runs := Runs(text, ALNUMS, 0);
    if |Alnum(plaintext)| >= 8 { TermHitsMark(text, plaintext); }
    if WordTokens(plaintext) != [] { SequencesMarkAll(runs, WordsOf(text, runs), WordTokens(plaintext)); }
  }

  // ---------- digits near an address keyword ----------

  /** A maximal digit run that comes within the window of some keyword. */
  ghost predicate NearKeyword(text: string, h: Span, keyword: Span) {
    keyword in FindAll(ADDRESS_KEYWORD, text, 0) && h.start < keyword.end + 40 && keyword.start < h.end + 40
  }

  lemma {:induction false} AddressHitsIff(text: string, h: Span)
    ensures h in AddressWindowDigits(text) <==> Maximal(text, DIGITS, h) && exists keyword :: NearKeyword(text, h, keyword)
  {
    RunsIff(text, DIGITS, h);
    if Maximal(text, DIGITS, h) { WindowIff(text, h); }
  }

  lemma {:induction false} WindowIff(text: string, h: Span)
    requires h.start < h.end <= |text|
    ensures InSomeWindow(Windows(text), h) <==> exists keyword :: NearKeyword(text, h, keyword)
  {
    var keywords := FindAll(ADDRESS_KEYWORD, text, 0);
    WindowsIff(text, keywords, Windows(text), h);
    if k :| k in keywords && h.start < k.end + 40 && k.start < h.end + 40 { assert NearKeyword(text, h, k); }
    if k :| NearKeyword(text, h, k) { assert k in keywords; }
  }

  lemma {:induction false} WindowsIff(text: string, keywords: seq<Span>, windows: seq<Span>, h: Span)
    requires h.start < h.end <= |text| && |windows| == |keywords| && (forall k :: k in keywords ==> k.start < k.end <= |text|)
    requires forall k :: 0 <= k < |windows| ==> windows[k] == Window(text, keywords[k])
    ensures InSomeWindow(windows, h) <==> exists k :: k in keywords && h.start < k.end + 40 && k.start < h.end + 40
  {
    if w :| w in windows && h.start < w.end && h.end > w.start {
      var n :| 0 <= n < |windows| && windows[n] == w;
      assert keywords[n] in keywords;
    }
    if k :| k in keywords && h.start < k.end + 40 && k.start < h.end + 40 {
      var n :| 0 <= n < |keywords| && keywords[n] == k;
      assert windows[n] in windows;
    }
  }

  // ---------- greetings and emails ----------

  ghost predicate NameAfterCue(text: string, h: Span) {
    && h.start < h.end <= |text|
    && ((Cued(STRONG_CUE, text, h.start) && Matches(STRONG_GREEDY_NAME, text, h.start, h.end))
        || (Cued(WEAK_CUE, text, h.start) && Matches(WEAK_GREEDY_NAME, text, h.start, h.end)))
  }

  /** Every greeting hit is a name right after a cue. */
  lemma {:induction false} GreetingHitsAre(text: string, h: Span)
    requires h in GreetingNames(text)
    ensures NameAfterCue(text, h)
  {
    if h in FindCaptures(STRONG_CUE, STRONG_GREEDY_NAME, text, 0) {
      CapturesAreCued(STRONG_CUE, STRONG_GREEDY_NAME, text, 0, h);
    } else {
      CapturesAreCued(WEAK_CUE, WEAK_GREEDY_NAME, text, 0, h);
    }
  }

  /** Every email hit matches one of the two shapes. */
  lemma {:induction false} EmailHitsAre(text: string, h: Span)
    requires h in EmailLike(text)
    ensures h.start < h.end <= |text| && (Matches(EMAIL_AT_SIGN, text, h.start, h.end) || Matches(EMAIL_SPOKEN, text, h.start, h.end))
  {}

  // ---------- spelled-out digits ----------

  /** A maximal stretch of digit words and multipliers. */
  ghost predicate Block(kinds: seq<Kind>, a: nat, b: nat) {
    && a < b <= |kinds| && (forall k :: a <= k < b ==> kinds[k] != Other)
    && (a == 0 || kinds[a - 1] == Other) && (b == |kinds| || kinds[b] == Other)
  }

  /** How many digits the words from a to b stand for: a digit word right after a multiplier counts that often. */
  ghost function DigitsIn(kinds: seq<Kind>, a: nat, b: nat): nat
    requires a <= b <= |kinds|
  {
    if a == b then 0 else DigitsIn(kinds, a, b - 1) + if kinds[b - 1] == Digit then Factor(kinds, a, b - 1) else 0
  }

  ghost function Factor(kinds: seq<Kind>, a: nat, i: nat): nat
    requires a <= i <= |kinds|
  {
    if a < i && kinds[i - 1].Multiplier? then kinds[i - 1].times else 1
  }

  ghost function LastDigit(kinds: seq<Kind>, a: nat, b: nat): (d: Option<nat>)
    requires a <= b <= |kinds|
    ensures d.Some? ==> a <= d.value < b && kinds[d.value] == Digit && forall k :: d.value < k < b ==> kinds[k] != Digit
    ensures d.None? ==> forall k :: a <= k < b ==> kinds[k] != Digit
  {
    if a == b then None else if kinds[b - 1] == Digit then Some(b - 1) else LastDigit(kinds, a, b - 1)
  }

  /** h marks the block from its first word to its last digit word, and it stands for at least seven digits. */
  ghost predicate MarksBlock(words: seq<Span>, kinds: seq<Kind>, h: Span, a: nat, b: nat) {
    && |words| == |kinds| && Block(kinds, a, b) && DigitsIn(kinds, a, b) >= 7
    && LastDigit(kinds, a, b).Some? && h == Span(words[a].start, words[LastDigit(kinds, a, b).value].end)
  }

  ghost predicate MarksBlockFrom(words: seq<Span>, kinds: seq<Kind>, h: Span, from: nat) {
    exists a: nat, b: nat :: from <= a && MarksBlock(words, kinds, h, a, b)
  }

  /** The run under way at word i, which began at word a. */
  ghost predicate UnderWay(words: seq<Span>, kinds: seq<Kind>, a: nat, i: nat, run: nat, pending: nat, start: Option<nat>, end: Option<nat>) {
    && a <= i <= |kinds| == |words| && (forall k :: a <= k < i ==> kinds[k] != Other) && (a == 0 || kinds[a - 1] == Other)
    && run == DigitsIn(kinds, a, i) && pending == Factor(kinds, a, i)
    && start == (if a < i then Some(words[a].start) else None)
    && end == (match LastDigit(kinds, a, i) case None => None case Some(d) => Some(words[d].end))
  }

  lemma {:induction false} NoDigitNoRun(kinds: seq<Kind>, a: nat, b: nat)
    requires a <= b <= |kinds|
    ensures LastDigit(kinds, a, b).None? ==> DigitsIn(kinds, a, b) == 0
  {
    if a < b { NoDigitNoRun(kinds, a, b - 1); }
  }

  /** Where a run ends it is reported exactly when its block is a hit. */
  lemma {:induction false} ClosedIsBlock(words: seq<Span>, kinds: seq<Kind>, a: nat, i: nat, run: nat, pending: nat, start: Option<nat>, end: Option<nat>, h: Span)
    requires UnderWay(words, kinds, a, i, run, pending, start, end) && (i == |kinds| || kinds[i] == Other)
    ensures h in Closed(run, start, end) <==> MarksBlock(words, kinds, h, a, i)
  {
    NoDigitNoRun(kinds, a, i);
  }

  /** A block from a on is the one under way or begins after it. */
  lemma {:induction false} NextBlock(words: seq<Span>, kinds: seq<Kind>, a: nat, i: nat, h: Span)
    requires a <= i < |kinds| == |words| && (forall k :: a <= k < i ==> kinds[k] != Other) && kinds[i] == Other
    ensures MarksBlockFrom(words, kinds, h, a) <==> MarksBlock(words, kinds, h, a, i) || MarksBlockFrom(words, kinds, h, i + 1)
  {
    if a': nat, b: nat :| a <= a' && MarksBlock(words, kinds, h, a', b) { BlockPlace(kinds, a, i, a', b); }
  }

  lemma {:induction false} BlockPlace(kinds: seq<Kind>, a: nat, i: nat, a': nat, b: nat)
    requires a <= i < |kinds| && (forall k :: a <= k < i ==> kinds[k] != Other) && kinds[i] == Other && a <= a' && Block(kinds, a', b)
    ensures (a' == a && b == i) || i < a'
  {}

  lemma {:induction false} GoesOn(words: seq<Span>, kinds: seq<Kind>, a: nat, i: nat, run: nat, pending: nat, start: Option<nat>, end: Option<nat>)
    requires UnderWay(words, kinds, a, i, run, pending, start, end) && i < |words| && kinds[i] != Other
    ensures kinds[i].Multiplier? ==> UnderWay(words, kinds, a, i + 1, run, kinds[i].times, OrElse(start, words[i].start), end)
    ensures kinds[i].Digit? ==> UnderWay(words, kinds, a, i + 1, run + pending, 1, OrElse(start, words[i].start), Some(words[i].end))
  {}

  /** The finder's next step, by what the next word is. */
  lemma {:induction false} SpelledNext(words: seq<Span>, kinds: seq<Kind>, i: nat, run: nat, pending: nat, start: Option<nat>, end: Option<nat>)
    requires i < |words| == |kinds|
    ensures SpelledFrom(words[i..], kinds[i..], run, pending, start, end) == (match kinds[i]
      case Multiplier(times) => SpelledFrom(words[i + 1..], kinds[i + 1..], run, times, OrElse(start, words[i].start), end)
      case Digit => SpelledFrom(words[i + 1..], kinds[i + 1..], run + pending, 1, OrElse(start, words[i].start), Some(words[i].end))
      case Other => Closed(run, start, end) + SpelledFrom(words[i + 1..], kinds[i + 1..], 0, 1, None, None))
  {
    assert words[i..][1..] == words[i + 1..] && kinds[i..][1..] == kinds[i + 1..];
  }

  /** The hits from word i on, seen from the induction only through this. */
  type Speller = (nat, nat, nat, Option<nat>, Option<nat>) -> seq<Span>

  ghost predicate Spells(spell: Speller, words: seq<Span>, kinds: seq<Kind>) {
    |words| == |kinds| && forall i: nat, run, pending, start, end {:trigger SpelledFrom(words[i..], kinds[i..], run, pending, start, end)} ::
      i <= |words| ==> spell(i, run, pending, start, end) == SpelledFrom(words[i..], kinds[i..], run, pending, start, end)
  }

  lemma {:induction false} SpellEnd(spell: Speller, words: seq<Span>, kinds: seq<Kind>, run: nat, pending: nat, start: Option<nat>, end: Option<nat>)
    requires Spells(spell, words, kinds)
    ensures spell(|words|, run, pending, start, end) == Closed(run, start, end)
  {
    var n := |words|;
    assert spell(n, run, pending, start, end) == SpelledFrom(words[n..], kinds[n..], run, pending, start, end);
  }

  lemma {:induction false} SpellNext(spell: Speller, words: seq<Span>, kinds: seq<Kind>, i: nat, run: nat, pending: nat, start: Option<nat>, end: Option<nat>)
    requires Spells(spell, words, kinds) && i < |words|
    ensures spell(i, run, pending, start, end) == (match kinds[i]
      case Multiplier(times) => spell(i + 1, run, times, OrElse(start, words[i].start), end)
      case Digit => spell(i + 1, run + pending, 1, OrElse(start, words[i].start), Some(words[i].end))
      case Other => Closed(run, start, end) + spell(i + 1, 0, 1, None, None))
  {
    SpelledNext(words, kinds, i, run, pending, start, end);
  }

  lemma {:induction false} SpelledIff(spell: Speller, words: seq<Span>, kinds: seq<Kind>, a: nat, i: nat, run: nat, pending: nat, start: Option<nat>, end: Option<nat>, h: Span)
    requires Spells(spell, words, kinds) && UnderWay(words, kinds, a, i, run, pending, start, end)
    ensures h in spell(i, run, pending, start, end) <==> MarksBlockFrom(words, kinds, h, a)
    decreases |words| - i
  {
    if i == |words| {
      ClosedIsBlock(words, kinds, a, i, run, pending, start, end, h);
      LastBlock(words, kinds, a, h);
      SpellEnd(spell, words, kinds, run, pending, start, end);
    } else if kinds[i] == Other {
      ClosedIsBlock(words, kinds, a, i, run, pending, start, end, h);
      SpelledIff(spell, words, kinds, i + 1, i + 1, 0, 1, None, None, h);
      NextBlock(words, kinds, a, i, h);
      SpellNext(spell, words, kinds, i, run, pending, start, end);
    } else {
      SpellNext(spell, words, kinds, i, run, pending, start, end);
      GoesOn(words, kinds, a, i, run, pending, start, end);
      match kinds[i]
      case Multiplier(times) => SpelledIff(spell, words, kinds, a, i + 1, run, times, OrElse(start, words[i].start), end, h);
      case Digit => SpelledIff(spell, words, kinds, a, i + 1, run + pending, 1, OrElse(start, words[i].start), Some(words[i].end), h);
    }
  }

  /** A block from a on that nothing interrupts is the last. */
  lemma {:induction false} LastBlock(words: seq<Span>, kinds: seq<Kind>, a: nat, h: Span)
    requires a <= |kinds| == |words| && forall k :: a <= k < |kinds| ==> kinds[k] != Other
    ensures MarksBlockFrom(words, kinds, h, a) <==> MarksBlock(words, kinds, h, a, |kinds|)
  {
    if a': nat, b: nat :| a <= a' && MarksBlock(words, kinds, h, a', b) { LastPlace(kinds, a, a', b); }
  }

  lemma {:induction false} LastPlace(kinds: seq<Kind>, a: nat, a': nat, b: nat)
    requires (forall k :: a <= k < |kinds| ==> kinds[k] != Other) && a <= a' && Block(kinds, a', b)
    ensures a' == a && b == |kinds|
  {}

  /** The spelled-digit hits are exactly the blocks of digit words that stand for at least seven digits. */
  lemma {:induction false} SpelledHitsIff(text: string, h: Span)
    ensures h in SpelledDigitRuns(text) <==> MarksBlockFrom(Runs(text, LETTERS, 0), Kinds(text, Runs(text, LETTERS, 0)), h, 0)
  {
    var words := Runs(text, LETTERS, 0);
    SpelledFromStart(words, Kinds(text, words), h);
  }

  lemma {:induction false} SpelledFromStart(words: seq<Span>, kinds: seq<Kind>, h: Span)
    requires |words| == |kinds|
    ensures h in SpelledFrom(words, kinds, 0, 1, None, None) <==> MarksBlockFrom(words, kinds, h, 0)
  {
    var spell: Speller := (i: nat, run: nat, pending: nat, start: Option<nat>, end: Option<nat>) =>
      if i <= |words| == |kinds| then SpelledFrom(words[i..], kinds[i..], run, pending, start, end) else [];
    assert words[0..] == words && kinds[0..] == kinds;
    SpelledIff(spell, words, kinds, 0, 0, 0, 1, None, None, h);
  }
}
