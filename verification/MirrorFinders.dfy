/** The offset-producing finders: where the residual scan only counts, these return spans. */
module MirrorFinders {
  import opened Wrappers
  import opened Chars
  import opened Regex
  import opened TextRuns
  import opened Patterns

  /** A hit that starts and ends on a character that is not a space. */
  ghost predicate Solid(text: string, h: Span) {
    h.start < h.end <= |text| && text[h.start] != ' ' && text[h.end - 1] != ' '
  }

  ghost predicate AllSolid(text: string, hits: seq<Span>) {
    forall h :: h in hits ==> Solid(text, h)
  }

  /** The kept (lower-cased, alphanumeric) characters and where each came from. */
  datatype Shadow = Shadow(chars: string, at: seq<nat>) {
    ghost predicate Of(text: string) {
      && |at| == |chars|
      && (forall k :: 0 <= k < |at| ==> at[k] < |text| && chars[k] == ToLower(text[at[k]]) && LOWER_ALNUMS.Has(chars[k]))
      && (forall j, k :: 0 <= j < k < |at| ==> at[j] < at[k])
    }
  }

  function ShadowUpTo(text: string, n: nat): (sh: Shadow)
    requires n <= |text|
    ensures sh.Of(text)
    ensures forall k :: 0 <= k < |sh.at| ==> sh.at[k] < n
  {
    if n == 0 then Shadow("", [])
    else
      var sh := ShadowUpTo(text, n - 1);
      var c := ToLower(text[n - 1]);
      if LOWER_ALNUMS.Has(c) then Shadow(sh.chars + [c], sh.at + [n - 1]) else sh
  }

  function ShadowOf(text: string): (sh: Shadow)
    ensures sh.Of(text)
  {
    ShadowUpTo(text, |text|)
  }

  method AggressiveShadow(text: string) returns (sh: Shadow)
    ensures sh == ShadowOf(text)
  {
    var kept: string, at: seq<nat> := [], [];
    for i := 0 to |text|
      invariant Shadow(kept, at) == ShadowUpTo(text, i)
    {
      var c := ToLower(text[i]);
      if LOWER_ALNUMS.Has(c) {
        kept := kept + [c];
        at := at + [i];
      }
    }
    sh := Shadow(kept, at);
  }

  /** A shadow range mapped back to source offsets. */
  function ShadowSpan(sh: Shadow, start: nat, length: nat): Span
    requires |sh.at| == |sh.chars| && 0 < length && start + length <= |sh.chars|
  {
    Span(sh.at[start], sh.at[start + length - 1] + 1)
  }

  lemma {:induction false} ShadowSpanSolid(text: string, sh: Shadow, start: nat, length: nat)
    requires sh.Of(text) && 0 < length && start + length <= |sh.chars|
    ensures Solid(text, ShadowSpan(sh, start, length))
  {
    assert LOWER_ALNUMS.Has(sh.chars[start]) && LOWER_ALNUMS.Has(sh.chars[start + length - 1]);
  }

  // ---------- digit runs ----------

  const DIGIT_RUN_MIN := 7

  function LongRuns(sh: Shadow, runs: seq<Span>): (hits: seq<Span>)
    requires |sh.at| == |sh.chars|
    requires forall r :: r in runs ==> r.start < r.end <= |sh.chars|
  {
    if runs == [] then []
    else
      var front, r := LongRuns(sh, runs[..|runs| - 1]), runs[|runs| - 1];
      if r.end - r.start >= DIGIT_RUN_MIN then front + [ShadowSpan(sh, r.start, r.end - r.start)] else front
  }

  lemma {:induction false} LongRunsSolid(text: string, sh: Shadow, runs: seq<Span>)
    requires sh.Of(text)
    requires forall r :: r in runs ==> r.start < r.end <= |sh.chars|
    ensures AllSolid(text, LongRuns(sh, runs))
  {
    if runs != [] {
      var r := runs[|runs| - 1];
      LongRunsSolid(text, sh, runs[..|runs| - 1]);
      ShadowSpanSolid(text, sh, r.start, r.end - r.start);
    }
  }

  function LongDigitRuns(text: string): (hits: seq<Span>)
    ensures AllSolid(text, hits)
  {
    var sh := ShadowOf(text);
    LongRunsSolid(text, sh, Runs(sh.chars, DIGITS, 0));
    LongRuns(sh, Runs(sh.chars, DIGITS, 0))
  }

  method FindLongDigitRuns(text: string) returns (hits: seq<Span>)
    ensures hits == LongDigitRuns(text)
  {
    var sh := AggressiveShadow(text);
    hits := CollectLongRuns(sh, Runs(sh.chars, DIGITS, 0));
  }

  method CollectLongRuns(sh: Shadow, runs: seq<Span>) returns (hits: seq<Span>)
    requires |sh.at| == |sh.chars|
    requires forall r :: r in runs ==> r.start < r.end <= |sh.chars|
    ensures hits == LongRuns(sh, runs)
  {
    hits := [];
    for i := 0 to |runs|
      invariant hits == LongRuns(sh, runs[..i])
    {
      assert runs[..i + 1][..i] == runs[..i];
      if runs[i].end - runs[i].start >= DIGIT_RUN_MIN {
        hits := hits + [ShadowSpan(sh, runs[i].start, runs[i].end - runs[i].start)];
      }
    }
    assert runs[..|runs|] == runs;
  }

  // ---------- spelled-out digits ----------

  const DIGIT_WORDS := { "zero", "oh", "one", "two", "three", "four", "five",
                         "six", "seven", "eight", "nine", "double", "triple" }
  const MULTIPLIERS: map<string, nat> := map["double" := 2, "triple" := 3]
  const SPELLED_DIGITS_MIN := 7

  function OrElse(m: Option<nat>, n: nat): Option<nat> { if m.Some? then m else Some(n) }

  /** The run as a hit, when it is long enough: `closeRun`. */
  function Closed(run: nat, start: Option<nat>, end: Option<nat>): seq<Span> {
    if run >= SPELLED_DIGITS_MIN && start.Some? && end.Some? then [Span(start.value, end.value)] else []
  }

  /** What a lower-cased word does to the run under way. */
  datatype Kind = Multiplier(times: nat) | Digit | Other

  function KindOf(word: string): Kind {
    if word in MULTIPLIERS then Multiplier(MULTIPLIERS[word])
    else if word in DIGIT_WORDS then Digit
    else Other
  }

  function Kinds(text: string, words: seq<Span>): (kinds: seq<Kind>)
    requires forall w :: w in words ==> w.start < w.end <= |text|
    ensures |kinds| == |words|
    ensures forall k :: 0 <= k < |words| ==> kinds[k] == KindOf(Lower(text[words[k].start..words[k].end]))
  {
    seq(|words|, k requires 0 <= k < |words| => KindOf(Lower(text[words[k].start..words[k].end])))
  }

  function SpelledFrom(words: seq<Span>, kinds: seq<Kind>, run: nat, pending: nat, start: Option<nat>, end: Option<nat>): seq<Span>
    requires |words| == |kinds|
    decreases |words|
  {
    if words == [] then Closed(run, start, end)
    else
      var m := words[0];
      match kinds[0]
      case Multiplier(times) => SpelledFrom(words[1..], kinds[1..], run, times, OrElse(start, m.start), end)
      case Digit => SpelledFrom(words[1..], kinds[1..], run + pending, 1, OrElse(start, m.start), Some(m.end))
      case Other => Closed(run, start, end) + SpelledFrom(words[1..], kinds[1..], 0, 1, None, None)
  }

  /** Words are solid, in order, and begin after the run under way. */
  ghost predicate WordsAfter(text: string, words: seq<Span>, start: Option<nat>, end: Option<nat>) {
    && (forall w :: w in words ==> Solid(text, w))
    && (forall a, b :: 0 <= a < b < |words| ==> words[a].end <= words[b].start)
    && (start.Some? ==> start.value < |text| && text[start.value] != ' ')
    && (start.Some? && words != [] ==> start.value < words[0].start)
    && (end.Some? ==> start.Some? && Solid(text, Span(start.value, end.value)))
  }

  lemma {:induction false} SpelledSolid(text: string, words: seq<Span>, kinds: seq<Kind>, run: nat, pending: nat,
                                        start: Option<nat>, end: Option<nat>)
    requires WordsAfter(text, words, start, end) && |words| == |kinds|
    ensures AllSolid(text, SpelledFrom(words, kinds, run, pending, start, end))
    decreases |words|
  {
    if words != [] {
      var m := words[0];
      assert Solid(text, m);
      match kinds[0]
      case Multiplier(times) => SpelledSolid(text, words[1..], kinds[1..], run, times, OrElse(start, m.start), end);
      case Digit => SpelledSolid(text, words[1..], kinds[1..], run + pending, 1, OrElse(start, m.start), Some(m.end));
      case Other => SpelledSolid(text, words[1..], kinds[1..], 0, 1, None, None);
    }
  }

  lemma {:induction false} LetterRunsSolid(text: string)
    ensures WordsAfter(text, Runs(text, LETTERS, 0), None, None)
  {
    forall w | w in Runs(text, LETTERS, 0) ensures Solid(text, w) {
      assert LETTERS.Has(text[w.start]) && LETTERS.Has(text[w.end - 1]);
    }
  }

  function SpelledDigitRuns(text: string): (hits: seq<Span>)
    ensures AllSolid(text, hits)
  {
    var words := Runs(text, LETTERS, 0);
    LetterRunsSolid(text);
    SpelledSolid(text, words, Kinds(text, words), 0, 1, None, None);
    SpelledFrom(words, Kinds(text, words), 0, 1, None, None)
  }

  method FindSpelledDigitRuns(text: string) returns (hits: seq<Span>)
    ensures hits == SpelledDigitRuns(text)
  {
    var words := Runs(text, LETTERS, 0);
    hits := CollectSpelled(words, Kinds(text, words));
  }

  method CollectSpelled(words: seq<Span>, kinds: seq<Kind>) returns (hits: seq<Span>)
    requires |words| == |kinds|
    ensures hits == SpelledFrom(words, kinds, 0, 1, None, None)
  {
    hits := [];
    var run: nat, pendingMultiplier: nat := 0, 1;
    var runStart: Option<nat>, runEnd: Option<nat> := None, None;
    for i := 0 to |words|
      invariant hits + SpelledFrom(words[i..], kinds[i..], run, pendingMultiplier, runStart, runEnd)
             == SpelledFrom(words, kinds, 0, 1, None, None)
    {
      assert words[i..][1..] == words[i + 1..] && kinds[i..][1..] == kinds[i + 1..];
      match kinds[i] {
        case Multiplier(times) =>
          pendingMultiplier := times;
          runStart := OrElse(runStart, words[i].start);
        case Digit =>
          run := run + pendingMultiplier;
          pendingMultiplier := 1;
          runStart := OrElse(runStart, words[i].start);
          runEnd := Some(words[i].end);
        case Other =>
          var rest := SpelledFrom(words[i + 1..], kinds[i + 1..], 0, 1, None, None);
          Assoc(hits, Closed(run, runStart, runEnd), rest);
          hits := hits + Closed(run, runStart, runEnd);
          run, pendingMultiplier, runStart, runEnd := 0, 1, None, None;
      }
    }
    hits := hits + Closed(run, runStart, runEnd);
  }

  // ---------- greeting names and email shapes ----------

  function GreetingNames(text: string): (hits: seq<Span>)
    ensures AllSolid(text, hits)
  {
    var hits := FindCaptures(STRONG_CUE, STRONG_GREEDY_NAME, text, 0) + FindCaptures(WEAK_CUE, WEAK_GREEDY_NAME, text, 0);
    assert AllSolid(text, hits) by {
      NamesAreSolid();
      forall h | h in hits ensures Solid(text, h) {
        var body := if Matches(STRONG_GREEDY_NAME, text, h.start, h.end) then STRONG_GREEDY_NAME else WEAK_GREEDY_NAME;
        SolidStartSound(body, text, h.start, h.end);
        SolidEndSound(body, text, h.start, h.end);
      }
    }
    hits
  }

  function EmailLike(text: string): (hits: seq<Span>)
    ensures AllSolid(text, hits)
  {
    var hits := FindAll(EMAIL_AT_SIGN, text, 0) + FindAll(EMAIL_SPOKEN, text, 0);
    assert AllSolid(text, hits) by {
      EmailAtSignIsSolid();
      EmailSpokenIsSolid();
      forall h | h in hits ensures Solid(text, h) {
        var r := if Matches(EMAIL_AT_SIGN, text, h.start, h.end) then EMAIL_AT_SIGN else EMAIL_SPOKEN;
        SolidStartSound(r, text, h.start, h.end);
        SolidEndSound(r, text, h.start, h.end);
      }
    }
    hits
  }

  // ---------- deny terms and vault values ----------

  const REINTRO_MIN_CHARS := 3
  const REINTRO_CONCAT_MIN_CHARS := 8

  function Collapsed(sh: Shadow, needle: string, from: nat): (hits: seq<Span>)
    requires |sh.at| == |sh.chars| && |needle| > 0
    decreases |sh.chars| + 1 - from
  {
    var idx := IndexOf(sh.chars, needle, from);
    if idx == -1 then [] else [ShadowSpan(sh, idx, |needle|)] + Collapsed(sh, needle, idx + |needle|)
  }

  lemma {:induction false} CollapsedSolid(text: string, sh: Shadow, needle: string, from: nat)
    requires sh.Of(text) && |needle| > 0
    ensures AllSolid(text, Collapsed(sh, needle, from))
    decreases |sh.chars| + 1 - from
  {
    var idx := IndexOf(sh.chars, needle, from);
    if idx != -1 {
      ShadowSpanSolid(text, sh, idx, |needle|);
      CollapsedSolid(text, sh, needle, idx + |needle|);
    }
  }

  /** `tail` gives the hits from an index on. */
  ghost predicate Tails(tail: nat -> seq<Span>, sh: Shadow, needle: string)
    requires |sh.at| == |sh.chars| && |needle| > 0
  {
    forall i {:trigger Collapsed(sh, needle, i)} :: tail(i) == Collapsed(sh, needle, i)
  }

  lemma {:induction false} TailStep(tail: nat -> seq<Span>, sh: Shadow, needle: string, from: nat, idx: int, hits: seq<Span>)
    requires |sh.at| == |sh.chars| && |needle| > 0 && Tails(tail, sh, needle) && idx == IndexOf(sh.chars, needle, from)
    ensures hits + tail(from) == if idx == -1 then hits else hits + [ShadowSpan(sh, idx, |needle|)] + tail(idx + |needle|)
  {
    assert tail(from) == Collapsed(sh, needle, from);
    if idx != -1 { assert tail(idx + |needle|) == Collapsed(sh, needle, idx + |needle|); }
  }

  method CollapsedOccurrences(sh: Shadow, needle: string) returns (hits: seq<Span>)
    requires |sh.at| == |sh.chars| && |needle| > 0
    ensures hits == Collapsed(sh, needle, 0)
  {
    hits := [];
    var from := 0;
    var idx := IndexOf(sh.chars, needle, from);
    ghost var tail: nat -> seq<Span> := (i: nat) => if |sh.at| == |sh.chars| && |needle| > 0 then Collapsed(sh, needle, i) else [];
    ghost var all := tail(0);
    while idx != -1
      invariant idx == IndexOf(sh.chars, needle, from) && hits + tail(from) == all
      decreases |sh.chars| + 1 - from
    {
      TailStep(tail, sh, needle, from, idx, hits);
      hits := hits + [ShadowSpan(sh, idx, |needle|)];
      from := idx + |needle|;
      idx := IndexOf(sh.chars, needle, from);
    }
    TailStep(tail, sh, needle, from, idx, hits);
  }

  function TermOccurrences(sh: Shadow, term: string): seq<Span>
    requires |sh.at| == |sh.chars|
  {
    var needle := Alnum(term);
    if |needle| < REINTRO_MIN_CHARS then [] else Collapsed(sh, needle, 0)
  }

  function DenyTermHits(sh: Shadow, terms: seq<string>): seq<Span>
    requires |sh.at| == |sh.chars|
  {
    if terms == [] then [] else DenyTermHits(sh, terms[..|terms| - 1]) + TermOccurrences(sh, terms[|terms| - 1])
  }

  lemma {:induction false} DenyTermHitsSolid(text: string, sh: Shadow, terms: seq<string>)
    requires sh.Of(text)
    ensures AllSolid(text, DenyTermHits(sh, terms))
  {
    if terms != [] {
      var needle := Alnum(terms[|terms| - 1]);
      if |needle| >= REINTRO_MIN_CHARS { CollapsedSolid(text, sh, needle, 0); }
      DenyTermHitsSolid(text, sh, terms[..|terms| - 1]);
    }
  }

  function DenyTermOccurrences(text: string, terms: seq<string>): (hits: seq<Span>)
    ensures AllSolid(text, hits)
  {
    DenyTermHitsSolid(text, ShadowOf(text), terms);
    DenyTermHits(ShadowOf(text), terms)
  }

  method FindDenyTermOccurrences(text: string, terms: seq<string>) returns (hits: seq<Span>)
    ensures hits == DenyTermOccurrences(text, terms)
  {
    var sh := AggressiveShadow(text);
    hits := [];
    for i := 0 to |terms|
      invariant hits == DenyTermHits(sh, terms[..i])
    {
      assert terms[..i + 1][..i] == terms[..i];
      var needle := Alnum(terms[i]);
      if |needle| < REINTRO_MIN_CHARS { continue; }
      var found := CollapsedOccurrences(sh, needle);
      hits := hits + found;
    }
    assert terms[..|terms|] == terms;
  }

  /** `wordTokensWithOffsets`: the alphanumeric words of text, lower-cased. */
  function WordsOf(text: string, runs: seq<Span>): (words: seq<string>)
    requires forall r :: r in runs ==> r.start < r.end <= |text|
    ensures |words| == |runs|
    ensures forall k :: 0 <= k < |runs| ==> words[k] == Lower(text[runs[k].start..runs[k].end])
  {
    seq(|runs|, k requires 0 <= k < |runs| => Lower(text[runs[k].start..runs[k].end]))
  }

  function SequenceHits(runs: seq<Span>, words: seq<string>, needle: seq<string>, i: nat): seq<Span>
    requires |runs| == |words| && |needle| > 0
    decreases |words| + 1 - i
  {
    if i + |needle| > |words| then []
    else if SequenceAt(words, needle, i) then
      [Span(runs[i].start, runs[i + |needle| - 1].end)] + SequenceHits(runs, words, needle, i + |needle|)
    else SequenceHits(runs, words, needle, i + 1)
  }

  lemma {:induction false} SequenceHitsSolid(text: string, runs: seq<Span>, words: seq<string>, needle: seq<string>, i: nat)
    requires |runs| == |words| && |needle| > 0
    requires forall r :: r in runs ==> Solid(text, r)
    requires forall a, b :: 0 <= a < b < |runs| ==> runs[a].end <= runs[b].start
    ensures AllSolid(text, SequenceHits(runs, words, needle, i))
    decreases |words| + 1 - i
  {
    if i + |needle| <= |words| {
      if SequenceAt(words, needle, i) {
        var last := i + |needle| - 1;
        assert Solid(text, runs[i]) && Solid(text, runs[last]);
        SequenceHitsSolid(text, runs, words, needle, i + |needle|);
      } else {
        SequenceHitsSolid(text, runs, words, needle, i + 1);
      }
    }
  }

  lemma {:induction false} AlnumRunsSolid(text: string)
    ensures AllSolid(text, Runs(text, ALNUMS, 0))
  {
    forall r | r in Runs(text, ALNUMS, 0) ensures Solid(text, r) {
      assert ALNUMS.Has(text[r.start]) && ALNUMS.Has(text[r.end - 1]);
    }
  }

  function VaultOccurrences(text: string, plaintext: string): (hits: seq<Span>)
    ensures AllSolid(text, hits)
  {
    var needle := Alnum(plaintext);
    if |needle| < REINTRO_MIN_CHARS then []
    else if |needle| >= REINTRO_CONCAT_MIN_CHARS then
      CollapsedSolid(text, ShadowOf(text), needle, 0);
      Collapsed(ShadowOf(text), needle, 0)
    else
      var needleWords := WordTokens(plaintext);
      if needleWords == [] then []
      else
        var runs := Runs(text, ALNUMS, 0);
        AlnumRunsSolid(text);
        SequenceHitsSolid(text, runs, WordsOf(text, runs), needleWords, 0);
        SequenceHits(runs, WordsOf(text, runs), needleWords, 0)
  }

  method FindVaultOccurrences(text: string, plaintext: string) returns (hits: seq<Span>)
    ensures hits == VaultOccurrences(text, plaintext)
  {
    var needle := Alnum(plaintext);
    if |needle| < REINTRO_MIN_CHARS { return []; }
    if |needle| >= REINTRO_CONCAT_MIN_CHARS {
      var sh := AggressiveShadow(text);
      hits := CollapsedOccurrences(sh, needle);
      return;
    }
    var needleWords := WordTokens(plaintext);
    if |needleWords| == 0 { return []; }
    var runs := Runs(text, ALNUMS, 0);
    hits := CollectSequences(runs, WordsOf(text, runs), needleWords);
  }

  method CollectSequences(runs: seq<Span>, hay: seq<string>, needle: seq<string>) returns (hits: seq<Span>)
    requires |runs| == |hay| && |needle| > 0
    ensures hits == SequenceHits(runs, hay, needle, 0)
  {
    hits := [];
    var i := 0;
    while i + |needle| <= |hay|
      invariant hits + SequenceHits(runs, hay, needle, i) == SequenceHits(runs, hay, needle, 0)
      decreases |hay| - i
    {
      var ok := true;
      var j := 0;
      while j < |needle| && ok
        invariant 0 <= j <= |needle|
        invariant ok ==> forall k :: 0 <= k < j ==> hay[i + k] == needle[k]
        invariant !ok ==> !SequenceAt(hay, needle, i)
      {
        if hay[i + j] != needle[j] { ok := false; }
        j := j + 1;
      }
      if ok {
        var hit := Span(runs[i].start, runs[i + |needle| - 1].end);
        Assoc(hits, [hit], SequenceHits(runs, hay, needle, i + |needle|));
        hits := hits + [hit];
        i := i + |needle| - 1;
      }
      i := i + 1;
    }
  }

  // ---------- digits near an address keyword ----------

  /** The stretch of text within ADDRESS_WINDOW_CHARS of a keyword. */
  function Window(text: string, keyword: Span): (w: Span)
    requires keyword.start < keyword.end <= |text|
    ensures w.start <= keyword.start && keyword.end <= w.end <= |text|
  {
    Span(if keyword.start < ADDRESS_WINDOW_CHARS then 0 else keyword.start - ADDRESS_WINDOW_CHARS,
         if keyword.end + ADDRESS_WINDOW_CHARS > |text| then |text| else keyword.end + ADDRESS_WINDOW_CHARS)
  }

  function Windows(text: string): (ws: seq<Span>)
    ensures |ws| == |FindAll(ADDRESS_KEYWORD, text, 0)|
    ensures forall k :: 0 <= k < |ws| ==> ws[k] == Window(text, FindAll(ADDRESS_KEYWORD, text, 0)[k])
  {
    var keywords := FindAll(ADDRESS_KEYWORD, text, 0);
    seq(|keywords|, k requires 0 <= k < |keywords| => Window(text, keywords[k]))
  }

  predicate InSomeWindow(windows: seq<Span>, run: Span) {
    exists w :: w in windows && run.start < w.end && run.end > w.start
  }

  function WindowHits(windows: seq<Span>, runs: seq<Span>): (hits: seq<Span>)
    ensures forall h :: h in hits <==> h in runs && InSomeWindow(windows, h)
  {
    if runs == [] then []
    else
      var front, r := WindowHits(windows, runs[..|runs| - 1]), runs[|runs| - 1];
      assert runs == runs[..|runs| - 1] + [r];
      if InSomeWindow(windows, r) then front + [r] else front
  }

  lemma {:induction false} NoWindowsNoHits(runs: seq<Span>)
    ensures WindowHits([], runs) == []
  {
    if runs != [] { NoWindowsNoHits(runs[..|runs| - 1]); }
  }

  function AddressWindowDigits(text: string): (hits: seq<Span>)
    ensures AllSolid(text, hits)
  {
    DigitRunsSolid(text);
    WindowHits(Windows(text), Runs(text, DIGITS, 0))
  }

  lemma {:induction false} DigitRunsSolid(text: string)
    ensures AllSolid(text, Runs(text, DIGITS, 0))
  {
    forall r | r in Runs(text, DIGITS, 0) ensures Solid(text, r) {
      assert DIGITS.Has(text[r.start]) && DIGITS.Has(text[r.end - 1]);
    }
  }

  method FindAddressWindowDigits(text: string) returns (hits: seq<Span>)
    ensures hits == AddressWindowDigits(text)
  {
    var windows := Windows(text);
    if |windows| == 0 {
      NoWindowsNoHits(Runs(text, DIGITS, 0));
      return [];
    }
    hits := CollectInWindows(windows, Runs(text, DIGITS, 0));
  }

  method CollectInWindows(windows: seq<Span>, runs: seq<Span>) returns (hits: seq<Span>)
    requires forall a, b :: 0 <= a < b < |runs| ==> runs[a] != runs[b]
    ensures hits == WindowHits(windows, runs)
  {
    var seen: set<Span> := {};
    hits := [];
    for i := 0 to |runs|
      invariant hits == WindowHits(windows, runs[..i])
      invariant forall s :: s in seen ==> exists k :: 0 <= k < i && runs[k] == s
    {
      assert runs[..i + 1][..i] == runs[..i];
      if !InSomeWindow(windows, runs[i]) { continue; }
      assert runs[i] !in seen;
      if runs[i] !in seen {
        seen := seen + {runs[i]};
        hits := hits + [runs[i]];
      }
    }
    assert runs[..|runs|] == runs;
  }
}
