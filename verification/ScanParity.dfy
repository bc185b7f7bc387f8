/** The mirror finders and the residual sub-scans fire on exactly the same texts. */
module ScanParity {
  import opened Wrappers
  import opened Chars
  import opened Regex
  import opened TextRuns
  import opened Patterns
  import M = MirrorFinders
  import R = ResidualScan

  // ---------- the two normalizers ----------

  lemma {:induction false} ShadowPrefix(text: string, n: nat)
    requires n <= |text|
    ensures M.ShadowUpTo(text, n).chars == Alnum(text[..n])
  {
    if n > 0 {
      ShadowPrefix(text, n - 1);
      assert text[..n] == text[..n - 1] + [text[n - 1]];
      AlnumConcat(text[..n - 1], [text[n - 1]]);
      assert Alnum([text[n - 1]]) == Kept(text[n - 1]);
    }
  }

  lemma {:induction false} ShadowIsAlnum(text: string)
    ensures M.ShadowOf(text).chars == Alnum(text)
  {
    ShadowPrefix(text, |text|);
    assert text[..|text|] == text;
  }

  // ---------- digit runs ----------

  lemma {:induction false} LongRunsCount(sh: M.Shadow, runs: seq<Span>)
    requires |sh.at| == |sh.chars|
    requires forall r :: r in runs ==> r.start < r.end <= |sh.chars|
    ensures |M.LongRuns(sh, runs)| == R.CountLong(runs)
  {
    if runs != [] { LongRunsCount(sh, runs[..|runs| - 1]); }
  }

  /** The finder returns as many digit runs as the residual scan counts. */
  lemma {:induction false} DigitParity(text: string)
    ensures |M.LongDigitRuns(text)| == R.CountLong(Runs(Alnum(text), DIGITS, 0))
  {
    ShadowIsAlnum(text);
    LongRunsCount(M.ShadowOf(text), Runs(Alnum(text), DIGITS, 0));
  }

  // ---------- spelled-out digits ----------

  lemma {:induction false} LowerRuns(text: string, lower: CharClass, any: CharClass)
    requires forall c: char :: lower.Has(ToLower(c)) == any.Has(c)
    ensures Runs(Lower(text), lower, 0) == Runs(text, any, 0)
    ensures NonEmpty(SplitOn(Lower(text), lower, 0)) == M.WordsOf(text, Runs(text, any, 0))
  {
    RunsCongruent(Lower(text), lower, text, any, 0);
    SplitIsRuns(Lower(text), lower, 0);
    var runs := Runs(text, any, 0);
    forall k | 0 <= k < |runs|
      ensures TextOf(Lower(text), runs)[k] == M.WordsOf(text, runs)[k]
    {
      assert Lower(text)[runs[k].start..runs[k].end] == Lower(text[runs[k].start..runs[k].end]);
    }
  }

  /** The two digit vocabularies agree. */
  lemma {:induction false} SameKinds(word: string)
    ensures M.KindOf(word).Multiplier? <==> word in R.DIGIT_WORD_MULTIPLIER
    ensures word in R.DIGIT_WORD_MULTIPLIER ==> M.KindOf(word).times == R.DIGIT_WORD_MULTIPLIER[word]
    ensures M.KindOf(word).Digit? <==> word in R.DIGIT_WORDS && word !in R.DIGIT_WORD_MULTIPLIER
  {}

  /** The residual automaton, on kinds. */
  function RunsOnKinds(kinds: seq<M.Kind>, run: nat, pending: nat): nat {
    if kinds == [] then R.Bump(run)
    else
      match kinds[0]
      case Multiplier(times) => RunsOnKinds(kinds[1..], run, times)
      case Digit => RunsOnKinds(kinds[1..], run + pending, 1)
      case Other => R.Bump(run) + RunsOnKinds(kinds[1..], 0, 1)
  }

  lemma {:induction false} ResidualOnKinds(words: seq<string>, kinds: seq<M.Kind>, run: nat, pending: nat)
    requires |words| == |kinds| && forall k :: 0 <= k < |words| ==> kinds[k] == M.KindOf(words[k])
    ensures R.SpelledRuns(words, run, pending) == RunsOnKinds(kinds, run, pending)
    decreases |words|
  {
    if words != [] {
      SameKinds(words[0]);
      var ws, ks := words[1..], kinds[1..];
      if words[0] in R.DIGIT_WORD_MULTIPLIER {
        ResidualOnKinds(ws, ks, run, R.DIGIT_WORD_MULTIPLIER[words[0]]);
      } else if words[0] in R.DIGIT_WORDS {
        ResidualOnKinds(ws, ks, run + pending, 1);
      } else {
        ResidualOnKinds(ws, ks, 0, 1);
      }
    }
  }

  /** Carrying offsets along does not change how many runs close. */
  lemma {:induction false} MirrorOnKinds(words: seq<Span>, kinds: seq<M.Kind>, run: nat, pending: nat,
                                         start: Option<nat>, end: Option<nat>)
    requires |words| == |kinds| && (run > 0 ==> start.Some? && end.Some?)
    ensures |M.SpelledFrom(words, kinds, run, pending, start, end)| == RunsOnKinds(kinds, run, pending)
    decreases |words|
  {
    if words != [] {
      var ws, ks, m := words[1..], kinds[1..], words[0];
      match kinds[0]
      case Multiplier(times) => MirrorOnKinds(ws, ks, run, times, M.OrElse(start, m.start), end);
      case Digit => MirrorOnKinds(ws, ks, run + pending, 1, M.OrElse(start, m.start), Some(m.end));
      case Other => MirrorOnKinds(ws, ks, 0, 1, None, None);
    }
  }

  /** The finder returns as many spoken-digit runs as the residual automaton counts. */
  lemma {:induction false} SpelledParity(text: string)
    ensures |M.SpelledDigitRuns(text)| == R.CountSpelled(text)
  {
    var words := Runs(text, LETTERS, 0);
    LowerRuns(text, LOWERS, LETTERS);
    ResidualOnKinds(M.WordsOf(text, words), M.Kinds(text, words), 0, 1);
    MirrorOnKinds(words, M.Kinds(text, words), 0, 1, None, None);
  }

  // ---------- regular-expression shapes ----------

  lemma {:induction false} EmailParity(text: string)
    ensures |M.EmailLike(text)| == |FindAll(EMAIL_AT_SIGN, text, 0)| + |FindAll(EMAIL_SPOKEN, text, 0)|
  {}

  /** matchAll returns something exactly when a non-empty match exists. */
  lemma {:induction false} FindAllFires(r: Re, s: string)
    ensures FindAll(r, s, 0) != [] <==> Fires(r, s)
  {
    var hits := FindAll(r, s, 0);
    if hits != [] { assert hits[0] in hits; }
  }

  /** A cue is followed by a body exactly when it is followed by a shorter body that starts every longer one. */
  lemma {:induction false} GreedyFires(cue: Re, body: Re, greedy: Re, text: string)
    requires SolidStart(greedy) && SolidStart(body)
    requires forall k: nat, j: nat :: k <= j <= |text| && Matches(greedy, text, k, j) ==> StartsMatch(body, text, k)
    requires forall k: nat, j: nat :: k <= j <= |text| && Matches(body, text, k, j) ==> Matches(greedy, text, k, j)
    ensures FindCaptures(cue, greedy, text, 0) != [] <==> FindAll(Cat(cue, body), text, 0) != []
  {
    CapturesFire(cue, greedy, text, 0);
    FindAllFires(Cat(cue, body), text);
    if FindCaptures(cue, greedy, text, 0) != [] {
      var i: nat, j: nat :| 0 <= i < j <= |text| && Matches(Cat(cue, greedy), text, i, j);
      var k := CatSplit(cue, greedy, text, i, j);
      assert StartsMatch(body, text, k);
      var m: nat :| k <= m <= |text| && Matches(body, text, k, m);
      SolidStartSound(body, text, k, m);
      assert Matches(Cat(cue, body), text, i, m);
    }
    if FindAll(Cat(cue, body), text, 0) != [] {
      var i: nat, j: nat :| i < j <= |text| && Matches(Cat(cue, body), text, i, j);
      var k := CatSplit(cue, body, text, i, j);
      assert Matches(Cat(cue, greedy), text, i, j);
    }
  }

  ghost predicate StartsMatch(r: Re, s: string, k: nat) {
    exists m: nat :: k <= m <= |s| && Matches(r, s, k, m)
  }

  lemma {:induction false} MakeCat(a: Re, b: Re, s: string, i: nat, k: nat, j: nat)
    requires i <= k <= j <= |s| && Matches(a, s, i, k) && Matches(b, s, k, j)
    ensures Matches(Cat(a, b), s, i, j)
  {}

  lemma {:induction false} EmptyStar(a: Re, s: string, i: nat)
    requires i <= |s|
    ensures Matches(Star(a), s, i, i)
  {}

  /** /CAP(?:\s+CAP)* / finds what /CAP/ finds. */
  lemma {:induction false} StrongGreedy(a: Re, b: Re, s: string)
    ensures forall k: nat, j: nat :: k <= j <= |s| && Matches(Cat(a, Star(b)), s, k, j) ==> StartsMatch(a, s, k)
    ensures forall k: nat, j: nat :: k <= j <= |s| && Matches(a, s, k, j) ==> Matches(Cat(a, Star(b)), s, k, j)
  {
    forall k: nat, j: nat | k <= j <= |s| && Matches(Cat(a, Star(b)), s, k, j) ensures StartsMatch(a, s, k) {
      var m := CatSplit(a, Star(b), s, k, j);
    }
    forall k: nat, j: nat | k <= j <= |s| && Matches(a, s, k, j) ensures Matches(Cat(a, Star(b)), s, k, j) {
      EmptyStar(b, s, j);
      MakeCat(a, Star(b), s, k, j, j);
    }
  }

  /** /CAP(?:\s+CAP)+ / finds what /CAP\s+CAP/ finds. */
  lemma {:induction false} WeakGreedy(a: Re, b: Re, s: string)
    ensures forall k: nat, j: nat :: k <= j <= |s| && Matches(Cat(a, Plus(b)), s, k, j) ==> StartsMatch(Cat(a, b), s, k)
    ensures forall k: nat, j: nat :: k <= j <= |s| && Matches(Cat(a, b), s, k, j) ==> Matches(Cat(a, Plus(b)), s, k, j)
  {
    forall k: nat, j: nat | k <= j <= |s| && Matches(Cat(a, Plus(b)), s, k, j) ensures StartsMatch(Cat(a, b), s, k) {
      var m := CatSplit(a, Plus(b), s, k, j);
      var n := CatSplit(b, Star(b), s, m, j);
      MakeCat(a, b, s, k, m, n);
    }
    forall k: nat, j: nat | k <= j <= |s| && Matches(Cat(a, b), s, k, j) ensures Matches(Cat(a, Plus(b)), s, k, j) {
      var m := CatSplit(a, b, s, k, j);
      EmptyStar(b, s, j);
      MakeCat(b, Star(b), s, m, j, j);
      MakeCat(a, Plus(b), s, k, m, j);
    }
  }

  /** The greedy greeting finder fires exactly when the residual greeting scan does. */
  lemma {:induction false} GreetingParity(text: string)
    ensures M.GreetingNames(text) == [] <==> R.CountNames(text) == 0
  {
    NamesAreSolid();
    StrongGreedy(CAP, NEXT_CAP, text);
    GreedyFires(STRONG_CUE, STRONG_NAME, STRONG_GREEDY_NAME, text);
    WeakGreedy(CAP, NEXT_CAP, text);
    GreedyFires(WEAK_CUE, WEAK_NAME, WEAK_GREEDY_NAME, text);
  }

  // ---------- digits near an address keyword ----------

  lemma {:induction false} CountNearZero(text: string, keywords: seq<Span>)
    requires forall k :: k in keywords ==> k.start <= k.end <= |text|
    ensures R.CountNear(text, keywords) == 0 <==> forall k :: k in keywords ==> !R.DigitNear(text, k)
  {
    if keywords != [] {
      CountNearZero(text, keywords[..|keywords| - 1]);
      assert keywords == keywords[..|keywords| - 1] + [keywords[|keywords| - 1]];
    }
  }

  /** Every digit lies in a maximal digit run. */
  lemma {:induction false} RunAround(s: string, cls: CharClass, pos: nat, i: nat) returns (r: Span)
    requires pos <= i < |s| && cls.Has(s[i])
    ensures r in Runs(s, cls, pos) && r.start <= i < r.end
    decreases |s| - pos
  {
    if cls.Has(s[pos]) {
      var e := RunEnd(s, cls, pos);
      if i < e { r := Span(pos, e); } else { r := RunAround(s, cls, e, i); }
    } else {
      r := RunAround(s, cls, pos + 1, i);
    }
  }

  lemma {:induction false} HitMeansDigitNear(text: string, keywords: seq<Span>, windows: seq<Span>, h: Span)
    requires WindowsOf(text, keywords, windows)
    requires h.start < h.end <= |text| && M.InSomeWindow(windows, h)
    requires forall i :: h.start <= i < h.end ==> IsDigit(text[i])
    ensures exists k :: k in keywords && R.DigitNear(text, k)
  {
    var w :| w in windows && h.start < w.end && h.end > w.start;
    var k :| 0 <= k < |keywords| && w == windows[k];
    var i := if h.start < w.start then w.start else h.start;
    assert h.start <= i < h.end && w.start <= i < w.end && IsDigit(text[i]);
    assert keywords[k] in keywords && R.DigitNear(text, keywords[k]);
  }

  lemma {:induction false} DigitNearMeansHit(text: string, keywords: seq<Span>, windows: seq<Span>, k: Span) returns (r: Span)
    requires WindowsOf(text, keywords, windows) && k in keywords
    requires R.DigitNear(text, k)
    ensures r in Runs(text, DIGITS, 0) && M.InSomeWindow(windows, r)
  {
    var n :| 0 <= n < |keywords| && keywords[n] == k;
    var w := windows[n];
    var i :| w.start <= i < w.end && IsDigit(text[i]);
    r := RunAround(text, DIGITS, 0, i);
    assert w in windows;
  }

  ghost predicate WindowsOf(text: string, keywords: seq<Span>, windows: seq<Span>) {
    |windows| == |keywords|
    && forall k {:trigger windows[k]} {:trigger keywords[k]} :: 0 <= k < |keywords| ==>
         keywords[k].start < keywords[k].end <= |text| && windows[k] == M.Window(text, keywords[k])
  }

  lemma {:induction false} WindowParity(text: string, keywords: seq<Span>, windows: seq<Span>)
    requires WindowsOf(text, keywords, windows)
    ensures M.WindowHits(windows, Runs(text, DIGITS, 0)) == [] <==> R.CountNear(text, keywords) == 0
  {
    var hits := M.WindowHits(windows, Runs(text, DIGITS, 0));
    CountNearZero(text, keywords);
    if hits != [] {
      assert hits[0] in Runs(text, DIGITS, 0);
      HitMeansDigitNear(text, keywords, windows, hits[0]);
    }
    if k :| k in keywords && R.DigitNear(text, k) {
      var r := DigitNearMeansHit(text, keywords, windows, k);
      assert r in hits;
    }
  }

  /** Digit runs intersecting a keyword window exist exactly when some window holds a digit. */
  lemma {:induction false} AddressParity(text: string)
    ensures M.AddressWindowDigits(text) == [] <==> R.CountNear(text, FindAll(ADDRESS_KEYWORD, text, 0)) == 0
  {
    var keywords := FindAll(ADDRESS_KEYWORD, text, 0);
    assert forall k :: 0 <= k < |keywords| ==> keywords[k] in keywords;
    WindowParity(text, keywords, M.Windows(text));
  }

  // ---------- deny terms and vault values ----------

  lemma {:induction false} CollapsedFires(sh: M.Shadow, needle: string)
    requires |sh.at| == |sh.chars| && |needle| > 0
    ensures M.Collapsed(sh, needle, 0) != [] <==> Includes(sh.chars, needle)
  {
    IndexOfFinds(sh.chars, needle, 0);
    var idx := IndexOf(sh.chars, needle, 0);
    if idx != -1 { assert OccursAt(sh.chars, needle, idx); }
  }

  lemma {:induction false} DenyHitsEmpty(sh: M.Shadow, terms: seq<string>)
    requires |sh.at| == |sh.chars|
    ensures M.DenyTermHits(sh, terms) == [] <==> forall t :: t in terms ==> !R.DenyHit(t, sh.chars)
  {
    if terms != [] {
      var front, t := terms[..|terms| - 1], terms[|terms| - 1];
      assert terms == front + [t];
      DenyHitsEmpty(sh, front);
      if |Alnum(t)| >= M.REINTRO_MIN_CHARS { CollapsedFires(sh, Alnum(t)); }
      assert M.TermOccurrences(sh, t) == [] <==> !R.DenyHit(t, sh.chars);
      assert M.DenyTermHits(sh, terms) == M.DenyTermHits(sh, front) + M.TermOccurrences(sh, t);
    }
  }

  lemma {:induction false} DenyParity(text: string, terms: seq<string>)
    ensures M.DenyTermOccurrences(text, terms) == [] <==> forall t :: t in terms ==> !R.DenyHit(t, Alnum(text))
  {
    ShadowIsAlnum(text);
    DenyHitsEmpty(M.ShadowOf(text), terms);
  }

  lemma {:induction false} SequenceFires(runs: seq<Span>, words: seq<string>, needle: seq<string>, i: nat)
    requires |runs| == |words| && |needle| > 0
    ensures M.SequenceHits(runs, words, needle, i) == [] <==> forall k :: i <= k <= |words| ==> !SequenceAt(words, needle, k)
    decreases |words| + 1 - i
  {
    if i + |needle| <= |words| && !SequenceAt(words, needle, i) { SequenceFires(runs, words, needle, i + 1); }
  }

  /** The vault finder fires exactly when the residual predicate says the value is back. */
  lemma {:induction false} VaultParity(text: string, plaintext: string)
    ensures M.VaultOccurrences(text, plaintext) == [] <==> !R.Reintroduced(plaintext, Alnum(text), WordTokens(text))
  {
    var needle := Alnum(plaintext);
    if |needle| >= M.REINTRO_CONCAT_MIN_CHARS {
      ShadowIsAlnum(text);
      CollapsedFires(M.ShadowOf(text), needle);
    } else if |needle| >= M.REINTRO_MIN_CHARS {
      LowerRuns(text, LOWER_ALNUMS, ALNUMS);
      var runs := Runs(text, ALNUMS, 0);
      if WordTokens(plaintext) != [] { SequenceFires(runs, M.WordsOf(text, runs), WordTokens(plaintext), 0); }
    }
  }
}
