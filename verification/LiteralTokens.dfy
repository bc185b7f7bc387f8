/** Why the repair guarantee needs an input without literal tokens: a text that already holds one can be
    reported converged while the residual scan still hits. */
module LiteralTokens {
  import opened Chars
  import opened Regex
  import opened TextRuns
  import opened Patterns
  import opened RedactionTypes
  import opened Tokenize
  import opened EffectiveText
  import opened Repair
  import RS = ResidualScan
  import ScanParity

  /** Every match of r would need a character that s does not have. */
  predicate Avoids(r: Re, s: string) {
    match r
    case Lit(w, _) => exists k :: 0 <= k < |w| && forall i :: 0 <= i < |s| ==> s[i] != w[k] && ToLower(s[i]) != w[k]
    case One(cls) => forall i :: 0 <= i < |s| ==> !cls.Has(s[i])
    case WordEdge => false
    case Cat(a, b) => Avoids(a, s) || Avoids(b, s)
    case Or(a, b) => Avoids(a, s) && Avoids(b, s)
    case Star(_) => false
  }

  lemma {:induction false} AvoidsSound(r: Re, s: string, i: nat, j: nat)
    requires Avoids(r, s) && i <= j <= |s|
    ensures !Matches(r, s, i, j)
  {
    match r
    case Lit(w, fold) =>
      var k :| 0 <= k < |w| && forall i :: 0 <= i < |s| ==> s[i] != w[k] && ToLower(s[i]) != w[k];
      if j - i == |w| { assert s[i..j][k] == s[i + k]; }
    case One(cls) =>
    case Cat(a, b) =>
      forall k: nat | i <= k <= j ensures !Matches(a, s, i, k) || !Matches(b, s, k, j) {
        if Avoids(a, s) { AvoidsSound(a, s, i, k); } else { AvoidsSound(b, s, k, j); }
      }
    case Or(a, b) =>
      AvoidsSound(a, s, i, j);
      AvoidsSound(b, s, i, j);
  }

  lemma {:induction false} AvoidedNotFound(r: Re, s: string)
    requires Avoids(r, s)
    ensures FindAll(r, s, 0) == []
  {
    ScanParity.FindAllFires(r, s);
    forall i: nat, j: nat | i < j <= |s| ensures !Matches(r, s, i, j) { AvoidsSound(r, s, i, j); }
  }

  // ---------- patterns that need a letter the text lacks ----------

  predicate Lacks(s: string, c: char) { forall i :: 0 <= i < |s| ==> s[i] != c && ToLower(s[i]) != c }

  lemma {:induction false} AvoidsWord(s: string, w: string, k: nat, fold: bool)
    requires k < |w| && Lacks(s, w[k])
    ensures Avoids(Lit(w, fold), s)
  {}

  lemma {:induction false} AvoidsOr(a: Re, b: Re, s: string)
    requires Avoids(a, s) && Avoids(b, s)
    ensures Avoids(Or(a, b), s)
  {}

  lemma {:induction false} AvoidsCat(a: Re, b: Re, s: string)
    requires Avoids(a, s) || Avoids(b, s)
    ensures Avoids(Cat(a, b), s)
  {}

  lemma {:induction false} AtSignAvoids(s: string)
    requires forall i :: 0 <= i < |s| ==> !AT_SIGN.cls.Has(s[i])
    ensures Avoids(EMAIL_AT_SIGN, s)
  {
    var tail := Cat(AT_SIGN, Cat(Star(WS), Plus(EMAIL_DOMAIN)));
    AvoidsCat(AT_SIGN, Cat(Star(WS), Plus(EMAIL_DOMAIN)), s);
    AvoidsCat(Star(WS), tail, s);
    AvoidsCat(Plus(EMAIL_LOCAL), Cat(Star(WS), tail), s);
  }

  lemma {:induction false} SpokenAvoids(s: string)
    requires Lacks(s, 't')
    ensures Avoids(EMAIL_SPOKEN, s)
  {
    AvoidsWord(s, "at", 1, true);
    var at := Cat(AnyCase("at"), Cat(WS1, SPOKEN_HOST));
    AvoidsCat(AnyCase("at"), Cat(WS1, SPOKEN_HOST), s);
    AvoidsCat(WS1, at, s);
    AvoidsCat(ALNUM1, Cat(WS1, at), s);
    AvoidsCat(WordEdge, Cat(ALNUM1, Cat(WS1, at)), s);
  }

  lemma {:induction false} AddressAvoids(s: string)
    requires Lacks(s, 's') && Lacks(s, 'v') && Lacks(s, 'd') && Lacks(s, 'p')
    ensures Avoids(ADDRESS_KEYWORD, s)
  {
    AvoidsWord(s, "street", 0, true);
    AvoidsWord(s, "avenue", 1, true);
    AvoidsWord(s, "boulevard", 5, true);
    AvoidsWord(s, "address", 1, true);
    AvoidsWord(s, "apartment", 1, true);
    AvoidsWord(s, "apt", 1, true);
    AvoidsWord(s, "suite", 0, true);
    AvoidsWord(s, "zip", 2, true);
    AvoidsCat(AnyCase("zip"), Cat(Star(WS), AnyCase("code")), s);
    var zip := Or(ZIP_CODE, AnyCase("zip"));
    AvoidsOr(ZIP_CODE, AnyCase("zip"), s);
    var suite := Or(AnyCase("suite"), zip);
    AvoidsOr(AnyCase("suite"), zip, s);
    var apt := Or(AnyCase("apt"), suite);
    AvoidsOr(AnyCase("apt"), suite, s);
    var apartment := Or(AnyCase("apartment"), apt);
    AvoidsOr(AnyCase("apartment"), apt, s);
    var address := Or(AnyCase("address"), apartment);
    AvoidsOr(AnyCase("address"), apartment, s);
    var boulevard := Or(AnyCase("boulevard"), address);
    AvoidsOr(AnyCase("boulevard"), address, s);
    AvoidsOr(AnyCase("avenue"), boulevard, s);
    AvoidsOr(AnyCase("street"), Or(AnyCase("avenue"), boulevard), s);
    AvoidsCat(ADDRESS_WORD, WordEdge, s);
    AvoidsCat(WordEdge, Cat(ADDRESS_WORD, WordEdge), s);
  }

  lemma {:induction false} StrongAvoids(s: string)
    requires Lacks(s, 'm') && Lacks(s, 's')
    ensures Avoids(Cat(STRONG_CUE, STRONG_NAME), s)
  {
    AvoidsWord(s, "my", 0, false);
    AvoidsWord(s, "ask", 1, false);
    AvoidsWord(s, "speaking", 0, false);
    AvoidsCat(Word("my"), Cat(WS1, Cat(Word("name"), Cat(WS1, Word("is")))), s);
    AvoidsCat(Word("ask"), Cat(WS1, Word("for")), s);
    AvoidsCat(Word("speaking"), Cat(WS1, Word("with")), s);
    AvoidsOr(ASK_FOR, SPEAKING_WITH, s);
    var cue := Or(MY_NAME_IS, Or(ASK_FOR, SPEAKING_WITH));
    AvoidsOr(MY_NAME_IS, Or(ASK_FOR, SPEAKING_WITH), s);
    AvoidsCat(cue, WS1, s);
    AvoidsCat(WordEdge, Cat(cue, WS1), s);
    AvoidsCat(STRONG_CUE, STRONG_NAME, s);
  }

  lemma {:induction false} WeakAvoids(s: string)
    requires Lacks(s, 't')
    ensures Avoids(Cat(WEAK_CUE, WEAK_NAME), s)
  {
    AvoidsWord(s, "this", 0, false);
    AvoidsWord(s, "it", 1, false);
    AvoidsCat(Word("this"), Cat(WS1, Word("is")), s);
    AvoidsCat(Word("it"), Cat(Opt(Word("'")), Word("s")), s);
    AvoidsOr(THIS_IS, ITS, s);
    AvoidsCat(Or(THIS_IS, ITS), WS1, s);
    AvoidsCat(WordEdge, Cat(Or(THIS_IS, ITS), WS1), s);
    AvoidsCat(WEAK_CUE, WEAK_NAME, s);
  }

  // ---------- digits around a token ----------

  predicate AllDigits(s: string) { forall i :: 0 <= i < |s| ==> IsDigit(s[i]) }

  lemma {:induction false} AlnumOfDigits(s: string)
    requires AllDigits(s)
    ensures Alnum(s) == s
  {
    if s != "" { AlnumOfDigits(s[1..]); }
  }

  lemma {:induction false} AlnumCons(c: char, s: string)
    ensures Alnum([c] + s) == Kept(c) + Alnum(s)
  {
    assert ([c] + s)[1..] == s;
  }

  const TOKEN := "[A_1]"

  lemma {:induction false} AlnumSpace()
    ensures Alnum(" ") == ""
  {
    AlnumCons(' ', "");
    assert [' '] + "" == " ";
  }

  lemma {:induction false} AlnumNumber()
    ensures Alnum("1]") == "1"
  {
    AlnumCons(']', "");
    AlnumCons('1', "]");
    assert [']'] + "" == "]" && ['1'] + "]" == "1]";
  }

  lemma {:induction false} AlnumLabel()
    ensures Alnum("A_1]") == "a1"
  {
    AlnumNumber();
    AlnumCons('_', "1]");
    AlnumCons('A', "_1]");
    assert ['_'] + "1]" == "_1]" && ['A'] + "_1]" == "A_1]";
  }

  lemma {:induction false} AlnumToken()
    ensures Alnum(TOKEN) == "a1"
  {
    AlnumLabel();
    AlnumCons('[', "A_1]");
    assert ['['] + "A_1]" == TOKEN;
  }

  /** The shadow the finders scan keeps the token's letter; the residual's stripped text does not. */
  lemma {:induction false} Normalized(x: string, y: string)
    requires AllDigits(x) && AllDigits(y)
    ensures Alnum(x + (TOKEN + y)) == x + ("a1" + y)
    ensures Alnum(x + (" " + y)) == x + y
  {
    AlnumOfDigits(x);
    AlnumOfDigits(y);
    AlnumToken();
    AlnumSpace();
    AlnumConcat(x, TOKEN + y);
    AlnumConcat(TOKEN, y);
    AlnumConcat(x, " " + y);
    AlnumConcat(" ", y);
    assert "" + y == y;
  }

  lemma {:induction false} TokenIsToken()
    ensures IsToken(TOKEN)
  {
    var b := TOKEN[1..4];
    assert b == "A_1";
    assert b[1] == '_' && LabelChar(b[0]) && IsDigit(b[2]);
    assert TokenBody(b);
  }

  lemma {:induction false} NoBracketNoToken(s: string)
    requires forall i :: 0 <= i < |s| ==> s[i] != '['
    ensures !HasToken(s)
  {
    forall i | 0 <= i < |s| ensures TokenPrefix(s[i..]) == 0 { assert s[i..][0] == s[i]; }
  }

  lemma {:induction false} StripsAround(x: string, tok: string, y: string)
    requires AllDigits(x) && AllDigits(y) && IsToken(tok)
    ensures HasToken(x + (tok + y)) && Strip(x + (tok + y)) == x + (" " + y)
  {
    assert (tok + y)[0] == '[';
    StripSplit(x, tok + y);
    StripTokenThen(tok, y);
    NoBracketNoToken(x);
    NoBracketNoToken(y);
    StripLength(x);
    StripLength(y);
    TokenPrefixOfToken(tok, y);
    assert (x + (tok + y))[|x|..] == tok + y;
    assert TokenPrefix((x + (tok + y))[|x|..]) > 0;
  }

  /** A digit run broken by a letter into two short ones. */
  lemma {:induction false} ShortRuns(s: string, k: nat)
    requires k < 7 && k < |s| < k + 8 && s[k] == 'a'
    requires forall i :: 0 <= i < |s| && i != k ==> IsDigit(s[i])
    ensures RS.CountLong(Runs(s, DIGITS, 0)) == 0
  {
    ShortAreNotCounted(Runs(s, DIGITS, 0), s, k);
  }

  lemma {:induction false} ShortAreNotCounted(runs: seq<Span>, s: string, k: nat)
    requires k < 7 && k < |s| < k + 8 && s[k] == 'a'
    requires forall r :: r in runs ==> r.start < r.end <= |s|
    requires forall r, i :: r in runs && r.start <= i < r.end ==> DIGITS.Has(s[i])
    ensures RS.CountLong(runs) == 0
  {
    if runs != [] {
      var front, r := runs[..|runs| - 1], runs[|runs| - 1];
      assert r in runs;
      ShortAreNotCounted(front, s, k);
      assert !DIGITS.Has(s[k]);
    }
  }

  lemma {:induction false} AllDigitsRunEnd(s: string, i: nat)
    requires AllDigits(s) && i <= |s|
    ensures RunEnd(s, DIGITS, i) == |s|
    decreases |s| - i
  {
    if i < |s| { AllDigitsRunEnd(s, i + 1); }
  }

  lemma {:induction false} OneLongRun(s: string)
    requires AllDigits(s) && |s| >= 7
    ensures RS.CountLong(Runs(s, DIGITS, 0)) == 1
  {
    AllDigitsRunEnd(s, 0);
    assert Runs(s, DIGITS, 0) == [Span(0, |s|)] + Runs(s, DIGITS, |s|);
    assert [Span(0, |s|)][..0] == [];
  }

  lemma {:induction false} SingleRun(t: string, cls: CharClass, k: nat)
    requires k < |t| && forall i :: 0 <= i < |t| ==> (cls.Has(t[i]) <==> i == k)
    ensures Runs(t, cls, 0) == [Span(k, k + 1)]
  {
    RunsSkipGap(t, cls, 0, k);
    assert RunEnd(t, cls, k) == k + 1;
    RunsSkipGap(t, cls, k + 1, |t|);
  }

  /** A text whose only letters spell the word "a" has no spoken digit. */
  lemma {:induction false} NoSpelledDigits(s: string, k: nat)
    requires k < |s| && s[k] == 'A' && forall i :: 0 <= i < |s| && i != k ==> !LETTERS.Has(s[i])
    ensures RS.CountSpelled(s) == 0
  {
    var t := Lower(s);
    assert forall i :: 0 <= i < |t| ==> (LOWERS.Has(t[i]) <==> i == k);
    SingleRun(t, LOWERS, k);
    SplitIsRuns(t, LOWERS, 0);
    assert t[k..k + 1] == "a";
    assert TextOf(t, [Span(k, k + 1)]) == ["a"];
    WordAIsNoDigit();
  }

  lemma {:induction false} WordAIsNoDigit()
    ensures RS.SpelledRuns(["a"], 0, 1) == 0
  {
    assert ["a"][1..] == [];
    assert "a" !in RS.DIGIT_WORDS && "a" !in RS.DIGIT_WORD_MULTIPLIER;
  }

  predicate DigitOrToken(c: char) { IsDigit(c) || c == '[' || c == 'A' || c == '_' || c == ']' }

  lemma {:induction false} NoPatterns(s: string)
    requires forall i :: 0 <= i < |s| ==> DigitOrToken(s[i])
    ensures |FindAll(EMAIL_AT_SIGN, s, 0)| == 0 && |FindAll(EMAIL_SPOKEN, s, 0)| == 0
    ensures FindAll(ADDRESS_KEYWORD, s, 0) == [] && RS.CountNames(s) == 0
  {
    AtSignAvoids(s);
    SpokenAvoids(s);
    AddressAvoids(s);
    StrongAvoids(s);
    WeakAvoids(s);
    AvoidedNotFound(EMAIL_AT_SIGN, s);
    AvoidedNotFound(EMAIL_SPOKEN, s);
    AvoidedNotFound(ADDRESS_KEYWORD, s);
    AvoidedNotFound(Cat(STRONG_CUE, STRONG_NAME), s);
    AvoidedNotFound(Cat(WEAK_CUE, WEAK_NAME), s);
  }

  lemma {:induction false} AroundChars(x: string, y: string)
    requires AllDigits(x) && AllDigits(y)
    ensures var s := x + (TOKEN + y);
            |s| == |x| + 5 + |y| && s[|x| + 1] == 'A' && forall i :: 0 <= i < |s| ==> DigitOrToken(s[i]) && (s[i] == 'A' ==> i == |x| + 1)
    ensures var n := x + ("a1" + y); |n| == |x| + 2 + |y| && n[|x|] == 'a' && forall i :: 0 <= i < |n| && i != |x| ==> IsDigit(n[i])
  {}

  /** Nothing for the finders to see in a text of digits around the token. */
  lemma {:induction false} CleanToTheFinders(x: string, y: string)
    requires AllDigits(x) && AllDigits(y) && |x| < 7 && |y| < 6
    ensures RS.Clean(x + (TOKEN + y), [], [])
  {
    var s := x + (TOKEN + y);
    AroundChars(x, y);
    Normalized(x, y);
    ShortRuns(x + ("a1" + y), |x|);
    NoSpelledDigits(s, |x| + 1);
    NoPatterns(s);
  }

  lemma {:induction false} CleanMeansConverged(text: string)
    requires RS.Clean(text, [], [])
    ensures RepairSpans(text, [], [], REPAIR_MAX_ITERATIONS).converged
    ensures RepairSpans(text, [], [], REPAIR_MAX_ITERATIONS).tokenized == Tokenized(text, [], [])
  {
    var t := TokenizeOrdered(text, []);
    assert t == Tokenized(text, [], []) by { assert text[0..] == text; }
    assert EffectiveFrom(text, [], 0).text == text by { assert text[0..|text|] == text; }
    NoCandidatesIffClean(text, [], t);
    assert Plaintexts(t.vault) == [];
    var pass := PassOf(text, []);
    assert StepAdditions(text, [], []) == [];
    assert pass([]).additions == [];
    assert Loop(pass, [], false, 1, REPAIR_MAX_ITERATIONS) == LoopResult([], false, true, 1);
  }

  /** Digits around a literal token, few enough on each side to be no run of their own but seven or more
      together: with no detections and no deny terms the loop reports convergence at once, and the residual
      scan of its output reports a hit. */
  lemma {:induction false} LiteralTokenBreaksDominance(x: string, y: string)
    requires AllDigits(x) && AllDigits(y) && |x| < 7 && |y| < 6 && |x| + |y| >= 7
    ensures var text := x + (TOKEN + y); var r := RepairSpans(text, [], [], REPAIR_MAX_ITERATIONS);
            HasToken(text) && r.converged && ScanOf(r.tokenized, []).hits != []
  {
    var text := x + (TOKEN + y);
    CleanToTheFinders(x, y);
    CleanMeansConverged(text);
    TokenIsToken();
    StripsAround(x, TOKEN, y);
    ResidualHits(text, x, y);
    assert Plaintexts([]) == [];
  }

  lemma {:induction false} ResidualHits(text: string, x: string, y: string)
    requires AllDigits(x) && AllDigits(y) && |x| + |y| >= 7 && Strip(text) == x + (" " + y)
    ensures RS.Scan(text, [], []).hits != []
  {
    Normalized(x, y);
    OneLongRun(x + y);
    RS.NoHitsIffClean(text, [], []);
  }
}
