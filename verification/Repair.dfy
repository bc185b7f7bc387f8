/** The residual-mirror repair fixpoint. */
module Repair {
  import opened RedactionTypes
  import opened Spans
  import opened Tokenize
  import opened EffectiveText
  import Chars
  import TextRuns
  import Patterns
  import R = Regex
  import M = MirrorFinders
  import RS = ResidualScan
  import ScanParity

  datatype Candidate = Candidate(span: R.Span, entityType: EntityType, detector: Layer)

  function Tag(hits: seq<R.Span>, t: EntityType, l: Layer): (r: seq<Candidate>)
    ensures |r| == |hits| && forall k :: 0 <= k < |hits| ==> r[k] == Candidate(hits[k], t, l)
  {
    seq(|hits|, k requires 0 <= k < |hits| => Candidate(hits[k], t, l))
  }

  /** The type recorded for a token, other when there is none. */
  function TypeByToken(findings: seq<Finding>, token: string): EntityType {
    if findings == [] then Other
    else if findings[|findings| - 1].tokenRef == token then findings[|findings| - 1].entityType
    else TypeByToken(findings[..|findings| - 1], token)
  }

  function VaultCandidates(text: string, vault: seq<VaultEntry>, findings: seq<Finding>): seq<Candidate> {
    if vault == [] then []
    else
      var e := vault[|vault| - 1];
      VaultCandidates(text, vault[..|vault| - 1], findings)
      + Tag(M.VaultOccurrences(text, e.plaintext), TypeByToken(findings, e.token), Regex)
  }

  datatype Finder = DigitRuns | SpelledDigits | Greetings | Emails | AddressDigits | DenyTerms | VaultValues

  /** What one finder returns, tagged with the type and layer its hits are redacted under. */
  function Found(f: Finder, text: string, denyTerms: seq<string>, t: Tokenized): seq<Candidate> {
    match f
    case DigitRuns => Tag(M.LongDigitRuns(text), Number, Regex)
    case SpelledDigits => Tag(M.SpelledDigitRuns(text), Phone, Regex)
    case Greetings => Tag(M.GreetingNames(text), Name, Regex)
    case Emails => Tag(M.EmailLike(text), Email, Regex)
    case AddressDigits => Tag(M.AddressWindowDigits(text), Number, Regex)
    case DenyTerms => Tag(M.DenyTermOccurrences(text, denyTerms), DenyList, DenyTerm)
    case VaultValues => VaultCandidates(text, t.vault, t.findings)
  }

  const FINDERS := [DigitRuns, SpelledDigits, Greetings, Emails, AddressDigits, DenyTerms, VaultValues]

  function CandidatesOf(found: Finder -> seq<Candidate>, finders: seq<Finder>): seq<Candidate> {
    if finders == [] then [] else CandidatesOf(found, finders[..|finders| - 1]) + found(finders[|finders| - 1])
  }

  /** Every finder's hits over the effective text. */
  function Candidates(text: string, denyTerms: seq<string>, t: Tokenized): seq<Candidate> {
    CandidatesOf(f => Found(f, text, denyTerms, t), FINDERS)
  }

  ghost predicate SolidCandidates(text: string, cs: seq<Candidate>) {
    forall k {:trigger cs[k]} :: 0 <= k < |cs| ==> M.Solid(text, cs[k].span)
  }

  lemma {:induction false} TagSolid(text: string, hits: seq<R.Span>, t: EntityType, l: Layer)
    requires M.AllSolid(text, hits)
    ensures SolidCandidates(text, Tag(hits, t, l))
  {}

  lemma {:induction false} SolidConcat(text: string, a: seq<Candidate>, b: seq<Candidate>)
    requires SolidCandidates(text, a) && SolidCandidates(text, b)
    ensures SolidCandidates(text, a + b)
  {}

  lemma {:induction false} VaultCandidatesSolid(text: string, vault: seq<VaultEntry>, findings: seq<Finding>)
    ensures SolidCandidates(text, VaultCandidates(text, vault, findings))
  {
    if vault != [] {
      var e := vault[|vault| - 1];
      VaultCandidatesSolid(text, vault[..|vault| - 1], findings);
      TagSolid(text, M.VaultOccurrences(text, e.plaintext), TypeByToken(findings, e.token), Regex);
    }
  }

  lemma {:induction false} FoundSolid(f: Finder, text: string, denyTerms: seq<string>, t: Tokenized)
    ensures SolidCandidates(text, Found(f, text, denyTerms, t))
  {
    match f
    case DigitRuns => TagSolid(text, M.LongDigitRuns(text), Number, Regex);
    case SpelledDigits => TagSolid(text, M.SpelledDigitRuns(text), Phone, Regex);
    case Greetings => TagSolid(text, M.GreetingNames(text), Name, Regex);
    case Emails => TagSolid(text, M.EmailLike(text), Email, Regex);
    case AddressDigits => TagSolid(text, M.AddressWindowDigits(text), Number, Regex);
    case DenyTerms => TagSolid(text, M.DenyTermOccurrences(text, denyTerms), DenyList, DenyTerm);
    case VaultValues => VaultCandidatesSolid(text, t.vault, t.findings);
  }

  lemma {:induction false} CandidatesOfSolid(text: string, found: Finder -> seq<Candidate>, finders: seq<Finder>)
    requires forall f :: SolidCandidates(text, found(f))
    ensures SolidCandidates(text, CandidatesOf(found, finders))
  {
    if finders != [] {
      var front, f := finders[..|finders| - 1], finders[|finders| - 1];
      CandidatesOfSolid(text, found, front);
      SolidConcat(text, CandidatesOf(found, front), found(f));
    }
  }

  lemma {:induction false} CandidatesSolid(text: string, denyTerms: seq<string>, t: Tokenized)
    ensures SolidCandidates(text, Candidates(text, denyTerms, t))
  {
    var found := f => Found(f, text, denyTerms, t);
    forall f ensures SolidCandidates(text, found(f)) { FoundSolid(f, text, denyTerms, t); }
    CandidatesOfSolid(text, found, FINDERS);
  }

  // ---------- one iteration ----------

  /** Some span already covers the whole of [start, end). */
  predicate CoveredBySpan(spans: seq<Detection>, start: nat, end: nat) {
    exists s :: s in spans && s.start <= start && end <= s.end
  }

  function AdditionOf(e: Effective, spans: seq<Detection>, c: Candidate): seq<Detection>
    requires c.span.start <= c.span.end <= |e.at|
  {
    match ToOriginal(e, c.span)
    case None => []
    case Some(o) => if CoveredBySpan(spans, o.start, o.end) then [] else [Detection(o.start, o.end, c.entityType, c.detector, Unscored)]
  }

  function Additions(e: Effective, spans: seq<Detection>, cs: seq<Candidate>): seq<Detection>
    requires forall k :: 0 <= k < |cs| ==> cs[k].span.start <= cs[k].span.end <= |e.at|
  {
    if cs == [] then [] else Additions(e, spans, cs[..|cs| - 1]) + AdditionOf(e, spans, cs[|cs| - 1])
  }

  method CollectAdditions(e: Effective, spans: seq<Detection>, cs: seq<Candidate>) returns (additions: seq<Detection>)
    requires forall k :: 0 <= k < |cs| ==> cs[k].span.start <= cs[k].span.end <= |e.at|
    ensures additions == Additions(e, spans, cs)
  {
    additions := [];
    for i := 0 to |cs|
      invariant additions == Additions(e, spans, cs[..i])
    {
      assert cs[..i + 1][..i] == cs[..i];
      var orig := MapToOriginal(e, cs[i].span);
      if orig.None? { continue; }
      if CoveredBySpan(spans, orig.value.start, orig.value.end) { continue; }
      additions := additions + [Detection(orig.value.start, orig.value.end, cs[i].entityType, cs[i].detector, Unscored)];
    }
    assert cs[..|cs|] == cs;
  }

  /** No mapped-back hit is ever discarded: each adds a span starting on an uncovered character. */
  lemma {:induction false} NothingDiscarded(text: string, spans: seq<Detection>, e: Effective, cs: seq<Candidate>)
    requires Maps(text, spans, 0, e) && SolidCandidates(e.text, cs) && |e.at| == |e.text|
    requires forall s :: s in spans ==> s.start < s.end
    ensures |Additions(e, spans, cs)| == |cs|
    ensures InRange(Additions(e, spans, cs), |text|)
    ensures forall d :: d in Additions(e, spans, cs) ==> !Covered(spans, d.start)
  {
    if cs != [] {
      var c := cs[|cs| - 1];
      NothingDiscarded(text, spans, e, cs[..|cs| - 1]);
      SolidHitMapsBack(text, spans, e, c.span);
      var o := ToOriginal(e, c.span).value;
      UncoveredStart(spans, o.start, o.end);
    }
  }

  lemma {:induction false} UncoveredStart(spans: seq<Detection>, start: nat, end: nat)
    requires !Covered(spans, start) && start < end
    ensures !CoveredBySpan(spans, start, end)
  {
    forall s | s in spans ensures !(s.start <= start && end <= s.end) {
      var k :| 0 <= k < |spans| && spans[k] == s;
      assert !spans[k].Covers(start);
    }
  }

  // ---------- the loop, for any pass ----------

  /** What one pass over a span set yields: the additions, and the span set merged with them. */
  datatype Step = Step(additions: seq<Detection>, merged: Merged)

  type Pass = seq<Detection> -> Step

  datatype LoopResult = LoopResult(spans: seq<Detection>, disagreement: bool, stopped: bool, iterations: nat)

  /** Repeat a pass until it adds nothing or the cap is reached. */
  function Loop(pass: Pass, spans: seq<Detection>, disagreement: bool, iteration: nat, maxIterations: nat): LoopResult
    decreases maxIterations + 1 - iteration
  {
    if iteration > maxIterations then LoopResult(spans, disagreement, false, maxIterations)
    else if pass(spans).additions == [] then LoopResult(spans, disagreement, true, iteration)
    else
      var m := pass(spans).merged;
      Loop(pass, m.spans, disagreement || m.disagreement, iteration + 1, maxIterations)
  }

  /** What every firing pass keeps holds of the result; a stopped result is a fixpoint. */
  lemma {:induction false} LoopKeeps(pass: Pass, keeps: seq<Detection> -> bool, spans: seq<Detection>, disagreement: bool,
                                     iteration: nat, maxIterations: nat)
    requires keeps(spans)
    requires forall s :: keeps(s) && pass(s).additions != [] ==> keeps(pass(s).merged.spans)
    ensures var r := Loop(pass, spans, disagreement, iteration, maxIterations);
            keeps(r.spans) && (r.stopped ==> pass(r.spans).additions == []) && (disagreement ==> r.disagreement)
    decreases maxIterations + 1 - iteration
  {
    if iteration <= maxIterations && pass(spans).additions != [] {
      var m := pass(spans).merged;
      LoopKeeps(pass, keeps, m.spans, disagreement || m.disagreement, iteration + 1, maxIterations);
    }
  }

  /** A loop whose firing passes all decrease a measure stops when the cap leaves room for it. */
  lemma {:induction false} LoopStops(pass: Pass, keeps: seq<Detection> -> bool, measure: seq<Detection> -> nat,
                                     spans: seq<Detection>, disagreement: bool, iteration: nat, maxIterations: nat)
    requires keeps(spans) && maxIterations + 1 > iteration + measure(spans)
    requires forall s :: keeps(s) && pass(s).additions != [] ==> keeps(pass(s).merged.spans) && measure(pass(s).merged.spans) < measure(s)
    ensures Loop(pass, spans, disagreement, iteration, maxIterations).stopped
    decreases maxIterations + 1 - iteration
  {
    if pass(spans).additions != [] {
      var m := pass(spans).merged;
      LoopStops(pass, keeps, measure, m.spans, disagreement || m.disagreement, iteration + 1, maxIterations);
    }
  }

  // ---------- the repair loop ----------

  datatype RepairResult = RepairResult(spans: seq<Detection>, tokenized: Tokenized, disagreement: bool, converged: bool, iterations: nat)

  /** A merged span set over the text. */
  predicate Canonical(text: string, spans: seq<Detection>) { InRange(spans, |text|) && Ordered(spans) }

  function StepAdditions(text: string, spans: seq<Detection>, denyTerms: seq<string>): (additions: seq<Detection>)
    requires Canonical(text, spans)
    ensures InRange(additions, |text|)
  {
    var e := EffectiveFrom(text, spans, 0);
    var cs := Candidates(e.text, denyTerms, TokenizeOrdered(text, spans));
    EffectiveMaps(text, spans, 0);
    CandidatesSolid(e.text, denyTerms, TokenizeOrdered(text, spans));
    NothingDiscarded(text, spans, e, cs);
    Additions(e, spans, cs)
  }

  /** One pass of the repair loop over a span set. */
  function RepairPass(text: string, denyTerms: seq<string>, spans: seq<Detection>): Step {
    if Canonical(text, spans) then
      var additions := StepAdditions(text, spans, denyTerms);
      Step(additions, Merge(spans + additions))
    else Step([], Merged(spans, false))
  }

  function PassOf(text: string, denyTerms: seq<string>): Pass { spans => RepairPass(text, denyTerms, spans) }

  lemma {:induction false} PassKeepsCanonical(text: string, denyTerms: seq<string>, spans: seq<Detection>)
    requires Canonical(text, spans)
    ensures Canonical(text, RepairPass(text, denyTerms, spans).merged.spans)
  {
    MergeCorrect(spans + StepAdditions(text, spans, denyTerms), |text|);
  }

  predicate VaultClean(t: Tokenized) {
    forall e :: e in t.vault ==> !RS.VaultValueLeaks(e.plaintext, t.redactedText)
  }

  lemma {:induction false} LoopCanonical(text: string, denyTerms: seq<string>, spans: seq<Detection>, maxIterations: nat)
    requires Canonical(text, spans)
    ensures var r := Loop(PassOf(text, denyTerms), spans, false, 1, maxIterations);
            Canonical(text, r.spans) && (r.stopped ==> RepairPass(text, denyTerms, r.spans).additions == [])
  {
    var keeps := s => Canonical(text, s);
    forall s | keeps(s) ensures keeps(PassOf(text, denyTerms)(s).merged.spans) { PassKeepsCanonical(text, denyTerms, s); }
    LoopKeeps(PassOf(text, denyTerms), keeps, spans, false, 1, maxIterations);
  }

  function RepairSpans(text: string, spans: seq<Detection>, denyTerms: seq<string>, maxIterations: nat): (r: RepairResult)
    requires Canonical(text, spans)
    ensures Canonical(text, r.spans) && r.tokenized == TokenizeOrdered(text, r.spans)
  {
    LoopCanonical(text, denyTerms, spans, maxIterations);
    var l := Loop(PassOf(text, denyTerms), spans, false, 1, maxIterations);
    var t := TokenizeOrdered(text, l.spans);
    RepairResult(l.spans, t, l.disagreement, l.stopped && VaultClean(t), l.iterations)
  }

  /** The repair pass, seen from the loop only through this. */
  ghost predicate Performs(pass: Pass, text: string, denyTerms: seq<string>) {
    forall s {:trigger RepairPass(text, denyTerms, s)} :: pass(s) == RepairPass(text, denyTerms, s)
  }

  type Tokenizer = seq<Detection> -> Tokenized

  /** The tokenization, seen from the loop only through this. */
  ghost predicate Tokenizes(tk: Tokenizer, text: string) {
    forall s {:trigger TokenizeOrdered(text, s)} :: Canonical(text, s) ==> tk(s) == TokenizeOrdered(text, s)
  }

  function TokenizerOf(text: string): Tokenizer {
    (s: seq<Detection>) => if Canonical(text, s) then TokenizeOrdered(text, s) else Tokenized("", [], [])
  }

  method RepairToResidualClean(text: string, spans0: seq<Detection>, denyTerms: seq<string>, maxIterations: nat)
    returns (r: RepairResult)
    requires Canonical(text, spans0)
    ensures r == RepairSpans(text, spans0, denyTerms, maxIterations)
  {
    var l, tokenized := RunPasses(PassOf(text, denyTerms), TokenizerOf(text), text, spans0, denyTerms, maxIterations);
    if !l.stopped { return RepairResult(l.spans, tokenized, l.disagreement, false, l.iterations); }
    var clean := forall e | e in tokenized.vault :: !RS.VaultValueLeaks(e.plaintext, tokenized.redactedText);
    return RepairResult(l.spans, tokenized, l.disagreement, clean, l.iterations);
  }

  method RunPasses(ghost pass: Pass, ghost tk: Tokenizer, text: string, spans0: seq<Detection>, denyTerms: seq<string>, maxIterations: nat)
    returns (r: LoopResult, tokenized: Tokenized)
    requires Canonical(text, spans0) && Performs(pass, text, denyTerms) && Tokenizes(tk, text)
    ensures r == Loop(pass, spans0, false, 1, maxIterations)
    ensures Canonical(text, r.spans) && tokenized == tk(r.spans)
  {
    ghost var goal := Loop(pass, spans0, false, 1, maxIterations);
    var spans, disagreement := spans0, false;
    tokenized := Retokenize(tk, text, spans);
    var iteration := 1;
    while iteration <= maxIterations
      invariant 1 <= iteration <= maxIterations + 1
      invariant Canonical(text, spans) && tokenized == tk(spans)
      invariant Loop(pass, spans, disagreement, iteration, maxIterations) == goal
    {
      var step := OnePass(pass, tk, text, spans, denyTerms, tokenized);
      if |step.additions| == 0 { return LoopResult(spans, disagreement, true, iteration), tokenized; }
      spans, disagreement := step.merged.spans, disagreement || step.merged.disagreement;
      tokenized := Retokenize(tk, text, spans);
      iteration := iteration + 1;
    }
    return LoopResult(spans, disagreement, false, maxIterations), tokenized;
  }

  method OnePass(ghost pass: Pass, ghost tk: Tokenizer, text: string, spans: seq<Detection>, denyTerms: seq<string>, tokenized: Tokenized) returns (step: Step)
    requires Canonical(text, spans) && tokenized == tk(spans) && Tokenizes(tk, text) && Performs(pass, text, denyTerms)
    ensures step.additions == pass(spans).additions
    ensures step.additions != [] ==> step == pass(spans) && Canonical(text, step.merged.spans)
  {
    assert pass(spans) == RepairPass(text, denyTerms, spans) && tk(spans) == TokenizeOrdered(text, spans);
    var additions := OneIteration(text, spans, denyTerms, tokenized);
    if |additions| == 0 { return Step([], Merged(spans, false)); }
    PassKeepsCanonical(text, denyTerms, spans);
    var merged, differ := MergeDetections(spans + additions);
    return Step(additions, Merged(merged, differ));
  }

  method Retokenize(ghost tk: Tokenizer, text: string, spans: seq<Detection>) returns (t: Tokenized)
    requires Canonical(text, spans) && Tokenizes(tk, text)
    ensures t == tk(spans)
  {
    OrderedIsSorted(spans, |text|);
    t := TokenizeSpans(text, spans);
  }

  method FindVaultCandidates(text: string, vault: seq<VaultEntry>, findings: seq<Finding>) returns (cs: seq<Candidate>)
    ensures cs == VaultCandidates(text, vault, findings)
  {
    cs := [];
    for i := 0 to |vault|
      invariant cs == VaultCandidates(text, vault[..i], findings)
    {
      assert vault[..i + 1][..i] == vault[..i];
      var hits := M.FindVaultOccurrences(text, vault[i].plaintext);
      cs := cs + Tag(hits, TypeByToken(findings, vault[i].token), Regex);
    }
    assert vault[..|vault|] == vault;
  }

  method RunFinder(f: Finder, text: string, denyTerms: seq<string>, t: Tokenized) returns (cs: seq<Candidate>)
    ensures cs == Found(f, text, denyTerms, t)
  {
    var hits;
    match f {
      case DigitRuns => hits := M.FindLongDigitRuns(text); return Tag(hits, Number, Regex);
      case SpelledDigits => hits := M.FindSpelledDigitRuns(text); return Tag(hits, Phone, Regex);
      case Greetings => return Tag(M.GreetingNames(text), Name, Regex);
      case Emails => return Tag(M.EmailLike(text), Email, Regex);
      case AddressDigits => hits := M.FindAddressWindowDigits(text); return Tag(hits, Number, Regex);
      case DenyTerms => hits := M.FindDenyTermOccurrences(text, denyTerms); return Tag(hits, DenyList, DenyTerm);
      case VaultValues => cs := FindVaultCandidates(text, t.vault, t.findings);
    }
  }

  /** The finders, in the order they run. */
  method CollectCandidates(text: string, denyTerms: seq<string>, t: Tokenized) returns (cs: seq<Candidate>)
    ensures cs == Candidates(text, denyTerms, t)
  {
    ghost var found := f => Found(f, text, denyTerms, t);
    cs := [];
    for i := 0 to |FINDERS|
      invariant cs == CandidatesOf(found, FINDERS[..i])
    {
      assert FINDERS[..i + 1][..i] == FINDERS[..i];
      var hits := RunFinder(FINDERS[i], text, denyTerms, t);
      cs := cs + hits;
    }
    assert FINDERS[..|FINDERS|] == FINDERS;
  }

  method OneIteration(text: string, spans: seq<Detection>, denyTerms: seq<string>, tokenized: Tokenized)
    returns (additions: seq<Detection>)
    requires Canonical(text, spans) && tokenized == TokenizeOrdered(text, spans)
    ensures additions == StepAdditions(text, spans, denyTerms)
  {
    OrderedIsSorted(spans, |text|);
    var e := BuildEffective(text, spans);
    CandidatesSolid(e.text, denyTerms, tokenized);
    var candidates := CollectCandidates(e.text, denyTerms, tokenized);
    additions := CollectAdditions(e, spans, candidates);
  }

  // ---------- dominance ----------

  function Plaintexts(vault: seq<VaultEntry>): (ps: seq<string>)
    ensures |ps| == |vault| && forall k :: 0 <= k < |vault| ==> ps[k] == vault[k].plaintext
  {
    seq(|vault|, k requires 0 <= k < |vault| => vault[k].plaintext)
  }

  /** Which plaintexts leak, seen from the induction only through this. */
  ghost predicate Leaks(leaks: string -> bool, text: string) {
    forall p {:trigger RS.Reintroduced(p, TextRuns.Alnum(text), TextRuns.WordTokens(text))} ::
      leaks(p) <==> RS.Reintroduced(p, TextRuns.Alnum(text), TextRuns.WordTokens(text))
  }

  lemma {:induction false} VaultEmptyStep(leaks: string -> bool, text: string, vault: seq<VaultEntry>, findings: seq<Finding>)
    requires vault != [] && Leaks(leaks, text)
    ensures VaultCandidates(text, vault, findings) == [] <==>
      VaultCandidates(text, vault[..|vault| - 1], findings) == [] && !leaks(vault[|vault| - 1].plaintext)
  {
    var e := vault[|vault| - 1];
    ScanParity.VaultParity(text, e.plaintext);
    assert leaks(e.plaintext) <==> RS.Reintroduced(e.plaintext, TextRuns.Alnum(text), TextRuns.WordTokens(text));
    assert Tag(M.VaultOccurrences(text, e.plaintext), TypeByToken(findings, e.token), Regex) == [] <==> M.VaultOccurrences(text, e.plaintext) == [];
  }

  lemma {:induction false} VaultEmptyIff(leaks: string -> bool, silent: seq<VaultEntry> -> bool, vault: seq<VaultEntry>, n: nat)
    requires n <= |vault| && silent([]) && forall k :: 0 <= k < |vault| ==> (silent(vault[..k + 1]) <==> silent(vault[..k]) && !leaks(vault[k].plaintext))
    ensures silent(vault[..n]) <==> forall k :: 0 <= k < n ==> !leaks(vault[k].plaintext)
  {
    if n > 0 { VaultEmptyIff(leaks, silent, vault, n - 1); } else { assert vault[..n] == []; }
  }

  lemma {:induction false} VaultCandidatesEmpty(text: string, vault: seq<VaultEntry>, findings: seq<Finding>)
    ensures VaultCandidates(text, vault, findings) == []
       <==> forall e :: e in vault ==> !RS.Reintroduced(e.plaintext, TextRuns.Alnum(text), TextRuns.WordTokens(text))
  {
    var leaks: string -> bool := p => RS.Reintroduced(p, TextRuns.Alnum(text), TextRuns.WordTokens(text));
    var silent: seq<VaultEntry> -> bool := s => VaultCandidates(text, s, findings) == [];
    forall k | 0 <= k < |vault| ensures silent(vault[..k + 1]) <==> silent(vault[..k]) && !leaks(vault[k].plaintext) {
      VaultEmptyStep(leaks, text, vault[..k + 1], findings);
      assert vault[..k + 1][..k] == vault[..k];
    }
    VaultEmptyIff(leaks, silent, vault, |vault|);
    assert vault[..|vault|] == vault;
    EachEntry(leaks, vault);
  }

  lemma {:induction false} EachEntry(leaks: string -> bool, vault: seq<VaultEntry>)
    ensures (forall k :: 0 <= k < |vault| ==> !leaks(vault[k].plaintext)) <==> forall e :: e in vault ==> !leaks(e.plaintext)
  {
    assert forall k :: 0 <= k < |vault| ==> vault[k] in vault;
  }

  lemma {:induction false} NoCandidates(found: Finder -> seq<Candidate>, finders: seq<Finder>)
    ensures CandidatesOf(found, finders) == [] <==> forall f :: f in finders ==> found(f) == []
  {
    if finders != [] {
      var front, last := finders[..|finders| - 1], finders[|finders| - 1];
      NoCandidates(found, front);
      assert finders == front + [last];
    }
  }

  lemma {:induction false} EveryFinderListed(f: Finder)
    ensures f in FINDERS
  {
    match f
    case DigitRuns => assert FINDERS[0] == f;
    case SpelledDigits => assert FINDERS[1] == f;
    case Greetings => assert FINDERS[2] == f;
    case Emails => assert FINDERS[3] == f;
    case AddressDigits => assert FINDERS[4] == f;
    case DenyTerms => assert FINDERS[5] == f;
    case VaultValues => assert FINDERS[6] == f;
  }

  /** The part of the residual scan a finder mirrors is clean. */
  ghost predicate SubScanClean(f: Finder, text: string, denyTerms: seq<string>, vault: seq<VaultEntry>) {
    match f
    case DigitRuns => RS.CountLong(TextRuns.Runs(TextRuns.Alnum(text), Chars.DIGITS, 0)) == 0
    case SpelledDigits => RS.CountSpelled(text) == 0
    case Greetings => RS.CountNames(text) == 0
    case Emails => |R.FindAll(Patterns.EMAIL_AT_SIGN, text, 0)| == 0 && |R.FindAll(Patterns.EMAIL_SPOKEN, text, 0)| == 0
    case AddressDigits => RS.CountNear(text, R.FindAll(Patterns.ADDRESS_KEYWORD, text, 0)) == 0
    case DenyTerms => forall d :: d in denyTerms ==> !RS.DenyHit(d, TextRuns.Alnum(text))
    case VaultValues => NoneReintroduced(Plaintexts(vault), text)
  }

  ghost predicate NoneReintroduced(plaintexts: seq<string>, text: string) {
    forall p :: p in plaintexts ==> !RS.Reintroduced(p, TextRuns.Alnum(text), TextRuns.WordTokens(text))
  }

  lemma {:induction false} DenyFinderParity(text: string, denyTerms: seq<string>, t: Tokenized)
    ensures Found(DenyTerms, text, denyTerms, t) == [] <==> SubScanClean(DenyTerms, text, denyTerms, t.vault)
  {
    ScanParity.DenyParity(text, denyTerms);
  }

  lemma {:induction false} VaultCandidatesParity(text: string, vault: seq<VaultEntry>, findings: seq<Finding>)
    ensures VaultCandidates(text, vault, findings) == [] <==> NoneReintroduced(Plaintexts(vault), text)
  {
    VaultCandidatesEmpty(text, vault, findings);
    PlaintextsClean(vault, text);
  }

  lemma {:induction false} VaultFinderParity(text: string, denyTerms: seq<string>, t: Tokenized)
    ensures Found(VaultValues, text, denyTerms, t) == [] <==> SubScanClean(VaultValues, text, denyTerms, t.vault)
  {
    VaultCandidatesParity(text, t.vault, t.findings);
  }

  /** Each finder returns nothing exactly when the sub-scan it mirrors is clean. */
  lemma {:induction false} FinderParity(f: Finder, text: string, denyTerms: seq<string>, t: Tokenized)
    ensures Found(f, text, denyTerms, t) == [] <==> SubScanClean(f, text, denyTerms, t.vault)
  {
    match f
    case DigitRuns => ScanParity.DigitParity(text);
    case SpelledDigits => ScanParity.SpelledParity(text);
    case Greetings => ScanParity.GreetingParity(text);
    case Emails => ScanParity.EmailParity(text);
    case AddressDigits => ScanParity.AddressParity(text);
    case DenyTerms => DenyFinderParity(text, denyTerms, t);
    case VaultValues => VaultFinderParity(text, denyTerms, t);
  }

  /** The finders return nothing exactly when every residual sub-scan is clean. */
  lemma {:induction false} NoCandidatesIffClean(text: string, denyTerms: seq<string>, t: Tokenized)
    ensures Candidates(text, denyTerms, t) == [] <==> RS.Clean(text, Plaintexts(t.vault), denyTerms)
  {
    var found := f => Found(f, text, denyTerms, t);
    NoCandidates(found, FINDERS);
    forall f: Finder ensures f in FINDERS && (found(f) == [] <==> SubScanClean(f, text, denyTerms, t.vault)) {
      EveryFinderListed(f);
      FinderParity(f, text, denyTerms, t);
    }
    CleanByFinder(text, denyTerms, t.vault);
  }

  lemma {:induction false} CleanByFinder(text: string, denyTerms: seq<string>, vault: seq<VaultEntry>)
    ensures RS.Clean(text, Plaintexts(vault), denyTerms) <==> forall f: Finder :: SubScanClean(f, text, denyTerms, vault)
  {
    if forall f: Finder :: SubScanClean(f, text, denyTerms, vault) {
      assert SubScanClean(DigitRuns, text, denyTerms, vault);
      assert SubScanClean(SpelledDigits, text, denyTerms, vault);
      assert SubScanClean(Greetings, text, denyTerms, vault);
      assert SubScanClean(Emails, text, denyTerms, vault);
      assert SubScanClean(AddressDigits, text, denyTerms, vault);
      assert SubScanClean(DenyTerms, text, denyTerms, vault);
      assert SubScanClean(VaultValues, text, denyTerms, vault);
    }
  }

  lemma {:induction false} PlaintextsClean(vault: seq<VaultEntry>, text: string)
    ensures (forall e :: e in vault ==> !RS.Reintroduced(e.plaintext, TextRuns.Alnum(text), TextRuns.WordTokens(text)))
       <==> (forall p :: p in Plaintexts(vault) ==> !RS.Reintroduced(p, TextRuns.Alnum(text), TextRuns.WordTokens(text)))
  {
    var ps := Plaintexts(vault);
    assert forall k :: 0 <= k < |vault| ==> vault[k] in vault && ps[k] in ps;
  }

  lemma {:induction false} AssignedAreTokens(items: seq<Item>)
    ensures AllTokens(Assign(TokenLabel, items).tokenFor)
  {
    forall t, n ensures IsToken(TokenLabel(t, n)) { LabelIsToken(t, n); }
    NamedAreTokens(TokenLabel, items);
  }

  lemma {:induction false} NamedAreTokens(name: Namer, items: seq<Item>)
    requires forall t, n :: IsToken(name(t, n))
    ensures AllTokens(Assign(name, items).tokenFor) && NamesTokens(Assign(name, items).byKey)
  {
    if items != [] {
      NamedAreTokens(name, items[..|items| - 1]);
      StepIsToken(name, Assign(name, items[..|items| - 1]), items[|items| - 1]);
    }
  }

  ghost predicate NamesTokens(byKey: map<string, string>) { forall key :: key in byKey ==> IsToken(byKey[key]) }

  lemma {:induction false} StepIsToken(name: Namer, st: Assigned, it: Item)
    requires AllTokens(st.tokenFor) && NamesTokens(st.byKey) && forall t, n :: IsToken(name(t, n))
    ensures AllTokens(AssignOne(name, st, it).tokenFor) && NamesTokens(AssignOne(name, st, it).byKey)
  {}

  /** The output with tokens stripped to a space is the repair loop's effective text, exactly when no
      uncovered stretch of the input holds a literal token. */
  lemma {:induction false} EffectiveIsStrippedOutput(text: string, spans: seq<Detection>)
    requires Canonical(text, spans)
    ensures GapsClean(text, spans, 0) <==> Strip(TokenizeOrdered(text, spans).redactedText) == EffectiveFrom(text, spans, 0).text
  {
    AssignedAreTokens(Items(text, spans));
    StrippedIsEffective(text, spans, Assign(TokenLabel, Items(text, spans)).tokenFor, 0);
  }

  function ScanOf(t: Tokenized, denyTerms: seq<string>): RS.ScanResult { RS.Scan(t.redactedText, Plaintexts(t.vault), denyTerms) }

  /** What each side of dominance looks at: the finders at the effective text, the scan at the stripped output. */
  lemma {:induction false} TwoSides(text: string, spans: seq<Detection>, denyTerms: seq<string>)
    requires Canonical(text, spans)
    ensures var t := TokenizeOrdered(text, spans);
      && (StepAdditions(text, spans, denyTerms) == [] <==> RS.Clean(EffectiveFrom(text, spans, 0).text, Plaintexts(t.vault), denyTerms))
      && (ScanOf(t, denyTerms).hits == [] <==> RS.Clean(Strip(t.redactedText), Plaintexts(t.vault), denyTerms))
  {
    var t := TokenizeOrdered(text, spans);
    var e := EffectiveFrom(text, spans, 0);
    RS.NoHitsIffClean(t.redactedText, Plaintexts(t.vault), denyTerms);
    NoCandidatesIffClean(e.text, denyTerms, t);
    EffectiveMaps(text, spans, 0);
    CandidatesSolid(e.text, denyTerms, t);
    NothingDiscarded(text, spans, e, Candidates(e.text, denyTerms, t));
  }

  /** Dominance and precision neutrality: an iteration finds nothing to add exactly when the independent
      residual scan of the same output reports no hit. */
  lemma {:induction false} Dominance(text: string, spans: seq<Detection>, denyTerms: seq<string>)
    requires Canonical(text, spans) && GapsClean(text, spans, 0)
    ensures StepAdditions(text, spans, denyTerms) == [] <==> ScanOf(TokenizeOrdered(text, spans), denyTerms).hits == []
    ensures StepAdditions(text, spans, denyTerms) == [] ==> VaultClean(TokenizeOrdered(text, spans))
  {
    EffectiveIsStrippedOutput(text, spans);
    TwoSides(text, spans, denyTerms);
    PlaintextsClean(TokenizeOrdered(text, spans).vault, EffectiveFrom(text, spans, 0).text);
  }

  // ---------- termination ----------

  /** How many of the first n characters no span covers. */
  ghost function Uncovered(spans: seq<Detection>, n: nat): nat {
    if n == 0 then 0 else Uncovered(spans, n - 1) + if Covered(spans, n - 1) then 0 else 1
  }

  lemma {:induction false} UncoveredShrinks(a: seq<Detection>, b: seq<Detection>, n: nat)
    requires forall i :: 0 <= i < n && Covered(a, i) ==> Covered(b, i)
    ensures Uncovered(b, n) <= Uncovered(a, n)
    ensures (exists i :: 0 <= i < n && Covered(b, i) && !Covered(a, i)) ==> Uncovered(b, n) < Uncovered(a, n)
  {
    if n > 0 {
      UncoveredShrinks(a, b, n - 1);
      if i :| 0 <= i < n && Covered(b, i) && !Covered(a, i) {
        if i < n - 1 { assert exists j :: 0 <= j < n - 1 && Covered(b, j) && !Covered(a, j); }
      }
    }
  }

  lemma {:induction false} CoveredConcat(a: seq<Detection>, b: seq<Detection>, i: int)
    ensures Covered(a, i) || Covered(b, i) ==> Covered(a + b, i)
  {
    if Covered(a, i) { var k :| 0 <= k < |a| && a[k].Covers(i); assert (a + b)[k].Covers(i); }
    if Covered(b, i) { var k :| 0 <= k < |b| && b[k].Covers(i); assert (a + b)[|a| + k].Covers(i); }
  }

  /** Every firing iteration keeps what was covered and covers at least one more character. */
  lemma {:induction false} IterationCoversMore(text: string, spans: seq<Detection>, denyTerms: seq<string>)
    requires Canonical(text, spans)
    ensures var next := RepairPass(text, denyTerms, spans).merged.spans;
            && Canonical(text, next) && (forall i :: Covered(spans, i) ==> Covered(next, i))
            && (StepAdditions(text, spans, denyTerms) != [] ==> Uncovered(next, |text|) < Uncovered(spans, |text|))
  {
    AdditionsUncovered(text, spans, denyTerms);
    MergeCovers(text, spans, StepAdditions(text, spans, denyTerms));
  }

  lemma {:induction false} AdditionsUncovered(text: string, spans: seq<Detection>, denyTerms: seq<string>)
    requires Canonical(text, spans)
    ensures forall d :: d in StepAdditions(text, spans, denyTerms) ==> !Covered(spans, d.start)
  {
    var e := EffectiveFrom(text, spans, 0);
    var t := TokenizeOrdered(text, spans);
    EffectiveMaps(text, spans, 0);
    CandidatesSolid(e.text, denyTerms, t);
    NothingDiscarded(text, spans, e, Candidates(e.text, denyTerms, t));
  }

  lemma {:induction false} MergeCovers(text: string, spans: seq<Detection>, additions: seq<Detection>)
    requires Canonical(text, spans) && InRange(additions, |text|)
    requires forall d :: d in additions ==> !Covered(spans, d.start)
    ensures var next := Merge(spans + additions).spans;
            && Canonical(text, next) && (forall i :: Covered(spans, i) ==> Covered(next, i))
            && (additions != [] ==> Uncovered(next, |text|) < Uncovered(spans, |text|))
  {
    MergeCorrect(spans + additions, |text|);
    var next := Merge(spans + additions).spans;
    forall i | Covered(spans, i) ensures Covered(next, i) { CoveredConcat(spans, additions, i); }
    if additions != [] {
      var d := additions[0];
      assert d in additions && d.Covers(d.start);
      CoveredConcat(spans, additions, d.start);
      assert Covered(next, d.start) && !Covered(spans, d.start);
      UncoveredShrinks(spans, next, |text|);
    }
  }

  /** Repair only ever adds coverage. */
  lemma {:induction false} RepairKeepsCoverage(text: string, spans: seq<Detection>, denyTerms: seq<string>, maxIterations: nat)
    requires Canonical(text, spans)
    ensures forall i :: Covered(spans, i) ==> Covered(RepairSpans(text, spans, denyTerms, maxIterations).spans, i)
  {
    var keeps: seq<Detection> -> bool := s => Canonical(text, s) && forall i :: 0 <= i < |text| && Covered(spans, i) ==> Covered(s, i);
    forall s | keeps(s) ensures keeps(PassOf(text, denyTerms)(s).merged.spans) { IterationCoversMore(text, s, denyTerms); }
    LoopKeeps(PassOf(text, denyTerms), keeps, spans, false, 1, maxIterations);
  }

  /** Convergence is never reported while the residual scan of the output would still hit. */
  lemma {:induction false} RepairSound(text: string, spans: seq<Detection>, denyTerms: seq<string>, maxIterations: nat)
    requires Canonical(text, spans) && !HasToken(text)
    ensures var r := RepairSpans(text, spans, denyTerms, maxIterations);
            r.converged ==> ScanOf(r.tokenized, denyTerms).hits == []
  {
    var r := RepairSpans(text, spans, denyTerms, maxIterations);
    LoopCanonical(text, denyTerms, spans, maxIterations);
    NoTokenNoGap(text, r.spans, 0);
    Dominance(text, r.spans, denyTerms);
  }

  /** Any cap above the number of uncovered characters converges. */
  lemma {:induction false} RepairConverges(text: string, spans: seq<Detection>, denyTerms: seq<string>, maxIterations: nat)
    requires Canonical(text, spans) && !HasToken(text) && maxIterations > Uncovered(spans, |text|)
    ensures RepairSpans(text, spans, denyTerms, maxIterations).converged
  {
    var keeps := s => Canonical(text, s);
    var measure: seq<Detection> -> nat := s => Uncovered(s, |text|);
    var pass := PassOf(text, denyTerms);
    forall s | keeps(s) && pass(s).additions != []
      ensures keeps(pass(s).merged.spans) && measure(pass(s).merged.spans) < measure(s)
    {
      IterationCoversMore(text, s, denyTerms);
    }
    LoopStops(pass, keeps, measure, spans, false, 1, maxIterations);
    LoopCanonical(text, denyTerms, spans, maxIterations);
    var r := RepairSpans(text, spans, denyTerms, maxIterations);
    NoTokenNoGap(text, r.spans, 0);
    Dominance(text, r.spans, denyTerms);
  }

  /** Precision neutrality: a call the residual scan passes is returned untouched. */
  lemma {:induction false} RepairNeutral(text: string, spans: seq<Detection>, denyTerms: seq<string>, maxIterations: nat)
    requires Canonical(text, spans) && !HasToken(text) && maxIterations > 0
    requires ScanOf(TokenizeOrdered(text, spans), denyTerms).hits == []
    ensures RepairSpans(text, spans, denyTerms, maxIterations)
         == RepairResult(spans, TokenizeOrdered(text, spans), false, true, 1)
  {
    NoTokenNoGap(text, spans, 0);
    Dominance(text, spans, denyTerms);
    var pass := PassOf(text, denyTerms);
    assert pass(spans).additions == [];
    assert Loop(pass, spans, false, 1, maxIterations) == LoopResult(spans, false, true, 1);
  }

  // ---------- the composition ----------

  const REPAIR_MAX_ITERATIONS := 10

  datatype Composed = Composed(spans: seq<Detection>, disagreement: bool, tokenized: Tokenized, residual: RS.ScanResult)

  /** merge, repair, tokenize, residual scan: the one composition every caller shares. */
  function Compose(text: string, detections: seq<Detection>, denyTerms: seq<string>): Composed
    requires InRange(detections, |text|)
  {
    MergeCorrect(detections, |text|);
    var m := Merge(detections);
    var r := RepairSpans(text, m.spans, denyTerms, REPAIR_MAX_ITERATIONS);
    Composed(r.spans, m.disagreement || r.disagreement, r.tokenized, ScanOf(r.tokenized, denyTerms))
  }

  /** No character any detector flagged survives; the residual is empty exactly when no finder fires on the
      final effective text; a conflict between detectors is always reported; and detections whose output is
      already clean are tokenized exactly as merged. */
  lemma {:induction false} ComposeCorrect(text: string, detections: seq<Detection>, denyTerms: seq<string>)
    requires InRange(detections, |text|) && !HasToken(text)
    ensures var c, m := Compose(text, detections, denyTerms), Merge(detections);
            && Canonical(text, c.spans) && c.tokenized == TokenizeOrdered(text, c.spans)
            && (forall i :: Covered(detections, i) ==> Covered(c.spans, i))
            && (c.residual.hits == [] <==> StepAdditions(text, c.spans, denyTerms) == [])
            && (Conflict(detections) ==> c.disagreement)
            && Canonical(text, m.spans)
            && (ScanOf(TokenizeOrdered(text, m.spans), denyTerms).hits == [] ==> c.spans == m.spans && c.residual.hits == [])
  {
    MergeCorrect(detections, |text|);
    var m := Merge(detections);
    var c := Compose(text, detections, denyTerms);
    RepairKeepsCoverage(text, m.spans, denyTerms, REPAIR_MAX_ITERATIONS);
    NoTokenNoGap(text, c.spans, 0);
    Dominance(text, c.spans, denyTerms);
    if ScanOf(TokenizeOrdered(text, m.spans), denyTerms).hits == [] { RepairNeutral(text, m.spans, denyTerms, REPAIR_MAX_ITERATIONS); }
  }
}
