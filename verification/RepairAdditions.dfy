/** What an iteration of the repair loop adds, with which type, and what the whole loop has then done. */
module RepairAdditions {
  import opened RedactionTypes
  import opened Spans
  import opened Tokenize
  import opened EffectiveText
  import opened Repair
  import TextRuns
  import R = Regex
  import M = MirrorFinders
  import FinderHits
  import RS = ResidualScan

  // ---------- every hit with its type and layer ----------

  /** A hit of one of the seven finders over the effective text, and the type and layer it is redacted under; a vaulted
      value's occurrence has the type of that value's own finding. */
  ghost predicate HitOf(f: Finder, text: string, denyTerms: seq<string>, t: Tokenized, h: R.Span, entityType: EntityType, layer: Layer) {
    match f
    case DigitRuns => h in M.LongDigitRuns(text) && entityType == Number && layer == Regex
    case SpelledDigits => h in M.SpelledDigitRuns(text) && entityType == Phone && layer == Regex
    case Greetings => h in M.GreetingNames(text) && entityType == Name && layer == Regex
    case Emails => h in M.EmailLike(text) && entityType == Email && layer == Regex
    case AddressDigits => h in M.AddressWindowDigits(text) && entityType == Number && layer == Regex
    case DenyTerms => h in M.DenyTermOccurrences(text, denyTerms) && entityType == DenyList && layer == DenyTerm
    case VaultValues => layer == Regex && exists v :: VaultHit(text, t, h, entityType, v)
  }

  ghost predicate VaultHit(text: string, t: Tokenized, h: R.Span, entityType: EntityType, v: int) {
    0 <= v < |t.vault| && v < |t.findings| && h in M.VaultOccurrences(text, t.vault[v].plaintext) && entityType == t.findings[v].entityType
  }

  /** Entry by entry, findings refer to the vaulted tokens, and no two entries share one. */
  ghost predicate Aligned(t: Tokenized) {
    && |t.vault| == |t.findings| && (forall v :: 0 <= v < |t.vault| ==> t.findings[v].tokenRef == t.vault[v].token)
    && forall v, w :: 0 <= v < w < |t.vault| ==> t.vault[v].token != t.vault[w].token
  }

  lemma {:induction false} TokenizedIsAligned(text: string, spans: seq<Detection>)
    requires Canonical(text, spans)
    ensures Aligned(TokenizeOrdered(text, spans))
  {
    var st := Assign(TokenLabel, Items(text, spans));
    LabelsInjective();
    AssignNumbered(TokenLabel, Items(text, spans));
    forall v | 0 <= v < |st.vault| ensures st.findings[v].tokenRef == st.vault[v].token { assert NumberOf(st.findings, v) >= 1; }
    forall v, w | 0 <= v < w < |st.vault| ensures st.vault[v].token != st.vault[w].token {
      TokensDistinct(TokenLabel, st.vault, st.findings, v, w);
    }
  }

  lemma {:induction false} TypeOfToken(findings: seq<Finding>, v: nat)
    requires v < |findings| && forall w :: v < w < |findings| ==> findings[w].tokenRef != findings[v].tokenRef
    ensures TypeByToken(findings, findings[v].tokenRef) == findings[v].entityType
  {
    if v < |findings| - 1 { TypeOfToken(findings[..|findings| - 1], v); }
  }

  lemma {:induction false} TagMember(hits: seq<R.Span>, t: EntityType, l: Layer, c: Candidate)
    ensures c in Tag(hits, t, l) <==> c.span in hits && c.entityType == t && c.detector == l
  {
    if c.span in hits && c.entityType == t && c.detector == l {
      var k :| 0 <= k < |hits| && hits[k] == c.span;
      assert Tag(hits, t, l)[k] == c;
    }
  }

  /** Holding of a prefix, one element further. */
  ghost predicate Builds<T>(holds: seq<T> -> bool, one: T -> bool, s: seq<T>, n: nat)
    requires n < |s|
  {
    holds(s[..n + 1]) <==> holds(s[..n]) || one(s[n])
  }

  /** What is built up element by element holds exactly when it does for one of them. */
  lemma {:induction false} AnyOf<T>(holds: seq<T> -> bool, one: T -> bool, s: seq<T>, n: nat)
    requires n <= |s| && !holds([]) && forall k {:trigger Builds(holds, one, s, k)} :: 0 <= k < |s| ==> Builds(holds, one, s, k)
    ensures holds(s[..n]) <==> exists k :: 0 <= k < n && one(s[k])
  {
    if n > 0 {
      AnyOf(holds, one, s, n - 1);
      assert Builds(holds, one, s, n - 1);
    } else {
      assert s[..n] == [];
    }
  }

  lemma {:induction false} VaultStep(text: string, vault: seq<VaultEntry>, findings: seq<Finding>, c: Candidate)
    requires vault != []
    ensures c in VaultCandidates(text, vault, findings) <==>
      c in VaultCandidates(text, vault[..|vault| - 1], findings) || Tagged(text, findings, c, vault[|vault| - 1])
  {
    var e := vault[|vault| - 1];
    TagMember(M.VaultOccurrences(text, e.plaintext), TypeByToken(findings, e.token), Regex, c);
  }

  lemma {:induction false} VaultMember(text: string, vault: seq<VaultEntry>, findings: seq<Finding>, c: Candidate)
    ensures c in VaultCandidates(text, vault, findings) <==> exists v :: 0 <= v < |vault| && Tagged(text, findings, c, vault[v])
  {
    var holds: seq<VaultEntry> -> bool := s => c in VaultCandidates(text, s, findings);
    var one: VaultEntry -> bool := e => Tagged(text, findings, c, e);
    forall n | 0 <= n < |vault| ensures Builds(holds, one, vault, n) {
      VaultStep(text, vault[..n + 1], findings, c);
      assert vault[..n + 1][..n] == vault[..n];
    }
    AnyOf(holds, one, vault, |vault|);
    assert vault[..|vault|] == vault;
  }

  predicate Tagged(text: string, findings: seq<Finding>, c: Candidate, e: VaultEntry) {
    c.span in M.VaultOccurrences(text, e.plaintext) && c.entityType == TypeByToken(findings, e.token) && c.detector == Regex
  }

  lemma {:induction false} VaultHits(text: string, t: Tokenized, c: Candidate)
    requires Aligned(t)
    ensures c in VaultCandidates(text, t.vault, t.findings) <==> c.detector == Regex && exists v :: VaultHit(text, t, c.span, c.entityType, v)
  {
    VaultMember(text, t.vault, t.findings, c);
    forall v | 0 <= v < |t.vault| ensures TypeByToken(t.findings, t.vault[v].token) == t.findings[v].entityType { TypeOfToken(t.findings, v); }
    if v :| 0 <= v < |t.vault| && Tagged(text, t.findings, c, t.vault[v]) { assert VaultHit(text, t, c.span, c.entityType, v); }
    if v :| c.detector == Regex && VaultHit(text, t, c.span, c.entityType, v) { assert Tagged(text, t.findings, c, t.vault[v]); }
  }

  lemma {:induction false} FoundIff(f: Finder, text: string, denyTerms: seq<string>, t: Tokenized, c: Candidate)
    requires Aligned(t)
    ensures c in Found(f, text, denyTerms, t) <==> HitOf(f, text, denyTerms, t, c.span, c.entityType, c.detector)
  {
    match f
    case DigitRuns => TagMember(M.LongDigitRuns(text), Number, Regex, c);
    case SpelledDigits => TagMember(M.SpelledDigitRuns(text), Phone, Regex, c);
    case Greetings => TagMember(M.GreetingNames(text), Name, Regex, c);
    case Emails => TagMember(M.EmailLike(text), Email, Regex, c);
    case AddressDigits => TagMember(M.AddressWindowDigits(text), Number, Regex, c);
    case DenyTerms => TagMember(M.DenyTermOccurrences(text, denyTerms), DenyList, DenyTerm, c);
    case VaultValues => VaultHits(text, t, c);
  }

  lemma {:induction false} CandidateMember(found: Finder -> seq<Candidate>, finders: seq<Finder>, c: Candidate)
    ensures c in CandidatesOf(found, finders) <==> exists f :: f in finders && c in found(f)
  {
    if finders != [] {
      var front, last := finders[..|finders| - 1], finders[|finders| - 1];
      CandidateMember(found, front, c);
      assert forall f :: f in finders <==> f in front || f == last;
    }
  }

  lemma {:induction false} CandidateIff(text: string, denyTerms: seq<string>, t: Tokenized, c: Candidate)
    requires Aligned(t)
    ensures c in Candidates(text, denyTerms, t) <==> exists f :: HitOf(f, text, denyTerms, t, c.span, c.entityType, c.detector)
  {
    var found := f => Found(f, text, denyTerms, t);
    CandidateMember(found, FINDERS, c);
    forall f: Finder ensures f in FINDERS && (c in found(f) <==> HitOf(f, text, denyTerms, t, c.span, c.entityType, c.detector)) {
      EveryFinderListed(f);
      FoundIff(f, text, denyTerms, t, c);
    }
  }

  // ---------- what an iteration adds ----------

  /** The hit's first and last character, in the original text. */
  ghost predicate MapsTo(e: Effective, h: R.Span, d: Detection) {
    h.start < h.end <= |e.at| && d.start == e.at[h.start] && d.end == e.at[h.end - 1] + 1 && d.confidence == Unscored
  }

  predicate AddedFor(e: Effective, d: Detection, c: Candidate) {
    && c.span.start < c.span.end <= |e.at| && d.start == e.at[c.span.start] && d.end == e.at[c.span.end - 1] + 1
    && d == Detection(d.start, d.end, c.entityType, c.detector, Unscored)
  }

  lemma {:induction false} AdditionIs(text: string, spans: seq<Detection>, e: Effective, c: Candidate, d: Detection)
    requires Maps(text, spans, 0, e) && M.Solid(e.text, c.span) && |e.at| == |e.text| && forall s :: s in spans ==> s.start < s.end
    ensures d in AdditionOf(e, spans, c) <==> AddedFor(e, d, c)
  {
    SolidHitMapsBack(text, spans, e, c.span);
    var o := ToOriginal(e, c.span).value;
    UncoveredStart(spans, o.start, o.end);
    assert AdditionOf(e, spans, c) == [Detection(o.start, o.end, c.entityType, c.detector, Unscored)];
  }

  lemma {:induction false} AdditionStep(text: string, spans: seq<Detection>, e: Effective, cs: seq<Candidate>, d: Detection)
    requires Maps(text, spans, 0, e) && SolidCandidates(e.text, cs) && |e.at| == |e.text| && cs != [] && forall s :: s in spans ==> s.start < s.end
    ensures d in Additions(e, spans, cs) <==> d in Additions(e, spans, cs[..|cs| - 1]) || AddedFor(e, d, cs[|cs| - 1])
  {
    AdditionIs(text, spans, e, cs[|cs| - 1], d);
  }

  lemma {:induction false} AdditionMember(text: string, spans: seq<Detection>, e: Effective, cs: seq<Candidate>, d: Detection)
    requires Maps(text, spans, 0, e) && SolidCandidates(e.text, cs) && |e.at| == |e.text| && forall s :: s in spans ==> s.start < s.end
    ensures d in Additions(e, spans, cs) <==> exists k :: 0 <= k < |cs| && AddedFor(e, d, cs[k])
  {
    var holds: seq<Candidate> -> bool := p => p <= cs && d in Additions(e, spans, p);
    var one: Candidate -> bool := c => AddedFor(e, d, c);
    forall n | 0 <= n < |cs| ensures Builds(holds, one, cs, n) {
      AdditionStep(text, spans, e, cs[..n + 1], d);
      assert cs[..n + 1][..n] == cs[..n];
    }
    AnyOf(holds, one, cs, |cs|);
    assert cs[..|cs|] == cs;
  }

  /** A hit of finder f is what d was added for. */
  ghost predicate AddedBy(f: Finder, text: string, spans: seq<Detection>, denyTerms: seq<string>, d: Detection, h: R.Span)
    requires Canonical(text, spans)
  {
    var e := EffectiveFrom(text, spans, 0);
    HitOf(f, e.text, denyTerms, TokenizeOrdered(text, spans), h, d.entityType, d.detector) && MapsTo(e, h, d)
  }

  /** Which hits the candidates are, seen from below only through this. */
  type Hits = (Finder, R.Span, EntityType, Layer) -> bool

  lemma {:induction false} AddedForHit(hit: Hits, e: Effective, cs: seq<Candidate>, d: Detection)
    requires forall c :: c in cs <==> exists f :: hit(f, c.span, c.entityType, c.detector)
    ensures (exists k :: 0 <= k < |cs| && AddedFor(e, d, cs[k])) <==> exists f, h :: hit(f, h, d.entityType, d.detector) && MapsTo(e, h, d)
  {
    if k :| 0 <= k < |cs| && AddedFor(e, d, cs[k]) {
      var f :| hit(f, cs[k].span, cs[k].entityType, cs[k].detector);
      assert MapsTo(e, cs[k].span, d);
    }
    if f, h :| hit(f, h, d.entityType, d.detector) && MapsTo(e, h, d) {
      var c := Candidate(h, d.entityType, d.detector);
      assert hit(f, c.span, c.entityType, c.detector);
      var k :| 0 <= k < |cs| && cs[k] == c;
      assert AddedFor(e, d, cs[k]);
    }
  }

  lemma {:induction false} CandidatesAdd(text: string, spans: seq<Detection>, denyTerms: seq<string>, d: Detection, e: Effective, t: Tokenized, hit: Hits)
    requires Maps(text, spans, 0, e) && |e.at| == |e.text| && Aligned(t) && forall s :: s in spans ==> s.start < s.end
    requires forall f, h, y, l {:trigger HitOf(f, e.text, denyTerms, t, h, y, l)} :: hit(f, h, y, l) <==> HitOf(f, e.text, denyTerms, t, h, y, l)
    requires SolidCandidates(e.text, Candidates(e.text, denyTerms, t))
    ensures d in Additions(e, spans, Candidates(e.text, denyTerms, t)) <==> exists f, h :: hit(f, h, d.entityType, d.detector) && MapsTo(e, h, d)
  {
    var cs := Candidates(e.text, denyTerms, t);
    AdditionMember(text, spans, e, cs, d);
    forall c ensures c in cs <==> exists f :: hit(f, c.span, c.entityType, c.detector) { CandidateHit(e.text, denyTerms, t, c, hit); }
    AddedForHit(hit, e, cs, d);
  }

  lemma {:induction false} CandidateHit(text: string, denyTerms: seq<string>, t: Tokenized, c: Candidate, hit: Hits)
    requires Aligned(t)
    requires forall f, h, y, l {:trigger HitOf(f, text, denyTerms, t, h, y, l)} :: hit(f, h, y, l) <==> HitOf(f, text, denyTerms, t, h, y, l)
    ensures c in Candidates(text, denyTerms, t) <==> exists f :: hit(f, c.span, c.entityType, c.detector)
  {
    CandidateIff(text, denyTerms, t, c);
    forall f ensures hit(f, c.span, c.entityType, c.detector) <==> HitOf(f, text, denyTerms, t, c.span, c.entityType, c.detector) {}
  }

  /** For every hit of every finder there is an addition at its mapped-back offsets with the finder's type and layer, and
      every addition is one of these. */
  lemma {:induction false} AdditionsIff(text: string, spans: seq<Detection>, denyTerms: seq<string>, d: Detection)
    requires Canonical(text, spans)
    ensures d in StepAdditions(text, spans, denyTerms) <==> exists f, h :: AddedBy(f, text, spans, denyTerms, d, h)
  {
    var e, t := EffectiveFrom(text, spans, 0), TokenizeOrdered(text, spans);
    EffectiveMaps(text, spans, 0);
    CandidatesSolid(e.text, denyTerms, t);
    TokenizedIsAligned(text, spans);
    var hit: Hits := (f, h, y, l) => HitOf(f, e.text, denyTerms, t, h, y, l);
    CandidatesAdd(text, spans, denyTerms, d, e, t, hit);
    forall f, h ensures AddedBy(f, text, spans, denyTerms, d, h) <==> hit(f, h, d.entityType, d.detector) && MapsTo(e, h, d) {}
  }

  // ---------- what a pass and the whole loop do with the additions ----------

  /** A pass covers exactly what was covered and what its additions cover; each span of it has the type, layer and
      confidence of the inputs inside it; and it reports disagreement exactly when two inputs of different types share a
      character. */
  lemma {:induction false} PassCorrect(text: string, spans: seq<Detection>, denyTerms: seq<string>)
    requires Canonical(text, spans)
    ensures var m, inputs := RepairPass(text, denyTerms, spans).merged, spans + StepAdditions(text, spans, denyTerms);
      && Canonical(text, m.spans) && (forall i :: Covered(m.spans, i) <==> Covered(inputs, i))
      && AllSummarize(m.spans, inputs) && (m.disagreement <==> Conflict(inputs))
  {
    MergeCorrect(spans + StepAdditions(text, spans, denyTerms), |text|);
  }

  /** Each span set comes from the one before by a pass that added something. */
  ghost predicate Chained(pass: Pass, chain: seq<seq<Detection>>) {
    |chain| == 1 || (|chain| > 1 && pass(chain[0]).additions != [] && chain[1] == pass(chain[0]).merged.spans && Chained(pass, chain[1..]))
  }

  /** One of the passes had a conflict. */
  ghost predicate Disagrees(pass: Pass, chain: seq<seq<Detection>>) {
    |chain| > 1 && (pass(chain[0]).merged.disagreement || Disagrees(pass, chain[1..]))
  }

  lemma {:induction false} ChainCons(pass: Pass, spans: seq<Detection>, chain: seq<seq<Detection>>)
    requires Chained(pass, chain) && pass(spans).additions != [] && chain[0] == pass(spans).merged.spans
    ensures Chained(pass, [spans] + chain)
    ensures Disagrees(pass, [spans] + chain) <==> pass(spans).merged.disagreement || Disagrees(pass, chain)
  {
    assert ([spans] + chain)[1..] == chain;
  }

  lemma {:induction false} LoopChain(pass: Pass, spans: seq<Detection>, disagreement: bool, iteration: nat, maxIterations: nat)
    returns (chain: seq<seq<Detection>>)
    requires iteration <= maxIterations + 1
    ensures Chained(pass, chain) && chain[0] == spans
    ensures var r := Loop(pass, spans, disagreement, iteration, maxIterations);
      && r.spans == chain[|chain| - 1] && (r.disagreement <==> disagreement || Disagrees(pass, chain))
      && |chain| <= maxIterations + 2 - iteration && (r.stopped <==> |chain| <= maxIterations + 1 - iteration)
      && (r.stopped ==> pass(r.spans).additions == [] && r.iterations == iteration + |chain| - 1) && (!r.stopped ==> r.iterations == maxIterations)
    decreases maxIterations + 1 - iteration
  {
    if iteration > maxIterations || pass(spans).additions == [] {
      chain := [spans];
    } else {
      var m := pass(spans).merged;
      var rest := LoopChain(pass, m.spans, disagreement || m.disagreement, iteration + 1, maxIterations);
      ChainCons(pass, spans, rest);
      chain := [spans] + rest;
    }
  }

  /** The loop's result: the last of a chain of passes that each added something, stopped by the first that adds nothing
      or by the cap; disagreement exactly when one of them had a conflict; convergence exactly when it stopped by itself
      and no vaulted value can be read back; and the number of passes made. */
  lemma {:induction false} RepairHistory(text: string, spans: seq<Detection>, denyTerms: seq<string>, maxIterations: nat)
    returns (chain: seq<seq<Detection>>)
    requires Canonical(text, spans)
    ensures Chained(PassOf(text, denyTerms), chain) && chain[0] == spans
    ensures var r := RepairSpans(text, spans, denyTerms, maxIterations);
      && r.spans == chain[|chain| - 1] && (r.disagreement <==> Disagrees(PassOf(text, denyTerms), chain)) && |chain| <= maxIterations + 1
      && (r.converged <==> |chain| <= maxIterations && NoneReadable(TokenizeOrdered(text, r.spans)))
      && (|chain| <= maxIterations ==> StepAdditions(text, r.spans, denyTerms) == []) && r.iterations == if |chain| <= maxIterations then |chain| else maxIterations
  {
    chain := LoopChain(PassOf(text, denyTerms), spans, false, 1, maxIterations);
    LoopCanonical(text, denyTerms, spans, maxIterations);
    VaultCleanIff(TokenizeOrdered(text, chain[|chain| - 1]));
  }

  /** No vaulted value can be read out of the text without its tokens. */
  ghost predicate NoneReadable(t: Tokenized) {
    forall k :: 0 <= k < |t.vault| ==> !RS.Reintroduced(t.vault[k].plaintext, TextRuns.Alnum(Strip(t.redactedText)), TextRuns.WordTokens(Strip(t.redactedText)))
  }

  lemma {:induction false} VaultCleanIff(t: Tokenized)
    ensures VaultClean(t) <==> NoneReadable(t)
  {
    if NoneReadable(t) {
      forall e | e in t.vault ensures !RS.VaultValueLeaks(e.plaintext, t.redactedText) { var k :| 0 <= k < |t.vault| && t.vault[k] == e; }
    } else {
      var k :| 0 <= k < |t.vault| && RS.Reintroduced(t.vault[k].plaintext, TextRuns.Alnum(Strip(t.redactedText)), TextRuns.WordTokens(Strip(t.redactedText)));
      assert t.vault[k] in t.vault;
    }
  }

  /** The composition: the merged detections, then a chain of at most ten passes that each added something, ended before
      that only by one that adds nothing; disagreement exactly when the detections or one of the passes had a conflict;
      the tokenization and the scan are those of the last span set. */
  lemma {:induction false} ComposeHistory(text: string, detections: seq<Detection>, denyTerms: seq<string>) returns (chain: seq<seq<Detection>>)
    requires InRange(detections, |text|)
    ensures Chained(PassOf(text, denyTerms), chain) && chain[0] == Merge(detections).spans && |chain| <= 11
    ensures var c := Compose(text, detections, denyTerms);
      && c.spans == chain[|chain| - 1] && Canonical(text, c.spans) && (|chain| <= 10 ==> StepAdditions(text, c.spans, denyTerms) == [])
      && (c.disagreement <==> Conflict(detections) || Disagrees(PassOf(text, denyTerms), chain))
      && c.tokenized == TokenizeOrdered(text, c.spans) && c.residual == ScanOf(c.tokenized, denyTerms)
  {
    MergeCorrect(detections, |text|);
    chain := RepairHistory(text, Merge(detections).spans, denyTerms, REPAIR_MAX_ITERATIONS);
  }

  // ---------- a repeated value gets its token back ----------

  /** The span at f carries the v-th vaulted token: its type is that finding's, and its text normalizes like the vaulted
      one. */
  lemma {:induction false} TokenMeans(text: string, spans: seq<Detection>, v: nat, f: nat)
    requires Canonical(text, spans) && f < |spans| && v < |TokenizeOrdered(text, spans).vault|
    requires Assign(TokenLabel, Items(text, spans)).tokenFor[f] == TokenizeOrdered(text, spans).vault[v].token
    ensures var t := TokenizeOrdered(text, spans);
      && v < |t.findings| && spans[f].entityType == t.findings[v].entityType
      && TextRuns.Alnum(Surface(text, spans[f])) == TextRuns.Alnum(t.vault[v].plaintext)
  {
    TokenizationCorrect(text, spans);
    var st, items := Assign(TokenLabel, Items(text, spans)), Items(text, spans);
    assert FirstSeen(st, items, v);
    var k :| 0 <= k < |items| && st.tokenFor[k] == st.vault[v].token && items[k].surface == st.vault[v].plaintext
      && st.findings[v].entityType == items[k].entityType && st.findings[v].normalizedValue == TextRuns.Alnum(items[k].surface);
  }

  /** A vaulted value found again is added with that value's type; whenever its text normalizes like the vaulted one, it
      gets the same token as the spans of the value in every span set that holds both. */
  lemma {:induction false} RepeatSharesToken(text: string, spans: seq<Detection>, denyTerms: seq<string>, v: nat, h: R.Span, d: Detection, f: nat,
                                             spans': seq<Detection>, j: nat, k: nat)
    requires Canonical(text, spans) && f < |spans| && v < |TokenizeOrdered(text, spans).vault| == |TokenizeOrdered(text, spans).findings|
    requires Assign(TokenLabel, Items(text, spans)).tokenFor[f] == TokenizeOrdered(text, spans).vault[v].token
    requires h in M.VaultOccurrences(EffectiveFrom(text, spans, 0).text, TokenizeOrdered(text, spans).vault[v].plaintext)
    requires MapsTo(EffectiveFrom(text, spans, 0), h, d) && d.detector == Regex && d.entityType == TokenizeOrdered(text, spans).findings[v].entityType
    requires d.end <= |text| && d.start <= d.end && TextRuns.Alnum(Surface(text, d)) == TextRuns.Alnum(TokenizeOrdered(text, spans).vault[v].plaintext)
    requires InRange(spans', |text|) && j < |spans'| && k < |spans'| && spans'[j] == spans[f] && spans'[k] == d
    ensures d in StepAdditions(text, spans, denyTerms)
    ensures var tokens := Assign(TokenLabel, Items(text, spans')).tokenFor; |tokens| == |spans'| && tokens[j] == tokens[k]
  {
    assert VaultHit(EffectiveFrom(text, spans, 0).text, TokenizeOrdered(text, spans), h, d.entityType, v);
    assert AddedBy(VaultValues, text, spans, denyTerms, d, h);
    AdditionsIff(text, spans, denyTerms, d);
    TokenMeans(text, spans, v, f);
    TokenizationCorrect(text, spans');
  }

  /** The hit lies inside one gap: no span is cut out of it. */
  ghost predicate Uncut(e: Effective, h: R.Span, d: Detection) {
    MapsTo(e, h, d) && d.end - d.start == h.end - h.start && forall k :: h.start <= k < h.end ==> e.at[k] != -1
  }

  lemma {:induction false} Steps(text: string, spans: seq<Detection>, e: Effective, i: nat, j: nat)
    requires Maps(text, spans, 0, e) && i <= j < |e.at| && forall k :: i <= k <= j ==> e.at[k] != -1
    ensures e.at[j] - e.at[i] >= j - i
    decreases j - i
  {
    if i < j {
      Steps(text, spans, e, i, j - 1);
      assert e.at[j - 1] < e.at[j];
    }
  }

  /** Then what it says is what the text says there. */
  lemma {:induction false} UncutText(text: string, spans: seq<Detection>, e: Effective, h: R.Span, d: Detection)
    requires Maps(text, spans, 0, e) && Uncut(e, h, d)
    ensures d.start < d.end <= |text| && Surface(text, d) == e.text[h.start..h.end]
  {
    forall k | h.start <= k < h.end ensures e.at[k] == d.start + k - h.start {
      Steps(text, spans, e, h.start, k);
      Steps(text, spans, e, k, h.end - 1);
    }
    var a, b := Surface(text, d), e.text[h.start..h.end];
    forall k | 0 <= k < |a| ensures a[k] == b[k] { assert e.at[h.start + k] == d.start + k; }
  }

  /** So a vaulted value of at least eight kept characters that is found again in one piece always normalizes like the
      vaulted one. */
  lemma {:induction false} UncutRepeatNormalizes(text: string, spans: seq<Detection>, plaintext: string, h: R.Span, d: Detection)
    requires Canonical(text, spans) && |TextRuns.Alnum(plaintext)| >= 8
    requires h in M.VaultOccurrences(EffectiveFrom(text, spans, 0).text, plaintext) && Uncut(EffectiveFrom(text, spans, 0), h, d)
    ensures d.start < d.end <= |text| && TextRuns.Alnum(Surface(text, d)) == TextRuns.Alnum(plaintext)
  {
    var e := EffectiveFrom(text, spans, 0);
    EffectiveMaps(text, spans, 0);
    UncutText(text, spans, e, h, d);
    FinderHits.VaultHitsAre(e.text, plaintext);
    FinderHits.MarkedText(e.text, TextRuns.Alnum(plaintext), h);
  }
}
