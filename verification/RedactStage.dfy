/** The redact stage's writes: vault, then findings, then the clean row, then the decision. */
module RedactStage {
  import opened Wrappers
  import opened RedactionTypes
  import opened Tokenize
  import opened Repair
  import RS = ResidualScan
  import Spans
  import TextRuns
  import opened Restoration
  import opened EffectiveText

  // ---------- risk ----------

  datatype Reason =
    | NerLowConfidence | DetectorDisagreement | DenyListHit | HighEntityDensity | NerOffsetAlignmentFailed
    | TranscriptChunkingTruncated | AddressLikeAmbiguous | ShortTranscript | ResidualScanHit

  const REASONS := [NerLowConfidence, DetectorDisagreement, DenyListHit, HighEntityDensity, NerOffsetAlignmentFailed,
                    TranscriptChunkingTruncated, AddressLikeAmbiguous, ShortTranscript, ResidualScanHit]

  function Weight(r: Reason): real {
    match r
    case NerLowConfidence => 0.15
    case DetectorDisagreement => 0.1
    case DenyListHit => 0.1
    case HighEntityDensity => 0.1
    case NerOffsetAlignmentFailed => 1.0
    case TranscriptChunkingTruncated => 0.3
    case AddressLikeAmbiguous => 0.2
    case ShortTranscript => 0.1
    case ResidualScanHit => 1.0
  }

  predicate ForcesHold(r: Reason) { r == NerOffsetAlignmentFailed || r == ResidualScanHit }

  predicate SafeAfterRedaction(r: Reason) { r == DetectorDisagreement || r == DenyListHit || r == HighEntityDensity }

  function WeightOf(reasons: set<Reason>, order: seq<Reason>): real {
    if order == [] then 0.0 else (if order[0] in reasons then Weight(order[0]) else 0.0) + WeightOf(reasons, order[1..])
  }

  function RiskScore(reasons: set<Reason>): real {
    var sum := WeightOf(reasons, REASONS);
    if sum < 1.0 then sum else 1.0
  }

  predicate HoldsForRisk(reasons: set<Reason>, threshold: real) {
    (exists r :: r in reasons && ForcesHold(r)) || RiskScore(reasons) >= threshold
  }

  /** Another reason never lifts a hold. */
  lemma {:induction false} MoreReasonsHold(reasons: set<Reason>, r: Reason, threshold: real)
    ensures HoldsForRisk(reasons, threshold) ==> HoldsForRisk(reasons + {r}, threshold)
  {
    WeightGrows(reasons, r, REASONS);
  }

  lemma {:induction false} WeightGrows(reasons: set<Reason>, r: Reason, order: seq<Reason>)
    ensures WeightOf(reasons, order) <= WeightOf(reasons + {r}, order)
  {
    if order != [] { WeightGrows(reasons, r, order[1..]); }
  }

  predicate OutputSafe(reasons: set<Reason>) { forall r :: r in reasons ==> SafeAfterRedaction(r) }

  /** The weights of a set of reasons, added in any order. */
  ghost function Total(reasons: set<Reason>): real {
    if reasons == {} then 0.0 else var r :| r in reasons; Weight(r) + Total(reasons - {r})
  }

  lemma {:induction false} WeightOfLess(reasons: set<Reason>, r: Reason, order: seq<Reason>)
    requires r in reasons && forall i, j :: 0 <= i < j < |order| ==> order[i] != order[j]
    ensures WeightOf(reasons, order) == WeightOf(reasons - {r}, order) + if r in order then Weight(r) else 0.0
  {
    if order != [] { WeightOfLess(reasons, r, order[1..]); }
  }

  lemma {:induction false} ReasonListed(r: Reason)
    ensures r in REASONS
  {
    match r
    case NerLowConfidence => assert REASONS[0] == r;
    case DetectorDisagreement => assert REASONS[1] == r;
    case DenyListHit => assert REASONS[2] == r;
    case HighEntityDensity => assert REASONS[3] == r;
    case NerOffsetAlignmentFailed => assert REASONS[4] == r;
    case TranscriptChunkingTruncated => assert REASONS[5] == r;
    case AddressLikeAmbiguous => assert REASONS[6] == r;
    case ShortTranscript => assert REASONS[7] == r;
    case ResidualScanHit => assert REASONS[8] == r;
  }

  lemma {:induction false} NoWeight(order: seq<Reason>)
    ensures WeightOf({}, order) == 0.0
  {
    if order != [] { NoWeight(order[1..]); }
  }

  lemma {:induction false} TotalIsWeight(reasons: set<Reason>)
    ensures WeightOf(reasons, REASONS) == Total(reasons)
  {
    if reasons == {} {
      NoWeight(REASONS);
    } else {
      var r :| r in reasons && Total(reasons) == Weight(r) + Total(reasons - {r});
      ReasonListed(r);
      WeightOfLess(reasons, r, REASONS);
      TotalIsWeight(reasons - {r});
    }
  }

  /** The call is held exactly when a reason that forces it is present, or the capped sum of the distinct reasons'
      weights reaches the threshold. */
  lemma {:induction false} HoldsIff(reasons: set<Reason>, threshold: real)
    ensures HoldsForRisk(reasons, threshold) <==>
      NerOffsetAlignmentFailed in reasons || ResidualScanHit in reasons || (Total(reasons) >= threshold && 1.0 >= threshold)
    ensures threshold > 0.0 ==> !HoldsForRisk({}, threshold)
  {
    TotalIsWeight(reasons);
    NoWeight(REASONS);
    assert forall r :: ForcesHold(r) <==> r in {NerOffsetAlignmentFailed, ResidualScanHit};
  }

  /** Reasons that leave the output safe do not hold a call by themselves, unless the threshold is 0.3 or less. */
  lemma {:induction false} SafeReasonsPass(reasons: set<Reason>, threshold: real)
    requires OutputSafe(reasons) && threshold > 0.3
    ensures !HoldsForRisk(reasons, threshold)
  {
    assert reasons <= SAFE;
    WeightMonotone(reasons, SAFE, REASONS);
    SafeWeight();
  }

  const SAFE := {DetectorDisagreement, DenyListHit, HighEntityDensity}

  lemma {:induction false} SafeWeight()
    ensures WeightOf(SAFE, REASONS) == 0.3
  {
    var two, one := SAFE - {DetectorDisagreement}, {HighEntityDensity};
    ReasonListed(DetectorDisagreement);
    ReasonListed(DenyListHit);
    ReasonListed(HighEntityDensity);
    WeightOfLess(SAFE, DetectorDisagreement, REASONS);
    WeightOfLess(two, DenyListHit, REASONS);
    WeightOfLess(one, HighEntityDensity, REASONS);
    assert two - {DenyListHit} == one && one - {HighEntityDensity} == {};
    NoWeight(REASONS);
  }

  lemma {:induction false} WeightMonotone(a: set<Reason>, b: set<Reason>, order: seq<Reason>)
    requires a <= b
    ensures WeightOf(a, order) <= WeightOf(b, order)
  {
    if order != [] { WeightMonotone(a, b, order[1..]); }
  }

  // ---------- the signals the spans and the text give by themselves ----------

  const SHORT_TRANSCRIPT_CHARS := 80
  const DENSITY_PER_1000_CHARS := 15
  const MIN_SPANS_FOR_DENSITY := 5

  predicate Raised(r: Reason, text: string, spans: seq<Detection>, disagreement: bool) {
    match r
    case ShortTranscript => |text| < SHORT_TRANSCRIPT_CHARS
    case DetectorDisagreement => disagreement
    case DenyListHit => exists k :: 0 <= k < |spans| && spans[k].entityType == DenyList
    case HighEntityDensity =>
      |spans| >= MIN_SPANS_FOR_DENSITY && 1000 * |spans| > DENSITY_PER_1000_CHARS * (if |text| == 0 then 1 else |text|)
    case _ => false
  }

  method DeriveSpanSignals(text: string, spans: seq<Detection>, disagreement: bool) returns (reasons: set<Reason>)
    ensures forall r :: r in reasons <==> Raised(r, text, spans, disagreement)
  {
    reasons := {};
    if |text| < SHORT_TRANSCRIPT_CHARS { reasons := reasons + {ShortTranscript}; }
    if disagreement { reasons := reasons + {DetectorDisagreement}; }
    if exists k :: 0 <= k < |spans| && spans[k].entityType == DenyList { reasons := reasons + {DenyListHit}; }
    var density := |spans| as real / (if |text| == 0 then 1.0 else |text| as real) * 1000.0;
    DensityIs(|spans|, if |text| == 0 then 1 else |text|, density);
    if |spans| >= MIN_SPANS_FOR_DENSITY && density > DENSITY_PER_1000_CHARS as real { reasons := reasons + {HighEntityDensity}; }
  }

  lemma {:induction false} DensityIs(spans: nat, length: nat, density: real)
    requires length > 0 && density == spans as real / length as real * 1000.0
    ensures density > DENSITY_PER_1000_CHARS as real <==> 1000 * spans > DENSITY_PER_1000_CHARS * length
  {
    var l := length as real;
    assert density * l == 1000.0 * spans as real;
    if density > 15.0 { assert density * l > 15.0 * l; }
    if density <= 15.0 { assert density * l <= 15.0 * l; }
  }

  /** The reasons a run scores: the detectors', the spans' own, and the residual scan's. */
  ghost predicate Triggered(r: Reason, signals: set<Reason>, text: string, c: Composed) {
    r in signals || Raised(r, text, c.spans, c.disagreement) || (r == ResidualScanHit && c.residual.hits != [])
  }

  // ---------- tokens and the vault ----------

  function Tokens(vault: seq<VaultEntry>): set<string> { set e | e in vault :: e.token }

  /** Every token that occurs in the text, wherever it begins, is one of these. */
  ghost predicate OnlyTokens(s: string, keys: set<string>) {
    forall i {:trigger TokenPrefix(s[i..])} :: 0 <= i < |s| && TokenPrefix(s[i..]) > 0 ==> s[i..][..TokenPrefix(s[i..])] in keys
  }

  lemma {:induction false} ChunkHasNone(chunk: string, rest: string, i: nat)
    requires !HasToken(chunk) && (rest == "" || rest[0] == '[') && i < |chunk|
    ensures TokenPrefix((chunk + rest)[i..]) == 0
  {
    TextRuns.DropConcat(chunk, rest, i);
    TokenPrefixBounded(chunk[i..], rest);
  }

  lemma {:induction false} TokenHasOne(tok: string, rest: string, i: nat)
    requires IsToken(tok) && i < |tok|
    ensures var s := (tok + rest)[i..]; TokenPrefix(s) == if i == 0 then |tok| else 0
    ensures (tok + rest)[..|tok|] == tok
  {
    var s := (tok + rest)[i..];
    if i == 0 {
      assert s == tok + rest;
      TokenPrefixOfToken(tok, rest);
    } else {
      assert s[0] == tok[i];
      if i < |tok| - 1 { TokenInside(tok, i); }
    }
  }

  /** A gap and the token after it add that token and no other. */
  lemma {:induction false} GapThenToken(chunk: string, tok: string, rest: string, keys: set<string>)
    requires !HasToken(chunk) && IsToken(tok) && tok in keys && OnlyTokens(rest, keys)
    ensures OnlyTokens(chunk + tok + rest, keys)
  {
    var s := chunk + tok + rest;
    assert s == chunk + (tok + rest) && (tok + rest)[0] == '[';
    forall i | 0 <= i < |s| && TokenPrefix(s[i..]) > 0 ensures s[i..][..TokenPrefix(s[i..])] in keys {
      if i < |chunk| {
        ChunkHasNone(chunk, tok + rest, i);
      } else if i < |chunk| + |tok| {
        assert s[i..] == (tok + rest)[i - |chunk|..];
        TokenHasOne(tok, rest, i - |chunk|);
      } else {
        assert s[i..] == rest[i - |chunk| - |tok|..];
      }
    }
  }

  /** A redacted text holds only the tokens it was given, when the text between the spans holds none. */
  lemma {:induction false} OnlyGivenTokens(text: string, ds: seq<Detection>, tokens: seq<string>, pos: nat, keys: set<string>)
    requires InRange(ds, |text|) && Ordered(ds) && pos <= |text| && (ds != [] ==> pos <= ds[0].start)
    requires |tokens| == |ds| && GapsClean(text, ds, pos) && forall k :: 0 <= k < |tokens| ==> IsToken(tokens[k]) && tokens[k] in keys
    ensures OnlyTokens(Redacted(text, ds, tokens, pos), keys)
    decreases |ds|
  {
    if ds != [] {
      OnlyGivenTokens(text, ds[1..], tokens[1..], ds[0].end, keys);
      GapThenToken(text[pos..ds[0].start], tokens[0], Redacted(text, ds[1..], tokens[1..], ds[0].end), keys);
    }
  }

  lemma {:induction false} AssignedAreVaulted(name: Namer, items: seq<Item>)
    ensures var st := Assign(name, items);
            && (forall t :: t in st.tokenFor ==> t in Tokens(st.vault))
            && (forall f :: f in st.findings ==> f.tokenRef in Tokens(st.vault))
  {
    var st, t := Assign(name, items), TablesOf(items);
    AssignLinked(name, items);
    forall x | x in st.tokenFor ensures x in Tokens(st.vault) {
      var k :| 0 <= k < |st.tokenFor| && st.tokenFor[k] == x;
      assert st.vault[t.homes[k]] in st.vault;
    }
    AssignNumbered(name, items);
    forall f | f in st.findings ensures f.tokenRef in Tokens(st.vault) {
      var v :| 0 <= v < |st.findings| && st.findings[v] == f;
      var number := NumberOf(st.findings, v);
      assert f.tokenRef == name(f.entityType, number) == st.vault[v].token;
      assert st.vault[v] in st.vault;
    }
  }

  lemma {:induction false} TokenizedIsVaulted(text: string, spans: seq<Detection>)
    requires Canonical(text, spans)
    ensures var t := TokenizeOrdered(text, spans);
      && (GapsClean(text, spans, 0) ==> OnlyTokens(t.redactedText, Tokens(t.vault)))
      && (forall f :: f in t.findings ==> f.tokenRef in Tokens(t.vault))
  {
    var st := Assign(TokenLabel, Items(text, spans));
    AssignedAreVaulted(TokenLabel, Items(text, spans));
    AssignedAreTokens(Items(text, spans));
    if GapsClean(text, spans, 0) {
      forall k | 0 <= k < |st.tokenFor| ensures IsToken(st.tokenFor[k]) && st.tokenFor[k] in Tokens(st.vault) {
        assert st.tokenFor[k] in st.tokenFor;
      }
      OnlyGivenTokens(text, spans, st.tokenFor, 0, Tokens(st.vault));
    }
  }

  lemma {:induction false} ResidualIsScan(text: string, detections: seq<Detection>, denyTerms: seq<string>)
    requires InRange(detections, |text|)
    ensures var c := Compose(text, detections, denyTerms);
            c.residual == ScanOf(c.tokenized, denyTerms) && Canonical(text, c.spans) && c.tokenized == TokenizeOrdered(text, c.spans)
  {
    Spans.MergeCorrect(detections, |text|);
  }

  lemma {:induction false} NoHitIsClean(t: Tokenized, denyTerms: seq<string>)
    ensures ScanOf(t, denyTerms).hits == [] ==> RS.Clean(Strip(t.redactedText), Plaintexts(t.vault), denyTerms)
  {
    RS.NoHitsIffClean(t.redactedText, Plaintexts(t.vault), denyTerms);
  }

  /** The tokens of the text, and of the findings, are all in the vault entries; no hit means the text is clean. */
  ghost predicate Sound(text: string, c: Composed, denyTerms: seq<string>) {
    && (!HasToken(text) ==> OnlyTokens(c.tokenized.redactedText, Tokens(c.tokenized.vault)))
    && (forall f :: f in c.tokenized.findings ==> f.tokenRef in Tokens(c.tokenized.vault))
    && (c.residual.hits == [] ==> RS.Clean(Strip(c.tokenized.redactedText), Plaintexts(c.tokenized.vault), denyTerms))
  }

  /** What the shared composition gives the stage to persist. */
  lemma {:induction false} CompositionIsSound(text: string, detections: seq<Detection>, denyTerms: seq<string>)
    requires InRange(detections, |text|)
    ensures Sound(text, Compose(text, detections, denyTerms), denyTerms)
  {
    ResidualIsScan(text, detections, denyTerms);
    var c := Compose(text, detections, denyTerms);
    TokenizedIsVaulted(text, c.spans);
    if !HasToken(text) { NoTokenNoGap(text, c.spans, 0); }
    NoHitIsClean(c.tokenized, denyTerms);
  }

  // ---------- the vault after its rows are written ----------

  /** The vault with the entries put in, one after the other. */
  function Stored(vault: map<string, string>, entries: seq<VaultEntry>): map<string, string> {
    if entries == [] then vault
    else
      var n := |entries| - 1;
      Stored(vault, entries[..n])[entries[n].token := entries[n].plaintext]
  }

  lemma {:induction false} TokensAppend(entries: seq<VaultEntry>)
    requires entries != []
    ensures Tokens(entries) == Tokens(entries[..|entries| - 1]) + {entries[|entries| - 1].token}
  {
    assert entries == entries[..|entries| - 1] + [entries[|entries| - 1]];
  }

  lemma {:induction false} StoredKeys(vault: map<string, string>, entries: seq<VaultEntry>)
    ensures Stored(vault, entries).Keys == vault.Keys + Tokens(entries)
  {
    if entries != [] {
      TokensAppend(entries);
      StoredKeys(vault, entries[..|entries| - 1]);
    }
  }

  lemma {:induction false} StoredValues(vault: map<string, string>, entries: seq<VaultEntry>, t: string)
    requires t in Tokens(entries)
    ensures t in Stored(vault, entries) && t in VaultMap(entries) && Stored(vault, entries)[t] == VaultMap(entries)[t]
  {
    var n := |entries| - 1;
    if entries[n].token != t {
      TokensAppend(entries);
      StoredValues(vault, entries[..n], t);
    }
  }

  lemma {:induction false} OnlyTokensFrom(s: string, k: nat, keys: set<string>)
    requires OnlyTokens(s, keys) && k <= |s|
    ensures OnlyTokens(s[k..], keys)
  {
    forall i | 0 <= i < |s[k..]| && TokenPrefix(s[k..][i..]) > 0 ensures s[k..][i..][..TokenPrefix(s[k..][i..])] in keys {
      assert s[k..][i..] == s[k + i..];
    }
  }

  /** Restoring looks only at the tokens that occur. */
  lemma {:induction false} RestoreAgrees(s: string, a: map<string, string>, b: map<string, string>, keys: set<string>)
    requires OnlyTokens(s, keys) && forall t :: t in keys ==> t in a && t in b && a[t] == b[t]
    ensures Restore(s, a) == Restore(s, b)
    decreases |s|
  {
    if s != "" {
      var n := TokenPrefix(s);
      assert s[0..] == s;
      var k := if n > 0 then n else 1;
      OnlyTokensFrom(s, k, keys);
      RestoreAgrees(s[k..], a, b, keys);
    }
  }

  // ---------- a row that stays restorable while later vault rows are written ----------

  /** The vault still holds everything a row's own entries say. */
  ghost predicate Backed(own: map<string, string>, vault: map<string, string>) {
    forall t :: t in own ==> t in vault && vault[t] == own[t]
  }

  /** The entries give the tokens of `own` the plaintexts they have there. */
  ghost predicate AgreesWith(entries: seq<VaultEntry>, own: map<string, string>) {
    forall i :: 0 <= i < |entries| && entries[i].token in own ==> entries[i].plaintext == own[entries[i].token]
  }

  lemma {:induction false} AgreeingKeepsBacked(own: map<string, string>, vault: map<string, string>, entries: seq<VaultEntry>)
    requires Backed(own, vault) && AgreesWith(entries, own)
    ensures Backed(own, Stored(vault, entries))
  {
    if entries != [] { AgreeingKeepsBacked(own, vault, entries[..|entries| - 1]); }
  }

  /** Writing entries one by one leaves a row restorable at every point where the process may die exactly when the
      entries agree with the row's own on the tokens they share. */
  lemma {:induction false} BackedThroughoutIff(own: map<string, string>, vault: map<string, string>, entries: seq<VaultEntry>)
    requires Backed(own, vault)
    ensures (forall n {:trigger entries[..n]} :: 0 <= n <= |entries| ==> Backed(own, Stored(vault, entries[..n]))) <==> AgreesWith(entries, own)
  {
    if AgreesWith(entries, own) {
      forall n | 0 <= n <= |entries| ensures Backed(own, Stored(vault, entries[..n])) { AgreeingKeepsBacked(own, vault, entries[..n]); }
    } else {
      var i :| 0 <= i < |entries| && entries[i].token in own && entries[i].plaintext != own[entries[i].token];
      assert entries[..i + 1][..i] == entries[..i];
      assert !Backed(own, Stored(vault, entries[..i + 1]));
    }
  }

  lemma {:induction false} VaultMapKeys(entries: seq<VaultEntry>)
    ensures VaultMap(entries).Keys == Tokens(entries)
  {
    if entries != [] {
      TokensAppend(entries);
      VaultMapKeys(entries[..|entries| - 1]);
    }
  }

  /** Entries are backed once they are all stored. */
  lemma {:induction false} StoredIsBacked(vault: map<string, string>, entries: seq<VaultEntry>)
    ensures Backed(VaultMap(entries), Stored(vault, entries))
  {
    VaultMapKeys(entries);
    forall x | x in VaultMap(entries) ensures x in Stored(vault, entries) && Stored(vault, entries)[x] == VaultMap(entries)[x] {
      assert x in VaultMap(entries).Keys;
      StoredValues(vault, entries, x);
    }
  }

  /** Distinct tokens: a tokenization's entries agree with themselves. */
  lemma {:induction false} OwnEntriesAgree(text: string, spans: seq<Detection>)
    requires Canonical(text, spans)
    ensures var entries := TokenizeOrdered(text, spans).vault; AgreesWith(entries, VaultMap(entries))
  {
    var st := Assign(TokenLabel, Items(text, spans));
    LabelsInjective();
    AssignNumbered(TokenLabel, Items(text, spans));
    forall v | 0 <= v < |st.vault| ensures st.vault[v].token in VaultMap(st.vault) && VaultMap(st.vault)[st.vault[v].token] == st.vault[v].plaintext {
      forall w | v < w < |st.vault| ensures st.vault[w].token != st.vault[v].token { TokensDistinct(TokenLabel, st.vault, st.findings, v, w); }
      VaultMapHolds(st.vault, v);
    }
  }

  /** A re-run on the same transcript and detections writes entries that agree with those of the first run. */
  lemma {:induction false} RerunAgrees(text: string, detections: seq<Detection>, denyTerms: seq<string>)
    requires InRange(detections, |text|)
    ensures var entries := Compose(text, detections, denyTerms).tokenized.vault; AgreesWith(entries, VaultMap(entries))
  {
    ResidualIsScan(text, detections, denyTerms);
    OwnEntriesAgree(text, Compose(text, detections, denyTerms).spans);
  }

  /** A composition whose entries the vault still holds restores to its transcript's normal form. */
  lemma {:induction false} BackedRowRestores(text: string, detections: seq<Detection>, denyTerms: seq<string>, vault: map<string, string>)
    requires InRange(detections, |text|) && !HasToken(text)
    requires Backed(VaultMap(Compose(text, detections, denyTerms).tokenized.vault), vault)
    ensures TextRuns.Alnum(Restore(Compose(text, detections, denyTerms).tokenized.redactedText, vault)) == TextRuns.Alnum(text)
  {
    var c := Compose(text, detections, denyTerms);
    CompositionIsSound(text, detections, denyTerms);
    ResidualIsScan(text, detections, denyTerms);
    VaultMapKeys(c.tokenized.vault);
    RestoreAgrees(c.tokenized.redactedText, vault, VaultMap(c.tokenized.vault), VaultMap(c.tokenized.vault).Keys);
    VaultRestoresText(text, c.spans);
  }

  /** In particular the vault does right after the entries are stored, whatever older entries it holds. */
  lemma {:induction false} StoredRowRestores(text: string, detections: seq<Detection>, denyTerms: seq<string>, vault: map<string, string>)
    requires InRange(detections, |text|) && !HasToken(text)
    ensures var t := Compose(text, detections, denyTerms).tokenized;
            TextRuns.Alnum(Restore(t.redactedText, Stored(vault, t.vault))) == TextRuns.Alnum(text)
  {
    var entries := Compose(text, detections, denyTerms).tokenized.vault;
    StoredIsBacked(vault, entries);
    BackedRowRestores(text, detections, denyTerms, Stored(vault, entries));
  }

  // ---------- the stage ----------

  datatype CleanRow = NoRow | Readable(text: string) | SoftDeleted

  /** What the handler works from: the transcript if there is one, its detections, and the detectors' own signals. */
  datatype Input = NoTranscript | Transcript(text: string, detections: seq<Detection>, signals: set<Reason>)

  predicate Usable(i: Input) { i.Transcript? ==> InRange(i.detections, |i.text|) }

  datatype Outcome = Died | HoldMissing | HoldResidual | HoldRisk | Continue

  ghost predicate AllFrom(inputs: seq<Input>, text: string, detections: seq<Detection>) {
    forall i :: i in inputs && i.Transcript? ==> i.text == text && i.detections == detections
  }

  /** The composition, as the stage sees it; it is defined on detections that lie inside the text. */
  type Composer = (string, seq<Detection>) -> Option<Composed>

  function ComposerOf(denyTerms: seq<string>): Composer {
    (text: string, detections: seq<Detection>) => if InRange(detections, |text|) then Some(Compose(text, detections, denyTerms)) else None
  }

  /** The row is what composing its transcript gives, without a residual hit, and its tokens are vaulted. */
  ghost predicate CleanRowOk(compose: Composer, text: string, detections: seq<Detection>, row: string, vaulted: set<string>) {
    && compose(text, detections).Some?
    && compose(text, detections).value.residual.hits == [] && row == compose(text, detections).value.tokenized.redactedText
    && Tokens(compose(text, detections).value.tokenized.vault) <= vaulted && (!HasToken(text) ==> OnlyTokens(row, vaulted))
  }

  /** Such a row is clean to every sub-scan, the vaulted values included. */
  lemma {:induction false} CleanRowIsClean(text: string, detections: seq<Detection>, row: string, vaulted: set<string>, denyTerms: seq<string>)
    requires CleanRowOk(ComposerOf(denyTerms), text, detections, row, vaulted)
    ensures InRange(detections, |text|)
    ensures RS.Clean(Strip(row), Plaintexts(Compose(text, detections, denyTerms).tokenized.vault), denyTerms)
  {
    CompositionIsSound(text, detections, denyTerms);
  }

  lemma {:induction false} CleanRowKept(compose: Composer, text: string, detections: seq<Detection>, row: string, a: set<string>, b: set<string>)
    requires CleanRowOk(compose, text, detections, row, a) && a <= b
    ensures CleanRowOk(compose, text, detections, row, b)
  {}

  lemma {:induction false} NewCleanRow(compose: Composer, text: string, detections: seq<Detection>, vaulted: set<string>, denyTerms: seq<string>)
    requires compose(text, detections).Some? && Sound(text, compose(text, detections).value, denyTerms) && compose(text, detections).value.residual.hits == []
    requires Tokens(compose(text, detections).value.tokenized.vault) <= vaulted
    ensures CleanRowOk(compose, text, detections, compose(text, detections).value.tokenized.redactedText, vaulted)
  {}

  /** The entries of the composition a row came from. */
  ghost function EntriesOf(compose: Composer, text: string, detections: seq<Detection>): seq<VaultEntry> {
    if compose(text, detections).Some? then compose(text, detections).value.tokenized.vault else []
  }

  ghost predicate RowBacked(compose: Composer, text: string, detections: seq<Detection>, vault: map<string, string>) {
    Backed(VaultMap(EntriesOf(compose, text, detections)), vault)
  }

  ghost predicate RowAgrees(compose: Composer, text: string, detections: seq<Detection>, entries: seq<VaultEntry>) {
    AgreesWith(entries, VaultMap(EntriesOf(compose, text, detections)))
  }

  lemma {:induction false} RowStaysBacked(compose: Composer, text: string, detections: seq<Detection>, vault: map<string, string>, entries: seq<VaultEntry>, n: nat)
    requires RowBacked(compose, text, detections, vault) && RowAgrees(compose, text, detections, entries) && n <= |entries|
    ensures RowBacked(compose, text, detections, Stored(vault, entries[..n]))
  {
    AgreeingKeepsBacked(VaultMap(EntriesOf(compose, text, detections)), vault, entries[..n]);
  }

  class Store {
    var vault: map<string, string>
    var findings: seq<string>
    var clean: CleanRow
    /** The transcript and detections the readable clean row came from. */
    ghost var srcText: string
    ghost var srcDetections: seq<Detection>

    /** At any moment: findings refer only to vaulted tokens, and a readable clean row is the output of the composition
        of its transcript, in which the residual scan found nothing, with every token in it vaulted. */
    ghost predicate Valid(compose: Composer)
      reads this
    {
      && (forall t :: t in findings ==> t in vault)
      && (clean.Readable? ==> CleanRowOk(compose, srcText, srcDetections, clean.text, vault.Keys))
    }

    /** The readable row can still be restored: the vault holds what its own entries say. */
    ghost predicate Intact(compose: Composer)
      reads this
    {
      clean.Readable? ==> RowBacked(compose, srcText, srcDetections, vault)
    }

    /** Entries about to be written agree with the readable row's own. */
    ghost predicate Agreeing(compose: Composer, entries: seq<VaultEntry>)
      reads this
    {
      clean.Readable? ==> RowAgrees(compose, srcText, srcDetections, entries)
    }

    constructor (ghost compose: Composer)
      ensures Valid(compose) && Intact(compose) && clean == NoRow && findings == []
    {
      vault, findings, clean, srcText, srcDetections := map[], [], NoRow, "", [];
    }

    /** One row at a time; the process may die between two. */
    method PutTokens(entries: seq<VaultEntry>, dies: nat -> bool, ghost compose: Composer) returns (alive: bool)
      requires Valid(compose)
      modifies this`vault
      ensures Valid(compose) && (alive ==> vault == Stored(old(vault), entries)) && ((forall i :: !dies(i)) ==> alive)
      ensures !alive ==> exists n :: 0 <= n <= |entries| && vault == Stored(old(vault), entries[..n])
      ensures old(Intact(compose)) && Agreeing(compose, entries) ==> Intact(compose)
    {
      ghost var kept := Intact(compose) && Agreeing(compose, entries);
      alive := PutRows(entries, dies, compose);
      if kept && clean.Readable? {
        var n: nat :| n <= |entries| && vault == Stored(old(vault), entries[..n]);
        RowStaysBacked(compose, srcText, srcDetections, old(vault), entries, n);
      }
    }

    method PutRows(entries: seq<VaultEntry>, dies: nat -> bool, ghost compose: Composer) returns (alive: bool)
      requires Valid(compose)
      modifies this`vault
      ensures Valid(compose) && (alive ==> vault == Stored(old(vault), entries)) && ((forall i :: !dies(i)) ==> alive)
      ensures exists n :: 0 <= n <= |entries| && vault == Stored(old(vault), entries[..n])
    {
      for i := 0 to |entries|
        invariant Valid(compose) && vault == Stored(old(vault), entries[..i])
      {
        if dies(i) { return false; }
        PutToken(entries[i], compose);
        assert entries[..i + 1][..i] == entries[..i];
      }
      assert entries[..|entries|] == entries;
      return true;
    }

    method PutToken(entry: VaultEntry, ghost compose: Composer)
      requires Valid(compose)
      modifies this`vault
      ensures Valid(compose) && vault == old(vault)[entry.token := entry.plaintext]
    {
      var vault' := vault[entry.token := entry.plaintext];
      if clean.Readable? { CleanRowKept(compose, srcText, srcDetections, clean.text, vault.Keys, vault'.Keys); }
      vault := vault';
    }

    /** Vault first, then findings, then the clean row, then the decision. */
    method Persist(c: Composed, reasons: set<Reason>, threshold: real, diesInVault: nat -> bool, diesAt: nat,
                   ghost text: string, ghost detections: seq<Detection>, ghost compose: Composer, ghost denyTerms: seq<string>) returns (outcome: Outcome)
      requires Valid(compose) && Sound(text, c, denyTerms) && compose(text, detections) == Some(c)
      modifies this
      ensures Valid(compose) && outcome != HoldMissing
      ensures diesAt > 2 && (forall i :: !diesInVault(i)) ==> outcome != Died
      ensures outcome != Died ==> outcome == (if c.residual.hits != [] then HoldResidual else if HoldsForRisk(reasons, threshold) then HoldRisk else Continue)
      ensures outcome != Died ==> (clean.Readable? <==> c.residual.hits == [] && (!HoldsForRisk(reasons, threshold) || OutputSafe(reasons)))
      ensures outcome != Died && clean.Readable? ==> clean == Readable(c.tokenized.redactedText) && srcText == text && srcDetections == detections
      ensures outcome != Died ==> vault == Stored(old(vault), c.tokenized.vault) && |findings| == |c.tokenized.findings|
      ensures outcome != Died ==> forall i :: 0 <= i < |findings| ==> findings[i] == c.tokenized.findings[i].tokenRef
      ensures clean.Readable? && (srcText != text || srcDetections != detections) ==>
        old(clean).Readable? && srcText == old(srcText) && srcDetections == old(srcDetections)
      ensures outcome != Died || (old(Intact(compose)) && old(Agreeing(compose, c.tokenized.vault))) ==> Intact(compose)
    {
      var residualHit := c.residual.hits != [];
      var hold, safe := HoldsForRisk(reasons, threshold), OutputSafe(reasons);
      var alive := PutTokens(c.tokenized.vault, diesInVault, compose);
      if !alive || diesAt == 0 { return Died; }
      StoredKeys(old(vault), c.tokenized.vault);
      StoredIsBacked(old(vault), c.tokenized.vault);
      assert RowBacked(compose, text, detections, vault);
      ReplaceFindings(c.tokenized.findings, compose);
      if diesAt == 1 { return Died; }
      WriteCleanRow(!residualHit && (!hold || safe), c, text, detections, compose, denyTerms);
      if diesAt == 2 { return Died; }
      return if residualHit then HoldResidual else if hold then HoldRisk else Continue;
    }

    method ReplaceFindings(rows: seq<Finding>, ghost compose: Composer)
      requires Valid(compose) && forall f :: f in rows ==> f.tokenRef in vault
      modifies this`findings
      ensures Valid(compose) && |findings| == |rows| && forall i :: 0 <= i < |rows| ==> findings[i] == rows[i].tokenRef
    {
      findings := seq(|rows|, i requires 0 <= i < |rows| => rows[i].tokenRef);
      forall t | t in findings ensures t in vault {
        var i :| 0 <= i < |rows| && findings[i] == t;
        assert rows[i] in rows;
      }
    }

    /** Upsert the clean row, or soft-delete what is there. */
    method WriteCleanRow(write: bool, c: Composed, ghost text: string, ghost detections: seq<Detection>, ghost compose: Composer, ghost denyTerms: seq<string>)
      requires Valid(compose) && Sound(text, c, denyTerms) && compose(text, detections) == Some(c)
      requires Tokens(c.tokenized.vault) <= vault.Keys && (write ==> c.residual.hits == [])
      modifies this`clean, this`srcText, this`srcDetections
      ensures Valid(compose) && (RowBacked(compose, text, detections, vault) ==> Intact(compose))
      ensures write ==> clean == Readable(c.tokenized.redactedText) && srcText == text && srcDetections == detections
      ensures !write ==> !clean.Readable?
    {
      if write {
        NewCleanRow(compose, text, detections, vault.Keys, denyTerms);
        clean, srcText, srcDetections := Readable(c.tokenized.redactedText), text, detections;
      } else if clean.Readable? {
        clean := SoftDeleted;
      }
    }

    /** One run of the handler; wherever it dies, the store is valid. A run that does not die holds exactly for a missing
        transcript, a residual hit or a risk that holds, and continues otherwise; its text is readable exactly when there
        is no hit and either nothing holds or every reason leaves the output safe. A row that could be restored stays so
        wherever the run dies when the entries written agree with its own, as those of the same transcript and
        detections do; and a run that does not die leaves a readable row restorable in any case. */
    method Redact(input: Input, denyTerms: seq<string>, threshold: real, diesInVault: nat -> bool, diesAt: nat)
      returns (outcome: Outcome, ghost reasons: set<Reason>)
      requires Valid(ComposerOf(denyTerms)) && Usable(input)
      modifies this
      ensures Valid(ComposerOf(denyTerms)) && (outcome == HoldMissing <==> input.NoTranscript?)
      ensures input.Transcript? ==>
        Decided(Compose(input.text, input.detections, denyTerms), input.text, input.detections, input.signals, threshold, outcome, reasons)
      ensures diesAt > 2 && (forall i :: !diesInVault(i)) ==> outcome != Died
      ensures input.Transcript? && outcome != Died && clean.Readable? && !HasToken(input.text) ==> TextRuns.Alnum(Restore(clean.text, vault)) == TextRuns.Alnum(input.text)
      ensures clean.Readable? ==> FromInput(input) || (old(clean).Readable? && srcText == old(srcText) && srcDetections == old(srcDetections))
      ensures outcome != Died && outcome != HoldMissing ==> Intact(ComposerOf(denyTerms))
      ensures old(Intact(ComposerOf(denyTerms))) && old(Harmless(input, denyTerms)) ==> Intact(ComposerOf(denyTerms))
    {
      reasons := {};
      if input.NoTranscript? { return HoldMissing, reasons; }
      var c := Compose(input.text, input.detections, denyTerms);
      CompositionIsSound(input.text, input.detections, denyTerms);
      RerunAgrees(input.text, input.detections, denyTerms);
      outcome, reasons := Decide(c, input.text, input.detections, input.signals, threshold, diesInVault, diesAt, ComposerOf(denyTerms), denyTerms);
      if outcome != Died && clean.Readable? && !HasToken(input.text) { StoredRowRestores(input.text, input.detections, denyTerms, old(vault)); }
    }

    /** What a run that did not die has decided about its composition, for exactly the reasons that were triggered. */
    ghost predicate Decided(c: Composed, text: string, detections: seq<Detection>, signals: set<Reason>, threshold: real, outcome: Outcome, reasons: set<Reason>)
      reads this
    {
      var hold := HoldsForRisk(reasons, threshold);
      && (forall r :: r in reasons <==> Triggered(r, signals, text, c))
      && (outcome != Died ==>
          && (outcome == HoldResidual <==> c.residual.hits != []) && (outcome == HoldRisk <==> c.residual.hits == [] && hold)
          && (outcome == Continue <==> c.residual.hits == [] && !hold)
          && (clean.Readable? <==> c.residual.hits == [] && (!hold || OutputSafe(reasons)))
          && (clean.Readable? ==> clean.text == c.tokenized.redactedText && srcText == text && srcDetections == detections))
    }

    /** Score the reasons, then persist. */
    method Decide(c: Composed, text: string, ghost detections: seq<Detection>, signals: set<Reason>, threshold: real, diesInVault: nat -> bool, diesAt: nat,
                  ghost compose: Composer, ghost denyTerms: seq<string>) returns (outcome: Outcome, ghost reasons: set<Reason>)
      requires Valid(compose) && Sound(text, c, denyTerms) && compose(text, detections) == Some(c)
      modifies this
      ensures Valid(compose) && outcome != HoldMissing && Decided(c, text, detections, signals, threshold, outcome, reasons)
      ensures diesAt > 2 && (forall i :: !diesInVault(i)) ==> outcome != Died
      ensures outcome != Died ==> vault == Stored(old(vault), c.tokenized.vault)
      ensures clean.Readable? && (srcText != text || srcDetections != detections) ==>
        old(clean).Readable? && srcText == old(srcText) && srcDetections == old(srcDetections)
      ensures outcome != Died || (old(Intact(compose)) && old(Agreeing(compose, c.tokenized.vault))) ==> Intact(compose)
    {
      var derived := DeriveSpanSignals(text, c.spans, c.disagreement);
      var all := signals + derived + (if c.residual.hits != [] then {ResidualScanHit} else {});
      reasons := all;
      outcome := Persist(c, all, threshold, diesInVault, diesAt, text, detections, compose, denyTerms);
    }

    /** A readable row comes from this transcript and these detections, and can be restored. */
    ghost predicate Steady(denyTerms: seq<string>, text: string, detections: seq<Detection>)
      reads this
    {
      Intact(ComposerOf(denyTerms)) && (clean.Readable? ==> srcText == text && srcDetections == detections)
    }

    ghost predicate FromInput(input: Input)
      reads this
    {
      input.Transcript? && srcText == input.text && srcDetections == input.detections
    }

    /** The run writes nothing, or works from what the readable row came from, or its entries agree with that row's. */
    ghost predicate Harmless(input: Input, denyTerms: seq<string>)
      requires Usable(input)
      reads this
    {
      input.Transcript? && clean.Readable? && !FromInput(input) ==>
        Agreeing(ComposerOf(denyTerms), Compose(input.text, input.detections, denyTerms).tokenized.vault)
    }

    /** Any sequence of runs, each dying anywhere or not; when they all work from the same transcript and detections
        the readable row can be restored after each of them. */
    method Runs(inputs: seq<Input>, denyTerms: seq<string>, threshold: real, diesInVault: (nat, nat) -> bool, diesAt: nat -> nat,
                ghost text: string, ghost detections: seq<Detection>)
      requires Valid(ComposerOf(denyTerms)) && forall i :: i in inputs ==> Usable(i)
      modifies this
      ensures Valid(ComposerOf(denyTerms))
      ensures old(Steady(denyTerms, text, detections)) && AllFrom(inputs, text, detections) ==> Steady(denyTerms, text, detections)
    {
      for n := 0 to |inputs|
        invariant Valid(ComposerOf(denyTerms))
        invariant old(Steady(denyTerms, text, detections)) && AllFrom(inputs, text, detections) ==> Steady(denyTerms, text, detections)
      {
        var _, _ := Redact(inputs[n], denyTerms, threshold, (i: nat) => diesInVault(n, i), diesAt(n));
      }
    }
  }
}
