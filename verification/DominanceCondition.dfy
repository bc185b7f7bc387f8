/** Exactly when an iteration of the repair loop and the residual scan agree on every deny list. */
module DominanceCondition {
  import opened Chars
  import opened TextRuns
  import opened RedactionTypes
  import opened Spans
  import opened Tokenize
  import opened EffectiveText
  import opened Repair
  import RS = ResidualScan

  // ---------- stripping a literal token loses alphanumeric characters ----------

  lemma {:induction false} DigitIsKept(s: string, i: nat)
    requires i < |s| && IsDigit(s[i])
    ensures |Alnum(s)| > 0
  {
    AlnumConcat(s[..i], s[i..]);
    assert s[..i] + s[i..] == s;
    assert Kept(s[i]) == [s[i]];
  }

  lemma {:induction false} TokenHasDigit(tok: string)
    requires IsToken(tok)
    ensures |Alnum(tok)| > 0
  {
    var b := tok[1..|tok| - 1];
    assert b[|b| - 1] == tok[|tok| - 2];
    DigitIsKept(tok, |tok| - 2);
  }

  type Weight = string -> nat

  /** A weight adds up over a text, ignores blanks and counts tokens. */
  ghost predicate Weighs(w: Weight) {
    && (forall a, b {:trigger w(a + b)} :: w(a + b) == w(a) + w(b))
    && w(" ") == 0 && forall tok {:trigger IsToken(tok)} :: IsToken(tok) ==> w(tok) > 0
  }

  lemma {:induction false} AlnumWeighs() returns (w: Weight)
    ensures Weighs(w) && forall s :: w(s) == |Alnum(s)|
  {
    w := s => |Alnum(s)|;
    forall a, b ensures w(a + b) == w(a) + w(b) { AlnumConcat(a, b); }
    forall tok | IsToken(tok) ensures w(tok) > 0 { TokenHasDigit(tok); }
    assert Kept(' ') == "" && " "[1..] == "";
  }

  /** Stripping keeps the weight of everything but the tokens. */
  lemma {:induction false} StripLosesTokens(w: Weight, s: string)
    requires Weighs(w)
    ensures w(Strip(s)) <= w(s) && (HasToken(s) ==> w(Strip(s)) < w(s))
    decreases |s|
  {
    if s != "" {
      var n := TokenPrefix(s);
      var k := if n > 0 then n else 1;
      StripLosesTokens(w, s[k..]);
      StripStep(w, s, k);
      if n == 0 { HasTokenStep(s); }
    }
  }

  lemma {:induction false} StripStep(w: Weight, s: string, k: nat)
    requires Weighs(w) && s != "" && k == if TokenPrefix(s) > 0 then TokenPrefix(s) else 1
    ensures w(s) == w(s[..k]) + w(s[k..])
    ensures w(Strip(s)) == w(Strip(s[k..])) + if TokenPrefix(s) > 0 then 0 else w(s[..k])
    ensures TokenPrefix(s) > 0 ==> w(s[..k]) > 0
  {
    assert s[..k] + s[k..] == s;
    assert [s[0]] == s[..1];
    assert Strip(s) == (if TokenPrefix(s) > 0 then " " else s[..1]) + Strip(s[k..]);
  }

  /** The stripped output weighs no more than the effective text, and less when some gap holds a literal token. */
  lemma {:induction false} StrippedIsLighter(w: Weight, text: string, ds: seq<Detection>, tokens: seq<string>, pos: nat)
    requires Weighs(w) && InRange(ds, |text|) && Ordered(ds) && pos <= |text| && (ds != [] ==> pos <= ds[0].start)
    requires |tokens| == |ds| && AllTokens(tokens)
    ensures w(Strip(Redacted(text, ds, tokens, pos))) <= w(EffectiveFrom(text, ds, pos).text)
    ensures !GapsClean(text, ds, pos) ==> w(Strip(Redacted(text, ds, tokens, pos))) < w(EffectiveFrom(text, ds, pos).text)
    decreases |ds|
  {
    if ds == [] {
      assert text[pos..] == text[pos..|text|];
      StripLosesTokens(w, text[pos..]);
    } else {
      StripRedacted(text, ds, tokens, pos);
      StripLosesTokens(w, text[pos..ds[0].start]);
      StrippedIsLighter(w, text, ds[1..], tokens[1..], ds[0].end);
    }
  }

  lemma {:induction false} OutputIsShorter(text: string, spans: seq<Detection>)
    requires Canonical(text, spans)
    ensures var out, eff := Strip(TokenizeOrdered(text, spans).redactedText), EffectiveFrom(text, spans, 0).text;
      |Alnum(out)| <= |Alnum(eff)| && (!GapsClean(text, spans, 0) ==> |Alnum(out)| < |Alnum(eff)|)
  {
    var w := AlnumWeighs();
    AssignedAreTokens(Items(text, spans));
    StrippedIsLighter(w, text, spans, Assign(TokenLabel, Items(text, spans)).tokenFor, 0);
  }

  // ---------- the condition ----------

  ghost predicate NoDenyHit(denyTerms: seq<string>, text: string) { forall d :: d in denyTerms ==> !RS.DenyHit(d, Alnum(text)) }

  lemma {:induction false} CleanByDeny(text: string, plaintexts: seq<string>, denyTerms: seq<string>)
    ensures RS.Clean(text, plaintexts, denyTerms) <==> RS.Clean(text, plaintexts, []) && NoDenyHit(denyTerms, text)
  {}

  lemma {:induction false} ShortTextHasNoHit(denyTerms: seq<string>, text: string)
    requires |Alnum(text)| < 3
    ensures NoDenyHit(denyTerms, text)
  {}

  /** The text itself as a deny term. */
  lemma {:induction false} OwnTerm(eff: string, out: string)
    requires 3 <= |Alnum(eff)| && |Alnum(out)| < |Alnum(eff)|
    ensures !NoDenyHit([eff], eff) && NoDenyHit([eff], out)
  {
    var a := Alnum(eff);
    assert OccursAt(a, a, 0);
    assert eff in [eff] && RS.DenyHit(eff, a);
  }

  /** An iteration adds nothing, and the scan reports no hit. */
  ghost predicate FindersSilent(text: string, spans: seq<Detection>, denyTerms: seq<string>)
    requires Canonical(text, spans)
  {
    StepAdditions(text, spans, denyTerms) == []
  }

  ghost predicate ScanSilent(text: string, spans: seq<Detection>, denyTerms: seq<string>)
    requires Canonical(text, spans)
  {
    ScanOf(TokenizeOrdered(text, spans), denyTerms).hits == []
  }

  ghost predicate Agree(text: string, spans: seq<Detection>, denyTerms: seq<string>)
    requires Canonical(text, spans)
  {
    FindersSilent(text, spans, denyTerms) <==> ScanSilent(text, spans, denyTerms)
  }

  /** A deny list only adds hits of its own terms, on either side. */
  lemma {:induction false} SidesByDeny(text: string, spans: seq<Detection>, denyTerms: seq<string>)
    requires Canonical(text, spans)
    ensures FindersSilent(text, spans, denyTerms)
       <==> FindersSilent(text, spans, []) && NoDenyHit(denyTerms, EffectiveFrom(text, spans, 0).text)
    ensures ScanSilent(text, spans, denyTerms)
       <==> ScanSilent(text, spans, []) && NoDenyHit(denyTerms, Strip(TokenizeOrdered(text, spans).redactedText))
  {
    var t := TokenizeOrdered(text, spans);
    TwoSides(text, spans, denyTerms);
    TwoSides(text, spans, []);
    CleanByDeny(EffectiveFrom(text, spans, 0).text, Plaintexts(t.vault), denyTerms);
    CleanByDeny(Strip(t.redactedText), Plaintexts(t.vault), denyTerms);
  }

  /** Finders and scan agree whatever the deny list exactly when no uncovered gap holds a literal token, or both fire
      without any deny term, or both are silent without one and the effective text is too short to hold one. */
  lemma {:induction false} DominanceIff(text: string, spans: seq<Detection>)
    requires Canonical(text, spans)
    ensures (forall denyTerms :: Agree(text, spans, denyTerms)) <==>
      || GapsClean(text, spans, 0)
      || (!FindersSilent(text, spans, []) && !ScanSilent(text, spans, []))
      || (FindersSilent(text, spans, []) && ScanSilent(text, spans, []) && |Alnum(EffectiveFrom(text, spans, 0).text)| < 3)
  {
    var eff := EffectiveFrom(text, spans, 0).text;
    var out := Strip(TokenizeOrdered(text, spans).redactedText);
    OutputIsShorter(text, spans);
    var bothFire := !FindersSilent(text, spans, []) && !ScanSilent(text, spans, []);
    var tooShort := FindersSilent(text, spans, []) && ScanSilent(text, spans, []) && |Alnum(eff)| < 3;
    forall denyTerms | GapsClean(text, spans, 0) || bothFire || tooShort ensures Agree(text, spans, denyTerms) {
      SidesByDeny(text, spans, denyTerms);
      if GapsClean(text, spans, 0) { Dominance(text, spans, denyTerms); }
      if tooShort {
        ShortTextHasNoHit(denyTerms, eff);
        ShortTextHasNoHit(denyTerms, out);
      }
    }
    if !GapsClean(text, spans, 0) && |Alnum(eff)| >= 3 {
      OwnTerm(eff, out);
      SidesByDeny(text, spans, [eff]);
      assert Agree(text, spans, [eff]) ==> !ScanSilent(text, spans, []);
    }
    assert Agree(text, spans, []) <==> (FindersSilent(text, spans, []) <==> ScanSilent(text, spans, []));
  }
}
