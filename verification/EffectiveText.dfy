/** The residual's view of the output: the original text with every covered span blanked to one space. */
module EffectiveText {
  import opened Wrappers
  import opened RedactionTypes
  import opened Spans
  import opened Tokenize
  import TextRuns
  import R = Regex
  import M = MirrorFinders

  /** `at[i]` is the original offset of text[i], -1 for an inserted blank. */
  datatype Effective = Effective(text: string, at: seq<int>)

  function Range(a: nat, b: nat): (r: seq<int>)
    requires a <= b
    ensures |r| == b - a && forall i :: 0 <= i < b - a ==> r[i] == a + i
  {
    seq(b - a, i => a + i)
  }

  function Append(a: Effective, b: Effective): Effective { Effective(a.text + b.text, a.at + b.at) }

  function Chunk(text: string, a: nat, b: nat): Effective
    requires a <= b <= |text|
  {
    Effective(text[a..b], Range(a, b))
  }

  const BLANK := Effective(" ", [-1])

  /** The effective text from pos on; spans starting before pos are skipped. */
  function EffectiveFrom(text: string, ds: seq<Detection>, pos: nat): (e: Effective)
    requires InRange(ds, |text|) && pos <= |text|
    ensures |e.at| == |e.text|
    decreases |ds|
  {
    if ds == [] then Chunk(text, pos, |text|)
    else if ds[0].start < pos then EffectiveFrom(text, ds[1..], pos)
    else Append(Append(Chunk(text, pos, ds[0].start), BLANK), EffectiveFrom(text, ds[1..], ds[0].end))
  }

  method BuildEffective(text: string, spans: seq<Detection>) returns (e: Effective)
    requires InRange(spans, |text|)
    ensures InRange(Sort(spans, false), |text|)
    ensures e == EffectiveFrom(text, Sort(spans, false), 0)
  {
    var sorted := Sort(spans, false);
    assert InRange(sorted, |text|) by {
      forall k | 0 <= k < |sorted| ensures sorted[k].start < sorted[k].end <= |text| { assert sorted[k] in spans; }
    }
    var out: string, at: seq<int> := [], [];
    var pos := 0;
    ghost var all := EffectiveFrom(text, sorted, 0);
    for i := 0 to |sorted|
      invariant 0 <= pos <= |text|
      invariant Append(Effective(out, at), EffectiveFrom(text, sorted[i..], pos)) == all
    {
      var s := sorted[i];
      assert sorted[i..][1..] == sorted[i + 1..];
      if s.start < pos { continue; }
      ghost var rest := EffectiveFrom(text, sorted[i + 1..], s.end);
      ghost var was := Effective(out, at);
      out, at := CopyChunk(text, pos, s.start, out, at);
      AppendAssoc(was, Chunk(text, pos, s.start), BLANK);
      AppendAssoc(was, Append(Chunk(text, pos, s.start), BLANK), rest);
      out := out + [' '];
      at := at + [-1];
      pos := s.end;
    }
    out, at := CopyChunk(text, pos, |text|, out, at);
    e := Effective(out, at);
  }

  method CopyChunk(text: string, a: nat, b: nat, out0: string, at0: seq<int>) returns (out: string, at: seq<int>)
    requires a <= b <= |text|
    ensures Effective(out, at) == Append(Effective(out0, at0), Chunk(text, a, b))
  {
    out, at := out0, at0;
    for j := a to b
      invariant out == out0 + text[a..j] && at == at0 + Range(a, j)
    {
      assert text[a..j + 1] == text[a..j] + [text[j]] && Range(a, j + 1) == Range(a, j) + [j];
      out := out + [text[j]];
      at := at + [j];
    }
  }

  lemma {:induction false} AppendAssoc(a: Effective, b: Effective, c: Effective)
    ensures Append(Append(a, b), c) == Append(a, Append(b, c))
  {
    TextRuns.Assoc(a.text, b.text, c.text);
    TextRuns.Assoc(a.at, b.at, c.at);
  }

  // ---------- the offset map ----------

  /** Blanks are spaces; every other character is the uncovered original one, in order. */
  ghost predicate Maps(text: string, ds: seq<Detection>, pos: nat, e: Effective) {
    && |e.at| == |e.text|
    && (forall i {:trigger e.at[i]} :: 0 <= i < |e.at| ==>
          if e.at[i] == -1 then e.text[i] == ' '
          else pos <= e.at[i] < |text| && e.text[i] == text[e.at[i]] && !Covered(ds, e.at[i]))
    && (forall i, j {:trigger e.at[i], e.at[j]} :: 0 <= i < j < |e.at| && e.at[i] != -1 && e.at[j] != -1 ==> e.at[i] < e.at[j])
  }

  lemma {:induction false} EffectiveMaps(text: string, ds: seq<Detection>, pos: nat)
    requires InRange(ds, |text|) && Ordered(ds) && pos <= |text| && (ds != [] ==> pos <= ds[0].start)
    ensures Maps(text, ds, pos, EffectiveFrom(text, ds, pos))
    decreases |ds|
  {
    if ds != [] {
      EffectiveMaps(text, ds[1..], ds[0].end);
      MapsStep(text, ds, pos, EffectiveFrom(text, ds[1..], ds[0].end));
    }
  }

  /** No uncovered character is left out. */
  lemma {:induction false} EffectiveReaches(text: string, ds: seq<Detection>, pos: nat, i: nat) returns (k: nat)
    requires InRange(ds, |text|) && Ordered(ds) && pos <= i < |text| && (ds != [] ==> pos <= ds[0].start) && !Covered(ds, i)
    ensures k < |EffectiveFrom(text, ds, pos).at| && EffectiveFrom(text, ds, pos).at[k] == i
    decreases |ds|
  {
    if ds == [] {
      k := i - pos;
    } else if i < ds[0].start {
      k := i - pos;
    } else {
      assert !ds[0].Covers(i);
      forall n | 0 <= n < |ds[1..]| ensures !ds[1..][n].Covers(i) { assert !ds[n + 1].Covers(i); }
      var m := EffectiveReaches(text, ds[1..], ds[0].end, i);
      k := ds[0].start - pos + 1 + m;
    }
  }

  lemma {:induction false} MapsStep(text: string, ds: seq<Detection>, pos: nat, rest: Effective)
    requires InRange(ds, |text|) && Ordered(ds) && ds != [] && pos <= ds[0].start
    requires Maps(text, ds[1..], ds[0].end, rest)
    ensures Maps(text, ds, pos, Append(Append(Chunk(text, pos, ds[0].start), BLANK), rest))
  {
    var head := Append(Chunk(text, pos, ds[0].start), BLANK);
    var e := Append(head, rest);
    var n := |head.at|;
    forall i | 0 <= i < |e.at|
      ensures if e.at[i] == -1 then e.text[i] == ' '
              else pos <= e.at[i] < |text| && e.text[i] == text[e.at[i]] && !Covered(ds, e.at[i])
    {
      if i < n - 1 {
        assert e.at[i] == pos + i;
        UncoveredBefore(ds, pos + i);
      } else if i >= n {
        assert e.at[i] == rest.at[i - n] && e.text[i] == rest.text[i - n];
        if rest.at[i - n] != -1 { UncoveredAfter(ds, rest.at[i - n]); }
      }
    }
    forall i, j | 0 <= i < j < |e.at| && e.at[i] != -1 && e.at[j] != -1 ensures e.at[i] < e.at[j] {
      if j >= n {
        assert e.at[j] == rest.at[j - n];
        if i >= n { assert e.at[i] == rest.at[i - n]; }
      }
    }
  }

  lemma {:induction false} UncoveredBefore(ds: seq<Detection>, i: int)
    requires Ordered(ds) && ds != [] && i < ds[0].start && forall k :: 0 <= k < |ds| ==> ds[k].start < ds[k].end
    ensures !Covered(ds, i)
  {
    forall k | 0 <= k < |ds| ensures !ds[k].Covers(i) { if k > 0 { assert ds[0].end <= ds[k].start; } }
  }

  lemma {:induction false} UncoveredAfter(ds: seq<Detection>, i: int)
    requires ds != [] && ds[0].end <= i && !Covered(ds[1..], i)
    ensures !Covered(ds, i)
  {
    forall k | 0 <= k < |ds| ensures !ds[k].Covers(i) { if k > 0 { assert ds[k] == ds[1..][k - 1]; } }
  }

  // ---------- mapping hits back ----------

  /** Least i in [i, hi) with an original offset; hi when there is none. */
  function FirstOriginal(at: seq<int>, i: nat, hi: nat): (r: nat)
    requires i <= hi <= |at|
    ensures i <= r <= hi && (r < hi ==> at[r] >= 0) && forall k :: i <= k < r ==> at[k] < 0
    decreases hi - i
  {
    if i == hi || at[i] >= 0 then i else FirstOriginal(at, i + 1, hi)
  }

  /** One past the greatest i in [lo, hi) with an original offset; lo when there is none. */
  function LastOriginal(at: seq<int>, lo: nat, hi: nat): (r: nat)
    requires lo <= hi <= |at|
    ensures lo <= r <= hi && (r > lo ==> at[r - 1] >= 0) && forall k :: r <= k < hi ==> at[k] < 0
    decreases hi - lo
  {
    if lo == hi || at[hi - 1] >= 0 then hi else LastOriginal(at, lo, hi - 1)
  }

  /** The original span of an effective-text hit, inserted blanks trimmed. */
  function ToOriginal(e: Effective, h: R.Span): Option<R.Span>
    requires h.start <= h.end <= |e.at|
  {
    var f, l := FirstOriginal(e.at, h.start, h.end), LastOriginal(e.at, h.start, h.end);
    if f == h.end || l == h.start || e.at[l - 1] + 1 <= e.at[f] then None else Some(R.Span(e.at[f], e.at[l - 1] + 1))
  }

  method MapToOriginal(e: Effective, h: R.Span) returns (r: Option<R.Span>)
    requires h.start <= h.end <= |e.at|
    ensures r == ToOriginal(e, h)
  {
    var start, end := -1, -1;
    ghost var f, l := FirstOriginal(e.at, h.start, h.end), LastOriginal(e.at, h.start, h.end);
    var i := h.start;
    while i < h.end
      invariant h.start <= i <= f && start == -1
    {
      if e.at[i] >= 0 { start := e.at[i]; break; }
      i := i + 1;
    }
    assert f < h.end ==> start == e.at[f];
    assert f == h.end ==> start == -1;
    i := h.end;
    while i > h.start
      invariant l <= i <= h.end && end == -1
    {
      if e.at[i - 1] >= 0 { end := e.at[i - 1] + 1; break; }
      i := i - 1;
    }
    assert l > h.start ==> end == e.at[l - 1] + 1;
    assert l == h.start ==> end == -1;
    if start < 0 || end <= start { return None; }
    return Some(R.Span(start, end));
  }

  /** A solid hit maps back to a non-empty span that starts on an uncovered character. */
  lemma {:induction false} SolidHitMapsBack(text: string, ds: seq<Detection>, e: Effective, h: R.Span)
    requires Maps(text, ds, 0, e) && M.Solid(e.text, h)
    ensures var r := ToOriginal(e, h);
            && r == Some(R.Span(e.at[h.start], e.at[h.end - 1] + 1))
            && r.value.start < r.value.end <= |text| && !Covered(ds, r.value.start)
  {
    assert e.at[h.start] != -1 && e.at[h.end - 1] != -1;
    assert FirstOriginal(e.at, h.start, h.end) == h.start;
    assert LastOriginal(e.at, h.start, h.end) == h.end;
    if h.start < h.end - 1 { assert e.at[h.start] < e.at[h.end - 1]; }
  }

  // ---------- effective text and stripped output ----------

  /** No stretch of uncovered text holds a literal token. */
  ghost predicate GapsClean(text: string, ds: seq<Detection>, pos: nat)
    requires InRange(ds, |text|) && Ordered(ds) && pos <= |text| && (ds != [] ==> pos <= ds[0].start)
    decreases |ds|
  {
    if ds == [] then !HasToken(text[pos..])
    else !HasToken(text[pos..ds[0].start]) && GapsClean(text, ds[1..], ds[0].end)
  }

  lemma {:induction false} NoTokenNoGap(text: string, ds: seq<Detection>, pos: nat)
    requires InRange(ds, |text|) && Ordered(ds) && pos <= |text| && (ds != [] ==> pos <= ds[0].start)
    requires !HasToken(text)
    ensures GapsClean(text, ds, pos)
    decreases |ds|
  {
    if ds == [] {
      SubstringHasNoToken(text, pos, |text|);
      assert text[pos..] == text[pos..|text|];
    } else {
      SubstringHasNoToken(text, pos, ds[0].start);
      NoTokenNoGap(text, ds[1..], ds[0].end);
    }
  }

  ghost predicate AllTokens(tokens: seq<string>) { forall k :: 0 <= k < |tokens| ==> IsToken(tokens[k]) }

  lemma {:induction false} StripTokenThen(tok: string, rest: string)
    requires IsToken(tok)
    ensures Strip(tok + rest) == " " + Strip(rest)
  {
    TokenPrefixOfToken(tok, rest);
    assert (tok + rest)[|tok|..] == rest;
  }

  /** Stripping acts gap by gap. */
  lemma {:induction false} StripRedacted(text: string, ds: seq<Detection>, tokens: seq<string>, pos: nat)
    requires InRange(ds, |text|) && Ordered(ds) && pos <= |text| && (ds != [] ==> pos <= ds[0].start)
    requires |tokens| == |ds| && AllTokens(tokens) && ds != []
    ensures Strip(Redacted(text, ds, tokens, pos))
         == Strip(text[pos..ds[0].start]) + " " + Strip(Redacted(text, ds[1..], tokens[1..], ds[0].end))
  {
    var chunk, tok, rest := text[pos..ds[0].start], tokens[0], Redacted(text, ds[1..], tokens[1..], ds[0].end);
    TextRuns.Assoc(chunk, tok, rest);
    assert (tok + rest)[0] == tok[0];
    StripSplit(chunk, tok + rest);
    StripTokenThen(tok, rest);
    TextRuns.Assoc(Strip(chunk), " ", Strip(rest));
  }

  /** The output with tokens stripped to a space is the effective text exactly when no uncovered gap
      holds a literal token. */
  lemma {:induction false} StrippedIsEffective(text: string, ds: seq<Detection>, tokens: seq<string>, pos: nat)
    requires InRange(ds, |text|) && Ordered(ds) && pos <= |text| && (ds != [] ==> pos <= ds[0].start)
    requires |tokens| == |ds| && AllTokens(tokens)
    ensures |Strip(Redacted(text, ds, tokens, pos))| <= |EffectiveFrom(text, ds, pos).text|
    ensures GapsClean(text, ds, pos) <==> Strip(Redacted(text, ds, tokens, pos)) == EffectiveFrom(text, ds, pos).text
    ensures !GapsClean(text, ds, pos) ==> |Strip(Redacted(text, ds, tokens, pos))| < |EffectiveFrom(text, ds, pos).text|
    decreases |ds|
  {
    if ds == [] {
      assert text[pos..] == text[pos..|text|];
      StripLength(text[pos..]);
    } else {
      StripRedacted(text, ds, tokens, pos);
      StripLength(text[pos..ds[0].start]);
      StrippedIsEffective(text, ds[1..], tokens[1..], ds[0].end);
      var a, b := Strip(text[pos..ds[0].start]), text[pos..ds[0].start];
      var x, y := Strip(Redacted(text, ds[1..], tokens[1..], ds[0].end)), EffectiveFrom(text, ds[1..], ds[0].end).text;
      assert EffectiveFrom(text, ds, pos).text == b + " " + y;
      SameLengthParts(a, x, b, y);
    }
  }

  lemma {:induction false} SameLengthParts(a: string, x: string, b: string, y: string)
    requires |a| <= |b| && |x| <= |y|
    ensures |a + " " + x| <= |b + " " + y|
    ensures |a + " " + x| < |b + " " + y| <==> |a| < |b| || |x| < |y|
  {}
}
