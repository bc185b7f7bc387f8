/** The string primitives both scanners are written with: maximal runs (`matchAll(/[cls]+/g)`),
    `split(/[^cls]+/)`, `indexOf` and `includes`. */
module TextRuns {
  import opened Chars
  import opened Regex

  /** End of the run of cls characters starting at i. */
  function RunEnd(s: string, cls: CharClass, i: nat): (j: nat)
    requires i <= |s|
    ensures i <= j <= |s|
    ensures forall k :: i <= k < j ==> cls.Has(s[k])
    ensures j < |s| ==> !cls.Has(s[j])
    decreases |s| - i
  {
    if i == |s| || !cls.Has(s[i]) then i else RunEnd(s, cls, i + 1)
  }

  /** End of the gap of non-cls characters starting at i. */
  function GapEnd(s: string, cls: CharClass, i: nat): (j: nat)
    requires i <= |s|
    ensures i <= j <= |s|
    ensures forall k :: i <= k < j ==> !cls.Has(s[k])
    ensures j < |s| ==> cls.Has(s[j])
    decreases |s| - i
  {
    if i == |s| || cls.Has(s[i]) then i else GapEnd(s, cls, i + 1)
  }

  /** The maximal runs of cls characters at or after pos, in order. */
  function Runs(s: string, cls: CharClass, pos: nat): (runs: seq<Span>)
    requires pos <= |s|
    ensures forall r :: r in runs ==> pos <= r.start < r.end <= |s|
    ensures forall r, k :: r in runs && r.start <= k < r.end ==> cls.Has(s[k])
    ensures forall a, b :: 0 <= a < b < |runs| ==> runs[a].end <= runs[b].start
    decreases |s| - pos
  {
    if pos == |s| then []
    else if cls.Has(s[pos]) then
      [Span(pos, RunEnd(s, cls, pos))] + Runs(s, cls, RunEnd(s, cls, pos))
    else Runs(s, cls, pos + 1)
  }

  /** A stretch of cls characters that cannot be extended. */
  ghost predicate Maximal(s: string, cls: CharClass, r: Span) {
    && r.start < r.end <= |s| && (forall k :: r.start <= k < r.end ==> cls.Has(s[k]))
    && (r.start == 0 || !cls.Has(s[r.start - 1])) && (r.end == |s| || !cls.Has(s[r.end]))
  }

  lemma {:induction false} MaximalFrom(s: string, cls: CharClass, pos: nat, r: Span)
    requires pos < |s| && cls.Has(s[pos]) && (pos == 0 || !cls.Has(s[pos - 1])) && r.start < RunEnd(s, cls, pos)
    ensures Maximal(s, cls, r) && pos <= r.start <==> r == Span(pos, RunEnd(s, cls, pos))
  {
    var e := RunEnd(s, cls, pos);
    assert Maximal(s, cls, Span(pos, e));
  }

  lemma {:induction false} RunsFrom(s: string, cls: CharClass, pos: nat, r: Span)
    requires pos <= |s| && (pos == 0 || pos == |s| || !cls.Has(s[pos - 1]) || !cls.Has(s[pos]))
    ensures r in Runs(s, cls, pos) <==> Maximal(s, cls, r) && pos <= r.start
    decreases |s| - pos
  {
    if pos < |s| {
      if cls.Has(s[pos]) {
        var e := RunEnd(s, cls, pos);
        RunsFrom(s, cls, e, r);
        if r.start < e { MaximalFrom(s, cls, pos, r); }
      } else {
        RunsFrom(s, cls, pos + 1, r);
      }
    }
  }

  /** The runs of a text are exactly its maximal stretches. */
  lemma {:induction false} RunsIff(s: string, cls: CharClass, r: Span)
    ensures r in Runs(s, cls, 0) <==> Maximal(s, cls, r)
  {
    RunsFrom(s, cls, 0, r);
  }

  function TextOf(s: string, runs: seq<Span>): (words: seq<string>)
    requires forall r :: r in runs ==> r.start <= r.end <= |s|
    ensures |words| == |runs|
    ensures forall k :: 0 <= k < |runs| ==> words[k] == s[runs[k].start..runs[k].end]
  {
    seq(|runs|, k requires 0 <= k < |runs| => s[runs[k].start..runs[k].end])
  }

  /** The text from pos on, split at every stretch of other characters, empty pieces included. */
  function SplitOn(s: string, cls: CharClass, pos: nat): seq<string>
    requires pos <= |s|
    decreases |s| - pos
  {
    var e := RunEnd(s, cls, pos);
    if e == |s| then [s[pos..]] else [s[pos..e]] + SplitOn(s, cls, GapEnd(s, cls, e))
  }

  /** Without the empty pieces. */
  function NonEmpty(words: seq<string>): seq<string> {
    if words == [] then [] else (if words[0] == "" then [] else [words[0]]) + NonEmpty(words[1..])
  }

  lemma {:induction false} RunsSkipGap(s: string, cls: CharClass, i: nat, j: nat)
    requires i <= j <= |s|
    requires forall k :: i <= k < j ==> !cls.Has(s[k])
    ensures Runs(s, cls, i) == Runs(s, cls, j)
    decreases j - i
  {
    if i < j { RunsSkipGap(s, cls, i + 1, j); }
  }

  lemma {:induction false} RunsStep(s: string, cls: CharClass, pos: nat)
    requires pos <= |s|
    ensures var e := RunEnd(s, cls, pos); var n := GapEnd(s, cls, e);
            Runs(s, cls, pos) == (if pos < e then [Span(pos, e)] else []) + Runs(s, cls, n)
  {
    var e := RunEnd(s, cls, pos);
    RunsSkipGap(s, cls, e, GapEnd(s, cls, e));
  }

  lemma {:induction false} TextOfCons(s: string, r: Span, runs: seq<Span>)
    requires r.start <= r.end <= |s| && forall q :: q in runs ==> q.start <= q.end <= |s|
    ensures TextOf(s, [r] + runs) == [s[r.start..r.end]] + TextOf(s, runs)
  {}

  /** Splitting on separators and dropping empties yields the text of the maximal runs. */
  lemma {:induction false} SplitIsRuns(s: string, cls: CharClass, pos: nat)
    requires pos <= |s|
    ensures NonEmpty(SplitOn(s, cls, pos)) == TextOf(s, Runs(s, cls, pos))
    decreases |s| - pos
  {
    var e := RunEnd(s, cls, pos);
    var n := GapEnd(s, cls, e);
    RunsStep(s, cls, pos);
    var rest := if e == |s| then [] else SplitOn(s, cls, n);
    if e == |s| {
      assert s[pos..] == s[pos..e];
      assert Runs(s, cls, n) == [];
    } else {
      SplitIsRuns(s, cls, n);
    }
    assert SplitOn(s, cls, pos) == [s[pos..e]] + rest;
    NonEmptyCons(s[pos..e], rest);
    assert NonEmpty(rest) == TextOf(s, Runs(s, cls, n));
    if pos < e { TextOfCons(s, Span(pos, e), Runs(s, cls, n)); }
  }

  lemma {:induction false} NonEmptyCons(w: string, ws: seq<string>)
    ensures NonEmpty([w] + ws) == (if w == "" then [] else [w]) + NonEmpty(ws)
  {
    assert ([w] + ws)[1..] == ws;
  }

  /** Runs depend only on which positions are in the class. */
  lemma {:induction false} RunsCongruent(s: string, cs: CharClass, t: string, ct: CharClass, pos: nat)
    requires pos <= |s| == |t|
    requires forall k :: 0 <= k < |s| ==> cs.Has(s[k]) == ct.Has(t[k])
    ensures Runs(s, cs, pos) == Runs(t, ct, pos)
    decreases |s| - pos
  {
    if pos < |s| {
      if cs.Has(s[pos]) {
        var e, f := RunEnd(s, cs, pos), RunEnd(t, ct, pos);
        assert e == f;
        RunsCongruent(s, cs, t, ct, e);
      } else {
        RunsCongruent(s, cs, t, ct, pos + 1);
      }
    }
  }

  /** Lower-cased, with everything but letters and digits removed. */
  function Alnum(s: string): (r: string)
    ensures |r| <= |s|
    ensures forall k :: 0 <= k < |r| ==> LOWER_ALNUMS.Has(r[k])
  {
    if s == "" then ""
    else Kept(s[0]) + Alnum(s[1..])
  }

  function Kept(c: char): string { if LOWER_ALNUMS.Has(ToLower(c)) then [ToLower(c)] else [] }

  lemma {:induction false} AlnumConcat(a: string, b: string)
    ensures Alnum(a + b) == Alnum(a) + Alnum(b)
  {
    if a == "" {
      assert a + b == b;
    } else {
      AlnumConcat(a[1..], b);
      assert (a + b)[1..] == a[1..] + b && (a + b)[0] == a[0];
      Assoc(Kept(a[0]), Alnum(a[1..]), Alnum(b));
    }
  }

  lemma {:induction false} Assoc<T>(a: seq<T>, b: seq<T>, c: seq<T>)
    ensures (a + b) + c == a + (b + c)
  {}

  lemma {:induction false} DropConcat<T>(a: seq<T>, b: seq<T>, k: nat)
    requires k <= |a|
    ensures (a + b)[k..] == a[k..] + b
    ensures a != [] ==> (a + b)[0] == a[0]
  {}

  /** needle occurs in hay at position i. */
  predicate OccursAt(hay: string, needle: string, i: nat) {
    i + |needle| <= |hay| && hay[i..i + |needle|] == needle
  }

  /** `hay.indexOf(needle, from)`; -1 when absent. */
  function IndexOf(hay: string, needle: string, from: nat): (r: int)
    ensures r == -1 || (from <= r && r + |needle| <= |hay|)
    decreases |hay| + 1 - from
  {
    if from + |needle| > |hay| then -1
    else if OccursAt(hay, needle, from) then from
    else IndexOf(hay, needle, from + 1)
  }

  /** It finds an occurrence exactly when there is one. */
  lemma {:induction false} IndexOfFinds(hay: string, needle: string, from: nat)
    ensures var r := IndexOf(hay, needle, from);
            && (r != -1 ==> OccursAt(hay, needle, r))
            && (r == -1 ==> forall i: nat :: from <= i ==> !OccursAt(hay, needle, i))
    decreases |hay| + 1 - from
  {
    if from + |needle| <= |hay| && !OccursAt(hay, needle, from) { IndexOfFinds(hay, needle, from + 1); }
  }

  /** `hay.includes(needle)`. */
  predicate Includes(hay: string, needle: string) {
    exists i :: 0 <= i <= |hay| && OccursAt(hay, needle, i)
  }

  /** The words of needle appear consecutively in hay starting at word i. */
  predicate SequenceAt(hay: seq<string>, needle: seq<string>, i: nat) {
    i + |needle| <= |hay| && forall j :: 0 <= j < |needle| ==> hay[i + j] == needle[j]
  }

  /** The lower-cased alphanumeric words. */
  function WordTokens(s: string): seq<string> { NonEmpty(SplitOn(Lower(s), LOWER_ALNUMS, 0)) }
}
