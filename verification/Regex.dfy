/** Declarative regular-expression matching, enough to write the source's own patterns.
    `Matches` is the language of the pattern; `FindAll` is `matchAll`. */
module Regex {
  import opened Chars

  datatype Re =
    | Lit(word: string, fold: bool)
    | One(cls: CharClass)
    | WordEdge
    | Cat(first: Re, second: Re)
    | Or(left: Re, right: Re)
    | Star(body: Re)

  const EMPTY := Lit("", false)

  function Plus(r: Re): Re { Cat(r, Star(r)) }

  function Opt(r: Re): Re { Or(r, EMPTY) }

  /** `\w` at position i, false outside the string. */
  predicate WordAt(s: string, i: int) {
    0 <= i < |s| && (IsLower(s[i]) || IsUpper(s[i]) || IsDigit(s[i]) || s[i] == '_')
  }

  /** s[i..j] is a match of r in the context of s. */
  predicate Matches(r: Re, s: string, i: nat, j: nat)
    requires i <= j <= |s|
    decreases r, j - i
  {
    match r
    case Lit(w, fold) => j - i == |w| && (if fold then Lower(s[i..j]) else s[i..j]) == w
    case One(cls) => j == i + 1 && cls.Has(s[i])
    case WordEdge => i == j && WordAt(s, i - 1) != WordAt(s, i)
    case Cat(a, b) => exists k: nat :: i <= k <= j && Matches(a, s, i, k) && Matches(b, s, k, j)
    case Or(a, b) => Matches(a, s, i, j) || Matches(b, s, i, j)
    case Star(a) => i == j || exists k: nat :: i < k <= j && Matches(a, s, i, k) && Matches(r, s, k, j)
  }

  /** Some non-empty match of r exists: what `text.match(r)` tests. */
  ghost predicate Fires(r: Re, s: string) {
    exists i: nat, j: nat :: i < j <= |s| && Matches(r, s, i, j)
  }

  /** Matches no character at all. */
  predicate ZeroWidth(r: Re) { r.WordEdge? }

  /** Every match begins with a character that is not a space. */
  predicate SolidStart(r: Re) {
    match r
    case Lit(w, _) => |w| > 0 && w[0] != ' '
    case One(cls) => !cls.Has(' ')
    case WordEdge => false
    case Cat(a, b) => SolidStart(a) || (ZeroWidth(a) && SolidStart(b))
    case Or(a, b) => SolidStart(a) && SolidStart(b)
    case Star(_) => false
  }

  /** Every match ends with a character that is not a space. */
  predicate SolidEnd(r: Re) {
    match r
    case Lit(w, _) => |w| > 0 && w[|w| - 1] != ' '
    case One(cls) => !cls.Has(' ')
    case WordEdge => false
    case Cat(a, b) => SolidEnd(b) || ((ZeroWidth(b) || (b.Star? && SolidEnd(b.body))) && SolidEnd(a))
    case Or(a, b) => SolidEnd(a) && SolidEnd(b)
    case Star(_) => false
  }

  lemma {:induction false} SolidStartSound(r: Re, s: string, i: nat, j: nat)
    requires i <= j <= |s| && Matches(r, s, i, j) && SolidStart(r)
    ensures i < j && s[i] != ' '
  {
    match r
    case Lit(w, fold) => assert s[i] == s[i..j][0];
    case One(cls) =>
    case Cat(a, b) =>
      var k: nat :| i <= k <= j && Matches(a, s, i, k) && Matches(b, s, k, j);
      if SolidStart(a) {
        SolidStartSound(a, s, i, k);
      } else {
        SolidStartSound(b, s, k, j);
      }
    case Or(a, b) =>
      if Matches(a, s, i, j) { SolidStartSound(a, s, i, j); } else { SolidStartSound(b, s, i, j); }
  }

  lemma {:induction false} CatSplit(a: Re, b: Re, s: string, i: nat, j: nat) returns (k: nat)
    requires i <= j <= |s| && Matches(Cat(a, b), s, i, j)
    ensures i <= k <= j && Matches(a, s, i, k) && Matches(b, s, k, j)
  {
    var r := Cat(a, b);
    assert Matches(r, s, i, j);
    k :| i <= k <= j && Matches(r.first, s, i, k) && Matches(r.second, s, k, j);
  }

  /** A non-empty match of a* ends where its last repetition ends. */
  lemma {:induction false} StarLast(a: Re, s: string, i: nat, j: nat) returns (k: nat)
    requires i < j <= |s| && Matches(Star(a), s, i, j)
    ensures i <= k <= j && Matches(a, s, k, j)
    decreases j - i
  {
    k :| i < k <= j && Matches(a, s, i, k) && Matches(Star(a), s, k, j);
    if k == j { k := i; } else { k := StarLast(a, s, k, j); }
  }

  lemma {:induction false} SolidEndSound(r: Re, s: string, i: nat, j: nat)
    requires i <= j <= |s| && Matches(r, s, i, j) && SolidEnd(r)
    ensures i < j && s[j - 1] != ' '
  {
    match r
    case Lit(w, fold) => assert s[j - 1] == s[i..j][j - 1 - i];
    case One(cls) =>
    case Cat(a, b) =>
      var k: nat :| i <= k <= j && Matches(a, s, i, k) && Matches(b, s, k, j);
      if SolidEnd(b) {
        SolidEndSound(b, s, k, j);
      } else if k == j {
        SolidEndSound(a, s, i, k);
      } else {
        var m := StarLast(b.body, s, k, j);
        SolidEndSound(b.body, s, m, j);
      }
    case Or(a, b) =>
      if Matches(a, s, i, j) { SolidEndSound(a, s, i, j); } else { SolidEndSound(b, s, i, j); }
  }

  /** The longest non-empty match of r starting at i and ending at or before hi; i when there is none. */
  function LongestEnd(r: Re, s: string, i: nat, hi: nat): (j: nat)
    requires i <= hi <= |s|
    ensures i <= j <= hi
    ensures j > i ==> Matches(r, s, i, j)
    ensures forall k: nat :: j < k <= hi ==> !Matches(r, s, i, k)
    decreases hi
  {
    if hi == i then i else if Matches(r, s, i, hi) then hi else LongestEnd(r, s, i, hi - 1)
  }

  datatype Span = Span(start: nat, end: nat)

  /** `matchAll`: the non-overlapping matches from pos on, left to right. */
  function FindAll(r: Re, s: string, pos: nat): (hits: seq<Span>)
    requires pos <= |s|
    ensures forall h :: h in hits ==> pos <= h.start < h.end <= |s| && Matches(r, s, h.start, h.end)
    ensures hits == [] ==> forall i: nat, j: nat :: pos <= i < j <= |s| ==> !Matches(r, s, i, j)
    decreases |s| - pos
  {
    if pos == |s| then []
    else
      var j := LongestEnd(r, s, pos, |s|);
      if j > pos then [Span(pos, j)] + FindAll(r, s, j) else FindAll(r, s, pos + 1)
  }

  /** The least k at or above lo such that cue matches s[i..k] and body matches from k; none is |s| + 1. */
  function CaptureStart(cue: Re, body: Re, s: string, i: nat, lo: nat): (k: nat)
    requires i <= lo <= |s| + 1
    ensures lo <= k <= |s| + 1
    ensures k <= |s| ==> Matches(cue, s, i, k) && LongestEnd(body, s, k, |s|) > k
    ensures forall m: nat :: lo <= m < k && m <= |s| && Matches(cue, s, i, m) ==> LongestEnd(body, s, m, |s|) == m
    decreases |s| + 1 - lo
  {
    if lo == |s| + 1 then lo
    else if Matches(cue, s, i, lo) && LongestEnd(body, s, lo, |s|) > lo then lo
    else CaptureStart(cue, body, s, i, lo + 1)
  }

  /** A match of cue ends at k. */
  ghost predicate Cued(cue: Re, s: string, k: nat) { exists i: nat :: i <= k <= |s| && Matches(cue, s, i, k) }

  /** `matchAll` of a pattern cue(body), reporting the captured group. */
  function FindCaptures(cue: Re, body: Re, s: string, pos: nat): (hits: seq<Span>)
    requires pos <= |s|
    ensures forall h :: h in hits ==> pos <= h.start < h.end <= |s| && Matches(body, s, h.start, h.end)
    decreases |s| - pos
  {
    if pos == |s| then []
    else
      var k := CaptureStart(cue, body, s, pos, pos);
      if k <= |s| then
        var j := LongestEnd(body, s, k, |s|);
        [Span(k, j)] + FindCaptures(cue, body, s, j)
      else FindCaptures(cue, body, s, pos + 1)
  }

  /** Every captured body comes right after a cue. */
  lemma {:induction false} CapturesAreCued(cue: Re, body: Re, s: string, pos: nat, h: Span)
    requires pos <= |s| && h in FindCaptures(cue, body, s, pos)
    ensures Cued(cue, s, h.start)
    decreases |s| - pos
  {
    var k := CaptureStart(cue, body, s, pos, pos);
    if k > |s| {
      CapturesAreCued(cue, body, s, pos + 1, h);
    } else if h.start != k {
      CapturesAreCued(cue, body, s, LongestEnd(body, s, k, |s|), h);
    }
  }

  /** The captures are empty exactly when no cue is followed by a body. */
  lemma {:induction false} CapturesFire(cue: Re, body: Re, s: string, pos: nat)
    requires pos <= |s| && SolidStart(body)
    ensures FindCaptures(cue, body, s, pos) != []
        <==> exists i: nat, j: nat :: pos <= i < j <= |s| && Matches(Cat(cue, body), s, i, j)
    decreases |s| - pos
  {
    if pos < |s| {
      var k := CaptureStart(cue, body, s, pos, pos);
      if k <= |s| {
        assert Matches(Cat(cue, body), s, pos, LongestEnd(body, s, k, |s|));
      } else {
        CapturesFire(cue, body, s, pos + 1);
        forall j: nat | pos < j <= |s| ensures !Matches(Cat(cue, body), s, pos, j) {
          if Matches(Cat(cue, body), s, pos, j) {
            var m := CatSplit(cue, body, s, pos, j);
            SolidStartSound(body, s, m, j);
            assert false;
          }
        }
      }
    }
  }
}
