/** Merging raw detections into canonical, non-overlapping spans. */
module Spans {
  import opened RedactionTypes

  // ---------- stable sorting ----------

  /** Sorted by start, and with byEnd the longer span first among equal starts. */
  predicate Leq(a: Detection, b: Detection, byEnd: bool) {
    a.start < b.start || (a.start == b.start && (byEnd ==> b.end <= a.end))
  }

  predicate Sorted(ds: seq<Detection>, byEnd: bool) {
    forall j, k :: 0 <= j < k < |ds| ==> Leq(ds[j], ds[k], byEnd)
  }

  /** Insert d after every element the comparator does not put behind it. */
  function Insert(ds: seq<Detection>, d: Detection, byEnd: bool): (r: seq<Detection>)
    ensures |r| == |ds| + 1
    ensures forall x :: x in r <==> x in ds || x == d
  {
    if ds == [] || Leq(ds[|ds| - 1], d, byEnd) then ds + [d]
    else
      assert ds == ds[..|ds| - 1] + [ds[|ds| - 1]];
      Insert(ds[..|ds| - 1], d, byEnd) + [ds[|ds| - 1]]
  }

  /** A stable sort, as `Array.prototype.sort` is. */
  function Sort(ds: seq<Detection>, byEnd: bool): (r: seq<Detection>)
    ensures |r| == |ds|
    ensures forall x :: x in r <==> x in ds
  {
    if ds == [] then []
    else
      assert ds == ds[..|ds| - 1] + [ds[|ds| - 1]];
      Insert(Sort(ds[..|ds| - 1], byEnd), ds[|ds| - 1], byEnd)
  }

  lemma {:induction false} InsertSorted(ds: seq<Detection>, d: Detection, byEnd: bool)
    requires Sorted(ds, byEnd)
    ensures Sorted(Insert(ds, d, byEnd), byEnd)
  {
    if ds != [] && !Leq(ds[|ds| - 1], d, byEnd) {
      var front, last := ds[..|ds| - 1], ds[|ds| - 1];
      InsertSorted(front, d, byEnd);
      var r := Insert(front, d, byEnd);
      forall k | 0 <= k < |r| ensures Leq(r[k], last, byEnd) {
        assert r[k] in r;
        if r[k] != d { var j :| 0 <= j < |front| && front[j] == r[k]; }
      }
    }
  }

  lemma {:induction false} InsertMultiset(ds: seq<Detection>, d: Detection, byEnd: bool)
    ensures multiset(Insert(ds, d, byEnd)) == multiset(ds) + multiset{d}
  {
    if ds != [] && !Leq(ds[|ds| - 1], d, byEnd) {
      assert ds == ds[..|ds| - 1] + [ds[|ds| - 1]];
      InsertMultiset(ds[..|ds| - 1], d, byEnd);
    }
  }

  lemma {:induction false} SortSorted(ds: seq<Detection>, byEnd: bool)
    ensures Sorted(Sort(ds, byEnd), byEnd)
    ensures multiset(Sort(ds, byEnd)) == multiset(ds)
  {
    if ds != [] {
      var front := ds[..|ds| - 1];
      assert ds == front + [ds[|ds| - 1]];
      SortSorted(front, byEnd);
      InsertSorted(Sort(front, byEnd), ds[|ds| - 1], byEnd);
      InsertMultiset(Sort(front, byEnd), ds[|ds| - 1], byEnd);
    }
  }

  lemma {:induction false} SortOfSorted(ds: seq<Detection>, byEnd: bool)
    requires Sorted(ds, byEnd)
    ensures Sort(ds, byEnd) == ds
  {
    if ds != [] {
      var front := ds[..|ds| - 1];
      SortOfSorted(front, byEnd);
      InsertLast(front, ds[|ds| - 1], byEnd);
      assert ds == front + [ds[|ds| - 1]];
    }
  }

  lemma {:induction false} InsertLast(ds: seq<Detection>, d: Detection, byEnd: bool)
    requires ds != [] ==> Leq(ds[|ds| - 1], d, byEnd)
    ensures Insert(ds, d, byEnd) == ds + [d]
  {}

  // ---------- merging ----------

  function Priority(l: Layer): nat {
    match l case DenyTerm => 3 case Regex => 2 case Ner => 1
  }

  function MinConfidence(a: Detection, b: Detection): Confidence {
    if a.confidence.Unscored? then b.confidence
    else if b.confidence.Unscored? then a.confidence
    else if a.confidence.value <= b.confidence.value then a.confidence else b.confidence
  }

  function MergeInto(target: Detection, source: Detection): Detection {
    var takeSource :=
      || Priority(source.detector) > Priority(target.detector)
      || (Priority(source.detector) == Priority(target.detector)
          && source.end - source.start > target.end - target.start);
    var winner := if takeSource then source else target;
    Detection(if target.start <= source.start then target.start else source.start,
              if target.end >= source.end then target.end else source.end,
              winner.entityType, winner.detector, MinConfidence(target, source))
  }

  datatype Merged = Merged(spans: seq<Detection>, disagreement: bool)

  predicate Joins(last: Detection, next: Detection) {
    next.start < last.end || (next.start == last.end && next.entityType == last.entityType)
  }

  function MergeStep(m: Merged, next: Detection): Merged {
    if m.spans != [] && Joins(m.spans[|m.spans| - 1], next) then
      var last := m.spans[|m.spans| - 1];
      Merged(m.spans[..|m.spans| - 1] + [MergeInto(last, next)], m.disagreement || next.entityType != last.entityType)
    else
      Merged(m.spans + [next], m.disagreement)
  }

  function MergeAll(ds: seq<Detection>): Merged {
    if ds == [] then Merged([], false) else MergeStep(MergeAll(ds[..|ds| - 1]), ds[|ds| - 1])
  }

  function Merge(ds: seq<Detection>): Merged { MergeAll(Sort(ds, true)) }

  method MergeDetections(detections: seq<Detection>) returns (spans: seq<Detection>, disagreement: bool)
    ensures Merged(spans, disagreement) == Merge(detections)
  {
    var sorted := Sort(detections, true);
    spans, disagreement := [], false;
    for i := 0 to |sorted|
      invariant Merged(spans, disagreement) == MergeAll(sorted[..i])
    {
      assert sorted[..i + 1][..i] == sorted[..i];
      var next := sorted[i];
      if |spans| > 0 && Joins(spans[|spans| - 1], next) {
        var last := spans[|spans| - 1];
        if next.entityType != last.entityType { disagreement := true; }
        spans := spans[..|spans| - 1] + [MergeInto(last, next)];
      } else {
        spans := spans + [next];
      }
    }
    assert sorted[..|sorted|] == sorted;
  }

  // ---------- what a merge means ----------

  predicate Within(d: Detection, s: Detection) { s.start <= d.start && d.end <= s.end }

  /** The span's label, extent and confidence are those of the inputs inside it. */
  ghost predicate Summarizes(s: Detection, ds: seq<Detection>) {
    && (forall i :: s.Covers(i) ==> Covered(ds, i))
    && (exists k :: 0 <= k < |ds| && Within(ds[k], s) && ds[k].entityType == s.entityType && ds[k].detector == s.detector)
    && (exists k :: 0 <= k < |ds| && Within(ds[k], s) && ds[k].confidence == s.confidence)
    && (forall k :: 0 <= k < |ds| && Within(ds[k], s) ==>
          && Priority(ds[k].detector) <= Priority(s.detector)
          && (ds[k].confidence.Score? ==> s.confidence.Score? && s.confidence.value <= ds[k].confidence.value))
  }

  /** Two inputs of different types share a character. */
  ghost predicate Conflict(ds: seq<Detection>) {
    exists a, b, i :: 0 <= a < |ds| && 0 <= b < |ds| && ds[a].entityType != ds[b].entityType
                   && ds[a].Covers(i) && ds[b].Covers(i)
  }

  /** Every input lies inside the span numbered home[k]. */
  ghost predicate Homes(home: seq<int>, ds: seq<Detection>, spans: seq<Detection>) {
    |home| == |ds| && forall k {:trigger home[k]} :: 0 <= k < |ds| ==> 0 <= home[k] < |spans| && Within(ds[k], spans[home[k]])
  }

  /** The spans are ordered and hold every input. */
  ghost predicate Holds(spans: seq<Detection>, ds: seq<Detection>, home: seq<int>, n: nat) {
    && InRange(spans, n) && Ordered(spans) && Homes(home, ds, spans)
    && (spans != [] ==> ds != [] && spans[|spans| - 1].start <= ds[|ds| - 1].start)
  }

  ghost predicate AllSummarize(spans: seq<Detection>, ds: seq<Detection>) {
    forall j {:trigger Summarizes(spans[j], ds)} :: 0 <= j < |spans| ==> Summarizes(spans[j], ds)
  }

  /** Every input has the type of the span it lies in. */
  ghost predicate Agrees(spans: seq<Detection>, ds: seq<Detection>, home: seq<int>)
    requires Homes(home, ds, spans)
  {
    forall k {:trigger home[k]} :: 0 <= k < |ds| ==> ds[k].entityType == spans[home[k]].entityType
  }

  ghost predicate MergeOk(m: Merged, ds: seq<Detection>, home: seq<int>, n: nat) {
    && Holds(m.spans, ds, home, n)
    && AllSummarize(m.spans, ds)
    && (m.disagreement <==> Conflict(ds))
    && (!m.disagreement ==> Agrees(m.spans, ds, home))
  }

  lemma {:induction false} SummarizeNew(ds: seq<Detection>, next: Detection)
    requires next.start < next.end
    requires forall k :: 0 <= k < |ds| ==> ds[k].start < ds[k].end <= next.start || !Within(ds[k], next)
    ensures Summarizes(next, ds + [next])
  {
    var p := ds + [next];
    assert p[|ds|] == next && Within(p[|ds|], next);
    forall i | next.Covers(i) ensures Covered(p, i) { assert p[|ds|].Covers(i); }
  }

  lemma {:induction false} CoveredGrows(ds: seq<Detection>, next: Detection, i: int)
    requires Covered(ds, i)
    ensures Covered(ds + [next], i)
  {
    var k :| 0 <= k < |ds| && ds[k].Covers(i);
    assert (ds + [next])[k].Covers(i);
  }

  /** A span none of the later inputs touches keeps its summary. */
  lemma {:induction false} SummaryKept(s: Detection, ds: seq<Detection>, next: Detection)
    requires Summarizes(s, ds) && !Within(next, s)
    ensures Summarizes(s, ds + [next])
  {
    var p := ds + [next];
    var k :| 0 <= k < |ds| && Within(ds[k], s) && ds[k].entityType == s.entityType && ds[k].detector == s.detector;
    var c :| 0 <= c < |ds| && Within(ds[c], s) && ds[c].confidence == s.confidence;
    assert p[k] == ds[k] && p[c] == ds[c];
    forall i | s.Covers(i) ensures Covered(p, i) { CoveredGrows(ds, next, i); }
  }

  /** Absorbing an overlapping or touching input keeps the summary. */
  lemma {:induction false} SummaryMerged(last: Detection, ds: seq<Detection>, next: Detection)
    requires Summarizes(last, ds) && last.start <= next.start <= last.end && next.start < next.end
    requires forall k :: 0 <= k < |ds| && Within(ds[k], MergeInto(last, next)) ==> Within(ds[k], last)
    ensures Summarizes(MergeInto(last, next), ds + [next])
  {
    var p, s := ds + [next], MergeInto(last, next);
    assert p[|ds|] == next && Within(next, s);
    var k :| 0 <= k < |ds| && Within(ds[k], last) && ds[k].entityType == last.entityType && ds[k].detector == last.detector;
    var c :| 0 <= c < |ds| && Within(ds[c], last) && ds[c].confidence == last.confidence;
    assert p[k] == ds[k] && p[c] == ds[c] && Within(p[k], s) && Within(p[c], s);
    forall i | s.Covers(i) ensures Covered(p, i) {
      if last.Covers(i) { CoveredGrows(ds, next, i); } else { assert p[|ds|].Covers(i); }
    }
  }

  lemma {:induction false} ConflictGrows(ds: seq<Detection>, next: Detection)
    requires Conflict(ds)
    ensures Conflict(ds + [next])
  {
    var a, b, i :| 0 <= a < |ds| && 0 <= b < |ds| && ds[a].entityType != ds[b].entityType && ds[a].Covers(i) && ds[b].Covers(i);
    var p := ds + [next];
    assert p[a] == ds[a] && p[b] == ds[b];
  }

  /** When every input agrees with its span, there is no conflict. */
  lemma {:induction false} AgreementMeansNoConflict(spans: seq<Detection>, ds: seq<Detection>, home: seq<int>)
    requires Ordered(spans) && Homes(home, ds, spans) && Agrees(spans, ds, home)
    ensures !Conflict(ds)
  {
    forall a, b, i | 0 <= a < |ds| && 0 <= b < |ds| && ds[a].Covers(i) && ds[b].Covers(i)
      ensures ds[a].entityType == ds[b].entityType
    {
      assert spans[home[a]].Covers(i) && spans[home[b]].Covers(i);
      assert home[a] == home[b];
    }
  }

  lemma {:induction false} PushHolds(spans: seq<Detection>, ds: seq<Detection>, home: seq<int>, next: Detection, n: nat)
    requires Holds(spans, ds, home, n) && next.start < next.end <= n
    requires spans == [] || spans[|spans| - 1].end <= next.start
    ensures Holds(spans + [next], ds + [next], home + [|spans|], n)
    ensures forall k :: 0 <= k < |ds| ==> ds[k].end <= next.start
  {
    forall j | 0 <= j < |spans| ensures spans[j].end <= next.start {
      if j < |spans| - 1 { assert spans[j].end <= spans[|spans| - 1].start; }
    }
    forall k | 0 <= k < |ds| ensures ds[k].end <= next.start { assert 0 <= home[k] < |spans|; }
  }

  lemma {:induction false} PushSummaries(spans: seq<Detection>, ds: seq<Detection>, next: Detection)
    requires AllSummarize(spans, ds) && next.start < next.end
    requires forall j :: 0 <= j < |spans| ==> spans[j].end <= next.start
    requires forall k :: 0 <= k < |ds| ==> ds[k].start < ds[k].end <= next.start
    ensures AllSummarize(spans + [next], ds + [next])
  {
    SummarizeNew(ds, next);
    forall j | 0 <= j < |spans| ensures Summarizes(spans[j], ds + [next]) { SummaryKept(spans[j], ds, next); }
  }

  lemma {:induction false} PushOk(m: Merged, ds: seq<Detection>, home: seq<int>, next: Detection, n: nat)
    requires MergeOk(m, ds, home, n) && InRange(ds, n) && next.start < next.end <= n
    requires m.spans == [] || m.spans[|m.spans| - 1].end <= next.start
    ensures MergeOk(Merged(m.spans + [next], m.disagreement), ds + [next], home + [|m.spans|], n)
  {
    PushHolds(m.spans, ds, home, next, n);
    PushSummaries(m.spans, ds, next);
    if m.disagreement {
      ConflictGrows(ds, next);
    } else {
      AgreementMeansNoConflict(m.spans + [next], ds + [next], home + [|m.spans|]);
    }
  }

  lemma {:induction false} JoinHolds(spans: seq<Detection>, ds: seq<Detection>, home: seq<int>, next: Detection, n: nat)
    requires Holds(spans, ds, home, n) && InRange(ds, n) && next.start < next.end <= n && spans != []
    requires spans[|spans| - 1].start <= next.start
    ensures var z := |spans| - 1; var last := spans[z];
            && Holds(spans[..z] + [MergeInto(last, next)], ds + [next], home + [z], n)
            && (forall j :: 0 <= j < z ==> spans[j].end <= last.start)
            && (forall k :: 0 <= k < |ds| && home[k] < z ==> ds[k].start < last.start)
  {
    var z := |spans| - 1;
    assert forall k :: 0 <= k < |ds| && home[k] < z ==> spans[home[k]].end <= spans[z].start;
  }

  lemma {:induction false} JoinSummaries(spans: seq<Detection>, ds: seq<Detection>, home: seq<int>, next: Detection)
    requires spans != [] && AllSummarize(spans, ds) && Homes(home, ds, spans)
    requires var z := |spans| - 1; var last := spans[z];
             && last.start <= next.start <= last.end && next.start < next.end
             && (forall j :: 0 <= j < z ==> spans[j].end <= last.start)
             && (forall k :: 0 <= k < |ds| && home[k] < z ==> ds[k].start < last.start)
    ensures var z := |spans| - 1; AllSummarize(spans[..z] + [MergeInto(spans[z], next)], ds + [next])
  {
    var z := |spans| - 1;
    SummaryMerged(spans[z], ds, next);
    forall j | 0 <= j < z ensures Summarizes(spans[j], ds + [next]) { SummaryKept(spans[j], ds, next); }
  }

  /** An input of another type that overlaps the last span conflicts with one of its members. */
  lemma {:induction false} OverlapConflicts(spans: seq<Detection>, ds: seq<Detection>, home: seq<int>, next: Detection)
    requires spans != [] && Ordered(spans) && Homes(home, ds, spans) && Agrees(spans, ds, home)
    requires Summarizes(spans[|spans| - 1], ds) && next.entityType != spans[|spans| - 1].entityType
    requires spans[|spans| - 1].Covers(next.start) && next.start < next.end
    ensures Conflict(ds + [next])
  {
    var k :| 0 <= k < |ds| && ds[k].Covers(next.start);
    assert spans[home[k]].Covers(next.start);
    assert home[k] == |spans| - 1;
    var p := ds + [next];
    assert p[k] == ds[k] && p[|ds|] == next && p[|ds|].Covers(next.start);
  }

  lemma {:induction false} JoinAgrees(spans: seq<Detection>, ds: seq<Detection>, home: seq<int>, next: Detection)
    requires spans != [] && Homes(home, ds, spans) && Agrees(spans, ds, home) && next.entityType == spans[|spans| - 1].entityType
    requires var z := |spans| - 1; Homes(home + [z], ds + [next], spans[..z] + [MergeInto(spans[z], next)])
    ensures var z := |spans| - 1; Agrees(spans[..z] + [MergeInto(spans[z], next)], ds + [next], home + [z])
  {
    var z := |spans| - 1;
    var spans' := spans[..z] + [MergeInto(spans[z], next)];
    assert forall j :: 0 <= j < |spans| ==> spans'[j].entityType == spans[j].entityType;
  }

  /** Joining raises disagreement exactly when a conflict arises. */
  lemma {:induction false} JoinDisagreement(m: Merged, ds: seq<Detection>, home: seq<int>, next: Detection, n: nat)
    requires MergeOk(m, ds, home, n) && next.start < next.end && m.spans != [] && m.spans[|m.spans| - 1].start <= next.start
    requires Joins(m.spans[|m.spans| - 1], next) && Homes(home + [|m.spans| - 1], ds + [next], MergeStep(m, next).spans)
    requires Ordered(MergeStep(m, next).spans)
    ensures MergeStep(m, next).disagreement <==> Conflict(ds + [next])
    ensures !MergeStep(m, next).disagreement ==> Agrees(MergeStep(m, next).spans, ds + [next], home + [|m.spans| - 1])
  {
    if m.disagreement {
      ConflictGrows(ds, next);
    } else if next.entityType != m.spans[|m.spans| - 1].entityType {
      OverlapConflicts(m.spans, ds, home, next);
    } else {
      JoinAgrees(m.spans, ds, home, next);
      AgreementMeansNoConflict(MergeStep(m, next).spans, ds + [next], home + [|m.spans| - 1]);
    }
  }

  lemma {:induction false} JoinOk(m: Merged, ds: seq<Detection>, home: seq<int>, next: Detection, n: nat)
    requires MergeOk(m, ds, home, n) && InRange(ds, n) && next.start < next.end <= n && m.spans != []
    requires m.spans[|m.spans| - 1].start <= next.start && Joins(m.spans[|m.spans| - 1], next)
    ensures MergeOk(MergeStep(m, next), ds + [next], home + [|m.spans| - 1], n)
  {
    JoinHolds(m.spans, ds, home, next, n);
    JoinSummaries(m.spans, ds, home, next);
    JoinDisagreement(m, ds, home, next, n);
  }

  lemma {:induction false} MergeAllOk(ds: seq<Detection>, n: nat) returns (home: seq<int>)
    requires Sorted(ds, true) && InRange(ds, n)
    ensures MergeOk(MergeAll(ds), ds, home, n)
  {
    if ds == [] {
      home := [];
    } else {
      var front, next := ds[..|ds| - 1], ds[|ds| - 1];
      assert ds == front + [next];
      home := MergeAllOk(front, n);
      home := MergeStepOk(MergeAll(front), front, home, next, n);
    }
  }

  lemma {:induction false} MergeStepOk(m: Merged, ds: seq<Detection>, home: seq<int>, next: Detection, n: nat) returns (home': seq<int>)
    requires MergeOk(m, ds, home, n) && InRange(ds, n) && next.start < next.end <= n
    requires ds != [] ==> ds[|ds| - 1].start <= next.start
    ensures MergeOk(MergeStep(m, next), ds + [next], home', n)
  {
    if m.spans != [] && Joins(m.spans[|m.spans| - 1], next) {
      JoinOk(m, ds, home, next, n);
      home' := home + [|m.spans| - 1];
    } else {
      PushOk(m, ds, home, next, n);
      home' := home + [|m.spans|];
    }
  }

  /** Merging: the output is ordered, covers exactly the input characters, each span carries the highest
      priority and the lowest confidence of the inputs inside it, every input lies inside some span,
      and disagreement is raised exactly when two inputs of different types share a character. */
  lemma {:induction false} MergeCorrect(ds: seq<Detection>, n: nat)
    requires InRange(ds, n)
    ensures var m := Merge(ds);
            && InRange(m.spans, n) && Ordered(m.spans)
            && (forall i :: Covered(m.spans, i) <==> Covered(ds, i))
            && (forall d :: d in ds ==> exists j :: 0 <= j < |m.spans| && Within(d, m.spans[j]))
            && AllSummarize(m.spans, ds)
            && (m.disagreement <==> Conflict(ds))
  {
    SortSorted(ds, true);
    var sorted := Sort(ds, true);
    assert InRange(sorted, n) by {
      forall k | 0 <= k < |sorted| ensures sorted[k].start < sorted[k].end <= n { assert sorted[k] in ds; }
    }
    var home := MergeAllOk(sorted, n);
    var m := Merge(ds);
    forall d | d in ds ensures exists j :: 0 <= j < |m.spans| && Within(d, m.spans[j]) {
      assert d in sorted;
      var k :| 0 <= k < |sorted| && sorted[k] == d;
      assert Within(d, m.spans[home[k]]);
    }
    SameMembers(sorted, ds);
    forall i ensures Covered(m.spans, i) <==> Covered(ds, i) {
      if Covered(m.spans, i) {
        var j :| 0 <= j < |m.spans| && m.spans[j].Covers(i);
        assert Summarizes(m.spans[j], sorted) && Covered(sorted, i);
      }
      if Covered(ds, i) {
        var k :| 0 <= k < |sorted| && sorted[k].Covers(i);
        assert m.spans[home[k]].Covers(i);
      }
    }
    forall j | 0 <= j < |m.spans| ensures Summarizes(m.spans[j], ds) { SummaryOfMembers(m.spans[j], sorted, ds); }
  }

  ghost predicate SameElements(a: seq<Detection>, b: seq<Detection>) { forall x :: x in a <==> x in b }

  lemma {:induction false} SameMembers(a: seq<Detection>, b: seq<Detection>)
    requires SameElements(a, b)
    ensures forall i :: Covered(a, i) <==> Covered(b, i)
    ensures Conflict(a) <==> Conflict(b)
  {
    forall i ensures Covered(a, i) <==> Covered(b, i) {
      if Covered(a, i) { var k :| 0 <= k < |a| && a[k].Covers(i); assert a[k] in b; }
      if Covered(b, i) { var k :| 0 <= k < |b| && b[k].Covers(i); assert b[k] in a; }
    }
    if Conflict(a) { ConflictMoves(a, b); }
    if Conflict(b) { ConflictMoves(b, a); }
  }

  lemma {:induction false} ConflictMoves(a: seq<Detection>, b: seq<Detection>)
    requires SameElements(a, b) && Conflict(a)
    ensures Conflict(b)
  {
    var x, y, i :| 0 <= x < |a| && 0 <= y < |a| && a[x].entityType != a[y].entityType && a[x].Covers(i) && a[y].Covers(i);
    assert a[x] in b && a[y] in b;
    var x' :| 0 <= x' < |b| && b[x'] == a[x];
    var y' :| 0 <= y' < |b| && b[y'] == a[y];
  }

  lemma {:induction false} SummaryOfMembers(s: Detection, a: seq<Detection>, b: seq<Detection>)
    requires SameElements(a, b) && Summarizes(s, a)
    ensures Summarizes(s, b)
  {
    SameMembers(a, b);
    var k :| 0 <= k < |a| && Within(a[k], s) && a[k].entityType == s.entityType && a[k].detector == s.detector;
    var c :| 0 <= c < |a| && Within(a[c], s) && a[c].confidence == s.confidence;
    assert a[k] in b && a[c] in b;
    forall j | 0 <= j < |b| && Within(b[j], s)
      ensures Priority(b[j].detector) <= Priority(s.detector)
      ensures b[j].confidence.Score? ==> s.confidence.Score? && s.confidence.value <= b[j].confidence.value
    {
      assert b[j] in a;
    }
  }

  // ---------- dedupe and number suppression (the pooled regex detector) ----------

  function DedupeSorted(ds: seq<Detection>): seq<Detection> {
    if ds == [] then []
    else
      var out, d := DedupeSorted(ds[..|ds| - 1]), ds[|ds| - 1];
      if out != [] && Within(d, out[|out| - 1]) then out else out + [d]
  }

  method Dedupe(detections: seq<Detection>) returns (out: seq<Detection>)
    ensures out == DedupeSorted(Sort(detections, true))
  {
    var sorted := Sort(detections, true);
    out := [];
    for i := 0 to |sorted|
      invariant out == DedupeSorted(sorted[..i])
    {
      assert sorted[..i + 1][..i] == sorted[..i];
      if |out| > 0 && sorted[i].start >= out[|out| - 1].start && sorted[i].end <= out[|out| - 1].end { continue; }
      out := out + [sorted[i]];
    }
    assert sorted[..|sorted|] == sorted;
  }

  /** Dropping contained spans drops no character, and keeps only inputs. */
  lemma {:induction false} DedupeCovers(ds: seq<Detection>)
    ensures forall i :: Covered(DedupeSorted(ds), i) <==> Covered(ds, i)
    ensures forall d :: d in DedupeSorted(ds) ==> d in ds
  {
    if ds != [] {
      var front, d := ds[..|ds| - 1], ds[|ds| - 1];
      assert ds == front + [d];
      DedupeCovers(front);
      var out := DedupeSorted(front);
      forall i ensures Covered(DedupeSorted(ds), i) <==> Covered(ds, i) {
        CoveredAppend(front, d, i);
        CoveredAppend(out, d, i);
        if out != [] && Within(d, out[|out| - 1]) && d.Covers(i) { assert out[|out| - 1].Covers(i); }
      }
    }
  }

  /** Of detections sorted by start and then by descending end, the last kept one reaches furthest. */
  lemma {:induction false} LastReachesFurthest(ds: seq<Detection>)
    requires Sorted(ds, true) && ds != []
    ensures DedupeSorted(ds) != [] && forall k :: 0 <= k < |ds| ==> ds[k].end <= DedupeSorted(ds)[|DedupeSorted(ds)| - 1].end
  {
    if |ds| > 1 { LastReachesFurthest(ds[..|ds| - 1]); }
  }

  /** A detection is dropped exactly when one before it contains it. */
  lemma {:induction false} DedupeIff(ds: seq<Detection>, d: Detection)
    requires Sorted(ds, true)
    ensures d in DedupeSorted(ds) <==> KeptIn(ds, d)
  {
    if ds != [] {
      var n := |ds| - 1;
      DedupeIff(ds[..n], d);
      DedupeStep(ds, d);
      KeptStep(ds, d);
    }
  }

  ghost predicate KeptIn(ds: seq<Detection>, d: Detection) { exists k :: 0 <= k < |ds| && ds[k] == d && Outermost(ds, k) }

  lemma {:induction false} KeptStep(ds: seq<Detection>, d: Detection)
    requires ds != []
    ensures KeptIn(ds, d) <==> KeptIn(ds[..|ds| - 1], d) || (d == ds[|ds| - 1] && Outermost(ds, |ds| - 1))
  {
    var n := |ds| - 1;
    assert forall k :: 0 <= k < n ==> (Outermost(ds[..n], k) <==> Outermost(ds, k)) && ds[..n][k] == ds[k];
    if k :| 0 <= k < n && ds[..n][k] == d && Outermost(ds[..n], k) { assert ds[k] == d && Outermost(ds, k); }
    if k :| 0 <= k < |ds| && ds[k] == d && Outermost(ds, k) { if k < n { assert ds[..n][k] == d && Outermost(ds[..n], k); } }
  }

  lemma {:induction false} DedupeStep(ds: seq<Detection>, d: Detection)
    requires ds != [] && Sorted(ds, true)
    ensures d in DedupeSorted(ds) <==> d in DedupeSorted(ds[..|ds| - 1]) || (d == ds[|ds| - 1] && Outermost(ds, |ds| - 1))
  {
    var n := |ds| - 1;
    if n > 0 {
      DedupeCovers(ds[..n]);
      LastReachesFurthest(ds[..n]);
      DropIff(ds, DedupeSorted(ds[..n]));
    }
  }

  ghost predicate Outermost(ds: seq<Detection>, k: int) { 0 <= k < |ds| && forall j :: 0 <= j < k ==> !Within(ds[k], ds[j]) }

  lemma {:induction false} DropIff(ds: seq<Detection>, out: seq<Detection>)
    requires |ds| > 1 && Sorted(ds, true) && out != [] && (forall d :: d in out ==> d in ds[..|ds| - 1])
    requires forall k :: 0 <= k < |ds| - 1 ==> ds[k].end <= out[|out| - 1].end
    ensures Within(ds[|ds| - 1], out[|out| - 1]) <==> !Outermost(ds, |ds| - 1)
  {
    var n, last := |ds| - 1, out[|out| - 1];
    assert last in out;
    assert last in ds[..n];
    var j :| 0 <= j < n && ds[j] == last;
    assert Leq(ds[j], ds[n], true);
  }

  /** A number is dropped exactly when a specific detection contains it. */
  lemma {:induction false} SuppressIff(numbers: seq<Detection>, specific: seq<Detection>, d: Detection)
    ensures d in Suppress(numbers, specific) <==> d in numbers && !exists c :: c in specific && Within(d, c)
  {
    if numbers != [] {
      SuppressIff(numbers[1..], specific, d);
      assert numbers == [numbers[0]] + numbers[1..];
    }
  }

  /** Two detections are merged exactly when they overlap, or touch and have the same type; the merged one covers both,
      and has the type of the one with higher priority, of two alike the longer, of two as long the first. */
  lemma {:induction false} PairMerges(a: Detection, b: Detection)
    requires a.start < a.end && b.start < b.end && Leq(a, b, true)
    ensures var spans := Merge([a, b]).spans;
      if b.start < a.end || (b.start == a.end && a.entityType == b.entityType)
      then |spans| == 1 && spans[0].start == a.start && spans[0].end == (if a.end < b.end then b.end else a.end)
           && spans[0].entityType == (if Prevails(b, a) then b else a).entityType && spans[0].detector == (if Prevails(b, a) then b else a).detector
      else spans == [a, b]
  {
    assert Sorted([a, b], true);
    SortOfSorted([a, b], true);
    assert [a, b][..1] == [a] && [a][..0] == [];
    assert MergeAll([a]) == MergeStep(MergeAll([]), a);
    assert MergeAll([a]).spans == [a];
    assert MergeAll([a, b]) == MergeStep(MergeAll([a]), b);
  }

  ghost predicate Prevails(b: Detection, a: Detection) {
    match (b.detector, a.detector)
    case (DenyTerm, Regex) => true
    case (DenyTerm, Ner) => true
    case (Regex, Ner) => true
    case (x, y) => x == y && b.end - b.start > a.end - a.start
  }

  lemma {:induction false} CoveredAppend(ds: seq<Detection>, d: Detection, i: int)
    ensures Covered(ds + [d], i) <==> Covered(ds, i) || d.Covers(i)
  {
    var p := ds + [d];
    if Covered(ds, i) { CoveredGrows(ds, d, i); }
    if d.Covers(i) { assert p[|ds|].Covers(i); }
    if Covered(p, i) { var k :| 0 <= k < |p| && p[k].Covers(i); if k < |ds| { assert ds[k].Covers(i); } }
  }

  /** Drop the number spans that lie inside a more specific detection. */
  function Suppress(numbers: seq<Detection>, specific: seq<Detection>): seq<Detection> {
    if numbers == [] then []
    else (if exists c :: c in specific && Within(numbers[0], c) then [] else [numbers[0]]) + Suppress(numbers[1..], specific)
  }

  /** Suppressing numbers a more specific detection covers leaves no flagged character uncovered. */
  lemma {:induction false} SuppressCovers(numbers: seq<Detection>, specific: seq<Detection>, i: int)
    requires Covered(numbers, i)
    ensures Covered(specific, i) || Covered(Suppress(numbers, specific), i)
  {
    var k :| 0 <= k < |numbers| && numbers[k].Covers(i);
    var head, rest := numbers[0], Suppress(numbers[1..], specific);
    if k == 0 {
      if exists c :: c in specific && Within(head, c) {
        var c :| c in specific && Within(head, c);
        var j :| 0 <= j < |specific| && specific[j] == c;
        assert specific[j].Covers(i);
      } else {
        assert Suppress(numbers, specific)[0].Covers(i);
      }
    } else {
      assert numbers[1..][k - 1].Covers(i);
      SuppressCovers(numbers[1..], specific, i);
      if Covered(rest, i) {
        var j :| 0 <= j < |rest| && rest[j].Covers(i);
        var all := Suppress(numbers, specific);
        assert all == rest || all == [head] + rest;
        assert all[if all == rest then j else j + 1].Covers(i);
      }
    }
  }

  lemma {:induction false} SuppressKeeps(numbers: seq<Detection>, specific: seq<Detection>)
    ensures forall d :: d in Suppress(numbers, specific) ==> d in numbers
  {
    if numbers != [] { SuppressKeeps(numbers[1..], specific); }
  }

  lemma {:induction false} MembersCover(a: seq<Detection>, b: seq<Detection>, i: int)
    requires Covered(a, i) && forall d :: d in a ==> d in b
    ensures Covered(b, i)
  {
    var k :| 0 <= k < |a| && a[k].Covers(i);
    assert a[k] in b;
    var j :| 0 <= j < |b| && b[j] == a[k];
    assert b[j].Covers(i);
  }

  lemma {:induction false} CoveredSum(a: seq<Detection>, b: seq<Detection>, i: int)
    ensures Covered(a + b, i) <==> Covered(a, i) || Covered(b, i)
  {
    if Covered(a, i) { MembersCover(a, a + b, i); }
    if Covered(b, i) { MembersCover(b, a + b, i); }
    if Covered(a + b, i) {
      var k :| 0 <= k < |a + b| && (a + b)[k].Covers(i);
      if k < |a| { assert a[k].Covers(i); } else { assert b[k - |a|].Covers(i); }
    }
  }

  /** The pooled pattern detector: number spans inside a specific detection dropped, the rest sorted and deduplicated. */
  function Pooled(specific: seq<Detection>, others: seq<Detection>, numbers: seq<Detection>): seq<Detection> {
    DedupeSorted(Sort(specific + others + Suppress(numbers, specific), true))
  }

  lemma {:induction false} PooledKeeps(specific: seq<Detection>, others: seq<Detection>, numbers: seq<Detection>)
    ensures forall d :: d in Pooled(specific, others, numbers) ==> d in specific + others + numbers
  {
    var all := specific + others + Suppress(numbers, specific);
    SortSorted(all, true);
    SameMembers(Sort(all, true), all);
    DedupeCovers(Sort(all, true));
    SuppressKeeps(numbers, specific);
  }

  lemma {:induction false} PooledCovers(specific: seq<Detection>, others: seq<Detection>, numbers: seq<Detection>, i: int)
    ensures Covered(Pooled(specific, others, numbers), i) <==> Covered(specific + others + numbers, i)
  {
    var left := Suppress(numbers, specific);
    var all := specific + others + left;
    SortSorted(all, true);
    SameMembers(Sort(all, true), all);
    DedupeCovers(Sort(all, true));
    if Covered(all, i) { MembersCover(all, Sort(all, true), i); }
    if Covered(Sort(all, true), i) { MembersCover(Sort(all, true), all, i); }
    CoveredSum(specific + others, left, i);
    CoveredSum(specific + others, numbers, i);
    CoveredSum(specific, others, i);
    if Covered(numbers, i) { SuppressCovers(numbers, specific, i); }
    SuppressKeeps(numbers, specific);
    if Covered(left, i) { MembersCover(left, numbers, i); }
  }

  /** Suppression, sorting, deduplication and the merge with the other layers together cover exactly the characters
      that some layer flagged. */
  lemma {:induction false} LayersCovered(specific: seq<Detection>, others: seq<Detection>, numbers: seq<Detection>, layers: seq<Detection>, n: nat)
    requires InRange(specific + others + numbers, n) && InRange(layers, n)
    ensures var ds := Pooled(specific, others, numbers) + layers;
            InRange(ds, n) && forall i :: Covered(Merge(ds).spans, i) <==> Covered(specific + others + numbers, i) || Covered(layers, i)
  {
    var pool, flagged := Pooled(specific, others, numbers), specific + others + numbers;
    PooledKeeps(specific, others, numbers);
    forall k | 0 <= k < |pool| ensures pool[k].start < pool[k].end <= n {
      assert pool[k] in flagged;
    }
    MergeCorrect(pool + layers, n);
    forall i ensures Covered(Merge(pool + layers).spans, i) <==> Covered(flagged, i) || Covered(layers, i) {
      CoveredSum(pool, layers, i);
      PooledCovers(specific, others, numbers, i);
    }
  }
}
