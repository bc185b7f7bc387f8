/** Chunking a text for the token classifier, and aligning its wordpieces back to character offsets. */
module NerAlignment {
  import opened Chars
  import opened RedactionTypes
  import opened TextRuns

  // ---------- chunks ----------

  /** Every start but the last is one step before the next; only the last chunk reaches the end. */
  ghost predicate Chunked(starts: seq<nat>, length: nat, chunk: nat, step: nat) {
    && |starts| > 0 && starts[0] == 0
    && (forall i {:trigger starts[i]} :: 0 <= i < |starts| - 1 ==> starts[i + 1] == starts[i] + step && starts[i] + chunk < length)
  }

  method ChunkStarts(length: nat, chunk: nat, overlap: nat) returns (starts: seq<nat>)
    ensures Chunked(starts, length, chunk, if chunk > overlap then chunk - overlap else 1)
    ensures chunk > overlap ==> starts[|starts| - 1] + chunk >= length
  {
    var step := if chunk > overlap then chunk - overlap else 1;
    var s := 0;
    starts := [];
    while s == 0 || s < length
      invariant starts == [] <==> s == 0
      invariant starts != [] ==> Chunked(starts, length, chunk, step) && s == starts[|starts| - 1] + step && s < length + step && starts[|starts| - 1] + chunk < length
      decreases length + step - s
    {
      starts := starts + [s];
      if s + chunk >= length { break; }
      s := s + step;
    }
  }

  /** [a, b) lies inside one chunk. */
  ghost predicate InOneChunk(starts: seq<nat>, chunk: nat, a: nat, b: nat) {
    exists i :: 0 <= i < |starts| && starts[i] <= a && b <= starts[i] + chunk
  }

  lemma {:induction false} ShortIntervalFits(starts: seq<nat>, length: nat, chunk: nat, overlap: nat, a: nat, b: nat, i: nat)
    requires chunk > overlap && Chunked(starts, length, chunk, chunk - overlap) && starts[|starts| - 1] + chunk >= length
    requires a <= b <= length && b - a <= overlap + 1 && i < |starts| && starts[i] <= a
    ensures InOneChunk(starts, chunk, a, b)
    decreases |starts| - i
  {
    if i + 1 < |starts| && starts[i + 1] <= a { ShortIntervalFits(starts, length, chunk, overlap, a, b, i + 1); }
  }

  lemma {:induction false} StartsGrow(starts: seq<nat>, length: nat, chunk: nat, step: nat, i: nat, j: nat)
    requires Chunked(starts, length, chunk, step) && i <= j < |starts|
    ensures starts[i] <= starts[j]
  {
    if i < j { StartsGrow(starts, length, chunk, step, i, j - 1); assert starts[j - 1 + 1] == starts[j - 1] + step; }
  }

  /** Once there are two chunks, every stretch of `width` characters lies inside one chunk exactly when it is at most
      one character longer than the overlap. */
  lemma {:induction false} OverlapIff(starts: seq<nat>, length: nat, chunk: nat, overlap: nat, width: nat)
    requires chunk > overlap && Chunked(starts, length, chunk, chunk - overlap) && starts[|starts| - 1] + chunk >= length
    requires |starts| > 1 && 0 < width <= length
    ensures (forall a: nat, b: nat :: b == a + width && b <= length ==> InOneChunk(starts, chunk, a, b)) <==> width <= overlap + 1
  {
    if width <= overlap + 1 {
      forall a: nat, b: nat | b == a + width && b <= length ensures InOneChunk(starts, chunk, a, b) {
        ShortIntervalFits(starts, length, chunk, overlap, a, b, 0);
      }
    } else {
      assert starts[0] == 0;
      assert starts[1] == chunk - overlap && chunk < length;
      var a := if chunk - overlap - 1 + width <= length then chunk - overlap - 1 else length - width;
      forall i | 0 <= i < |starts| ensures !(starts[i] <= a && a + width <= starts[i] + chunk) {
        if i > 0 { StartsGrow(starts, length, chunk, chunk - overlap, 1, i); }
      }
      assert !InOneChunk(starts, chunk, a, a + width);
    }
  }

  // ---------- alignment ----------

  datatype TokenHit = TokenHit(entity: string, score: real, word: string)

  datatype Place = Nowhere | Placed(start: nat, end: nat)

  predicate IsEntity(t: TokenHit) { t.entity != "O" }
  predicate IsContinuation(t: TokenHit) { |t.word| >= 2 && t.word[..2] == "##" }
  function Piece(t: TokenHit): string { if IsContinuation(t) then t.word[2..] else t.word }

  /** The label after the first hyphen. */
  function LabelType(entity: string): EntityType {
    var dash := IndexOf(entity, "-", 0);
    if dash < 0 then Other
    else
      var tail := entity[dash + 1..];
      var next := IndexOf(tail, "-", 0);
      var tag := if next < 0 then tail else tail[..next];
      if tag == "PER" then Name else if tag == "LOC" then Location else if tag == "ORG" then Organization else Other
  }

  predicate IsWordChar(c: char) { IsLower(c) || IsUpper(c) || IsDigit(c) || c == '\'' || c == '\U{2019}' || c == '-' }

  /** The first occurrence of a piece at or after the cursor, ignoring case. */
  function Locate(text: string, t: TokenHit, cursor: nat): (p: Place)
    ensures p.Placed? ==> cursor <= p.start < p.end <= |text|
  {
    var piece := Piece(t);
    if piece == "[UNK]" || piece == "" then Nowhere
    else
      var at := IndexOf(Lower(text), Lower(piece), cursor);
      if at < 0 then Nowhere else Placed(at, at + |piece|)
  }

  /** What the walk knows about a token: whether and what entity it is, where it lies, how sure the model was. */
  datatype Item = Item(entity: bool, entityType: EntityType, continuation: bool, place: Place, score: real) {
    predicate Found() { entity && place.Placed? }
  }

  /** Reading one token with the cursor at a given place. */
  type Reader = (TokenHit, nat) -> Item

  function ReaderOf(text: string): Reader {
    (t: TokenHit, cursor: nat) => Item(IsEntity(t), LabelType(t.entity), IsContinuation(t), Locate(text, t, cursor), t.score)
  }

  /** Pieces are found at or after the cursor, inside the text. */
  ghost predicate ReadsForward(read: Reader, length: nat) {
    forall t: TokenHit, c: nat :: read(t, c).place.Placed? ==> c <= read(t, c).place.start < read(t, c).place.end <= length
  }

  lemma {:induction false} ReaderReadsForward(text: string)
    ensures ReadsForward(ReaderOf(text), |text|)
  {}

  function Next(item: Item, cursor: nat): nat { if item.place.Placed? then item.place.end else cursor }

  function Cursor(read: Reader, tokens: seq<TokenHit>, n: nat): nat
    requires n <= |tokens|
  {
    if n == 0 then 0 else Next(read(tokens[n - 1], Cursor(read, tokens, n - 1)), Cursor(read, tokens, n - 1))
  }

  function Items(read: Reader, tokens: seq<TokenHit>): (items: seq<Item>)
    ensures |items| == |tokens| && forall i :: 0 <= i < |tokens| ==> items[i] == read(tokens[i], Cursor(read, tokens, i))
  {
    seq(|tokens|, i requires 0 <= i < |tokens| => read(tokens[i], Cursor(read, tokens, i)))
  }

  /** Places follow each other inside the text. */
  ghost predicate InOrder(items: seq<Item>, length: nat) {
    && (forall i :: 0 <= i < |items| && items[i].place.Placed? ==> items[i].place.start < items[i].place.end <= length)
    && (forall i, j :: 0 <= i < j < |items| && items[i].place.Placed? && items[j].place.Placed? ==> items[i].place.end <= items[j].place.start)
  }

  lemma {:induction false} CursorGrows(read: Reader, tokens: seq<TokenHit>, i: nat, n: nat, length: nat)
    requires i <= n <= |tokens| && ReadsForward(read, length)
    ensures Cursor(read, tokens, i) <= Cursor(read, tokens, n)
  {
    if i < n { CursorGrows(read, tokens, i, n - 1, length); }
  }

  /** The cursor keeps the pieces in reading order. */
  lemma {:induction false} ItemsInOrder(read: Reader, tokens: seq<TokenHit>, length: nat)
    requires ReadsForward(read, length)
    ensures InOrder(Items(read, tokens), length)
  {
    var items := Items(read, tokens);
    forall i, j | 0 <= i < j < |items| && items[i].place.Placed? && items[j].place.Placed?
      ensures items[i].place.end <= items[j].place.start
    {
      PairInOrder(read, tokens, i, j, length);
    }
    forall i | 0 <= i < |items| && items[i].place.Placed? ensures items[i].place.start < items[i].place.end <= length {
      assert items[i] == read(tokens[i], Cursor(read, tokens, i));
    }
  }

  lemma {:induction false} PairInOrder(read: Reader, tokens: seq<TokenHit>, i: nat, j: nat, length: nat)
    requires ReadsForward(read, length) && i < j < |tokens|
    ensures var a, b := read(tokens[i], Cursor(read, tokens, i)), read(tokens[j], Cursor(read, tokens, j));
            a.place.Placed? && b.place.Placed? ==> a.place.end <= b.place.start
  {
    CursorGrows(read, tokens, i + 1, j, length);
    assert Cursor(read, tokens, i + 1) == Next(read(tokens[i], Cursor(read, tokens, i)), Cursor(read, tokens, i));
  }

  function SnapLeft(text: string, i: nat): (j: nat)
    requires i <= |text|
    ensures j <= i && (j == 0 || !IsWordChar(text[j - 1])) && forall k :: j <= k < i ==> IsWordChar(text[k])
  {
    if i == 0 || !IsWordChar(text[i - 1]) then i else SnapLeft(text, i - 1)
  }

  function SnapRight(text: string, i: nat): (j: nat)
    requires i <= |text|
    ensures i <= j <= |text| && (j == |text| || !IsWordChar(text[j])) && forall k :: i <= k < j ==> IsWordChar(text[k])
    decreases |text| - i
  {
    if i == |text| || !IsWordChar(text[i]) then i else SnapRight(text, i + 1)
  }

  ghost function Scores(items: seq<Item>, i: nat, n: nat): real
    requires i <= n <= |items|
  {
    if i == n then 0.0 else Scores(items, i, n - 1) + items[n - 1].score
  }

  /** A token and the next are found entity pieces of one type, the next a continuation or at most one character on. */
  ghost predicate Joined(items: seq<Item>, k: int) {
    && 0 <= k < |items| - 1 && items[k].Found() && items[k + 1].Found() && items[k].entityType == items[k + 1].entityType
    && (items[k + 1].continuation || items[k + 1].place.start <= items[k].place.end + 1)
  }

  /** Tokens [i, n) are found entity pieces of one type, each joined to the next. */
  ghost predicate IsRun(items: seq<Item>, i: nat, n: nat, t: EntityType) {
    && i < n <= |items| && (forall k :: i <= k < n ==> items[k].Found() && items[k].entityType == t)
    && forall k {:trigger Joined(items, k)} :: i <= k < n - 1 ==> Joined(items, k)
  }

  /** A run that goes no further on either side. */
  ghost predicate MaxRun(items: seq<Item>, i: nat, n: nat, t: EntityType) { IsRun(items, i, n, t) && !Joined(items, i - 1) && !Joined(items, n - 1) }

  lemma {:induction false} SameRun(items: seq<Item>, i: nat, n: nat, t: EntityType, i': nat, n': nat, t': EntityType)
    requires MaxRun(items, i, n, t) && MaxRun(items, i', n', t') && i < n' <= n
    ensures i' == i && n' == n && t' == t
  {
    assert i' < i ==> Joined(items, i - 1);
    assert i < i' ==> Joined(items, i' - 1);
    assert n' < n ==> Joined(items, n' - 1);
    assert items[i].entityType == t == t';
  }

  /** The span of a run: from its first piece to its last, widened to whole words, with the mean of its scores. */
  ghost predicate IsRunSpan(text: string, items: seq<Item>, offset: nat, i: nat, n: nat, d: Detection) {
    && IsRun(items, i, n, d.entityType) && items[i].place.start <= |text| && items[n - 1].place.end <= |text|
    && d.start == SnapLeft(text, items[i].place.start) + offset
    && d.end == SnapRight(text, items[n - 1].place.end) + offset
    && d.detector == Ner && d.confidence == Score(Scores(items, i, n) / (n - i) as real)
  }

  /** A found piece lies inside a span of its own type. */
  ghost predicate CoveredBy(item: Item, offset: nat, d: Detection) {
    item.place.Placed? && d.entityType == item.entityType && d.start <= item.place.start + offset && item.place.end + offset <= d.end
  }

  /** A run's span covers every piece of the run. */
  lemma {:induction false} RunSpanCovers(text: string, items: seq<Item>, offset: nat, i: nat, n: nat, d: Detection, k: nat)
    requires InOrder(items, |text|) && IsRunSpan(text, items, offset, i, n, d) && i <= k < n
    ensures CoveredBy(items[k], offset, d)
  {
    assert items[i].Found() && items[k].Found() && items[n - 1].Found();
  }

  ghost predicate FromRun(text: string, items: seq<Item>, offset: nat, d: Detection) {
    exists i: nat, j: nat :: IsRunSpan(text, items, offset, i, j, d) && MaxRun(items, i, j, d.entityType)
  }

  ghost predicate InSome(item: Item, offset: nat, spans: seq<Detection>) {
    exists d :: d in spans && CoveredBy(item, offset, d)
  }

  ghost predicate HasSpan(text: string, items: seq<Item>, offset: nat, i: nat, n: nat, spans: seq<Detection>) {
    exists d :: d in spans && IsRunSpan(text, items, offset, i, n, d)
  }

  /** Among the first n tokens, the spans are exactly those of the maximal runs, and every found entity piece is in one. */
  ghost predicate Aligned(text: string, items: seq<Item>, offset: nat, n: nat, spans: seq<Detection>) {
    && n <= |items| && (forall d :: d in spans ==> FromRun(text, items, offset, d))
    && (forall i: nat, j: nat, t {:trigger MaxRun(items, i, j, t)} :: j <= n && MaxRun(items, i, j, t) ==> HasSpan(text, items, offset, i, j, spans))
    && (forall k :: 0 <= k < n && items[k].Found() ==> InSome(items[k], offset, spans))
  }

  lemma {:induction false} RunsClosed(text: string, items: seq<Item>, offset: nat, first: nat, n: nat, spans: seq<Detection>, d: Detection)
    requires Aligned(text, items, offset, first, spans) && IsRunSpan(text, items, offset, first, n, d) && MaxRun(items, first, n, d.entityType)
    ensures forall i: nat, j: nat, t {:trigger MaxRun(items, i, j, t)} :: j <= n && MaxRun(items, i, j, t) ==> HasSpan(text, items, offset, i, j, spans + [d])
  {
    forall i: nat, j: nat, t | j <= n && MaxRun(items, i, j, t) ensures HasSpan(text, items, offset, i, j, spans + [d]) {
      if j <= first {
        var d' :| d' in spans && IsRunSpan(text, items, offset, i, j, d');
        assert d' in spans + [d];
      } else {
        SameRun(items, first, n, d.entityType, i, j, t);
        assert d in spans + [d];
      }
    }
  }

  lemma {:induction false} RunClosed(text: string, items: seq<Item>, offset: nat, first: nat, n: nat, spans: seq<Detection>, d: Detection)
    requires InOrder(items, |text|) && first <= n && Aligned(text, items, offset, first, spans) && IsRunSpan(text, items, offset, first, n, d)
    requires MaxRun(items, first, n, d.entityType)
    ensures Aligned(text, items, offset, n, spans + [d])
  {
    assert FromRun(text, items, offset, d);
    assert d in spans + [d];
    RunsClosed(text, items, offset, first, n, spans, d);
    forall k | 0 <= k < n && items[k].Found() ensures InSome(items[k], offset, spans + [d]) {
      if k < first {
        assert InSome(items[k], offset, spans);
        var d' :| d' in spans && CoveredBy(items[k], offset, d');
        assert d' in spans + [d];
      } else {
        RunSpanCovers(text, items, offset, first, n, d, k);
      }
    }
  }

  datatype Current = NoRun | OpenRun(start: nat, end: nat, entityType: EntityType, scoreSum: real, pieceCount: nat)

  /** The open run consists of the tokens [first, n). */
  ghost predicate Tracks(items: seq<Item>, first: nat, n: nat, c: Current) {
    if c.NoRun? then first == n <= |items|
    else
      && IsRun(items, first, n, c.entityType) && c.pieceCount == n - first && c.scoreSum == Scores(items, first, n)
      && c.start == items[first].place.start && c.end == items[n - 1].place.end
  }

  /** After n tokens: everything before the open run is in the spans. */
  ghost predicate Walked(text: string, items: seq<Item>, offset: nat, first: nat, n: nat, spans: seq<Detection>, c: Current) {
    InOrder(items, |text|) && first <= n && Aligned(text, items, offset, first, spans) && Tracks(items, first, n, c) && !Joined(items, first - 1)
  }

  /** Close the open run, if there is one, widening it to whole words. */
  method Flush(text: string, offset: nat, spans: seq<Detection>, c: Current, ghost items: seq<Item>, ghost first: nat, ghost n: nat)
    returns (spans': seq<Detection>)
    requires Walked(text, items, offset, first, n, spans, c) && !Joined(items, n - 1)
    ensures Aligned(text, items, offset, n, spans')
  {
    if c.NoRun? { return spans; }
    assert items[first].Found() && items[n - 1].Found();
    var start, end := Snap(text, c.start, c.end);
    var d := Detection(start + offset, end + offset, c.entityType, Ner, Score(c.scoreSum / c.pieceCount as real));
    RunClosed(text, items, offset, first, n, spans, d);
    return spans + [d];
  }

  method Snap(text: string, from: nat, to: nat) returns (start: nat, end: nat)
    requires from <= |text| && to <= |text|
    ensures start == SnapLeft(text, from) && end == SnapRight(text, to)
  {
    start, end := from, to;
    while start > 0 && IsWordChar(text[start - 1])
      invariant start <= |text| && SnapLeft(text, start) == SnapLeft(text, from)
    {
      start := start - 1;
    }
    while end < |text| && IsWordChar(text[end])
      invariant end <= |text| && SnapRight(text, end) == SnapRight(text, to)
    {
      end := end + 1;
    }
  }

  lemma {:induction false} Extended(items: seq<Item>, first: nat, n: nat, c: Current, c': Current)
    requires n < |items| && items[n].Found() && c'.OpenRun? && c'.entityType == items[n].entityType && c'.end == items[n].place.end
    requires Tracks(items, first, n, c) && c.OpenRun? && c.entityType == c'.entityType && c'.start == c.start
    requires c'.scoreSum == c.scoreSum + items[n].score && c'.pieceCount == c.pieceCount + 1 && (items[n].continuation || items[n].place.start <= c.end + 1)
    ensures Tracks(items, first, n + 1, c')
  {}

  lemma {:induction false} Opened(items: seq<Item>, n: nat)
    requires n < |items| && items[n].Found()
    ensures Tracks(items, n, n + 1, OpenRun(items[n].place.start, items[n].place.end, items[n].entityType, items[n].score, 1))
  {
    assert Scores(items, n, n + 1) == Scores(items, n, n) + items[n].score;
  }

  /** An entity piece that is nowhere to be found. */
  ghost predicate Lost(items: seq<Item>, n: nat) { exists k :: 0 <= k < n <= |items| && items[k].entity && items[k].place.Nowhere? }

  lemma {:induction false} LostStep(items: seq<Item>, n: nat)
    requires n < |items|
    ensures Lost(items, n + 1) <==> Lost(items, n) || (items[n].entity && items[n].place.Nowhere?)
  {}

  lemma {:induction false} SkipOne(text: string, items: seq<Item>, offset: nat, n: nat, spans: seq<Detection>)
    requires n < |items| && !items[n].Found() && Aligned(text, items, offset, n, spans)
    ensures Aligned(text, items, offset, n + 1, spans)
  {}

  lemma {:induction false} WalkStarts(text: string, items: seq<Item>, offset: nat)
    requires InOrder(items, |text|)
    ensures Walked(text, items, offset, 0, 0, [], NoRun) && !Lost(items, 0)
  {}

  // The walk sees these predicates only through the two functions and the lemmas about them.

  type Walker = (nat, nat, seq<Detection>, Current) -> bool
  type Aligner = (nat, seq<Detection>) -> bool

  ghost predicate Judge(walked: Walker, aligned: Aligner, text: string, items: seq<Item>, offset: nat) {
    && (forall first: nat, n: nat, spans, c {:trigger Walked(text, items, offset, first, n, spans, c)} ::
          walked(first, n, spans, c) == Walked(text, items, offset, first, n, spans, c))
    && (forall n: nat, spans {:trigger Aligned(text, items, offset, n, spans)} :: aligned(n, spans) == Aligned(text, items, offset, n, spans))
    && InOrder(items, |text|)
  }

  lemma {:induction false} WalkExtends(walked: Walker, aligned: Aligner, text: string, items: seq<Item>, offset: nat, first: nat, n: nat, spans: seq<Detection>, c: Current, c': Current)
    requires Judge(walked, aligned, text, items, offset) && n < |items| && walked(first, n, spans, c) && c.OpenRun?
    requires items[n].Found() && c.entityType == items[n].entityType && (items[n].continuation || items[n].place.start <= c.end + 1)
    requires c' == OpenRun(c.start, items[n].place.end, items[n].entityType, c.scoreSum + items[n].score, c.pieceCount + 1)
    ensures walked(first, n + 1, spans, c')
  {
    assert Walked(text, items, offset, first, n, spans, c);
    Extended(items, first, n, c, c');
    assert Walked(text, items, offset, first, n + 1, spans, c');
  }

  /** A token that does not extend the open run is not joined to what comes before it. */
  lemma {:induction false} RunEnds(walked: Walker, aligned: Aligner, text: string, items: seq<Item>, offset: nat, first: nat, n: nat, spans: seq<Detection>, c: Current)
    requires Judge(walked, aligned, text, items, offset) && n < |items| && walked(first, n, spans, c)
    requires !(items[n].Found() && c.OpenRun? && c.entityType == items[n].entityType && (items[n].continuation || items[n].place.start <= c.end + 1))
    ensures !Joined(items, n - 1)
  {
    assert Walked(text, items, offset, first, n, spans, c);
    if c.OpenRun? { assert items[n - 1].Found() && items[n - 1].entityType == c.entityType; }
  }

  lemma {:induction false} WalkOpens(walked: Walker, aligned: Aligner, text: string, items: seq<Item>, offset: nat, n: nat, spans: seq<Detection>)
    requires Judge(walked, aligned, text, items, offset) && n < |items| && aligned(n, spans) && !Joined(items, n - 1) && items[n].Found()
    ensures walked(n, n + 1, spans, OpenRun(items[n].place.start, items[n].place.end, items[n].entityType, items[n].score, 1))
  {
    assert Aligned(text, items, offset, n, spans);
    Opened(items, n);
    assert Walked(text, items, offset, n, n + 1, spans, OpenRun(items[n].place.start, items[n].place.end, items[n].entityType, items[n].score, 1));
  }

  lemma {:induction false} WalkSkips(walked: Walker, aligned: Aligner, text: string, items: seq<Item>, offset: nat, n: nat, spans: seq<Detection>)
    requires Judge(walked, aligned, text, items, offset) && n < |items| && aligned(n, spans) && !items[n].Found()
    ensures walked(n + 1, n + 1, spans, NoRun)
  {
    assert Aligned(text, items, offset, n, spans);
    SkipOne(text, items, offset, n, spans);
    assert Walked(text, items, offset, n + 1, n + 1, spans, NoRun);
  }

  method FlushRun(text: string, offset: nat, spans: seq<Detection>, c: Current, ghost items: seq<Item>, ghost first: nat, ghost n: nat, ghost walked: Walker, ghost aligned: Aligner)
    returns (spans': seq<Detection>)
    requires Judge(walked, aligned, text, items, offset) && walked(first, n, spans, c) && !Joined(items, n - 1)
    ensures aligned(n, spans')
  {
    assert Walked(text, items, offset, first, n, spans, c);
    spans' := Flush(text, offset, spans, c, items, first, n);
  }

  /** One token of the walk: it extends the open run, or closes it and perhaps opens another. */
  method Walk(text: string, offset: nat, item: Item, spans: seq<Detection>, current: Current,
              failed: bool, ghost items: seq<Item>, ghost first: nat, ghost n: nat, ghost walked: Walker, ghost aligned: Aligner)
    returns (spans': seq<Detection>, current': Current, failed': bool, ghost first': nat)
    requires n < |items| && items[n] == item && Judge(walked, aligned, text, items, offset) && walked(first, n, spans, current) && (failed <==> Lost(items, n))
    ensures walked(first', n + 1, spans', current') && (failed' <==> Lost(items, n + 1))
  {
    LostStep(items, n);
    failed' := failed || (item.entity && item.place.Nowhere?);
    if item.Found() && current.OpenRun? && current.entityType == item.entityType && (item.continuation || item.place.start - current.end <= 1) {
      spans', first' := spans, first;
      current' := OpenRun(current.start, item.place.end, item.entityType, current.scoreSum + item.score, current.pieceCount + 1);
      WalkExtends(walked, aligned, text, items, offset, first, n, spans, current, current');
    } else {
      RunEnds(walked, aligned, text, items, offset, first, n, spans, current);
      spans' := FlushRun(text, offset, spans, current, items, first, n, walked, aligned);
      if item.Found() {
        current', first' := OpenRun(item.place.start, item.place.end, item.entityType, item.score, 1), n;
        WalkOpens(walked, aligned, text, items, offset, n, spans');
      } else {
        current', first' := NoRun, n + 1;
        WalkSkips(walked, aligned, text, items, offset, n, spans');
      }
    }
  }

  /** Alignment fails exactly when some entity piece is nowhere to be found; every one that is found lies inside a
      span of its type, and every span is a run of such pieces widened to whole words. */
  method AlignTokens(text: string, tokens: seq<TokenHit>, offset: nat) returns (spans: seq<Detection>, alignmentFailed: bool)
    ensures Aligned(text, Items(ReaderOf(text), tokens), offset, |tokens|, spans)
    ensures alignmentFailed <==> Lost(Items(ReaderOf(text), tokens), |tokens|)
  {
    ReaderReadsForward(text);
    spans, alignmentFailed := AlignWith(ReaderOf(text), text, tokens, offset);
  }

  /** The state of the walk after n tokens. */
  ghost predicate Walking(read: Reader, tokens: seq<TokenHit>, items: seq<Item>, n: nat, cursor: nat, spans: seq<Detection>, current: Current,
                          failed: bool, first: nat, walked: Walker) {
    && n <= |tokens| == |items| && cursor == Cursor(read, tokens, n) && (failed <==> Lost(items, n)) && walked(first, n, spans, current)
  }

  method Turn(read: Reader, text: string, tokens: seq<TokenHit>, offset: nat, n: nat, cursor: nat, spans: seq<Detection>, current: Current, failed: bool,
              ghost items: seq<Item>, ghost first: nat, ghost walked: Walker, ghost aligned: Aligner)
    returns (cursor': nat, spans': seq<Detection>, current': Current, failed': bool, ghost first': nat)
    requires n < |tokens| && items == Items(read, tokens) && Judge(walked, aligned, text, items, offset)
    requires Walking(read, tokens, items, n, cursor, spans, current, failed, first, walked)
    ensures Walking(read, tokens, items, n + 1, cursor', spans', current', failed', first', walked)
  {
    var item := read(tokens[n], cursor);
    cursor' := if item.place.Placed? then item.place.end else cursor;
    spans', current', failed', first' := Walk(text, offset, item, spans, current, failed, items, first, n, walked, aligned);
  }

  method AlignWith(read: Reader, text: string, tokens: seq<TokenHit>, offset: nat) returns (spans: seq<Detection>, alignmentFailed: bool)
    requires ReadsForward(read, |text|)
    ensures Aligned(text, Items(read, tokens), offset, |tokens|, spans)
    ensures alignmentFailed <==> Lost(Items(read, tokens), |tokens|)
  {
    ghost var items := Items(read, tokens);
    ghost var walked: Walker := (first: nat, n: nat, s: seq<Detection>, c: Current) => Walked(text, items, offset, first, n, s, c);
    ghost var aligned: Aligner := (n: nat, s: seq<Detection>) => Aligned(text, items, offset, n, s);
    ItemsInOrder(read, tokens, |text|);
    WalkStarts(text, items, offset);
    spans, alignmentFailed := WalkAll(read, text, tokens, offset, items, walked, aligned);
    assert aligned(|tokens|, spans) == Aligned(text, items, offset, |tokens|, spans);
  }

  method WalkAll(read: Reader, text: string, tokens: seq<TokenHit>, offset: nat, ghost items: seq<Item>, ghost walked: Walker, ghost aligned: Aligner)
    returns (spans: seq<Detection>, alignmentFailed: bool)
    requires items == Items(read, tokens) && Judge(walked, aligned, text, items, offset) && walked(0, 0, [], NoRun) && !Lost(items, 0)
    ensures aligned(|tokens|, spans) && (alignmentFailed <==> Lost(items, |tokens|))
  {
    spans, alignmentFailed := [], false;
    var cursor: nat, current := 0, NoRun;
    ghost var first: nat := 0;
    for n := 0 to |tokens|
      invariant Walking(read, tokens, items, n, cursor, spans, current, alignmentFailed, first, walked)
    {
      cursor, spans, current, alignmentFailed, first := Turn(read, text, tokens, offset, n, cursor, spans, current, alignmentFailed, items, first, walked, aligned);
    }
    spans := FlushRun(text, offset, spans, current, items, first, |tokens|, walked, aligned);
  }

  /** A piece is placed at its first occurrence at or after the cursor, ignoring case, without the marks of a
      continuation; an unknown or empty piece nowhere. */
  lemma {:induction false} LocateIff(text: string, t: TokenHit, cursor: nat, piece: string)
    requires t.word == "##" + piece || (t.word == piece && !IsContinuation(t))
    ensures var p := Locate(text, t, cursor);
      && (p.Placed? <==> piece != "" && piece != "[UNK]" && exists i: nat :: cursor <= i && OccursAt(Lower(text), Lower(piece), i))
      && (p.Placed? ==> p.end == p.start + |piece| && OccursAt(Lower(text), Lower(piece), p.start) && forall i: nat :: cursor <= i < p.start ==> !OccursAt(Lower(text), Lower(piece), i))
  {
    assert Piece(t) == piece;
    IndexOfFinds(Lower(text), Lower(piece), cursor);
    var r := IndexOf(Lower(text), Lower(piece), cursor);
    if r != -1 {
      forall i: nat | cursor <= i < r ensures !OccursAt(Lower(text), Lower(piece), i) { FirstIsLeast(Lower(text), Lower(piece), cursor, i); }
    }
  }

  lemma {:induction false} FirstIsLeast(hay: string, needle: string, from: nat, i: nat)
    requires from <= i < IndexOf(hay, needle, from)
    ensures !OccursAt(hay, needle, i)
    decreases i - from
  {
    if from < i { FirstIsLeast(hay, needle, from + 1, i); }
  }

  /** The tag after the first hyphen decides the type, whatever stands before it; a label without one has no type. */
  lemma {:induction false} LabelTypes(prefix: string, tag: string)
    requires (forall i :: 0 <= i < |prefix| ==> prefix[i] != '-') && forall i :: 0 <= i < |tag| ==> tag[i] != '-'
    ensures LabelType(prefix) == Other
    ensures var t := LabelType(prefix + "-" + tag); (t == Name <==> tag == "PER") && (t == Location <==> tag == "LOC")
    ensures var t := LabelType(prefix + "-" + tag); (t == Organization <==> tag == "ORG") && t in {Name, Location, Organization, Other}
  {
    FirstDash(prefix, tag);
    NoDash(prefix);
    NoDash(tag);
  }

  lemma {:induction false} NoDash(s: string)
    requires forall i :: 0 <= i < |s| ==> s[i] != '-'
    ensures IndexOf(s, "-", 0) == -1
  {
    forall i: nat ensures !OccursAt(s, "-", i) { if i < |s| { assert s[i..i + 1] == [s[i]]; } }
    IndexOfFinds(s, "-", 0);
  }

  lemma {:induction false} FirstDash(prefix: string, tag: string)
    requires forall i :: 0 <= i < |prefix| ==> prefix[i] != '-'
    ensures var s := prefix + "-" + tag; IndexOf(s, "-", 0) == |prefix| && s[|prefix| + 1..] == tag
  {
    DashFrom(prefix, tag, 0);
  }

  lemma {:induction false} DashFrom(prefix: string, tag: string, i: nat)
    requires i <= |prefix| && forall k :: 0 <= k < |prefix| ==> prefix[k] != '-'
    ensures IndexOf(prefix + "-" + tag, "-", i) == |prefix|
    decreases |prefix| - i
  {
    var s := prefix + "-" + tag;
    assert s[i..i + 1][0] == s[i];
    if i < |prefix| {
      DashFrom(prefix, tag, i + 1);
    } else {
      assert s[i..i + 1] == "-";
    }
  }

  /** No span's end falls inside a word. */
  lemma {:induction false} NoWordIsSplit(text: string, items: seq<Item>, offset: nat, d: Detection)
    requires InOrder(items, |text|) && FromRun(text, items, offset, d)
    ensures offset <= d.start < d.end <= |text| + offset
    ensures d.start > offset ==> !IsWordChar(text[d.start - offset - 1])
    ensures d.end < |text| + offset ==> !IsWordChar(text[d.end - offset])
  {
    var i: nat, j: nat :| IsRunSpan(text, items, offset, i, j, d);
    RunSpanCovers(text, items, offset, i, j, d, i);
    assert items[i].Found();
  }
}
