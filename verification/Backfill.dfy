/** The historical backfill: page-by-page sweeps with a persisted watermark, crashes, resumes and the drain. */
module Backfill {
  import opened Wrappers
  import opened Chars

  /** A listed call; times are epoch milliseconds. */
  datatype Call = Call(callId: string, startedAt: Option<int>, endedAt: Option<int>, state: Option<string>)
  datatype Page = Page(calls: seq<Call>, cursor: Option<string>)
  datatype Window = Window(fromMs: int, toMs: int)

  // ---------- membership and checkpoint arithmetic ----------

  const ACTIVE_STATES := {"active", "in_progress", "ringing", "queued"}

  predicate Included(call: Call, window: Window) {
    if call.endedAt.Some? then window.fromMs <= call.endedAt.value <= window.toMs
    else if call.state.Some? && Lower(call.state.value) in ACTIVE_STATES then false
    else call.startedAt.Some? && call.startedAt.value <= window.toMs
  }

  /** An ended call belongs to a window exactly when it ended inside it; one still under way to none; any other to those
      that end no earlier than it began. */
  lemma {:induction false} IncludedIff(call: Call, window: Window)
    ensures Included(call, window) <==>
      || (exists t :: call.endedAt == Some(t) && window.fromMs <= t <= window.toMs)
      || (call.endedAt.None? && !UnderWay(call) && exists t :: call.startedAt == Some(t) && t <= window.toMs)
  {
    if call.endedAt.Some? { assert call.endedAt == Some(call.endedAt.value); }
    if call.startedAt.Some? { assert call.startedAt == Some(call.startedAt.value); }
  }

  ghost predicate UnderWay(call: Call) { exists state :: call.state == Some(state) && Lower(state) in {"active", "in_progress", "ringing", "queued"} }

  /** Windows that follow on one another split the ended calls: each call of the whole belongs to exactly one part. */
  lemma {:induction false} WindowsSplit(call: Call, a: int, b: int, c: int)
    requires a <= b < c && call.endedAt.Some?
    ensures Included(call, Window(a, c)) <==> Included(call, Window(a, b)) || Included(call, Window(b + 1, c))
    ensures !(Included(call, Window(a, b)) && Included(call, Window(b + 1, c)))
  {}

  predicate ShouldSkip(startedAt: int, watermark: Option<int>) {
    watermark.Some? && startedAt > watermark.value
  }

  predicate Dated(calls: seq<Call>) { forall c :: c in calls ==> c.startedAt.Some? }

  /** Math.min over a page. */
  function PageMin(calls: seq<Call>): (r: int)
    requires |calls| > 0 && Dated(calls)
    ensures forall c :: c in calls ==> r <= c.startedAt.value
    ensures exists c :: c in calls && c.startedAt.value == r
  {
    var n := |calls| - 1;
    var last := calls[n].startedAt.value;
    assert calls[n] in calls;
    if n == 0 then last
    else
      var rest := PageMin(calls[..n]);
      if last < rest then last else rest
  }

  function AdvanceWatermark(current: Option<int>, calls: seq<Call>): int
    requires |calls| > 0 && Dated(calls)
  {
    var pageMin := PageMin(calls);
    if current.None? || pageMin < current.value then pageMin else current.value
  }

  /** The first undated call of a page, if any. */
  method PageStartedAtFailure(calls: seq<Call>) returns (bad: Option<string>)
    ensures bad.None? <==> Dated(calls)
    ensures bad.Some? ==> exists i :: 0 <= i < |calls| && calls[i].startedAt.None? && calls[i].callId == bad.value && Dated(calls[..i])
  {
    for i := 0 to |calls|
      invariant Dated(calls[..i])
    {
      if calls[i].startedAt.None? { return Some(calls[i].callId); }
    }
    assert calls[..|calls|] == calls;
    return None;
  }

  // ---------- the listing, however it is paged ----------

  function Flatten(pages: seq<Page>): seq<Call> {
    if pages == [] then [] else Flatten(pages[..|pages| - 1]) + pages[|pages| - 1].calls
  }

  ghost predicate NewestFirst(listing: seq<Call>) {
    forall i, j :: 0 <= i < j < |listing| && listing[i].startedAt.Some? && listing[j].startedAt.Some?
      ==> listing[i].startedAt.value >= listing[j].startedAt.value
  }

  /** The pages a sweep receives are consecutive pieces of the listing, and one without a cursor ends it. */
  ghost predicate Serves(pages: seq<Page>, listing: seq<Call>) {
    && (forall k :: 0 <= k <= |pages| ==> Flatten(pages[..k]) <= listing)
    && (forall k :: 0 <= k < |pages| && pages[k].cursor.None? ==> Flatten(pages[..k + 1]) == listing)
  }

  /** A call is decided by its first listed record. */
  ghost predicate FirstRecord(listing: seq<Call>, i: nat) {
    i < |listing| && forall j :: 0 <= j < i ==> listing[j].callId != listing[i].callId
  }

  ghost function Ids(listing: seq<Call>, n: nat): set<string>
    requires n <= |listing|
  {
    if n == 0 then {} else Ids(listing, n - 1) + {listing[n - 1].callId}
  }

  lemma {:induction false} IdsAre(listing: seq<Call>, n: nat, id: string)
    requires n <= |listing|
    ensures id in Ids(listing, n) <==> exists j :: 0 <= j < n && listing[j].callId == id
  {
    if n > 0 { IdsAre(listing, n - 1, id); }
  }

  /** A record is skipped as already seen exactly when it is not its call's first. */
  lemma {:induction false} IdsMember(listing: seq<Call>, n: nat)
    requires n < |listing|
    ensures listing[n].callId !in Ids(listing, n) <==> FirstRecord(listing, n)
  {
    IdsAre(listing, n, listing[n].callId);
  }

  ghost predicate Wanted(listing: seq<Call>, window: Window, i: nat) {
    FirstRecord(listing, i) && Included(listing[i], window)
  }

  /** Every wanted call among the first n records is handled. */
  ghost predicate CoversPrefix(listing: seq<Call>, window: Window, n: nat, handled: set<string>) {
    n <= |listing| && forall i: nat {:trigger Wanted(listing, window, i)} :: i < n && Wanted(listing, window, i) ==> listing[i].callId in handled
  }

  /** Every wanted call strictly newer than the watermark is handled. */
  ghost predicate CoversNewer(listing: seq<Call>, window: Window, watermark: Option<int>, handled: set<string>) {
    forall i: nat {:trigger Wanted(listing, window, i)} :: (i < |listing| && Wanted(listing, window, i) && listing[i].startedAt.Some?
      && ShouldSkip(listing[i].startedAt.value, watermark)) ==> listing[i].callId in handled
  }

  /** The watermark may move down to the oldest record of a page once the page is handled: a record beyond the
      page is no newer than that, so one that the new watermark skips the old watermark skipped as well. */
  lemma {:induction false} WatermarkSafe(listing: seq<Call>, window: Window, n: nat, page: seq<Call>, watermark: Option<int>, handled: set<string>)
    requires NewestFirst(listing) && |page| > 0 && Dated(page)
    requires n + |page| <= |listing| && listing[n..n + |page|] == page
    requires CoversPrefix(listing, window, n + |page|, handled) && CoversNewer(listing, window, watermark, handled)
    ensures CoversNewer(listing, window, Some(AdvanceWatermark(watermark, page)), handled)
  {
    var mark := Some(AdvanceWatermark(watermark, page));
    forall i: nat | i < |listing| && Wanted(listing, window, i) && listing[i].startedAt.Some?
      && ShouldSkip(listing[i].startedAt.value, mark)
      ensures listing[i].callId in handled
    {
      if i >= n + |page| {
        var c :| c in page && c.startedAt.value == PageMin(page);
        var k :| 0 <= k < |page| && page[k] == c;
        assert listing[n + k] == c;
        assert ShouldSkip(listing[i].startedAt.value, watermark);
      }
    }
  }

  /** The mark has come down to every dated record among the first n: a later sweep skips all that are newer. */
  ghost predicate MarkBelow(listing: seq<Call>, n: nat, mark: Option<int>) {
    n <= |listing| && (n > 0 ==> mark.Some?) && forall i :: 0 <= i < n && listing[i].startedAt.Some? ==> mark.Some? && mark.value <= listing[i].startedAt.value
  }

  lemma {:induction false} MarkAdvances(listing: seq<Call>, n: nat, page: seq<Call>, mark: Option<int>)
    requires MarkBelow(listing, n, mark) && |page| > 0 && Dated(page) && n + |page| <= |listing| && listing[n..n + |page|] == page
    ensures MarkBelow(listing, n + |page|, Some(AdvanceWatermark(mark, page)))
  {
    forall i | n <= i < n + |page| ensures AdvanceWatermark(mark, page) <= listing[i].startedAt.value {
      assert listing[i] == page[i - n];
      assert page[i - n] in page;
    }
  }

  lemma {:induction false} FlattenStep(pages: seq<Page>, k: nat)
    requires k < |pages|
    ensures Flatten(pages[..k + 1]) == Flatten(pages[..k]) + pages[k].calls
  {
    assert pages[..k + 1][..k] == pages[..k];
  }

  lemma {:induction false} RecordAt(listing: seq<Call>, n: nat, calls: seq<Call>, k: nat)
    requires n + |calls| <= |listing| && listing[n..n + |calls|] == calls && Dated(calls) && k < |calls|
    ensures listing[n + k] == calls[k] && calls[k].startedAt.Some? && Ids(listing, n + k + 1) == Ids(listing, n + k) + {calls[k].callId}
  {
    assert calls[k] == listing[n..n + |calls|][k] && calls[k] in calls;
  }

  /** The calls of page k sit in the listing right after those of the pages before. */
  lemma {:induction false} PagePlace(pages: seq<Page>, listing: seq<Call>, k: nat)
    requires Serves(pages, listing) && k < |pages|
    ensures var n := |Flatten(pages[..k])|;
            n + |pages[k].calls| <= |listing| && listing[n..n + |pages[k].calls|] == pages[k].calls
            && |Flatten(pages[..k + 1])| == n + |pages[k].calls| && (pages[k].cursor.None? ==> |listing| == n + |pages[k].calls|)
  {
    FlattenStep(pages, k);
    var n := |Flatten(pages[..k])|;
    assert Flatten(pages[..k + 1]) <= listing;
    assert listing[n..n + |pages[k].calls|] == Flatten(pages[..k + 1])[n..];
  }

  // ---------- the database around one run ----------

  datatype CallStatus = Processing | Resting
  datatype CallRow = CallRow(stage: nat, status: CallStatus)
  const SEED := CallRow(0, Processing)

  /** call_state and dead_letter, which webhooks, workers and operators also write. */
  datatype Pipe = Pipe(rows: map<string, CallRow>, dead: set<string>) {
    predicate AlreadyIn(id: string) {
      id in rows && (rows[id] != SEED || id in dead)
    }
    predicate Terminal(id: string) {
      (id in rows && rows[id].status == Resting) || id in dead
    }
  }

  datatype RunStatus = Running | Completed | Failed
  datatype Invocation = Invocation(window: Window, restart: bool, pages: seq<Page>, polls: nat)
  datatype Outcome = Refused | Stopped | Finished(seededTotal: nat, terminalCount: nat)

  /** What the rest of the world does to the pipeline tables before the n-th database access, and whether the
      process dies there. */
  datatype World = World(others: (nat, Pipe) -> Pipe, dies: nat -> bool)

  // ---------- what the database accesses saw ----------

  /** b is a, or a with one new seed, of one of these calls. */
  ghost predicate SeedOf(a: Pipe, b: Pipe, ids: set<string>) {
    b == a || exists id :: id in ids && id !in a.rows && b == a.(rows := a.rows[id := SEED])
  }

  /** The n-th access saw what the world made of the tables as this run had left them. */
  ghost predicate Saw(w: World, n: nat, before: Pipe, saw: Pipe, ids: set<string>) {
    exists mid :: SeedOf(before, mid, ids) && saw == w.others(n, mid)
  }

  ghost function Latest(start: Pipe, seen: seq<Pipe>): Pipe { if seen == [] then start else seen[|seen| - 1] }

  /** The accesses so far, one after the other. */
  ghost predicate Chain(w: World, start: Pipe, seen: seq<Pipe>, ids: set<string>) {
    seen == [] || (Chain(w, start, seen[..|seen| - 1], ids) && Saw(w, |seen| - 1, Latest(start, seen[..|seen| - 1]), seen[|seen| - 1], ids))
  }

  /** The accesses so far, and the tables now; all this run ever wrote there are seeds of these calls. */
  ghost predicate Traced(w: World, start: Pipe, seen: seq<Pipe>, pipe: Pipe, ids: set<string>) {
    Chain(w, start, seen, ids) && SeedOf(Latest(start, seen), pipe, ids)
  }

  lemma {:induction false} TracedStep(w: World, start: Pipe, seen: seq<Pipe>, pipe: Pipe, ids: set<string>)
    requires Traced(w, start, seen, pipe, ids)
    ensures var pipe' := w.others(|seen|, pipe); Traced(w, start, seen + [pipe'], pipe', ids)
  {
    var pipe' := w.others(|seen|, pipe);
    assert (seen + [pipe'])[..|seen|] == seen;
    assert Saw(w, |seen|, Latest(start, seen), pipe', ids);
  }

  /** Right after an access one seed may be written. */
  lemma {:induction false} SeedTraced(w: World, start: Pipe, seen: seq<Pipe>, pipe: Pipe, id: string, ids: set<string>)
    requires Traced(w, start, seen, pipe, ids) && seen != [] && seen[|seen| - 1] == pipe && id !in pipe.rows && id in ids
    ensures Traced(w, start, seen, pipe.(rows := pipe.rows[id := SEED]), ids)
  {}

  lemma {:induction false} SeedOfMore(a: Pipe, b: Pipe, ids: set<string>, ids': set<string>)
    requires SeedOf(a, b, ids) && ids <= ids'
    ensures SeedOf(a, b, ids')
  {}

  lemma {:induction false} ChainMore(w: World, start: Pipe, seen: seq<Pipe>, ids: set<string>, ids': set<string>)
    requires Chain(w, start, seen, ids) && ids <= ids'
    ensures Chain(w, start, seen, ids')
  {
    if seen != [] {
      var front, before := seen[..|seen| - 1], Latest(start, seen[..|seen| - 1]);
      ChainMore(w, start, front, ids, ids');
      var mid :| SeedOf(before, mid, ids) && seen[|seen| - 1] == w.others(|seen| - 1, mid);
      SeedOfMore(before, mid, ids, ids');
    }
  }

  lemma {:induction false} TracedMore(w: World, start: Pipe, seen: seq<Pipe>, pipe: Pipe, ids: set<string>, ids': set<string>)
    requires Traced(w, start, seen, pipe, ids) && ids <= ids'
    ensures Traced(w, start, seen, pipe, ids')
  {
    ChainMore(w, start, seen, ids, ids');
    SeedOfMore(Latest(start, seen), pipe, ids, ids');
  }

  // ---------- what was ingested, and why ----------

  /** A call handed to ingest, and the access that saw it outside the pipeline. */
  datatype Ingest = Ingest(id: string, at: nat)

  ghost function IdsOf(xs: seq<Ingest>): set<string> { set x | x in xs :: x.id }

  /** Record i is the wanted one the call was ingested for, and the mark does not hide it. */
  ghost predicate IngestedFor(listing: seq<Call>, window: Window, mark: Option<int>, id: string, i: nat) {
    && i < |listing| && listing[i].callId == id && FirstRecord(listing, i) && Included(listing[i], window)
    && listing[i].startedAt.Some? && !ShouldSkip(listing[i].startedAt.value, mark)
  }

  ghost predicate Earned(listing: seq<Call>, window: Window, mark: Option<int>, seen: seq<Pipe>, x: Ingest) {
    x.at < |seen| && !seen[x.at].AlreadyIn(x.id) && exists i: nat :: IngestedFor(listing, window, mark, x.id, i)
  }

  ghost predicate AllEarned(listing: seq<Call>, window: Window, mark: Option<int>, seen: seq<Pipe>, xs: seq<Ingest>) {
    forall k :: 0 <= k < |xs| ==> Earned(listing, window, mark, seen, xs[k])
  }

  /** m hides no less than the mark m0 did. */
  predicate Lowered(m: Option<int>, m0: Option<int>) { m0.None? || (m.Some? && m.value <= m0.value) }

  lemma {:induction false} EarnedStays(listing: seq<Call>, window: Window, mark: Option<int>, mark0: Option<int>, seen: seq<Pipe>, seen': seq<Pipe>, x: Ingest)
    requires Earned(listing, window, mark, seen, x) && seen <= seen' && Lowered(mark, mark0)
    ensures Earned(listing, window, mark0, seen', x)
  {
    var i: nat :| IngestedFor(listing, window, mark, x.id, i);
    assert IngestedFor(listing, window, mark0, x.id, i);
  }

  lemma {:induction false} AllEarnedStay(listing: seq<Call>, window: Window, mark: Option<int>, mark0: Option<int>, seen: seq<Pipe>, seen': seq<Pipe>, xs: seq<Ingest>)
    requires AllEarned(listing, window, mark, seen, xs) && seen <= seen' && Lowered(mark, mark0)
    ensures AllEarned(listing, window, mark0, seen', xs)
  {
    forall k | 0 <= k < |xs| ensures Earned(listing, window, mark0, seen', xs[k]) { EarnedStays(listing, window, mark, mark0, seen, seen', xs[k]); }
  }

  /** What a run had ingested, and what it has by now: the new ones are all earned under the mark. */
  ghost predicate Gained(listing: seq<Call>, window: Window, mark: Option<int>, seen: seq<Pipe>, xs: seq<Ingest>, xs': seq<Ingest>) {
    xs <= xs' && AllEarned(listing, window, mark, seen, xs'[|xs|..])
  }

  /** A set of calls has grown by ingested ones only. */
  ghost predicate Grown(ids: set<string>, ids': set<string>, xs: seq<Ingest>, xs': seq<Ingest>) {
    xs <= xs' && ids' <= ids + IdsOf(xs'[|xs|..])
  }

  lemma {:induction false} GrownMore(p: set<string>, q: set<string>, r: set<string>, a: seq<Ingest>, b: seq<Ingest>, c: seq<Ingest>)
    requires Grown(p, q, a, b) && Grown(q, r, b, c)
    ensures Grown(p, r, a, c)
  {
    assert c[|a|..] == b[|a|..] + c[|b|..];
    assert forall x :: x in b[|a|..] || x in c[|b|..] ==> x in c[|a|..];
  }

  /** Since then accesses were made, and what was ingested, tracked and enqueued was earned under the mark. */
  ghost predicate SoFarOf(listing: seq<Call>, window: Window, mark: Option<int>, seen0: seq<Pipe>, xs0: seq<Ingest>, tracked0: set<string>, jobs0: set<string>,
                          seen: seq<Pipe>, xs: seq<Ingest>, tracked: set<string>, jobs: set<string>) {
    seen0 <= seen && Gained(listing, window, mark, seen, xs0, xs) && Grown(tracked0, tracked, xs0, xs) && Grown(jobs0, jobs, xs0, xs)
  }

  lemma {:induction false} NothingSoFar(listing: seq<Call>, window: Window, mark: Option<int>, seen: seq<Pipe>, xs: seq<Ingest>, tracked: set<string>, jobs: set<string>)
    ensures SoFarOf(listing, window, mark, seen, xs, tracked, jobs, seen, xs, tracked, jobs)
  {}

  lemma {:induction false} SoFarMore(listing: seq<Call>, window: Window, mark: Option<int>, mark0: Option<int>,
                                     seen0: seq<Pipe>, xs0: seq<Ingest>, tracked0: set<string>, jobs0: set<string>,
                                     seen1: seq<Pipe>, xs1: seq<Ingest>, tracked1: set<string>, jobs1: set<string>,
                                     seen: seq<Pipe>, xs: seq<Ingest>, tracked: set<string>, jobs: set<string>)
    requires SoFarOf(listing, window, mark0, seen0, xs0, tracked0, jobs0, seen1, xs1, tracked1, jobs1)
    requires SoFarOf(listing, window, mark, seen1, xs1, tracked1, jobs1, seen, xs, tracked, jobs) && Lowered(mark, mark0)
    ensures SoFarOf(listing, window, mark0, seen0, xs0, tracked0, jobs0, seen, xs, tracked, jobs)
  {
    GainedMore(listing, window, mark, mark0, seen1, seen, xs0, xs1, xs);
    GrownMore(tracked0, tracked1, tracked, xs0, xs1, xs);
    GrownMore(jobs0, jobs1, jobs, xs0, xs1, xs);
  }

  lemma {:induction false} SoFarLater(listing: seq<Call>, window: Window, mark: Option<int>, seen0: seq<Pipe>, xs0: seq<Ingest>, tracked0: set<string>, jobs0: set<string>,
                                      seen: seq<Pipe>, seen': seq<Pipe>, xs: seq<Ingest>, tracked: set<string>, jobs: set<string>)
    requires SoFarOf(listing, window, mark, seen0, xs0, tracked0, jobs0, seen, xs, tracked, jobs) && seen <= seen'
    ensures SoFarOf(listing, window, mark, seen0, xs0, tracked0, jobs0, seen', xs, tracked, jobs)
  {
    AllEarnedStay(listing, window, mark, mark, seen, seen', xs[|xs0|..]);
  }

  /** The same, seen from the loops only through this. */
  type Good = (seq<Pipe>, seq<Ingest>, set<string>, set<string>) -> bool

  ghost predicate Judges(good: Good, listing: seq<Call>, window: Window, mark: Option<int>, seen0: seq<Pipe>, xs0: seq<Ingest>, tracked0: set<string>, jobs0: set<string>) {
    forall s, x, t, j {:trigger SoFarOf(listing, window, mark, seen0, xs0, tracked0, jobs0, s, x, t, j)} ::
      good(s, x, t, j) == SoFarOf(listing, window, mark, seen0, xs0, tracked0, jobs0, s, x, t, j)
  }

  lemma {:induction false} GainedMore(listing: seq<Call>, window: Window, mark: Option<int>, mark0: Option<int>, seen: seq<Pipe>, seen': seq<Pipe>,
                                      a: seq<Ingest>, b: seq<Ingest>, c: seq<Ingest>)
    requires Gained(listing, window, mark0, seen, a, b) && Gained(listing, window, mark, seen', b, c) && seen <= seen' && Lowered(mark, mark0)
    ensures Gained(listing, window, mark0, seen', a, c)
  {
    AllEarnedStay(listing, window, mark0, mark0, seen, seen', b[|a|..]);
    AllEarnedStay(listing, window, mark, mark0, seen', seen', c[|b|..]);
    assert c[|a|..] == b[|a|..] + c[|b|..];
  }

  /** The process died at one of these accesses. */
  ghost predicate Died(w: World, from: nat, to: nat) { exists n :: from <= n < to && w.dies(n) }

  /** A tracked call is in flight. */
  ghost predicate Busy(p: Pipe, tracked: set<string>) { exists id :: id in tracked && !p.Terminal(id) }

  /** `polls` accesses in a row found a tracked call in flight. */
  ghost predicate BusyThroughout(seen: seq<Pipe>, from: nat, polls: nat, tracked: set<string>) {
    from + polls <= |seen| && forall k :: from <= k < from + polls ==> Busy(seen[k], tracked)
  }

  /** Dated pages with ever new cursors, up to one without a cursor. */
  ghost predicate EndsAt(pages: seq<Page>, last: nat) {
    && last < |pages| && pages[last].cursor.None? && (forall k :: 0 <= k <= last ==> Dated(pages[k].calls))
    && forall k :: 0 < k <= last && pages[k].cursor.Some? ==> pages[k].cursor != pages[k - 1].cursor
  }

  ghost predicate Complete(pages: seq<Page>) { exists last :: EndsAt(pages, last) }

  ghost predicate GoesOn(pages: seq<Page>, k: nat) { k <= |pages| && forall j :: 0 <= j < k ==> pages[j].cursor.Some? }

  ghost function CursorBefore(pages: seq<Page>, k: nat): Option<string>
    requires k <= |pages|
  {
    if k == 0 then None else pages[k - 1].cursor
  }

  /** The pages go on up to one with an undated call or a repeated cursor, or stop without a last one. */
  ghost predicate BrokenAt(pages: seq<Page>, k: nat) {
    GoesOn(pages, k) && (k < |pages| ==>
      !Dated(pages[k].calls) || (pages[k].cursor.Some? && pages[k].cursor == CursorBefore(pages, k)))
  }

  lemma {:induction false} NotComplete(pages: seq<Page>, k: nat)
    requires BrokenAt(pages, k)
    ensures !Complete(pages)
  {
    forall last ensures !EndsAt(pages, last) {}
  }

  /** Some access saw the call in the pipeline. */
  ghost predicate SawIn(seen: seq<Pipe>, id: string) { exists i :: 0 <= i < |seen| && seen[i].AlreadyIn(id) }

  ghost predicate Witnessed(seen: seq<Pipe>, observed: set<string>) { forall id :: id in observed ==> SawIn(seen, id) }

  lemma {:induction false} WitnessedGrows(seen: seq<Pipe>, seen': seq<Pipe>, observed: set<string>)
    requires Witnessed(seen, observed) && seen <= seen'
    ensures Witnessed(seen', observed)
  {
    forall id | id in observed ensures SawIn(seen', id) {
      assert SawIn(seen, id);
      var i :| 0 <= i < |seen| && seen[i].AlreadyIn(id);
      assert seen'[i] == seen[i];
    }
  }

  class Run {
    const window: Window
    var pipe: Pipe
    var tracked: set<string>
    var jobs: set<string>
    var watermark: Option<int>
    var seededTotal: nat
    var status: RunStatus
    var clock: nat
    /** The tables at the start and as each access saw them, the calls a sweep saw in the pipeline, and the access
        at which the drain found nothing in flight. */
    ghost const start: Pipe
    ghost var seen: seq<Pipe>
    ghost var observed: set<string>
    ghost var ingests: seq<Ingest>
    ghost var drainedAt: nat

    ghost function Handled(): set<string>
      reads this
    {
      observed + tracked * jobs
    }

    /** The history is what the world and this run really did, and bears out every observation; nothing is seeded, tracked
        or enqueued but what was ingested. */
    ghost predicate Honest(w: World)
      reads this
    {
      && clock == |seen| && Traced(w, start, seen, pipe, IdsOf(ingests)) && Witnessed(seen, observed)
      && tracked <= IdsOf(ingests) && jobs <= IdsOf(ingests)
    }

    /** The persisted watermark never hides an unhandled call; a completed run has handled every wanted call, and one
        access saw every tracked call terminal. */
    ghost predicate Valid(listing: seq<Call>, w: World)
      reads this
    {
      && Honest(w) && CoversNewer(listing, window, watermark, Handled()) && AllEarned(listing, window, None, seen, ingests)
      && (status == Completed ==> CoversPrefix(listing, window, |listing|, Handled()) && Drained())
    }

    /** Nothing the mark hides is unhandled, and neither is anything wanted among the first n records. */
    ghost predicate Sweeping(w: World, listing: seq<Call>, n: nat, mark: Option<int>)
      reads this
    {
      SafeMark(w, listing, mark) && CoversPrefix(listing, window, n, Handled())
    }

    ghost predicate SafeMark(w: World, listing: seq<Call>, mark: Option<int>)
      reads this
    {
      Honest(w) && CoversNewer(listing, window, mark, Handled())
    }

    ghost predicate Drained()
      reads this
    {
      drainedAt < |seen| && forall id :: id in tracked ==> seen[drainedAt].Terminal(id)
    }

    constructor (window: Window, pipe: Pipe, ghost listing: seq<Call>, ghost w: World)
      ensures Valid(listing, w) && this.window == window && status == Running && tracked == {} && start == pipe && seen == []
    {
      this.window, this.pipe, tracked, jobs, watermark, seededTotal := window, pipe, {}, {}, None, 0;
      status, clock, start, seen, observed, ingests, drainedAt := Running, 0, pipe, [], {}, [], 0;
    }

    /** A database access: others have acted meanwhile, and the process may be gone. */
    method Access(w: World) returns (alive: bool)
      requires Honest(w)
      modifies this`pipe, this`clock, this`seen
      ensures Honest(w) && seen == old(seen) + [pipe] && (alive <==> !w.dies(|old(seen)|))
    {
      TracedStep(w, start, seen, pipe, IdsOf(ingests));
      pipe := w.others(clock, pipe);
      WitnessedGrows(seen, seen + [pipe], observed);
      alive := !w.dies(clock);
      clock, seen := clock + 1, seen + [pipe];
    }

    /** Seed, track, enqueue, in that order, each its own write. */
    method IngestGap(id: string, w: World) returns (alive: bool)
      requires Honest(w) && id in IdsOf(ingests)
      modifies this`pipe, this`clock, this`seen, this`tracked, this`jobs
      ensures Honest(w) && old(seen) <= seen && old(tracked) <= tracked <= old(tracked) + {id} && old(jobs) <= jobs <= old(jobs) + {id}
      ensures alive ==> id in tracked && id in jobs
      ensures !alive ==> Died(w, |old(seen)|, |seen|)
    {
      alive := SeedIfAbsent(id, w);
      if !alive { return; }
      alive := Access(w);
      if !alive { return; }
      tracked := tracked + {id};
      alive := Access(w);
      if alive { jobs := jobs + {id}; }
    }

    method SeedIfAbsent(id: string, w: World) returns (alive: bool)
      requires Honest(w) && id in IdsOf(ingests)
      modifies this`pipe, this`clock, this`seen
      ensures Honest(w) && old(seen) <= seen && (alive ==> id in pipe.rows) && (!alive ==> Died(w, |old(seen)|, |seen|))
    {
      alive := Access(w);
      if alive && id !in pipe.rows {
        SeedTraced(w, start, seen, pipe, id, IdsOf(ingests));
        pipe := pipe.(rows := pipe.rows[id := SEED]);
      }
    }

    /** Only calls ingested since then were tracked or enqueued. */
    ghost predicate OnlyIngested(tracked0: set<string>, jobs0: set<string>, was: seq<Ingest>)
      reads this
    {
      Grown(tracked0, tracked, was, ingests) && Grown(jobs0, jobs, was, ingests)
    }

    /** The call was not ingested, or it had to be: included, not hidden, and outside the pipeline at the access before. */
    ghost predicate Ingested(call: Call, mark: Option<int>, was: seq<Ingest>, before: nat)
      reads this
    {
      ingests == was || (call.startedAt.Some? && !ShouldSkip(call.startedAt.value, mark) && Included(call, window) && before < |seen|
        && !seen[before].AlreadyIn(call.callId) && ingests == was + [Ingest(call.callId, before)])
    }

    /** One listed call that was not seen before in this sweep. */
    method SweepCall(call: Call, mark: Option<int>, w: World) returns (alive: bool, seeded: nat)
      requires Honest(w) && call.startedAt.Some?
      modifies this`pipe, this`clock, this`seen, this`tracked, this`jobs, this`observed, this`ingests
      ensures Honest(w) && old(seen) <= seen && old(Handled()) <= Handled() && (!alive ==> Died(w, |old(seen)|, |seen|))
      ensures alive && !ShouldSkip(call.startedAt.value, mark) && Included(call, window) ==> call.callId in Handled()
      ensures Ingested(call, mark, old(ingests), |old(seen)|) && |ingests| == |old(ingests)| + seeded && OnlyIngested(old(tracked), old(jobs), old(ingests))
    {
      if ShouldSkip(call.startedAt.value, mark) || !Included(call, window) { return true, 0; }
      alive := Access(w);
      seeded := 0;
      if !alive { return; }
      if pipe.AlreadyIn(call.callId) {
        assert seen[|seen| - 1].AlreadyIn(call.callId);
        observed := observed + {call.callId};
      } else {
        Record(Ingest(call.callId, |seen| - 1), w);
        alive := IngestGap(call.callId, w);
        seeded := 1;
        assert ingests[|old(ingests)|..] == [Ingest(call.callId, |old(seen)|)];
        assert ingests[|old(ingests)|] in ingests[|old(ingests)|..];
      }
    }

    /** A call goes on record as ingested. */
    ghost method Record(x: Ingest, w: World)
      requires Honest(w)
      modifies this`ingests
      ensures Honest(w) && ingests == old(ingests) + [x] && x.id in IdsOf(ingests)
    {
      var ids, ids' := IdsOf(ingests), IdsOf(ingests + [x]);
      assert forall y :: y in ingests ==> y in ingests + [x];
      assert x in ingests + [x];
      TracedMore(w, start, seen, pipe, ids, ids');
      ingests := ingests + [x];
    }

    /** The record at place n of the listing. */
    method SweepRecord(call: Call, mark: Option<int>, ids: set<string>, w: World, ghost listing: seq<Call>, ghost n: nat)
      returns (alive: bool, seeded: nat)
      requires n < |listing| && listing[n] == call && call.startedAt.Some? && ids == Ids(listing, n)
      requires Sweeping(w, listing, n, mark)
      modifies this`pipe, this`clock, this`seen, this`tracked, this`jobs, this`observed, this`ingests
      ensures SafeMark(w, listing, mark) && old(seen) <= seen
      ensures if alive then Sweeping(w, listing, n + 1, mark) else Died(w, |old(seen)|, |seen|)
      ensures SoFar(listing, mark, old(seen), old(ingests), old(tracked), old(jobs)) && |ingests| == |old(ingests)| + seeded
    {
      IdsMember(listing, n);
      if call.callId in ids { return true, 0; }
      ghost var was := Handled();
      alive, seeded := SweepCall(call, mark, w);
      NewerGrows(listing, window, mark, was, Handled());
      if alive { PrefixGrows(listing, window, n, was, Handled(), mark); }
      if ingests != old(ingests) { assert IngestedFor(listing, window, mark, call.callId, n); }
    }

    /** Since then accesses were made, and what was ingested, tracked and enqueued was earned under the mark. */
    ghost predicate SoFar(listing: seq<Call>, mark: Option<int>, seen0: seq<Pipe>, was: seq<Ingest>, tracked0: set<string>, jobs0: set<string>)
      reads this
    {
      SoFarOf(listing, window, mark, seen0, was, tracked0, jobs0, seen, ingests, tracked, jobs)
    }

    /** The calls of one page; `n` is the page's place in the listing. */
    method SweepPage(calls: seq<Call>, mark: Option<int>, ids: set<string>, w: World, ghost listing: seq<Call>, ghost n: nat)
      returns (alive: bool, ids': set<string>, seeded: nat)
      requires Dated(calls) && n + |calls| <= |listing| && listing[n..n + |calls|] == calls
      requires ids == Ids(listing, n)
      requires Sweeping(w, listing, n, mark)
      modifies this`pipe, this`clock, this`seen, this`tracked, this`jobs, this`observed, this`ingests
      ensures SafeMark(w, listing, mark) && SoFar(listing, mark, old(seen), old(ingests), old(tracked), old(jobs)) && |ingests| == |old(ingests)| + seeded
      ensures if alive then Sweeping(w, listing, n + |calls|, mark) && ids' == Ids(listing, n + |calls|) else Died(w, |old(seen)|, |seen|)
    {
      ghost var seen0, was, tracked0, jobs0 := seen, ingests, tracked, jobs;
      ghost var good: Good := (s, x, t, j) => SoFarOf(listing, window, mark, seen0, was, tracked0, jobs0, s, x, t, j);
      NothingSoFar(listing, window, mark, seen, ingests, tracked, jobs);
      alive, ids', seeded := SweepCalls(calls, mark, ids, w, listing, n, good, seen0, was, tracked0, jobs0);
      assert good(seen, ingests, tracked, jobs) == SoFar(listing, mark, seen0, was, tracked0, jobs0);
    }

    method SweepCalls(calls: seq<Call>, mark: Option<int>, ids: set<string>, w: World, ghost listing: seq<Call>, ghost n: nat,
                      ghost good: Good, ghost seen0: seq<Pipe>, ghost was: seq<Ingest>, ghost tracked0: set<string>, ghost jobs0: set<string>)
      returns (alive: bool, ids': set<string>, seeded: nat)
      requires Dated(calls) && n + |calls| <= |listing| && listing[n..n + |calls|] == calls && ids == Ids(listing, n) && Sweeping(w, listing, n, mark)
      requires Judges(good, listing, window, mark, seen0, was, tracked0, jobs0) && good(seen, ingests, tracked, jobs) && seen0 == seen && was == ingests
      modifies this`pipe, this`clock, this`seen, this`tracked, this`jobs, this`observed, this`ingests
      ensures SafeMark(w, listing, mark) && good(seen, ingests, tracked, jobs) && |ingests| == |was| + seeded
      ensures if alive then Sweeping(w, listing, n + |calls|, mark) && ids' == Ids(listing, n + |calls|) else Died(w, |seen0|, |seen|)
    {
      ids', seeded := ids, 0;
      for k := 0 to |calls|
        invariant Sweeping(w, listing, n + k, mark) && ids' == Ids(listing, n + k) && good(seen, ingests, tracked, jobs) && |ingests| == |was| + seeded
      {
        var gained;
        alive, ids', gained := SweepNth(calls, k, mark, ids', w, listing, n, good, seen0, was, tracked0, jobs0);
        seeded := seeded + gained;
        if !alive { return; }
      }
      alive := true;
    }

    method SweepNth(calls: seq<Call>, k: nat, mark: Option<int>, ids: set<string>, w: World, ghost listing: seq<Call>, ghost n: nat,
                    ghost good: Good, ghost seen0: seq<Pipe>, ghost was: seq<Ingest>, ghost tracked0: set<string>, ghost jobs0: set<string>)
      returns (alive: bool, ids': set<string>, seeded: nat)
      requires k < |calls| && Dated(calls) && n + |calls| <= |listing| && listing[n..n + |calls|] == calls
      requires ids == Ids(listing, n + k) && Sweeping(w, listing, n + k, mark)
      requires Judges(good, listing, window, mark, seen0, was, tracked0, jobs0) && good(seen, ingests, tracked, jobs)
      modifies this`pipe, this`clock, this`seen, this`tracked, this`jobs, this`observed, this`ingests
      ensures SafeMark(w, listing, mark) && good(seen, ingests, tracked, jobs) && |ingests| == |old(ingests)| + seeded
      ensures if alive then Sweeping(w, listing, n + k + 1, mark) && ids' == Ids(listing, n + k + 1) else Died(w, |seen0|, |seen|)
    {
      RecordAt(listing, n, calls, k);
      alive, seeded := SweepOneMore(calls[k], mark, ids, w, listing, n + k, good, seen0, was, tracked0, jobs0);
      ids' := ids + {calls[k].callId};
    }

    method SweepOneMore(call: Call, mark: Option<int>, ids: set<string>, w: World, ghost listing: seq<Call>, ghost n: nat,
                        ghost good: Good, ghost seen0: seq<Pipe>, ghost was: seq<Ingest>, ghost tracked0: set<string>, ghost jobs0: set<string>)
      returns (alive: bool, seeded: nat)
      requires n < |listing| && listing[n] == call && call.startedAt.Some? && ids == Ids(listing, n) && Sweeping(w, listing, n, mark)
      requires Judges(good, listing, window, mark, seen0, was, tracked0, jobs0) && good(seen, ingests, tracked, jobs)
      modifies this`pipe, this`clock, this`seen, this`tracked, this`jobs, this`observed, this`ingests
      ensures SafeMark(w, listing, mark) && good(seen, ingests, tracked, jobs) && |ingests| == |old(ingests)| + seeded
      ensures if alive then Sweeping(w, listing, n + 1, mark) else Died(w, |seen0|, |seen|)
    {
      assert SoFarOf(listing, window, mark, seen0, was, tracked0, jobs0, seen, ingests, tracked, jobs);
      alive, seeded := SweepRecord(call, mark, ids, w, listing, n);
      SoFarMore(listing, window, mark, mark, seen0, was, tracked0, jobs0, old(seen), old(ingests), old(tracked), old(jobs), seen, ingests, tracked, jobs);
      assert good(seen, ingests, tracked, jobs) == SoFarOf(listing, window, mark, seen0, was, tracked0, jobs0, seen, ingests, tracked, jobs);
    }

    /** Validate a page, sweep its calls, and persist the watermark it allows. */
    method SweepAndCheckpoint(calls: seq<Call>, ids: set<string>, seeded: nat, w: World, ghost listing: seq<Call>, ghost n: nat)
      returns (alive: bool, ids': set<string>, seeded': nat)
      requires NewestFirst(listing) && n + |calls| <= |listing| && listing[n..n + |calls|] == calls && ids == Ids(listing, n)
      requires Sweeping(w, listing, n, watermark) && MarkBelow(listing, n, watermark)
      modifies this`pipe, this`clock, this`seen, this`tracked, this`jobs, this`seededTotal, this`observed, this`ingests, this`watermark
      ensures SafeMark(w, listing, watermark) && old(seen) <= seen
      ensures alive ==> Sweeping(w, listing, n + |calls|, watermark) && ids' == Ids(listing, n + |calls|) && MarkBelow(listing, n + |calls|, watermark)
      ensures !alive ==> Died(w, |old(seen)|, |seen|) || !Dated(calls)
      ensures SoFar(listing, old(watermark), old(seen), old(ingests), old(tracked), old(jobs)) && Lowered(watermark, old(watermark)) && (alive ==> seeded' == seeded + |ingests| - |old(ingests)|)
    {
      alive, ids', seeded' := false, ids, seeded;
      var bad := PageStartedAtFailure(calls);
      if bad.Some? { return; }
      var mark, gained := watermark, 0;
      alive, ids', gained := SweepPage(calls, mark, ids, w, listing, n);
      if !alive { return; }
      if |calls| > 0 {
        WatermarkSafe(listing, window, n, calls, mark, Handled());
        MarkAdvances(listing, n, calls, mark);
        mark := Some(AdvanceWatermark(mark, calls));
      }
      seeded' := seeded + gained;
      ghost var before := seen;
      alive := WriteCheckpoint(mark, seeded', w);
      SoFarLater(listing, window, old(watermark), old(seen), old(ingests), old(tracked), old(jobs), before, seen, ingests, tracked, jobs);
    }

    method WriteCheckpoint(mark: Option<int>, seeded: nat, w: World) returns (alive: bool)
      requires Honest(w)
      modifies this`pipe, this`clock, this`seen, this`watermark, this`seededTotal
      ensures Honest(w) && old(seen) <= seen && watermark == (if alive then mark else old(watermark)) && (!alive ==> Died(w, |old(seen)|, |seen|))
    {
      alive := Access(w);
      if alive { watermark, seededTotal := mark, seeded; }
    }

    /** One sweep over the pages served. Whenever it ends, the persisted watermark hides no unhandled call; if it
        gets to the last page every wanted call of the listing is handled; and it does get there unless the process
        dies or the pages are not a complete listing. It ingests only wanted calls that the watermark does not hide and
        that the access before saw outside the pipeline, and counts exactly these. */
    method Sweep(pages: seq<Page>, w: World, ghost listing: seq<Call>) returns (done: bool, seeded: nat)
      requires NewestFirst(listing) && Serves(pages, listing)
      requires SafeMark(w, listing, watermark)
      modifies this`pipe, this`clock, this`seen, this`tracked, this`jobs, this`seededTotal, this`observed, this`ingests, this`watermark
      ensures SafeMark(w, listing, watermark) && old(seen) <= seen
      ensures done ==> AllSwept(listing)
      ensures !done ==> Died(w, |old(seen)|, |seen|) || !Complete(pages)
      ensures SoFar(listing, old(watermark), old(seen), old(ingests), old(tracked), old(jobs)) && Lowered(watermark, old(watermark)) && (done ==> seeded == old(seededTotal) + |ingests| - |old(ingests)|)
    {
      ghost var at;
      done, seeded, at := SweepPages(pages, w, listing);
      if BrokenAt(pages, at) { NotComplete(pages, at); }
    }

    method SweepPages(pages: seq<Page>, w: World, ghost listing: seq<Call>) returns (done: bool, seeded: nat, ghost at: nat)
      requires NewestFirst(listing) && Serves(pages, listing)
      requires SafeMark(w, listing, watermark)
      modifies this`pipe, this`clock, this`seen, this`tracked, this`jobs, this`seededTotal, this`observed, this`ingests, this`watermark
      ensures SafeMark(w, listing, watermark) && old(seen) <= seen
      ensures done ==> AllSwept(listing)
      ensures !done ==> Died(w, |old(seen)|, |seen|) || BrokenAt(pages, at)
      ensures SoFar(listing, old(watermark), old(seen), old(ingests), old(tracked), old(jobs)) && Lowered(watermark, old(watermark)) && (done ==> seeded == old(seededTotal) + |ingests| - |old(ingests)|)
    {
      ghost var mark0, seen0, was, tracked0, jobs0 := watermark, seen, ingests, tracked, jobs;
      ghost var good: Good := (s, x, t, j) => SoFarOf(listing, window, mark0, seen0, was, tracked0, jobs0, s, x, t, j);
      NothingSoFar(listing, window, mark0, seen, ingests, tracked, jobs);
      done, seeded, at := SweepEach(pages, w, listing, good, mark0, seen0, was, tracked0, jobs0);
      assert good(seen, ingests, tracked, jobs) == SoFar(listing, mark0, seen0, was, tracked0, jobs0);
    }

    method SweepEach(pages: seq<Page>, w: World, ghost listing: seq<Call>, ghost good: Good,
                     ghost mark0: Option<int>, ghost seen0: seq<Pipe>, ghost was: seq<Ingest>, ghost tracked0: set<string>, ghost jobs0: set<string>)
      returns (done: bool, seeded: nat, ghost at: nat)
      requires NewestFirst(listing) && Serves(pages, listing) && SafeMark(w, listing, watermark) && mark0 == watermark && was == ingests && seen0 == seen
      requires Judges(good, listing, window, mark0, seen0, was, tracked0, jobs0) && good(seen, ingests, tracked, jobs)
      modifies this`pipe, this`clock, this`seen, this`tracked, this`jobs, this`seededTotal, this`observed, this`ingests, this`watermark
      ensures SafeMark(w, listing, watermark) && (done ==> AllSwept(listing))
      ensures !done ==> Died(w, |seen0|, |seen|) || BrokenAt(pages, at)
      ensures good(seen, ingests, tracked, jobs) && Lowered(watermark, mark0) && (done ==> seeded == old(seededTotal) + |ingests| - |was|)
    {
      var cursor: Option<string>, ids: set<string> := None, {};
      seeded, at := seededTotal, 0;
      for k := 0 to |pages|
        invariant GoingOn(w, listing, pages, k, cursor, ids) && at == k
        invariant good(seen, ingests, tracked, jobs) && Lowered(watermark, mark0) && seeded == old(seededTotal) + |ingests| - |was|
      {
        at := k;
        done, cursor, ids, seeded := SweepNextMore(pages, k, cursor, ids, seeded, w, listing, good, mark0, seen0, was, tracked0, jobs0);
        if !done || cursor.None? { return; }
        at := k + 1;
      }
      done := false;
    }

    /** The first k pages are swept, and they go on. */
    ghost predicate GoingOn(w: World, listing: seq<Call>, pages: seq<Page>, k: nat, cursor: Option<string>, ids: set<string>)
      reads this
    {
      GoesOn(pages, k) && cursor == CursorBefore(pages, k) && AtRecord(w, listing, |Flatten(pages[..k])|, ids)
    }

    method SweepNextMore(pages: seq<Page>, k: nat, cursor: Option<string>, ids: set<string>, seeded: nat, w: World, ghost listing: seq<Call>, ghost good: Good,
                         ghost mark0: Option<int>, ghost seen0: seq<Pipe>, ghost was: seq<Ingest>, ghost tracked0: set<string>, ghost jobs0: set<string>)
      returns (ok: bool, cursor': Option<string>, ids': set<string>, seeded': nat)
      requires NewestFirst(listing) && Serves(pages, listing) && k < |pages| && GoingOn(w, listing, pages, k, cursor, ids)
      requires Judges(good, listing, window, mark0, seen0, was, tracked0, jobs0) && good(seen, ingests, tracked, jobs) && Lowered(watermark, mark0)
      modifies this`pipe, this`clock, this`seen, this`tracked, this`jobs, this`seededTotal, this`observed, this`ingests, this`watermark
      ensures SafeMark(w, listing, watermark) && (ok && cursor'.Some? ==> GoingOn(w, listing, pages, k + 1, cursor', ids'))
      ensures ok && cursor'.None? ==> AllSwept(listing)
      ensures !ok ==> Died(w, |seen0|, |seen|) || BrokenAt(pages, k)
      ensures good(seen, ingests, tracked, jobs) && Lowered(watermark, mark0) && (ok ==> seeded' == seeded + |ingests| - |old(ingests)|)
    {
      PagePlace(pages, listing, k);
      ghost var n := |Flatten(pages[..k])|;
      ok, ids', seeded' := SweepGood(pages[k], cursor, ids, seeded, w, listing, n, n + |pages[k].calls|, good, mark0, seen0, was, tracked0, jobs0);
      cursor' := pages[k].cursor;
    }

    method SweepGood(page: Page, cursor: Option<string>, ids: set<string>, seeded: nat, w: World, ghost listing: seq<Call>, ghost n: nat, ghost n': nat,
                     ghost good: Good, ghost mark0: Option<int>, ghost seen0: seq<Pipe>, ghost was: seq<Ingest>, ghost tracked0: set<string>, ghost jobs0: set<string>)
      returns (ok: bool, ids': set<string>, seeded': nat)
      requires NewestFirst(listing) && AtRecord(w, listing, n, ids) && n' == n + |page.calls| <= |listing| && listing[n..n'] == page.calls
      requires Judges(good, listing, window, mark0, seen0, was, tracked0, jobs0) && good(seen, ingests, tracked, jobs) && Lowered(watermark, mark0)
      modifies this`pipe, this`clock, this`seen, this`tracked, this`jobs, this`seededTotal, this`observed, this`ingests, this`watermark
      ensures SafeMark(w, listing, watermark) && (ok ==> AtRecord(w, listing, n', ids'))
      ensures ok && n' == |listing| ==> AllSwept(listing)
      ensures !ok ==> Died(w, |seen0|, |seen|) || !Dated(page.calls) || (page.cursor.Some? && page.cursor == cursor)
      ensures good(seen, ingests, tracked, jobs) && Lowered(watermark, mark0) && (ok ==> seeded' == seeded + |ingests| - |old(ingests)|)
    {
      ghost var mark := watermark;
      assert SoFarOf(listing, window, mark0, seen0, was, tracked0, jobs0, seen, ingests, tracked, jobs);
      ok, ids', seeded' := SweepNext(page, cursor, ids, seeded, w, listing, n, n');
      SoFarMore(listing, window, mark, mark0, seen0, was, tracked0, jobs0, old(seen), old(ingests), old(tracked), old(jobs), seen, ingests, tracked, jobs);
      assert good(seen, ingests, tracked, jobs) == SoFarOf(listing, window, mark0, seen0, was, tracked0, jobs0, seen, ingests, tracked, jobs);
    }

    /** Every wanted call is handled, and the mark has come down to the oldest record. */
    ghost predicate AllSwept(listing: seq<Call>)
      reads this
    {
      CoversPrefix(listing, window, |listing|, Handled()) && MarkBelow(listing, |listing|, watermark)
    }

    /** The first n records are swept. */
    ghost predicate AtRecord(w: World, listing: seq<Call>, n: nat, ids: set<string>)
      reads this
    {
      n <= |listing| && ids == Ids(listing, n) && Sweeping(w, listing, n, watermark) && MarkBelow(listing, n, watermark)
    }

    method SweepNext(page: Page, cursor: Option<string>, ids: set<string>, seeded: nat, w: World, ghost listing: seq<Call>, ghost n: nat, ghost n': nat)
      returns (ok: bool, ids': set<string>, seeded': nat)
      requires NewestFirst(listing) && AtRecord(w, listing, n, ids) && n' == n + |page.calls| <= |listing| && listing[n..n'] == page.calls
      modifies this`pipe, this`clock, this`seen, this`tracked, this`jobs, this`seededTotal, this`observed, this`ingests, this`watermark
      ensures SafeMark(w, listing, watermark) && old(seen) <= seen && (ok ==> AtRecord(w, listing, n', ids'))
      ensures ok && n' == |listing| ==> AllSwept(listing)
      ensures !ok ==> Died(w, |old(seen)|, |seen|) || !Dated(page.calls) || (page.cursor.Some? && page.cursor == cursor)
      ensures SoFar(listing, old(watermark), old(seen), old(ingests), old(tracked), old(jobs)) && Lowered(watermark, old(watermark)) && (ok ==> seeded' == seeded + |ingests| - |old(ingests)|)
    {
      ok, ids', seeded' := SweepAndCheckpoint(page.calls, ids, seeded, w, listing, n);
      ok := ok && !(page.cursor.Some? && page.cursor == cursor);
    }

    /** Poll until no tracked call is in flight, for at most `polls` polls. */
    method Drain(polls: nat, seeded: nat, w: World) returns (done: bool)
      requires Honest(w)
      modifies this`pipe, this`clock, this`seen, this`drainedAt, this`seededTotal
      ensures Honest(w) && old(seen) <= seen && (done ==> Drained())
      ensures !done ==> Died(w, |old(seen)|, |seen|) || BusyThroughout(seen, |old(seen)|, polls, tracked)
    {
      for k := 0 to polls
        invariant Honest(w) && old(seen) <= seen && |seen| == |old(seen)| + k && BusyThroughout(seen, |old(seen)|, k, tracked)
      {
        done := Access(w);
        if !done { return; }
        seededTotal := seeded;
        var inFlight := set id | id in tracked && !pipe.Terminal(id);
        if inFlight == {} {
          drainedAt := |seen| - 1;
          forall id | id in tracked ensures seen[drainedAt].Terminal(id) { assert id !in inFlight; }
          return true;
        }
        BusyOnce(pipe, tracked, inFlight);
      }
      return false;
    }

    /** The only reasons not to finish: the process dies, the pages are not a complete listing, or a tracked call is in
        flight at every poll the drain is allowed. */
    ghost predicate Excused(w: World, inv: Invocation, since: nat)
      reads this
    {
      || Died(w, since, |seen|) || !Complete(inv.pages)
      || exists from: nat :: since <= from && BusyThroughout(seen, from, inv.polls, tracked)
    }

    /** One invocation with `--resume`, possibly with `--restart-from-scratch`. */
    method RunBackfill(inv: Invocation, w: World, ghost listing: seq<Call>) returns (outcome: Outcome)
      requires Valid(listing, w) && NewestFirst(listing) && Serves(inv.pages, listing)
      modifies this
      ensures Valid(listing, w) && old(seen) <= seen
      ensures outcome.Finished? ==> status == Completed && outcome.terminalCount == |tracked| <= outcome.seededTotal
      ensures outcome.Finished? ==> outcome.seededTotal == Larger((if inv.restart then 0 else old(seededTotal)) + |ingests| - |old(ingests)|, |tracked|)
      ensures old(status) == Completed || inv.window != window ==> outcome == Refused
      ensures outcome == Refused ==> status == old(status) && tracked == old(tracked) && watermark == old(watermark)
      ensures outcome == Refused ==> (old(status) == Completed || inv.window != window) && ingests == old(ingests) && jobs == old(jobs)
      ensures outcome == Stopped ==> Excused(w, inv, |old(seen)|)
      ensures Gained(listing, window, if inv.restart then None else old(watermark), seen, old(ingests), ingests)
      ensures OnlyIngested(if inv.restart then {} else old(tracked), old(jobs), old(ingests)) || outcome == Refused
    {
      if status == Completed || inv.window != window { return Refused; }
      status := Running;
      if inv.restart { watermark, tracked, seededTotal := None, {}, 0; }
      outcome := SweepAndDrain(inv, w, listing);
      EarnedAtAll(listing, window, if inv.restart then None else old(watermark), old(seen), seen, old(ingests), ingests);
    }

    method SweepAndDrain(inv: Invocation, w: World, ghost listing: seq<Call>) returns (outcome: Outcome)
      requires Honest(w) && status == Running && NewestFirst(listing) && Serves(inv.pages, listing)
      requires CoversNewer(listing, window, watermark, Handled())
      modifies this
      ensures Honest(w) && old(seen) <= seen && CoversNewer(listing, window, watermark, Handled())
      ensures (outcome == Stopped && status == Failed)
        || (outcome.Finished? && status == Completed && CoversPrefix(listing, window, |listing|, Handled()) && Drained()
            && outcome.terminalCount == |tracked| <= outcome.seededTotal)
      ensures outcome.Finished? ==> outcome.seededTotal == Larger(old(seededTotal) + |ingests| - |old(ingests)|, |tracked|)
      ensures outcome == Stopped ==> Excused(w, inv, |old(seen)|)
      ensures Gained(listing, window, old(watermark), seen, old(ingests), ingests) && OnlyIngested(old(tracked), old(jobs), old(ingests))
    {
      var done, seeded := Sweep(inv.pages, w, listing);
      ghost var before := seen;
      if done {
        if seeded < |tracked| { seeded := |tracked|; }
        done := Finish(inv.polls, seeded, w);
      }
      SoFarLater(listing, window, old(watermark), old(seen), old(ingests), old(tracked), old(jobs), before, seen, ingests, tracked, jobs);
      if done {
        outcome := Finished(seeded, |tracked|);
      } else {
        status := Failed;
        outcome := Stopped;
      }
    }

    /** Drain, then mark the run completed. */
    method Finish(polls: nat, seeded: nat, w: World) returns (done: bool)
      requires Honest(w) && status == Running
      modifies this`pipe, this`clock, this`seen, this`drainedAt, this`seededTotal, this`status
      ensures Honest(w) && old(seen) <= seen && (done ==> status == Completed && Drained()) && (!done ==> status == Running)
      ensures !done ==> Died(w, |old(seen)|, |seen|) || BusyThroughout(seen, |old(seen)|, polls, tracked)
    {
      done := Drain(polls, seeded, w);
      if !done { return; }
      done := Access(w);
      if done { status := Completed; }
    }

    /** Any sequence of crashed, resumed and restarted invocations: once one of them completes the run, every
        wanted call of the listing was in the pipeline at some access, or is tracked, was enqueued and was terminal
        at the drain's last access. */
    method Invocations(invs: seq<Invocation>, w: World, ghost listing: seq<Call>) returns (finished: bool)
      requires Valid(listing, w) && NewestFirst(listing) && forall inv :: inv in invs ==> Serves(inv.pages, listing)
      modifies this
      ensures Valid(listing, w) && old(seen) <= seen && (finished ==> status == Completed && drainedAt < |seen|)
      ensures forall id :: id in tracked || id in jobs ==> exists x :: x in ingests && x.id == id && Earned(listing, window, None, seen, x)
      ensures finished ==> forall i: nat :: Wanted(listing, window, i) ==>
          SawIn(seen, listing[i].callId)
          || (listing[i].callId in tracked && listing[i].callId in jobs && seen[drainedAt].Terminal(listing[i].callId))
    {
      finished := false;
      for k := 0 to |invs|
        invariant Valid(listing, w) && old(seen) <= seen && (finished ==> status == Completed)
      {
        var outcome := RunBackfill(invs[k], w, listing);
        finished := finished || outcome.Finished?;
      }
      forall id | id in tracked || id in jobs ensures exists x :: x in ingests && x.id == id && Earned(listing, window, None, seen, x) {
        var k :| 0 <= k < |ingests| && ingests[k].id == id;
        assert ingests[k] in ingests;
      }
      if finished {
        forall i: nat | Wanted(listing, window, i)
          ensures SawIn(seen, listing[i].callId)
                  || (listing[i].callId in tracked && listing[i].callId in jobs && seen[drainedAt].Terminal(listing[i].callId))
        {
          assert listing[i].callId in Handled();
        }
      }
    }
  }

  function Larger(a: int, b: int): int { if a < b then b else a }

  /** What was earned before and what was earned since are earned without any mark. */
  lemma {:induction false} EarnedAtAll(listing: seq<Call>, window: Window, mark: Option<int>, seen: seq<Pipe>, seen': seq<Pipe>, xs: seq<Ingest>, xs': seq<Ingest>)
    requires AllEarned(listing, window, None, seen, xs) && Gained(listing, window, mark, seen', xs, xs') && seen <= seen'
    ensures AllEarned(listing, window, None, seen', xs')
  {
    AllEarnedStay(listing, window, None, None, seen, seen', xs);
    AllEarnedStay(listing, window, mark, None, seen', seen', xs'[|xs|..]);
    assert xs' == xs + xs'[|xs|..];
  }

  lemma {:induction false} BusyOnce(p: Pipe, tracked: set<string>, inFlight: set<string>)
    requires inFlight != {} && inFlight == set id | id in tracked && !p.Terminal(id)
    ensures Busy(p, tracked)
  {
    var id :| id in inFlight;
  }

  lemma {:induction false} NewerGrows(listing: seq<Call>, window: Window, mark: Option<int>, a: set<string>, b: set<string>)
    requires CoversNewer(listing, window, mark, a) && a <= b
    ensures CoversNewer(listing, window, mark, b)
  {}

  /** One more record: handled now, hidden by a watermark that only hides handled calls, or not wanted. */
  lemma {:induction false} PrefixGrows(listing: seq<Call>, window: Window, n: nat, was: set<string>, handled: set<string>, mark: Option<int>)
    requires n < |listing| && listing[n].startedAt.Some? && was <= handled
    requires CoversPrefix(listing, window, n, was) && CoversNewer(listing, window, mark, handled)
    requires !ShouldSkip(listing[n].startedAt.value, mark) && Included(listing[n], window) ==> listing[n].callId in handled
    ensures CoversPrefix(listing, window, n + 1, handled)
  {}
}
