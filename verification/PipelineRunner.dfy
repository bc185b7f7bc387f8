/** Any number of concurrent, crashing and retried runners driving one call through the pipeline. */
module PipelineRunner {

  const LAST := 8
  const SKIP_STAGES := {0, 1, 4}

  datatype Status = Processing | Completed | Skipped | Held
  datatype Outcome = Done | Dropped | Parked
  datatype LogRow = LogRow(stage: nat, outcome: Outcome)

  /** The call_state row together with its processing_log and whether it has an active review row. */
  datatype Row = Row(stage: nat, status: Status, dropReason: bool, review: bool, log: seq<LogRow>)

  const SEEDED := Row(0, Processing, false, false, [])

  // ---------- the repository's three writes, each one transaction ----------

  datatype Write = Committed(row: Row) | Stale

  /** advanceStage: guarded by the stage alone. */
  function AdvanceStage(row: Row, fromStage: nat, toStage: nat, completes: bool): Write {
    if row.stage != fromStage then Stale
    else Committed(row.(stage := toStage, status := if completes then Completed else row.status,
                        log := row.log + [LogRow(fromStage, Done)]))
  }

  /** skipCall: guarded by the stage and by status = processing. */
  function SkipCall(row: Row, atStage: nat): Write {
    if row.stage != atStage || row.status != Processing then Stale
    else Committed(row.(status := Skipped, dropReason := true, log := row.log + [LogRow(atStage, Dropped)]))
  }

  /** holdCall: guarded by the stage and by status = processing; writes the review row in the same commit. */
  function HoldCall(row: Row, atStage: nat): Write {
    if row.stage != atStage || row.status != Processing then Stale
    else Committed(row.(status := Held, review := true, log := row.log + [LogRow(atStage, Parked)]))
  }

  // ---------- one runner ----------

  datatype Action = Continue | Drop | Defer | Hold

  /** Where a run of the pipeline is between two database accesses. */
  datatype Runner =
    | Idle
    | AtStage(index: nat)
    | Returned(index: nat, action: Action)
    | Racing(index: nat, action: Action)
    | Finished
    | Failed

  predicate Live(r: Runner) { r.AtStage? || r.Returned? || r.Racing? }

  /** The guards at the top of runPipeline. */
  function Begin(row: Row): Runner {
    match row.status
    case Completed => if row.stage == LAST then Finished else Failed
    case Skipped => if row.stage in SKIP_STAGES && row.dropReason then Finished else Failed
    case Held => if row.stage <= LAST && row.review then Finished else Failed
    case Processing => if row.stage <= LAST then AtStage(row.stage) else Failed
  }

  function WriteOf(row: Row, i: nat, a: Action): Write {
    match a
    case Continue => AdvanceStage(row, i, if i == LAST then LAST else i + 1, i == LAST)
    case Drop => SkipCall(row, i)
    case Hold => HoldCall(row, i)
    case Defer => Stale
  }

  function AfterCommit(i: nat, a: Action): Runner { if a == Continue && i != LAST then AtStage(i + 1) else Finished }

  /** What a runner does after a stale write, having re-read the row: `resolveStale` and the race branches. */
  function Resolve(row: Row, i: nat, a: Action): Runner {
    match a
    case Continue =>
      var target := if i == LAST then LAST else i + 1;
      if row.status == Completed then (if row.stage >= target then Finished else Failed)
      else if row.status == Processing then (if row.stage >= target then AtStage(row.stage) else Failed)
      else Failed
    case Drop => if row.status == Skipped || row.status == Completed then Finished else Failed
    case Hold => if row.status != Processing then Finished else Failed
    case Defer => Finished
  }

  // ---------- all runners ----------

  datatype Event = Start(id: nat) | Handle(id: nat, action: Action) | Throw(id: nat) | Commit(id: nat) | Reread(id: nat) | Crash(id: nat)

  datatype Sys = Sys(row: Row, runners: map<nat, Runner>)

  function Get(s: Sys, id: nat): Runner { if id in s.runners then s.runners[id] else Idle }

  function Put(s: Sys, id: nat, r: Runner): Sys { s.(runners := s.runners[id := r]) }

  /** One atomic step; an event that is not enabled changes nothing. */
  function Step(s: Sys, e: Event): Sys {
    var r := Get(s, e.id);
    match e
    case Start(id) => if Live(r) then s else Put(s, id, Begin(s.row))
    case Handle(id, a) => if r.AtStage? then Put(s, id, if a == Defer then Finished else Returned(r.index, a)) else s
    case Throw(id) => if r.AtStage? then Put(s, id, Failed) else s
    case Commit(id) =>
      if !r.Returned? then s
      else (match WriteOf(s.row, r.index, r.action)
            case Committed(row) => Put(s.(row := row), id, AfterCommit(r.index, r.action))
            case Stale => Put(s, id, Racing(r.index, r.action)))
    case Reread(id) => if r.Racing? then Put(s, id, Resolve(s.row, r.index, r.action)) else s
    case Crash(id) => Put(s, id, Idle)
  }

  function Run(s: Sys, es: seq<Event>): Sys {
    if es == [] then s else Step(Run(s, es[..|es| - 1]), es[|es| - 1])
  }

  const INITIAL := Sys(SEEDED, map[])

  // ---------- what holds in every run ----------

  function DoneStages(log: seq<LogRow>): seq<nat> {
    if log == [] then []
    else
      var front, last := DoneStages(log[..|log| - 1]), log[|log| - 1];
      if last.outcome == Done then front + [last.stage] else front
  }

  function FirstStages(k: nat): (r: seq<nat>)
    ensures |r| == k && forall i :: 0 <= i < k ==> r[i] == i
  {
    seq(k, i => i)
  }

  function Repeat(x: nat, n: nat): (r: seq<nat>)
    ensures |r| == n && forall i :: 0 <= i < n ==> r[i] == x
  {
    seq(n, _ => x)
  }

  /** The completed log rows are the stages before the current one, in order and once each, followed by
      `extra` rows of the final stage; there are such rows exactly when the status is completed. */
  ghost predicate LogShape(row: Row, extra: nat) {
    && row.stage <= LAST
    && DoneStages(row.log) == FirstStages(row.stage) + Repeat(LAST, extra)
    && (extra > 0 <==> row.status == Completed)
    && (extra > 0 ==> row.stage == LAST)
  }

  ghost predicate RowOk(row: Row) {
    && (exists extra: nat :: LogShape(row, extra))
    && (row.status == Held ==> row.review)
    && (row.status == Skipped ==> row.dropReason)
  }

  /** A runner is never ahead of the database; a stale advance means the database is strictly ahead. */
  ghost predicate RunnerOk(row: Row, r: Runner) {
    && (Live(r) ==> r.index <= row.stage)
    && (r.Returned? ==> r.action != Defer)
    && (r.Racing? ==> (r.action == Continue ==> r.index < row.stage)
                      && (r.action == Drop || r.action == Hold ==> r.index < row.stage || row.status != Processing))
  }

  ghost predicate Inv(s: Sys) {
    RowOk(s.row) && forall id {:trigger Get(s, id)} :: RunnerOk(s.row, Get(s, id))
  }

  /** Stages only move forward, and processing is never re-entered. */
  predicate Forward(a: Row, b: Row) {
    a.stage <= b.stage && (a.status != Processing ==> b.status != Processing) && (a.status == Completed ==> b.status == Completed)
  }

  lemma {:induction false} DoneAppend(log: seq<LogRow>, l: LogRow)
    ensures DoneStages(log + [l]) == if l.outcome == Done then DoneStages(log) + [l.stage] else DoneStages(log)
  {
    assert (log + [l])[..|log|] == log;
  }

  lemma {:induction false} AdvanceOk(row: Row, i: nat)
    requires RowOk(row) && row.stage == i
    ensures var w := WriteOf(row, i, Continue); w.Committed? && RowOk(w.row) && Forward(row, w.row)
  {
    var extra: nat :| LogShape(row, extra);
    var row' := WriteOf(row, i, Continue).row;
    DoneAppend(row.log, LogRow(i, Done));
    if i == LAST {
      assert DoneStages(row'.log) == FirstStages(LAST) + Repeat(LAST, extra + 1);
      assert LogShape(row', extra + 1);
    } else {
      assert extra == 0;
      assert DoneStages(row'.log) == FirstStages(i + 1) + Repeat(LAST, 0);
      assert LogShape(row', 0);
    }
  }

  lemma {:induction false} StopOk(row: Row, i: nat, a: Action)
    requires RowOk(row) && (a == Drop || a == Hold) && WriteOf(row, i, a).Committed?
    ensures var w := WriteOf(row, i, a); RowOk(w.row) && Forward(row, w.row)
  {
    var extra: nat :| LogShape(row, extra);
    DoneAppend(row.log, LogRow(i, if a == Drop then Dropped else Parked));
    assert LogShape(WriteOf(row, i, a).row, 0);
  }

  lemma {:induction false} BeginOk(row: Row)
    requires RowOk(row)
    ensures RunnerOk(row, Begin(row))
  {}

  lemma {:induction false} ResolveOk(row: Row, i: nat, a: Action)
    requires RowOk(row) && RunnerOk(row, Racing(i, a))
    ensures RunnerOk(row, Resolve(row, i, a))
    ensures Resolve(row, i, a).AtStage? ==> a == Continue && Resolve(row, i, a).index > i
  {}

  lemma {:induction false} RunnerKept(a: Row, b: Row, r: Runner)
    requires RunnerOk(a, r) && Forward(a, b)
    ensures RunnerOk(b, r)
  {}

  /** Every step keeps the invariant, whatever the interleaving, crashes and retries. */
  lemma {:induction false} StepKeepsInv(s: Sys, e: Event)
    requires Inv(s)
    ensures Inv(Step(s, e)) && Forward(s.row, Step(s, e).row)
  {
    OwnOk(s, e);
    OthersKept(s, Step(s, e), e.id);
  }

  lemma {:induction false} OwnOk(s: Sys, e: Event)
    requires RowOk(s.row) && RunnerOk(s.row, Get(s, e.id))
    ensures var s' := Step(s, e); RowOk(s'.row) && Forward(s.row, s'.row) && RunnerOk(s'.row, Get(s', e.id))
  {
    var r := Get(s, e.id);
    match e
    case Start(_) => BeginOk(s.row);
    case Reread(_) => if r.Racing? { ResolveOk(s.row, r.index, r.action); }
    case Commit(_) => if r.Returned? { WriteOk(s.row, r.index, r.action); }
    case _ =>
  }

  lemma {:induction false} WriteOk(row: Row, i: nat, a: Action)
    requires RowOk(row) && RunnerOk(row, Returned(i, a))
    ensures match WriteOf(row, i, a)
            case Committed(r) => RowOk(r) && Forward(row, r) && RunnerOk(r, AfterCommit(i, a))
            case Stale => RunnerOk(row, Racing(i, a))
  {
    if WriteOf(row, i, a).Committed? {
      if a == Continue { AdvanceOk(row, i); } else { StopOk(row, i, a); }
    }
  }

  lemma {:induction false} OthersKept(s: Sys, s': Sys, id: nat)
    requires Inv(s) && RowOk(s'.row) && Forward(s.row, s'.row)
    requires RunnerOk(s'.row, Get(s', id)) && forall other: nat :: other != id ==> Get(s', other) == Get(s, other)
    ensures Inv(s')
  {
    forall other: nat ensures RunnerOk(s'.row, Get(s', other)) {
      if other != id { RunnerKept(s.row, s'.row, Get(s, other)); }
    }
  }

  lemma {:induction false} InitialOk()
    ensures Inv(INITIAL)
  {
    assert LogShape(SEEDED, 0);
  }

  /** In every run the completed rows are the earlier stages in order, once each, then the final stage once
      per committed completion. */
  lemma {:induction false} RunKeepsInv(es: seq<Event>)
    ensures Inv(Run(INITIAL, es))
  {
    if es == [] { InitialOk(); } else { RunKeepsInv(es[..|es| - 1]); StepKeepsInv(Run(INITIAL, es[..|es| - 1]), es[|es| - 1]); }
  }

  // ---------- exactly when a run is exactly-once ----------

  /** Completed rows: exactly the first k stages, in order, once each; all nine when completed. */
  ghost predicate ExactlyOnce(row: Row) {
    && row.stage <= LAST
    && DoneStages(row.log) == FirstStages(if row.status == Completed then LAST + 1 else row.stage)
    && (row.status == Completed ==> row.stage == LAST)
    && (row.status == Held ==> row.review)
  }

  /** Exactly-once log rows, and a terminal row is left alone. */
  ghost predicate GoodStep(s: Sys, e: Event) {
    ExactlyOnce(Step(s, e).row) && (s.row.status != Processing ==> Step(s, e).row == s.row)
  }

  /** A handler's continue is committed on a row that has meanwhile left processing. */
  predicate LateAdvance(s: Sys, e: Event) {
    e.Commit? && Get(s, e.id).Returned? && Get(s, e.id).action == Continue
    && s.row.stage == Get(s, e.id).index && s.row.status != Processing
  }

  lemma {:induction false} StepExact(s: Sys, e: Event)
    requires Inv(s) && ExactlyOnce(s.row)
    ensures GoodStep(s, e) <==> !LateAdvance(s, e)
  {
    var r := Get(s, e.id);
    if LateAdvance(s, e) {
      assert |Step(s, e).row.log| == |s.row.log| + 1;
    } else if Step(s, e).row != s.row {
      AdvanceExact(s.row, r.index, r.action);
    }
  }

  lemma {:induction false} DoneNext(log: seq<LogRow>, i: nat)
    requires DoneStages(log) == FirstStages(i)
    ensures DoneStages(log + [LogRow(i, Done)]) == FirstStages(i + 1)
  {
    DoneAppend(log, LogRow(i, Done));
    assert FirstStages(i) + [i] == FirstStages(i + 1);
  }

  lemma {:induction false} AdvanceExact(row: Row, i: nat, a: Action)
    requires ExactlyOnce(row) && row.status == Processing && WriteOf(row, i, a).Committed?
    ensures ExactlyOnce(WriteOf(row, i, a).row)
  {
    if a == Continue {
      DoneNext(row.log, i);
    } else {
      DoneAppend(row.log, LogRow(i, if a == Drop then Dropped else Parked));
    }
  }

  ghost predicate GoodRun(es: seq<Event>) {
    forall n :: 0 <= n < |es| ==> GoodStep(Run(INITIAL, es[..n]), es[n])
  }

  ghost predicate NoLateAdvance(es: seq<Event>) {
    forall n :: 0 <= n < |es| ==> !LateAdvance(Run(INITIAL, es[..n]), es[n])
  }

  lemma {:induction false} PrefixExact(es: seq<Event>, n: nat)
    requires n <= |es| && forall m :: 0 <= m < n ==> !LateAdvance(Run(INITIAL, es[..m]), es[m])
    ensures ExactlyOnce(Run(INITIAL, es[..n]).row)
  {
    if n > 0 {
      PrefixExact(es, n - 1);
      RunKeepsInv(es[..n - 1]);
      StepExact(Run(INITIAL, es[..n - 1]), es[n - 1]);
      assert es[..n][..n - 1] == es[..n - 1];
    }
  }

  /** A run has exactly-once log rows and absorbing terminal states, throughout, exactly when no handler's
      continue is committed after the row has left processing. */
  lemma {:induction false} GoodRunIff(es: seq<Event>)
    ensures GoodRun(es) <==> NoLateAdvance(es)
  {
    if NoLateAdvance(es) {
      forall n | 0 <= n < |es| ensures GoodStep(Run(INITIAL, es[..n]), es[n]) {
        PrefixExact(es, n);
        RunKeepsInv(es[..n]);
        StepExact(Run(INITIAL, es[..n]), es[n]);
      }
    }
    if GoodRun(es) {
      forall n | 0 <= n < |es| ensures !LateAdvance(Run(INITIAL, es[..n]), es[n]) {
        GoodPrefix(es, n);
        RunKeepsInv(es[..n]);
        StepExact(Run(INITIAL, es[..n]), es[n]);
        assert GoodStep(Run(INITIAL, es[..n]), es[n]);
      }
    }
  }

  lemma {:induction false} GoodPrefix(es: seq<Event>, n: nat)
    requires GoodRun(es) && n <= |es|
    ensures ExactlyOnce(Run(INITIAL, es[..n]).row)
  {
    if n > 0 {
      assert GoodStep(Run(INITIAL, es[..n - 1]), es[n - 1]);
      assert es[..n][..n - 1] == es[..n - 1];
    } else {
      assert DoneStages([]) == [] && es[..0] == [];
    }
  }

  // ---------- runners that take turns ----------

  /** No runner starts while another is live. */
  ghost predicate TakeTurns(es: seq<Event>) {
    forall n :: 0 <= n < |es| && es[n].Start? ==>
      forall id: nat :: id != es[n].id ==> !Live(Get(Run(INITIAL, es[..n]), id))
  }

  /** At most one runner is live, and the row has not moved under it. */
  ghost predicate Alone(s: Sys) {
    && (forall a: nat, b: nat :: Live(Get(s, a)) && Live(Get(s, b)) ==> a == b)
    && (forall a: nat :: Live(Get(s, a)) ==> StillThere(s, a))
  }

  lemma {:induction false} StepAlone(s: Sys, e: Event)
    requires Inv(s) && Alone(s)
    requires e.Start? ==> forall id: nat :: id != e.id ==> !Live(Get(s, id))
    ensures Alone(Step(s, e)) && !LateAdvance(s, e)
  {
    var r, s' := Get(s, e.id), Step(s, e);
    assert RunnerOk(s.row, r);
    forall other: nat | other != e.id ensures Get(s', other) == Get(s, other) && (Live(r) ==> !Live(Get(s', other))) {}
    if e.Commit? && r.Returned? { assert WriteOf(s.row, r.index, r.action).Committed?; }
    forall a: nat, b: nat | Live(Get(s', a)) && Live(Get(s', b)) ensures a == b {}
    forall a: nat | Live(Get(s', a)) ensures StillThere(s', a) {
      if a == e.id { OwnStillThere(s, e); } else { assert StillThere(s, a); }
    }
  }

  ghost predicate StillThere(s: Sys, id: nat) {
    !Get(s, id).Racing? && Live(Get(s, id)) && Get(s, id).index == s.row.stage && s.row.status == Processing
  }

  lemma {:induction false} OwnStillThere(s: Sys, e: Event)
    requires Inv(s) && (Live(Get(s, e.id)) ==> StillThere(s, e.id)) && Live(Get(Step(s, e), e.id))
    ensures StillThere(Step(s, e), e.id)
  {
  }

  /** Crashing and retried runners that take turns give exactly-once log rows and absorbing terminal states. */
  lemma {:induction false} TurnsAreGood(es: seq<Event>)
    requires TakeTurns(es)
    ensures GoodRun(es)
  {
    forall n | 0 <= n < |es| ensures !LateAdvance(Run(INITIAL, es[..n]), es[n]) {
      AlonePrefix(es, n);
      RunKeepsInv(es[..n]);
      StepAlone(Run(INITIAL, es[..n]), es[n]);
    }
    GoodRunIff(es);
  }

  lemma {:induction false} AlonePrefix(es: seq<Event>, n: nat)
    requires TakeTurns(es) && n <= |es|
    ensures Alone(Run(INITIAL, es[..n]))
  {
    if n > 0 {
      AlonePrefix(es, n - 1);
      RunKeepsInv(es[..n - 1]);
      StepAlone(Run(INITIAL, es[..n - 1]), es[n - 1]);
      assert es[..n][..n - 1] == es[..n - 1];
    } else {
      assert es[..0] == [];
    }
  }

  // ---------- termination and re-running ----------

  /** Database accesses and handler calls a runner still has ahead of it. */
  function Fuel(r: Runner): nat {
    match r
    case AtStage(i) => if i <= LAST then 3 * (LAST + 1 - i) else 0
    case Returned(i, _) => if i <= LAST then 3 * (LAST + 1 - i) - 1 else 0
    case Racing(i, _) => if i <= LAST then 3 * (LAST + 1 - i) - 2 else 0
    case _ => 0
  }

  predicate OwnStep(s: Sys, e: Event, id: nat) {
    e.id == id && ((e.Handle? && Get(s, id).AtStage?) || (e.Throw? && Get(s, id).AtStage?)
                   || (e.Commit? && Get(s, id).Returned?) || (e.Reread? && Get(s, id).Racing?))
  }

  /** A started runner finishes: each of its own steps uses up fuel, and nobody else's step touches it. Its
      local index only grows, through stale recovery too. */
  lemma {:induction false} RunnerTerminates(s: Sys, e: Event, id: nat)
    requires Inv(s) && Live(Get(s, id))
    ensures OwnStep(s, e, id) ==> Fuel(Get(Step(s, e), id)) < Fuel(Get(s, id))
    ensures e.id != id ==> Get(Step(s, e), id) == Get(s, id)
    ensures OwnStep(s, e, id) && Get(Step(s, e), id).AtStage? ==> Get(Step(s, e), id).index > Get(s, id).index
  {
    var r := Get(s, id);
    assert RunnerOk(s.row, r);
    var extra: nat :| LogShape(s.row, extra);
    if r.Racing? { ResolveOk(s.row, r.index, r.action); }
  }

  /** Starting on a row that has left processing calls no handler and writes nothing. */
  lemma {:induction false} RestartWritesNothing(s: Sys, id: nat)
    requires Inv(s) && s.row.status != Processing && !Live(Get(s, id))
    ensures Step(s, Start(id)).row == s.row && !Live(Get(Step(s, Start(id)), id))
  {}

  /** Handlers ask to drop only at skip stages. */
  ghost predicate DropsAtSkipStages(es: seq<Event>) {
    forall n :: 0 <= n < |es| && es[n].Handle? && es[n].action == Drop && Get(Run(INITIAL, es[..n]), es[n].id).AtStage?
      ==> Get(Run(INITIAL, es[..n]), es[n].id).index in SKIP_STAGES
  }

  ghost predicate DropsOk(s: Sys) {
    && (s.row.status == Skipped ==> s.row.stage in SKIP_STAGES)
    && (forall id {:trigger Get(s, id)} :: Get(s, id).Returned? && Get(s, id).action == Drop ==> Get(s, id).index in SKIP_STAGES)
  }

  lemma {:induction false} StepKeepsDrops(s: Sys, e: Event)
    requires DropsOk(s) && !LateAdvance(s, e)
    requires e.Handle? && e.action == Drop && Get(s, e.id).AtStage? ==> Get(s, e.id).index in SKIP_STAGES
    ensures DropsOk(Step(s, e))
  {
    var s' := Step(s, e);
    forall id: nat ensures Get(s', id).Returned? && Get(s', id).action == Drop ==> Get(s', id).index in SKIP_STAGES {
      if id != e.id { assert Get(s', id) == Get(s, id); }
    }
  }

  lemma {:induction false} RunKeepsDrops(es: seq<Event>, n: nat)
    requires NoLateAdvance(es) && DropsAtSkipStages(es) && n <= |es|
    ensures DropsOk(Run(INITIAL, es[..n]))
  {
    if n > 0 {
      RunKeepsDrops(es, n - 1);
      StepKeepsDrops(Run(INITIAL, es[..n - 1]), es[n - 1]);
      assert es[..n][..n - 1] == es[..n - 1];
    }
  }

  /** After any run without late advances whose handlers drop only at skip stages, starting on a row that has left
      processing returns normally, calls no handler and writes nothing. */
  lemma {:induction false} RestartIsNoOp(es: seq<Event>, id: nat)
    requires NoLateAdvance(es) && DropsAtSkipStages(es)
    requires Run(INITIAL, es).row.status != Processing && !Live(Get(Run(INITIAL, es), id))
    ensures var s := Run(INITIAL, es); Step(s, Start(id)) == Put(s, id, Finished)
  {
    assert es[..|es|] == es;
    RunKeepsDrops(es, |es|);
    RunKeepsInv(es);
    PrefixExact(es, |es|);
  }

  // ---------- an advance that also guards on the status ----------

  /** The same step with `status = processing` in advanceStage's guard, as its two siblings have it. */
  function GuardedStep(s: Sys, e: Event): Sys {
    if LateAdvance(s, e) then Put(s, e.id, Racing(Get(s, e.id).index, Continue)) else Step(s, e)
  }

  function GuardedRun(s: Sys, es: seq<Event>): Sys {
    if es == [] then s else GuardedStep(GuardedRun(s, es[..|es| - 1]), es[|es| - 1])
  }

  lemma {:induction false} GuardedStepExact(s: Sys, e: Event)
    requires ExactlyOnce(s.row)
    ensures ExactlyOnce(GuardedStep(s, e).row) && (s.row.status != Processing ==> GuardedStep(s, e).row == s.row)
  {
    var r := Get(s, e.id);
    if !LateAdvance(s, e) && Step(s, e).row != s.row { AdvanceExact(s.row, r.index, r.action); }
  }

  /** With that guard every run, whatever the interleaving, has exactly-once log rows, and a terminal row is never
      written again. */
  lemma {:induction false} GuardedRunsAreGood(es: seq<Event>, e: Event)
    ensures var s := GuardedRun(INITIAL, es);
            ExactlyOnce(s.row) && (s.row.status != Processing ==> GuardedStep(s, e).row == s.row)
  {
    if es == [] {
      assert DoneStages([]) == [];
    } else {
      var n := |es| - 1;
      GuardedRunsAreGood(es[..n], es[n]);
      GuardedStepExact(GuardedRun(INITIAL, es[..n]), es[n]);
    }
    GuardedStepExact(GuardedRun(INITIAL, es), e);
  }

  // ---------- runPipeline itself, other runners acting between its database accesses ----------

  datatype HandlerResult = Threw | Result(action: Action)

  predicate NotBy(es: seq<Event>, id: nat) { forall e :: e in es ==> e.id != id }

  lemma {:induction false} OthersLeave(s: Sys, es: seq<Event>, id: nat, own: Runner)
    requires NotBy(es, id)
    ensures Run(Put(s, id, own), es) == Put(Run(s, es), id, own)
  {
    if es != [] {
      var front, e := es[..|es| - 1], es[|es| - 1];
      OthersLeave(s, front, id, own);
      assert e in es;
      var m := Run(s, front);
      assert Get(Put(m, id, own), e.id) == Get(m, e.id);
      assert forall x: Runner {:trigger m.runners[e.id := x]} :: m.runners[id := own][e.id := x] == m.runners[e.id := x][id := own];
    }
  }

  /** What the loop does while others do theirs: the events of one stage, from the state `s`. */
  function StageScript(s: Sys, id: nat, result: HandlerResult, o: seq<seq<Event>>): seq<Event>
    requires |o| == 3
  {
    var a := o[0] + [HandlerEvent(id, result)];
    if Ends(result) then a
    else
      var b := a + o[1] + [Commit(id)];
      if Get(Run(s, b), id).Racing? then b + o[2] + [Reread(id)] else b
  }

  function HandlerEvent(id: nat, result: HandlerResult): Event { if result.Threw? then Throw(id) else Handle(id, result.action) }

  /** A throw or a deferral ends the run. */
  predicate Ends(result: HandlerResult) { result.Threw? || result.action == Defer }

  type Handler = (nat, nat) -> HandlerResult
  type Others = (nat, nat) -> seq<Event>

  function Around(others: Others, n: nat): (o: seq<seq<Event>>)
    ensures |o| == 3 && forall k :: 0 <= k < 3 ==> o[k] == others(n, k)
  {
    [others(n, 0), others(n, 1), others(n, 2)]
  }

  /** Stage after stage, for at most `left` stages, until the runner is through. */
  function Script(s: Sys, id: nat, handler: Handler, others: Others, n: nat, left: nat): seq<Event>
    decreases left
  {
    if left == 0 || !Get(s, id).AtStage? then []
    else
      var es := StageScript(s, id, handler(n, Get(s, id).index), Around(others, n));
      es + Script(Run(s, es), id, handler, others, n + 1, left - 1)
  }

  /** The whole run of the pipeline. */
  function PipelineScript(s: Sys, id: nat, handler: Handler, others: Others): seq<Event> {
    [Start(id)] + Script(Step(s, Start(id)), id, handler, others, 0, LAST + 1)
  }

  // The loop below sees the event system only through these three functions and the lemmas about them.

  type Player = seq<Event> -> Sys
  type Stager = (seq<Event>, HandlerResult, seq<seq<Event>>) -> seq<Event>
  type Planner = (seq<Event>, nat) -> seq<Event>

  /** The state the events so far produce. */
  ghost predicate Plays(play: Player) { forall es {:trigger Run(INITIAL, es)} :: play(es) == Run(INITIAL, es) }

  /** The trace after one more stage. */
  ghost function Staged(trace: seq<Event>, id: nat, result: HandlerResult, o: seq<seq<Event>>): seq<Event> {
    if |o| == 3 then trace + StageScript(Run(INITIAL, trace), id, result, o) else trace
  }

  ghost predicate Stages(stage: Stager, id: nat) {
    forall trace, result, o {:trigger Staged(trace, id, result, o)} :: stage(trace, result, o) == Staged(trace, id, result, o)
  }

  /** What the script still has ahead of it. */
  ghost function Ahead(s: Sys, id: nat, handler: Handler, others: Others, n: nat): seq<Event> {
    Script(s, id, handler, others, n, if n <= LAST + 1 then LAST + 1 - n else 0)
  }

  /** The trace so far and what the script still has ahead of it. */
  ghost function Planned(trace: seq<Event>, id: nat, handler: Handler, others: Others, n: nat): seq<Event> {
    trace + Ahead(Run(INITIAL, trace), id, handler, others, n)
  }

  ghost predicate Plans(plan: Planner, id: nat, handler: Handler, others: Others) {
    forall trace, n: nat {:trigger Planned(trace, id, handler, others, n)} :: plan(trace, n) == Planned(trace, id, handler, others, n)
  }

  lemma {:induction false} Entered(play: Player, trace: seq<Event>, s: Sys, id: nat)
    requires Plays(play) && play(trace) == s && !Live(Get(s, id))
    ensures play(trace + [Start(id)]) == Put(s, id, Begin(s.row))
  {
    assert Run(INITIAL, trace) == s;
    RunAppend(INITIAL, trace, Start(id));
  }

  lemma {:induction false} Awaited(play: Player, trace: seq<Event>, s: Sys, id: nat, own: Runner, others: seq<Event>)
    requires Plays(play) && play(trace) == Put(s, id, own) && NotBy(others, id)
    ensures play(trace + others) == Put(Run(s, others), id, own)
  {
    assert Run(INITIAL, trace) == Put(s, id, own);
    RunConcat(INITIAL, trace, others);
    OthersLeave(s, others, id, own);
  }

  lemma {:induction false} PutTwice(s: Sys, id: nat, a: Runner, b: Runner)
    ensures Put(Put(s, id, a), id, b) == Put(s, id, b) && Get(Put(s, id, a), id) == a && Put(s, id, a).row == s.row
  {
    assert s.runners[id := a][id := b] == s.runners[id := b];
  }

  function AfterHandler(index: nat, result: HandlerResult): Runner {
    if result.Threw? then Failed else if result.action == Defer then Finished else Returned(index, result.action)
  }

  lemma {:induction false} HandlerReturned(play: Player, trace: seq<Event>, s: Sys, id: nat, index: nat, result: HandlerResult)
    requires Plays(play) && play(trace) == Put(s, id, AtStage(index))
    ensures play(trace + [HandlerEvent(id, result)]) == Put(s, id, AfterHandler(index, result))
  {
    assert Run(INITIAL, trace) == Put(s, id, AtStage(index));
    RunAppend(INITIAL, trace, HandlerEvent(id, result));
    PutTwice(s, id, AtStage(index), AfterHandler(index, result));
  }

  lemma {:induction false} WriteTried(play: Player, trace: seq<Event>, s: Sys, id: nat, index: nat, action: Action)
    requires Plays(play) && play(trace) == Put(s, id, Returned(index, action))
    ensures play(trace + [Commit(id)]) == (match WriteOf(s.row, index, action)
            case Committed(row) => Put(s.(row := row), id, AfterCommit(index, action))
            case Stale => Put(s, id, Racing(index, action)))
  {
    assert Run(INITIAL, trace) == Put(s, id, Returned(index, action));
    RunAppend(INITIAL, trace, Commit(id));
    PutTwice(s, id, Returned(index, action), AfterCommit(index, action));
    PutTwice(s, id, Returned(index, action), Racing(index, action));
    match WriteOf(s.row, index, action)
    case Committed(row) => PutTwice(s.(row := row), id, Returned(index, action), AfterCommit(index, action));
    case Stale =>
  }

  lemma {:induction false} WriteResolved(play: Player, trace: seq<Event>, s: Sys, id: nat, index: nat, action: Action)
    requires Plays(play) && play(trace) == Put(s, id, Racing(index, action))
    ensures play(trace + [Reread(id)]) == Put(s, id, Resolve(s.row, index, action))
    ensures var r := Resolve(s.row, index, action); r in {Finished, Failed} || (r.AtStage? && r.index > index)
  {
    RunKeepsInv(trace);
    var own := Racing(index, action);
    assert Run(INITIAL, trace) == Put(s, id, own);
    PutTwice(s, id, own, Resolve(s.row, index, action));
    assert RunnerOk(s.row, Get(Run(INITIAL, trace), id));
    ResolveOk(s.row, index, action);
    RunAppend(INITIAL, trace, Reread(id));
  }

  lemma {:induction false} StageBound(play: Player, trace: seq<Event>, s: Sys, id: nat, index: nat)
    requires Plays(play) && play(trace) == Put(s, id, AtStage(index))
    ensures index <= LAST
  {
    RunKeepsInv(trace);
    assert Run(INITIAL, trace) == Put(s, id, AtStage(index));
    assert RunnerOk(s.row, Get(Run(INITIAL, trace), id));
  }

  lemma {:induction false} StageEnds(stage: Stager, trace: seq<Event>, id: nat, result: HandlerResult, o: seq<seq<Event>>)
    requires Stages(stage, id) && |o| == 3 && Ends(result)
    ensures stage(trace, result, o) == trace + o[0] + [HandlerEvent(id, result)]
  {
    assert stage(trace, result, o) == Staged(trace, id, result, o);
  }

  lemma {:induction false} StageWrites(play: Player, stage: Stager, trace: seq<Event>, id: nat, result: HandlerResult, o: seq<seq<Event>>, s: Sys, own: Runner)
    requires Plays(play) && Stages(stage, id) && |o| == 3 && !Ends(result)
    requires play(trace + o[0] + [HandlerEvent(id, result)] + o[1] + [Commit(id)]) == Put(s, id, own)
    ensures var b := trace + o[0] + [HandlerEvent(id, result)] + o[1] + [Commit(id)];
      stage(trace, result, o) == if own.Racing? then b + o[2] + [Reread(id)] else b
  {
    var b := o[0] + [HandlerEvent(id, result)] + o[1] + [Commit(id)];
    var whole := trace + o[0] + [HandlerEvent(id, result)] + o[1] + [Commit(id)];
    assert trace + b == whole;
    assert play(whole) == Run(INITIAL, whole);
    RunConcat(INITIAL, trace, b);
    PutTwice(s, id, own, own);
    assert stage(trace, result, o) == Staged(trace, id, result, o);
  }

  type Scripter = (Sys, nat) -> seq<Event>

  ghost predicate Scripts(script: Scripter, id: nat, handler: Handler, others: Others) {
    forall s, n: nat {:trigger Ahead(s, id, handler, others, n)} :: script(s, n) == Ahead(s, id, handler, others, n)
  }

  lemma {:induction false} PlannedStep(play: Player, stage: Stager, plan: Planner, trace: seq<Event>, s: Sys, id: nat, index: nat, handler: Handler, others: Others, n: nat)
    requires Plays(play) && Stages(stage, id) && Plans(plan, id, handler, others)
    requires n <= LAST && play(trace) == Put(s, id, AtStage(index))
    ensures plan(trace, n) == plan(stage(trace, handler(n, index), Around(others, n)), n + 1)
  {
    var script: Scripter := (m: Sys, k: nat) => Ahead(m, id, handler, others, k);
    var es := AheadStep(play, stage, script, trace, s, id, index, handler, others, n);
    PlannedIs(play, plan, script, trace, id, handler, others, n);
    PlannedIs(play, plan, script, trace + es, id, handler, others, n + 1);
    Regroup(trace, es, script(play(trace + es), n + 1));
  }

  lemma {:induction false} AheadStep(play: Player, stage: Stager, script: Scripter, trace: seq<Event>, s: Sys, id: nat, index: nat, handler: Handler, others: Others, n: nat)
    returns (es: seq<Event>)
    requires Plays(play) && Stages(stage, id) && Scripts(script, id, handler, others)
    requires n <= LAST && play(trace) == Put(s, id, AtStage(index))
    ensures stage(trace, handler(n, index), Around(others, n)) == trace + es
    ensures script(play(trace), n) == es + script(play(trace + es), n + 1)
  {
    PutTwice(s, id, AtStage(index), AtStage(index));
    es := StageOf(play, stage, trace, id, index, handler(n, index), Around(others, n));
    var m := PlayOn(play, trace, es);
    AheadUnfolds(script, play(trace), es, m, id, index, handler, others, n);
  }

  lemma {:induction false} StageOf(play: Player, stage: Stager, trace: seq<Event>, id: nat, index: nat, result: HandlerResult, o: seq<seq<Event>>) returns (es: seq<Event>)
    requires Plays(play) && Stages(stage, id) && |o| == 3
    ensures es == StageScript(play(trace), id, result, o) && stage(trace, result, o) == trace + es
  {
    assert play(trace) == Run(INITIAL, trace);
    es := StageScript(play(trace), id, result, o);
    assert stage(trace, result, o) == Staged(trace, id, result, o);
  }

  lemma {:induction false} PlayOn(play: Player, trace: seq<Event>, es: seq<Event>) returns (m: Sys)
    requires Plays(play)
    ensures m == play(trace + es) == Run(play(trace), es)
  {
    RunConcat(INITIAL, trace, es);
    m := play(trace + es);
  }

  lemma {:induction false} AheadUnfolds(script: Scripter, s: Sys, es: seq<Event>, m: Sys, id: nat, index: nat, handler: Handler, others: Others, n: nat)
    requires Scripts(script, id, handler, others) && n <= LAST && Get(s, id) == AtStage(index)
    requires es == StageScript(s, id, handler(n, index), Around(others, n)) && m == Run(s, es)
    ensures script(s, n) == es + script(m, n + 1)
  {
    ScriptStep(s, id, index, handler, others, n, LAST + 1 - n);
    assert script(s, n) == Ahead(s, id, handler, others, n) && script(m, n + 1) == Ahead(m, id, handler, others, n + 1);
  }

  lemma {:induction false} ScriptStep(s: Sys, id: nat, index: nat, handler: Handler, others: Others, n: nat, left: nat)
    requires left > 0 && Get(s, id) == AtStage(index)
    ensures var es := StageScript(s, id, handler(n, index), Around(others, n));
      Script(s, id, handler, others, n, left) == es + Script(Run(s, es), id, handler, others, n + 1, left - 1)
  {}

  lemma {:induction false} PlannedIs(play: Player, plan: Planner, script: Scripter, trace: seq<Event>, id: nat, handler: Handler, others: Others, n: nat)
    requires Plays(play) && Plans(plan, id, handler, others) && Scripts(script, id, handler, others)
    ensures plan(trace, n) == trace + script(play(trace), n)
  {
    assert plan(trace, n) == Planned(trace, id, handler, others, n);
  }

  lemma {:induction false} Regroup(a: seq<Event>, b: seq<Event>, c: seq<Event>)
    ensures a + (b + c) == a + b + c
  {}

  lemma {:induction false} PlannedEnd(play: Player, plan: Planner, trace: seq<Event>, s: Sys, id: nat, own: Runner, handler: Handler, others: Others, n: nat)
    requires Plays(play) && Plans(plan, id, handler, others) && play(trace) == Put(s, id, own) && !own.AtStage?
    ensures plan(trace, n) == trace
  {
    assert Run(INITIAL, trace) == Put(s, id, own);
    PutTwice(s, id, own, own);
    assert plan(trace, n) == Planned(trace, id, handler, others, n);
  }

  lemma {:induction false} ScriptOpens(plan: Planner, trace: seq<Event>, id: nat, handler: Handler, others: Others)
    requires Plans(plan, id, handler, others)
    ensures plan(trace + [Start(id)], 0) == trace + PipelineScript(Run(INITIAL, trace), id, handler, others)
  {
    RunAppend(INITIAL, trace, Start(id));
    assert plan(trace + [Start(id)], 0) == Planned(trace + [Start(id)], id, handler, others, 0);
  }

  /** The database and the memory of the other runner processes. */
  class World {
    var row: Row
    var rest: map<nat, Runner>
    ghost var trace: seq<Event>
    ghost const play: Player

    /** The row and the runners' memory are what the events so far produce. */
    ghost predicate Valid()
      reads this
    {
      Plays(play) && play(trace) == Sys(row, rest)
    }

    /** The same while runner `id` is in its loop with the local state `own`. */
    ghost predicate Inside(id: nat, own: Runner)
      reads this
    {
      Plays(play) && play(trace) == Put(Sys(row, rest), id, own)
    }

    constructor ()
      ensures Valid() && trace == []
    {
      row, rest, trace := SEEDED, map[], [];
      play := (es: seq<Event>) => Run(INITIAL, es);
    }

    /** Whatever the other runners do while this one awaits. */
    method Await(id: nat, others: seq<Event>, ghost own: Runner)
      requires Inside(id, own) && NotBy(others, id)
      modifies this
      ensures Inside(id, own) && trace == old(trace) + others
    {
      Awaited(play, trace, Sys(row, rest), id, own, others);
      var after := Run(Sys(row, rest), others);
      row, rest, trace := after.row, after.runners, trace + others;
    }

    /** The stage's database write: advance, skip or hold. */
    method Write(id: nat, index: nat, action: Action) returns (own: Runner)
      requires Inside(id, Returned(index, action))
      modifies this
      ensures Inside(id, own) && trace == old(trace) + [Commit(id)]
      ensures own == Racing(index, action) || own == AfterCommit(index, action)
    {
      WriteTried(play, trace, Sys(row, rest), id, index, action);
      var write := WriteOf(row, index, action);
      if write.Committed? {
        row, own := write.row, AfterCommit(index, action);
      } else {
        own := Racing(index, action);
      }
      trace := trace + [Commit(id)];
    }

    /** One turn of the loop: the handler, its write, and the recovery from a stale write. */
    method Stage(id: nat, index: nat, result: HandlerResult, o: seq<seq<Event>>, ghost stage: Stager) returns (own: Runner)
      requires Inside(id, AtStage(index)) && Stages(stage, id) && |o| == 3 && NotBy(o[0], id) && NotBy(o[1], id) && NotBy(o[2], id)
      modifies this
      ensures Inside(id, own) && trace == stage(old(trace), result, o)
      ensures own in {Finished, Failed} || (own.AtStage? && own.index > index)
    {
      Await(id, o[0], AtStage(index));
      HandlerReturned(play, trace, Sys(row, rest), id, index, result);
      own := AfterHandler(index, result);
      trace := trace + [HandlerEvent(id, result)];
      if Ends(result) {
        StageEnds(stage, old(trace), id, result, o);
        return;
      }
      Await(id, o[1], own);
      own := Write(id, index, result.action);
      StageWrites(play, stage, old(trace), id, result, o, Sys(row, rest), own);
      if own.Racing? {
        Await(id, o[2], own);
        WriteResolved(play, trace, Sys(row, rest), id, index, result.action);
        own := Resolve(row, index, result.action);
        trace := trace + [Reread(id)];
      }
    }

    /** The guards at the top. */
    method Enter(id: nat) returns (own: Runner)
      requires Valid() && !Live(Get(Sys(row, rest), id))
      modifies this`trace
      ensures Inside(id, own) && trace == old(trace) + [Start(id)]
      ensures own in {Finished, Failed} || (own.AtStage? && row.status == Processing)
    {
      Entered(play, trace, Sys(row, rest), id);
      own := Begin(row);
      trace := trace + [Start(id)];
    }

    /** The loop, from the stage the runner is at. */
    method Loop(id: nat, entered: Runner, handler: Handler, others: Others, ghost stage: Stager, ghost plan: Planner) returns (outcome: Runner)
      requires Inside(id, entered) && (entered.AtStage? || entered in {Finished, Failed}) && forall n, k :: NotBy(others(n, k), id)
      requires Stages(stage, id) && Plans(plan, id, handler, others)
      modifies this
      ensures Inside(id, outcome) && outcome in {Finished, Failed} && (!entered.AtStage? ==> row == old(row) && outcome == entered)
      ensures trace == plan(old(trace), 0)
    {
      outcome := entered;
      var n := 0;
      while outcome.AtStage?
        invariant Inside(id, outcome) && (outcome.AtStage? || outcome in {Finished, Failed})
        invariant n <= LAST + 1 && (outcome.AtStage? ==> n <= outcome.index) && plan(trace, n) == plan(old(trace), 0)
        invariant !entered.AtStage? ==> row == old(row) && outcome == entered
        decreases if outcome.AtStage? then LAST + 1 - outcome.index else 0
      {
        var index := outcome.index;
        StageBound(play, trace, Sys(row, rest), id, index);
        PlannedStep(play, stage, plan, trace, Sys(row, rest), id, index, handler, others, n);
        outcome := Stage(id, index, handler(n, index), Around(others, n), stage);
        n := n + 1;
      }
      PlannedEnd(play, plan, trace, Sys(row, rest), id, outcome, handler, others, n);
    }

    /** One run of the pipeline: it always returns or throws, and what it did together with the others is exactly the
        script its handlers' results and the others' events call for, whose outcome for this runner is the one returned. */
    method RunPipeline(id: nat, handler: Handler, others: Others) returns (outcome: Runner)
      requires Valid() && !Live(Get(Sys(row, rest), id))
      requires forall n, k :: NotBy(others(n, k), id)
      modifies this
      ensures Valid() && trace == old(trace) + PipelineScript(Run(INITIAL, old(trace)), id, handler, others)
      ensures outcome in {Finished, Failed} && Get(Sys(row, rest), id) == outcome
      ensures old(row.status) != Processing ==> row == old(row)
    {
      ghost var stage: Stager := (tr, result, o) => Staged(tr, id, result, o);
      ghost var plan: Planner := (tr: seq<Event>, n: nat) => Planned(tr, id, handler, others, n);
      ScriptOpens(plan, trace, id, handler, others);
      outcome := Enter(id);
      outcome := Loop(id, outcome, handler, others, stage, plan);
      rest := rest[id := outcome];
    }
  }

  // ---------- a runner on its own ----------

  lemma {:induction false} RunTwo(s: Sys, a: Event, b: Event)
    ensures Run(s, [a, b]) == Step(Step(s, a), b)
  {
    RunAppend(s, [], a);
    RunAppend(s, [a], b);
    assert [] + [a] == [a] && [a] + [b] == [a, b];
  }

  lemma {:induction false} NoMoreScript(s: Sys, id: nat, handler: Handler, others: Others, n: nat, left: nat)
    requires !Get(s, id).AtStage?
    ensures Run(s, Script(s, id, handler, others, n, left)) == s
  {}

  /** The log rows of the stages from a up to b. */
  function Dones(a: nat, b: nat): (rows: seq<LogRow>)
    requires a <= b
    ensures |rows| == b - a && forall k :: 0 <= k < b - a ==> rows[k] == LogRow(a + k, Done)
  {
    seq(b - a, k requires 0 <= k < b - a => LogRow(a + k, Done))
  }

  /** The row once the stages before i are done. */
  function Reached(row: Row, i: nat): Row
    requires row.stage <= i
  {
    row.(stage := i, log := row.log + Dones(row.stage, i))
  }

  /** No other runner acts; the handlers before stage i continue, and that of stage i returns `result`. */
  ghost predicate StopsAt(handler: Handler, others: Others, i: nat, result: HandlerResult) {
    && (forall n, j: nat :: j < i ==> handler(n, j) == Result(Continue)) && (forall n :: handler(n, i) == result)
    && forall n, k :: others(n, k) == []
  }

  ghost predicate Ready(s: Sys, id: nat) { s.row.status == Processing && s.row.stage <= LAST && Get(s, id) == AtStage(s.row.stage) }

  /** How the runner is left, and what its last handler's result made of the row it had reached. */
  ghost predicate EndsWith(reached: Row, s': Sys, id: nat, result: HandlerResult) {
    match result
    case Threw => s'.row == reached && Get(s', id) == Failed
    case Result(Defer) => s'.row == reached && Get(s', id) == Finished
    case Result(Drop) =>
      && s'.row.stage == reached.stage && s'.row.status == Skipped && s'.row.dropReason && s'.row.review == reached.review
      && s'.row.log == reached.log + [LogRow(reached.stage, Dropped)] && Get(s', id) == Finished
    case Result(Hold) =>
      && s'.row.stage == reached.stage && s'.row.status == Held && s'.row.review && s'.row.dropReason == reached.dropReason
      && s'.row.log == reached.log + [LogRow(reached.stage, Parked)] && Get(s', id) == Finished
    case Result(Continue) =>
      && s'.row.stage == LAST && s'.row.status == Completed && s'.row.dropReason == reached.dropReason && s'.row.review == reached.review
      && s'.row.log == reached.log + [LogRow(LAST, Done)] && Get(s', id) == Finished
  }

  lemma {:induction false} RunOne(s: Sys, a: Event)
    ensures Run(s, [a]) == Step(s, a)
  {
    RunAppend(s, [], a);
    assert [] + [a] == [a];
  }

  /** A stage whose handler continues is logged, and the runner is at the next. */
  lemma {:induction false} StageGoesOn(s: Sys, id: nat)
    requires Ready(s, id) && s.row.stage < LAST
    ensures var s' := Run(s, StageScript(s, id, Result(Continue), [[], [], []]));
      Ready(s', id) && s'.row == Reached(s.row, s.row.stage + 1)
  {
    RunTwo(s, Handle(id, Continue), Commit(id));
    assert [] + [Handle(id, Continue)] + [] + [Commit(id)] == [Handle(id, Continue), Commit(id)];
    assert Dones(s.row.stage, s.row.stage + 1) == [LogRow(s.row.stage, Done)];
  }

  /** The last stage the runner handles. */
  lemma {:induction false} StageStops(s: Sys, id: nat, result: HandlerResult)
    requires Ready(s, id) && (result == Result(Continue) ==> s.row.stage == LAST)
    ensures EndsWith(s.row, Run(s, StageScript(s, id, result, [[], [], []])), id, result)
  {
    if Ends(result) {
      RunOne(s, HandlerEvent(id, result));
      assert [] + [HandlerEvent(id, result)] == [HandlerEvent(id, result)];
    } else {
      RunTwo(s, Handle(id, result.action), Commit(id));
      assert [] + [Handle(id, result.action)] + [] + [Commit(id)] == [Handle(id, result.action), Commit(id)];
    }
  }

  lemma {:induction false} AloneUnfolds(s: Sys, id: nat, handler: Handler, others: Others, n: nat, left: nat, i: nat, result: HandlerResult)
    requires StopsAt(handler, others, i, result) && left > 0 && Ready(s, id) && s.row.stage <= i
    ensures var m := Run(s, StageScript(s, id, if s.row.stage < i then Result(Continue) else result, [[], [], []]));
      Run(s, Script(s, id, handler, others, n, left)) == Run(m, Script(m, id, handler, others, n + 1, left - 1))
  {
    var here := if s.row.stage < i then Result(Continue) else result;
    assert handler(n, s.row.stage) == here && others(n, 0) == [] && others(n, 1) == [] && others(n, 2) == [];
    assert Around(others, n) == [[], [], []];
    var es := StageScript(s, id, here, [[], [], []]);
    RunConcat(s, es, Script(Run(s, es), id, handler, others, n + 1, left - 1));
  }

  lemma {:induction false} ReachedOn(row: Row, i: nat)
    requires row.stage < i
    ensures Reached(Reached(row, row.stage + 1), i) == Reached(row, i)
  {
    assert Dones(row.stage, row.stage + 1) + Dones(row.stage + 1, i) == Dones(row.stage, i);
    assert row.log + Dones(row.stage, row.stage + 1) + Dones(row.stage + 1, i) == row.log + Dones(row.stage, i);
  }

  /** Where a script takes the system. */
  type Final = (Sys, nat, nat) -> Sys

  ghost predicate Finals(final: Final, id: nat, handler: Handler, others: Others) {
    forall s, n: nat, left: nat {:trigger Script(s, id, handler, others, n, left)} :: final(s, n, left) == Run(s, Script(s, id, handler, others, n, left))
  }

  lemma {:induction false} NextReady(final: Final, s: Sys, id: nat, handler: Handler, others: Others, n: nat, left: nat, i: nat, result: HandlerResult) returns (m: Sys)
    requires Finals(final, id, handler, others) && StopsAt(handler, others, i, result) && left > 0 && Ready(s, id) && s.row.stage < i <= LAST
    ensures final(s, n, left) == final(m, n + 1, left - 1)
    ensures Ready(m, id) && m.row == Reached(s.row, s.row.stage + 1)
  {
    m := Run(s, StageScript(s, id, Result(Continue), [[], [], []]));
    AloneUnfolds(s, id, handler, others, n, left, i, result);
    StageGoesOn(s, id);
    assert final(s, n, left) == Run(s, Script(s, id, handler, others, n, left));
    assert final(m, n + 1, left - 1) == Run(m, Script(m, id, handler, others, n + 1, left - 1));
  }

  lemma {:induction false} LastStage(final: Final, s: Sys, id: nat, handler: Handler, others: Others, n: nat, left: nat, result: HandlerResult)
    requires Finals(final, id, handler, others)
    requires StopsAt(handler, others, s.row.stage, result) && left > 0 && Ready(s, id) && (result == Result(Continue) ==> s.row.stage == LAST)
    ensures EndsWith(s.row, final(s, n, left), id, result)
  {
    AloneUnfolds(s, id, handler, others, n, left, s.row.stage, result);
    StageStops(s, id, result);
    NoMoreScript(Run(s, StageScript(s, id, result, [[], [], []])), id, handler, others, n + 1, left - 1);
    assert final(s, n, left) == Run(s, Script(s, id, handler, others, n, left));
  }

  lemma {:induction false} ScriptEnds(final: Final, s: Sys, id: nat, handler: Handler, others: Others, n: nat, left: nat, i: nat, result: HandlerResult)
    requires Finals(final, id, handler, others) && StopsAt(handler, others, i, result) && (result == Result(Continue) ==> i == LAST)
    requires Ready(s, id) && s.row.stage <= i <= LAST && left + s.row.stage > i
    ensures EndsWith(Reached(s.row, i), final(s, n, left), id, result)
    decreases left
  {
    if s.row.stage < i {
      var m := NextReady(final, s, id, handler, others, n, left, i, result);
      ReachedOn(s.row, i);
      ScriptEnds(final, m, id, handler, others, n + 1, left - 1, i, result);
    } else {
      LastStage(final, s, id, handler, others, n, left, result);
      assert s.row.log + Dones(i, i) == s.row.log;
    }
  }

  /** From any row in processing, a runner that nobody disturbs logs every stage before i as done and then: a drop
      leaves the call skipped at stage i with its drop reason and a dropped row, a hold leaves it held with its review
      and a parked row, a deferral or a throw leaves row and log as they are, and continuing through the final stage
      completes the call. */
  lemma {:induction false} UndisturbedEnds(s: Sys, id: nat, handler: Handler, others: Others, i: nat, result: HandlerResult)
    requires StopsAt(handler, others, i, result) && (result == Result(Continue) ==> i == LAST)
    requires s.row.status == Processing && s.row.stage <= i <= LAST && !Live(Get(s, id))
    ensures EndsWith(Reached(s.row, i), Run(s, PipelineScript(s, id, handler, others)), id, result)
  {
    var m := Step(s, Start(id));
    RunConcat(s, [Start(id)], Script(m, id, handler, others, 0, LAST + 1));
    RunOne(s, Start(id));
    var final: Final := (s: Sys, n: nat, left: nat) => Run(s, Script(s, id, handler, others, n, left));
    ScriptEnds(final, m, id, handler, others, 0, LAST + 1, i, result);
  }

  lemma {:induction false} OneMoreDone(log: seq<LogRow>, a: nat, b: nat)
    requires a < b
    ensures log + Dones(a, b) == log + Dones(a, b - 1) + [LogRow(b - 1, Done)]
  {
    assert Dones(a, b) == Dones(a, b - 1) + [LogRow(b - 1, Done)];
  }

  lemma {:induction false} DonesAreDone(log: seq<LogRow>, a: nat, b: nat)
    requires a <= b && DoneStages(log) == FirstStages(a)
    ensures DoneStages(log + Dones(a, b)) == FirstStages(b)
  {
    if a == b {
      assert log + Dones(a, b) == log;
    } else {
      DonesAreDone(log, a, b - 1);
      OneMoreDone(log, a, b);
      DoneAppend(log + Dones(a, b - 1), LogRow(b - 1, Done));
      assert FirstStages(b) == FirstStages(b - 1) + [b - 1];
    }
  }

  /** From any row in processing with exactly-once log rows, a runner that nobody disturbs and whose handlers all
      continue ends with the call completed and each of the nine stages logged once, in order. */
  lemma {:induction false} UndisturbedCompletes(s: Sys, id: nat, handler: Handler, others: Others)
    requires StopsAt(handler, others, LAST, Result(Continue)) && ExactlyOnce(s.row) && s.row.status == Processing && !Live(Get(s, id))
    ensures var s' := Run(s, PipelineScript(s, id, handler, others));
      s'.row.status == Completed && DoneStages(s'.row.log) == FirstStages(LAST + 1) && Get(s', id) == Finished
  {
    UndisturbedEnds(s, id, handler, others, LAST, Result(Continue));
    LogCompletes(s.row.log, s.row.stage);
  }

  lemma {:induction false} LogCompletes(log: seq<LogRow>, stage: nat)
    requires stage <= LAST && DoneStages(log) == FirstStages(stage)
    ensures DoneStages(log + Dones(stage, LAST) + [LogRow(LAST, Done)]) == FirstStages(LAST + 1)
  {
    DonesAreDone(log, stage, LAST);
    DoneAppend(log + Dones(stage, LAST), LogRow(LAST, Done));
    assert FirstStages(LAST) + [LAST] == FirstStages(LAST + 1);
  }

  /** What becomes of a runner whose write came too late, once it has read the row again: a continue goes on at the
      row's stage while the call is in processing, returns when it is completed and fails when it is held or skipped; a
      drop returns on a skipped or completed call, a hold on any that left processing, and both fail otherwise. */
  lemma {:induction false} StaleWriteResolves(s: Sys, id: nat, i: nat, action: Action)
    requires Inv(s) && Get(s, id) == Returned(i, action) && (s.row.stage != i || (action != Continue && s.row.status != Processing))
    ensures Run(s, [Commit(id), Reread(id)]).row == s.row
    ensures var r, status := Get(Run(s, [Commit(id), Reread(id)]), id), s.row.status;
      && (action == Continue ==> r == if status == Processing then AtStage(s.row.stage) else if status == Completed then Finished else Failed)
      && (action == Drop ==> r == if status in {Skipped, Completed} then Finished else Failed)
      && (action == Hold ==> r == if status in {Skipped, Completed, Held} then Finished else Failed)
  {
    RunTwo(s, Commit(id), Reread(id));
    assert RunnerOk(s.row, Get(s, id));
    var extra: nat :| LogShape(s.row, extra);
  }

  // ---------- what goes wrong otherwise ----------

  function ContinueFrom(id: nat, n: nat): seq<Event> {
    if n == 0 then [] else ContinueFrom(id, n - 1) + [Handle(id, Continue), Commit(id)]
  }

  lemma {:induction false} RunAppend(s: Sys, es: seq<Event>, e: Event)
    ensures Run(s, es + [e]) == Step(Run(s, es), e)
  {
    assert (es + [e])[..|es|] == es;
  }

  lemma {:induction false} CarriesOnce(s: Sys, id: nat)
    requires s.row.stage < LAST && s.row.status == Held && Get(s, id) == AtStage(s.row.stage)
    ensures var s' := Step(Step(s, Handle(id, Continue)), Commit(id));
            s'.row.stage == s.row.stage + 1 && s'.row.status == Held && s'.row.review == s.row.review && Get(s', id) == AtStage(s'.row.stage)
  {}

  /** A runner past a held row carries it on: after n handled stages the row is n stages further and still held. */
  lemma {:induction false} CarriesOn(s: Sys, id: nat, n: nat)
    requires s.row.stage + n <= LAST && s.row.status == Held && Get(s, id) == AtStage(s.row.stage)
    ensures var s' := Run(s, ContinueFrom(id, n));
            s'.row.stage == s.row.stage + n && s'.row.status == Held && s'.row.review == s.row.review && Get(s', id) == AtStage(s'.row.stage)
  {
    if n > 0 {
      CarriesOn(s, id, n - 1);
      var es := ContinueFrom(id, n - 1);
      RunAppend(s, es, Handle(id, Continue));
      RunAppend(s, es + [Handle(id, Continue)], Commit(id));
      assert es + [Handle(id, Continue)] + [Commit(id)] == ContinueFrom(id, n);
      CarriesOnce(Run(s, es), id);
    }
  }

  const BOTH_AT_FIRST := [Start(0), Start(1), Handle(0, Hold), Handle(1, Continue)]

  lemma {:induction false} BothAtFirst()
    ensures var s := Run(INITIAL, BOTH_AT_FIRST); s.row == SEEDED && Get(s, 0) == Returned(0, Hold) && Get(s, 1) == Returned(0, Continue)
  {
    RunAppend(INITIAL, [], Start(0));
    RunAppend(INITIAL, [Start(0)], Start(1));
    RunAppend(INITIAL, [Start(0), Start(1)], Handle(0, Hold));
    RunAppend(INITIAL, [Start(0), Start(1), Handle(0, Hold)], Handle(1, Continue));
    assert [] + [Start(0)] == [Start(0)];
    assert [Start(0)] + [Start(1)] == [Start(0), Start(1)];
    assert [Start(0), Start(1)] + [Handle(0, Hold)] == [Start(0), Start(1), Handle(0, Hold)];
    assert [Start(0), Start(1), Handle(0, Hold)] + [Handle(1, Continue)] == BOTH_AT_FIRST;
  }

  /** Two runners on the first stage, one holding and one continuing: the call held for review is then driven
      through every later stage and marked completed with its review row still open. */
  lemma {:induction false} HeldCallCompletes() returns (es: seq<Event>)
    ensures Run(INITIAL, BOTH_AT_FIRST + [Commit(0)]).row.status == Held
    ensures BOTH_AT_FIRST + [Commit(0)] <= es
    ensures Run(INITIAL, es).row.status == Completed && Run(INITIAL, es).row.review
  {
    BothAtFirst();
    var held := BOTH_AT_FIRST + [Commit(0)];
    RunAppend(INITIAL, BOTH_AT_FIRST, Commit(0));
    RunAppend(INITIAL, held, Commit(1));
    var s := Run(INITIAL, held + [Commit(1)]);
    CarriesOn(s, 1, LAST - 1);
    RunConcat(INITIAL, held + [Commit(1)], ContinueFrom(1, LAST - 1));
    es := held + [Commit(1)] + ContinueFrom(1, LAST - 1);
    RunAppend(INITIAL, es, Handle(1, Continue));
    RunAppend(INITIAL, es + [Handle(1, Continue)], Commit(1));
    es := es + [Handle(1, Continue)] + [Commit(1)];
  }

  lemma {:induction false} RunConcat(s: Sys, a: seq<Event>, b: seq<Event>)
    ensures Run(s, a + b) == Run(Run(s, a), b)
  {
    if b == [] {
      assert a + b == a;
    } else {
      var front, e := b[..|b| - 1], b[|b| - 1];
      RunConcat(s, a, front);
      assert a + b == (a + front) + [e];
      RunAppend(s, a + front, e);
    }
  }

  /** Two runners that both finished the final stage's handler: the second advance also commits, and the
      final stage is logged completed twice. */
  lemma {:induction false} FinalStageLoggedTwice(s: Sys, a: nat, b: nat)
    requires Inv(s) && ExactlyOnce(s.row) && a != b && s.row.stage == LAST && s.row.status == Processing
    requires Get(s, a) == Returned(LAST, Continue) && Get(s, b) == Returned(LAST, Continue)
    ensures var s' := Step(Step(s, Commit(a)), Commit(b));
            DoneStages(s'.row.log) == FirstStages(LAST + 1) + [LAST] && !ExactlyOnce(s'.row)
  {
    var s1 := Step(s, Commit(a));
    var s2 := Step(s1, Commit(b));
    DoneAppend(s.row.log, LogRow(LAST, Done));
    DoneAppend(s1.row.log, LogRow(LAST, Done));
    assert FirstStages(LAST) + [LAST] == FirstStages(LAST + 1);
    assert |DoneStages(s2.row.log)| == LAST + 2;
  }
}
