/** The finalizer: when its visits get a destruction done, and the run itself. */
module Finalizer {
  import opened Wrappers
  import opened KeyStoreSpec
  import opened KeyDestruction

  // ---------- one visit ----------

  /** Ask the store again, look, and mark the row if the material is gone; time may pass before each access. */
  function VisitDek(v: nat, d: nat -> nat): seq<Event> {
    [Tick(d(0)), DestroyDek(v), Tick(d(1)), CheckDek(v), Tick(d(2)), MarkDek(v)]
  }

  function VisitKek(k: string, d: nat -> nat): seq<Event> {
    [Tick(d(0)), DestroyKek(k), Tick(d(1)), CheckKek(k), Tick(d(2)), MarkKek(k)]
  }

  lemma {:induction false} RunAppend(s: Sys, es: seq<Event>, e: Event)
    ensures Run(s, es + [e]) == Step(Run(s, es), e)
  {
    assert (es + [e])[..|es|] == es;
  }

  lemma {:induction false} RunConcat(s: Sys, a: seq<Event>, b: seq<Event>)
    ensures Run(s, a + b) == Run(Run(s, a), b)
  {
    if b == [] {
      assert a + b == a;
    } else {
      var n := |b| - 1;
      RunConcat(s, a, b[..n]);
      assert (a + b)[..|a + b| - 1] == a + b[..n];
    }
  }

  lemma {:induction false} RunThree(s: Sys, a: Event, b: Event, c: Event)
    ensures Run(s, [a, b, c]) == Step(Step(Step(s, a), b), c)
  {
    RunAppend(s, [], a);
    RunAppend(s, [a], b);
    RunAppend(s, [a, b], c);
    assert [] + [a] == [a] && [a] + [b] == [a, b] && [a, b] + [c] == [a, b, c];
  }

  lemma {:induction false} RunSix(s: Sys, a: Event, b: Event, c: Event, d: Event, e: Event, f: Event)
    ensures Run(s, [a, b, c, d, e, f]) == Step(Step(Step(Step(Step(Step(s, a), b), c), d), e), f)
  {
    RunThree(s, a, b, c);
    RunThree(Run(s, [a, b, c]), d, e, f);
    RunConcat(s, [a, b, c], [d, e, f]);
    assert [a, b, c] + [d, e, f] == [a, b, c, d, e, f];
  }

  // ---------- deadlines ----------

  /** The version's material, if there is any, goes by `deadline`. */
  ghost predicate GoesBy(s: Sys, v: nat, deadline: int) {
    v in s.madeDeks && (v in s.store.deks ==> s.store.deks[v].until.Some? && s.store.deks[v].until.value <= deadline)
  }

  ghost predicate KekGoesBy(s: Sys, k: string, deadline: int) {
    k in s.madeKeks && (k in s.store.keks ==> s.store.keks[k].until.Some? && s.store.keks[k].until.value <= deadline)
  }

  lemma {:induction false} StepKeepsDeadline(s: Sys, e: Event, v: nat, k: string, deadline: int)
    requires StoreOk(s)
    ensures GoesBy(s, v, deadline) ==> GoesBy(Step(s, e), v, deadline)
    ensures KekGoesBy(s, k, deadline) ==> KekGoesBy(Step(s, e), k, deadline)
    ensures s.now <= Step(s, e).now && Step(s, e).window == s.window
  {}

  lemma {:induction false} StepKeepsRows(s: Sys, e: Event, v: nat, k: string)
    ensures Unfinished(s.deks, v) ==> Unfinished(Step(s, e).deks, v) || Marked(Step(s, e).deks, v)
    ensures Unfinished(s.keks, k) ==> Unfinished(Step(s, e).keks, k) || Marked(Step(s, e).keks, k)
    ensures Marked(s.deks, v) ==> Marked(Step(s, e).deks, v)
    ensures Marked(s.keks, k) ==> Marked(Step(s, e).keks, k)
  {}

  /** Deadlines are never put off, and a row once requested stays unfinished until it is marked, in every run. */
  lemma {:induction false} RunKeepsDeadline(s: Sys, es: seq<Event>, v: nat, k: string, deadline: int)
    requires Inv(s)
    ensures GoesBy(s, v, deadline) ==> GoesBy(Run(s, es), v, deadline)
    ensures KekGoesBy(s, k, deadline) ==> KekGoesBy(Run(s, es), k, deadline)
    ensures s.now <= Run(s, es).now && Run(s, es).window == s.window
    ensures Unfinished(s.deks, v) ==> Unfinished(Run(s, es).deks, v) || Marked(Run(s, es).deks, v)
    ensures Unfinished(s.keks, k) ==> Unfinished(Run(s, es).keks, k) || Marked(Run(s, es).keks, k)
    ensures Marked(s.deks, v) ==> Marked(Run(s, es).deks, v)
    ensures Marked(s.keks, k) ==> Marked(Run(s, es).keks, k)
  {
    if es != [] {
      var front := es[..|es| - 1];
      RunKeepsDeadline(s, front, v, k, deadline);
      RunKeepsInv(s, front);
      StepKeepsDeadline(Run(s, front), es[|es| - 1], v, k, deadline);
      StepKeepsRows(Run(s, front), es[|es| - 1], v, k);
    }
  }

  // ---------- what a visit achieves ----------

  /** After a visit begun at s0 the material has a deadline within a window; had it been gone, the row is marked. */
  ghost predicate DekServed(s0: Sys, s: Sys, v: nat) {
    GoesBy(s, v, s.now + s.window) && (GoesBy(s0, v, s0.now) && Unfinished(s0.deks, v) ==> Marked(s.deks, v))
  }

  ghost predicate KekServed(s0: Sys, s: Sys, k: string) {
    KekGoesBy(s, k, s.now + s.window) && (KekGoesBy(s0, k, s0.now) && Unfinished(s0.keks, k) ==> Marked(s.keks, k))
  }

  lemma {:induction false} DekAsked(s: Sys, v: nat, d0: nat, d1: nat)
    requires Inv(s) && Unfinished(s.deks, v)
    ensures var a := Step(Step(Step(s, Tick(d0)), DestroyDek(v)), Tick(d1));
      && a == s.(now := s.now + d0 + d1, store := a.store) && GoesBy(a, v, a.now + a.window)
      && (GoesBy(s, v, s.now) ==> v !in Current(a).deks)
  {}

  lemma {:induction false} DekLooked(a: Sys, v: nat, d2: nat)
    requires Unfinished(a.deks, v)
    ensures var b := Step(Step(Step(a, CheckDek(v)), Tick(d2)), MarkDek(v));
      && b == a.(now := a.now + d2, deks := b.deks, goneDeks := b.goneDeks)
      && b.deks == (if v in b.goneDeks then a.deks[v := a.deks[v].(status := Destroyed)] else a.deks)
      && (v !in Current(a).deks ==> v in b.goneDeks)
  {}

  lemma {:induction false} DekVisited(s: Sys, v: nat, d: nat -> nat)
    requires Inv(s) && Unfinished(s.deks, v)
    ensures var s' := Run(s, VisitDek(v, d));
      && DekServed(s, s', v) && s'.keks == s.keks
      && s'.deks == if v in s'.goneDeks then s.deks[v := s.deks[v].(status := Destroyed)] else s.deks
  {
    RunSix(s, Tick(d(0)), DestroyDek(v), Tick(d(1)), CheckDek(v), Tick(d(2)), MarkDek(v));
    DekAsked(s, v, d(0), d(1));
    DekLooked(Step(Step(Step(s, Tick(d(0))), DestroyDek(v)), Tick(d(1))), v, d(2));
  }

  lemma {:induction false} KekAsked(s: Sys, k: string, d0: nat, d1: nat)
    requires Inv(s) && Unfinished(s.keks, k)
    ensures var a := Step(Step(Step(s, Tick(d0)), DestroyKek(k)), Tick(d1));
      && a == s.(now := s.now + d0 + d1, store := a.store) && KekGoesBy(a, k, a.now + a.window)
      && (KekGoesBy(s, k, s.now) ==> k !in Current(a).keks)
  {}

  lemma {:induction false} KekLooked(a: Sys, k: string, d2: nat)
    requires Unfinished(a.keks, k)
    ensures var b := Step(Step(Step(a, CheckKek(k)), Tick(d2)), MarkKek(k));
      && b == a.(now := a.now + d2, keks := b.keks, goneKeks := b.goneKeks)
      && b.keks == (if k in b.goneKeks then a.keks[k := a.keks[k].(status := Destroyed)] else a.keks)
      && (k !in Current(a).keks ==> k in b.goneKeks)
  {}

  lemma {:induction false} KekVisited(s: Sys, k: string, d: nat -> nat)
    requires Inv(s) && Unfinished(s.keks, k)
    ensures var s' := Run(s, VisitKek(k, d));
      && KekServed(s, s', k) && s'.deks == s.deks
      && s'.keks == if k in s'.goneKeks then s.keks[k := s.keks[k].(status := Destroyed)] else s.keks
  {
    RunSix(s, Tick(d(0)), DestroyKek(k), Tick(d(1)), CheckKek(k), Tick(d(2)), MarkKek(k));
    KekAsked(s, k, d(0), d(1));
    KekLooked(Step(Step(Step(s, Tick(d(0))), DestroyKek(k)), Tick(d(1))), k, d(2));
  }

  lemma {:induction false} AskedNow(s: Sys, v: nat, k: string)
    requires Inv(s)
    ensures var a := Step(Step(Step(s, Tick(0)), DestroyDek(v)), Tick(0));
      a == s.(store := a.store) && (Recoverable(Current(a), v) <==> Recoverable(Current(s), v) && (s.window > 0 || s.store.deks[v].until.Some?))
    ensures var a := Step(Step(Step(s, Tick(0)), DestroyKek(k)), Tick(0));
      a == s.(store := a.store) && (k in Current(a).keks <==> k in Current(s).keks && (s.window > 0 || s.store.keks[k].until.Some?))
  {}

  lemma {:induction false} LookedNow(a: Sys, v: nat, k: string)
    requires (v in a.goneDeks ==> !Recoverable(Current(a), v)) && (k in a.goneKeks ==> k !in Current(a).keks)
    ensures Unfinished(a.deks, v) ==>
      (Marked(Step(Step(Step(a, CheckDek(v)), Tick(0)), MarkDek(v)).deks, v) <==> !Recoverable(Current(a), v))
    ensures Unfinished(a.keks, k) ==>
      (Marked(Step(Step(Step(a, CheckKek(k)), Tick(0)), MarkKek(k)).keks, k) <==> k !in Current(a).keks)
  {}

  /** A visit marks a version exactly when it cannot be recovered any more, or when it is still active and there is no
      recovery window at all. */
  lemma {:induction false} FinalizeDekIff(s: Sys, v: nat)
    requires Inv(s) && Unfinished(s.deks, v)
    ensures Marked(Run(s, VisitDek(v, _ => 0)).deks, v) <==>
      (!Recoverable(Current(s), v) || (s.window == 0 && s.store.deks[v].until.None?))
  {
    RunSix(s, Tick(0), DestroyDek(v), Tick(0), CheckDek(v), Tick(0), MarkDek(v));
    AskedNow(s, v, "");
    LookedNow(Step(Step(Step(s, Tick(0)), DestroyDek(v)), Tick(0)), v, "");
  }

  lemma {:induction false} FinalizeKekIff(s: Sys, k: string)
    requires Inv(s) && Unfinished(s.keks, k)
    ensures Marked(Run(s, VisitKek(k, _ => 0)).keks, k) <==>
      (k !in Current(s).keks || (s.window == 0 && s.store.keks[k].until.None?))
  {
    RunSix(s, Tick(0), DestroyKek(k), Tick(0), CheckKek(k), Tick(0), MarkKek(k));
    AskedNow(s, 0, k);
    LookedNow(Step(Step(Step(s, Tick(0)), DestroyKek(k)), Tick(0)), 0, k);
  }

  /** What a visit has achieved lasts. */
  lemma {:induction false} ServedLasts(s0: Sys, s: Sys, es: seq<Event>, v: nat, k: string)
    requires Inv(s)
    ensures DekServed(s0, s, v) ==> DekServed(s0, Run(s, es), v)
    ensures KekServed(s0, s, k) ==> KekServed(s0, Run(s, es), k)
  {
    RunKeepsDeadline(s, es, v, k, s.now + s.window);
  }

  /** Whatever crashed before, and whatever happens in between: a second visit at least one recovery window after the
      first leaves the version marked destroyed. */
  lemma {:induction false} SecondVisitFinishesDek(s: Sys, v: nat, d: nat -> nat, es: seq<Event>, d': nat -> nat)
    requires Inv(s) && Unfinished(s.deks, v)
    ensures var s1 := Run(s, VisitDek(v, d)); var s2 := Run(s1, es);
            s2.now >= s1.now + s.window ==> Marked(Run(s2, VisitDek(v, d')).deks, v)
  {
    var s1 := Run(s, VisitDek(v, d));
    DekVisited(s, v, d);
    RunKeepsInv(s, VisitDek(v, d));
    RunKeepsDeadline(s, VisitDek(v, d), v, "", 0);
    RunKeepsDeadline(s1, es, v, "", s1.now + s1.window);
    RunKeepsInv(s1, es);
    var s2 := Run(s1, es);
    if Unfinished(s2.deks, v) { DekVisited(s2, v, d'); } else { RunKeepsDeadline(s2, VisitDek(v, d'), v, "", 0); }
  }

  lemma {:induction false} SecondVisitFinishesKek(s: Sys, k: string, d: nat -> nat, es: seq<Event>, d': nat -> nat)
    requires Inv(s) && Unfinished(s.keks, k)
    ensures var s1 := Run(s, VisitKek(k, d)); var s2 := Run(s1, es);
            s2.now >= s1.now + s.window ==> Marked(Run(s2, VisitKek(k, d')).keks, k)
  {
    var s1 := Run(s, VisitKek(k, d));
    KekVisited(s, k, d);
    RunKeepsInv(s, VisitKek(k, d));
    RunKeepsDeadline(s, VisitKek(k, d), 0, k, 0);
    RunKeepsDeadline(s1, es, 0, k, s1.now + s1.window);
    RunKeepsInv(s1, es);
    var s2 := Run(s1, es);
    if Unfinished(s2.keks, k) { KekVisited(s2, k, d'); } else { RunKeepsDeadline(s2, VisitKek(k, d'), 0, k, 0); }
  }

  // ---------- a crash between the swap and the store request ----------

  /** Active in the store under a KEK that is. */
  ghost predicate Standing(s: Sys, v: nat) {
    && v in s.store.deks && s.store.deks[v].until.None?
    && s.store.deks[v].item.kekVersion in s.store.keks && s.store.keks[s.store.deks[v].item.kekVersion].until.None?
  }

  /** The rotation swaps and dies before its store request; however long after that the finalizer comes, past the
      deadline the database has recorded or not, its first visit leaves the version recoverable for a whole window. */
  lemma {:induction false} FirstVisitStartsWindow(s: Sys, v: nat, next: nat, wait: nat)
    requires Inv(s) && s.window > 0 && Standing(s, v)
    requires v in s.deks && next in s.deks && s.deks[v].status == Active && s.deks[next].status == Rotating
    ensures var s1 := Run(s, [Swap(v, next), Tick(wait)]); var s2 := Run(s1, VisitDek(v, _ => 0));
      && Unfinished(s1.deks, v) && s1.deks[v].until == s.now + s.window && s1.now == s.now + wait
      && Unfinished(s2.deks, v) && Recoverable(Current(s2), v) && s2.store.deks[v].until == Some(s1.now + s.window)
  {
    SwapDies(s, v, next, wait);
    var s1 := Run(s, [Swap(v, next), Tick(wait)]);
    RunSix(s1, Tick(0), DestroyDek(v), Tick(0), CheckDek(v), Tick(0), MarkDek(v));
    StandingVisited(s1, v);
  }

  lemma {:induction false} SwapDies(s: Sys, v: nat, next: nat, wait: nat)
    requires Inv(s) && Standing(s, v)
    requires v in s.deks && next in s.deks && s.deks[v].status == Active && s.deks[next].status == Rotating
    ensures var s1 := Run(s, [Swap(v, next), Tick(wait)]);
      && Unfinished(s1.deks, v) && s1.deks[v].until == s.now + s.window && s1.now == s.now + wait && s1.window == s.window
      && Standing(s1, v) && v !in s1.goneDeks
  {
    RunAppend(s, [], Swap(v, next));
    RunAppend(s, [Swap(v, next)], Tick(wait));
    assert [] + [Swap(v, next)] == [Swap(v, next)] && [Swap(v, next)] + [Tick(wait)] == [Swap(v, next), Tick(wait)];
    assert Recoverable(Current(s), v);
  }

  lemma {:induction false} StandingVisited(s: Sys, v: nat)
    requires s.window > 0 && Standing(s, v) && Unfinished(s.deks, v) && v !in s.goneDeks
    ensures var s' := Step(Step(Step(Step(Step(Step(s, Tick(0)), DestroyDek(v)), Tick(0)), CheckDek(v)), Tick(0)), MarkDek(v));
      Unfinished(s'.deks, v) && Recoverable(Current(s'), v) && s'.store.deks[v].until == Some(s.now + s.window)
  {
    var s1 := Step(Step(s, Tick(0)), DestroyDek(v));
    assert s1 == s.(store := s1.store) && s1.store.deks[v].until == Some(s.now + s.window) && Recoverable(Current(s1), v);
    LookedInVain(s1, v);
  }

  lemma {:induction false} LookedInVain(s: Sys, v: nat)
    requires Recoverable(Current(s), v) && v !in s.goneDeks
    ensures Step(Step(Step(Step(s, Tick(0)), CheckDek(v)), Tick(0)), MarkDek(v)) == s
  {}

  // ---------- the finalizer as it runs ----------

  datatype Finalized = Finalized(finalizedDeks: seq<nat>, finalizedKeks: seq<string>, pendingDeks: seq<nat>, pendingKeks: seq<string>)

  /** The rows a query with `destroy_requested_at` set and `destroyed_at` unset returns, in order. */
  ghost predicate Lists<K>(ks: seq<K>, rows: map<K, Row>) {
    && (forall k :: k in ks ==> Unfinished(rows, k)) && (forall k :: k in rows && Unfinished(rows, k) ==> k in ks)
    && (forall i, j :: 0 <= i < j < |ks| ==> ks[i] != ks[j])
  }

  /** The rows still to visit are unfinished; of those visited, the marked ones are done and the others left. */
  ghost predicate Progress<K>(query: seq<K>, i: nat, rows: map<K, Row>, done: seq<K>, left: seq<K>) {
    && i <= |query| && (forall j :: i <= j < |query| ==> Unfinished(rows, query[j]))
    && (forall j, l :: 0 <= j < l < |query| ==> query[j] != query[l])
    && (forall x :: x in done ==> x in query[..i] && Marked(rows, x)) && (forall x :: x in query[..i] && Marked(rows, x) ==> x in done)
    && (forall x :: x in left ==> x in query[..i] && Unfinished(rows, x)) && (forall x :: x in query[..i] && Unfinished(rows, x) ==> x in left)
  }

  lemma {:induction false} ProgressStep<K>(query: seq<K>, i: nat, rows: map<K, Row>, rows': map<K, Row>, done: seq<K>, left: seq<K>, gone: bool)
    requires Progress(query, i, rows, done, left) && i < |query|
    requires rows' == if gone then rows[query[i] := rows[query[i]].(status := Destroyed)] else rows
    ensures Progress(query, i + 1, rows', if gone then done + [query[i]] else done, if gone then left else left + [query[i]])
  {
    assert query[..i + 1] == query[..i] + [query[i]];
    assert query[i] !in query[..i];
  }


  /** A visit serves the whole run it is part of. */
  lemma {:induction false} ServedSince(s0: Sys, s: Sys, s': Sys, es: seq<Event>, v: nat, k: string)
    requires Inv(s0) && s == Run(s0, es)
    ensures DekServed(s, s', v) && Unfinished(s.deks, v) ==> DekServed(s0, s', v)
    ensures KekServed(s, s', k) && Unfinished(s.keks, k) ==> KekServed(s0, s', k)
  {
    RunKeepsDeadline(s0, es, v, k, s0.now);
  }

  /** The first i rows of the query have been visited since s0. */
  ghost predicate FinalizingDeks(s0: Sys, s: Sys, es: seq<Event>, query: seq<nat>, i: nat, done: seq<nat>, left: seq<nat>) {
    && Inv(s0) && Inv(s) && s == Run(s0, es) && s.keks == s0.keks && Progress(query, i, s.deks, done, left)
    && (forall j :: 0 <= j < |query| ==> Unfinished(s0.deks, query[j]))
    && (forall j :: 0 <= j < i ==> DekServed(s0, s, query[j]))
  }

  lemma {:induction false} FinalizedDek(s0: Sys, s: Sys, es: seq<Event>, query: seq<nat>, i: nat, done: seq<nat>, left: seq<nat>, d: nat -> nat)
    requires FinalizingDeks(s0, s, es, query, i, done, left) && i < |query|
    ensures var es' := VisitDek(query[i], d); var s' := Run(s, es'); var gone := query[i] in s'.goneDeks;
      FinalizingDeks(s0, s', es + es', query, i + 1, if gone then done + [query[i]] else done, if gone then left else left + [query[i]])
  {
    var es' := VisitDek(query[i], d);
    var s' := Run(s, es');
    DekVisited(s, query[i], d);
    RunKeepsInv(s, es');
    RunConcat(s0, es, es');
    ProgressStep(query, i, s.deks, s'.deks, done, left, query[i] in s'.goneDeks);
    forall j | 0 <= j < i + 1 ensures DekServed(s0, s', query[j]) {
      if j < i { ServedLasts(s0, s, es', query[j], ""); } else { ServedSince(s0, s, s', es, query[j], ""); }
    }
  }

  /** The first i rows of the query have been visited since s0. */
  ghost predicate FinalizingKeks(s0: Sys, s: Sys, es: seq<Event>, query: seq<string>, i: nat, done: seq<string>, left: seq<string>) {
    && Inv(s0) && Inv(s) && s == Run(s0, es) && s.deks == s0.deks && Progress(query, i, s.keks, done, left)
    && (forall j :: 0 <= j < |query| ==> Unfinished(s0.keks, query[j]))
    && (forall j :: 0 <= j < i ==> KekServed(s0, s, query[j]))
  }

  lemma {:induction false} FinalizedKek(s0: Sys, s: Sys, es: seq<Event>, query: seq<string>, i: nat, done: seq<string>, left: seq<string>, d: nat -> nat)
    requires FinalizingKeks(s0, s, es, query, i, done, left) && i < |query|
    ensures var es' := VisitKek(query[i], d); var s' := Run(s, es'); var gone := query[i] in s'.goneKeks;
      FinalizingKeks(s0, s', es + es', query, i + 1, if gone then done + [query[i]] else done, if gone then left else left + [query[i]])
  {
    var es' := VisitKek(query[i], d);
    var s' := Run(s, es');
    KekVisited(s, query[i], d);
    RunKeepsInv(s, es');
    RunConcat(s0, es, es');
    ProgressStep(query, i, s.keks, s'.keks, done, left, query[i] in s'.goneKeks);
    forall j | 0 <= j < i + 1 ensures KekServed(s0, s', query[j]) {
      if j < i { ServedLasts(s0, s, es', 0, query[j]); } else { ServedSince(s0, s, s', es, 0, query[j]); }
    }
  }

  /** The material of every unfinished row is gone or past its deadline. */
  ghost predicate AllElapsed(s: Sys) {
    (forall v :: Unfinished(s.deks, v) ==> GoesBy(s, v, s.now)) && forall k :: Unfinished(s.keks, k) ==> KekGoesBy(s, k, s.now)
  }

  /** What a finalizer run from s0 to s reports and achieves. */
  ghost predicate FinalizerRun(s0: Sys, s: Sys, out: Finalized) {
    && (forall v :: v in out.finalizedDeks <==> Unfinished(s0.deks, v) && Marked(s.deks, v))
    && (forall v :: v in out.pendingDeks <==> Unfinished(s0.deks, v) && Unfinished(s.deks, v))
    && (forall k :: k in out.finalizedKeks <==> Unfinished(s0.keks, k) && Marked(s.keks, k))
    && (forall k :: k in out.pendingKeks <==> Unfinished(s0.keks, k) && Unfinished(s.keks, k))
    && (forall v :: Unfinished(s0.deks, v) ==> DekServed(s0, s, v))
    && (forall k :: Unfinished(s0.keks, k) ==> KekServed(s0, s, k))
  }

  lemma {:induction false} BothPhases(s0: Sys, m: Sys, s: Sys, es: seq<Event>, es': seq<Event>, q: seq<nat>, q': seq<string>,
                                      done: seq<nat>, left: seq<nat>, done': seq<string>, left': seq<string>)
    requires Lists(q, s0.deks) && FinalizingDeks(s0, m, es, q, |q|, done, left)
    requires Lists(q', m.keks) && FinalizingKeks(m, s, es', q', |q'|, done', left')
    ensures s == Run(s0, es + es') && FinalizerRun(s0, s, Finalized(done, done', left, left'))
  {
    RunConcat(s0, es, es');
    assert q[..|q|] == q && q'[..|q'|] == q';
    forall v | Unfinished(s0.deks, v) ensures DekServed(s0, s, v) { assert v in q; ServedLasts(s0, m, es', v, ""); }
    forall k | Unfinished(s0.keks, k) ensures KekServed(s0, s, k) { assert k in q'; ServedSince(s0, m, s, es, 0, k); }
  }

  lemma {:induction false} HeadIsIn<T>(q: seq<T>)
    ensures q == [] || q[0] in q
  {}

  /** After all windows have elapsed a run leaves nothing pending. */
  lemma {:induction false} NothingPending(s0: Sys, s: Sys, out: Finalized)
    requires FinalizerRun(s0, s, out) && AllElapsed(s0)
    ensures out.pendingDeks == [] && out.pendingKeks == []
  {
    HeadIsIn(out.pendingDeks);
    HeadIsIn(out.pendingKeks);
  }

  /** A second run, begun at least one window after the first ended, marks everything the first one visited, whatever
      happens in between. */
  lemma {:induction false} SecondRunFinishes(s0: Sys, s1: Sys, es: seq<Event>, s2: Sys, s3: Sys, es': seq<Event>, first: Finalized, second: Finalized)
    requires Inv(s1) && FinalizerRun(s0, s1, first) && s2 == Run(s1, es) && s3 == Run(s2, es') && FinalizerRun(s2, s3, second)
    requires s2.now >= s1.now + s1.window
    ensures forall v :: v in first.finalizedDeks || v in first.pendingDeks ==> Marked(s3.deks, v) && v !in second.pendingDeks
    ensures forall k :: k in first.finalizedKeks || k in first.pendingKeks ==> Marked(s3.keks, k) && k !in second.pendingKeks
  {
    RunKeepsInv(s1, es);
    forall v | v in first.finalizedDeks || v in first.pendingDeks ensures Marked(s3.deks, v) && v !in second.pendingDeks {
      RunKeepsDeadline(s1, es, v, "", s1.now + s1.window);
      RunKeepsDeadline(s2, es', v, "", 0);
    }
    forall k | k in first.finalizedKeks || k in first.pendingKeks ensures Marked(s3.keks, k) && k !in second.pendingKeks {
      RunKeepsDeadline(s1, es, 0, k, s1.now + s1.window);
      RunKeepsDeadline(s2, es', 0, k, 0);
    }
  }

  class KeyAdmin {
    var s: Sys

    constructor (s: Sys)
      ensures this.s == s
    {
      this.s := s;
    }

    /** The unfinished rows, each once. */
    method QueryDeks() returns (query: seq<nat>)
      ensures Lists(query, s.deks)
    {
      var left := set x | x in s.deks && Unfinished(s.deks, x);
      query := [];
      while left != {}
        invariant forall x :: x in query ==> Unfinished(s.deks, x) && x !in left
        invariant forall x :: x in left ==> Unfinished(s.deks, x)
        invariant forall x :: x in s.deks && Unfinished(s.deks, x) ==> x in query || x in left
        invariant forall i, j :: 0 <= i < j < |query| ==> query[i] != query[j]
        decreases |left|
      {
        var x :| x in left;
        query, left := query + [x], left - {x};
      }
    }

    /** Ask the store, look, and mark. */
    method FinalizeDek(v: nat, d: nat -> nat) returns (gone: bool)
      modifies this
      ensures s == Run(old(s), VisitDek(v, d)) && gone == (v in s.goneDeks)
    {
      RunSix(s, Tick(d(0)), DestroyDek(v), Tick(d(1)), CheckDek(v), Tick(d(2)), MarkDek(v));
      s := Step(s, Tick(d(0)));
      s := Step(s, DestroyDek(v));
      s := Step(s, Tick(d(1)));
      s := Step(s, CheckDek(v));
      gone := v in s.goneDeks;
      s := Step(s, Tick(d(2)));
      if gone { s := Step(s, MarkDek(v)); }
    }

    method FinalizeDeks(query: seq<nat>, d: (nat, nat) -> nat) returns (done: seq<nat>, left: seq<nat>, ghost es: seq<Event>)
      requires Inv(s) && Lists(query, s.deks)
      modifies this
      ensures FinalizingDeks(old(s), s, es, query, |query|, done, left)
    {
      done, left, es := [], [], [];
      ghost var s0 := s;
      for i := 0 to |query|
        invariant FinalizingDeks(s0, s, es, query, i, done, left)
      {
        var delays := (n: nat) => d(i, n);
        FinalizedDek(s0, s, es, query, i, done, left, delays);
        var gone := FinalizeDek(query[i], delays);
        es := es + VisitDek(query[i], delays);
        if gone { done := done + [query[i]]; } else { left := left + [query[i]]; }
      }
    }

    /** The unfinished rows, each once. */
    method QueryKeks() returns (query: seq<string>)
      ensures Lists(query, s.keks)
    {
      var left := set x | x in s.keks && Unfinished(s.keks, x);
      query := [];
      while left != {}
        invariant forall x :: x in query ==> Unfinished(s.keks, x) && x !in left
        invariant forall x :: x in left ==> Unfinished(s.keks, x)
        invariant forall x :: x in s.keks && Unfinished(s.keks, x) ==> x in query || x in left
        invariant forall i, j :: 0 <= i < j < |query| ==> query[i] != query[j]
        decreases |left|
      {
        var x :| x in left;
        query, left := query + [x], left - {x};
      }
    }

    /** Ask the store, look, and mark. */
    method FinalizeKek(k: string, d: nat -> nat) returns (gone: bool)
      modifies this
      ensures s == Run(old(s), VisitKek(k, d)) && gone == (k in s.goneKeks)
    {
      RunSix(s, Tick(d(0)), DestroyKek(k), Tick(d(1)), CheckKek(k), Tick(d(2)), MarkKek(k));
      s := Step(s, Tick(d(0)));
      s := Step(s, DestroyKek(k));
      s := Step(s, Tick(d(1)));
      s := Step(s, CheckKek(k));
      gone := k in s.goneKeks;
      s := Step(s, Tick(d(2)));
      if gone { s := Step(s, MarkKek(k)); }
    }

    method FinalizeKeks(query: seq<string>, d: (nat, nat) -> nat) returns (done: seq<string>, left: seq<string>, ghost es: seq<Event>)
      requires Inv(s) && Lists(query, s.keks)
      modifies this
      ensures FinalizingKeks(old(s), s, es, query, |query|, done, left)
    {
      done, left, es := [], [], [];
      ghost var s0 := s;
      for i := 0 to |query|
        invariant FinalizingKeks(s0, s, es, query, i, done, left)
      {
        var delays := (n: nat) => d(i, n);
        FinalizedKek(s0, s, es, query, i, done, left, delays);
        var gone := FinalizeKek(query[i], delays);
        es := es + VisitKek(query[i], delays);
        if gone { done := done + [query[i]]; } else { left := left + [query[i]]; }
      }
    }

    /** Visit every unfinished DEK, then every unfinished KEK. The run is a run of the event system; each row visited
        ends on exactly one of the two lists, pending exactly when it is not marked destroyed; whatever is left has a
        deadline within a window; and a run after all windows have elapsed leaves nothing pending. */
    method FinalizeUnderLock(d: (nat, nat) -> nat, d': (nat, nat) -> nat) returns (out: Finalized, ghost es: seq<Event>)
      requires Inv(s)
      modifies this
      ensures Inv(s) && s == Run(old(s), es) && FinalizerRun(old(s), s, out)
      ensures AllElapsed(old(s)) ==> out.pendingDeks == [] && out.pendingKeks == []
    {
      ghost var s0 := s;
      var query := QueryDeks();
      var done, left, es1 := FinalizeDeks(query, d);
      ghost var m := s;
      var query' := QueryKeks();
      var done', left', es2 := FinalizeKeks(query', d');
      out, es := Finalized(done, done', left, left'), es1 + es2;
      BothPhases(s0, m, s, es1, es2, query, query', done, left, done', left');
      if AllElapsed(s0) { NothingPending(s0, s, out); }
    }

    /** Two runs with anything in between: if the second begins at least one window after the first ended, no row
        the first one visited is left pending, and all of them are marked destroyed. */
    method FinalizeTwice(d: (nat, nat) -> nat, d': (nat, nat) -> nat, between: seq<Event>, e: (nat, nat) -> nat, e': (nat, nat) -> nat)
      returns (first: Finalized, second: Finalized, ghost s1: Sys, ghost s2: Sys)
      requires Inv(s)
      modifies this
      ensures Inv(s) && FinalizerRun(old(s), s1, first) && s2 == Run(s1, between) && FinalizerRun(s2, s, second)
      ensures s2.now >= s1.now + s1.window ==>
        && (forall v :: Unfinished(old(s).deks, v) ==> Marked(s.deks, v) && v !in second.pendingDeks)
        && (forall k :: Unfinished(old(s).keks, k) ==> Marked(s.keks, k) && k !in second.pendingKeks)
    {
      ghost var s0 := s;
      ghost var es, es';
      first, es := FinalizeUnderLock(d, d');
      s1 := s;
      RunKeepsInv(s1, between);
      s := Run(s, between);
      s2 := s;
      second, es' := FinalizeUnderLock(e, e');
      if s2.now >= s1.now + s1.window {
        SecondRunFinishes(s0, s1, between, s2, s, es', first, second);
        forall v | Unfinished(s0.deks, v) ensures v in first.finalizedDeks || v in first.pendingDeks { RunKeepsDeadline(s0, es, v, "", 0); }
        forall k | Unfinished(s0.keks, k) ensures k in first.finalizedKeks || k in first.pendingKeks { RunKeepsDeadline(s0, es, 0, k, 0); }
      }
    }
  }
}
