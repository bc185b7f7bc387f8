/** Destruction of key material end to end: rotations and revocations request it, the finalizer confirms it, the
    launch gate checks it. Each event is one database or key-store access, so a crash is an event that never comes. */
module KeyDestruction {
  import opened Wrappers
  import opened KeyStoreSpec

  datatype Status = Rotating | Active | Retired | Destroyed

  /** A key_versions or kek_versions row; `until` is the database's own copy of the recovery deadline. */
  datatype Row = Row(status: Status, requested: bool, until: int)

  /** Besides the store and the two tables: the names ever made, and what a finalizer has found to be gone. */
  datatype Sys = Sys(now: int, window: nat, store: View, deks: map<nat, Row>, keks: map<string, Row>,
                     madeDeks: set<nat>, madeKeks: set<string>, goneDeks: set<nat>, goneKeks: set<string>)

  datatype Event =
    | Tick(ms: nat)
    | CreateKek(k: string, bytes: Key) | KekRow(k: string) | RetireKek(k: string)
    | CreateDek(v: nat, k: string, dek: Key) | FirstDekRow(v: nat) | DekRow(v: nat) | Swap(v: nat, next: nat)
    | RequestDek(v: nat) | RequestKek(k: string)
    | DestroyDek(v: nat) | DestroyKek(k: string)
    | CheckDek(v: nat) | CheckKek(k: string) | MarkDek(v: nat) | MarkKek(k: string)

  predicate Unfinished<K>(rows: map<K, Row>, k: K) { k in rows && rows[k].status == Retired && rows[k].requested }

  predicate Marked<K>(rows: map<K, Row>, k: K) { k in rows && rows[k].status == Destroyed }

  function Current(s: Sys): View { ViewAt(s.store, s.now) }

  function WithoutDek(s: Sys, v: nat): View { Current(s).(deks := AfterDestroy(Current(s).deks, v, s.now, s.window)) }

  function WithoutKek(s: Sys, k: string): View { Current(s).(keks := AfterDestroy(Current(s).keks, k, s.now, s.window)) }

  /** One access; an event whose guard fails changes nothing. */
  function Step(s: Sys, e: Event): Sys {
    match e
    case Tick(ms) => s.(now := s.now + ms)
    case CreateKek(k, bytes) =>
      if k in s.madeKeks then s
      else s.(store := Current(s).(keks := Current(s).keks[k := Slot(bytes, None)]), madeKeks := s.madeKeks + {k})
    case KekRow(k) => if k in s.keks || k !in s.madeKeks then s else s.(keks := s.keks[k := Row(Active, false, 0)])
    case RetireKek(k) => if k in s.keks && s.keks[k].status == Active then s.(keks := s.keks[k := s.keks[k].(status := Retired)]) else s
    case CreateDek(v, k, dek) =>
      if v in s.madeDeks || k !in Current(s).keks then s
      else
        var entry := DekEntry(Wrapped(dek, Current(s).keks[k].item, v), k);
        s.(store := Current(s).(deks := Current(s).deks[v := Slot(entry, None)]), madeDeks := s.madeDeks + {v})
    case FirstDekRow(v) =>
      if v !in s.madeDeks || exists u :: u in s.deks && (u == v || s.deks[u].status == Active) then s
      else s.(deks := s.deks[v := Row(Active, false, 0)])
    case DekRow(v) => if v in s.deks || v !in s.madeDeks then s else s.(deks := s.deks[v := Row(Rotating, false, 0)])
    case Swap(v, next) =>
      if v in s.deks && next in s.deks && s.deks[v].status == Active && s.deks[next].status == Rotating
      then s.(deks := s.deks[v := Row(Retired, true, s.now + s.window)][next := s.deks[next].(status := Active)])
      else s
    case RequestDek(v) =>
      if v in s.deks && s.deks[v].status == Retired then s.(deks := s.deks[v := Row(Retired, true, s.now + s.window)]) else s
    case RequestKek(k) =>
      if k in s.keks && s.keks[k].status == Retired then s.(keks := s.keks[k := Row(Retired, true, s.now + s.window)]) else s
    case DestroyDek(v) => s.(store := WithoutDek(s, v))
    case DestroyKek(k) => s.(store := WithoutKek(s, k))
    case CheckDek(v) => if Unfinished(s.deks, v) && !Recoverable(Current(s), v) then s.(goneDeks := s.goneDeks + {v}) else s
    case CheckKek(k) => if Unfinished(s.keks, k) && k !in Current(s).keks then s.(goneKeks := s.goneKeks + {k}) else s
    case MarkDek(v) =>
      if v in s.goneDeks && Unfinished(s.deks, v) then s.(deks := s.deks[v := s.deks[v].(status := Destroyed)]) else s
    case MarkKek(k) =>
      if k in s.goneKeks && Unfinished(s.keks, k) then s.(keks := s.keks[k := s.keks[k].(status := Destroyed)]) else s
  }

  function Run(s: Sys, es: seq<Event>): Sys {
    if es == [] then s else Step(Run(s, es[..|es| - 1]), es[|es| - 1])
  }

  // ---------- what every run keeps ----------

  /** Names in use were made. */
  ghost predicate NamesOk(s: Sys) {
    && s.store.keks.Keys <= s.madeKeks && s.store.deks.Keys <= s.madeDeks && s.keks.Keys <= s.madeKeks && s.deks.Keys <= s.madeDeks
    && (forall v :: v in s.store.deks ==> s.store.deks[v].item.kekVersion in s.madeKeks)
  }

  /** Every deadline is at most one window away. */
  ghost predicate DeadlinesOk(s: Sys) {
    && (forall v :: v in s.store.deks && s.store.deks[v].until.Some? ==> s.store.deks[v].until.value <= s.now + s.window)
    && (forall k :: k in s.store.keks && s.store.keks[k].until.Some? ==> s.store.keks[k].until.value <= s.now + s.window)
  }

  ghost predicate StoreOk(s: Sys) { NamesOk(s) && DeadlinesOk(s) }

  /** What the database says is destroyed, or a finalizer has found gone, cannot be read out of the store. */
  ghost predicate MarksAreTrue(s: Sys) {
    && (forall v :: Marked(s.deks, v) || v in s.goneDeks ==> v in s.madeDeks && !Recoverable(Current(s), v))
    && (forall k :: Marked(s.keks, k) || k in s.goneKeks ==> k in s.madeKeks && k !in Current(s).keks)
  }

  ghost predicate Inv(s: Sys) { StoreOk(s) && MarksAreTrue(s) }

  lemma {:induction false} StepKeepsNames(s: Sys, e: Event)
    requires NamesOk(s)
    ensures NamesOk(Step(s, e))
  {}

  lemma {:induction false} StepKeepsDeadlines(s: Sys, e: Event)
    requires DeadlinesOk(s)
    ensures DeadlinesOk(Step(s, e))
  {}

  lemma {:induction false} StepKeepsStore(s: Sys, e: Event)
    requires StoreOk(s)
    ensures StoreOk(Step(s, e))
  {
    StepKeepsNames(s, e);
    StepKeepsDeadlines(s, e);
  }

  /** Nothing but creating it makes material readable that was not. */
  lemma {:induction false} NoKekReturns(s: Sys, e: Event)
    requires StoreOk(s)
    ensures forall k :: k in Current(Step(s, e)).keks && k in s.madeKeks ==> k in Current(s).keks
  {}

  /** What one event can do to the stored DEKs: let time pass, request a destruction, or touch no name made before. */
  ghost predicate DeksMove(deks: map<nat, Slot<DekEntry>>, now: int, deks': map<nat, Slot<DekEntry>>, now': int, window: nat, made: set<nat>) {
    || (deks' == deks && now' >= now)
    || (now' == now && exists v :: deks' == AfterDestroy(LiveAt(deks, now), v, now, window))
    || (now' == now && forall v :: v in deks' && v in made ==> v in LiveAt(deks, now) && deks'[v] == LiveAt(deks, now)[v])
  }

  lemma {:induction false} StepMovesDeks(s: Sys, e: Event)
    ensures DeksMove(s.store.deks, s.now, Step(s, e).store.deks, Step(s, e).now, s.window, s.madeDeks)
  {}

  lemma {:induction false} DekDoesNotReturn(deks: map<nat, Slot<DekEntry>>, now: int, deks': map<nat, Slot<DekEntry>>, now': int, window: nat, made: set<nat>, v: nat)
    requires DeksMove(deks, now, deks', now', window, made) && v in made && v in LiveAt(deks', now')
    ensures v in LiveAt(deks, now) && LiveAt(deks', now')[v].item == LiveAt(deks, now)[v].item
  {}

  lemma {:induction false} NoDekReturns(s: Sys, e: Event)
    requires StoreOk(s)
    ensures forall v :: v in Current(Step(s, e)).deks && v in s.madeDeks ==>
      v in Current(s).deks && Current(Step(s, e)).deks[v].item == Current(s).deks[v].item
  {
    var s' := Step(s, e);
    var after := Current(s');
    StepMovesDeks(s, e);
    forall v | v in after.deks && v in s.madeDeks ensures v in Current(s).deks && after.deks[v].item == Current(s).deks[v].item {
      DekDoesNotReturn(s.store.deks, s.now, s'.store.deks, s'.now, s.window, s.madeDeks, v);
    }
  }

  ghost predicate Gone(s: Sys, v: nat) { Marked(s.deks, v) || v in s.goneDeks }

  /** What was unrecoverable stays so: its entry does not come back, nor does the KEK the entry is wrapped under. */
  lemma {:induction false} GoneStaysGone(s: Sys, e: Event, v: nat)
    requires Inv(s) && Gone(s, v)
    ensures v in Step(s, e).madeDeks && !Recoverable(Current(Step(s, e)), v)
  {
    NoKekReturns(s, e);
    NoDekReturns(s, e);
    NamesStay(s, e);
    assert v in s.madeDeks && !Recoverable(Current(s), v);
    StaysLost(Current(s), Current(Step(s, e)), s.madeDeks, s.madeKeks, v);
  }

  lemma {:induction false} NamesStay(s: Sys, e: Event)
    requires StoreOk(s)
    ensures s.madeDeks <= Step(s, e).madeDeks
    ensures forall v :: v in Current(s).deks ==> Current(s).deks[v].item.kekVersion in s.madeKeks
  {}

  lemma {:induction false} StaysLost(was: View, now: View, madeDeks: set<nat>, madeKeks: set<string>, v: nat)
    requires v in madeDeks && !Recoverable(was, v) && (v in was.deks ==> was.deks[v].item.kekVersion in madeKeks)
    requires forall k :: k in now.keks && k in madeKeks ==> k in was.keks
    requires forall u :: u in now.deks && u in madeDeks ==> u in was.deks && now.deks[u].item == was.deks[u].item
    ensures !Recoverable(now, v)
  {}

  /** Only a check makes a version count as gone that did not before, and it looks first. */
  lemma {:induction false} NewlyGone(s: Sys, e: Event, v: nat)
    requires Inv(s) && !Gone(s, v) && Gone(Step(s, e), v)
    ensures e == CheckDek(v) && Current(Step(s, e)) == Current(s) && v in s.madeDeks && !Recoverable(Current(s), v)
  {}

  lemma {:induction false} StepKeepsDekMarks(s: Sys, e: Event)
    requires Inv(s)
    ensures var s' := Step(s, e); forall v :: Marked(s'.deks, v) || v in s'.goneDeks ==> v in s'.madeDeks && !Recoverable(Current(s'), v)
  {
    var s' := Step(s, e);
    forall v | Gone(s', v) ensures v in s'.madeDeks && !Recoverable(Current(s'), v) {
      if Gone(s, v) { GoneStaysGone(s, e, v); } else { NewlyGone(s, e, v); }
    }
    assert forall v :: Marked(s'.deks, v) || v in s'.goneDeks ==> Gone(s', v);
  }

  lemma {:induction false} StepKeepsKekMarks(s: Sys, e: Event)
    requires Inv(s)
    ensures var s' := Step(s, e); forall k :: Marked(s'.keks, k) || k in s'.goneKeks ==> k in s'.madeKeks && k !in Current(s').keks
  {
    NoKekReturns(s, e);
  }

  lemma {:induction false} StepKeepsMarks(s: Sys, e: Event)
    requires Inv(s)
    ensures MarksAreTrue(Step(s, e))
  {
    StepKeepsDekMarks(s, e);
    StepKeepsKekMarks(s, e);
  }

  /** In every run of rotations, revocations and finalizers, crashed anywhere, whatever is marked destroyed is
      unrecoverable in the store. */
  lemma {:induction false} RunKeepsInv(s: Sys, es: seq<Event>)
    requires Inv(s)
    ensures Inv(Run(s, es))
  {
    if es != [] {
      var front := es[..|es| - 1];
      RunKeepsInv(s, front);
      StepKeepsStore(Run(s, front), es[|es| - 1]);
      StepKeepsMarks(Run(s, front), es[|es| - 1]);
    }
  }

  /** A system in which nothing has been created yet is a place to start from. */
  lemma {:induction false} NewSystemIsOk(s: Sys)
    requires s.store.keks.Keys == {} && s.store.deks.Keys == {} && s.keks.Keys == {} && s.deks.Keys == {}
    requires s.goneDeks == {} && s.goneKeks == {}
    ensures Inv(s)
  {}

  /** So in every run from there, whatever is marked destroyed is unrecoverable. */
  lemma {:induction false} MarkedIsUnrecoverable(s: Sys, es: seq<Event>, v: nat, k: string)
    requires s.store.keks.Keys == {} && s.store.deks.Keys == {} && s.keks.Keys == {} && s.deks.Keys == {}
    requires s.goneDeks == {} && s.goneKeks == {}
    ensures var s' := Run(s, es); (Marked(s'.deks, v) ==> !Recoverable(Current(s'), v)) && (Marked(s'.keks, k) ==> k !in Current(s').keks)
  {
    NewSystemIsOk(s);
    RunKeepsInv(s, es);
  }
}
