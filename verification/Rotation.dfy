/** Key rotation with crashes and re-runs, the finalizer, and a fleet of workers that cache the active version.
    Each event is one access to the database, the key store or the queue. */
module Rotation {
  import opened Wrappers
  import opened KeyStoreSpec
  import opened Reencrypt

  // ---------- state ----------

  /** The key_versions table and the key store: one active version, at most one being rotated in, the retired ones
      whose destruction is requested, and the destroyed ones. */
  datatype Keys = Keys(store: View, active: nat, rotating: Option<nat>, retired: set<nat>, destroyed: set<nat>, top: nat)

  /** The ciphertext rows, and what they are supposed to say. */
  datatype Data = Data(rows: Table, truth: map<RowKey, string>)

  datatype CachedVersion = CachedVersion(version: nat, expires: int)

  /** A call of currentKeyVersion that missed the cache: the clock is read, then the database, then the cache is set. */
  datatype Load = Load(start: int, version: Option<nat>)

  datatype Job = Fresh | Fetching(start: int) | Fetched(start: int, version: nat) | Has(version: nat)

  /** Worker processes: their caches, loads outside any job, and the jobs in flight. */
  datatype Fleet = Fleet(cache: map<nat, CachedVersion>, loads: map<nat, Load>, jobs: map<nat, Job>)

  /** Where the rotation command is. */
  datatype Pc = Idle | Ready | Draining | Drained | Verified | Swapped(old': nat) | Settling(since: int)

  /** `early` below counts the resumptions other than the command's own last step that came while a cache could still
      hold the version retired last. */
  datatype Config = Config(window: nat, ttl: nat, settle: nat)

  datatype Sys = Sys(now: int, config: Config, keys: Keys, data: Data, pc: Pc, paused: bool, swapTime: int, early: nat, fleet: Fleet)

  /** The rotation command, and what an operator does between two runs of it. */
  datatype Command =
    | Begin(kek: string, dek: Key) | Pause | Drain | Batch(ks: set<RowKey>) | Verify | Swap | DestroyOld | End | Throw | Crash
    | Resume | Finalize(v: nat)

  datatype LoadEvent = LoadStart(l: nat) | LoadRead(l: nat) | LoadDone(l: nat, w: nat)

  datatype JobEvent =
    | JobBegin(w: nat) | JobHit(w: nat) | JobFetch(w: nat) | JobRead(w: nat) | JobFilled(w: nat)
    | JobWrite(w: nat, k: RowKey, text: string) | JobEnd(w: nat) | HardDelete(k: RowKey)

  datatype Event = Tick(ms: nat) | Rotate(c: Command) | Fetch(x: LoadEvent) | Work(j: JobEvent)

  // ---------- steps ----------

  function DekOf(keys: Keys, v: nat): Key
    requires v in keys.store.deks
  {
    keys.store.deks[v].item.wrapped.dek
  }

  function Doomed(keys: Keys, v: nat, now: int, window: nat): Keys {
    keys.(store := keys.store.(deks := AfterDestroy(LiveAt(keys.store.deks, now), v, now, window)))
  }

  /** Resume an interrupted rotation, or create the next version; a version has one row, so the new one is not the
      active one. */
  function BeginRotation(keys: Keys, kek: string, dek: Key): Option<Keys> {
    if keys.retired != {} || keys.rotating == Some(keys.active) || keys.top + 1 == keys.active then None
    else if keys.rotating.Some? then Some(keys)
    else if kek !in keys.store.keks || keys.store.keks[kek].until.Some? then None
    else
      var v := keys.top + 1;
      var entry := DekEntry(Wrapped(dek, keys.store.keks[kek].item, v), kek);
      Some(keys.(store := keys.store.(deks := keys.store.deks[v := Slot(entry, None)]), rotating := Some(v), top := v))
  }

  /** Retire the old version, activate the new one and request the old one's destruction, in one commit. */
  function SwapActive(keys: Keys): Keys
    requires keys.rotating.Some?
  {
    keys.(active := keys.rotating.value, rotating := None, retired := keys.retired + {keys.active})
  }

  function MoveRows(keys: Keys, t: Table, ks: set<RowKey>): Table
    requires keys.rotating.Some? && keys.active in keys.store.deks && keys.rotating.value in keys.store.deks
  {
    var oldKey, new', newKey := DekOf(keys, keys.active), keys.rotating.value, DekOf(keys, keys.rotating.value);
    map k | k in t :: if k in ks && RecoverableAt(t, k, keys.active) && Plain(t, k, oldKey).Some? then Moved(t, k, oldKey, new', newKey) else t[k]
  }

  /** The queue runs again. */
  function Unpause(s: Sys): Sys { s.(paused := false, pc := Idle) }

  /** The queue runs again without the command having waited. */
  function Interrupt(s: Sys): Sys {
    Unpause(s).(early := s.early + if s.now < s.swapTime + s.config.ttl then 1 else 0)
  }

  function CommandStep(s: Sys, e: Command): Sys {
    match e
    case Begin(kek, dek) =>
      if s.pc != Idle then s
      else (match BeginRotation(s.keys, kek, dek) case None => s case Some(keys) => s.(keys := keys, pc := Ready))
    case Pause => if s.pc == Ready then s.(paused := true, pc := Draining) else s
    case Drain => if s.pc == Draining && s.fleet.jobs.Keys == {} then s.(pc := Drained) else s
    case Batch(ks) =>
      if s.pc == Drained && s.keys.rotating.Some? && s.keys.active in s.keys.store.deks && s.keys.rotating.value in s.keys.store.deks
      then s.(data := s.data.(rows := MoveRows(s.keys, s.data.rows, ks))) else s
    case Verify => if s.pc == Drained && Reencrypt.At(s.data.rows, s.keys.active) == {} then s.(pc := Verified) else s
    case Swap => if s.pc == Verified && s.keys.rotating.Some? then s.(keys := SwapActive(s.keys), pc := Swapped(s.keys.active), swapTime := s.now) else s
    case DestroyOld => if s.pc.Swapped? then s.(keys := Doomed(s.keys, s.pc.old', s.now, s.config.window), pc := Settling(s.now)) else s
    case End => if s.pc.Settling? && s.now >= s.pc.since + s.config.settle then Unpause(s) else s
    case Throw => if s.pc == Idle || s.pc == Ready then s.(pc := Idle) else Interrupt(s)
    case Crash => s.(pc := Idle)
    case Resume => if s.pc == Idle then Interrupt(s) else s
    case Finalize(v) =>
      if v !in s.keys.retired || (s.pc != Idle && !s.pc.Settling?) then s
      else
        var keys := Doomed(s.keys, v, s.now, s.config.window);
        if Recoverable(ViewAt(keys.store, s.now), v) then s.(keys := keys)
        else s.(keys := keys.(retired := keys.retired - {v}, destroyed := keys.destroyed + {v}))
  }

  function Fill(s: Sys, w: nat, version: nat, start: int): map<nat, CachedVersion> {
    s.fleet.cache[w := CachedVersion(version, start + s.config.ttl)]
  }

  function LoadStep(s: Sys, e: LoadEvent): Sys {
    var f := s.fleet;
    match e
    case LoadStart(l) => if l in f.loads then s else s.(fleet := f.(loads := f.loads[l := Load(s.now, None)]))
    case LoadRead(l) =>
      if l !in f.loads then s else s.(fleet := f.(loads := f.loads[l := Load(f.loads[l].start, Some(s.keys.active))]))
    case LoadDone(l, w) =>
      if l !in f.loads || f.loads[l].version.None? then s
      else s.(fleet := f.(cache := Fill(s, w, f.loads[l].version.value, f.loads[l].start), loads := f.loads - {l}))
  }

  function JobStep(s: Sys, e: JobEvent): Sys {
    var f := s.fleet;
    match e
    case JobBegin(w) => if s.paused || w in f.jobs then s else s.(fleet := f.(jobs := f.jobs[w := Fresh]))
    case JobHit(w) =>
      if w in f.jobs && f.jobs[w] == Fresh && w in f.cache && s.now < f.cache[w].expires
      then s.(fleet := f.(jobs := f.jobs[w := Has(f.cache[w].version)])) else s
    case JobFetch(w) => if w in f.jobs && f.jobs[w] == Fresh then s.(fleet := f.(jobs := f.jobs[w := Fetching(s.now)])) else s
    case JobRead(w) =>
      if w in f.jobs && f.jobs[w].Fetching? then s.(fleet := f.(jobs := f.jobs[w := Fetched(f.jobs[w].start, s.keys.active)])) else s
    case JobFilled(w) =>
      if w in f.jobs && f.jobs[w].Fetched?
      then s.(fleet := f.(cache := Fill(s, w, f.jobs[w].version, f.jobs[w].start), jobs := f.jobs[w := Has(f.jobs[w].version)])) else s
    case JobWrite(w, k, text) =>
      if w in f.jobs && f.jobs[w].Has? && Recoverable(ViewAt(s.keys.store, s.now), f.jobs[w].version)
      then
        var v := f.jobs[w].version;
        var row := Row(v, Some(Encrypt(text, DekOf(s.keys, v), k.callId)), false);
        s.(data := Data(s.data.rows[k := row], s.data.truth[k := text]))
      else s
    case JobEnd(w) => s.(fleet := f.(jobs := f.jobs - {w}))
    case HardDelete(k) =>
      if k in s.data.rows then s.(data := s.data.(rows := s.data.rows[k := s.data.rows[k].(cipher := None, hardDeleted := true)])) else s
  }

  /** One event; an event that is not enabled changes nothing. */
  function Step(s: Sys, e: Event): Sys {
    match e
    case Tick(ms) => s.(now := s.now + ms)
    case Rotate(c) => CommandStep(s, c)
    case Fetch(x) => LoadStep(s, x)
    case Work(j) => JobStep(s, j)
  }

  function Run(s: Sys, es: seq<Event>): Sys {
    if es == [] then s else Step(Run(s, es[..|es| - 1]), es[|es| - 1])
  }

  // ---------- what every run keeps ----------

  /** Active in the store under a KEK that is, so readable at any time. */
  ghost predicate Solid(keys: Keys, v: nat) {
    && v in keys.store.deks && keys.store.deks[v].until.None?
    && keys.store.deks[v].item.kekVersion in keys.store.keks && keys.store.keks[keys.store.deks[v].item.kekVersion].until.None?
  }

  ghost predicate KeysOk(keys: Keys) {
    && Solid(keys, keys.active) && (keys.rotating.Some? ==> Solid(keys, keys.rotating.value) && keys.rotating.value != keys.active)
    && keys.active !in keys.retired + keys.destroyed && (keys.rotating.Some? ==> keys.rotating.value !in keys.retired + keys.destroyed)
    && (forall v :: v in keys.store.deks || v in keys.retired || v in keys.destroyed ==> v <= keys.top)
  }

  /** The row sits under the active version or the one being rotated in, and reads as it should. */
  ghost predicate RowOk(keys: Keys, data: Data, k: RowKey)
    requires k in data.rows
  {
    HoldsCipher(data.rows[k]) ==>
      var v := data.rows[k].version;
      && (v == keys.active || keys.rotating == Some(v))
      && v in keys.store.deks && k in data.truth && Plain(data.rows, k, DekOf(keys, v)) == Some(data.truth[k])
  }

  ghost predicate DataOk(keys: Keys, data: Data) { forall k :: k in data.rows ==> RowOk(keys, data, k) }

  ghost predicate ControlOk(s: Sys) {
    && (s.pc in {Ready, Draining, Drained, Verified} ==> s.keys.rotating.Some?)
    && (s.pc != Idle && s.pc != Ready ==> s.paused)
    && (s.pc != Idle && s.pc != Ready && s.pc != Draining ==> s.fleet.jobs.Keys == {})
    && (s.pc == Verified ==> Reencrypt.At(s.data.rows, s.keys.active) == {})
    && (s.pc.Swapped? ==> s.pc.old' in s.keys.retired)
    && (s.pc.Settling? ==> s.pc.since >= s.swapTime)
  }

  /** Whatever is remembered of a version that is no longer active was read before the last swap. */
  ghost predicate CacheOk(s: Sys) {
    forall w :: w in s.fleet.cache ==>
      var c := s.fleet.cache[w];
      c.expires <= s.now + s.config.ttl && (c.version == s.keys.active || c.expires <= s.swapTime + s.config.ttl)
  }

  ghost predicate LoadsOk(s: Sys) {
    forall l :: l in s.fleet.loads ==>
      var x := s.fleet.loads[l];
      x.start <= s.now && (x.version.Some? ==> x.version.value == s.keys.active || x.start <= s.swapTime)
  }

  /** A job in flight has the active version, or none yet. */
  ghost predicate JobsOk(s: Sys) {
    forall w :: w in s.fleet.jobs ==>
      var j := s.fleet.jobs[w];
      && (j.Fetching? || j.Fetched? ==> j.start <= s.now)
      && (j.Fetched? || j.Has? ==> j.version == s.keys.active)
  }

  /** Workers run only when no cache can hold the version retired last. */
  ghost predicate TimeOk(s: Sys) {
    s.swapTime <= s.now && (!s.paused || s.fleet.jobs.Keys != {} ==> s.now >= s.swapTime + s.config.ttl)
  }

  ghost predicate FleetOk(s: Sys) { CacheOk(s) && LoadsOk(s) && JobsOk(s) && TimeOk(s) }

  ghost predicate Inv(s: Sys) { KeysOk(s.keys) && DataOk(s.keys, s.data) && ControlOk(s) && FleetOk(s) }

  lemma {:induction false} DoomedKeepsKeys(keys: Keys, v: nat, now: int, window: nat)
    requires KeysOk(keys) && v in keys.retired
    ensures KeysOk(Doomed(keys, v, now, window))
    ensures DekOf(Doomed(keys, v, now, window), keys.active) == DekOf(keys, keys.active)
    ensures keys.rotating.Some? ==> DekOf(Doomed(keys, v, now, window), keys.rotating.value) == DekOf(keys, keys.rotating.value)
  {}

  lemma {:induction false} DataCarried(keys: Keys, keys': Keys, data: Data)
    requires DataOk(keys, data) && KeysOk(keys) && KeysOk(keys')
    requires keys'.active == keys.active && DekOf(keys', keys.active) == DekOf(keys, keys.active)
    requires keys.rotating.Some? ==> keys'.rotating == keys.rotating && DekOf(keys', keys.rotating.value) == DekOf(keys, keys.rotating.value)
    ensures DataOk(keys', data)
  {
    forall k | k in data.rows ensures RowOk(keys', data, k) { assert RowOk(keys, data, k); }
  }

  lemma {:induction false} BeginKeeps(keys: Keys, data: Data, kek: string, dek: Key)
    requires KeysOk(keys) && DataOk(keys, data) && BeginRotation(keys, kek, dek).Some?
    ensures var keys' := BeginRotation(keys, kek, dek).value;
            KeysOk(keys') && DataOk(keys', data) && keys'.rotating.Some? && keys'.active == keys.active && keys'.retired == keys.retired
  {
    var keys' := BeginRotation(keys, kek, dek).value;
    assert keys.top + 1 !in keys.store.deks;
    DataCarried(keys, keys', data);
  }

  /** A batch moves rows between versions without changing what they say. */
  lemma {:induction false} BatchKeeps(keys: Keys, data: Data, ks: set<RowKey>)
    requires KeysOk(keys) && DataOk(keys, data) && keys.rotating.Some?
    ensures DataOk(keys, data.(rows := MoveRows(keys, data.rows, ks)))
  {
    var data' := data.(rows := MoveRows(keys, data.rows, ks));
    forall k | k in data'.rows ensures RowOk(keys, data', k) { assert RowOk(keys, data, k); }
  }

  /** A batch is a sweep of its rows from the active version to the one being rotated in. */
  lemma {:induction false} BatchIsSweep(keys: Keys, data: Data, ks: set<RowKey>)
    requires KeysOk(keys) && DataOk(keys, data) && keys.rotating.Some?
    ensures var oldKey, newKey := DekOf(keys, keys.active), DekOf(keys, keys.rotating.value);
            && Opens(data.rows, keys.active, oldKey)
            && Swept(data.rows, MoveRows(keys, data.rows, ks), ks, keys.active, oldKey, keys.rotating.value, newKey)
  {
    var oldKey, newKey := DekOf(keys, keys.active), DekOf(keys, keys.rotating.value);
    forall k | k in data.rows
      ensures RecoverableAt(data.rows, k, keys.active) ==> Plain(data.rows, k, oldKey).Some?
      ensures SweptRow(data.rows, MoveRows(keys, data.rows, ks), k, ks, keys.active, oldKey, keys.rotating.value, newKey)
    {
      assert RowOk(keys, data, k);
    }
  }

  /** No row is left behind by the swap: the sweep was verified and nothing was written since. */
  lemma {:induction false} SwapKeeps(keys: Keys, data: Data)
    requires KeysOk(keys) && DataOk(keys, data) && keys.rotating.Some? && Reencrypt.At(data.rows, keys.active) == {}
    ensures KeysOk(SwapActive(keys)) && DataOk(SwapActive(keys), data)
  {
    forall k | k in data.rows ensures RowOk(SwapActive(keys), data, k) {
      assert RowOk(keys, data, k);
      assert k !in Reencrypt.At(data.rows, keys.active);
    }
  }

  lemma {:induction false} CommandKeepsData(s: Sys, e: Command)
    requires Inv(s)
    ensures var s' := CommandStep(s, e); KeysOk(s'.keys) && DataOk(s'.keys, s'.data)
  {
    match e
    case Begin(kek, dek) => if s.pc == Idle && BeginRotation(s.keys, kek, dek).Some? { BeginKeeps(s.keys, s.data, kek, dek); }
    case Batch(ks) => if s.pc == Drained { BatchKeeps(s.keys, s.data, ks); }
    case Swap => if s.pc == Verified { SwapKeeps(s.keys, s.data); }
    case DestroyOld =>
      if s.pc.Swapped? {
        DoomedKeepsKeys(s.keys, s.pc.old', s.now, s.config.window);
        DataCarried(s.keys, Doomed(s.keys, s.pc.old', s.now, s.config.window), s.data);
      }
    case Finalize(v) =>
      if v in s.keys.retired {
        DoomedKeepsKeys(s.keys, v, s.now, s.config.window);
        DataCarried(s.keys, Doomed(s.keys, v, s.now, s.config.window), s.data);
        FinalizeKeepsData(s, v);
      }
    case _ =>
  }

  lemma {:induction false} FinalizeKeepsData(s: Sys, v: nat)
    requires Inv(s) && v in s.keys.retired
    requires var keys := Doomed(s.keys, v, s.now, s.config.window); KeysOk(keys) && DataOk(keys, s.data)
    ensures var s' := CommandStep(s, Finalize(v)); KeysOk(s'.keys) && DataOk(s'.keys, s'.data)
  {
    var keys, s' := Doomed(s.keys, v, s.now, s.config.window), CommandStep(s, Finalize(v));
    if s' != s && s'.keys != keys { DataCarried(keys, s'.keys, s.data); }
  }

  lemma {:induction false} CommandKeepsControl(s: Sys, e: Command)
    requires Inv(s)
    ensures ControlOk(CommandStep(s, e))
  {}

  /** Unless the queue is resumed early, workers still run only when no cache can be stale. */
  lemma {:induction false} CommandKeepsFleet(s: Sys, e: Command)
    requires Inv(s) && s.config.settle >= s.config.ttl && CommandStep(s, e).early == s.early
    ensures FleetOk(CommandStep(s, e))
  {}

  lemma {:induction false} LoadKeepsInv(s: Sys, e: LoadEvent)
    requires Inv(s)
    ensures Inv(LoadStep(s, e))
  {}

  lemma {:induction false} JobKeepsInv(s: Sys, e: JobEvent)
    requires Inv(s)
    ensures Inv(JobStep(s, e))
  {}

  lemma {:induction false} TickKeepsInv(s: Sys, ms: nat)
    requires Inv(s)
    ensures Inv(s.(now := s.now + ms))
  {}

  lemma {:induction false} StepKeepsInv(s: Sys, e: Event)
    requires Inv(s) && s.config.settle >= s.config.ttl && Step(s, e).early == s.early
    ensures Inv(Step(s, e))
  {
    match e
    case Tick(ms) => TickKeepsInv(s, ms);
    case Fetch(x) => LoadKeepsInv(s, x);
    case Work(j) => JobKeepsInv(s, j);
    case Rotate(c) => CommandKeepsInv(s, c);
  }

  lemma {:induction false} CommandKeepsInv(s: Sys, c: Command)
    requires Inv(s) && s.config.settle >= s.config.ttl && CommandStep(s, c).early == s.early
    ensures Inv(CommandStep(s, c))
  {
    CommandKeepsData(s, c);
    CommandKeepsControl(s, c);
    CommandKeepsFleet(s, c);
  }

  /** In every run that is never resumed early, with a settle time that covers the cache lifetime. */
  lemma {:induction false} RunKeepsInv(s: Sys, es: seq<Event>)
    requires Inv(s) && s.config.settle >= s.config.ttl && Run(s, es).early == s.early
    ensures Inv(Run(s, es)) && Run(s, es).config == s.config
  {
    if es != [] {
      var front, e := es[..|es| - 1], es[|es| - 1];
      RunCounts(s, front);
      CountGrows(Run(s, front), e);
      RunKeepsInv(s, front);
      StepKeepsInv(Run(s, front), e);
    }
  }

  lemma {:induction false} RunCounts(s: Sys, es: seq<Event>)
    ensures s.early <= Run(s, es).early && Run(s, es).config == s.config
  {
    if es != [] {
      RunCounts(s, es[..|es| - 1]);
      CountGrows(Run(s, es[..|es| - 1]), es[|es| - 1]);
    }
  }

  lemma {:induction false} CountGrows(s: Sys, e: Event)
    ensures Step(s, e).config == s.config && s.early <= Step(s, e).early
  {}

  // ---------- what it means ----------

  /** What the application reads back from a row now. */
  function Reads(s: Sys, k: RowKey): Option<string> {
    if k in s.data.rows && HoldsCipher(s.data.rows[k]) && Recoverable(ViewAt(s.keys.store, s.now), s.data.rows[k].version)
       && s.data.rows[k].version in s.keys.store.deks
    then Plain(s.data.rows, k, DekOf(s.keys, s.data.rows[k].version)) else None
  }

  /** Through every crash, exception and re-run, every row that holds ciphertext reads back as the text last written. */
  lemma {:induction false} NothingIsLost(s: Sys, es: seq<Event>, k: RowKey)
    requires Inv(s) && s.config.settle >= s.config.ttl && Run(s, es).early == s.early
    requires k in Run(s, es).data.rows && HoldsCipher(Run(s, es).data.rows[k])
    ensures var s' := Run(s, es); k in s'.data.truth && Reads(s', k) == Some(s'.data.truth[k])
  {
    RunKeepsInv(s, es);
    assert RowOk(Run(s, es).keys, Run(s, es).data, k);
  }

  function Taking(w: nat): seq<Event> { [Work(JobBegin(w)), Work(JobFetch(w)), Work(JobRead(w))] }
  function Storing(w: nat, k: RowKey, text: string): seq<Event> { [Work(JobFilled(w)), Work(JobWrite(w, k, text)), Work(JobEnd(w))] }

  /** While the queue runs, a worker that takes a job, loads the active version and writes a row leaves it reading back
      as written, under the active version. */
  lemma {:induction false} WorkerWrites(s: Sys, w: nat, k: RowKey, text: string)
    requires Inv(s) && !s.paused && w !in s.fleet.jobs
    ensures var s' := Run(s, Taking(w) + Storing(w, k, text));
      Reads(s', k) == Some(text) && s'.data.rows[k].version == s.keys.active && s'.fleet.jobs == s.fleet.jobs && s'.keys == s.keys
  {
    RunConcat(s, Taking(w), Storing(w, k, text));
    AfterTaking(s, w);
    AfterStoring(Run(s, Taking(w)), w, k, text);
    assert s.fleet.jobs[w := Fetched(s.now, s.keys.active)] - {w} == s.fleet.jobs;
  }

  lemma {:induction false} AfterTaking(s: Sys, w: nat)
    requires !s.paused && w !in s.fleet.jobs
    ensures Run(s, Taking(w)) == s.(fleet := s.fleet.(jobs := s.fleet.jobs[w := Fetched(s.now, s.keys.active)]))
  {
    RunThree(s, Work(JobBegin(w)), Work(JobFetch(w)), Work(JobRead(w)));
    assert s.fleet.jobs[w := Fresh][w := Fetching(s.now)][w := Fetched(s.now, s.keys.active)] == s.fleet.jobs[w := Fetched(s.now, s.keys.active)];
  }

  lemma {:induction false} AfterStoring(s: Sys, w: nat, k: RowKey, text: string)
    requires KeysOk(s.keys) && w in s.fleet.jobs && s.fleet.jobs[w].Fetched? && s.fleet.jobs[w].version == s.keys.active
    ensures var s' := Run(s, Storing(w, k, text));
      Reads(s', k) == Some(text) && s'.data.rows[k].version == s.keys.active && s'.fleet.jobs == s.fleet.jobs - {w} && s'.keys == s.keys
  {
    RunThree(s, Work(JobFilled(w)), Work(JobWrite(w, k, text)), Work(JobEnd(w)));
    assert Recoverable(ViewAt(s.keys.store, s.now), s.keys.active);
    assert s.fleet.jobs[w := Has(s.keys.active)] - {w} == s.fleet.jobs - {w};
  }

  /** Only a worker's write changes what a row says, and only a hard delete takes its ciphertext away. */
  lemma {:induction false} OthersKeepRows(s: Sys, e: Event, k: RowKey)
    requires Inv(s) && k in s.data.rows && HoldsCipher(s.data.rows[k])
    requires e != Work(HardDelete(k)) && !(e.Work? && e.j.JobWrite? && e.j.k == k)
    ensures var s' := Step(s, e); k in s'.data.rows && HoldsCipher(s'.data.rows[k])
    ensures k in s.data.truth && k in Step(s, e).data.truth && Step(s, e).data.truth[k] == s.data.truth[k]
  {
    assert RowOk(s.keys, s.data, k);
    match e
    case Rotate(c) => CommandKeepsRow(s, c, k);
    case Work(j) => JobKeepsRow(s, j, k);
    case _ =>
  }

  lemma {:induction false} JobKeepsRow(s: Sys, j: JobEvent, k: RowKey)
    requires k in s.data.rows && HoldsCipher(s.data.rows[k]) && k in s.data.truth && j != HardDelete(k) && !(j.JobWrite? && j.k == k)
    ensures var s' := JobStep(s, j); k in s'.data.rows && HoldsCipher(s'.data.rows[k]) && k in s'.data.truth && s'.data.truth[k] == s.data.truth[k]
  {}

  lemma {:induction false} CommandKeepsRow(s: Sys, c: Command, k: RowKey)
    requires k in s.data.rows && HoldsCipher(s.data.rows[k])
    ensures var s' := CommandStep(s, c); k in s'.data.rows && HoldsCipher(s'.data.rows[k]) && s'.data.truth == s.data.truth
  {}

  /** A version's key is destroyed only once no row with ciphertext is left under it. */
  lemma {:induction false} DestroyedOnlyWhenEmpty(s: Sys, es: seq<Event>, v: nat)
    requires Inv(s) && s.config.settle >= s.config.ttl && Run(s, es).early == s.early
    ensures var s' := Run(s, es);
      (s'.pc == Swapped(v) || v in s'.keys.retired || v in s'.keys.destroyed) ==> Reencrypt.At(s'.data.rows, v) == {}
  {
    RunKeepsInv(s, es);
    var s' := Run(s, es);
    if s'.pc == Swapped(v) || v in s'.keys.retired || v in s'.keys.destroyed {
      forall k | k in s'.data.rows ensures !RecoverableAt(s'.data.rows, k, v) { assert RowOk(s'.keys, s'.data, k); }
    }
  }

  /** No job holds any version but the active one. */
  ghost predicate NoStaleJob(s: Sys) {
    forall w :: w in s.fleet.jobs && s.fleet.jobs[w].Has? ==> s.fleet.jobs[w].version == s.keys.active
  }

  lemma {:induction false} NoStaleWrites(s: Sys, es: seq<Event>)
    requires Inv(s) && s.config.settle >= s.config.ttl && Run(s, es).early == s.early
    ensures NoStaleJob(Run(s, es))
  {
    RunKeepsInv(s, es);
  }

  // ---------- when the settle time is too short, or skipped ----------

  lemma {:induction false} RunAppend(s: Sys, es: seq<Event>, e: Event)
    ensures Run(s, es + [e]) == Step(Run(s, es), e)
  {
    assert (es + [e])[..|es|] == es;
  }

  /** A system at rest, with a KEK to rotate under. */
  ghost predicate AtRest(s: Sys, kek: string) {
    && Inv(s) && s.pc == Idle && !s.paused && s.fleet.jobs.Keys == {} && s.fleet.loads.Keys == {}
    && s.keys.rotating.None? && s.keys.retired == {} && kek in s.keys.store.keks && s.keys.store.keks[kek].until.None?
  }

  /** There is such a system: one key pair, no rows, nobody at work. */
  lemma {:induction false} SomeSystemIsAtRest(kek: string, config: Config, keys: Keys, data: Data, fleet: Fleet)
    requires kek in keys.store.keks && keys.store.keks[kek].until.None?
    requires 1 in keys.store.deks && keys.store.deks[1].until.None? && keys.store.deks[1].item.kekVersion == kek && keys.store.deks.Keys == {1}
    requires keys.active == 1 && keys.rotating.None? && keys.retired == {} && keys.destroyed == {} && keys.top == 1 && data.rows.Keys == {}
    requires fleet.cache.Keys == {} && fleet.loads.Keys == {} && fleet.jobs.Keys == {}
    ensures AtRest(Sys(config.ttl, config, keys, data, Idle, false, 0, 0, fleet), kek)
  {}

  /** A worker fills its cache, and a whole rotation follows at once, up to the commit or the store request. */
  const CACHED := [Fetch(LoadStart(0)), Fetch(LoadRead(0)), Fetch(LoadDone(0, 0))]
  function Started(kek: string): seq<Event> { [Rotate(Begin(kek, 0)), Rotate(Pause), Rotate(Drain)] }
  function Swapping(ks: set<RowKey>): seq<Event> { [Rotate(Batch(ks)), Rotate(Verify), Rotate(Swap)] }
  function ToCommit(s: Sys, kek: string): seq<Event> { CACHED + Started(kek) + Swapping(s.data.rows.Keys) }
  function ToRequest(s: Sys, kek: string): seq<Event> { ToCommit(s, kek) + [Rotate(DestroyOld)] }

  lemma {:induction false} RunThree(s: Sys, a: Event, b: Event, c: Event)
    ensures Run(s, [a, b, c]) == Step(Step(Step(s, a), b), c)
  {
    RunAppend(s, [], a);
    RunAppend(s, [a], b);
    RunAppend(s, [a, b], c);
    assert [] + [a] == [a] && [a] + [b] == [a, b] && [a, b] + [c] == [a, b, c];
  }

  lemma {:induction false} RunConcat(s: Sys, a: seq<Event>, b: seq<Event>)
    ensures Run(s, a + b) == Run(Run(s, a), b)
  {
    if b == [] {
      assert a + b == a;
    } else {
      var n := |b| - 1;
      RunConcat(s, a, b[..n]);
      assert (a + b)[..|a + b| - 1] == a + b[..n];
    }
  }

  lemma {:induction false} AfterCached(s: Sys)
    requires s.fleet.loads.Keys == {}
    ensures var s' := Run(s, CACHED);
      s' == s.(fleet := s'.fleet) && s'.fleet.jobs == s.fleet.jobs && 0 in s'.fleet.cache
      && s'.fleet.cache[0] == CachedVersion(s.keys.active, s.now + s.config.ttl)
  {
    RunThree(s, Fetch(LoadStart(0)), Fetch(LoadRead(0)), Fetch(LoadDone(0, 0)));
  }

  lemma {:induction false} AfterStarted(s: Sys, kek: string)
    requires s.pc == Idle && KeysOk(s.keys) && s.fleet.jobs.Keys == {} && s.keys.rotating.None? && s.keys.retired == {}
    requires kek in s.keys.store.keks && s.keys.store.keks[kek].until.None?
    ensures var s' := Run(s, Started(kek));
      && s' == s.(keys := BeginRotation(s.keys, kek, 0).value, pc := Drained, paused := true)
      && s'.keys.active == s.keys.active && s'.keys.rotating == Some(s.keys.top + 1)
  {
    RunThree(s, Rotate(Begin(kek, 0)), Rotate(Pause), Rotate(Drain));
  }

  lemma {:induction false} AfterSwapping(s: Sys)
    requires s.pc == Drained && KeysOk(s.keys) && DataOk(s.keys, s.data) && s.keys.rotating.Some?
    ensures var s' := Run(s, Swapping(s.data.rows.Keys));
      && s' == s.(keys := SwapActive(s.keys), data := s'.data, pc := Swapped(s.keys.active), swapTime := s.now)
  {
    var ks := s.data.rows.Keys;
    RunThree(s, Rotate(Batch(ks)), Rotate(Verify), Rotate(Swap));
    BatchIsSweep(s.keys, s.data, ks);
    var rows' := MoveRows(s.keys, s.data.rows, ks);
    forall k | k in rows' ensures !RecoverableAt(rows', k, s.keys.active) {
      assert SweptRow(s.data.rows, rows', k, ks, s.keys.active, DekOf(s.keys, s.keys.active), s.keys.rotating.value, DekOf(s.keys, s.keys.rotating.value));
    }
    assert Reencrypt.At(rows', s.keys.active) == {};
  }

  /** Past the commit, with a worker's cache just filled with what was active before. */
  ghost predicate JustSwapped(s: Sys, m: Sys) {
    && m.now == s.now && m.swapTime == s.now && m.config == s.config && m.early == s.early && m.paused
    && m.keys.active != s.keys.active && m.fleet.jobs.Keys == {}
    && 0 in m.fleet.cache && m.fleet.cache[0] == CachedVersion(s.keys.active, s.now + s.config.ttl)
  }

  lemma {:induction false} AfterCommit(s: Sys, kek: string)
    requires AtRest(s, kek)
    ensures var m := Run(s, ToCommit(s, kek)); JustSwapped(s, m) && m.pc == Swapped(s.keys.active)
  {
    RunConcat(s, CACHED + Started(kek), Swapping(s.data.rows.Keys));
    RunConcat(s, CACHED, Started(kek));
    AfterCached(s);
    var m := Run(s, CACHED);
    AfterStarted(m, kek);
    BeginKeeps(m.keys, m.data, kek, 0);
    AfterSwapping(Run(m, Started(kek)));
  }

  lemma {:induction false} AfterRequest(s: Sys, kek: string)
    requires AtRest(s, kek)
    ensures var m := Run(s, ToRequest(s, kek)); JustSwapped(s, m) && m.pc == Settling(s.now)
  {
    AfterCommit(s, kek);
    RunAppend(s, ToCommit(s, kek), Rotate(DestroyOld));
  }

  lemma {:induction false} StaleHit(m: Sys)
    requires !m.paused && m.fleet.jobs.Keys == {} && 0 in m.fleet.cache && m.now < m.fleet.cache[0].expires && m.fleet.cache[0].version != m.keys.active
    ensures var m' := Run(m, [Work(JobBegin(0))] + [Work(JobHit(0))]); m'.early == m.early && !NoStaleJob(m')
  {
    RunAppend(m, [], Work(JobBegin(0)));
    RunAppend(m, [Work(JobBegin(0))], Work(JobHit(0)));
    assert [] + [Work(JobBegin(0))] == [Work(JobBegin(0))];
    assert Run(m, [Work(JobBegin(0))] + [Work(JobHit(0))]).fleet.jobs[0].Has?;
  }

  /** From a system at rest, no worker ever takes a retired version in any run not resumed early, exactly when the
      settle time is at least the lifetime of the active-version cache. */
  lemma {:induction false} SettleCoversCacheIff(s: Sys, kek: string)
    requires AtRest(s, kek)
    ensures (forall es :: Run(s, es).early == s.early ==> NoStaleJob(Run(s, es))) <==> s.config.settle >= s.config.ttl
  {
    if s.config.settle >= s.config.ttl {
      forall es | Run(s, es).early == s.early ensures NoStaleJob(Run(s, es)) { NoStaleWrites(s, es); }
    } else {
      AfterRequest(s, kek);
      var es := ToRequest(s, kek);
      RunAppend(s, es, Tick(s.config.settle));
      RunAppend(s, es + [Tick(s.config.settle)], Rotate(End));
      var ended := es + [Tick(s.config.settle)] + [Rotate(End)];
      StaleHit(Run(s, ended));
      RunConcat(s, ended, [Work(JobBegin(0))] + [Work(JobHit(0))]);
      assert !NoStaleJob(Run(s, ended + ([Work(JobBegin(0))] + [Work(JobHit(0))])));
    }
  }

  /** How the queue comes to run again after the commit without the settle-wait: the command throws, or it dies and the
      operator resumes. */
  datatype Stop = ByException | ByOperator

  function Stopping(how: Stop, wait: nat): seq<Event> {
    if how == ByException then [Tick(wait), Rotate(Throw)] else [Rotate(Crash), Tick(wait), Rotate(Resume)]
  }

  /** The queue runs again, `wait` after the commit, with everything else as it was. */
  ghost predicate Resumed(s: Sys, m: Sys, r: Sys, wait: nat) {
    && !r.paused && r.now == s.now + wait && r.fleet == m.fleet && r.keys == m.keys && r.config == s.config
    && r.early == s.early + if wait < s.config.ttl then 1 else 0
  }

  lemma {:induction false} AfterException(s: Sys, m: Sys, wait: nat)
    requires JustSwapped(s, m) && m.pc != Idle && m.pc != Ready
    ensures Resumed(s, m, Run(m, [Tick(wait), Rotate(Throw)]), wait)
  {
    RunAppend(m, [], Tick(wait));
    RunAppend(m, [Tick(wait)], Rotate(Throw));
    assert [] + [Tick(wait)] == [Tick(wait)] && [Tick(wait)] + [Rotate(Throw)] == [Tick(wait), Rotate(Throw)];
    assert Run(m, [Tick(wait), Rotate(Throw)]) == CommandStep(m.(now := m.now + wait), Throw);
  }

  lemma {:induction false} AfterDeath(s: Sys, m: Sys, wait: nat)
    requires JustSwapped(s, m)
    ensures Resumed(s, m, Run(m, [Rotate(Crash), Tick(wait), Rotate(Resume)]), wait)
  {
    RunThree(m, Rotate(Crash), Tick(wait), Rotate(Resume));
    assert Run(m, [Rotate(Crash), Tick(wait), Rotate(Resume)]) == CommandStep(m.(pc := Idle, now := m.now + wait), Resume);
  }

  /** The command stops at some point past the commit, before or after its store request, and the queue runs again
      after `wait`: no worker ever takes the retired version in any continuation that is not resumed early itself,
      exactly when the wait is at least the lifetime of the active-version cache. */
  lemma {:induction false} StoppedPastCommitIff(s: Sys, kek: string, requested: bool, how: Stop, wait: nat)
    requires AtRest(s, kek) && s.config.settle >= s.config.ttl
    ensures var r := Run(s, (if requested then ToRequest(s, kek) else ToCommit(s, kek)) + Stopping(how, wait));
      (forall es :: Run(r, es).early == r.early ==> NoStaleJob(Run(r, es))) <==> wait >= s.config.ttl
  {
    var to := if requested then ToRequest(s, kek) else ToCommit(s, kek);
    if requested { AfterRequest(s, kek); } else { AfterCommit(s, kek); }
    RunConcat(s, to, Stopping(how, wait));
    if how == ByException { AfterException(s, Run(s, to), wait); } else { AfterDeath(s, Run(s, to), wait); }
    var stopped := to + Stopping(how, wait);
    var r := Run(s, stopped);
    if wait >= s.config.ttl {
      forall es | Run(r, es).early == r.early ensures NoStaleJob(Run(r, es)) {
        RunConcat(s, stopped, es);
        NoStaleWrites(s, stopped + es);
      }
    } else {
      StaleHit(r);
    }
  }

  /** In particular an exception right after the store request hands a worker the retired version, whatever the settle
      time. */
  lemma {:induction false} ExceptionSkipsSettle(s: Sys, kek: string)
    requires AtRest(s, kek) && s.config.ttl > 0
    ensures !NoStaleJob(Run(s, ToRequest(s, kek) + [Rotate(Throw)] + ([Work(JobBegin(0))] + [Work(JobHit(0))])))
  {
    AfterRequest(s, kek);
    RunAppend(s, ToRequest(s, kek), Rotate(Throw));
    RunConcat(s, ToRequest(s, kek) + [Rotate(Throw)], [Work(JobBegin(0))] + [Work(JobHit(0))]);
    StaleHit(Run(s, ToRequest(s, kek) + [Rotate(Throw)]));
  }

  // ---------- the command itself, workers acting between its steps ----------

  datatype Fault = NoFault | Throws | Dies

  ghost predicate WorkersOnly(es: seq<Event>) { forall e :: e in es ==> !e.Rotate? }

  /** Workers and time leave the key tables and the command where they are. */
  ghost predicate Beside(s: Sys, m: Sys) {
    && m.keys == s.keys && m.pc == s.pc && m.paused == s.paused && m.swapTime == s.swapTime
    && m.early == s.early && m.config == s.config && m.now >= s.now
  }

  lemma {:induction false} WorkersBeside(s: Sys, es: seq<Event>)
    requires WorkersOnly(es)
    ensures Beside(s, Run(s, es))
  {
    if es != [] {
      var n := |es| - 1;
      assert es[n] in es;
      WorkersBeside(s, es[..n]);
    }
  }

  /** With the queue paused and no job in flight, ciphertext only disappears. */
  ghost predicate Quiet(s: Sys, m: Sys) {
    s.paused && s.fleet.jobs.Keys == {} ==> m.paused && m.fleet.jobs.Keys == {} && Reencrypt.At(m.data.rows, s.keys.active) <= Reencrypt.At(s.data.rows, s.keys.active)
  }

  lemma {:induction false} WorkerQuiet(s: Sys, e: Event)
    requires !e.Rotate? && s.paused && s.fleet.jobs.Keys == {}
    ensures Quiet(s, Step(s, e))
  {
    if e.Work? { JobQuiet(s, e.j); }
  }

  lemma {:induction false} JobQuiet(s: Sys, j: JobEvent)
    requires s.paused && s.fleet.jobs.Keys == {}
    ensures JobStep(s, j).fleet.jobs.Keys == {} && Reencrypt.At(JobStep(s, j).data.rows, s.keys.active) <= Reencrypt.At(s.data.rows, s.keys.active)
  {
    var w := if j.HardDelete? then 0 else j.w;
    assert w !in s.fleet.jobs.Keys;
  }

  lemma {:induction false} WorkersQuiet(s: Sys, es: seq<Event>)
    requires WorkersOnly(es)
    ensures Quiet(s, Run(s, es))
  {
    if es != [] && s.paused && s.fleet.jobs.Keys == {} {
      var n := |es| - 1;
      assert es[n] in es;
      WorkersQuiet(s, es[..n]);
      WorkersBeside(s, es[..n]);
      WorkerQuiet(Run(s, es[..n]), es[n]);
    }
  }

  /** The active versions are readable and every row with ciphertext opens under one of them. */
  ghost predicate Sound(s: Sys) { KeysOk(s.keys) && DataOk(s.keys, s.data) }

  /** While no job is in flight and none starts, what is sound stays so. */
  ghost predicate StaysSound(s: Sys, m: Sys) { s.paused && s.fleet.jobs.Keys == {} && Sound(s) ==> Sound(m) }

  lemma {:induction false} WorkerSound(s: Sys, e: Event)
    requires !e.Rotate? && s.paused && s.fleet.jobs.Keys == {} && Sound(s)
    ensures Sound(Step(s, e))
  {
    if e.Work? { JobSound(s, e.j); }
  }

  lemma {:induction false} JobSound(s: Sys, j: JobEvent)
    requires s.paused && s.fleet.jobs.Keys == {} && Sound(s)
    ensures Sound(JobStep(s, j))
  {
    var w := if j.HardDelete? then 0 else j.w;
    assert w !in s.fleet.jobs.Keys;
    var s' := JobStep(s, j);
    forall k | k in s'.data.rows ensures RowOk(s'.keys, s'.data, k) { assert RowOk(s.keys, s.data, k); }
  }

  lemma {:induction false} WorkersSound(s: Sys, es: seq<Event>)
    requires WorkersOnly(es)
    ensures StaysSound(s, Run(s, es))
  {
    if es != [] && s.paused && s.fleet.jobs.Keys == {} && Sound(s) {
      var n := |es| - 1;
      assert es[n] in es;
      WorkersSound(s, es[..n]);
      WorkersQuiet(s, es[..n]);
      WorkerSound(Run(s, es[..n]), es[n]);
    }
  }

  ghost predicate NoJobs(es: seq<Event>) { forall e :: e in es ==> !e.Work? }

  /** Time and loads outside any job touch neither rows nor jobs. */
  lemma {:induction false} NoJobsKeep(s: Sys, es: seq<Event>)
    requires WorkersOnly(es) && NoJobs(es)
    ensures Run(s, es).data == s.data && Run(s, es).fleet.jobs == s.fleet.jobs
  {
    if es != [] {
      var n := |es| - 1;
      assert es[n] in es;
      NoJobsKeep(s, es[..n]);
    }
  }

  /** What the tables must show for a rotation to begin: no destruction pending, and an interrupted rotation to resume or
      a KEK to start a fresh one under. */
  ghost predicate MayBegin(keys: Keys, kek: string) {
    keys.retired == {} && (keys.rotating.Some? || (kek in keys.store.keks && keys.store.keks[kek].until.None?))
  }

  /** A rotation begins exactly then. Resuming changes nothing; a fresh start adds the version after the highest, whose
      key is the given one, wrapped under the given KEK. */
  lemma {:induction false} BeginsIff(keys: Keys, kek: string, dek: Key)
    requires KeysOk(keys)
    ensures BeginRotation(keys, kek, dek).Some? <==> MayBegin(keys, kek)
    ensures BeginRotation(keys, kek, dek).Some? ==> Begun(keys, BeginRotation(keys, kek, dek).value, kek, dek)
  {
    assert keys.active in keys.store.deks && keys.top + 1 !in keys.store.deks;
  }

  ghost predicate Begun(keys: Keys, keys': Keys, kek: string, dek: Key) {
    if keys.rotating.Some? then keys' == keys else FreshVersion(keys, keys', kek, dek)
  }

  /** What is active in the store under this version is left as it is. */
  ghost predicate KeepsSlot(keys: Keys, keys': Keys, u: nat) {
    u in keys.store.deks && keys.store.deks[u].until.None? ==>
      u in keys'.store.deks && keys'.store.deks[u] == keys.store.deks[u] && keys'.store.keks == keys.store.keks
  }

  lemma {:induction false} DoomedKeepsSlot(keys: Keys, v: nat, now: int, window: nat, u: nat)
    requires u != v
    ensures KeepsSlot(keys, Doomed(keys, v, now, window), u)
  {}

  ghost predicate FreshVersion(keys: Keys, keys': Keys, kek: string, dek: Key) {
    var v := keys.top + 1;
    && keys'.rotating == Some(v) && keys'.top == v && keys'.active == keys.active && keys'.retired == keys.retired && keys'.destroyed == keys.destroyed
    && v !in keys.store.deks && keys'.store.deks.Keys == keys.store.deks.Keys + {v} && keys'.store.keks == keys.store.keks
    && (forall u :: u in keys.store.deks ==> keys'.store.deks[u] == keys.store.deks[u]) && Holds(keys', v, kek, dek)
  }

  /** The version is active in the store, and its key, wrapped under the KEK, is the given one. */
  ghost predicate Holds(keys: Keys, v: nat, kek: string, dek: Key) {
    && v in keys.store.deks && keys.store.deks[v].until.None? && keys.store.deks[v].item.kekVersion == kek && kek in keys.store.keks
    && Unwrap(keys.store.deks[v].item.wrapped, keys.store.keks[kek].item, v) == Some(dek)
  }

  /** A rotation may begin, every row can be decrypted and no job is in flight. */
  ghost predicate Free(s: Sys, kek: string) { Sound(s) && MayBegin(s.keys, kek) && s.fleet.jobs.Keys == {} }

  /** What lets a rotation through: no job starts before the queue is paused either, and nothing fails. */
  ghost predicate Smooth(s: Sys, kek: string, others: (nat, nat) -> seq<Event>, fault: (nat, nat) -> Fault) {
    Free(s, kek) && (forall n :: NoJobs(others(0, n))) && forall i, n :: fault(i, n) == NoFault
  }

  /** The rows of a batch can all be decrypted, and both keys are there. */
  predicate Movable(keys: Keys, t: Table, ks: set<RowKey>) {
    && keys.rotating.Some? && keys.active in keys.store.deks && keys.rotating.value in keys.store.deks
    && forall k :: k in ks ==> Plain(t, k, DekOf(keys, keys.active)).Some?
  }

  lemma {:induction false} SoundMeansMovable(s: Sys, ks: set<RowKey>)
    requires Sound(s) && s.keys.rotating.Some? && ks <= Reencrypt.At(s.data.rows, s.keys.active)
    ensures Movable(s.keys, s.data.rows, ks) && Sound(s.(data := s.data.(rows := MoveRows(s.keys, s.data.rows, ks))))
  {
    forall k | k in ks ensures Plain(s.data.rows, k, DekOf(s.keys, s.keys.active)).Some? {
      assert k in Reencrypt.At(s.data.rows, s.keys.active);
      assert RowOk(s.keys, s.data, k);
    }
    BatchKeeps(s.keys, s.data, ks);
  }

  lemma {:induction false} BatchShrinks(keys: Keys, t: Table, ks: set<RowKey>)
    requires Movable(keys, t, ks) && keys.rotating.value != keys.active && ks <= Reencrypt.At(t, keys.active)
    ensures Reencrypt.At(MoveRows(keys, t, ks), keys.active) == Reencrypt.At(t, keys.active) - ks
  {
    var t' := MoveRows(keys, t, ks);
    forall k ensures k in Reencrypt.At(t', keys.active) <==> k in Reencrypt.At(t, keys.active) && k !in ks {
      if k in t { assert t'[k] == if k in ks && RecoverableAt(t, k, keys.active) && Plain(t, k, DekOf(keys, keys.active)).Some?
          then Moved(t, k, DekOf(keys, keys.active), keys.rotating.value, DekOf(keys, keys.rotating.value)) else t[k]; }
    }
  }

  /** The version a rotation begun now ends on. */
  function Target(keys: Keys): nat { if keys.rotating.Some? then keys.rotating.value else keys.top + 1 }

  /** What the command learns from its own step. */
  ghost predicate Effect(s: Sys, s': Sys, c: Command) {
    match c
    case Begin(kek, dek) => s.pc == Idle ==>
        s'.fleet == s.fleet && s'.data == s.data
        && (BeginRotation(s.keys, kek, dek).Some? <==> s'.pc == Ready)
        && (BeginRotation(s.keys, kek, dek).Some? ==> s'.keys == BeginRotation(s.keys, kek, dek).value) &&
        if s'.pc == Ready
        then s'.keys.active == s.keys.active && s'.keys.rotating == Some(Target(s.keys)) && Target(s.keys) != s.keys.active
             && (Solid(s.keys, s.keys.active) ==> Solid(s'.keys, s.keys.active)) && s'.early == s.early
        else s'.pc == Idle
    case Pause => s.pc == Ready ==> s'.pc == Draining && s'.paused && s'.keys == s.keys && s'.early == s.early && s'.fleet == s.fleet && s'.data == s.data
    case Drain => s.pc == Draining ==>
        && s'.paused == s.paused && s'.keys == s.keys && s'.early == s.early
        && s'.pc == (if s.fleet.jobs.Keys == {} then Drained else Draining) && s'.fleet == s.fleet && s'.data == s.data
    case Batch(ks) => s.pc == Drained ==>
        && s'.pc == Drained && s'.paused == s.paused && s'.fleet == s.fleet && s'.keys == s.keys && s'.early == s.early
        && (Movable(s.keys, s.data.rows, ks) ==> s'.data == s.data.(rows := MoveRows(s.keys, s.data.rows, ks)))
    case Verify => s.pc == Drained ==>
        && (s'.pc == if Reencrypt.At(s.data.rows, s.keys.active) == {} then Verified else Drained)
        && s'.keys == s.keys && s'.early == s.early
    case Swap => s.pc == Verified && s.keys.rotating.Some? ==>
        && s'.pc == Swapped(s.keys.active) && s'.keys == SwapActive(s.keys) && s'.swapTime <= s'.now && s'.early == s.early
    case DestroyOld => s.pc.Swapped? && s.swapTime <= s.now ==>
        && s'.pc.Settling? && s'.swapTime <= s'.pc.since <= s'.now && s'.early == s.early
        && s'.keys == Doomed(s.keys, s.pc.old', s.now, s.config.window)
    case Finalize(v) => s.pc.Settling? && v in s.keys.retired ==>
        && s'.pc == s.pc && s'.swapTime == s.swapTime && s'.now == s.now && s'.early == s.early
        && s'.keys.active == s.keys.active && s'.keys.rotating == s.keys.rotating && v in s'.keys.retired + s'.keys.destroyed
        && (v !in s.keys.store.deks ==> v in s'.keys.destroyed) && (s.keys.active != v ==> KeepsSlot(s.keys, s'.keys, s.keys.active))
    case End => s.pc.Settling? && s.swapTime <= s.pc.since && s.now >= s.pc.since + s.config.settle ==>
        s'.pc == Idle && !s'.paused && s'.early == s.early && s'.keys == s.keys
    case Throw => s'.pc == Idle
    case Crash => s'.pc == Idle
    case _ => true
  }

  lemma {:induction false} EffectHolds(s: Sys, c: Command)
    ensures Effect(s, CommandStep(s, c), c) && CommandStep(s, c).config == s.config
  {}

  // ---------- a run that stops before its swap ----------

  /** The version the tables say a rotation is to end on is still the same, nothing is pending, and no cache can be
      stale. */
  ghost predicate Unswapped(s: Sys, m: Sys) {
    && m.keys.active == s.keys.active && m.keys.retired == {} && m.keys.store.keks == s.keys.store.keks && !m.pc.Swapped? && !m.pc.Settling?
    && ((m.keys.rotating == s.keys.rotating && m.keys.top == s.keys.top) || (s.keys.rotating.None? && m.keys.rotating == Some(s.keys.top + 1)))
    && m.early == s.early && m.swapTime == s.swapTime && m.now >= s.now && m.config == s.config
  }

  lemma {:induction false} UnswappedStep(s: Sys, m: Sys, e: Event)
    requires Unswapped(s, m) && e != Rotate(Swap) && s.now >= s.swapTime + s.config.ttl
    ensures Unswapped(s, Step(m, e))
  {
    match e
    case Rotate(c) => assert Unswapped(s, CommandStep(m, c));
    case Tick(ms) =>
    case Fetch(x) => assert LoadStep(m, x) == m.(fleet := LoadStep(m, x).fleet);
    case Work(j) => assert JobStep(m, j) == m.(fleet := JobStep(m, j).fleet, data := JobStep(m, j).data);
  }

  /** However a run goes, as long as it does not swap. */
  lemma {:induction false} RunsUnswapped(s: Sys, es: seq<Event>)
    requires s.keys.retired == {} && !s.pc.Swapped? && !s.pc.Settling? && s.now >= s.swapTime + s.config.ttl && Rotate(Swap) !in es
    ensures Unswapped(s, Run(s, es))
  {
    if es != [] {
      var n := |es| - 1;
      assert es[n] in es && forall e :: e in es[..n] ==> e in es;
      RunsUnswapped(s, es[..n]);
      UnswappedStep(s, Run(s, es[..n]), es[n]);
    }
  }

  /** The next invocation finds the tables ready. */
  lemma {:induction false} RetryIsFree(initial: Sys, before: seq<Event>, es: seq<Event>, kek: string)
    requires var s := Run(initial, before); s.pc == Idle && Inv(s) && s.config.settle >= s.config.ttl && s.now >= s.swapTime + s.config.ttl && MayBegin(s.keys, kek)
    ensures var s, m := Run(initial, before), Run(initial, before + es);
      && m == Run(s, es)
      && (Rotate(Swap) !in es ==> Sound(m) && MayBegin(m.keys, kek) && Unswapped(s, m))
  {
    RunConcat(initial, before, es);
    var s := Run(initial, before);
    if Rotate(Swap) !in es {
      RunsUnswapped(s, es);
      RunKeepsInv(s, es);
    }
  }

  class RotationCommand {
    var s: Sys
    ghost var trace: seq<Event>
    ghost const initial: Sys

    /** The state is what the events so far produce. */
    ghost predicate Valid()
      reads this
    {
      s == Run(initial, trace)
    }

    constructor (s: Sys)
      ensures Valid() && this.s == s && initial == s && trace == []
    {
      this.s, initial, trace := s, s, [];
    }

    /** The workers act, and time passes. */
    method Meanwhile(others: seq<Event>)
      requires Valid() && WorkersOnly(others)
      modifies this
      ensures Valid() && trace == old(trace) + others && Beside(old(s), s) && Quiet(old(s), s) && StaysSound(old(s), s)
      ensures NoJobs(others) ==> s.data == old(s).data && s.fleet.jobs == old(s).fleet.jobs
    {
      WorkersBeside(s, others);
      WorkersSound(s, others);
      if NoJobs(others) { NoJobsKeep(s, others); }
      WorkersQuiet(s, others);
      RunConcat(initial, trace, others);
      s, trace := Run(s, others), trace + others;
    }

    /** The command takes a step, unless it throws or the process dies there. */
    method Act(c: Command, fault: Fault) returns (ok: bool)
      requires Valid()
      modifies this
      ensures Valid() && ok == (fault == NoFault) && s.config == old(s).config && old(trace) <= trace
      ensures ok ==> Effect(old(s), s, c)
      ensures !ok ==> s.pc == Idle
    {
      var c' := if fault == Throws then Throw else if fault == Dies then Crash else c;
      EffectHolds(s, c');
      RunAppend(initial, trace, Rotate(c'));
      s, trace := CommandStep(s, c'), trace + [Rotate(c')];
      ok := fault == NoFault;
    }

    /** An error of the command's own: whatever was paused resumes. */
    method Abort()
      requires Valid()
      modifies this
      ensures Valid() && old(trace) <= trace && s.pc == Idle && s.config == old(s).config
    {
      RunAppend(initial, trace, Rotate(Throw));
      s, trace := CommandStep(s, Throw), trace + [Rotate(Throw)];
    }

    /** Start or resume. */
    method Open(kek: string, dek: Key, others: seq<Event>, fault: Fault) returns (done: bool)
      requires Valid() && s.pc == Idle && WorkersOnly(others)
      modifies this
      ensures Valid() && old(trace) <= trace && s.config == old(s).config && s.pc == if done then Ready else Idle
      ensures done ==> s.keys.active == old(s).keys.active && s.keys.rotating == Some(Target(old(s).keys)) && s.early == old(s).early
      ensures done ==> Target(old(s).keys) != old(s).keys.active
      ensures done && Solid(old(s).keys, old(s).keys.active) ==> Solid(s.keys, s.keys.active)
      ensures Free(old(s), kek) && NoJobs(others) && fault == NoFault ==> done && Sound(s) && s.fleet.jobs.Keys == {}
      ensures done && Sound(old(s)) ==> Begun(old(s).keys, s.keys, kek, dek)
    {
      if Sound(s) { BeginsIff(s.keys, kek, dek); }
      if Free(s, kek) { BeginKeeps(s.keys, s.data, kek, dek); }
      Meanwhile(others);
      done := Act(Begin(kek, dek), fault);
      done := done && s.pc == Ready;
    }

    /** Pause, and wait for the jobs in flight. */
    method Halt(others: seq<Event>, others': seq<Event>, fault: Fault, fault': Fault) returns (done: bool)
      requires Valid() && s.pc == Ready && WorkersOnly(others) && WorkersOnly(others')
      modifies this
      ensures Valid() && old(trace) <= trace && s.config == old(s).config
      ensures if done then s.pc == Drained && s.paused && s.fleet.jobs.Keys == {} && s.keys == old(s).keys && s.early == old(s).early else s.pc == Idle
      ensures old(s).fleet.jobs.Keys == {} && NoJobs(others) && NoJobs(others') && fault == fault' == NoFault ==> done && s.data == old(s).data
    {
      Meanwhile(others);
      done := Act(Pause, fault);
      if !done { return; }
      Meanwhile(others');
      done := Act(Drain, fault');
      if done && s.pc != Drained { Abort(); return false; }
    }

    /** Start or resume, pause, and wait for the jobs in flight. */
    method Prepare(kek: string, dek: Key, others: nat -> seq<Event>, fault: nat -> Fault) returns (done: bool)
      requires Valid() && s.pc == Idle && forall n :: WorkersOnly(others(n))
      modifies this
      ensures Valid() && old(trace) <= trace && s.config == old(s).config
      ensures if done then s.pc == Drained && s.paused && s.fleet.jobs.Keys == {} else s.pc == Idle
      ensures done ==> s.keys.active == old(s).keys.active && s.keys.rotating == Some(Target(old(s).keys)) && s.early == old(s).early
      ensures done ==> Target(old(s).keys) != old(s).keys.active
      ensures done && Solid(old(s).keys, old(s).keys.active) ==> Solid(s.keys, s.keys.active)
      ensures Free(old(s), kek) && (forall n :: NoJobs(others(n)) && fault(n) == NoFault) ==> done && Sound(s)
      ensures done && Sound(old(s)) ==> Begun(old(s).keys, s.keys, kek, dek)
    {
      done := Open(kek, dek, others(0), fault(0));
      if !done { return; }
      done := Halt(others(1), others(2), fault(1), fault(2));
    }

    /** Re-encrypt batch after batch, each one transaction, until one comes up short; a row that does not decrypt, or a
        missing key, is an error. */
    method Sweep(batch: nat, others: nat -> seq<Event>, fault: nat -> Fault) returns (done: bool)
      requires Valid() && s.pc == Drained && s.paused && s.fleet.jobs.Keys == {} && batch > 0
      requires s.keys.rotating.Some? && s.keys.rotating.value != s.keys.active && forall n :: WorkersOnly(others(n))
      modifies this
      ensures Valid() && old(trace) <= trace && s.config == old(s).config
      ensures if done then s.pc == Drained && s.paused && s.fleet.jobs.Keys == {} else s.pc == Idle
      ensures done ==> s.keys == old(s).keys && s.early == old(s).early && Reencrypt.At(s.data.rows, s.keys.active) == {}
      ensures Sound(old(s)) && (forall n :: fault(n) == NoFault) ==> done
    {
      var n, short := 0, false;
      while !short
        invariant Valid() && old(trace) <= trace && s.config == old(s).config && s.pc == Drained && s.paused && s.fleet.jobs.Keys == {}
        invariant (Sound(old(s)) && (forall n :: fault(n) == NoFault) ==> Sound(s))
        invariant s.keys == old(s).keys && s.early == old(s).early && (short ==> Reencrypt.At(s.data.rows, s.keys.active) == {})
        decreases |Reencrypt.At(s.data.rows, s.keys.active)|, if short then 0 else 1
      {
        done, short := SweepOne(batch, others(n), fault(n));
        if !done { return; }
        n := n + 1;
      }
      done := true;
    }

    method SweepOne(batch: nat, others: seq<Event>, fault: Fault) returns (done: bool, short: bool)
      requires Valid() && s.pc == Drained && s.paused && s.fleet.jobs.Keys == {} && batch > 0
      requires s.keys.rotating.Some? && s.keys.rotating.value != s.keys.active && WorkersOnly(others)
      modifies this
      ensures Valid() && old(trace) <= trace && s.config == old(s).config
      ensures if done then s.pc == Drained && s.paused && s.fleet.jobs.Keys == {} else s.pc == Idle
      ensures done ==> s.keys == old(s).keys && s.early == old(s).early
      ensures Sound(old(s)) && fault == NoFault ==> done && Sound(s)
      ensures done && short ==> Reencrypt.At(s.data.rows, s.keys.active) == {}
      ensures done && !short ==> |Reencrypt.At(s.data.rows, s.keys.active)| < |Reencrypt.At(old(s).data.rows, s.keys.active)|
    {
      ghost var before := Reencrypt.At(s.data.rows, s.keys.active);
      Meanwhile(others);
      var all := Reencrypt.At(s.data.rows, s.keys.active);
      Smaller(all, before);
      var ks := Pick(all, batch);
      short := |ks| < batch;
      TakenAway(all, ks);
      done := MoveBatch(ks, fault);
    }

    /** The rows of one batch, in one transaction. */
    method MoveBatch(ks: set<RowKey>, fault: Fault) returns (done: bool)
      requires Valid() && s.pc == Drained && s.paused && s.fleet.jobs.Keys == {} && ks <= Reencrypt.At(s.data.rows, s.keys.active)
      requires s.keys.rotating.Some? && s.keys.rotating.value != s.keys.active
      modifies this
      ensures Valid() && old(trace) <= trace && s.config == old(s).config
      ensures if done then s.pc == Drained && s.paused && s.fleet.jobs.Keys == {} else s.pc == Idle
      ensures Sound(old(s)) && fault == NoFault ==> done && Sound(s)
      ensures done ==> s.keys == old(s).keys && s.early == old(s).early
      ensures done ==> Reencrypt.At(s.data.rows, s.keys.active) == Reencrypt.At(old(s).data.rows, s.keys.active) - ks
    {
      if Sound(s) { SoundMeansMovable(s, ks); }
      if !Movable(s.keys, s.data.rows, ks) { Abort(); return false; }
      BatchShrinks(s.keys, s.data.rows, ks);
      done := Act(Batch(ks), fault);
    }

    /** Swap, request destruction, finalize at once when there is no recovery window, settle, resume. */
    method Commit(others: nat -> seq<Event>, fault: nat -> Fault) returns (done: bool)
      requires Valid() && s.pc == Verified && s.keys.rotating.Some? && forall n :: WorkersOnly(others(n))
      modifies this
      ensures Valid() && old(trace) <= trace && s.pc == Idle
      ensures done ==> s.keys.active == old(s).keys.rotating.value && s.keys.rotating.None? && !s.paused && s.early == old(s).early
      ensures done ==> old(s).keys.active in s.keys.retired + s.keys.destroyed
      ensures done && s.config.window == 0 && Solid(old(s).keys, old(s).keys.active) ==> old(s).keys.active in s.keys.destroyed
      ensures (forall n :: fault(n) == NoFault) ==> done
      ensures done && old(s).keys.rotating.value != old(s).keys.active ==> KeepsSlot(old(s).keys, s.keys, s.keys.active)
    {
      var old' := s.keys.active;
      done := SwapAndRequest(others(0), others(1), fault(0), fault(1));
      if !done { return; }
      done := FinalizeInline(old', others(2), fault(2));
      if !done { return; }
      done := SettleAndResume(others(3), fault(3));
    }

    /** Without a recovery window the version just retired is finalized at once. */
    method FinalizeInline(old': nat, others: seq<Event>, fault: Fault) returns (done: bool)
      requires Valid() && s.pc.Settling? && s.swapTime <= s.pc.since <= s.now && old' in s.keys.retired && WorkersOnly(others)
      modifies this
      ensures Valid() && old(trace) <= trace && s.config == old(s).config && (!done ==> s.pc == Idle) && (fault == NoFault ==> done)
      ensures done ==> s.pc.Settling? && s.swapTime <= s.pc.since <= s.now && s.early == old(s).early
      ensures done ==> s.keys.active == old(s).keys.active && s.keys.rotating == old(s).keys.rotating && old' in s.keys.retired + s.keys.destroyed
      ensures done && s.config.window == 0 && old' !in old(s).keys.store.deks ==> old' in s.keys.destroyed
      ensures done && old' != s.keys.active ==> KeepsSlot(old(s).keys, s.keys, s.keys.active)
    {
      done := true;
      if s.config.window == 0 {
        Meanwhile(others);
        done := Act(Finalize(old'), fault);
      }
    }

    method SwapAndRequest(others: seq<Event>, others': seq<Event>, fault: Fault, fault': Fault) returns (done: bool)
      requires Valid() && s.pc == Verified && s.keys.rotating.Some? && WorkersOnly(others) && WorkersOnly(others')
      modifies this
      ensures Valid() && old(trace) <= trace && s.config == old(s).config && (!done ==> s.pc == Idle)
      ensures fault == NoFault && fault' == NoFault ==> done
      ensures done && old(s).keys.rotating.value != old(s).keys.active ==> KeepsSlot(old(s).keys, s.keys, s.keys.active)
      ensures done ==> s.pc.Settling? && s.swapTime <= s.pc.since <= s.now && s.early == old(s).early
      ensures done ==> s.keys.active == old(s).keys.rotating.value && s.keys.rotating.None? && old(s).keys.active in s.keys.retired
      ensures done && s.config.window == 0 && Solid(old(s).keys, old(s).keys.active) ==> old(s).keys.active !in s.keys.store.deks
    {
      Meanwhile(others);
      done := Act(Swap, fault);
      if !done { return; }
      Meanwhile(others');
      if s.keys.active != s.pc.old' { DoomedKeepsSlot(s.keys, s.pc.old', s.now, s.config.window, s.keys.active); }
      done := Act(DestroyOld, fault');
    }

    method SettleAndResume(others: seq<Event>, fault: Fault) returns (done: bool)
      requires Valid() && s.pc.Settling? && s.swapTime <= s.pc.since <= s.now && WorkersOnly(others)
      modifies this
      ensures Valid() && old(trace) <= trace && s.pc == Idle && s.config == old(s).config
      ensures done ==> !s.paused && s.early == old(s).early && s.keys == old(s).keys
      ensures fault == NoFault ==> done
    {
      RunAppend(initial, trace, Tick(s.config.settle));
      s, trace := Step(s, Tick(s.config.settle)), trace + [Tick(s.config.settle)];
      Meanwhile(others);
      done := Act(End, fault);
    }

    /** One invocation. What it does is a run of the event system; it reports success only when the new version is
        active, the queue runs again after the settle-wait, and the version it began on is retired or, with no
        recovery window, destroyed; and it does succeed when nothing stands in its way. */
    method RunRotation(kek: string, dek: Key, batch: nat, others: (nat, nat) -> seq<Event>, fault: (nat, nat) -> Fault) returns (done: bool)
      requires Valid() && s.pc == Idle && batch > 0 && forall i, n :: WorkersOnly(others(i, n))
      modifies this
      ensures Valid() && old(trace) <= trace && s.pc == Idle
      ensures done ==> s.keys.active == (if old(s).keys.rotating.Some? then old(s).keys.rotating.value else old(s).keys.top + 1)
      ensures done ==> s.keys.rotating.None? && !s.paused && s.early == old(s).early
      ensures done && Sound(old(s)) && old(s).keys.rotating.Some? ==> KeepsSlot(old(s).keys, s.keys, s.keys.active)
      ensures done && Sound(old(s)) && old(s).keys.rotating.None? ==> Holds(s.keys, s.keys.active, kek, dek)
      ensures done ==> old(s).keys.active in s.keys.retired + s.keys.destroyed
      ensures done && s.config.window == 0 && Solid(old(s).keys, old(s).keys.active) ==> old(s).keys.active in s.keys.destroyed
      ensures Smooth(old(s), kek, others, fault) ==> done
    {
      done := Prepare(kek, dek, (n: nat) => others(0, n), (n: nat) => fault(0, n));
      if !done { return; }
      done := Sweep(batch, (n: nat) => others(1, n), (n: nat) => fault(1, n));
      if !done { return; }
      Meanwhile(others(2, 0));
      done := Act(Verify, fault(2, 0));
      if !done { return; }
      // The verification's error branch cannot be taken: the sweep ended empty, and nothing was written since.
      assert s.pc == Verified;
      done := Commit((n: nat) => others(3, n), (n: nat) => fault(3, n));
    }

    /** An invocation that throws or dies anywhere before its swap, whatever the workers do meanwhile and afterwards, and
        then another without a fault: with no job in flight when it starts and none before its pause, the second one
        finishes, and on the version the first was after. */
    method RunAndRetry(kek: string, dek: Key, dek': Key, batch: nat, others: (nat, nat) -> seq<Event>, fault: (nat, nat) -> Fault,
                       between: seq<Event>, others': (nat, nat) -> seq<Event>) returns (done: bool, ghost first: seq<Event>)
      requires Valid() && s.pc == Idle && Inv(s) && s.config.settle >= s.config.ttl && s.now >= s.swapTime + s.config.ttl
      requires batch > 0 && MayBegin(s.keys, kek) && WorkersOnly(between) && forall i, n :: WorkersOnly(others(i, n)) && WorkersOnly(others'(i, n))
      modifies this
      ensures Valid() && old(trace) + first <= trace
      ensures Rotate(Swap) !in first && Run(old(s), first).fleet.jobs.Keys == {} && (forall n :: NoJobs(others'(0, n))) ==>
        done && s.keys.active == (if old(s).keys.rotating.Some? then old(s).keys.rotating.value else old(s).keys.top + 1)
    {
      var _ := RunRotation(kek, dek, batch, others, fault);
      Meanwhile(between);
      first := trace[|old(trace)|..];
      assert trace == old(trace) + first;
      RetryIsFree(initial, old(trace), first, kek);
      var noFault: (nat, nat) -> Fault := (i: nat, n: nat) => NoFault;
      ghost var free := Rotate(Swap) !in first && s.fleet.jobs.Keys == {} && forall n :: NoJobs(others'(0, n));
      assert free ==> Smooth(s, kek, others', noFault);
      done := RunRotation(kek, dek', batch, others', noFault);
    }
  }

  lemma {:induction false} TakenAway(a: set<RowKey>, b: set<RowKey>)
    requires b <= a
    ensures |a - b| == |a| - |b|
  {
    assert a == (a - b) + b;
  }

  lemma {:induction false} Smaller(a: set<RowKey>, b: set<RowKey>)
    requires a <= b
    ensures |a| <= |b|
  {
    assert b == a + (b - a);
  }
}
