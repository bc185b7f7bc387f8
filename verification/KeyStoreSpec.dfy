/** The key store both implementations refine: two-state, recovery-windowed destruction of KEKs and wrapped DEKs. */
module KeyStoreSpec {
  import opened Wrappers

  /** Key material, by identity. */
  type Key = nat

  /** An authenticated wrapping: it opens only under the same key and the same version. */
  datatype Wrapped = Wrapped(dek: Key, kek: Key, version: nat)

  function Unwrap(w: Wrapped, kek: Key, version: nat): Option<Key> {
    if w.kek == kek && w.version == version then Some(w.dek) else None
  }

  datatype DekEntry = DekEntry(wrapped: Wrapped, kekVersion: string)

  /** Material in the store; `until` is set once destruction is requested. */
  datatype Slot<T> = Slot(item: T, until: Option<int>)

  predicate Live<T>(s: Slot<T>, now: int) { s.until.Some? ==> now < s.until.value }

  function LiveAt<K, T>(m: map<K, Slot<T>>, now: int): map<K, Slot<T>> {
    map k | k in m && Live(m[k], now) :: m[k]
  }

  /** What can still be read out of the store. */
  datatype View = View(keks: map<string, Slot<Key>>, deks: map<nat, Slot<DekEntry>>)

  function ViewAt(v: View, now: int): View { View(LiveAt(v.keks, now), LiveAt(v.deks, now)) }

  /** A DEK can be recovered while it and its KEK can be read. */
  predicate Recoverable(v: View, version: nat) {
    version in v.deks && v.deks[version].item.kekVersion in v.keks
  }

  /** Requesting destruction: active material gets a deadline, or goes at once when there is no window; a deadline
      already set stays. */
  function AfterDestroy<K, T>(m: map<K, Slot<T>>, k: K, now: int, window: nat): map<K, Slot<T>> {
    if k !in m || m[k].until.Some? then m
    else if window == 0 then m - {k}
    else m[k := Slot(m[k].item, Some(now + window))]
  }

  /** Asking again at any later time changes no deadline: the material is gone no later than one window after the
      first request. */
  lemma {:induction false} DestroyAgain<K, T>(m: map<K, Slot<T>>, k: K, now: int, later: int, window: nat)
    requires now <= later && LiveAt(m, now) == m
    ensures var first := AfterDestroy(m, k, now, window);
            AfterDestroy(LiveAt(first, later), k, later, window) == LiveAt(first, later)
    ensures k in m && later >= now + window && m[k].until.None? ==> k !in LiveAt(AfterDestroy(m, k, now, window), later)
    ensures forall j :: j in m && j != k ==> j in AfterDestroy(m, k, now, window) && AfterDestroy(m, k, now, window)[j] == m[j]
  {}

  /** Time only removes material, so looking now and later is looking later. */
  lemma {:induction false} LiveLater<K, T>(m: map<K, Slot<T>>, now: int, later: int)
    requires now <= later
    ensures LiveAt(LiveAt(m, now), later) == LiveAt(m, later)
    ensures LiveAt(m, later).Keys <= LiveAt(m, now).Keys
  {}

  // ---------- documents with an active and a pending part ----------

  datatype Doc<K(==), T> = Doc(active: map<K, T>, pending: map<K, Slot<T>>)

  ghost predicate DocOk<K, T>(d: Doc<K, T>) {
    d.active.Keys !! d.pending.Keys && forall k :: k in d.pending ==> d.pending[k].until.Some?
  }

  ghost function Slots<K, T>(d: Doc<K, T>): map<K, Slot<T>> {
    map k | k in d.active.Keys + d.pending.Keys :: if k in d.active then Slot(d.active[k], None) else d.pending[k]
  }

  ghost function DocView<K, T>(d: Doc<K, T>, now: int): map<K, Slot<T>> { LiveAt(Slots(d), now) }

  /** The readable entry: active, or pending and still inside its window. */
  function Lookup<K, T>(d: Doc<K, T>, k: K, now: int): Option<Slot<T>> {
    if k in d.active then Some(Slot(d.active[k], None))
    else if k in d.pending && Live(d.pending[k], now) then Some(d.pending[k])
    else None
  }

  /** The lazy purge of an elapsed pending entry. */
  function Purge<K, T>(d: Doc<K, T>, k: K, now: int): Doc<K, T> {
    if k !in d.active && k in d.pending && !Live(d.pending[k], now) then d.(pending := d.pending - {k}) else d
  }

  /** Move active material to pending, then purge what has elapsed. */
  function Request<K, T>(d: Doc<K, T>, k: K, now: int, window: nat): Doc<K, T> {
    var moved := if k in d.active
                 then Doc(d.active - {k}, d.pending[k := Slot(d.active[k], Some(now + window))])
                 else d;
    if k in moved.pending && !Live(moved.pending[k], now) then moved.(pending := moved.pending - {k}) else moved
  }

  function Insert<K, T>(d: Doc<K, T>, k: K, item: T): Doc<K, T> { d.(active := d.active[k := item]) }

  lemma {:induction false} LookupIsView<K, T>(d: Doc<K, T>, k: K, now: int)
    ensures Lookup(d, k, now).Some? <==> k in DocView(d, now)
    ensures k in DocView(d, now) ==> Lookup(d, k, now).value == DocView(d, now)[k]
  {}

  /** The purge is invisible. */
  lemma {:induction false} PurgeIsView<K, T>(d: Doc<K, T>, k: K, now: int)
    requires DocOk(d)
    ensures DocOk(Purge(d, k, now)) && DocView(Purge(d, k, now), now) == DocView(d, now)
  {
    assert forall j :: j in Slots(Purge(d, k, now)) ==> j in Slots(d) && Slots(d)[j] == Slots(Purge(d, k, now))[j];
    assert DocView(Purge(d, k, now), now).Keys == DocView(d, now).Keys;
  }

  lemma {:induction false} RequestIsDestroyed<K, T>(d: Doc<K, T>, k: K, now: int, window: nat)
    requires DocOk(d)
    ensures DocView(Request(d, k, now, window), now) == AfterDestroy(DocView(d, now), k, now, window)
  {
    var v, v' := DocView(d, now), DocView(Request(d, k, now, window), now);
    var want := AfterDestroy(v, k, now, window);
    forall j: K ensures (j in v' <==> j in want) && (j in want ==> v'[j] == want[j]) {
      RequestLookup(d, k, now, window, j);
    }
    assert v' == want;
  }

  /** Requesting destruction keeps the material genuine. */
  lemma {:induction false} KekRequested(keks: Doc<string, Key>, deks: Doc<nat, DekEntry>, minted: Minted, k: string, now: int, window: nat)
    requires Genuine(keks, deks, minted)
    ensures Genuine(Request(keks, k, now, window), deks, minted) && Genuine(Purge(keks, k, now), deks, minted)
    ensures DocView(Request(keks, k, now, window), now) == AfterDestroy(DocView(keks, now), k, now, window)
    ensures DocView(Purge(keks, k, now), now) == DocView(keks, now)
  {
    RequestOk(keks, k, now, window);
    RequestIsDestroyed(keks, k, now, window);
    PurgeIsView(keks, k, now);
  }

  lemma {:induction false} DekRequested(keks: Doc<string, Key>, deks: Doc<nat, DekEntry>, minted: Minted, v: nat, now: int, window: nat)
    requires Genuine(keks, deks, minted)
    ensures Genuine(keks, Request(deks, v, now, window), minted) && Genuine(keks, Purge(deks, v, now), minted)
    ensures DocView(Request(deks, v, now, window), now) == AfterDestroy(DocView(deks, now), v, now, window)
    ensures DocView(Purge(deks, v, now), now) == DocView(deks, now)
  {
    RequestOk(deks, v, now, window);
    RequestIsDestroyed(deks, v, now, window);
    PurgeIsView(deks, v, now);
  }

  lemma {:induction false} RequestOk<K, T>(d: Doc<K, T>, k: K, now: int, window: nat)
    requires DocOk(d)
    ensures DocOk(Request(d, k, now, window))
  {}

  lemma {:induction false} RequestLookup<K, T>(d: Doc<K, T>, k: K, now: int, window: nat, j: K)
    requires DocOk(d)
    ensures var want := AfterDestroy(DocView(d, now), k, now, window); var v' := DocView(Request(d, k, now, window), now);
            (j in v' <==> j in want) && (j in want ==> v'[j] == want[j])
  {
    LookupIsView(d, j, now);
    LookupIsView(d, k, now);
    LookupIsView(Request(d, k, now, window), j, now);
    if j == k {
      assert k in d.active ==> k !in d.pending;
    } else {
      assert Lookup(Request(d, k, now, window), j, now) == Lookup(d, j, now);
    }
  }

  lemma {:induction false} InsertIsView<K, T>(d: Doc<K, T>, k: K, item: T, now: int)
    requires DocOk(d) && k !in d.pending
    ensures DocOk(Insert(d, k, item)) && DocView(Insert(d, k, item), now) == DocView(d, now)[k := Slot(item, None)]
  {
    assert DocView(Insert(d, k, item), now).Keys == DocView(d, now)[k := Slot(item, None)].Keys;
  }

  // ---------- genuine material and honest caches ----------

  /** Which key each version was created with. */
  datatype Minted = Minted(keks: map<string, Key>, deks: map<nat, Key>)

  ghost predicate GenuineKeks(d: Doc<string, Key>, minted: Minted) {
    && (forall k :: k in d.active ==> k in minted.keks && d.active[k] == minted.keks[k])
    && (forall k :: k in d.pending ==> k in minted.keks && d.pending[k].item == minted.keks[k])
  }

  ghost predicate GenuineDek(e: DekEntry, v: nat, minted: Minted) {
    v in minted.deks && e.kekVersion in minted.keks && e.wrapped == Wrapped(minted.deks[v], minted.keks[e.kekVersion], v)
  }

  ghost predicate GenuineDeks(d: Doc<nat, DekEntry>, minted: Minted) {
    && (forall v :: v in d.active ==> GenuineDek(d.active[v], v, minted))
    && (forall v :: v in d.pending ==> GenuineDek(d.pending[v].item, v, minted))
  }

  datatype Cached = Cached(dek: Key, expires: int)

  /** What the store could be read at, operation by operation. */
  datatype Moment = Moment(time: int, view: View)

  /** The version could be recovered at a moment no earlier than `ttl` before now. */
  ghost predicate RecentlyRecoverable(history: seq<Moment>, v: nat, now: int, ttl: nat) {
    exists i :: 0 <= i < |history| && history[i].time <= now && (history[i].time == now || now < history[i].time + ttl)
      && Recoverable(history[i].view, v)
  }

  ghost predicate EntryOk(c: Cached, v: nat, minted: Minted, history: seq<Moment>, ttl: nat) {
    && v in minted.deks && c.dek == minted.deks[v]
    && exists i :: 0 <= i < |history| && history[i].time + ttl == c.expires && Recoverable(history[i].view, v)
  }

  /** Every cached key is the minted one, and expires one lifetime after a moment when it could be recovered. */
  ghost predicate CacheOk(cache: map<nat, Cached>, minted: Minted, history: seq<Moment>, ttl: nat) {
    forall v :: v in cache ==> EntryOk(cache[v], v, minted, history, ttl)
  }

  /** An honest cache beside a history that ends no later than the clock. */
  ghost predicate Honest(cache: map<nat, Cached>, minted: Minted, history: seq<Moment>, ttl: nat, clock: int) {
    CacheOk(cache, minted, history, ttl) && forall i :: 0 <= i < |history| ==> history[i].time <= clock
  }

  lemma {:induction false} CacheDropped(cache: map<nat, Cached>, minted: Minted, history: seq<Moment>, ttl: nat, clock: int, v: nat, now: int)
    requires Honest(cache, minted, history, ttl, clock) && clock <= now
    ensures Honest(cache, minted, history, ttl, now) && Honest(map[], minted, history, ttl, now) && Honest(cache - {v}, minted, history, ttl, now)
  {}

  lemma {:induction false} CacheHit(cache: map<nat, Cached>, minted: Minted, history: seq<Moment>, ttl: nat, clock: int, v: nat, now: int)
    requires Honest(cache, minted, history, ttl, clock) && clock <= now && v in cache && now < cache[v].expires
    ensures v in minted.deks && cache[v].dek == minted.deks[v]
    ensures RecentlyRecoverable(history, v, now, ttl)
  {
    assert EntryOk(cache[v], v, minted, history, ttl);
  }

  lemma {:induction false} EntryKept(c: Cached, v: nat, minted: Minted, history: seq<Moment>, ttl: nat, minted': Minted, m: Moment)
    requires EntryOk(c, v, minted, history, ttl) && v in minted'.deks && minted'.deks[v] == minted.deks[v]
    ensures EntryOk(c, v, minted', history + [m], ttl)
  {
    var i :| 0 <= i < |history| && history[i].time + ttl == c.expires && Recoverable(history[i].view, v);
    assert (history + [m])[i] == history[i];
  }

  /** Minting further versions and letting time pass leaves a cache honest. */
  lemma {:induction false} CacheKept(cache: map<nat, Cached>, minted: Minted, history: seq<Moment>, ttl: nat, clock: int, minted': Minted, m: Moment)
    requires Honest(cache, minted, history, ttl, clock) && clock <= m.time
    requires forall v :: v in minted.deks ==> v in minted'.deks && minted'.deks[v] == minted.deks[v]
    ensures Honest(cache, minted', history + [m], ttl, m.time)
  {
    forall v | v in cache ensures EntryOk(cache[v], v, minted', history + [m], ttl) {
      EntryKept(cache[v], v, minted, history, ttl, minted', m);
    }
  }

  // ---------- several processes on the same documents, each with its own cache ----------

  type Caches = map<nat, map<nat, Cached>>

  ghost predicate AllHonest(caches: Caches, minted: Minted, history: seq<Moment>, ttl: nat, clock: int) {
    forall i :: i in caches ==> Honest(caches[i], minted, history, ttl, clock)
  }

  /** The caches of the processes that were not running stay honest. */
  lemma {:induction false} AllKept(caches: Caches, minted: Minted, history: seq<Moment>, ttl: nat, clock: int, minted': Minted, m: Moment)
    requires AllHonest(caches, minted, history, ttl, clock) && clock <= m.time && SameKeys(minted, minted')
    ensures AllHonest(caches, minted', history + [m], ttl, m.time)
  {
    forall i | i in caches ensures Honest(caches[i], minted', history + [m], ttl, m.time) {
      CacheKept(caches[i], minted, history, ttl, clock, minted', m);
    }
  }

  lemma {:induction false} CacheFilled(cache: map<nat, Cached>, minted: Minted, history: seq<Moment>, ttl: nat, clock: int, v: nat, m: Moment)
    requires Honest(cache, minted, history, ttl, clock) && clock <= m.time && v in minted.deks && Recoverable(m.view, v)
    ensures Honest(cache[v := Cached(minted.deks[v], m.time + ttl)], minted, history + [m], ttl, m.time)
    ensures RecentlyRecoverable(history + [m], v, m.time, ttl)
  {
    CacheKept(cache, minted, history, ttl, clock, minted, m);
    assert (history + [m])[|history|] == m;
  }

  // ---------- creating material under fresh names ----------

  function MintKek(minted: Minted, k: string, bytes: Key): Minted { minted.(keks := minted.keks[k := bytes]) }
  function MintDek(minted: Minted, v: nat, dek: Key): Minted { minted.(deks := minted.deks[v := dek]) }

  ghost predicate Genuine(keks: Doc<string, Key>, deks: Doc<nat, DekEntry>, minted: Minted) {
    DocOk(keks) && DocOk(deks) && GenuineKeks(keks, minted) && GenuineDeks(deks, minted)
  }

  lemma {:induction false} NewKek(keks: Doc<string, Key>, deks: Doc<nat, DekEntry>, minted: Minted, k: string, bytes: Key, now: int)
    requires Genuine(keks, deks, minted) && k !in minted.keks
    ensures Genuine(Insert(keks, k, bytes), deks, MintKek(minted, k, bytes))
    ensures DocView(Insert(keks, k, bytes), now) == DocView(keks, now)[k := Slot(bytes, None)]
  {
    InsertIsView(keks, k, bytes, now);
  }

  lemma {:induction false} NewDek(keks: Doc<string, Key>, deks: Doc<nat, DekEntry>, minted: Minted, v: nat, e: DekEntry, now: int)
    requires Genuine(keks, deks, minted) && v !in minted.deks && e.kekVersion in minted.keks
    requires e.wrapped == Wrapped(e.wrapped.dek, minted.keks[e.kekVersion], v)
    ensures Genuine(keks, Insert(deks, v, e), MintDek(minted, v, e.wrapped.dek))
    ensures DocView(Insert(deks, v, e), now) == DocView(deks, now)[v := Slot(e, None)]
  {
    InsertIsView(deks, v, e, now);
  }

  lemma {:induction false} RecentGrows(history: seq<Moment>, v: nat, now: int, ttl: nat, m: Moment)
    requires RecentlyRecoverable(history, v, now, ttl)
    ensures RecentlyRecoverable(history + [m], v, now, ttl)
  {
    var i :| 0 <= i < |history| && history[i].time <= now && (history[i].time == now || now < history[i].time + ttl)
      && Recoverable(history[i].view, v);
    assert (history + [m])[i] == history[i];
  }

  // ---------- the abstract store, operation by operation ----------

  datatype Op =
    | CreateKekOp(k: string, bytes: Key) | GetKekOp(k: string) | DestroyKekOp(k: string) | QueryKekOp(k: string)
    | CreateDekOp(v: nat, k: string, dek: Key) | UnwrapDekOp(v: nat) | DestroyDekOp(v: nat) | QueryDekOp(v: nat)

  /** An operation, when it is called and by which of the processes that share the documents. */
  datatype Timed = Timed(time: int, instance: nat, op: Op)

  function AfterCreateDek(view: View, v: nat, k: string, dek: Key): View {
    if v >= 1 && k in view.keks
    then view.(deks := view.deks[v := Slot(DekEntry(Wrapped(dek, view.keks[k].item, v), k), None)]) else view
  }

  /** What an operation makes of what is readable; a store that cannot write refuses to create and destroy. */
  function Apply(view: View, op: Op, now: int, window: nat, writable: bool): View {
    if !writable then view
    else (match op
          case CreateKekOp(k, bytes) => view.(keks := view.keks[k := Slot(bytes, None)])
          case DestroyKekOp(k) => view.(keks := AfterDestroy(view.keks, k, now, window))
          case CreateDekOp(v, k, dek) => AfterCreateDek(view, v, k, dek)
          case DestroyDekOp(v) => view.(deks := AfterDestroy(view.deks, v, now, window))
          case _ => view)
  }

  /** What is readable and what is on record. */
  datatype Record = Record(view: View, history: seq<Moment>, minted: Minted)

  /** One operation does to what is readable what the abstract store does, and a key it serves was recoverable no
      longer than the cache lifetime before. */
  ghost predicate Performed(from: Record, to: Record, op: Op, now: int, window: nat, writable: bool, key: Option<Key>, ttl: nat) {
    && to.view == Apply(from.view, op, now, window, writable) && to.history == from.history + [Moment(now, to.view)]
    && to.minted.keks.Keys <= from.minted.keks.Keys + (if op.CreateKekOp? then {op.k} else {})
    && to.minted.deks.Keys <= from.minted.deks.Keys + (if op.CreateDekOp? then {op.v} else {}) && SameKeys(from.minted, to.minted)
    && (op.UnwrapDekOp? && key.Some? ==> Served(key.value, op.v, now, to.history, to.minted, ttl))
  }

  predicate OnKeks(op: Op) { op.CreateKekOp? || op.GetKekOp? || op.DestroyKekOp? || op.QueryKekOp? }

  /** The readable view after a script of operations. */
  function Played(view: View, ops: seq<Timed>, window: nat, writable: bool): View {
    if ops == [] then view
    else
      var n := |ops| - 1;
      Apply(ViewAt(Played(view, ops[..n], window, writable), ops[n].time), ops[n].op, ops[n].time, window, writable)
  }

  /** The moments of a script: after each operation, its time and what is readable then. */
  function Moments(view: View, ops: seq<Timed>, window: nat, writable: bool): (ms: seq<Moment>)
    ensures |ms| == |ops|
  {
    if ops == [] then []
    else
      var n := |ops| - 1;
      Moments(view, ops[..n], window, writable) + [Moment(ops[n].time, Played(view, ops, window, writable))]
  }

  /** Time does not run backwards. */
  ghost predicate InTime(ops: seq<Timed>, clock: int) {
    && (forall i :: 0 <= i < |ops| ==> clock <= ops[i].time)
    && (forall i, j :: 0 <= i < j < |ops| ==> ops[i].time <= ops[j].time)
  }

  function MadeKeks(ops: seq<Timed>): set<string> { set x | x in ops && x.op.CreateKekOp? :: x.op.k }
  function MadeDeks(ops: seq<Timed>): set<nat> { set x | x in ops && x.op.CreateDekOp? :: x.op.v }

  /** No name is created twice, nor one that was minted before. */
  ghost predicate FreshNames(ops: seq<Timed>, minted: Minted) {
    forall n :: 0 <= n < |ops| ==>
      && (ops[n].op.CreateKekOp? ==> ops[n].op.k !in minted.keks && ops[n].op.k !in MadeKeks(ops[..n]))
      && (ops[n].op.CreateDekOp? ==> ops[n].op.v !in minted.deks && ops[n].op.v !in MadeDeks(ops[..n]))
  }

  /** Looking at documents later is looking at their view later. */
  lemma {:induction false} DocViewLater<K, T>(d: Doc<K, T>, now: int, later: int)
    requires now <= later
    ensures DocView(d, later) == LiveAt(DocView(d, now), later)
  {
    LiveLater(Slots(d), now, later);
  }

  /** What minting may have added while the first n operations ran. */
  ghost predicate MintedWithin(before: Minted, now: Minted, ops: seq<Timed>, n: nat) {
    n <= |ops| && now.keks.Keys <= before.keks.Keys + MadeKeks(ops[..n]) && now.deks.Keys <= before.deks.Keys + MadeDeks(ops[..n])
  }

  lemma {:induction false} MadeStep(ops: seq<Timed>, n: nat)
    requires n < |ops|
    ensures MadeKeks(ops[..n + 1]) == MadeKeks(ops[..n]) + (if ops[n].op.CreateKekOp? then {ops[n].op.k} else {})
    ensures MadeDeks(ops[..n + 1]) == MadeDeks(ops[..n]) + (if ops[n].op.CreateDekOp? then {ops[n].op.v} else {})
  {
    assert ops[..n + 1] == ops[..n] + [ops[n]];
  }

  ghost predicate SameKeys(before: Minted, now: Minted) {
    forall u :: u in before.deks ==> u in now.deks && now.deks[u] == before.deks[u]
  }

  /** Every key served so far is the one minted for its version, which could be recovered no longer than the cache
      lifetime before it was served. */
  ghost predicate ServedRecently(keys: seq<Option<Key>>, ops: seq<Timed>, history: seq<Moment>, base: nat, minted: Minted, ttl: nat) {
    |keys| <= |ops| && base + |keys| <= |history| && forall i {:trigger keys[i]} :: 0 <= i < |keys| && ops[i].op.UnwrapDekOp? && keys[i].Some? ==>
      Served(keys[i].value, ops[i].op.v, ops[i].time, history[..base + i + 1], minted, ttl)
  }

  ghost predicate Served(key: Key, v: nat, now: int, history: seq<Moment>, minted: Minted, ttl: nat) {
    v in minted.deks && key == minted.deks[v] && RecentlyRecoverable(history, v, now, ttl)
  }

  lemma {:induction false} ServedMore(keys: seq<Option<Key>>, ops: seq<Timed>, history: seq<Moment>, base: nat, minted: Minted, ttl: nat,
                                      key: Option<Key>, m: Moment, minted': Minted)
    requires ServedRecently(keys, ops, history, base, minted, ttl) && |keys| < |ops| && |history| == base + |keys| && SameKeys(minted, minted')
    requires ops[|keys|].op.UnwrapDekOp? && key.Some? ==> Served(key.value, ops[|keys|].op.v, ops[|keys|].time, history + [m], minted', ttl)
    ensures ServedRecently(keys + [key], ops, history + [m], base, minted', ttl)
  {
    var keys', history' := keys + [key], history + [m];
    forall i | 0 <= i < |keys'| && ops[i].op.UnwrapDekOp? && keys'[i].Some?
      ensures Served(keys'[i].value, ops[i].op.v, ops[i].time, history'[..base + i + 1], minted', ttl)
    {
      if i < |keys| {
        assert keys[i] == keys'[i];
        assert history'[..base + i + 1] == history[..base + i + 1];
      } else {
        assert history'[..base + i + 1] == history';
      }
    }
  }

  lemma {:induction false} MomentsStep(view: View, ops: seq<Timed>, n: nat, window: nat, writable: bool)
    requires n < |ops|
    ensures Played(view, ops[..n + 1], window, writable)
         == Apply(ViewAt(Played(view, ops[..n], window, writable), ops[n].time), ops[n].op, ops[n].time, window, writable)
    ensures Moments(view, ops[..n + 1], window, writable)
         == Moments(view, ops[..n], window, writable) + [Moment(ops[n].time, Played(view, ops[..n + 1], window, writable))]
  {
    assert ops[..n + 1][..n] == ops[..n];
  }

  /** Where a script stands after its first n operations, played from `view` with `before` and `names` on record. */
  ghost predicate Playing(view: View, ops: seq<Timed>, n: nat, keys: seq<Option<Key>>, before: seq<Moment>, names: Minted,
                          at: Record, clock: int, window: nat, writable: bool, ttl: nat) {
    && n <= |ops| && |keys| == n && (forall i :: n <= i < |ops| ==> clock <= ops[i].time)
    && at.view == Played(view, ops[..n], window, writable) && at.history == before + Moments(view, ops[..n], window, writable)
    && MintedWithin(names, at.minted, ops, n) && ServedRecently(keys, ops, at.history, |before|, at.minted, ttl)
  }

  /** Carrying out the next operation takes a script one further. */
  lemma {:induction false} PlaysOn(view: View, ops: seq<Timed>, n: nat, keys: seq<Option<Key>>, before: seq<Moment>, names: Minted,
                                   at: Record, clock: int, window: nat, writable: bool, ttl: nat, key: Option<Key>, to: Record)
    requires Playing(view, ops, n, keys, before, names, at, clock, window, writable, ttl) && n < |ops|
    requires forall i :: n < i < |ops| ==> ops[n].time <= ops[i].time
    requires Performed(at.(view := ViewAt(at.view, ops[n].time)), to, ops[n].op, ops[n].time, window, writable, key, ttl)
    ensures Playing(view, ops, n + 1, keys + [key], before, names, to, ops[n].time, window, writable, ttl)
  {
    MadeStep(ops, n);
    MomentsStep(view, ops, n, window, writable);
    ServedMore(keys, ops, at.history, |before|, at.minted, ttl, key, Moment(ops[n].time, to.view), to.minted);
  }

  /** The next operation's name has not been minted. */
  lemma {:induction false} NextIsFresh(ops: seq<Timed>, n: nat, names: Minted, minted: Minted)
    requires n < |ops| && FreshNames(ops, names) && MintedWithin(names, minted, ops, n)
    ensures (ops[n].op.CreateKekOp? ==> ops[n].op.k !in minted.keks) && (ops[n].op.CreateDekOp? ==> ops[n].op.v !in minted.deks)
  {}
}
