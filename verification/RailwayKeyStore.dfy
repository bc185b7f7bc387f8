/** The production key store: two JSON documents behind a secret backend that may be read-only. */
module RailwayKeyStore {
  import opened Wrappers
  import opened KeyStoreSpec

  class RailwaySecretKeyStore {
    const window: nat
    const ttl: nat
    const writable: bool
    var keks: Doc<string, Key>
    var deks: Doc<nat, DekEntry>
    var cache: map<nat, Cached>
    var clock: int
    ghost var minted: Minted
    ghost var history: seq<Moment>

    ghost predicate Valid()
      reads this
    {
      Genuine(keks, deks, minted) && Honest(cache, minted, history, ttl, clock)
    }

    /** What can be read out of the documents at a given time. */
    ghost function Readable(now: int): View
      reads this`keks, this`deks
    {
      View(DocView(keks, now), DocView(deks, now))
    }

    /** Opening the store on the documents the backend holds. */
    constructor (window: nat, ttl: nat, writable: bool, now: int, keks: Doc<string, Key>, deks: Doc<nat, DekEntry>, ghost minted: Minted)
      requires Genuine(keks, deks, minted)
      ensures Valid() && clock == now && history == [] && this.minted == minted && this.keks == keks && this.deks == deks
      ensures this.window == window && this.ttl == ttl && this.writable == writable && cache == map[]
    {
      this.window, this.ttl, this.writable, this.keks, this.deks := window, ttl, writable, keks, deks;
      cache, clock, this.minted, history := map[], now, minted, [];
    }

    /** The moment goes on record; nothing readable changes. */
    method Stamp(now: int)
      requires Valid() && now >= clock
      modifies this`clock, this`history
      ensures Valid() && clock == now && history == old(history) + [Moment(now, Readable(now))]
    {
      CacheKept(cache, minted, history, ttl, clock, minted, Moment(now, Readable(now)));
      clock, history := now, history + [Moment(now, Readable(now))];
    }

    method CreateKek(k: string, bytes: Key, now: int) returns (ok: bool)
      requires Valid() && now >= clock && k !in minted.keks
      modifies this
      ensures Valid() && clock == now && history == old(history) + [Moment(now, Readable(now))] && ok == writable
      ensures minted == if ok then MintKek(old(minted), k, bytes) else old(minted)
      ensures Readable(now) == if ok then old(Readable(now)).(keks := old(Readable(now)).keks[k := Slot(bytes, None)]) else old(Readable(now))
    {
      ok := writable;
      if ok {
        NewKek(keks, deks, minted, k, bytes, now);
        keks := Insert(keks, k, bytes);
      }
      ghost var minted' := if ok then MintKek(minted, k, bytes) else minted;
      CacheKept(cache, minted, history, ttl, clock, minted', Moment(now, Readable(now)));
      clock, minted, history := now, minted', history + [Moment(now, Readable(now))];
    }

    /** Purging an elapsed entry also drops the cached keys it may have opened. */
    method ReadKek(k: string, now: int) returns (r: Option<Key>)
      requires Valid() && now >= clock
      modifies this`keks, this`cache, this`clock
      ensures Valid() && clock == now && Readable(now) == old(Readable(now))
      ensures r.Some? <==> k in Readable(now).keks
      ensures r.Some? ==> k in minted.keks && r.value == minted.keks[k] == Readable(now).keks[k].item
    {
      LookupIsView(keks, k, now);
      CacheDropped(cache, minted, history, ttl, clock, 0, now);
      clock := now;
      if k in keks.active { return Some(keks.active[k]); }
      if k in keks.pending {
        if Live(keks.pending[k], now) { return Some(keks.pending[k].item); }
        KekRequested(keks, deks, minted, k, now, window);
        if writable { keks := Purge(keks, k, now); }
        cache := map[];
      }
      return None;
    }

    method GetKek(k: string, now: int) returns (r: Option<Key>)
      requires Valid() && now >= clock
      modifies this`keks, this`cache, this`clock, this`history
      ensures Valid() && clock == now && Readable(now) == old(Readable(now)) && history == old(history) + [Moment(now, Readable(now))]
      ensures r.Some? <==> k in Readable(now).keks
      ensures r.Some? ==> k in minted.keks && r.value == minted.keks[k] == Readable(now).keks[k].item
    {
      r := ReadKek(k, now);
      Stamp(now);
    }

    method DestroyKek(k: string, now: int) returns (ok: bool)
      requires Valid() && now >= clock
      modifies this`keks, this`cache, this`clock, this`history
      ensures Valid() && clock == now && ok == writable && history == old(history) + [Moment(now, Readable(now))]
      ensures Readable(now) == if ok then old(Readable(now)).(keks := AfterDestroy(old(Readable(now)).keks, k, now, window)) else old(Readable(now))
    {
      ok := writable;
      CacheDropped(cache, minted, history, ttl, clock, 0, now);
      clock := now;
      if ok {
        KekRequested(keks, deks, minted, k, now, window);
        if k in keks.active {
          keks := Doc(keks.active - {k}, keks.pending[k := Slot(keks.active[k], Some(now + window))]);
        }
        if k in keks.pending && !Live(keks.pending[k], now) { keks := keks.(pending := keks.pending - {k}); }
        cache := map[];
      }
      Stamp(now);
    }

    /** The readable entry, purging an elapsed one on the way. */
    method ResolveDek(v: nat, now: int) returns (r: Option<Slot<DekEntry>>)
      requires Valid()
      modifies this`deks
      ensures Valid() && Readable(now) == old(Readable(now))
      ensures r.Some? <==> v in Readable(now).deks
      ensures r.Some? ==> r.value == Readable(now).deks[v] && GenuineDek(r.value.item, v, minted)
    {
      LookupIsView(deks, v, now);
      r := Lookup(deks, v, now);
      DekRequested(keks, deks, minted, v, now, window);
      if writable { deks := Purge(deks, v, now); }
    }

    method CreateDek(v: nat, k: string, dek: Key, now: int) returns (ok: bool)
      requires Valid() && now >= clock && v !in minted.deks
      modifies this
      ensures Valid() && clock == now && history == old(history) + [Moment(now, Readable(now))]
      ensures ok <==> writable && v >= 1 && k in old(Readable(now)).keks
      ensures minted == if ok then MintDek(old(minted), v, dek) else old(minted)
      ensures !ok ==> Readable(now) == old(Readable(now))
      ensures ok ==> Recoverable(Readable(now), v)
      ensures ok ==> var was := old(Readable(now));
        Readable(now) == was.(deks := was.deks[v := Slot(DekEntry(Wrapped(dek, was.keks[k].item, v), k), None)])
    {
      var kek := None;
      CacheDropped(cache, minted, history, ttl, clock, 0, now);
      if v >= 1 { kek := ReadKek(k, now); }
      ok := kek.Some? && writable;
      if ok {
        var entry := DekEntry(Wrapped(dek, kek.value, v), k);
        NewDek(keks, deks, minted, v, entry, now);
        deks := Insert(deks, v, entry);
      }
      ghost var minted' := if ok then MintDek(minted, v, dek) else minted;
      CacheKept(cache, minted, history, ttl, clock, minted', Moment(now, Readable(now)));
      clock, minted, history := now, minted', history + [Moment(now, Readable(now))];
    }

    /** A cached key is served until it expires. Otherwise the key is delivered exactly when it is recoverable;
        either way it is the key minted for the version, recoverable no longer than the cache lifetime ago. */
    method UnwrapDek(v: nat, now: int) returns (r: Option<Key>)
      requires Valid() && now >= clock
      modifies this
      ensures Valid() && clock == now && history == old(history) + [Moment(now, Readable(now))] && minted == old(minted) && Readable(now) == old(Readable(now))
      ensures v !in old(cache) || now >= old(cache)[v].expires ==> (r.Some? <==> Recoverable(Readable(now), v))
      ensures r.Some? ==> v in minted.deks && r.value == minted.deks[v] && RecentlyRecoverable(history, v, now, ttl)
    {
      if v in cache && now < cache[v].expires {
        CacheHit(cache, minted, history, ttl, clock, v, now);
        RecentGrows(history, v, now, ttl, Moment(now, Readable(now)));
        Stamp(now);
        return Some(cache[v].dek);
      }
      r := None;
      var entry := ResolveDek(v, now);
      if entry.None? {
        Stamp(now);
        return;
      }
      var kek := ReadKek(entry.value.item.kekVersion, now);
      if kek.Some? {
        r := Unwrap(entry.value.item.wrapped, kek.value, v);
        Fill(v, r.value, now);
      } else {
        Stamp(now);
      }
    }

    method Fill(v: nat, dek: Key, now: int)
      requires Valid() && now >= clock && v in minted.deks && minted.deks[v] == dek && Recoverable(Readable(now), v)
      modifies this`cache, this`clock, this`history
      ensures Valid() && clock == now && history == old(history) + [Moment(now, Readable(now))] && RecentlyRecoverable(history, v, now, ttl)
    {
      CacheFilled(cache, minted, history, ttl, clock, v, Moment(now, Readable(now)));
      cache, clock, history := cache[v := Cached(dek, now + ttl)], now, history + [Moment(now, Readable(now))];
    }

    method DestroyDek(v: nat, now: int) returns (ok: bool)
      requires Valid() && now >= clock
      modifies this`deks, this`cache, this`clock, this`history
      ensures Valid() && clock == now && ok == writable && history == old(history) + [Moment(now, Readable(now))]
      ensures Readable(now) == if ok then old(Readable(now)).(deks := AfterDestroy(old(Readable(now)).deks, v, now, window)) else old(Readable(now))
    {
      ok := writable;
      CacheDropped(cache, minted, history, ttl, clock, v, now);
      clock := now;
      if ok {
        DekRequested(keks, deks, minted, v, now, window);
        if v in deks.active {
          deks := Doc(deks.active - {v}, deks.pending[v := Slot(deks.active[v], Some(now + window))]);
        }
        if v in deks.pending && !Live(deks.pending[v], now) { deks := deks.(pending := deks.pending - {v}); }
        cache := cache - {v};
      }
      Stamp(now);
    }

    method KekRecovery(k: string, now: int) returns (r: Option<Option<int>>)
      requires Valid() && now >= clock
      modifies this`keks, this`cache, this`clock
      ensures Valid() && clock == now && Readable(now) == old(Readable(now))
      ensures r == if k in Readable(now).keks then Some(Readable(now).keks[k].until) else None
    {
      LookupIsView(keks, k, now);
      CacheDropped(cache, minted, history, ttl, clock, 0, now);
      clock := now;
      if k in keks.active { return Some(None); }
      if k in keks.pending {
        if Live(keks.pending[k], now) { return Some(keks.pending[k].until); }
        KekRequested(keks, deks, minted, k, now, window);
        if writable { keks := Purge(keks, k, now); }
        cache := map[];
      }
      return None;
    }

    /** None when the KEK is not recoverable, otherwise its deadline if it has one. */
    method RecoverabilityOfKek(k: string, now: int) returns (r: Option<Option<int>>)
      requires Valid() && now >= clock
      modifies this`keks, this`cache, this`clock, this`history
      ensures Valid() && clock == now && Readable(now) == old(Readable(now)) && history == old(history) + [Moment(now, Readable(now))]
      ensures r == if k in Readable(now).keks then Some(Readable(now).keks[k].until) else None
    {
      r := KekRecovery(k, now);
      Stamp(now);
    }

    /** None when the version is not recoverable, otherwise its deadline if it has one. */
    method RecoverabilityOfDek(v: nat, now: int) returns (r: Option<Option<int>>)
      requires Valid() && now >= clock
      modifies this`keks, this`deks, this`cache, this`clock, this`history
      ensures Valid() && clock == now && Readable(now) == old(Readable(now)) && history == old(history) + [Moment(now, Readable(now))]
      ensures r == if Recoverable(Readable(now), v) then Some(Readable(now).deks[v].until) else None
    {
      var entry := ResolveDek(v, now);
      if entry.None? {
        Stamp(now);
        return None;
      }
      var kek := KekRecovery(entry.value.item.kekVersion, now);
      r := if kek.Some? then Some(entry.value.until) else None;
      Stamp(now);
    }

    /** What is readable later is what is readable now, seen later. */
    lemma {:induction false} ReadableLater(now: int, later: int)
      requires now <= later
      ensures Readable(later) == ViewAt(Readable(now), later)
    {
      DocViewLater(keks, now, later);
      DocViewLater(deks, now, later);
    }

    ghost function OnRecord(now: int): Record
      reads this
    {
      Record(Readable(now), history, minted)
    }

    method PerformOnKeks(op: Op, now: int) returns (key: Option<Key>)
      requires Valid() && now >= clock && OnKeks(op) && (op.CreateKekOp? ==> op.k !in minted.keks)
      modifies this
      ensures Valid() && clock == now && Performed(old(OnRecord(now)), OnRecord(now), op, now, window, writable, key, ttl)
    {
      key := None;
      match op {
        case CreateKekOp(k, bytes) => var _ := CreateKek(k, bytes, now);
        case GetKekOp(k) => key := GetKek(k, now);
        case DestroyKekOp(k) => var _ := DestroyKek(k, now);
        case QueryKekOp(k) => var _ := RecoverabilityOfKek(k, now);
      }
    }

    method PerformOnDeks(op: Op, now: int) returns (key: Option<Key>)
      requires Valid() && now >= clock && !OnKeks(op) && (op.CreateDekOp? ==> op.v !in minted.deks)
      modifies this
      ensures Valid() && clock == now && Performed(old(OnRecord(now)), OnRecord(now), op, now, window, writable, key, ttl)
    {
      key := None;
      match op {
        case CreateDekOp(v, k, dek) => var _ := CreateDek(v, k, dek, now);
        case UnwrapDekOp(v) => key := UnwrapDek(v, now);
        case DestroyDekOp(v) => var _ := DestroyDek(v, now);
        case QueryDekOp(v) => var _ := RecoverabilityOfDek(v, now);
      }
    }

    /** An operation by one of the processes: the others keep the caches they have. */
    method Perform(op: Op, now: int, instance: nat, caches: Caches) returns (key: Option<Key>, caches': Caches)
      requires Valid() && now >= clock && AllHonest(caches, minted, history, ttl, clock)
      requires (op.CreateKekOp? ==> op.k !in minted.keks) && (op.CreateDekOp? ==> op.v !in minted.deks)
      modifies this
      ensures Valid() && clock == now && Performed(old(OnRecord(now)), OnRecord(now), op, now, window, writable, key, ttl)
      ensures caches' == caches[instance := cache] && AllHonest(caches', minted, history, ttl, clock)
    {
      ghost var minted0, history0, clock0 := minted, history, clock;
      CacheDropped(cache, minted, history, ttl, clock, 0, clock);
      cache := if instance in caches then caches[instance] else map[];
      if OnKeks(op) { key := PerformOnKeks(op, now); } else { key := PerformOnDeks(op, now); }
      AllKept(caches, minted0, history0, ttl, clock0, minted, Moment(now, Readable(now)));
      caches' := caches[instance := cache];
    }

    /** The first n operations of a script have been played from the view `view`. */
    ghost predicate PlayedTo(view: View, ops: seq<Timed>, n: nat, keys: seq<Option<Key>>, before: seq<Moment>, names: Minted, caches: Caches)
      reads this
    {
      && Valid() && AllHonest(caches, minted, history, ttl, clock)
      && Playing(view, ops, n, keys, before, names, OnRecord(clock), clock, window, writable, ttl)
    }

    method PlayOne(ops: seq<Timed>, n: nat, keys: seq<Option<Key>>, caches: Caches, ghost view: View, ghost before: seq<Moment>, ghost names: Minted)
      returns (keys': seq<Option<Key>>, caches': Caches)
      requires n < |ops| && PlayedTo(view, ops, n, keys, before, names, caches) && FreshNames(ops, names)
      requires forall i :: n < i < |ops| ==> ops[n].time <= ops[i].time
      modifies this
      ensures PlayedTo(view, ops, n + 1, keys', before, names, caches')
    {
      ghost var at, was := OnRecord(clock), clock;
      NextIsFresh(ops, n, names, minted);
      ReadableLater(clock, ops[n].time);
      var key;
      key, caches' := Perform(ops[n].op, ops[n].time, ops[n].instance, caches);
      PlaysOn(view, ops, n, keys, before, names, at, was, window, writable, ttl, key, OnRecord(clock));
      keys' := keys + [key];
    }

    /** Any script of operations by any number of processes on the same documents: the recorded history is exactly
        the abstract store's, and every key served, from whichever process's cache, was recoverable there no longer
        than the cache lifetime before. */
    method Script(ops: seq<Timed>, running: Caches) returns (keys: seq<Option<Key>>, caches: Caches)
      requires Valid() && AllHonest(running, minted, history, ttl, clock) && InTime(ops, clock) && FreshNames(ops, minted)
      modifies this
      ensures Valid() && AllHonest(caches, minted, history, ttl, clock) && |keys| == |ops|
      ensures history == old(history) + Moments(old(Readable(clock)), ops, window, writable)
      ensures ServedRecently(keys, ops, history, |old(history)|, minted, ttl)
    {
      keys, caches := [], running;
      ghost var view, before, names := Readable(clock), history, minted;
      assert ops[..|ops|] == ops;
      for n := 0 to |ops|
        invariant PlayedTo(view, ops, n, keys, before, names, caches)
      {
        keys, caches := PlayOne(ops, n, keys, caches, view, before, names);
      }
    }
  }
}
