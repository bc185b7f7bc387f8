/** The crypto-shred launch gate. */
module LaunchGate {
  import opened KeyStoreSpec
  import opened KeyDestruction

  datatype Failure = WrongProvider | DekReadable(v: nat) | KekReadable(k: string) | DekStalled(v: nat) | KekStalled(k: string)

  predicate Stalled<K>(rows: map<K, Row>, k: K, now: int) { Unfinished(rows, k) && rows[k].until <= now }

  /** Which complaint the gate makes, and when; the first two kinds never come in a reachable state. */
  ghost predicate Complains(s: Sys, productionOk: bool, f: Failure) {
    match f
    case WrongProvider => !productionOk
    case DekReadable(v) => Marked(s.deks, v) && Recoverable(Current(s), v)
    case KekReadable(k) => Marked(s.keks, k) && k in Current(s).keks
    case DekStalled(v) => Stalled(s.deks, v, s.now)
    case KekStalled(k) => Stalled(s.keks, k, s.now)
  }

  /** The gate's two queries over one table: the rows marked destroyed, and the unfinished ones. */
  ghost predicate Answers<K>(marked: seq<K>, unfinished: seq<K>, rows: map<K, Row>) {
    && (forall k :: k in marked ==> Marked(rows, k)) && (forall k :: k in rows && Marked(rows, k) ==> k in marked)
    && (forall k :: k in unfinished ==> Unfinished(rows, k)) && (forall k :: k in rows && Unfinished(rows, k) ==> k in unfinished)
  }

  /** Every complaint the gate has to make is on the list, and no other. */
  method CheckLaunchGate(s: Sys, production: bool, provider: string, markedDeks: seq<nat>, markedKeks: seq<string>,
                         unfinishedDeks: seq<nat>, unfinishedKeks: seq<string>) returns (failures: seq<Failure>)
    requires Answers(markedDeks, unfinishedDeks, s.deks) && Answers(markedKeks, unfinishedKeks, s.keks)
    ensures forall f :: f in failures <==> Complains(s, !production || provider in {"railway", "kms"}, f)
  {
    failures := [];
    if production && provider != "railway" && provider != "kms" { failures := [WrongProvider]; }
    ghost var f0 := failures;
    for i := 0 to |markedDeks|
      invariant forall f :: f in failures <==> f in f0 || (f.DekReadable? && f.v in markedDeks[..i] && Recoverable(Current(s), f.v))
    {
      if Recoverable(Current(s), markedDeks[i]) { failures := failures + [DekReadable(markedDeks[i])]; }
    }
    ghost var f1 := failures;
    for i := 0 to |markedKeks|
      invariant forall f :: f in failures <==> f in f1 || (f.KekReadable? && f.k in markedKeks[..i] && f.k in Current(s).keks)
    {
      if markedKeks[i] in Current(s).keks { failures := failures + [KekReadable(markedKeks[i])]; }
    }
    ghost var f2 := failures;
    for i := 0 to |unfinishedDeks|
      invariant forall f :: f in failures <==> f in f2 || (f.DekStalled? && f.v in unfinishedDeks[..i] && Stalled(s.deks, f.v, s.now))
    {
      if Stalled(s.deks, unfinishedDeks[i], s.now) { failures := failures + [DekStalled(unfinishedDeks[i])]; }
    }
    ghost var f3 := failures;
    for i := 0 to |unfinishedKeks|
      invariant forall f :: f in failures <==> f in f3 || (f.KekStalled? && f.k in unfinishedKeks[..i] && Stalled(s.keks, f.k, s.now))
    {
      if Stalled(s.keks, unfinishedKeks[i], s.now) { failures := failures + [KekStalled(unfinishedKeks[i])]; }
    }
  }

  /** After any run the gate has nothing to say about destroyed material. */
  lemma {:induction false} GateNeverFindsMaterial(s: Sys, es: seq<Event>, productionOk: bool, f: Failure)
    requires Inv(s) && (f.DekReadable? || f.KekReadable?)
    ensures !Complains(Run(s, es), productionOk, f)
  {
    RunKeepsInv(s, es);
  }
}
