/** Stable per-call tokenization of merged spans. */
module Tokenize {
  import opened Chars
  import opened RedactionTypes
  import opened TextRuns
  import opened Spans

  datatype VaultEntry = VaultEntry(token: string, plaintext: string)
  datatype Finding = Finding(entityType: EntityType, tokenRef: string, normalizedValue: string)
  datatype Tokenized = Tokenized(redactedText: string, vault: seq<VaultEntry>, findings: seq<Finding>)

  function Surface(text: string, d: Detection): string
    requires d.start <= d.end <= |text|
  {
    text[d.start..d.end]
  }

  function Key(text: string, d: Detection): string
    requires d.start <= d.end <= |text|
  {
    TypeName(d.entityType) + ":" + Alnum(Surface(text, d))
  }

  /** What tokenization looks at in a span. */
  datatype Item = Item(key: string, entityType: EntityType, surface: string)

  function Items(text: string, ds: seq<Detection>): (items: seq<Item>)
    requires InRange(ds, |text|)
    ensures |items| == |ds|
    ensures forall k :: 0 <= k < |ds| ==> items[k] == Item(Key(text, ds[k]), ds[k].entityType, Surface(text, ds[k]))
  {
    seq(|ds|, k requires 0 <= k < |ds| => Item(Key(text, ds[k]), ds[k].entityType, Surface(text, ds[k])))
  }

  type Namer = (EntityType, nat) -> string

  datatype Assigned = Assigned(counters: map<EntityType, nat>, byKey: map<string, string>,
                               vault: seq<VaultEntry>, findings: seq<Finding>, tokenFor: seq<string>)

  function Counter(counters: map<EntityType, nat>, t: EntityType): nat { if t in counters then counters[t] else 0 }

  /** One span's token; `name` is `tokenLabel`. */
  function AssignOne(name: Namer, st: Assigned, it: Item): Assigned {
    if it.key in st.byKey then st.(tokenFor := st.tokenFor + [st.byKey[it.key]])
    else
      var n := Counter(st.counters, it.entityType) + 1;
      var token := name(it.entityType, n);
      Assigned(st.counters[it.entityType := n], st.byKey[it.key := token],
               st.vault + [VaultEntry(token, it.surface)],
               st.findings + [Finding(it.entityType, token, Alnum(it.surface))],
               st.tokenFor + [token])
  }

  function Assign(name: Namer, items: seq<Item>): (st: Assigned)
    ensures |st.tokenFor| == |items|
  {
    if items == [] then Assigned(map[], map[], [], [], []) else AssignOne(name, Assign(name, items[..|items| - 1]), items[|items| - 1])
  }

  /** The text from pos on with each span replaced by its token, left to right. */
  function Redacted(text: string, ds: seq<Detection>, tokens: seq<string>, pos: nat): string
    requires |ds| == |tokens| && InRange(ds, |text|) && Ordered(ds)
    requires pos <= |text| && (ds != [] ==> pos <= ds[0].start)
    decreases |ds|
  {
    if ds == [] then text[pos..]
    else text[pos..ds[0].start] + tokens[0] + Redacted(text, ds[1..], tokens[1..], ds[0].end)
  }

  function TokenizeOrdered(text: string, ds: seq<Detection>): Tokenized
    requires InRange(ds, |text|) && Ordered(ds)
  {
    var st := Assign(TokenLabel, Items(text, ds));
    Tokenized(Redacted(text, ds, st.tokenFor, 0), st.vault, st.findings)
  }

  lemma {:induction false} OrderedIsSorted(ds: seq<Detection>, n: nat)
    requires InRange(ds, n) && Ordered(ds)
    ensures Sorted(ds, false) && Sort(ds, false) == ds
  {
    SortOfSorted(ds, false);
  }

  lemma {:induction false} RedactedFrom(text: string, ds: seq<Detection>, tokens: seq<string>, c: nat)
    requires |ds| == |tokens| && InRange(ds, |text|) && Ordered(ds)
    requires c <= |text| && (ds != [] ==> c <= ds[0].start)
    ensures Redacted(text, ds, tokens, 0) == text[..c] + Redacted(text, ds, tokens, c)
  {
    if ds != [] {
      assert text[..ds[0].start] == text[..c] + text[c..ds[0].start];
    }
  }

  /** Tokens are assigned left to right and spliced in right to left, so earlier offsets stay valid. */
  method TokenizeSpans(text: string, spans: seq<Detection>) returns (r: Tokenized)
    requires InRange(spans, |text|) && Ordered(Sort(spans, false))
    ensures InRange(Sort(spans, false), |text|)
    ensures r == TokenizeOrdered(text, Sort(spans, false))
  {
    var ordered := Sort(spans, false);
    assert InRange(ordered, |text|) by {
      forall k | 0 <= k < |ordered| ensures ordered[k].start < ordered[k].end <= |text| { assert ordered[k] in spans; }
    }
    var st := AssignTokens(TokenLabel, Items(text, ordered));
    var redactedText := Splice(text, ordered, st.tokenFor);
    r := Tokenized(redactedText, st.vault, st.findings);
  }

  method AssignTokens(name: Namer, items: seq<Item>) returns (st: Assigned)
    ensures st == Assign(name, items)
  {
    var counters: map<EntityType, nat>, byKey: map<string, string> := map[], map[];
    var vault: seq<VaultEntry>, findings: seq<Finding>, tokenFor: seq<string> := [], [], [];
    for i := 0 to |items|
      invariant Assigned(counters, byKey, vault, findings, tokenFor) == Assign(name, items[..i])
    {
      assert items[..i + 1][..i] == items[..i];
      var it := items[i];
      var token: string;
      if it.key in byKey {
        token := byKey[it.key];
      } else {
        var n := Counter(counters, it.entityType) + 1;
        counters := counters[it.entityType := n];
        token := name(it.entityType, n);
        byKey := byKey[it.key := token];
        vault := vault + [VaultEntry(token, it.surface)];
        findings := findings + [Finding(it.entityType, token, Alnum(it.surface))];
      }
      tokenFor := tokenFor + [token];
    }
    assert items[..|items|] == items;
    st := Assigned(counters, byKey, vault, findings, tokenFor);
  }

  method Splice(text: string, ordered: seq<Detection>, tokenFor: seq<string>) returns (redactedText: string)
    requires InRange(ordered, |text|) && Ordered(ordered) && |tokenFor| == |ordered|
    ensures redactedText == Redacted(text, ordered, tokenFor, 0)
  {
    redactedText := text;
    var i := |ordered|;
    while i > 0
      invariant 0 <= i <= |ordered|
      invariant redactedText == Redacted(text, ordered[i..], tokenFor[i..], 0)
    {
      i := i - 1;
      var s := ordered[i];
      assert ordered[i..][1..] == ordered[i + 1..] && tokenFor[i..][1..] == tokenFor[i + 1..];
      ghost var tail := Redacted(text, ordered[i + 1..], tokenFor[i + 1..], s.end);
      RedactedFrom(text, ordered[i + 1..], tokenFor[i + 1..], s.end);
      assert redactedText[..s.start] == text[..s.start] && redactedText[s.end..] == tail;
      redactedText := redactedText[..s.start] + tokenFor[i] + redactedText[s.end..];
    }
    assert ordered[0..] == ordered && tokenFor[0..] == tokenFor;
  }

  // ---------- what the tokens mean ----------

  lemma {:induction false} KeyInjective(text: string, a: Detection, b: Detection)
    requires a.start <= a.end <= |text| && b.start <= b.end <= |text|
    ensures Key(text, a) == Key(text, b) <==>
            a.entityType == b.entityType && Alnum(Surface(text, a)) == Alnum(Surface(text, b))
  {
    if Key(text, a) == Key(text, b) {
      var x, y := Alnum(Surface(text, a)), Alnum(Surface(text, b));
      assert forall i :: 0 <= i < |x| ==> LOWER_ALNUMS.Has(x[i]);
      assert forall i :: 0 <= i < |y| ==> LOWER_ALNUMS.Has(y[i]);
      SplitAtLast(TypeName(a.entityType), x, TypeName(b.entityType), y, ':');
      TypeNameInjective(a.entityType, b.entityType);
    }
  }

  function CountOf(fs: seq<Finding>, t: EntityType): nat {
    if fs == [] then 0 else CountOf(fs[..|fs| - 1], t) + if fs[|fs| - 1].entityType == t then 1 else 0
  }

  lemma {:induction false} CountMonotone(fs: seq<Finding>, t: EntityType, a: nat, b: nat)
    requires a <= b <= |fs|
    ensures CountOf(fs[..a], t) <= CountOf(fs[..b], t)
    decreases b - a
  {
    if a < b {
      CountMonotone(fs, t, a, b - 1);
      assert fs[..b][..b - 1] == fs[..b - 1];
    }
  }

  /** firsts[v] is the first span of the v-th distinct key, homes[k] the entry of span k, entry[key] the entry of a key,
      keyOf[v] the key of an entry. */
  datatype Tables = Tables(firsts: seq<int>, homes: seq<int>, entry: map<string, int>, keyOf: seq<string>)

  ghost function TablesStep(t: Tables, it: Item): Tables {
    if it.key in t.entry then t.(homes := t.homes + [t.entry[it.key]])
    else Tables(t.firsts + [|t.homes|], t.homes + [|t.firsts|], t.entry[it.key := |t.firsts|], t.keyOf + [it.key])
  }

  ghost function TablesOf(items: seq<Item>): (t: Tables)
    ensures |t.homes| == |items|
  {
    if items == [] then Tables([], [], map[], []) else TablesStep(TablesOf(items[..|items| - 1]), items[|items| - 1])
  }

  /** Each span's home is the entry of its key, which began no later. */
  ghost predicate Located(items: seq<Item>, t: Tables) {
    && |t.homes| == |items| && |t.keyOf| == |t.firsts|
    && (forall v {:trigger t.firsts[v]} :: 0 <= v < |t.firsts| ==>
          0 <= t.firsts[v] < |items| && t.homes[t.firsts[v]] == v)
    && (forall k {:trigger t.homes[k]} :: 0 <= k < |items| ==>
          0 <= t.homes[k] < |t.firsts| && t.firsts[t.homes[k]] <= k
          && items[k].key in t.entry && t.entry[items[k].key] == t.homes[k])
    && (forall key {:trigger t.entry[key]} :: key in t.entry ==> 0 <= t.entry[key] < |t.firsts| && t.keyOf[t.entry[key]] == key)
  }

  /** The assigned tokens, plaintexts and key table are those of the entries. */
  ghost predicate Linked(st: Assigned, items: seq<Item>, t: Tables)
    requires Located(items, t)
  {
    && |st.tokenFor| == |items| && |st.vault| == |t.firsts|
    && st.byKey.Keys == t.entry.Keys
    && (forall v {:trigger t.firsts[v]} :: 0 <= v < |t.firsts| ==> st.vault[v].plaintext == items[t.firsts[v]].surface)
    && (forall k {:trigger t.homes[k]} :: 0 <= k < |items| ==> st.tokenFor[k] == st.vault[t.homes[k]].token)
    && (forall key {:trigger t.entry[key]} :: key in t.entry ==> st.byKey[key] == st.vault[t.entry[key]].token)
  }

  ghost predicate Counts(counters: map<EntityType, nat>, findings: seq<Finding>) {
    forall t {:trigger CountOf(findings, t)} {:trigger Counter(counters, t)} :: Counter(counters, t) == CountOf(findings, t)
  }

  /** The number a finding's token carries. */
  function NumberOf(findings: seq<Finding>, v: nat): nat
    requires v < |findings|
  {
    CountOf(findings[..v], findings[v].entityType) + 1
  }

  /** Numbering is per type, from 1, in order of first occurrence. */
  ghost predicate Numbered(name: Namer, vault: seq<VaultEntry>, findings: seq<Finding>)
    requires |vault| == |findings|
  {
    forall v {:trigger NumberOf(findings, v)} :: 0 <= v < |vault| ==>
      && vault[v].token == name(findings[v].entityType, NumberOf(findings, v))
      && findings[v].tokenRef == vault[v].token
  }

  lemma {:induction false} NumberedGrows(name: Namer, vault: seq<VaultEntry>, findings: seq<Finding>, e: VaultEntry, f: Finding)
    requires |vault| == |findings| && Numbered(name, vault, findings)
    requires e.token == name(f.entityType, CountOf(findings, f.entityType) + 1) && f.tokenRef == e.token
    ensures Numbered(name, vault + [e], findings + [f])
  {
    var findings' := findings + [f];
    forall v | 0 <= v < |findings| ensures NumberOf(findings', v) == NumberOf(findings, v) {
      assert findings'[..v] == findings[..v];
    }
    assert findings'[..|findings|] == findings;
  }

  lemma {:induction false} CountAppend(fs: seq<Finding>, f: Finding)
    ensures forall t :: CountOf(fs + [f], t) == CountOf(fs, t) + if f.entityType == t then 1 else 0
  {
    assert (fs + [f])[..|fs|] == fs;
  }

  lemma {:induction false} CountsGrow(counters: map<EntityType, nat>, findings: seq<Finding>, f: Finding)
    requires Counts(counters, findings)
    ensures Counts(counters[f.entityType := Counter(counters, f.entityType) + 1], findings + [f])
  {
    CountAppend(findings, f);
    var counters', findings' := counters[f.entityType := Counter(counters, f.entityType) + 1], findings + [f];
    forall t ensures Counter(counters', t) == CountOf(findings', t) { assert Counter(counters, t) == CountOf(findings, t); }
  }

  lemma {:induction false} LocatedStep(items: seq<Item>, t: Tables, it: Item)
    requires Located(items, t)
    ensures Located(items + [it], TablesStep(t, it))
  {
    var t', items' := TablesStep(t, it), items + [it];
    forall k | 0 <= k < |items'|
      ensures 0 <= t'.homes[k] < |t'.firsts| && t'.firsts[t'.homes[k]] <= k && items'[k].key in t'.entry && t'.entry[items'[k].key] == t'.homes[k]
    {
      if k < |items| { assert t'.homes[k] == t.homes[k] && items'[k] == items[k]; } else { assert items'[k] == it; }
    }
    forall v | 0 <= v < |t'.firsts| ensures 0 <= t'.firsts[v] < |items'| && t'.homes[t'.firsts[v]] == v {
      if v < |t.firsts| { assert t'.firsts[v] == t.firsts[v]; }
    }
    forall key | key in t'.entry ensures 0 <= t'.entry[key] < |t'.firsts| && t'.keyOf[t'.entry[key]] == key {
      if key in t.entry { assert t.keyOf[t.entry[key]] == key; }
    }
  }

  lemma {:induction false} LinkedKnown(name: Namer, st: Assigned, items: seq<Item>, t: Tables, it: Item)
    requires Located(items, t) && Linked(st, items, t) && it.key in t.entry
    requires Located(items + [it], TablesStep(t, it))
    ensures Linked(AssignOne(name, st, it), items + [it], TablesStep(t, it))
  {
    var t', items' := TablesStep(t, it), items + [it];
    assert forall k {:trigger t'.homes[k]} :: 0 <= k < |items| ==> t'.homes[k] == t.homes[k];
    assert forall v {:trigger t.firsts[v]} :: 0 <= v < |t.firsts| ==> items'[t.firsts[v]] == items[t.firsts[v]];
    assert t'.homes[|items|] == t.entry[it.key];
  }

  lemma {:induction false} FreshPlain(name: Namer, st: Assigned, items: seq<Item>, t: Tables, it: Item)
    requires Located(items, t) && Linked(st, items, t) && it.key !in t.entry
    ensures var st', t', items' := AssignOne(name, st, it), TablesStep(t, it), items + [it];
      |st'.vault| == |t'.firsts| && forall v {:trigger t'.firsts[v]} :: 0 <= v < |t'.firsts| ==>
        0 <= t'.firsts[v] < |items'| && st'.vault[v].plaintext == items'[t'.firsts[v]].surface
  {
    assert it.key !in st.byKey;
    var t', items' := TablesStep(t, it), items + [it];
    assert forall v {:trigger t'.firsts[v]} :: 0 <= v < |t.firsts| ==> t'.firsts[v] == t.firsts[v] && items'[t.firsts[v]] == items[t.firsts[v]];
    assert items'[|items|] == it;
  }

  lemma {:induction false} LinkedFresh(name: Namer, st: Assigned, items: seq<Item>, t: Tables, it: Item)
    requires Located(items, t) && Linked(st, items, t) && it.key !in t.entry
    requires Located(items + [it], TablesStep(t, it))
    ensures Linked(AssignOne(name, st, it), items + [it], TablesStep(t, it))
  {
    var t', st' := TablesStep(t, it), AssignOne(name, st, it);
    FreshPlain(name, st, items, t, it);
    assert forall v {:trigger st'.vault[v]} :: 0 <= v < |st.vault| ==> st'.vault[v] == st.vault[v];
    assert forall k {:trigger t'.homes[k]} :: 0 <= k < |items| ==> t'.homes[k] == t.homes[k];
    assert t'.homes[|items|] == |t.firsts|;
  }

  lemma {:induction false} AssignLinked(name: Namer, items: seq<Item>)
    ensures Located(items, TablesOf(items)) && Linked(Assign(name, items), items, TablesOf(items))
  {
    if items != [] {
      var front, it := items[..|items| - 1], items[|items| - 1];
      AssignLinked(name, front);
      LocatedStep(front, TablesOf(front), it);
      if it.key in TablesOf(front).entry {
        LinkedKnown(name, Assign(name, front), front, TablesOf(front), it);
      } else {
        LinkedFresh(name, Assign(name, front), front, TablesOf(front), it);
      }
      assert front + [it] == items;
    }
  }

  ghost predicate NumberedOk(name: Namer, st: Assigned) {
    |st.vault| == |st.findings| && Numbered(name, st.vault, st.findings) && Counts(st.counters, st.findings)
  }

  lemma {:induction false} NumberedStep(name: Namer, st: Assigned, it: Item)
    requires NumberedOk(name, st)
    ensures NumberedOk(name, AssignOne(name, st, it))
  {
    if it.key !in st.byKey {
      var n := Counter(st.counters, it.entityType) + 1;
      var e := VaultEntry(name(it.entityType, n), it.surface);
      var f := Finding(it.entityType, e.token, Alnum(it.surface));
      NumberedGrows(name, st.vault, st.findings, e, f);
      CountsGrow(st.counters, st.findings, f);
    }
  }

  lemma {:induction false} AssignNumbered(name: Namer, items: seq<Item>)
    ensures NumberedOk(name, Assign(name, items))
  {
    if items != [] {
      AssignNumbered(name, items[..|items| - 1]);
      NumberedStep(name, Assign(name, items[..|items| - 1]), items[|items| - 1]);
    }
  }

  ghost predicate Injective(name: Namer) {
    forall t, m: nat, u, n: nat {:trigger name(t, m), name(u, n)} :: name(t, m) == name(u, n) ==> t == u && m == n
  }

  /** Distinct entries carry distinct tokens. */
  lemma {:induction false} TokensDistinct(name: Namer, vault: seq<VaultEntry>, findings: seq<Finding>, v: nat, w: nat)
    requires Injective(name) && |vault| == |findings| && Numbered(name, vault, findings) && v < w < |vault|
    ensures vault[v].token != vault[w].token
  {
    assert NumberOf(findings, v) >= 1 && NumberOf(findings, w) >= 1;
    if findings[v].entityType == findings[w].entityType { NumbersDistinct(findings, v, w); }
  }

  lemma {:induction false} LabelsInjective()
    ensures Injective(TokenLabel)
  {
    forall t, m: nat, u, n: nat | TokenLabel(t, m) == TokenLabel(u, n) ensures t == u && m == n { LabelInjective(t, m, u, n); }
  }

  lemma {:induction false} NumbersDistinct(findings: seq<Finding>, v: nat, w: nat)
    requires v < w < |findings| && findings[v].entityType == findings[w].entityType
    ensures NumberOf(findings, v) < NumberOf(findings, w)
  {
    var t := findings[v].entityType;
    CountMonotone(findings, t, v + 1, w);
    assert findings[..v + 1] == findings[..v] + [findings[v]];
    CountAppend(findings[..v], findings[v]);
  }

  lemma {:induction false} TokensByKey(name: Namer, st: Assigned, items: seq<Item>, t: Tables, j: nat, k: nat)
    requires Injective(name) && Located(items, t) && Linked(st, items, t) && NumberedOk(name, st)
    requires j < |items| && k < |items|
    ensures st.tokenFor[j] == st.tokenFor[k] <==> items[j].key == items[k].key
    ensures items[j].key == items[k].key <==> t.homes[j] == t.homes[k]
  {
    var v, w := t.homes[j], t.homes[k];
    assert t.firsts[v] <= j && t.firsts[w] <= k;
    if v < w { TokensDistinct(name, st.vault, st.findings, v, w); }
    if w < v { TokensDistinct(name, st.vault, st.findings, w, v); }
  }

  /** Each finding has the type and the normalized surface of its entry's first span. */
  ghost predicate Described(st: Assigned, items: seq<Item>, firsts: seq<int>) {
    |st.findings| == |firsts| && forall v {:trigger firsts[v]} :: 0 <= v < |firsts| ==>
      0 <= firsts[v] < |items| && st.findings[v].entityType == items[firsts[v]].entityType
      && st.findings[v].normalizedValue == Alnum(items[firsts[v]].surface)
  }

  lemma {:induction false} DescribedStep(name: Namer, st: Assigned, items: seq<Item>, t: Tables, it: Item)
    requires Described(st, items, t.firsts) && |t.homes| == |items| && st.byKey.Keys == t.entry.Keys
    ensures Described(AssignOne(name, st, it), items + [it], TablesStep(t, it).firsts)
  {
    var items', firsts' := items + [it], TablesStep(t, it).firsts;
    assert it.key in st.byKey <==> it.key in t.entry.Keys;
    assert forall v {:trigger firsts'[v]} :: 0 <= v < |t.firsts| ==> firsts'[v] == t.firsts[v] && items'[t.firsts[v]] == items[t.firsts[v]];
    assert items'[|items|] == it;
  }

  lemma {:induction false} AssignDescribed(name: Namer, items: seq<Item>)
    ensures Described(Assign(name, items), items, TablesOf(items).firsts)
  {
    if items != [] {
      var front := items[..|items| - 1];
      AssignDescribed(name, front);
      AssignLinked(name, front);
      DescribedStep(name, Assign(name, front), front, TablesOf(front), items[|items| - 1]);
      assert front + [items[|items| - 1]] == items;
    }
  }

  /** The vault holds, for entry v, the surface of the first span carrying its token; the finding its type and
      normalized surface. */
  ghost predicate FirstSeen(st: Assigned, items: seq<Item>, v: nat)
    requires |st.tokenFor| == |items| && v < |st.vault| == |st.findings|
  {
    exists k :: 0 <= k < |items| && st.tokenFor[k] == st.vault[v].token && items[k].surface == st.vault[v].plaintext
             && st.findings[v].entityType == items[k].entityType && st.findings[v].normalizedValue == Alnum(items[k].surface)
             && forall j :: 0 <= j < k ==> st.tokenFor[j] != st.tokenFor[k]
  }

  lemma {:induction false} FirstSeenHolds(name: Namer, st: Assigned, items: seq<Item>, t: Tables, v: nat)
    requires Injective(name) && Located(items, t) && Linked(st, items, t) && NumberedOk(name, st) && v < |st.vault|
    requires Described(st, items, t.firsts)
    ensures FirstSeen(st, items, v)
  {
    var k := t.firsts[v];
    assert t.homes[k] == v;
    forall j | 0 <= j < k ensures st.tokenFor[j] != st.tokenFor[k] {
      TokensByKey(name, st, items, t, j, k);
      assert t.firsts[t.homes[j]] <= j;
    }
  }

  /** Two spans share a token exactly when they have the same type and normalized surface; the vault
      holds the first-seen surface of each token, and numbering per type is 1..n by first occurrence. */
  lemma {:induction false} TokenizationCorrect(text: string, ds: seq<Detection>)
    requires InRange(ds, |text|)
    ensures var st := Assign(TokenLabel, Items(text, ds));
            && |st.tokenFor| == |ds| && |st.vault| == |st.findings| && Numbered(TokenLabel, st.vault, st.findings)
            && (forall j, k :: 0 <= j < |ds| && 0 <= k < |ds| ==>
                 (st.tokenFor[j] == st.tokenFor[k] <==>
                  ds[j].entityType == ds[k].entityType && Alnum(Surface(text, ds[j])) == Alnum(Surface(text, ds[k]))))
            && (forall v :: 0 <= v < |st.vault| ==> FirstSeen(st, Items(text, ds), v))
  {
    var items := Items(text, ds);
    var st, t := Assign(TokenLabel, items), TablesOf(items);
    LabelsInjective();
    AssignLinked(TokenLabel, items);
    AssignNumbered(TokenLabel, items);
    forall j, k | 0 <= j < |ds| && 0 <= k < |ds|
      ensures st.tokenFor[j] == st.tokenFor[k] <==>
              ds[j].entityType == ds[k].entityType && Alnum(Surface(text, ds[j])) == Alnum(Surface(text, ds[k]))
    {
      TokensByKey(TokenLabel, st, items, t, j, k);
      KeyInjective(text, ds[j], ds[k]);
    }
    AssignDescribed(TokenLabel, items);
    forall v | 0 <= v < |st.vault| ensures FirstSeen(st, items, v) { FirstSeenHolds(TokenLabel, st, items, t, v); }
  }

  lemma {:induction false} TokenNamed(name: Namer, st: Assigned, items: seq<Item>, t: Tables, k: nat) returns (n: nat)
    requires Located(items, t) && Linked(st, items, t) && NumberedOk(name, st) && Described(st, items, t.firsts) && k < |items|
    ensures n >= 1 && 0 <= t.homes[k] < |t.firsts| && 0 <= t.firsts[t.homes[k]] < |items|
    ensures st.tokenFor[k] == name(items[t.firsts[t.homes[k]]].entityType, n) && items[t.firsts[t.homes[k]]].key == items[k].key
  {
    var v := t.homes[k];
    n := NumberOf(st.findings, v);
    assert t.homes[t.firsts[v]] == v;
    assert t.keyOf[t.entry[items[k].key]] == items[k].key && t.keyOf[t.entry[items[t.firsts[v]].key]] == items[t.firsts[v]].key;
  }

  /** A span's token carries the span's own type. */
  lemma {:induction false} TokenHasType(text: string, ds: seq<Detection>, k: nat) returns (n: nat)
    requires InRange(ds, |text|) && k < |ds|
    ensures n >= 1 && Assign(TokenLabel, Items(text, ds)).tokenFor[k] == TokenLabel(ds[k].entityType, n)
  {
    var items := Items(text, ds);
    var t := TablesOf(items);
    AssignLinked(TokenLabel, items);
    AssignNumbered(TokenLabel, items);
    AssignDescribed(TokenLabel, items);
    n := TokenNamed(TokenLabel, Assign(TokenLabel, items), items, t, k);
    KeyInjective(text, ds[k], ds[t.firsts[t.homes[k]]]);
  }
}
