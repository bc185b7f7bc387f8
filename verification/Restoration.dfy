/** Reading a redacted text back through the vault. */
module Restoration {
  import opened RedactionTypes
  import opened Tokenize
  import opened EffectiveText
  import opened TextRuns
  import Repair

  function VaultMap(vault: seq<VaultEntry>): map<string, string> {
    if vault == [] then map[] else VaultMap(vault[..|vault| - 1])[vault[|vault| - 1].token := vault[|vault| - 1].plaintext]
  }

  /** Every span's token is in the vault with a plaintext that normalizes like the span's own text. */
  ghost predicate Restorable(text: string, ds: seq<Detection>, tokens: seq<string>, vault: map<string, string>)
    requires InRange(ds, |text|) && |tokens| == |ds|
  {
    forall k {:trigger tokens[k]} :: 0 <= k < |ds| ==>
      IsToken(tokens[k]) && tokens[k] in vault && Alnum(vault[tokens[k]]) == Alnum(Surface(text, ds[k]))
  }

  lemma {:induction false} AlnumOfThree(a: string, b: string, c: string)
    ensures Alnum(a + (b + c)) == Alnum(a) + (Alnum(b) + Alnum(c))
  {
    AlnumConcat(a, b + c);
    AlnumConcat(b, c);
  }

  lemma {:induction false} AlnumOfCut(s: string, i: nat, j: nat, k: nat)
    requires i <= j <= k <= |s|
    ensures Alnum(s[i..]) == Alnum(s[i..j]) + (Alnum(s[j..k]) + Alnum(s[k..]))
  {
    assert s[i..] == s[i..j] + (s[j..k] + s[k..]);
    AlnumOfThree(s[i..j], s[j..k], s[k..]);
  }

  lemma {:induction false} RestoreToken(tok: string, rest: string, vault: map<string, string>)
    requires IsToken(tok) && tok in vault
    ensures Restore(tok + rest, vault) == vault[tok] + Restore(rest, vault)
  {
    TokenPrefixOfToken(tok, rest);
    assert (tok + rest)[..|tok|] == tok && (tok + rest)[|tok|..] == rest;
  }

  /** One gap and the token after it. */
  lemma {:induction false} RestoreGap(chunk: string, tok: string, rest: string, vault: map<string, string>)
    requires IsToken(tok) && tok in vault && !HasToken(chunk)
    ensures Restore(chunk + tok + rest, vault) == chunk + (vault[tok] + Restore(rest, vault))
  {
    Assoc(chunk, tok, rest);
    assert (tok + rest)[0] == tok[0];
    RestoreChunk(chunk, tok + rest, vault);
    RestoreToken(tok, rest, vault);
  }

  lemma {:induction false} RestoreNormalizes(text: string, ds: seq<Detection>, tokens: seq<string>, vault: map<string, string>, pos: nat)
    requires InRange(ds, |text|) && Ordered(ds) && pos <= |text| && (ds != [] ==> pos <= ds[0].start)
    requires |tokens| == |ds| && Restorable(text, ds, tokens, vault) && GapsClean(text, ds, pos)
    ensures Alnum(Restore(Redacted(text, ds, tokens, pos), vault)) == Alnum(text[pos..])
    decreases |ds|
  {
    if ds == [] {
      RestoreChunk(text[pos..], "", vault);
      assert text[pos..] + "" == text[pos..];
    } else {
      var d, tok := ds[0], tokens[0];
      var chunk, rest := text[pos..d.start], Redacted(text, ds[1..], tokens[1..], d.end);
      RestoreGap(chunk, tok, rest, vault);
      TailRestorable(text, ds, tokens, vault);
      RestoreNormalizes(text, ds[1..], tokens[1..], vault, d.end);
      AlnumOfThree(chunk, vault[tok], Restore(rest, vault));
      AlnumOfCut(text, pos, d.start, d.end);
    }
  }

  lemma {:induction false} TailRestorable(text: string, ds: seq<Detection>, tokens: seq<string>, vault: map<string, string>)
    requires InRange(ds, |text|) && |tokens| == |ds| > 0 && Restorable(text, ds, tokens, vault)
    ensures Restorable(text, ds[1..], tokens[1..], vault)
  {
    var tail := tokens[1..];
    assert forall k {:trigger tail[k]} :: 0 <= k < |tail| ==> tail[k] == tokens[k + 1];
  }

  lemma {:induction false} VaultMapHolds(vault: seq<VaultEntry>, v: nat)
    requires v < |vault| && forall w :: v < w < |vault| ==> vault[w].token != vault[v].token
    ensures vault[v].token in VaultMap(vault) && VaultMap(vault)[vault[v].token] == vault[v].plaintext
  {
    if v < |vault| - 1 { VaultMapHolds(vault[..|vault| - 1], v); }
  }

  lemma {:induction false} VaultHoldsSurface(st: Assigned, items: seq<Item>, t: Tables, k: nat) returns (f: nat)
    requires Injective(TokenLabel) && Located(items, t) && Linked(st, items, t) && NumberedOk(TokenLabel, st) && k < |items|
    ensures f < |items| && items[f].key == items[k].key
    ensures st.tokenFor[k] in VaultMap(st.vault) && VaultMap(st.vault)[st.tokenFor[k]] == items[f].surface
  {
    var v := t.homes[k];
    f := t.firsts[v];
    assert t.homes[f] == v;
    assert t.entry[items[k].key] == v && t.entry[items[f].key] == v;
    forall w | v < w < |st.vault| ensures st.vault[w].token != st.vault[v].token {
      TokensDistinct(TokenLabel, st.vault, st.findings, v, w);
    }
    VaultMapHolds(st.vault, v);
  }

  lemma {:induction false} TokensRestorable(text: string, spans: seq<Detection>)
    requires InRange(spans, |text|)
    ensures var st := Assign(TokenLabel, Items(text, spans)); Restorable(text, spans, st.tokenFor, VaultMap(st.vault))
  {
    var items := Items(text, spans);
    var st, tables := Assign(TokenLabel, items), TablesOf(items);
    Repair.AssignedAreTokens(items);
    LabelsInjective();
    AssignLinked(TokenLabel, items);
    AssignNumbered(TokenLabel, items);
    forall k | 0 <= k < |spans|
      ensures st.tokenFor[k] in VaultMap(st.vault) && Alnum(VaultMap(st.vault)[st.tokenFor[k]]) == Alnum(Surface(text, spans[k]))
    {
      var f := VaultHoldsSurface(st, items, tables, k);
      KeyInjective(text, spans[k], spans[f]);
    }
  }

  /** Substituting each token's vaulted first-seen plaintext back gives a text that normalizes to the original. */
  lemma {:induction false} VaultRestoresText(text: string, spans: seq<Detection>)
    requires InRange(spans, |text|) && Ordered(spans) && !HasToken(text)
    ensures var t := TokenizeOrdered(text, spans); Alnum(Restore(t.redactedText, VaultMap(t.vault))) == Alnum(text)
  {
    var st := Assign(TokenLabel, Items(text, spans));
    TokensRestorable(text, spans);
    NoTokenNoGap(text, spans, 0);
    RestoreNormalizes(text, spans, st.tokenFor, VaultMap(st.vault), 0);
    assert text[0..] == text;
  }
}
