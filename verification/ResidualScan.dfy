/** The independent auditor: rescans the redacted output and reports categories and counts. */
module ResidualScan {
  import opened Chars
  import opened Regex
  import opened TextRuns
  import opened Patterns
  import RedactionTypes

  datatype Category =
    | VaultValueReintroduced | DigitRun | SpelledOutDigits | EmailShape | AddressLike | NameAfterGreeting | DenyListTerm

  const CATEGORIES := [VaultValueReintroduced, DigitRun, SpelledOutDigits, EmailShape, AddressLike, NameAfterGreeting, DenyListTerm]

  /** Categories and counts only, never values or offsets. */
  datatype ScanResult = ScanResult(counts: map<Category, nat>, hits: seq<Category>)

  const REINTRO_MIN_CHARS := 3
  const REINTRO_CONCAT_MIN_CHARS := 8

  predicate ContainsSequence(hay: seq<string>, needle: seq<string>) {
    needle != [] && exists i :: 0 <= i <= |hay| && SequenceAt(hay, needle, i)
  }

  method ContainsWordSequence(hay: seq<string>, needle: seq<string>) returns (found: bool)
    ensures found <==> ContainsSequence(hay, needle)
  {
    if |needle| == 0 { return false; }
    var i := 0;
    while i + |needle| <= |hay|
      invariant 0 <= i
      invariant forall k: nat :: k < i ==> !SequenceAt(hay, needle, k)
      decreases |hay| - i
    {
      var same := true;
      var j := 0;
      while j < |needle| && same
        invariant 0 <= j <= |needle|
        invariant same ==> forall k :: 0 <= k < j ==> hay[i + k] == needle[k]
        invariant !same ==> !SequenceAt(hay, needle, i)
      {
        if hay[i + j] != needle[j] { same := false; }
        j := j + 1;
      }
      if same {
        assert SequenceAt(hay, needle, i);
        return true;
      }
      i := i + 1;
    }
    return false;
  }

  /** Does a vaulted plaintext reappear? Long values on the collapsed text, short ones on word boundaries. */
  predicate Reintroduced(plaintext: string, concatText: string, hayTokens: seq<string>) {
    var alnum := Alnum(plaintext);
    if |alnum| < REINTRO_MIN_CHARS then false
    else if |alnum| >= REINTRO_CONCAT_MIN_CHARS then Includes(concatText, alnum)
    else ContainsSequence(hayTokens, WordTokens(plaintext))
  }

  /** `isVaultValueReintroduced`, over a redacted text. */
  predicate VaultValueLeaks(plaintext: string, redactedText: string) {
    var text := RedactionTypes.Strip(redactedText);
    Reintroduced(plaintext, Alnum(text), WordTokens(text))
  }

  const DIGIT_WORDS: map<string, nat> :=
    map["zero" := 1, "oh" := 1, "one" := 1, "two" := 1, "three" := 1, "four" := 1, "five" := 1,
        "six" := 1, "seven" := 1, "eight" := 1, "nine" := 1, "double" := 0, "triple" := 0]
  const DIGIT_WORD_MULTIPLIER: map<string, nat> := map["double" := 2, "triple" := 3]
  const SPELLED_DIGITS_MIN := 7

  function Bump(run: nat): nat { if run >= SPELLED_DIGITS_MIN then 1 else 0 }

  /** The number of runs of at least seven spoken digits. */
  function SpelledRuns(words: seq<string>, run: nat, pending: nat): nat {
    if words == [] then Bump(run)
    else if words[0] in DIGIT_WORD_MULTIPLIER then SpelledRuns(words[1..], run, DIGIT_WORD_MULTIPLIER[words[0]])
    else if words[0] in DIGIT_WORDS then SpelledRuns(words[1..], run + pending, 1)
    else Bump(run) + SpelledRuns(words[1..], 0, 1)
  }

  method SpelledOutDigitRuns(words: seq<string>) returns (runs: nat)
    ensures runs == SpelledRuns(words, 0, 1)
  {
    runs := 0;
    var run: nat, pendingMultiplier: nat := 0, 1;
    for i := 0 to |words|
      invariant runs + SpelledRuns(words[i..], run, pendingMultiplier) == SpelledRuns(words, 0, 1)
    {
      assert words[i..][1..] == words[i + 1..] && words[i..][0] == words[i];
      if words[i] in DIGIT_WORD_MULTIPLIER {
        pendingMultiplier := DIGIT_WORD_MULTIPLIER[words[i]];
      } else if words[i] in DIGIT_WORDS {
        run, pendingMultiplier := run + pendingMultiplier, 1;
      } else {
        runs := runs + Bump(run);
        run, pendingMultiplier := 0, 1;
      }
    }
    runs := runs + Bump(run);
  }

  /** The number of runs of at least seven characters. */
  function CountLong(runs: seq<Span>): nat {
    if runs == [] then 0
    else
      var r := runs[|runs| - 1];
      CountLong(runs[..|runs| - 1]) + if r.end >= r.start + 7 then 1 else 0
  }

  /** A digit within ADDRESS_WINDOW_CHARS of the keyword. */
  predicate DigitNear(text: string, keyword: Span)
    requires keyword.start <= keyword.end <= |text|
  {
    var from := if keyword.start < ADDRESS_WINDOW_CHARS then 0 else keyword.start - ADDRESS_WINDOW_CHARS;
    var to := if keyword.end + ADDRESS_WINDOW_CHARS > |text| then |text| else keyword.end + ADDRESS_WINDOW_CHARS;
    exists i :: from <= i < to && IsDigit(text[i])
  }

  function CountNear(text: string, keywords: seq<Span>): nat
    requires forall k :: k in keywords ==> k.start <= k.end <= |text|
  {
    if keywords == [] then 0
    else CountNear(text, keywords[..|keywords| - 1]) + if DigitNear(text, keywords[|keywords| - 1]) then 1 else 0
  }

  function CountVault(plaintexts: seq<string>, concatText: string, tokens: seq<string>): nat {
    if plaintexts == [] then 0
    else
      var last := if Reintroduced(plaintexts[|plaintexts| - 1], concatText, tokens) then 1 else 0;
      CountVault(plaintexts[..|plaintexts| - 1], concatText, tokens) + last
  }

  predicate DenyHit(term: string, normalized: string) { |Alnum(term)| >= 3 && Includes(normalized, Alnum(term)) }

  function CountDeny(terms: seq<string>, normalized: string): nat {
    if terms == [] then 0
    else CountDeny(terms[..|terms| - 1], normalized) + if DenyHit(terms[|terms| - 1], normalized) then 1 else 0
  }

  /** `add`: a zero count leaves no entry. */
  function Add(counts: map<Category, nat>, c: Category, n: nat): map<Category, nat> {
    if n > 0 then counts[c := (if c in counts then counts[c] else 0) + n] else counts
  }

  function Repeat(c: Category, n: nat): (r: seq<Category>)
    ensures |r| == n
  {
    if n == 0 then [] else Repeat(c, n - 1) + [c]
  }

  function Flatten(counts: map<Category, nat>, order: seq<Category>): seq<Category> {
    if order == [] then []
    else (if order[0] in counts then Repeat(order[0], counts[order[0]]) else []) + Flatten(counts, order[1..])
  }

  /** The counts of the sub-scans, entered in the source's order. */
  function Tally(vault: nat, digits: nat, spelled: nat, atSign: nat, spoken: nat, address: nat, names: nat, deny: nat): map<Category, nat> {
    var c1 := Add(map[], VaultValueReintroduced, vault);
    var c2 := Add(c1, DigitRun, digits);
    var c3 := Add(c2, SpelledOutDigits, spelled);
    var c4 := Add(c3, EmailShape, atSign);
    var c5 := Add(c4, EmailShape, spoken);
    var c6 := Add(c5, AddressLike, address);
    var c7 := Add(c6, NameAfterGreeting, names);
    Add(c7, DenyListTerm, deny)
  }

  function CountSpelled(text: string): nat { SpelledRuns(NonEmpty(SplitOn(Lower(text), LOWERS, 0)), 0, 1) }

  function CountNames(text: string): nat {
    |FindAll(Cat(STRONG_CUE, STRONG_NAME), text, 0)| + |FindAll(Cat(WEAK_CUE, WEAK_NAME), text, 0)|
  }

  /** The sub-scans over the token-stripped text. */
  function CountsOf(text: string, plaintexts: seq<string>, denyTerms: seq<string>): map<Category, nat> {
    var normalized := Alnum(text);
    Tally(CountVault(plaintexts, normalized, WordTokens(text)), CountLong(Runs(normalized, DIGITS, 0)), CountSpelled(text),
          |FindAll(EMAIL_AT_SIGN, text, 0)|, |FindAll(EMAIL_SPOKEN, text, 0)|,
          CountNear(text, FindAll(ADDRESS_KEYWORD, text, 0)), CountNames(text), CountDeny(denyTerms, normalized))
  }

  function Scan(redactedText: string, plaintexts: seq<string>, denyTerms: seq<string>): ScanResult {
    var counts := CountsOf(RedactionTypes.Strip(redactedText), plaintexts, denyTerms);
    ScanResult(counts, Flatten(counts, CATEGORIES))
  }

  /** Nothing any sub-scan looks for is in the stripped text. */
  ghost predicate Clean(text: string, plaintexts: seq<string>, denyTerms: seq<string>) {
    && (forall p :: p in plaintexts ==> !Reintroduced(p, Alnum(text), WordTokens(text)))
    && CountLong(Runs(Alnum(text), DIGITS, 0)) == 0
    && CountSpelled(text) == 0
    && |FindAll(EMAIL_AT_SIGN, text, 0)| == 0 && |FindAll(EMAIL_SPOKEN, text, 0)| == 0
    && CountNear(text, FindAll(ADDRESS_KEYWORD, text, 0)) == 0
    && CountNames(text) == 0
    && (forall t :: t in denyTerms ==> !DenyHit(t, Alnum(text)))
  }

  lemma {:induction false} CountVaultZero(ps: seq<string>, concatText: string, tokens: seq<string>)
    ensures CountVault(ps, concatText, tokens) == 0 <==> forall p :: p in ps ==> !Reintroduced(p, concatText, tokens)
  {
    if ps != [] {
      CountVaultZero(ps[..|ps| - 1], concatText, tokens);
      assert ps == ps[..|ps| - 1] + [ps[|ps| - 1]];
    }
  }

  lemma {:induction false} CountDenyZero(terms: seq<string>, normalized: string)
    ensures CountDeny(terms, normalized) == 0 <==> forall t :: t in terms ==> !DenyHit(t, normalized)
  {
    if terms != [] {
      CountDenyZero(terms[..|terms| - 1], normalized);
      assert terms == terms[..|terms| - 1] + [terms[|terms| - 1]];
    }
  }

  /** Every entry of the counts is one of the categories, with a positive count. */
  ghost predicate Positive(counts: map<Category, nat>) {
    forall c {:trigger counts[c]} :: c in counts ==> counts[c] > 0
  }

  lemma {:induction false} FlattenEmpty(counts: map<Category, nat>, order: seq<Category>)
    requires Positive(counts)
    ensures Flatten(counts, order) == [] <==> forall c :: c in order ==> c !in counts
  {
    if order != [] {
      FlattenEmpty(counts, order[1..]);
      assert order == [order[0]] + order[1..];
      if order[0] in counts { assert counts[order[0]] > 0; }
    }
  }

  lemma {:induction false} EveryCategoryListed(c: Category)
    ensures c in CATEGORIES
  {
    match c
    case VaultValueReintroduced => assert CATEGORIES[0] == c;
    case DigitRun => assert CATEGORIES[1] == c;
    case SpelledOutDigits => assert CATEGORIES[2] == c;
    case EmailShape => assert CATEGORIES[3] == c;
    case AddressLike => assert CATEGORIES[4] == c;
    case NameAfterGreeting => assert CATEGORIES[5] == c;
    case DenyListTerm => assert CATEGORIES[6] == c;
  }

  lemma {:induction false} AddKeeps(counts: map<Category, nat>, c: Category, n: nat)
    requires Positive(counts)
    ensures Positive(Add(counts, c, n))
    ensures Add(counts, c, n) == map[] <==> counts == map[] && n == 0
  {
    if n > 0 { assert c in Add(counts, c, n); }
  }

  /** The scan reports no hit exactly when every sub-scan comes up empty. */
  lemma {:induction false} NoHitsIffClean(redactedText: string, plaintexts: seq<string>, denyTerms: seq<string>)
    ensures Scan(redactedText, plaintexts, denyTerms).hits == []
       <==> Clean(RedactionTypes.Strip(redactedText), plaintexts, denyTerms)
  {
    var text := RedactionTypes.Strip(redactedText);
    var counts := CountsOf(text, plaintexts, denyTerms);
    CountsEmpty(text, plaintexts, denyTerms);
    FlattenEmpty(counts, CATEGORIES);
    forall c | c in counts ensures c in CATEGORIES { EveryCategoryListed(c); }
    if counts != map[] { var c :| c in counts; EveryCategoryListed(c); }
  }

  lemma {:induction false} CountsEmpty(text: string, plaintexts: seq<string>, denyTerms: seq<string>)
    ensures Positive(CountsOf(text, plaintexts, denyTerms))
    ensures CountsOf(text, plaintexts, denyTerms) == map[] <==> Clean(text, plaintexts, denyTerms)
  {
    var normalized := Alnum(text);
    CountVaultZero(plaintexts, normalized, WordTokens(text));
    CountDenyZero(denyTerms, normalized);
    TallyEmpty(CountVault(plaintexts, normalized, WordTokens(text)), CountLong(Runs(normalized, DIGITS, 0)), CountSpelled(text),
               |FindAll(EMAIL_AT_SIGN, text, 0)|, |FindAll(EMAIL_SPOKEN, text, 0)|,
               CountNear(text, FindAll(ADDRESS_KEYWORD, text, 0)), CountNames(text), CountDeny(denyTerms, normalized));
  }

  lemma {:induction false} TallyEmpty(a: nat, b: nat, c: nat, d: nat, e: nat, f: nat, g: nat, h: nat)
    ensures Positive(Tally(a, b, c, d, e, f, g, h))
    ensures Tally(a, b, c, d, e, f, g, h) == map[] <==> a == b == c == d == e == f == g == h == 0
  {
    var c1 := Add(map[], VaultValueReintroduced, a);
    var c2 := Add(c1, DigitRun, b);
    var c3 := Add(c2, SpelledOutDigits, c);
    var c4 := Add(c3, EmailShape, d);
    var c5 := Add(c4, EmailShape, e);
    var c6 := Add(c5, AddressLike, f);
    var c7 := Add(c6, NameAfterGreeting, g);
    AddKeeps(map[], VaultValueReintroduced, a);
    AddKeeps(c1, DigitRun, b);
    AddKeeps(c2, SpelledOutDigits, c);
    AddKeeps(c3, EmailShape, d);
    AddKeeps(c4, EmailShape, e);
    AddKeeps(c5, AddressLike, f);
    AddKeeps(c6, NameAfterGreeting, g);
    AddKeeps(c7, DenyListTerm, h);
  }

  // ---------- what the counts are ----------

  /** How often the scan must report a category. */
  ghost function Due(c: Category, text: string, plaintexts: seq<string>, denyTerms: seq<string>): nat {
    match c
    case VaultValueReintroduced => |Chosen((k: int) => 0 <= k < |plaintexts| && Reintroduced(plaintexts[k], Alnum(text), WordTokens(text)), |plaintexts|)|
    case DigitRun => CountLong(Runs(Alnum(text), DIGITS, 0))
    case SpelledOutDigits => CountSpelled(text)
    case EmailShape => |FindAll(EMAIL_AT_SIGN, text, 0)| + |FindAll(EMAIL_SPOKEN, text, 0)|
    case AddressLike => CountNear(text, FindAll(ADDRESS_KEYWORD, text, 0))
    case NameAfterGreeting => CountNames(text)
    case DenyListTerm => |Chosen((k: int) => 0 <= k < |denyTerms| && DenyHit(denyTerms[k], Alnum(text)), |denyTerms|)|
  }

  /** The places below n that satisfy p. */
  ghost function Chosen(p: int -> bool, n: nat): set<int> { set k | 0 <= k < n && p(k) }

  lemma {:induction false} ChosenNext(p: int -> bool, n: nat)
    ensures |Chosen(p, n + 1)| == |Chosen(p, n)| + if p(n) then 1 else 0
  {
    assert Chosen(p, n + 1) == Chosen(p, n) + if p(n) then {n} else {};
  }

  lemma {:induction false} CountVaultIs(ps: seq<string>, n: nat, concatText: string, tokens: seq<string>, p: int -> bool)
    requires n <= |ps| && forall k :: 0 <= k < |ps| ==> (p(k) <==> Reintroduced(ps[k], concatText, tokens))
    ensures CountVault(ps[..n], concatText, tokens) == |Chosen(p, n)|
  {
    if n > 0 {
      CountVaultIs(ps, n - 1, concatText, tokens, p);
      ChosenNext(p, n - 1);
      assert ps[..n][..n - 1] == ps[..n - 1];
    }
  }

  lemma {:induction false} CountDenyIs(terms: seq<string>, n: nat, normalized: string, p: int -> bool)
    requires n <= |terms| && forall k :: 0 <= k < |terms| ==> (p(k) <==> DenyHit(terms[k], normalized))
    ensures CountDeny(terms[..n], normalized) == |Chosen(p, n)|
  {
    if n > 0 {
      CountDenyIs(terms, n - 1, normalized, p);
      ChosenNext(p, n - 1);
      assert terms[..n][..n - 1] == terms[..n - 1];
    }
  }

  /** An entry for the count n, none for zero. */
  ghost predicate Entered(counts: map<Category, nat>, c: Category, n: nat) { if n > 0 then c in counts && counts[c] == n else c !in counts }

  lemma {:induction false} TallyIs(vault: nat, digits: nat, spelled: nat, atSign: nat, spoken: nat, address: nat, names: nat, deny: nat)
    ensures var t := Tally(vault, digits, spelled, atSign, spoken, address, names, deny);
      && Entered(t, VaultValueReintroduced, vault) && Entered(t, DigitRun, digits) && Entered(t, SpelledOutDigits, spelled)
      && Entered(t, EmailShape, atSign + spoken) && Entered(t, AddressLike, address) && Entered(t, NameAfterGreeting, names) && Entered(t, DenyListTerm, deny)
  {}

  /** Each category is counted exactly as often as it is due, and is left out when it is not. */
  lemma {:induction false} CountsAre(text: string, plaintexts: seq<string>, denyTerms: seq<string>, c: Category)
    ensures Entered(CountsOf(text, plaintexts, denyTerms), c, Due(c, text, plaintexts, denyTerms))
  {
    var normalized := Alnum(text);
    CountVaultIs(plaintexts, |plaintexts|, normalized, WordTokens(text), (k: int) => 0 <= k < |plaintexts| && Reintroduced(plaintexts[k], Alnum(text), WordTokens(text)));
    CountDenyIs(denyTerms, |denyTerms|, normalized, (k: int) => 0 <= k < |denyTerms| && DenyHit(denyTerms[k], Alnum(text)));
    assert plaintexts[..|plaintexts|] == plaintexts && denyTerms[..|denyTerms|] == denyTerms;
    TallyIs(CountVault(plaintexts, normalized, WordTokens(text)), CountLong(Runs(normalized, DIGITS, 0)), CountSpelled(text),
            |FindAll(EMAIL_AT_SIGN, text, 0)|, |FindAll(EMAIL_SPOKEN, text, 0)|,
            CountNear(text, FindAll(ADDRESS_KEYWORD, text, 0)), CountNames(text), CountDeny(denyTerms, normalized));
  }

  lemma {:induction false} RepeatCount(c: Category, n: nat, d: Category)
    ensures multiset(Repeat(c, n))[d] == if c == d then n else 0
  {
    if n > 0 { RepeatCount(c, n - 1, d); }
  }

  lemma {:induction false} FlattenCount(counts: map<Category, nat>, order: seq<Category>, d: Category)
    requires forall i, j :: 0 <= i < j < |order| ==> order[i] != order[j]
    ensures multiset(Flatten(counts, order))[d] == if d in order && d in counts then counts[d] else 0
  {
    if order != [] {
      FlattenCount(counts, order[1..], d);
      if order[0] in counts { RepeatCount(order[0], counts[order[0]], d); }
      assert order == [order[0]] + order[1..];
    }
  }

  /** The hits hold each category exactly as often as it is due. */
  lemma {:induction false} HitsAre(redactedText: string, plaintexts: seq<string>, denyTerms: seq<string>, c: Category)
    ensures multiset(Scan(redactedText, plaintexts, denyTerms).hits)[c] == Due(c, RedactionTypes.Strip(redactedText), plaintexts, denyTerms)
  {
    var text := RedactionTypes.Strip(redactedText);
    CountsAre(text, plaintexts, denyTerms, c);
    HitsFrom(CountsOf(text, plaintexts, denyTerms), c, Due(c, text, plaintexts, denyTerms));
  }

  lemma {:induction false} HitsFrom(counts: map<Category, nat>, c: Category, due: nat)
    requires Entered(counts, c, due)
    ensures multiset(Flatten(counts, CATEGORIES))[c] == due
  {
    FlattenCount(counts, CATEGORIES, c);
    EveryCategoryListed(c);
  }
}
