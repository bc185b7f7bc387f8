/** Detections, the token format, and the token-stripping both scanners apply to redacted text. */
module RedactionTypes {
  import opened Chars
  import TextRuns

  datatype EntityType =
    | Name | Location | Organization | Phone | Email | StreetAddress | CrossStreet
    | CreditCard | GovernmentId | Number | DenyList | Other

  function TypeName(t: EntityType): string {
    match t
    case Name => "name"
    case Location => "location"
    case Organization => "organization"
    case Phone => "phone"
    case Email => "email"
    case StreetAddress => "street_address"
    case CrossStreet => "cross_street"
    case CreditCard => "credit_card"
    case GovernmentId => "government_id"
    case Number => "number"
    case DenyList => "deny_list"
    case Other => "other"
  }

  datatype Layer = Ner | Regex | DenyTerm

  datatype Confidence = Unscored | Score(value: real)

  /** A detected span: offsets [start, end) into the original text. */
  datatype Detection = Detection(start: nat, end: nat, entityType: EntityType, detector: Layer, confidence: Confidence) {
    predicate Covers(i: int) { start <= i < end }
  }

  ghost predicate Covered(spans: seq<Detection>, i: int) {
    exists k :: 0 <= k < |spans| && spans[k].Covers(i)
  }

  /** Non-empty and inside a text of length n. */
  predicate InRange(spans: seq<Detection>, n: nat) {
    forall k :: 0 <= k < |spans| ==> spans[k].start < spans[k].end <= n
  }

  /** In order and pairwise disjoint. */
  predicate Ordered(spans: seq<Detection>) {
    forall j, k :: 0 <= j < k < |spans| ==> spans[j].end <= spans[k].start
  }

  // ---------- token labels ----------

  function ToUpper(c: char): char { if IsLower(c) then c - 'a' + 'A' else c }

  function Upper(s: string): (r: string)
    ensures |r| == |s| && forall i :: 0 <= i < |s| ==> r[i] == ToUpper(s[i])
  {
    seq(|s|, i requires 0 <= i < |s| => ToUpper(s[i]))
  }

  function Digit(n: nat): (c: char)
    requires n < 10
    ensures IsDigit(c)
  {
    '0' + n as char
  }

  function Decimal(n: nat): (s: string)
    ensures |s| > 0 && forall i :: 0 <= i < |s| ==> IsDigit(s[i])
  {
    if n < 10 then [Digit(n)] else Decimal(n / 10) + [Digit(n % 10)]
  }

  function Value(s: string): nat
    requires forall i :: 0 <= i < |s| ==> IsDigit(s[i])
  {
    if s == "" then 0 else assert IsDigit(s[|s| - 1]); Value(s[..|s| - 1]) * 10 + (s[|s| - 1] - '0') as int
  }

  lemma {:induction false} DecimalValue(n: nat)
    ensures Value(Decimal(n)) == n
  {
    if n >= 10 {
      DecimalValue(n / 10);
      assert Decimal(n)[..|Decimal(n)| - 1] == Decimal(n / 10);
    } else {
      assert Value("") == 0;
      assert Decimal(n)[..0] == "";
    }
  }

  function TokenLabel(t: EntityType, n: nat): string { "[" + Upper(TypeName(t)) + "_" + Decimal(n) + "]" }

  lemma {:induction false} UpperIs(s: string, u: string)
    requires |s| == |u| && forall i :: 0 <= i < |s| ==> ToUpper(s[i]) == u[i]
    ensures Upper(s) == u
  {}

  /** The labels as they are read in a redacted text. */
  lemma {:induction false} LabelText(n: nat)
    ensures TokenLabel(Name, n) == "[" + "NAME" + "_" + Decimal(n) + "]" && TokenLabel(Phone, n) == "[" + "PHONE" + "_" + Decimal(n) + "]"
    ensures TokenLabel(Email, n) == "[" + "EMAIL" + "_" + Decimal(n) + "]" && TokenLabel(Number, n) == "[" + "NUMBER" + "_" + Decimal(n) + "]"
  {
    UpperIs("name", "NAME");
    UpperIs("phone", "PHONE");
    UpperIs("email", "EMAIL");
    UpperIs("number", "NUMBER");
  }

  lemma {:induction false} PlaceLabelText(n: nat)
    ensures TokenLabel(Location, n) == "[" + "LOCATION" + "_" + Decimal(n) + "]" && TokenLabel(Organization, n) == "[" + "ORGANIZATION" + "_" + Decimal(n) + "]"
    ensures TokenLabel(StreetAddress, n) == "[" + "STREET_ADDRESS" + "_" + Decimal(n) + "]"
    ensures TokenLabel(CrossStreet, n) == "[" + "CROSS_STREET" + "_" + Decimal(n) + "]"
  {
    UpperIs("location", "LOCATION");
    UpperIs("organization", "ORGANIZATION");
    UpperIs("street_address", "STREET_ADDRESS");
    UpperIs("cross_street", "CROSS_STREET");
  }

  lemma {:induction false} OtherLabelText(n: nat)
    ensures TokenLabel(CreditCard, n) == "[" + "CREDIT_CARD" + "_" + Decimal(n) + "]" && TokenLabel(GovernmentId, n) == "[" + "GOVERNMENT_ID" + "_" + Decimal(n) + "]"
    ensures TokenLabel(DenyList, n) == "[" + "DENY_LIST" + "_" + Decimal(n) + "]" && TokenLabel(Other, n) == "[" + "OTHER" + "_" + Decimal(n) + "]"
  {
    UpperIs("credit_card", "CREDIT_CARD");
    UpperIs("government_id", "GOVERNMENT_ID");
    UpperIs("deny_list", "DENY_LIST");
    UpperIs("other", "OTHER");
  }

  // ---------- TOKEN_PATTERN: /\[[A-Z_]+_\d+\]/g ----------

  predicate LabelChar(c: char) { IsUpper(c) || c == '_' }

  predicate TokenBody(b: string) {
    exists k :: 0 < k < |b| - 1 && b[k] == '_'
             && (forall i :: 0 <= i < k ==> LabelChar(b[i])) && (forall i :: k < i < |b| ==> IsDigit(b[i]))
  }

  predicate IsToken(t: string) {
    |t| > 2 && t[0] == '[' && t[|t| - 1] == ']' && TokenBody(t[1..|t| - 1])
  }

  /** Index of the first ']' at or after i, |s| when there is none. */
  function CloseAt(s: string, i: nat): (e: nat)
    requires i <= |s|
    ensures i <= e <= |s| && (e < |s| ==> s[e] == ']') && forall k :: i <= k < e ==> s[k] != ']'
    decreases |s| - i
  {
    if i == |s| || s[i] == ']' then i else CloseAt(s, i + 1)
  }

  /** Length of the token s begins with, 0 when it begins with none. */
  function TokenPrefix(s: string): (n: nat)
    ensures n <= |s| && (n > 0 ==> IsToken(s[..n]))
  {
    var e := CloseAt(s, 0);
    if e < |s| && IsToken(s[..e + 1]) then e + 1 else 0
  }

  ghost predicate HasToken(s: string) { exists i :: 0 <= i < |s| && TokenPrefix(s[i..]) > 0 }

  /** Every token replaced by one space. */
  function Strip(s: string): string
    decreases |s|
  {
    if s == "" then ""
    else
      var n := TokenPrefix(s);
      if n > 0 then " " + Strip(s[n..]) else [s[0]] + Strip(s[1..])
  }

  /** `s` with every token found in the vault replaced by its plaintext. */
  function Restore(s: string, vault: map<string, string>): string
    decreases |s|
  {
    if s == "" then ""
    else
      var n := TokenPrefix(s);
      if n > 0 then (if s[..n] in vault then vault[s[..n]] else s[..n]) + Restore(s[n..], vault)
      else [s[0]] + Restore(s[1..], vault)
  }

  // ---------- facts about tokens ----------

  lemma {:induction false} TypeNameChars(t: EntityType)
    ensures |TypeName(t)| > 0
    ensures forall i :: 0 <= i < |TypeName(t)| ==> IsLower(TypeName(t)[i]) || TypeName(t)[i] == '_'
  {}

  lemma {:induction false} LabelIsToken(t: EntityType, n: nat)
    ensures IsToken(TokenLabel(t, n))
  {
    TypeNameChars(t);
    var tok := TokenLabel(t, n);
    var body := Upper(TypeName(t)) + "_" + Decimal(n);
    assert tok[1..|tok| - 1] == body;
    assert body[|TypeName(t)|] == '_';
  }

  /** A string splits at its last separator in only one way. */
  lemma {:induction false} SplitAtLast(a: string, x: string, b: string, y: string, sep: char)
    requires a + [sep] + x == b + [sep] + y
    requires sep !in x && sep !in y
    ensures a == b && x == y
  {
    var s := a + [sep] + x;
    assert s[|a|] == sep && s[|b|] == sep;
    assert forall i :: |a| < i < |s| ==> s[i] == x[i - |a| - 1];
    assert forall i :: |b| < i < |s| ==> s[i] == y[i - |b| - 1];
    assert |a| == |b|;
    assert s[..|a|] == a && s[..|a|] == b;
    assert s[|a| + 1..] == x && s[|a| + 1..] == y;
  }

  lemma {:induction false} UpperInjective(a: string, b: string)
    requires Upper(a) == Upper(b)
    requires forall i :: 0 <= i < |a| ==> !IsUpper(a[i])
    requires forall i :: 0 <= i < |b| ==> !IsUpper(b[i])
    ensures a == b
  {
    forall i | 0 <= i < |a| ensures a[i] == b[i] { assert Upper(a)[i] == Upper(b)[i]; }
  }

  /** Labels identify the type and the number. */
  lemma {:induction false} LabelInjective(t: EntityType, m: nat, u: EntityType, n: nat)
    requires TokenLabel(t, m) == TokenLabel(u, n)
    ensures t == u && m == n
  {
    UnwrapLabel(Upper(TypeName(t)), Decimal(m), Upper(TypeName(u)), Decimal(n));
    DecimalValue(m);
    DecimalValue(n);
    TypeNameChars(t);
    TypeNameChars(u);
    UpperInjective(TypeName(t), TypeName(u));
    TypeNameInjective(t, u);
  }

  lemma {:induction false} UnwrapLabel(a: string, x: string, b: string, y: string)
    requires "[" + a + "_" + x + "]" == "[" + b + "_" + y + "]"
    requires forall i :: 0 <= i < |x| ==> IsDigit(x[i])
    requires forall i :: 0 <= i < |y| ==> IsDigit(y[i])
    ensures a == b && x == y
  {
    var s := "[" + a + "_" + x + "]";
    assert s[1..|s| - 1] == a + "_" + x && s[1..|s| - 1] == b + "_" + y;
    SplitAtLast(a, x, b, y, '_');
  }

  lemma {:induction false} TypeNameInjective(t: EntityType, u: EntityType)
    requires TypeName(t) == TypeName(u)
    ensures t == u
  {
  }

  lemma {:induction false} TokenInside(t: string, i: nat)
    requires IsToken(t) && 0 < i < |t| - 1
    ensures t[i] != '[' && t[i] != ']'
  {
    assert t[i] == t[1..|t| - 1][i - 1];
  }

  lemma {:induction false} TokenPrefixOfToken(t: string, rest: string)
    requires IsToken(t)
    ensures TokenPrefix(t + rest) == |t|
  {
    var e := CloseAt(t + rest, 0);
    assert (t + rest)[|t| - 1] == ']';
    if e < |t| - 1 {
      assert (t + rest)[e] == t[e];
      if e > 0 { TokenInside(t, e); }
    }
    assert (t + rest)[..|t|] == t;
  }

  /** Text appended at a token boundary cannot complete a token begun before it. */
  lemma {:induction false} TokenPrefixBounded(chunk: string, rest: string)
    requires chunk != "" && (rest == "" || rest[0] == '[')
    ensures TokenPrefix(chunk + rest) == TokenPrefix(chunk)
  {
    var s := chunk + rest;
    var e, f := CloseAt(s, 0), CloseAt(chunk, 0);
    assert forall k :: 0 <= k < |chunk| ==> s[k] == chunk[k];
    if e < |chunk| {
      assert chunk[e] == s[e];
      assert f == e;
      assert s[..e + 1] == chunk[..e + 1];
    } else {
      assert f == |chunk|;
      if rest != "" && e < |s| && IsToken(s[..e + 1]) {
        assert s[..e + 1][|chunk|] == '[';
        TokenInside(s[..e + 1], |chunk|);
      }
    }
  }

  lemma {:induction false} StripStep(s: string)
    requires s != ""
    ensures var n := TokenPrefix(s);
            Strip(s) == (if n > 0 then " " else [s[0]]) + Strip(s[if n > 0 then n else 1..])
  {}

  lemma {:induction false} RestoreStep(s: string, vault: map<string, string>)
    requires s != "" && TokenPrefix(s) == 0
    ensures Restore(s, vault) == [s[0]] + Restore(s[1..], vault)
  {}

  lemma {:induction false} StripSplit(chunk: string, rest: string)
    requires rest == "" || rest[0] == '['
    ensures Strip(chunk + rest) == Strip(chunk) + Strip(rest)
    decreases |chunk|
  {
    if chunk == "" {
      assert chunk + rest == rest;
    } else {
      TokenPrefixBounded(chunk, rest);
      var n := TokenPrefix(chunk);
      var k := if n > 0 then n else 1;
      StripSplit(chunk[k..], rest);
      StripStep(chunk);
      StripStep(chunk + rest);
      TextRuns.DropConcat(chunk, rest, k);
      TextRuns.Assoc(if n > 0 then " " else [chunk[0]], Strip(chunk[k..]), Strip(rest));
    }
  }

  lemma {:induction false} HasTokenStep(s: string)
    requires s != ""
    ensures HasToken(s) <==> TokenPrefix(s) > 0 || HasToken(s[1..])
  {
    assert s[0..] == s;
    if HasToken(s) && TokenPrefix(s) == 0 {
      var i :| 0 <= i < |s| && TokenPrefix(s[i..]) > 0;
      assert s[i..] == s[1..][i - 1..];
    }
    if HasToken(s[1..]) {
      var i :| 0 <= i < |s[1..]| && TokenPrefix(s[1..][i..]) > 0;
      assert s[1..][i..] == s[i + 1..];
    }
  }

  lemma {:induction false} StripLength(s: string)
    ensures |Strip(s)| <= |s|
    ensures !HasToken(s) ==> Strip(s) == s
    ensures HasToken(s) ==> |Strip(s)| < |s|
    decreases |s|
  {
    if s != "" {
      HasTokenStep(s);
      var n := TokenPrefix(s);
      StripLength(s[if n > 0 then n else 1..]);
    }
  }

  lemma {:induction false} SubstringHasNoToken(s: string, i: nat, j: nat)
    requires i <= j <= |s| && !HasToken(s)
    ensures !HasToken(s[i..j])
  {
    forall k | 0 <= k < |s[i..j]| ensures TokenPrefix(s[i..j][k..]) == 0 {
      var n := TokenPrefix(s[i..j][k..]);
      if n > 0 {
        assert s[i..j][k..][..n] == s[i + k..i + k + n];
        assert s[i + k..] == s[i + k..i + k + n] + s[i + k + n..];
        TokenPrefixOfToken(s[i + k..i + k + n], s[i + k + n..]);
      }
    }
  }

  lemma {:induction false} RestoreChunk(chunk: string, rest: string, vault: map<string, string>)
    requires (rest == "" || rest[0] == '[') && !HasToken(chunk)
    ensures Restore(chunk + rest, vault) == chunk + Restore(rest, vault)
    decreases |chunk|
  {
    if chunk == "" {
      assert chunk + rest == rest;
    } else {
      TokenPrefixBounded(chunk, rest);
      HasTokenStep(chunk);
      RestoreStep(chunk + rest, vault);
      TextRuns.DropConcat(chunk, rest, 1);
      RestoreChunk(chunk[1..], rest, vault);
      TextRuns.Assoc([chunk[0]], chunk[1..], Restore(rest, vault));
      assert [chunk[0]] + chunk[1..] == chunk;
    }
  }
}
