/** Making the codes of a batch: the bounds of a request (internal/httpapi/admin.go), the drawing of
    distinct codes (internal/batch/batch.go) and the bulk copy (internal/store/copyfrom.go). */
module CodeGeneration {
  import opened Base
  import opened CodeText
  import opened CodeList
  import opened RedeemSpec

  // ----- Bounds of a request -----

  /** A request for a batch; the two flags say what the check of the webhook address and the JSON
      decoder make of the texts they are given. */
  datatype BatchForm = BatchForm(
    name: string, description: string, prefix: string, codeLength: int, count: int,
    maxUsesPerCode: int, maxRedeemsPerUser: int, webhookUrl: string, urlIsPublic: bool, secret: string,
    assign: bool, plan: string, payload: string, payloadIsJson: bool)

  datatype FormError =
    | NoName | LongName | LongDescription | BadLength | BadCount | BadUses | BadRedeems
    | LongPrefix | BadPrefix | LongUrl | BadUrl | LongSecret | BadPlan | LongPlan | BadPayload

  predicate IsControl(c: char) { c < ' ' || '\U{7F}' <= c <= '\U{9F}' }

  /** normalizeCredentialPlanType accepts the plan. */
  predicate IsPlan(plan: string) {
    1 <= |TrimSpace(plan)| <= 100 && forall i :: 0 <= i < |TrimSpace(plan)| ==> !IsControl(TrimSpace(plan)[i])
  }

  /** What shapes the codes and their counters. */
  predicate InBounds(f: BatchForm) {
    && 8 <= f.codeLength <= 20
    && 1 <= f.count <= 10000
    && 1 <= f.maxUsesPerCode <= 100000
    && 1 <= f.maxRedeemsPerUser <= 100000
    && |f.prefix| <= 8
    && IsClean(f.prefix)
  }

  lemma {:induction false} CleanLength(s: string)
    requires IsClean(s)
    ensures Utf8Length(s) == |s|
  {
    if s != "" {
      CleanLength(s[1..]);
    }
  }

  method IsAsciiAlphanumeric(value: string) returns (r: bool)
    ensures r <==> IsClean(value)
  {
    for i := 0 to |value|
      invariant forall j :: 0 <= j < i ==> IsCodeChar(value[j])
    {
      var c := value[i];
      if (c < 'A' || c > 'Z') && (c < '0' || c > '9') {
        return false;
      }
    }
    return true;
  }

  method IsPlanType(plan: string) returns (ok: bool)
    ensures ok <==> IsPlan(plan)
    ensures ok <==>
              var value := TrimSpace(plan);
              && 1 <= |value| <= 100
              && forall i :: 0 <= i < |value| ==> value[i] >= ' ' && !('\U{7F}' <= value[i] <= '\U{9F}')
  {
    var value := TrimSpace(plan);
    if |value| < 1 || |value| > 100 {
      return false;
    }
    for i := 0 to |value|
      invariant forall j :: 0 <= j < i ==> !IsControl(value[j])
    {
      if IsControl(value[i]) {
        return false;
      }
    }
    return true;
  }

  function AppendIf(errs: seq<FormError>, bad: bool, e: FormError): (errs': seq<FormError>)
    ensures errs' == [] <==> errs == [] && !bad
  {
    if bad then errs + [e] else errs
  }

  /** validateCreateBatch: no error exactly when everything is in bounds. */
  method ValidateCreateBatch(f: BatchForm) returns (errs: seq<FormError>)
    ensures errs == [] <==>
              && TrimSpace(f.name) != "" && |f.name| <= 200 && |f.description| <= 1000
              && 8 <= f.codeLength <= 20 && 1 <= f.count <= 10000
              && 1 <= f.maxUsesPerCode <= 100000 && 1 <= f.maxRedeemsPerUser <= 100000
              && |f.prefix| <= 8
              && (forall i :: 0 <= i < |f.prefix| ==> 'A' <= f.prefix[i] <= 'Z' || '0' <= f.prefix[i] <= '9')
              && (f.webhookUrl != "" ==> Utf8Length(f.webhookUrl) <= 2000 && f.urlIsPublic)
              && Utf8Length(f.secret) <= 512
              && (if f.assign then IsPlan(f.plan) else |f.plan| <= 100)
              && (f.payload != "" ==> f.payloadIsJson)
    ensures errs == [] ==> InBounds(f)
  {
    var plain := IsAsciiAlphanumeric(f.prefix);
    var known := IsPlanType(f.plan);
    errs := AppendIf([], TrimSpace(f.name) == "", NoName);
    errs := AppendIf(errs, |f.name| > 200, LongName);
    errs := AppendIf(errs, |f.description| > 1000, LongDescription);
    errs := AppendIf(errs, f.codeLength < 8 || f.codeLength > 20, BadLength);
    errs := AppendIf(errs, f.count < 1 || f.count > 10000, BadCount);
    errs := AppendIf(errs, f.maxUsesPerCode < 1 || f.maxUsesPerCode > 100000, BadUses);
    errs := AppendIf(errs, f.maxRedeemsPerUser < 1 || f.maxRedeemsPerUser > 100000, BadRedeems);
    errs := AppendIf(errs, Utf8Length(f.prefix) > 8, LongPrefix);
    errs := AppendIf(errs, f.prefix != "" && !plain, BadPrefix);
    if f.webhookUrl != "" {
      if Utf8Length(f.webhookUrl) > 2000 {
        errs := errs + [LongUrl];
      } else if !f.urlIsPublic {
        errs := errs + [BadUrl];
      }
    }
    errs := AppendIf(errs, Utf8Length(f.secret) > 512, LongSecret);
    if f.assign {
      errs := AppendIf(errs, !known, BadPlan);
    } else {
      errs := AppendIf(errs, |f.plan| > 100, LongPlan);
    }
    errs := AppendIf(errs, f.payload != "" && !f.payloadIsJson, BadPayload);
    if plain {
      CleanLength(f.prefix);
    }
  }

  // ----- Drawing -----

  const ALPHABET: string := "ABCDEFGHJKMNPQRSTUVWXYZ23456789"

  const SYMBOLS: nat := 31

  /** The random numbers behind one code. */
  predicate IsDraw(d: seq<nat>, length: nat) {
    |d| == length && forall i :: 0 <= i < |d| ==> d[i] < SYMBOLS
  }

  predicate AreDraws(draws: seq<seq<nat>>, length: nat) {
    forall i :: 0 <= i < |draws| ==> IsDraw(draws[i], length)
  }

  function Symbols(d: seq<nat>): (s: string)
    requires IsDraw(d, |d|)
    ensures |s| == |d|
  {
    seq(|d|, i requires 0 <= i < |d| => ALPHABET[d[i]])
  }

  /** randomCode. */
  method RandomCode(d: seq<nat>) returns (s: string)
    requires IsDraw(d, |d|)
    ensures s == Symbols(d)
  {
    s := "";
    for i := 0 to |d|
      invariant |s| == i && forall j :: 0 <= j < i ==> s[j] == ALPHABET[d[j]]
    {
      s := s + [ALPHABET[d[i]]];
    }
  }

  lemma AlphabetIsDistinct(a: nat, b: nat)
    requires a < SYMBOLS && b < SYMBOLS && ALPHABET[a] == ALPHABET[b]
    ensures a == b
  {
    AlphabetPlaces(a);
    AlphabetPlaces(b);
  }

  /** The place of a symbol in the alphabet, from the symbol. */
  function PlaceOf(c: char): (n: int)
  {
    if 'A' <= c <= 'H' then c as int - 'A' as int
    else if 'J' <= c <= 'K' then c as int - 'J' as int + 8
    else if 'M' <= c <= 'N' then c as int - 'M' as int + 10
    else if 'P' <= c <= 'Z' then c as int - 'P' as int + 12
    else c as int - '2' as int + 23
  }

  lemma AlphabetPlaces(a: nat)
    requires a < SYMBOLS
    ensures PlaceOf(ALPHABET[a]) == a && IsCodeChar(ALPHABET[a])
  {
  }

  lemma SymbolsAreInjective(d: seq<nat>, e: seq<nat>)
    requires IsDraw(d, |d|) && IsDraw(e, |d|)
    ensures Symbols(d) == Symbols(e) ==> d == e
  {
    if Symbols(d) == Symbols(e) {
      forall i | 0 <= i < |d| ensures d[i] == e[i] {
        assert Symbols(d)[i] == Symbols(e)[i];
        AlphabetIsDistinct(d[i], e[i]);
      }
    }
  }

  function CodeOf(prefix: string, d: seq<nat>): (c: string)
    requires IsDraw(d, |d|)
  {
    prefix + Symbols(d)
  }

  /** Two draws make the same code only when they are the same draw. */
  lemma CodesAreInjective(prefix: string, d: seq<nat>, e: seq<nat>)
    requires IsDraw(d, |d|) && IsDraw(e, |d|)
    ensures CodeOf(prefix, d) == CodeOf(prefix, e) <==> d == e
  {
    if CodeOf(prefix, d) == CodeOf(prefix, e) {
      assert Symbols(d) == CodeOf(prefix, d)[|prefix|..] == CodeOf(prefix, e)[|prefix|..] == Symbols(e);
      SymbolsAreInjective(d, e);
    }
  }

  // ----- generateCodes -----

  /** The loop's codes after reading the draws: new ones are appended until there are enough. */
  function Gather(prefix: string, length: nat, count: nat, draws: seq<seq<nat>>): (codes: seq<string>)
    requires AreDraws(draws, length)
  {
    if draws == [] then []
    else
      var codes := Gather(prefix, length, count, draws[..|draws| - 1]);
      var code := CodeOf(prefix, draws[|draws| - 1]);
      if |codes| >= count || code in codes then codes else codes + [code]
  }

  lemma {:induction false} GatherStops(prefix: string, length: nat, count: nat, draws: seq<seq<nat>>, i: nat)
    requires AreDraws(draws, length) && i <= |draws| && |Gather(prefix, length, count, draws[..i])| >= count
    ensures Gather(prefix, length, count, draws) == Gather(prefix, length, count, draws[..i])
    decreases |draws|
  {
    if i == |draws| {
      assert draws[..i] == draws;
    } else {
      var front := draws[..|draws| - 1];
      assert front[..i] == draws[..i];
      GatherStops(prefix, length, count, front, i);
    }
  }

  /** generateCodes on the draws that the random source will make; `done` is false when the draws
      run out before the loop ends. */
  method GenerateCodes(prefix: string, length: nat, count: nat, draws: seq<seq<nat>>)
    returns (codes: seq<string>, done: bool)
    requires AreDraws(draws, length)
    ensures codes == Gather(prefix, length, count, draws)
    ensures done <==> |codes| == count
  {
    codes := [];
    var seen: set<string> := {};
    var i := 0;
    while |codes| < count
      invariant 0 <= i <= |draws| && |codes| <= count
      invariant codes == Gather(prefix, length, count, draws[..i])
      invariant forall c :: c in seen <==> c in codes
      decreases |draws| - i
    {
      if i == |draws| {
        assert draws[..i] == draws;
        return codes, false;
      }
      var symbols := RandomCode(draws[i]);
      var code := prefix + symbols;
      assert draws[..i + 1][..i] == draws[..i];
      i := i + 1;
      if code in seen {
        continue;
      }
      seen := seen + {code};
      codes := codes + [code];
    }
    GatherStops(prefix, length, count, draws, i);
    return codes, true;
  }

  // ----- What it makes -----

  predicate IsCodeOf(prefix: string, length: nat, code: string) {
    |code| == |prefix| + length && prefix <= code && forall i :: |prefix| <= i < |code| ==> code[i] in ALPHABET
  }

  lemma CodeOfDraw(prefix: string, length: nat, d: seq<nat>)
    requires IsDraw(d, length)
    ensures IsCodeOf(prefix, length, CodeOf(prefix, d))
  {
  }

  /** Never too many codes, all of the batch's form and pairwise distinct. */
  lemma {:induction false} GeneratedCodesAreDistinct(prefix: string, length: nat, count: nat, draws: seq<seq<nat>>)
    requires AreDraws(draws, length)
    ensures var codes := Gather(prefix, length, count, draws);
            && |codes| <= count
            && (forall i :: 0 <= i < |codes| ==> IsCodeOf(prefix, length, codes[i]))
            && (forall i, j :: 0 <= i < j < |codes| ==> codes[i] != codes[j])
  {
    if draws != [] {
      var n := |draws| - 1;
      GeneratedCodesAreDistinct(prefix, length, count, draws[..n]);
      CodeOfDraw(prefix, length, draws[n]);
    }
  }

  /** While codes are missing, a draw's code is gathered exactly when the draw was made. */
  lemma {:induction false} GatheredWereDrawn(prefix: string, length: nat, count: nat, draws: seq<seq<nat>>, d: seq<nat>)
    requires AreDraws(draws, length) && IsDraw(d, length) && |Gather(prefix, length, count, draws)| < count
    ensures CodeOf(prefix, d) in Gather(prefix, length, count, draws) <==> d in draws
  {
    if draws != [] {
      var n := |draws| - 1;
      GatheredWereDrawn(prefix, length, count, draws[..n], d);
      CodesAreInjective(prefix, draws[n], d);
      assert draws == draws[..n] + [draws[n]];
    }
  }

  /** As many codes as there are different draws, up to count: the loop is done exactly when
      count different draws were made. */
  lemma {:induction false} DifferentDrawsCount(prefix: string, length: nat, count: nat, draws: seq<seq<nat>>)
    requires AreDraws(draws, length)
    ensures |Gather(prefix, length, count, draws)| == Min(count, |set d | d in draws|)
  {
    if draws == [] {
      assert (set d | d in draws) == {};
    } else {
      var n := |draws| - 1;
      DifferentDrawsCount(prefix, length, count, draws[..n]);
      assert (set d | d in draws) == (set d | d in draws[..n]) + {draws[n]};
      if |Gather(prefix, length, count, draws[..n])| < count {
        GatheredWereDrawn(prefix, length, count, draws[..n], draws[n]);
      }
    }
  }

  lemma SymbolAt(a: nat)
    requires a < SYMBOLS
    ensures var c := ALPHABET[a]; ('A' <= c <= 'Z' && c !in {'I', 'L', 'O'}) || '2' <= c <= '9'
  {
  }

  lemma SamePlace(c: char, d: char)
    requires ('A' <= c <= 'Z' && c !in {'I', 'L', 'O'}) || '2' <= c <= '9'
    requires ('A' <= d <= 'Z' && d !in {'I', 'L', 'O'}) || '2' <= d <= '9'
    ensures 0 <= PlaceOf(c) < SYMBOLS && (PlaceOf(c) == PlaceOf(d) ==> c == d)
  {
  }

  /** The alphabet: digits and capitals that are not easily taken for one another. */
  lemma AlphabetIs(c: char)
    ensures c in ALPHABET <==> ('A' <= c <= 'Z' && c !in {'I', 'L', 'O'}) || '2' <= c <= '9'
    ensures |ALPHABET| == 31
  {
    if c in ALPHABET {
      var a :| 0 <= a < |ALPHABET| && ALPHABET[a] == c;
      SymbolAt(a);
    } else if ('A' <= c <= 'Z' && c !in {'I', 'L', 'O'}) || '2' <= c <= '9' {
      SamePlace(c, c);
      var a := PlaceOf(c);
      AlphabetPlaces(a);
      SymbolAt(a);
      SamePlace(c, ALPHABET[a]);
    }
  }

  lemma SymbolIsCodeChar(c: char)
    requires c in ALPHABET
    ensures IsCodeChar(c)
  {
  }

  lemma BoundedCodeIsClean(f: BatchForm, code: string)
    requires InBounds(f) && IsCodeOf(f.prefix, f.codeLength, code)
    ensures IsClean(code) && 8 <= |code| <= 28 && Normalize(code) == code
  {
    forall i | 0 <= i < |code| ensures IsCodeChar(code[i]) {
      if i < |f.prefix| {
        assert code[i] == f.prefix[i];
      } else {
        SymbolIsCodeChar(code[i]);
      }
    }
    NormalizeFixesClean(code);
  }

  /** Codes made for a request within bounds are stored as they will be looked up: at most 28
      characters and fixed by normalisation; and their export reads back as the same list. */
  lemma GeneratedCodesAreUsable(f: BatchForm, draws: seq<seq<nat>>)
    requires InBounds(f) && AreDraws(draws, f.codeLength)
    ensures var codes := Gather(f.prefix, f.codeLength, f.count, draws);
            && (forall i :: 0 <= i < |codes| ==> 8 <= |codes[i]| <= 28 && Normalize(codes[i]) == codes[i])
            && IsCodeList(codes)
            && ParseList(ExportText(codes, f.prefix)) == codes
  {
    var codes := Gather(f.prefix, f.codeLength, f.count, draws);
    GeneratedCodesAreDistinct(f.prefix, f.codeLength, f.count, draws);
    forall i | 0 <= i < |codes| ensures IsClean(codes[i]) && 8 <= |codes[i]| <= 28 && Normalize(codes[i]) == codes[i] {
      BoundedCodeIsClean(f, codes[i]);
    }
    ExportReadsBack(codes, f.prefix);
  }

  // ----- There are enough codes -----

  /** A draw as a number in base 31, and back. */
  function Value(d: seq<nat>): (v: nat)
  {
    if d == [] then 0 else Value(d[..|d| - 1]) * SYMBOLS + d[|d| - 1]
  }

  function Digits(v: nat, length: nat): (d: seq<nat>)
    ensures IsDraw(d, length)
  {
    if length == 0 then [] else Digits(v / SYMBOLS, length - 1) + [v % SYMBOLS]
  }

  lemma {:induction false} ValueOfDigits(v: nat, length: nat)
    requires v < Pow(SYMBOLS, length)
    ensures Value(Digits(v, length)) == v
  {
    if length > 0 {
      assert v / SYMBOLS < Pow(SYMBOLS, length - 1);
      ValueOfDigits(v / SYMBOLS, length - 1);
      assert Digits(v, length)[..length - 1] == Digits(v / SYMBOLS, length - 1);
    }
  }

  lemma {:induction false} DigitsOfValue(d: seq<nat>)
    requires IsDraw(d, |d|)
    ensures Value(d) < Pow(SYMBOLS, |d|) && Digits(Value(d), |d|) == d
  {
    if d != [] {
      var front := d[..|d| - 1];
      DigitsOfValue(front);
      assert Value(d) / SYMBOLS == Value(front) && Value(d) % SYMBOLS == d[|d| - 1];
      assert d == front + [d[|d| - 1]];
    }
  }

  /** The codes of the first n numbers. */
  ghost function FirstCodes(prefix: string, length: nat, n: nat): (s: set<string>)
  {
    if n == 0 then {} else FirstCodes(prefix, length, n - 1) + {CodeOf(prefix, Digits(n - 1, length))}
  }

  lemma {:induction false} FirstCodesHaveNumbers(prefix: string, length: nat, n: nat, c: string)
    requires c in FirstCodes(prefix, length, n)
    ensures exists v: nat :: v < n && c == CodeOf(prefix, Digits(v, length))
  {
    if c != CodeOf(prefix, Digits(n - 1, length)) {
      FirstCodesHaveNumbers(prefix, length, n - 1, c);
    }
  }

  lemma {:induction false} FirstCodesCount(prefix: string, length: nat, n: nat)
    requires n <= Pow(SYMBOLS, length)
    ensures |FirstCodes(prefix, length, n)| == n
  {
    if n > 0 {
      FirstCodesCount(prefix, length, n - 1);
      var c := CodeOf(prefix, Digits(n - 1, length));
      if c in FirstCodes(prefix, length, n - 1) {
        FirstCodesHaveNumbers(prefix, length, n - 1, c);
        var v: nat :| v < n - 1 && c == CodeOf(prefix, Digits(v, length));
        CodesAreInjective(prefix, Digits(n - 1, length), Digits(v, length));
        ValueOfDigits(v, length);
        ValueOfDigits(n - 1, length);
      }
    }
  }

  lemma {:induction false} ListSize<T>(s: seq<T>)
    ensures |set x | x in s| <= |s|
  {
    if s == [] {
      assert (set x | x in s) == {};
    } else {
      var n := |s| - 1;
      ListSize(s[..n]);
      assert (set x | x in s) == (set x | x in s[..n]) + {s[n]};
    }
  }

  /** Pigeonhole: while fewer than 31^length codes are taken, some draw makes a new one. */
  lemma UnseenCodeRemains(prefix: string, length: nat, codes: seq<string>)
    requires |codes| < Pow(SYMBOLS, length)
    ensures exists d :: IsDraw(d, length) && CodeOf(prefix, d) !in codes
  {
    var n := |codes| + 1;
    var taken := set x | x in codes;
    ListSize(codes);
    FirstCodesCount(prefix, length, n);
    if FirstCodes(prefix, length, n) <= taken {
      SubsetSize(FirstCodes(prefix, length, n), taken);
    }
    var c :| c in FirstCodes(prefix, length, n) && c !in taken;
    FirstCodesHaveNumbers(prefix, length, n, c);
    var v: nat :| v < n && c == CodeOf(prefix, Digits(v, length));
    assert IsDraw(Digits(v, length), length);
  }

  /** Within bounds the loop is never out of new codes. */
  lemma BoundsLeaveUnseenCodes(f: BatchForm, codes: seq<string>)
    requires InBounds(f) && |codes| < f.count
    ensures f.count < Pow(SYMBOLS, f.codeLength)
    ensures exists d :: IsDraw(d, f.codeLength) && CodeOf(f.prefix, d) !in codes
  {
    PowGrows(SYMBOLS, 3, f.codeLength);
    assert Pow(SYMBOLS, 1) == 31 && Pow(SYMBOLS, 2) == 961 && Pow(SYMBOLS, 3) == 29791;
    UnseenCodeRemains(f.prefix, f.codeLength, codes);
  }

  /** Whatever was drawn so far, more draws can end the loop, when there are that many codes. */
  lemma {:induction false} DrawingCanFinish(prefix: string, length: nat, count: nat, drawn: seq<seq<nat>>)
      returns (more: seq<seq<nat>>)
    requires AreDraws(drawn, length) && count <= Pow(SYMBOLS, length)
    ensures AreDraws(drawn + more, length) && |Gather(prefix, length, count, drawn + more)| == count
    decreases count - |Gather(prefix, length, count, drawn)|
  {
    var codes := Gather(prefix, length, count, drawn);
    GeneratedCodesAreDistinct(prefix, length, count, drawn);
    if |codes| == count {
      more := [];
      assert drawn + more == drawn;
    } else {
      UnseenCodeRemains(prefix, length, codes);
      var d :| IsDraw(d, length) && CodeOf(prefix, d) !in codes;
      assert (drawn + [d])[..|drawn|] == drawn;
      var rest := DrawingCanFinish(prefix, length, count, drawn + [d]);
      more := [d] + rest;
      assert drawn + more == drawn + [d] + rest;
    }
  }

  lemma {:induction false} GatheredHaveNumbers(prefix: string, length: nat, count: nat, draws: seq<seq<nat>>, c: string)
    requires AreDraws(draws, length) && c in Gather(prefix, length, count, draws)
    ensures c in FirstCodes(prefix, length, Pow(SYMBOLS, length))
  {
    var n := |draws| - 1;
    if c in Gather(prefix, length, count, draws[..n]) {
      GatheredHaveNumbers(prefix, length, count, draws[..n], c);
    } else {
      DigitsOfValue(draws[n]);
      NumberedIsFirst(prefix, length, Pow(SYMBOLS, length), Value(draws[n]));
    }
  }

  lemma {:induction false} NumberedIsFirst(prefix: string, length: nat, n: nat, v: nat)
    requires v < n
    ensures CodeOf(prefix, Digits(v, length)) in FirstCodes(prefix, length, n)
  {
    if v < n - 1 {
      NumberedIsFirst(prefix, length, n - 1, v);
    }
  }

  lemma {:induction false} DistinctSize(s: seq<string>)
    requires forall i, j :: 0 <= i < j < |s| ==> s[i] != s[j]
    ensures |set x | x in s| == |s|
  {
    if s == [] {
      assert (set x | x in s) == {};
    } else {
      var n := |s| - 1;
      DistinctSize(s[..n]);
      assert (set x | x in s) == (set x | x in s[..n]) + {s[n]};
    }
  }

  /** There are exactly 31^length codes: no more are ever gathered. */
  lemma GatheredFit(prefix: string, length: nat, count: nat, draws: seq<seq<nat>>)
    requires AreDraws(draws, length)
    ensures |Gather(prefix, length, count, draws)| <= Pow(SYMBOLS, length)
  {
    var codes := Gather(prefix, length, count, draws);
    GeneratedCodesAreDistinct(prefix, length, count, draws);
    DistinctSize(codes);
    forall c | c in codes ensures c in FirstCodes(prefix, length, Pow(SYMBOLS, length)) {
      GatheredHaveNumbers(prefix, length, count, draws, c);
    }
    FirstCodesCount(prefix, length, Pow(SYMBOLS, length));
    SubsetSize((set c | c in codes), FirstCodes(prefix, length, Pow(SYMBOLS, length)));
  }

  /** The loop can end exactly when 31^length codes are enough. */
  lemma LoopCanEndIffEnough(prefix: string, length: nat, count: nat)
    ensures count <= Pow(SYMBOLS, length)
       <==> exists draws :: AreDraws(draws, length) && |Gather(prefix, length, count, draws)| == count
  {
    if count <= Pow(SYMBOLS, length) {
      var more := DrawingCanFinish(prefix, length, count, []);
      assert [] + more == more;
    }
    if draws :| AreDraws(draws, length) && |Gather(prefix, length, count, draws)| == count {
      GatheredFit(prefix, length, count, draws);
    }
  }
}
