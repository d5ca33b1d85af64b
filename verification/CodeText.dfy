/** The text forms of a redemption code: what a person types, what the tables hold and
    what is printed (internal/redeem/service.go and web/src/pages/redeem.tsx). */
module CodeText {

  // ----- Characters -----

  predicate IsUpper(c: char) { 'A' <= c <= 'Z' }

  predicate IsLower(c: char) { 'a' <= c <= 'z' }

  predicate IsDigit(c: char) { '0' <= c <= '9' }

  /** A character of a stored code. */
  predicate IsCodeChar(c: char) { IsUpper(c) || IsDigit(c) }

  /** A character that normalisation keeps. */
  predicate IsAlphanumeric(c: char) { IsCodeChar(c) || IsLower(c) }

  function UpperChar(c: char): (r: char)
    ensures IsAlphanumeric(c) ==> IsCodeChar(r)
    ensures 'a' <= c <= 'z' ==> r as int == c as int - 32
    ensures !('a' <= c <= 'z') ==> r == c
  {
    if IsLower(c) then 'A' + (c - 'a') else c
  }

  /** Upper-casing of the ASCII letters; other characters are left alone. */
  function ToUpper(s: string): (r: string)
    ensures |r| == |s|
    ensures forall i :: 0 <= i < |s| ==> r[i] == UpperChar(s[i])
  {
    seq(|s|, i requires 0 <= i < |s| => UpperChar(s[i]))
  }

  /** Go's unicode.IsSpace. */
  predicate IsSpace(c: char) {
    || '\U{9}' <= c <= '\U{D}'
    || c == ' '
    || c == '\U{85}'
    || IsWideSpace(c)
  }

  predicate IsWideSpace(c: char) {
    || c == '\U{A0}'
    || c == '\U{1680}'
    || '\U{2000}' <= c <= '\U{200A}'
    || c in {'\U{2028}', '\U{2029}', '\U{202F}', '\U{205F}', '\U{3000}'}
  }

  function TrimLeft(s: string): (r: string)
  {
    if s != "" && IsSpace(s[0]) then TrimLeft(s[1..]) else s
  }

  function TrimRight(s: string): (r: string)
  {
    if s != "" && IsSpace(s[|s| - 1]) then TrimRight(s[..|s| - 1]) else s
  }

  /** strings.TrimSpace. */
  function TrimSpace(s: string): (r: string)
  {
    TrimRight(TrimLeft(s))
  }

  lemma {:induction false} TrimLeftStops(s: string)
    ensures TrimLeft(s) != "" ==> !IsSpace(TrimLeft(s)[0])
  {
    if s != "" && IsSpace(s[0]) {
      TrimLeftStops(s[1..]);
    }
  }

  lemma {:induction false} TrimRightStops(s: string)
    ensures TrimRight(s) <= s
    ensures TrimRight(s) != "" ==> !IsSpace(TrimRight(s)[|TrimRight(s)| - 1])
  {
    if s != "" && IsSpace(s[|s| - 1]) {
      TrimRightStops(s[..|s| - 1]);
    }
  }

  /** A trimmed text neither starts nor ends with a space, so trimming it again changes nothing. */
  lemma TrimSpaceIsIdempotent(s: string)
    ensures TrimSpace(s) != "" ==> !IsSpace(TrimSpace(s)[0]) && !IsSpace(TrimSpace(s)[|TrimSpace(s)| - 1])
    ensures TrimSpace(TrimSpace(s)) == TrimSpace(s)
  {
    TrimLeftStops(s);
    TrimRightStops(TrimLeft(s));
    var r := TrimSpace(s);
    if r != "" {
      assert r[0] == TrimLeft(s)[0];
    }
  }

  lemma {:induction false} TrimLeftTakesSpaces(s: string) returns (a: string)
    ensures s == a + TrimLeft(s) && forall i :: 0 <= i < |a| ==> IsSpace(a[i])
  {
    if s != "" && IsSpace(s[0]) {
      var rest := TrimLeftTakesSpaces(s[1..]);
      a := [s[0]] + rest;
      assert s == [s[0]] + s[1..];
    } else {
      a := "";
    }
  }

  lemma {:induction false} TrimRightTakesSpaces(s: string) returns (b: string)
    ensures s == TrimRight(s) + b && forall i :: 0 <= i < |b| ==> IsSpace(b[i])
  {
    var n := |s| - 1;
    if s != "" && IsSpace(s[n]) {
      var rest := TrimRightTakesSpaces(s[..n]);
      b := rest + [s[n]];
      assert s == s[..n] + [s[n]];
      assert s == TrimRight(s[..n]) + b;
    } else {
      b := "";
    }
  }

  /** Trimming takes off spaces at both ends and leaves the rest. */
  lemma TrimSpaceTakesSpaces(s: string) returns (a: string, b: string)
    ensures s == a + TrimSpace(s) + b
    ensures forall i :: 0 <= i < |a| ==> IsSpace(a[i])
    ensures forall i :: 0 <= i < |b| ==> IsSpace(b[i])
  {
    a := TrimLeftTakesSpaces(s);
    b := TrimRightTakesSpaces(TrimLeft(s));
    assert a + TrimSpace(s) + b == a + (TrimSpace(s) + b);
  }

  lemma SpaceCharsAre(c: char)
    ensures IsSpace(c)
       <==> c in {'\U{9}', '\U{A}', '\U{B}', '\U{C}', '\U{D}', ' ', '\U{85}', '\U{A0}', '\U{1680}', '\U{2000}',
                  '\U{2001}', '\U{2002}', '\U{2003}', '\U{2004}', '\U{2005}', '\U{2006}', '\U{2007}', '\U{2008}',
                  '\U{2009}', '\U{200A}', '\U{2028}', '\U{2029}', '\U{202F}', '\U{205F}', '\U{3000}'}
  {
  }

  lemma TrimOne(c: char)
    ensures TrimSpace([c]) == "" <==> IsSpace(c)
  {
    var s := [c];
    assert s[1..] == "" && TrimRight("") == "";
    if IsSpace(c) {
      assert TrimLeft(s) == TrimLeft(s[1..]) == "";
    } else {
      assert TrimLeft(s) == s && TrimRight(s) == s;
    }
  }

  /** The spaces that are taken off. */
  lemma SpacesAre(c: char)
    ensures TrimSpace([c]) == ""
       <==> c in {'\U{9}', '\U{A}', '\U{B}', '\U{C}', '\U{D}', ' ', '\U{85}', '\U{A0}', '\U{1680}', '\U{2000}',
                  '\U{2001}', '\U{2002}', '\U{2003}', '\U{2004}', '\U{2005}', '\U{2006}', '\U{2007}', '\U{2008}',
                  '\U{2009}', '\U{200A}', '\U{2028}', '\U{2029}', '\U{202F}', '\U{205F}', '\U{3000}'}
  {
    SpaceCharsAre(c);
    TrimOne(c);
  }

  // ----- Normalisation -----

  /** NormalizeCode and the page's normalizeCdk: drop what is not alphanumeric, then upper-case. */
  function Normalize(s: string): (r: string)
    ensures |r| <= |s|
  {
    if s == "" then ""
    else (if IsAlphanumeric(s[0]) then [UpperChar(s[0])] else "") + Normalize(s[1..])
  }

  /** A stored code: only upper-case letters and digits. */
  predicate IsClean(s: string) {
    forall i :: 0 <= i < |s| ==> IsCodeChar(s[i])
  }

  lemma {:induction false} NormalizeConcat(a: string, b: string)
    ensures Normalize(a + b) == Normalize(a) + Normalize(b)
  {
    if a == "" {
      assert a + b == b;
    } else {
      var head := if IsAlphanumeric(a[0]) then [UpperChar(a[0])] else "";
      NormalizeConcat(a[1..], b);
      assert (a + b)[1..] == a[1..] + b && (a + b)[0] == a[0];
      assert head + (Normalize(a[1..]) + Normalize(b)) == head + Normalize(a[1..]) + Normalize(b);
    }
  }

  lemma {:induction false} NormalizeIsClean(s: string)
    ensures IsClean(Normalize(s))
  {
    if s != "" {
      NormalizeIsClean(s[1..]);
    }
  }

  /** The fixed points of normalisation are exactly the clean strings. */
  lemma {:induction false} NormalizeFixesClean(s: string)
    ensures Normalize(s) == s <==> IsClean(s)
  {
    NormalizeIsClean(s);
    if IsClean(s) && s != "" {
      NormalizeFixesClean(s[1..]);
      assert s == [s[0]] + s[1..];
    }
  }

  lemma NormalizeIsIdempotent(s: string)
    ensures Normalize(Normalize(s)) == Normalize(s)
  {
    NormalizeIsClean(s);
    NormalizeFixesClean(Normalize(s));
  }

  /** Letters of either case stand for the code's capitals. */
  lemma {:induction false} NormalizeReadsBothCases(t: string, c: string)
    requires |t| == |c|
    requires forall i :: 0 <= i < |c| ==> 'A' <= c[i] <= 'Z' || '0' <= c[i] <= '9'
    requires forall i :: 0 <= i < |c| ==> t[i] == c[i] || ('A' <= c[i] <= 'Z' && t[i] as int == c[i] as int + 32)
    ensures Normalize(t) == c
  {
    if t != "" {
      assert c == [c[0]] + c[1..];
      NormalizeReadsBothCases(t[1..], c[1..]);
    }
  }

  /** Characters other than ASCII letters and digits may stand anywhere. */
  lemma NormalizeIgnoresNoise(a: string, noise: string, b: string)
    requires forall i :: 0 <= i < |noise| ==>
               !('A' <= noise[i] <= 'Z' || 'a' <= noise[i] <= 'z' || '0' <= noise[i] <= '9')
    ensures Normalize(a + noise + b) == Normalize(a + b)
  {
    NormalizeConcat(a + noise, b);
    NormalizeConcat(a, noise);
    NormalizeConcat(a, b);
    NormalizeDropsNoise(noise);
  }

  /** The places of the ASCII letters and digits. */
  ghost function LettersAndDigits(s: string): (places: set<nat>)
  {
    set i: nat | i < |s| && ('A' <= s[i] <= 'Z' || 'a' <= s[i] <= 'z' || '0' <= s[i] <= '9')
  }

  lemma OneMoreCharacter(s: string, c: char)
    ensures |LettersAndDigits(s + [c])| == |LettersAndDigits(s)| + |Normalize([c])|
  {
    var more := if IsAlphanumeric(c) then {|s|} else {};
    assert LettersAndDigits(s + [c]) == LettersAndDigits(s) + more;
    assert [c][1..] == "";
  }

  /** Every ASCII letter and digit is kept. */
  lemma {:induction false} NormalizeCounts(s: string)
    ensures |Normalize(s)| == |LettersAndDigits(s)|
  {
    if s == "" {
      assert LettersAndDigits(s) == {};
    } else {
      var n := |s| - 1;
      NormalizeCounts(s[..n]);
      NormalizeConcat(s[..n], [s[n]]);
      OneMoreCharacter(s[..n], s[n]);
      assert s == s[..n] + [s[n]];
    }
  }

  lemma {:induction false} NormalizeDropsNoise(s: string)
    requires forall i :: 0 <= i < |s| ==> !IsAlphanumeric(s[i])
    ensures Normalize(s) == ""
  {
    if s != "" {
      NormalizeDropsNoise(s[1..]);
    }
  }

  // ----- Display -----

  /** Dash grouping by four. */
  function Grouped(s: string): (r: string)
  {
    if |s| <= 4 then s else s[..4] + "-" + Grouped(s[4..])
  }

  /** formatGroups: cut into parts of four, then join the parts with dashes. */
  method FormatGroups(s: string) returns (r: string)
    ensures r == Grouped(s)
  {
    if |s| <= 4 {
      return s;
    }
    var parts: seq<string> := [];
    var i := 0;
    while i < |s|
      invariant 0 <= i
      invariant i < |s| ==> i == 4 * |parts|
      invariant |parts| == 0 ==> i == 0
      invariant forall p :: 0 <= p < |parts| ==> 4 * p < |s| && parts[p] == s[4 * p..Min(4 * p + 4, |s|)]
      invariant i >= |s| ==> 4 * |parts| >= |s| > 4 * (|parts| - 1)
    {
      var end := i + 4;
      if end > |s| {
        end := |s|;
      }
      parts := parts + [s[i..end]];
      i := i + 4;
    }
    JoinedPartsAreGrouped(s, parts, 0);
    r := Join(parts, "-");
  }

  function Min(a: int, b: int): (r: int) { if a < b then a else b }

  /** strings.Join. */
  function Join(parts: seq<string>, sep: string): (r: string)
  {
    if parts == [] then ""
    else if |parts| == 1 then parts[0]
    else parts[0] + sep + Join(parts[1..], sep)
  }

  lemma {:induction false} JoinedPartsAreGrouped(s: string, parts: seq<string>, k: nat)
    requires k < |parts|
    requires 4 * |parts| >= |s| > 4 * (|parts| - 1)
    requires forall p :: 0 <= p < |parts| ==> parts[p] == s[4 * p..Min(4 * p + 4, |s|)]
    ensures Join(parts[k..], "-") == Grouped(s[4 * k..])
    decreases |parts| - k
  {
    if k + 1 < |parts| {
      JoinedPartsAreGrouped(s, parts, k + 1);
      assert parts[k..][1..] == parts[k + 1..];
      assert parts[k..][0] == s[4 * k..][..4];
      assert s[4 * k..][4..] == s[4 * (k + 1)..];
    } else {
      assert parts[k..] == [parts[k]];
      assert parts[k] == s[4 * k..];
    }
  }

  /** DisplayCode once its prefix is upper-cased: the prefix is set off only when the code has it. */
  function DisplayWith(code: string, prefix: string): (r: string)
  {
    if prefix != "" && prefix <= code
    then prefix + "-" + Grouped(code[|prefix|..])
    else Grouped(code)
  }

  function DisplayCode(code: string, prefix: string): (r: string)
  {
    DisplayWith(code, ToUpper(prefix))
  }

  /** Grouping adds dashes and nothing else. */
  lemma {:induction false} GroupedNormalizes(s: string)
    ensures Normalize(Grouped(s)) == Normalize(s)
  {
    if |s| > 4 {
      GroupedNormalizes(s[4..]);
      NormalizeConcat(s[..4] + "-", Grouped(s[4..]));
      NormalizeConcat(s[..4], "-");
      NormalizeConcat(s[..4], s[4..]);
      assert s == s[..4] + s[4..];
    }
  }

  lemma PrefixedNormalizes(prefix: string, rest: string)
    ensures Normalize(prefix + "-" + Grouped(rest)) == Normalize(prefix + rest)
  {
    GroupedNormalizes(rest);
    NormalizeConcat(prefix + "-", Grouped(rest));
    NormalizeConcat(prefix, "-");
    NormalizeConcat(prefix, rest);
  }

  /** The printed form of a stored code normalises back to it, whatever the prefix. */
  lemma DisplayRoundTrip(code: string, prefix: string)
    requires IsClean(code)
    ensures Normalize(DisplayWith(code, prefix)) == code
  {
    NormalizeFixesClean(code);
    if prefix != "" && prefix <= code {
      PrefixedNormalizes(prefix, code[|prefix|..]);
      assert code == prefix + code[|prefix|..];
    } else {
      GroupedNormalizes(code);
    }
  }

  /** The printed form has no character outside the code alphabet except dashes. */
  predicate IsPrinted(s: string) {
    forall i :: 0 <= i < |s| ==> IsCodeChar(s[i]) || s[i] == '-'
  }

  lemma {:induction false} GroupedIsPrinted(s: string)
    requires IsClean(s)
    ensures IsPrinted(Grouped(s))
  {
    if |s| > 4 {
      GroupedIsPrinted(s[4..]);
    }
  }

  lemma DisplayIsPrinted(code: string, prefix: string)
    requires IsClean(code)
    ensures IsPrinted(DisplayWith(code, prefix))
  {
    if prefix != "" && prefix <= code {
      assert forall i :: 0 <= i < |prefix| ==> prefix[i] == code[i];
      GroupedIsPrinted(code[|prefix|..]);
    } else {
      GroupedIsPrinted(code);
    }
  }

  /** Every fifth character of a grouped text is a dash and the others are the text in order:
      the place of each character is fixed, so grouping by another width would not satisfy this. */
  lemma {:induction false} GroupedPlaces(s: string, i: nat)
    requires i < |s|
    ensures i + i / 4 < |Grouped(s)|
    ensures Grouped(s)[i + i / 4] == s[i]
    ensures i > 0 && i % 4 == 0 ==> Grouped(s)[i + i / 4 - 1] == '-'
    ensures |Grouped(s)| == |s| + (|s| - 1) / 4
  {
    if |s| > 4 {
      if i < 4 {
        GroupedPlaces(s[4..], 0);
      } else {
        GroupedPlaces(s[4..], i - 4);
        assert (i - 4) / 4 == i / 4 - 1;
      }
    }
  }

  /** A prefix that the code has is set off by a dash, and the rest is grouped by four. */
  lemma DisplaySetsPrefixOff(prefix: string, rest: string, i: nat)
    requires prefix != "" && i < |rest|
    ensures var d := DisplayWith(prefix + rest, prefix);
            && |d| == |prefix| + 1 + |rest| + (|rest| - 1) / 4
            && d[..|prefix|] == prefix && d[|prefix|] == '-'
            && d[|prefix| + 1 + i + i / 4] == rest[i]
            && (i > 0 && i % 4 == 0 ==> d[|prefix| + i + i / 4] == '-')
    ensures DisplayWith(prefix, prefix) == prefix + "-"
  {
    assert (prefix + rest)[|prefix|..] == rest;
    GroupedPlaces(rest, i);
  }

  /** A prefix that the code does not have changes nothing: the whole code is grouped by four. */
  lemma DisplayWithoutPrefix(code: string, prefix: string, i: nat)
    requires (prefix == "" || !(prefix <= code)) && i < |code|
    ensures var d := DisplayWith(code, prefix);
            && |d| == |code| + (|code| - 1) / 4
            && d[i + i / 4] == code[i]
            && (i > 0 && i % 4 == 0 ==> d[i + i / 4 - 1] == '-')
  {
    GroupedPlaces(code, i);
  }

  /** The prefix of a batch is upper-cased, letter by letter, before it is compared. */
  lemma DisplayUpperCasesPrefix(code: string, prefix: string, upper: string)
    requires |upper| == |prefix|
    requires forall i :: 0 <= i < |prefix| ==>
               if 'a' <= prefix[i] <= 'z' then upper[i] as int == prefix[i] as int - 32 else upper[i] == prefix[i]
    ensures DisplayCode(code, prefix) == DisplayWith(code, upper)
  {
    assert ToUpper(prefix) == upper;
  }
}
