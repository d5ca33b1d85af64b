/** Lists of codes as text: the export of a batch (internal/httpapi/admin.go) and the list that the
    redeem page reads and writes back (web/src/pages/redeem.tsx). */
module CodeList {
  import opened Base
  import opened CodeText
  import opened Tables
  import opened RedeemSpec
  import opened RedeemService

  // ----- Splitting -----

  /** The page's separators: JavaScript white space, and commas and semicolons of both widths. */
  predicate IsSeparator(c: char) {
    || '\U{9}' <= c <= '\U{D}'
    || c == ' '
    || IsWideSpace(c)
    || c == '\U{FEFF}'
    || c == ',' || c == '\U{FF0C}'
    || c == ';' || c == '\U{FF1B}'
  }

  predicate NoSeparator(s: string) {
    forall i :: 0 <= i < |s| ==> !IsSeparator(s[i])
  }

  /** The length of the text before the first separator. */
  function PieceLength(s: string): (n: nat)
    ensures n <= |s|
  {
    if s == "" || IsSeparator(s[0]) then 0 else 1 + PieceLength(s[1..])
  }

  function SkipSeparators(s: string): (r: string)
    ensures |r| <= |s|
    ensures s != "" && IsSeparator(s[0]) ==> |r| < |s|
  {
    if s != "" && IsSeparator(s[0]) then SkipSeparators(s[1..]) else s
  }

  lemma {:induction false} PieceStopsAtSeparator(s: string)
    ensures PieceLength(s) < |s| ==> IsSeparator(s[PieceLength(s)])
  {
    if s != "" && !IsSeparator(s[0]) {
      PieceStopsAtSeparator(s[1..]);
    }
  }

  /** split: a run of separators is one cut, and a cut at either end leaves an empty piece. */
  function Split(s: string): (r: seq<string>)
    decreases |s|
  {
    var n := PieceLength(s);
    if n == |s| then [s]
    else
      PieceStopsAtSeparator(s);
      [s[..n]] + Split(SkipSeparators(s[n..]))
  }

  // ----- Reading a list -----

  /** The codes kept from the pieces, after those already seen. */
  function Keep(pieces: seq<string>, seen: seq<string>): (r: seq<string>)
  {
    if pieces == [] then seen
    else
      var code := Normalize(pieces[0]);
      Keep(pieces[1..], if code == "" || code in seen then seen else seen + [code])
  }

  function ParseList(text: string): (r: seq<string>)
  {
    Keep(Split(text), [])
  }

  /** parseCdkList. */
  method ParseCdkList(text: string) returns (codes: seq<string>)
    ensures codes == ParseList(text)
  {
    var pieces := Split(text);
    var seen: set<string> := {};
    codes := [];
    for i := 0 to |pieces|
      invariant Keep(pieces[i..], codes) == ParseList(text)
      invariant forall c :: c in seen <==> c in codes
    {
      var code := Normalize(pieces[i]);
      assert pieces[i..][1..] == pieces[i + 1..];
      if code == "" || code in seen {
        continue;
      }
      seen := seen + {code};
      codes := codes + [code];
    }
  }

  /** What a list may hold to be redeemed as it stands. */
  predicate IsCodeList(codes: seq<string>) {
    && (forall i :: 0 <= i < |codes| ==> codes[i] != "" && IsClean(codes[i]))
    && (forall i, j :: 0 <= i < j < |codes| ==> codes[i] != codes[j])
  }

  lemma {:induction false} KeepIsCodeList(pieces: seq<string>, seen: seq<string>)
    requires IsCodeList(seen)
    ensures IsCodeList(Keep(pieces, seen))
  {
    if pieces != [] {
      var code := Normalize(pieces[0]);
      NormalizeIsClean(pieces[0]);
      KeepIsCodeList(pieces[1..], if code == "" || code in seen then seen else seen + [code]);
    }
  }

  /** Exactly the seen codes and the non-empty normalised pieces are kept, and the seen ones first. */
  lemma {:induction false} KeepHolds(pieces: seq<string>, seen: seq<string>, x: string)
    ensures x in Keep(pieces, seen)
       <==> x in seen || (x != "" && exists i :: 0 <= i < |pieces| && Normalize(pieces[i]) == x)
    ensures seen <= Keep(pieces, seen)
  {
    if pieces != [] {
      var code := Normalize(pieces[0]);
      var seen' := if code == "" || code in seen then seen else seen + [code];
      var rest := pieces[1..];
      KeepHolds(rest, seen', x);
      assert forall i :: 0 <= i < |rest| ==> rest[i] == pieces[i + 1];
      assert (exists i :: 0 <= i < |pieces| && Normalize(pieces[i]) == x)
        <==> code == x || exists i :: 0 <= i < |rest| && Normalize(rest[i]) == x by {
        if i :| 0 <= i < |pieces| && Normalize(pieces[i]) == x {
          assert i == 0 || rest[i - 1] == pieces[i];
        }
      }
    }
  }

  lemma {:induction false} KeepConcat(a: seq<string>, b: seq<string>, seen: seq<string>)
    ensures Keep(a + b, seen) == Keep(b, Keep(a, seen))
  {
    if a == [] {
      assert a + b == b;
    } else {
      var code := Normalize(a[0]);
      assert (a + b)[0] == a[0] && (a + b)[1..] == a[1..] + b;
      KeepConcat(a[1..], b, if code == "" || code in seen then seen else seen + [code]);
    }
  }

  /** For every text: the codes read are distinct, non-empty and fixed by normalisation; they are the
      normalised pieces of the text; and the codes of the first n pieces stand first. */
  lemma ParsedCodes(text: string, x: string, n: nat)
    requires n <= |Split(text)|
    ensures IsCodeList(ParseList(text))
    ensures forall i :: 0 <= i < |ParseList(text)| ==> Normalize(ParseList(text)[i]) == ParseList(text)[i]
    ensures x in ParseList(text) <==> x != "" && exists i :: 0 <= i < |Split(text)| && Normalize(Split(text)[i]) == x
    ensures Keep(Split(text)[..n], []) <= ParseList(text)
  {
    var pieces, codes := Split(text), ParseList(text);
    KeepIsCodeList(pieces, []);
    KeepHolds(pieces, [], x);
    forall i | 0 <= i < |codes| ensures Normalize(codes[i]) == codes[i] {
      NormalizeFixesClean(codes[i]);
    }
    KeepConcat(pieces[..n], pieces[n..], []);
    assert pieces == pieces[..n] + pieces[n..];
    KeepHolds(pieces[n..], Keep(pieces[..n], []), x);
  }

  /** BatchRedeem skips no code of a parsed list as empty or repeated; only over-long ones. */
  lemma ParsedCodesAreRedeemed(text: string, i: nat)
    requires i < |ParseList(text)|
    ensures IsFirst(ParseList(text), i) <==> |ParseList(text)[i]| <= MAX_CODE_LENGTH
  {
    ParsedCodes(text, "", 0);
  }

  // ----- Writing a list -----

  /** The text export: one displayed code a line. */
  function ExportText(codes: seq<string>, prefix: string): (r: string)
  {
    if codes == [] then "" else DisplayCode(codes[0], prefix) + "\n" + ExportText(codes[1..], prefix)
  }

  lemma {:induction false} ExportAppends(codes: seq<string>, code: string, prefix: string)
    ensures ExportText(codes + [code], prefix) == ExportText(codes, prefix) + (DisplayCode(code, prefix) + "\n")
  {
    if codes == [] {
      assert [] + [code] == [code];
      assert ExportText([code][1..], prefix) == "";
    } else {
      var head := DisplayCode(codes[0], prefix) + "\n";
      ExportAppends(codes[1..], code, prefix);
      assert (codes + [code])[1..] == codes[1..] + [code] && (codes + [code])[0] == codes[0];
      assert head + (ExportText(codes[1..], prefix) + (DisplayCode(code, prefix) + "\n"))
          == head + ExportText(codes[1..], prefix) + (DisplayCode(code, prefix) + "\n");
    }
  }

  /** The loop of ExportBatch's text branch. */
  method ExportBatch(codes: seq<string>, prefix: string) returns (text: string)
    ensures text == ExportText(codes, prefix)
  {
    text := "";
    for i := 0 to |codes|
      invariant text == ExportText(codes[..i], prefix)
    {
      assert codes[..i + 1] == codes[..i] + [codes[i]];
      ExportAppends(codes[..i], codes[i], prefix);
      text := text + (DisplayCode(codes[i], prefix) + "\n");
    }
    assert codes[..|codes|] == codes;
  }

  // ----- Round trips -----

  lemma {:induction false} PieceOf(p: string, rest: string)
    requires NoSeparator(p) && (rest == "" || IsSeparator(rest[0]))
    ensures PieceLength(p + rest) == |p|
  {
    if p == "" {
      assert p + rest == rest;
    } else {
      assert (p + rest)[1..] == p[1..] + rest && (p + rest)[0] == p[0];
      PieceOf(p[1..], rest);
    }
  }

  lemma SplitWhole(p: string)
    requires NoSeparator(p)
    ensures Split(p) == [p]
  {
    PieceOf(p, "");
    assert p + "" == p;
  }

  lemma SplitLine(p: string, rest: string)
    requires NoSeparator(p) && (rest == "" || !IsSeparator(rest[0]))
    ensures Split(p + "\n" + rest) == [p] + Split(rest)
  {
    var tail := "\n" + rest;
    assert p + "\n" + rest == p + tail;
    PieceOf(p, tail);
    assert (p + tail)[..|p|] == p && (p + tail)[|p|..] == tail;
    assert tail[1..] == rest;
    assert SkipSeparators(tail) == SkipSeparators(rest) == rest;
  }

  /** The characters between two codes that make them two: white space, commas and semicolons. */
  lemma SeparatorsAre(p: string, c: char, q: string)
    requires IsCodeList([p, q])
    ensures ParseList(p + [c] + q) == [p, q]
       <==> c in {'\U{9}', '\U{A}', '\U{B}', '\U{C}', '\U{D}', ' ', '\U{A0}', '\U{1680}', '\U{2000}', '\U{2001}',
                  '\U{2002}', '\U{2003}', '\U{2004}', '\U{2005}', '\U{2006}', '\U{2007}', '\U{2008}', '\U{2009}',
                  '\U{200A}', '\U{2028}', '\U{2029}', '\U{202F}', '\U{205F}', '\U{3000}', '\U{FEFF}',
                  ',', ';', '\U{FF0C}', '\U{FF1B}'}
  {
    assert [p, q][0] == p && [p, q][1] == q;
    PrintedHasNoSeparator(p);
    PrintedHasNoSeparator(q);
    if IsSeparator(c) {
      SplitAt(p, c, q);
      KeepTwo(p, q);
    } else {
      assert NoSeparator(p + [c] + q);
      SplitWhole(p + [c] + q);
      KeepOne(p + [c] + q);
    }
  }

  lemma SplitAt(p: string, c: char, q: string)
    requires NoSeparator(p) && IsSeparator(c) && NoSeparator(q) && q != ""
    ensures Split(p + [c] + q) == [p, q]
  {
    var tail := [c] + q;
    assert p + [c] + q == p + tail;
    PieceOf(p, tail);
    assert (p + tail)[..|p|] == p && (p + tail)[|p|..] == tail;
    assert tail[1..] == q;
    assert SkipSeparators(tail) == SkipSeparators(q) == q;
    SplitWhole(q);
  }

  lemma KeepTwo(p: string, q: string)
    requires IsCodeList([p, q])
    ensures Keep([p, q], []) == [p, q]
  {
    assert [p, q][0] == p && [p, q][1] == q;
    NormalizeFixesClean(p);
    NormalizeFixesClean(q);
    KeepPiece(p, [q], []);
    KeepPiece(q, [], [p]);
    assert [p] + [q] == [p, q] && [q] + [] == [q] && [] + [p] == [p];
  }

  lemma KeepOne(p: string)
    ensures |Keep([p], [])| <= 1
  {
    assert [p][1..] == [];
  }

  lemma PrintedHasNoSeparator(s: string)
    requires IsPrinted(s)
    ensures NoSeparator(s)
  {
  }

  lemma DisplayedLine(code: string, prefix: string)
    requires IsClean(code) && code != ""
    ensures NoSeparator(DisplayCode(code, prefix))
    ensures DisplayCode(code, prefix) != "" && Normalize(DisplayCode(code, prefix)) == code
  {
    DisplayIsPrinted(code, ToUpper(prefix));
    DisplayRoundTrip(code, ToUpper(prefix));
    PrintedHasNoSeparator(DisplayCode(code, prefix));
  }

  lemma ExportStarts(codes: seq<string>, prefix: string)
    requires IsCodeList(codes)
    ensures ExportText(codes, prefix) == "" || !IsSeparator(ExportText(codes, prefix)[0])
  {
    if codes != [] {
      DisplayedLine(codes[0], prefix);
      assert ExportText(codes, prefix)[0] == DisplayCode(codes[0], prefix)[0];
    }
  }

  /** Reading piece p of a code that was not seen. */
  lemma KeepPiece(p: string, pieces: seq<string>, seen: seq<string>)
    requires Normalize(p) != "" && Normalize(p) !in seen
    ensures Keep([p] + pieces, seen) == Keep(pieces, seen + [Normalize(p)])
  {
    assert ([p] + pieces)[1..] == pieces;
  }

  lemma TailOfList(codes: seq<string>, k: nat)
    requires IsCodeList(codes) && k < |codes|
    ensures IsCodeList(codes[k + 1..])
    ensures codes[k] !in codes[..k] && codes[..k] + [codes[k]] == codes[..k + 1]
    ensures codes[k..][0] == codes[k] && codes[k..][1..] == codes[k + 1..]
  {
  }

  lemma {:induction false} ExportReadsBackFrom(codes: seq<string>, prefix: string, k: nat)
    requires IsCodeList(codes) && k <= |codes|
    ensures Keep(Split(ExportText(codes[k..], prefix)), codes[..k]) == codes
    decreases |codes| - k
  {
    if k == |codes| {
      assert codes[k..] == [] && codes[..k] == codes;
      NothingIsKept(codes);
    } else {
      var p, rest := DisplayCode(codes[k], prefix), ExportText(codes[k + 1..], prefix);
      TailOfList(codes, k);
      DisplayedLine(codes[k], prefix);
      ExportStarts(codes[k + 1..], prefix);
      SplitLine(p, rest);
      KeepPiece(p, Split(rest), codes[..k]);
      ExportReadsBackFrom(codes, prefix, k + 1);
    }
  }

  lemma NothingIsKept(seen: seq<string>)
    ensures Keep(Split(""), seen) == seen
  {
  }

  /** Printer and parser undo each other: whatever the prefix, the page reads an export back. */
  lemma ExportReadsBack(codes: seq<string>, prefix: string)
    requires IsCodeList(codes)
    ensures ParseList(ExportText(codes, prefix)) == codes
  {
    ExportReadsBackFrom(codes, prefix, 0);
    assert codes[0..] == codes && codes[..0] == [];
  }

  lemma {:induction false} JoinReadsBackFrom(codes: seq<string>, k: nat)
    requires IsCodeList(codes) && k < |codes|
    ensures Keep(Split(Join(codes[k..], "\n")), codes[..k]) == codes
    decreases |codes| - k
  {
    var p := codes[k];
    NormalizeFixesClean(p);
    PrintedHasNoSeparator(p);
    TailOfList(codes, k);
    if k + 1 == |codes| {
      assert codes[k..] == [p] && codes[..k + 1] == codes;
      SplitWhole(p);
      KeepPiece(p, [], codes[..k]);
      assert [p] + [] == [p];
    } else {
      var rest := Join(codes[k + 1..], "\n");
      JoinStarts(codes[k + 1..]);
      SplitLine(p, rest);
      KeepPiece(p, Split(rest), codes[..k]);
      JoinReadsBackFrom(codes, k + 1);
    }
  }

  lemma JoinStarts(codes: seq<string>)
    requires IsCodeList(codes) && codes != []
    ensures Join(codes, "\n") != "" && !IsSeparator(Join(codes, "\n")[0])
  {
    assert Join(codes, "\n")[0] == codes[0][0];
  }

  /** A list written back one code a line is read as it was. */
  lemma JoinReadsBack(codes: seq<string>)
    requires IsCodeList(codes)
    ensures ParseList(Join(codes, "\n")) == codes
  {
    if codes == [] {
      NothingIsKept([]);
    } else {
      JoinReadsBackFrom(codes, 0);
      assert codes[0..] == codes && codes[..0] == [];
    }
  }

  // ----- Retry -----

  /** The codes of the refused items. */
  function FailedCodes(items: seq<BatchItem>): (r: seq<string>)
  {
    if items == [] then []
    else
      var n := |items| - 1;
      FailedCodes(items[..n]) + if items[n].ok then [] else [items[n].code]
  }

  /** The codes of the positions that were not granted. */
  function Refused(codes: seq<string>, answers: seq<Option<Response>>): (r: seq<string>)
    requires |codes| == |answers|
  {
    if codes == [] then []
    else
      var n := |codes| - 1;
      Refused(codes[..n], answers[..n]) + if answers[n].Some? && answers[n].value.ok then [] else [codes[n]]
  }

  lemma {:induction false} TrimFixesClean(s: string)
    requires IsClean(s)
    ensures TrimSpace(s) == s
  {
  }

  lemma {:induction false} RefusedIsCodeList(codes: seq<string>, answers: seq<Option<Response>>)
    requires |codes| == |answers| && IsCodeList(codes)
    ensures IsCodeList(Refused(codes, answers))
    ensures forall c :: c in Refused(codes, answers) ==> c in codes
  {
    if codes != [] {
      var n := |codes| - 1;
      RefusedIsCodeList(codes[..n], answers[..n]);
      assert codes[n] !in codes[..n];
    }
  }

  /** The page reads the refused codes off the items. */
  lemma {:induction false} ItemsShowRefused(codes: seq<string>, all: seq<string>, answers: seq<Option<Response>>)
    requires |codes| == |answers| && codes <= all && IsCodeList(codes)
    ensures FailedCodes(GroupOf(all, answers).results) == Refused(codes, answers)
  {
    if codes != [] {
      var n := |codes| - 1;
      ItemsShowRefused(codes[..n], all, answers[..n]);
      TrimFixesClean(codes[n]);
      var items := GroupOf(all, answers[..n]).results;
      var item := ItemOf(codes[n], answers[n]);
      assert GroupOf(all, answers).results == items + [item];
      assert (items + [item])[..|items|] == items;
    }
  }

  /** After a batch of a parsed list, the text left for a retry is read as exactly the refused codes. */
  lemma RetryReadsRefused(text: string, answers: seq<Option<Response>>)
    requires |answers| == |ParseList(text)|
    ensures var codes := ParseList(text);
            ParseList(Join(FailedCodes(GroupOf(codes, answers).results), "\n")) == Refused(codes, answers)
  {
    var codes := ParseList(text);
    ParsedCodes(text, "", 0);
    ItemsShowRefused(codes, codes, answers);
    RefusedIsCodeList(codes, answers);
    JoinReadsBack(Refused(codes, answers));
  }
}
