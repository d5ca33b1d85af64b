/** Paging through the credentials (internal/httpapi/credentials.go and the ListCredentials query). */
module CredentialPages {
  import opened Base
  import opened CodeText
  import opened Tables

  // ----- strconv.ParseInt in base ten -----

  function DigitsValue(s: string): (v: int)
    requires forall i :: 0 <= i < |s| ==> IsDigit(s[i])
  {
    if s == "" then 0 else DigitsValue(s[..|s| - 1]) * 10 + (s[|s| - 1] as int - '0' as int)
  }

  predicate IsNumber(s: string) {
    s != "" && forall i :: 0 <= i < |s| ==> IsDigit(s[i])
  }

  /** An optional sign and digits, for a value in [-bound, bound). */
  function ParseInt(s: string, bound: int): (r: Option<int>)
  {
    var signed := s != "" && (s[0] == '+' || s[0] == '-');
    var digits := if signed then s[1..] else s;
    if !IsNumber(digits) then None
    else
      var v := if signed && s[0] == '-' then -DigitsValue(digits) else DigitsValue(digits);
      if -bound <= v < bound then Some(v) else None
  }

  /** The decimal text of a number. */
  function Decimal(n: nat): (s: string)
  {
    (if n < 10 then "" else Decimal(n / 10)) + ['0' + (n % 10) as char]
  }

  lemma {:induction false} DecimalIsNumber(n: nat)
    ensures IsNumber(Decimal(n)) && DigitsValue(Decimal(n)) == n
  {
    var front := if n < 10 then "" else Decimal(n / 10);
    if n >= 10 {
      DecimalIsNumber(n / 10);
    }
    assert Decimal(n)[..|Decimal(n)| - 1] == front;
  }

  /** The text of a number is read as that number exactly when it is in range. */
  lemma ParseIntReadsDecimal(n: nat, bound: int)
    ensures ParseInt(Decimal(n), bound) == (if n < bound then Some(n) else None)
  {
    DecimalIsNumber(n);
    assert IsDigit(Decimal(n)[0]);
  }

  /** A minus is read as the opposite, again exactly when that is in range. */
  lemma ParseIntReadsMinus(n: nat, bound: nat)
    ensures ParseInt("-" + Decimal(n), bound) == (if n <= bound && 0 < n + bound then Some(0 - n) else None)
  {
    DecimalIsNumber(n);
    assert ("-" + Decimal(n))[1..] == Decimal(n);
  }

  // ----- The request -----

  const INT32: int := 0x8000_0000

  const INT64: int := 0x8000_0000_0000_0000

  datatype Window = Window(page: int, size: int, offset: int)

  datatype Paging = Accepted(window: Window) | BadSize | PageOutOfRange

  /** A page that is missing, malformed, out of int64 or below one is page one. */
  function WantedPage(raw: string): (page: int)
  {
    var parsed := ParseInt(raw, INT64);
    if parsed.Some? && parsed.value > 0 then parsed.value else 1
  }

  /** parseCredentialPagination. With an allowed size a page is accepted exactly when its offset
      fits in an int32, and then neither the product nor the conversion loses anything. */
  method ParsePagination(pageRaw: string, sizeRaw: string) returns (r: Paging)
    ensures var size := if sizeRaw == "" then Some(50) else ParseInt(sizeRaw, 2147483648);
            var parsed := ParseInt(pageRaw, 9223372036854775808);
            var page := if parsed.Some? && parsed.value > 0 then parsed.value else 1;
            && (r.BadSize? <==> size.None? || size.value !in {20, 50, 100, 200, 500})
            && (r.Accepted? <==> !r.BadSize? && (page - 1) * size.value <= 2147483647)
            && (r.Accepted? ==>
                  r.window == Window(page, size.value, (page - 1) * size.value) && 0 <= r.window.offset <= 2147483647)
  {
    var size := 50;
    if sizeRaw != "" {
      var parsed := ParseInt(sizeRaw, INT32);
      if parsed.None? {
        return BadSize;
      }
      size := parsed.value;
      if size !in {20, 50, 100, 200, 500} {
        return BadSize;
      }
    }
    var page := 1;
    if pageRaw != "" {
      var parsed := ParseInt(pageRaw, INT64);
      if parsed.Some? && parsed.value > 0 {
        page := parsed.value;
      }
    }
    OffsetFits(page - 1, size, INT32 - 1);
    if page - 1 > (INT32 - 1) / size {
      return PageOutOfRange;
    }
    return Accepted(Window(page, size, (page - 1) * size));
  }

  lemma OffsetFits(k: nat, size: nat, limit: nat)
    requires size > 0
    ensures k <= limit / size <==> k * size <= limit
  {
    var q := limit / size;
    assert q * size <= limit < (q + 1) * size;
    if k <= q {
      assert k * size <= q * size;
    } else {
      assert (q + 1) * size <= k * size;
    }
  }

  // ----- The listing -----

  datatype State = All | Used | Unused

  function Matching(credentials: map<nat, Credential>, state: State): (ids: set<nat>)
  {
    set id | id in credentials && (state == All || (state == Used <==> credentials[id].used))
  }

  ghost predicate IsGreatest(ids: set<nat>, m: nat) { m in ids && forall x :: x in ids ==> x <= m }

  lemma {:induction false} GreatestExists(ids: set<nat>)
    requires ids != {}
    ensures exists m :: IsGreatest(ids, m)
  {
    var y :| y in ids;
    if ids == {y} {
      assert IsGreatest(ids, y);
    } else {
      var rest := ids - {y};
      assert ids == rest + {y};
      GreatestExists(rest);
      var m :| IsGreatest(rest, m);
      assert IsGreatest(ids, if y > m then y else m);
    }
  }

  ghost function Greatest(ids: set<nat>): (m: nat)
    requires ids != {}
    ensures IsGreatest(ids, m)
  {
    GreatestExists(ids);
    var m :| IsGreatest(ids, m);
    m
  }

  /** ORDER BY id DESC. */
  ghost function Descending(ids: set<nat>): (s: seq<nat>)
    ensures |s| == |ids|
  {
    if ids == {} then [] else [Greatest(ids)] + Descending(ids - {Greatest(ids)})
  }

  /** The listing holds exactly the matching rows. */
  lemma {:induction false} DescendingHolds(ids: set<nat>, x: nat)
    ensures x in Descending(ids) <==> x in ids
  {
    if ids != {} {
      DescendingHolds(ids - {Greatest(ids)}, x);
    }
  }

  /** The rows that a state filter lists. */
  lemma ListedAre(credentials: map<nat, Credential>, state: State, id: nat)
    ensures id in Descending(Matching(credentials, state))
       <==> && id in credentials
            && match state
               case All => true
               case Used => credentials[id].used
               case Unused => !credentials[id].used
  {
    DescendingHolds(Matching(credentials, state), id);
  }

  lemma HeadAndTail(ids: set<nat>, j: nat)
    requires 0 < j < |ids|
    ensures Descending(ids)[0] == Greatest(ids)
    ensures Descending(ids)[j] == Descending(ids - {Greatest(ids)})[j - 1] < Greatest(ids)
  {
    var m := Greatest(ids);
    var rest := Descending(ids - {m});
    assert Descending(ids) == [m] + rest;
    DescendingHolds(ids - {m}, rest[j - 1]);
    Bounded(ids, m, rest[j - 1]);
  }

  lemma Bounded(ids: set<nat>, m: nat, x: nat)
    requires IsGreatest(ids, m) && x in ids - {m}
    ensures x < m
  {
  }

  /** Strictly descending, so each matching row stands there once. */
  lemma {:induction false} DescendingIsSorted(ids: set<nat>, i: nat, j: nat)
    requires i < j < |ids|
    ensures Descending(ids)[i] > Descending(ids)[j]
  {
    HeadAndTail(ids, j);
    if i > 0 {
      HeadAndTail(ids, i);
      DescendingIsSorted(ids - {Greatest(ids)}, i - 1, j - 1);
    }
  }

  /** LIMIT size OFFSET offset. */
  function Slice(list: seq<nat>, size: nat, offset: nat): (s: seq<nat>)
  {
    var from := if offset < |list| then offset else |list|;
    var to := if offset + size < |list| then offset + size else |list|;
    list[from..to]
  }

  /** The page count of ListCredentials. */
  function PageCount(total: nat, size: nat): (pages: nat)
    requires size > 0
  {
    total / size + if total % size != 0 then 1 else 0
  }

  function PageOf(list: seq<nat>, size: nat, page: nat): (s: seq<nat>)
    requires page >= 1
  {
    Slice(list, size, (page - 1) * size)
  }

  /** Pages 1..n, one after another. */
  function PagesUpTo(list: seq<nat>, size: nat, n: nat): (s: seq<nat>)
  {
    if n == 0 then [] else PagesUpTo(list, size, n - 1) + PageOf(list, size, n)
  }

  lemma {:induction false} PagesArePrefix(list: seq<nat>, size: nat, n: nat)
    ensures PagesUpTo(list, size, n) == if n * size <= |list| then list[..n * size] else list
  {
    if n > 0 {
      PagesArePrefix(list, size, n - 1);
      assert n * size == (n - 1) * size + size;
    }
  }

  /** The page count is the least number of pages that hold everything. */
  lemma PageCountIsLeast(total: nat, size: nat, n: nat)
    requires size > 0
    ensures n >= PageCount(total, size) <==> n * size >= total
  {
    var q := total / size;
    assert total == q * size + total % size;
    if n <= q {
      assert n * size <= q * size;
      if n < q {
        assert (n + 1) * size <= q * size;
      }
    } else {
      assert (q + 1) * size <= n * size;
    }
  }

  lemma PageIsEmptyIff(list: seq<nat>, size: nat, page: nat)
    requires size > 0 && page >= 1
    ensures page <= PageCount(|list|, size) <==> PageOf(list, size, page) != []
  {
    PageCountIsLeast(|list|, size, page - 1);
    SliceIsEmptyIff(list, size, (page - 1) * size);
  }

  lemma SliceIsEmptyIff(list: seq<nat>, size: nat, offset: nat)
    requires size > 0
    ensures offset < |list| <==> Slice(list, size, offset) != []
  {
  }

  lemma PagesMakeTheList(list: seq<nat>, size: nat)
    requires size > 0
    ensures PagesUpTo(list, size, PageCount(|list|, size)) == list
  {
    var n := PageCount(|list|, size);
    PageCountIsLeast(|list|, size, n);
    PagesArePrefix(list, size, n);
    if n * size == |list| {
      assert list[..n * size] == list;
    }
  }

  /** Pages 1..pages concatenate to the listing, none of them is empty, and every later page is. */
  lemma PagesMakeTheListing(credentials: map<nat, Credential>, state: State, size: nat, page: nat)
    requires size > 0 && page >= 1
    ensures var list := Descending(Matching(credentials, state));
            && PagesUpTo(list, size, PageCount(|list|, size)) == list
            && (page <= PageCount(|list|, size) <==> PageOf(list, size, page) != [])
  {
    var list := Descending(Matching(credentials, state));
    PagesMakeTheList(list, size);
    PageIsEmptyIff(list, size, page);
  }

  /** A page holds the next `size` rows of the listing, or what is left of it. */
  lemma PageRows(list: seq<nat>, size: nat, page: nat, i: nat)
    requires page >= 1 && size > 0
    ensures var start := (page - 1) * size;
            if start + i < |list| && i < size
            then i < |PageOf(list, size, page)| && PageOf(list, size, page)[i] == list[start + i]
            else i >= |PageOf(list, size, page)|
  {
    SliceRows(list, size, (page - 1) * size, i);
  }

  lemma SliceRows(list: seq<nat>, size: nat, start: nat, i: nat)
    ensures if start + i < |list| && i < size
            then i < |Slice(list, size, start)| && Slice(list, size, start)[i] == list[start + i]
            else i >= |Slice(list, size, start)|
  {
  }

  lemma SlicePlace(list: seq<nat>, size: nat, offset: nat, x: nat) returns (i: nat)
    requires x in Slice(list, size, offset)
    ensures offset <= i < offset + size && i < |list| && list[i] == x
  {
    var s := Slice(list, size, offset);
    var k :| 0 <= k < |s| && s[k] == x;
    i := offset + k;
  }

  /** Different pages share no row. */
  lemma PagesAreDisjoint(ids: set<nat>, size: nat, p: nat, q: nat, x: nat)
    requires 1 <= p < q && x in PageOf(Descending(ids), size, p)
    ensures x !in PageOf(Descending(ids), size, q)
  {
    var list := Descending(ids);
    if x in PageOf(list, size, q) {
      var i := SlicePlace(list, size, (p - 1) * size, x);
      var j := SlicePlace(list, size, (q - 1) * size, x);
      PageStarts(p, q, size);
      DescendingIsSorted(ids, i, j);
    }
  }

  lemma {:induction false} PageStarts(p: nat, q: nat, size: nat)
    requires 1 <= p < q
    ensures (p - 1) * size + size <= (q - 1) * size
  {
    if p + 1 < q {
      PageStarts(p, q - 1, size);
    }
    assert (q - 1) * size == (q - 2) * size + size;
  }

  lemma ProductGrows(k: nat, size: nat)
    requires size > 0
    ensures k <= k * size
  {
  }

  /** A page below one is read as page one. */
  lemma LowPagesAreFirst(n: nat)
    ensures WantedPage(Decimal(0)) == 1 && WantedPage("-" + Decimal(n)) == 1
  {
    ParseIntReadsDecimal(0, INT64);
    ParseIntReadsMinus(n, INT64);
  }

  /** Every page of a listing of at most 2^31 rows can be asked for: its text is read as its
      number, and its offset is in range. */
  lemma EveryPageCanBeAskedFor(total: nat, size: nat, page: nat)
    requires size > 0 && total <= INT32 && 1 <= page <= PageCount(total, size)
    ensures WantedPage(Decimal(page)) == page && (page - 1) * size <= INT32 - 1
  {
    PageCountIsLeast(total, size, page - 1);
    ProductGrows(page - 1, size);
    ParseIntReadsDecimal(page, INT64);
  }
}
