/** The byte strings whose SHA-256 an idempotency key is bound to, and the comparison of two
    hashes (internal/redeem/service.go). UTF-8 is injective and writes a NUL byte for the NUL
    character alone, so the strings below stand for the bytes that are hashed. */
module RequestHash {
  import opened CodeText

  const NUL: char := '\0'
  const BATCH_MARK: string := "batch\0"

  predicate NulFree(s: string) {
    forall i :: 0 <= i < |s| ==> s[i] != NUL
  }

  /** hashRequest. */
  function SingleBytes(user: string, code: string): (r: string)
  {
    user + [NUL] + Normalize(code)
  }

  function CodeTail(codes: seq<string>): (r: string)
  {
    if codes == [] then ""
    else CodeTail(codes[..|codes| - 1]) + [NUL] + Normalize(codes[|codes| - 1])
  }

  /** hashBatchRequest. */
  function BatchBytes(user: string, codes: seq<string>): (r: string)
  {
    BATCH_MARK + user + CodeTail(codes)
  }

  /** hashBatchRequest as the loop of writes that it is. */
  method HashBatchRequest(user: string, codes: seq<string>) returns (written: string)
    ensures written == BatchBytes(user, codes)
  {
    written := BATCH_MARK;
    written := written + user;
    for i := 0 to |codes|
      invariant written == BATCH_MARK + user + CodeTail(codes[..i])
    {
      assert codes[..i + 1][..i] == codes[..i];
      written := written + [NUL];
      written := written + Normalize(codes[i]);
    }
    assert codes[..|codes|] == codes;
  }

  function NormalizeAll(codes: seq<string>): (r: seq<string>)
  {
    seq(|codes|, i requires 0 <= i < |codes| => Normalize(codes[i]))
  }

  lemma NormalizeIsNulFree(s: string)
    ensures NulFree(Normalize(s))
  {
    NormalizeIsClean(s);
  }

  /** A string is cut at its last NUL in one way only. */
  lemma CutAtLastNul(a: string, c: string, b: string, d: string)
    requires NulFree(c) && NulFree(d)
    ensures a + [NUL] + c == b + [NUL] + d <==> a == b && c == d
  {
    var s, t := a + [NUL] + c, b + [NUL] + d;
    assert s[|a|] == NUL && t[|b|] == NUL;
    assert forall k :: |a| < k < |s| ==> s[k] == c[k - |a| - 1];
    assert forall k :: |b| < k < |t| ==> t[k] == d[k - |b| - 1];
    if s == t {
      assert |a| == |b|;
      assert a == s[..|a|] && b == t[..|a|];
      assert c == s[|a| + 1..] && d == t[|a| + 1..];
    }
  }

  /** A single request's bytes determine its user and its normalised code, with no condition. */
  lemma SingleBytesDetermineRequest(u1: string, c1: string, u2: string, c2: string)
    ensures SingleBytes(u1, c1) == SingleBytes(u2, c2) <==> u1 == u2 && Normalize(c1) == Normalize(c2)
  {
    NormalizeIsNulFree(c1);
    NormalizeIsNulFree(c2);
    CutAtLastNul(u1, Normalize(c1), u2, Normalize(c2));
  }

  lemma Regroup(a: string, b: string, c: string, d: string)
    ensures a + (b + c + d) == a + b + c + d
  {
  }

  lemma TailStep(p: string, c: seq<string>)
    requires c != []
    ensures p + CodeTail(c) == p + CodeTail(c[..|c| - 1]) + [NUL] + Normalize(c[|c| - 1])
  {
    Regroup(p, CodeTail(c[..|c| - 1]), [NUL], Normalize(c[|c| - 1]));
  }

  lemma SameTail(p: string, c: seq<string>, q: string, d: seq<string>)
    requires c != [] && d != []
    ensures p + CodeTail(c) == q + CodeTail(d) <==>
            && p + CodeTail(c[..|c| - 1]) == q + CodeTail(d[..|d| - 1])
            && Normalize(c[|c| - 1]) == Normalize(d[|d| - 1])
  {
    TailStep(p, c);
    TailStep(q, d);
    NormalizeIsNulFree(c[|c| - 1]);
    NormalizeIsNulFree(d[|d| - 1]);
    CutAtLastNul(p + CodeTail(c[..|c| - 1]), Normalize(c[|c| - 1]),
                 q + CodeTail(d[..|d| - 1]), Normalize(d[|d| - 1]));
  }

  /** Two tails of equally many codes, one of them behind further codes. */
  lemma {:induction false} TailsAgree(p: string, c: seq<string>, q: string, more: seq<string>, d: seq<string>)
    requires |c| == |d|
    ensures p + CodeTail(c) == q + CodeTail(more + d) <==>
            p == q + CodeTail(more) && NormalizeAll(c) == NormalizeAll(d)
    decreases |c|
  {
    if c == [] {
      assert more + d == more;
      assert p + CodeTail(c) == p;
    } else {
      var n := |c| - 1;
      TailsAgree(p, c[..n], q, more, d[..n]);
      assert (more + d)[..|more| + n] == more + d[..n];
      SameTail(p, c, q, more + d);
      SameLastCode(c, d);
    }
  }

  lemma SameLast(a: seq<string>, x: string, b: seq<string>, y: string)
    ensures a + [x] == b + [y] <==> a == b && x == y
  {
    var s, t := a + [x], b + [y];
    assert s[..|s| - 1] == a && t[..|t| - 1] == b;
    assert s[|s| - 1] == x && t[|t| - 1] == y;
  }

  lemma SameLastCode(c: seq<string>, d: seq<string>)
    requires c != [] && |c| == |d|
    ensures NormalizeAll(c) == NormalizeAll(d) <==>
            NormalizeAll(c[..|c| - 1]) == NormalizeAll(d[..|d| - 1]) && Normalize(c[|c| - 1]) == Normalize(d[|d| - 1])
  {
    SplitLast(c);
    SplitLast(d);
    SameLast(NormalizeAll(c[..|c| - 1]), Normalize(c[|c| - 1]), NormalizeAll(d[..|d| - 1]), Normalize(d[|d| - 1]));
  }

  lemma SplitLast(c: seq<string>)
    requires c != []
    ensures NormalizeAll(c) == NormalizeAll(c[..|c| - 1]) + [Normalize(c[|c| - 1])]
  {
  }

  /** Exactly when two batch requests hash alike: the codes agree from the end, and what the
      longer list has more of sits inside the other request's user id. */
  lemma BatchBytesCollide(u1: string, c1: seq<string>, u2: string, c2: seq<string>)
    requires |c1| <= |c2|
    ensures BatchBytes(u1, c1) == BatchBytes(u2, c2) <==>
            && u1 == u2 + CodeTail(c2[..|c2| - |c1|])
            && NormalizeAll(c1) == NormalizeAll(c2[|c2| - |c1|..])
  {
    var k := |c2| - |c1|;
    TailsAgree(u1, c1, u2, c2[..k], c2[k..]);
    assert c2[..k] + c2[k..] == c2;
    DropMark(u1 + CodeTail(c1), u2 + CodeTail(c2));
    Tagged(u1, CodeTail(c1));
    Tagged(u2, CodeTail(c2));
  }

  lemma Tagged(u: string, tail: string)
    ensures BATCH_MARK + u + tail == BATCH_MARK + (u + tail)
  {
  }

  lemma DropMark(a: string, b: string)
    ensures BATCH_MARK + a == BATCH_MARK + b <==> a == b
  {
    assert a == (BATCH_MARK + a)[|BATCH_MARK|..];
    assert b == (BATCH_MARK + b)[|BATCH_MARK|..];
  }

  /** So batch bytes determine the request when user ids hold no NUL. */
  lemma BatchBytesDetermineRequest(u1: string, c1: seq<string>, u2: string, c2: seq<string>)
    requires NulFree(u1) && NulFree(u2)
    ensures BatchBytes(u1, c1) == BatchBytes(u2, c2) <==> u1 == u2 && NormalizeAll(c1) == NormalizeAll(c2)
  {
    if |c1| <= |c2| {
      OrderedBatchBytes(u1, c1, u2, c2);
    } else {
      OrderedBatchBytes(u2, c2, u1, c1);
    }
  }

  lemma OrderedBatchBytes(u1: string, c1: seq<string>, u2: string, c2: seq<string>)
    requires NulFree(u1) && |c1| <= |c2|
    ensures BatchBytes(u1, c1) == BatchBytes(u2, c2) <==> u1 == u2 && NormalizeAll(c1) == NormalizeAll(c2)
  {
    var k := |c2| - |c1|;
    BatchBytesCollide(u1, c1, u2, c2);
    if k == 0 {
      assert c2[..0] == [] && c2[0..] == c2;
      assert u2 + CodeTail([]) == u2;
    } else {
      TailHasNul(c2[..k]);
      assert |NormalizeAll(c1)| != |NormalizeAll(c2)|;
      if u1 == u2 + CodeTail(c2[..k]) {
        var i :| 0 <= i < |CodeTail(c2[..k])| && CodeTail(c2[..k])[i] == NUL;
        assert u1[|u2| + i] == NUL;
      }
    }
  }

  lemma TailHasNul(codes: seq<string>)
    requires codes != []
    ensures exists i :: 0 <= i < |CodeTail(codes)| && CodeTail(codes)[i] == NUL
  {
    assert CodeTail(codes)[|CodeTail(codes[..|codes| - 1])|] == NUL;
  }

  /** Exactly when a single request and a batch request hash alike: the single request's user id
      spells out the batch request up to its last code. */
  lemma SingleBatchBytesCollide(u1: string, c1: string, u2: string, c2: seq<string>)
    requires c2 != []
    ensures SingleBytes(u1, c1) == BatchBytes(u2, c2) <==>
            && u1 == BATCH_MARK + u2 + CodeTail(c2[..|c2| - 1])
            && Normalize(c1) == Normalize(c2[|c2| - 1])
  {
    var head := BATCH_MARK + u2 + CodeTail(c2[..|c2| - 1]);
    assert BatchBytes(u2, c2) == head + [NUL] + Normalize(c2[|c2| - 1]);
    NormalizeIsNulFree(c1);
    NormalizeIsNulFree(c2[|c2| - 1]);
    CutAtLastNul(u1, Normalize(c1), head, Normalize(c2[|c2| - 1]));
  }

  lemma SingleAndBatchBytesAreDisjoint(u1: string, c1: string, u2: string, c2: seq<string>)
    requires c2 != [] && NulFree(u1)
    ensures SingleBytes(u1, c1) != BatchBytes(u2, c2)
  {
    SingleBatchBytesCollide(u1, c1, u2, c2);
    assert (BATCH_MARK + u2 + CodeTail(c2[..|c2| - 1]))[5] == BATCH_MARK[5] == NUL;
  }

  /** The two collisions that a NUL in a user id makes possible. */
  lemma NulMakesRequestsCollide()
    ensures BatchBytes("a\0B", ["C"]) == BatchBytes("a", ["B", "C"])
    ensures SingleBytes("batch\0a", "C") == BatchBytes("a", ["C"])
  {
  }

  /** equalHash: the differences of all positions are or-ed together. */
  method EqualHash(a: seq<bv8>, b: seq<bv8>) returns (equal: bool)
    ensures equal <==> a == b
  {
    if |a| != |b| {
      return false;
    }
    var different: bv8 := 0;
    for i := 0 to |a|
      invariant different == 0 <==> a[..i] == b[..i]
    {
      OrOfDifferences(different, a[i], b[i]);
      assert a[..i + 1] == a[..i] + [a[i]] && b[..i + 1] == b[..i] + [b[i]];
      different := different | (a[i] ^ b[i]);
    }
    assert a[..|a|] == a && b[..|b|] == b;
    return different == 0;
  }

  lemma OrOfDifferences(d: bv8, x: bv8, y: bv8)
    ensures d | (x ^ y) == 0 <==> d == 0 && x == y
  {
  }
}
