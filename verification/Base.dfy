/** Vocabulary shared by every module: optional values, the least row id of a set
    and the size of subsets. */
module Base {

  datatype Option<+T> = None | Some(value: T)

  type Time = int

  predicate IsLeast(ids: set<nat>, m: nat) {
    m in ids && forall x :: x in ids ==> m <= x
  }

  /** `ORDER BY id ASC LIMIT 1`: the smallest id, if there is one. */
  function Least(ids: set<nat>): (r: Option<nat>)
    ensures r.None? <==> ids == {}
    ensures r.Some? ==> IsLeast(ids, r.value)
  {
    if ids == {} then None
    else
      LeastExists(ids);
      var m :| IsLeast(ids, m);
      Some(m)
  }

  lemma {:induction false} LeastExists(ids: set<nat>)
    requires ids != {}
    ensures exists m :: IsLeast(ids, m)
  {
    var y :| y in ids;
    if ids == {y} {
      assert IsLeast(ids, y);
    } else {
      var rest := ids - {y};
      assert ids == rest + {y};
      LeastExists(rest);
      var m :| IsLeast(rest, m);
      assert IsLeast(ids, if y < m then y else m);
    }
  }

  lemma {:induction false} SubsetSize<T>(a: set<T>, b: set<T>)
    requires a <= b
    ensures |a| <= |b|
  {
    assert b == a + (b - a);
  }

  lemma CoverSize<T>(a: set<T>, b: set<T>, c: set<T>)
    requires a <= b + c
    ensures |a| <= |b| + |c|
  {
    SubsetSize(a, b + c);
    assert |b + c| == |b| + |c| - |b * c|;
  }

  function Pow(b: nat, n: nat): (r: nat)
  {
    if n == 0 then 1 else b * Pow(b, n - 1)
  }

  lemma {:induction false} PowGrows(b: nat, m: nat, n: nat)
    requires b >= 1 && m <= n
    ensures 1 <= Pow(b, m) <= Pow(b, n)
  {
    if m < n {
      PowGrows(b, m, n - 1);
      Scaled(Pow(b, n - 1), 1, b);
    } else if m > 0 {
      PowGrows(b, m - 1, n - 1);
      Scaled(b, 1, Pow(b, m - 1));
    }
  }

  lemma Scaled(k: nat, x: int, y: int)
    requires x <= y
    ensures k * x <= k * y
  {
  }
}
