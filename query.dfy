/** Table queries as the handlers use them: `fetchone` of a `WHERE` (the first
    matching row in table order), `ORDER BY id DESC LIMIT 1` (the last
    matching row, since ids grow along a table), `WHERE` filters and `DELETE`,
    and `ORDER BY key DESC`. */
module Query {
  import opened Common

  /** The position of the first row that satisfies `p`, or `|s|` if none does. */
  function FirstIndex<T>(s: seq<T>, p: T -> bool): (k: nat)
    ensures k <= |s|
    ensures forall j :: 0 <= j < k ==> !p(s[j])
    ensures k < |s| ==> p(s[k])
  {
    if s == [] || p(s[0]) then 0
    else
      var k := FirstIndex(s[1..], p);
      assert forall j :: 1 <= j < k + 1 ==> s[j] == s[1..][j - 1];
      k + 1
  }

  /** `SELECT ... WHERE p LIMIT 1`: the first row that satisfies `p`. */
  function FirstWhere<T>(s: seq<T>, p: T -> bool): (r: Option<T>)
    ensures r.None? <==> forall k :: 0 <= k < |s| ==> !p(s[k])
    ensures r.Some? ==> FirstIndex(s, p) < |s| && r.value == s[FirstIndex(s, p)] && p(r.value)
  {
    var k := FirstIndex(s, p);
    if k < |s| then Some(s[k]) else None
  }

  /** The position of the last row that satisfies `p`, or -1 if none does. */
  function LastIndex<T>(s: seq<T>, p: T -> bool): (k: int)
    ensures -1 <= k < |s|
    ensures forall j :: k < j < |s| ==> !p(s[j])
    ensures k >= 0 ==> p(s[k])
  {
    if s == [] then -1
    else if p(s[|s| - 1]) then |s| - 1
    else
      var k := LastIndex(s[..|s| - 1], p);
      assert forall j :: 0 <= j < |s| - 1 ==> s[..|s| - 1][j] == s[j];
      k
  }

  /** `SELECT ... WHERE p ORDER BY id DESC LIMIT 1` over a table whose ids grow
      with position: the last row that satisfies `p`. */
  function LastWhere<T>(s: seq<T>, p: T -> bool): (r: Option<T>)
    ensures r.None? <==> forall k :: 0 <= k < |s| ==> !p(s[k])
    ensures r.Some? ==> 0 <= LastIndex(s, p) && r.value == s[LastIndex(s, p)] && p(r.value)
  {
    var k := LastIndex(s, p);
    if k >= 0 then Some(s[k]) else None
  }

  /** `SELECT ... WHERE p`, in table order. */
  function Filter<T(==,!new)>(s: seq<T>, p: T -> bool): (r: seq<T>)
    ensures |r| <= |s|
    ensures forall x :: x in r <==> x in s && p(x)
    ensures multiset(r) <= multiset(s)
  {
    if s == [] then []
    else
      assert s == [s[0]] + s[1..];
      if p(s[0]) then [s[0]] + Filter(s[1..], p) else Filter(s[1..], p)
  }

  lemma {:induction false} FilterAppend<T(!new)>(s: seq<T>, t: seq<T>, p: T -> bool)
    ensures Filter(s + t, p) == Filter(s, p) + Filter(t, p)
  {
    if s != [] {
      assert (s + t)[1..] == s[1..] + t;
      FilterAppend(s[1..], t, p);
    } else {
      assert s + t == t;
    }
  }

  /** A filter keeps the relative order of the rows it keeps: a key that grows
      strictly along `s` grows strictly along the result. */
  lemma {:induction false} FilterKeepsIncreasing<T(!new)>(s: seq<T>, p: T -> bool, key: T -> int)
    requires forall i, j :: 0 <= i < j < |s| ==> key(s[i]) < key(s[j])
    ensures forall i, j :: 0 <= i < j < |Filter(s, p)| ==> key(Filter(s, p)[i]) < key(Filter(s, p)[j])
  {
    if s != [] {
      FilterKeepsIncreasing(s[1..], p, key);
      var rest := Filter(s[1..], p);
      forall x | x in rest ensures key(s[0]) < key(x) {
        var k :| 0 <= k < |s[1..]| && s[1..][k] == x;
        assert s[k + 1] == x;
      }
    }
  }

  /** The keys along `s` never increase. */
  ghost predicate NonIncreasing<T>(s: seq<T>, key: T -> int) {
    forall i, j :: 0 <= i < j < |s| ==> key(s[i]) >= key(s[j])
  }

  /** Put `x` in front of the first row whose key is not larger. Rows with a
      key equal to `x`'s stay behind it. */
  function InsertByKey<T(==)>(x: T, s: seq<T>, key: T -> int): (r: seq<T>)
    ensures |r| == |s| + 1
    ensures multiset(r) == multiset(s) + multiset{x}
  {
    if s == [] || key(x) >= key(s[0]) then [x] + s
    else
      assert s == [s[0]] + s[1..];
      [s[0]] + InsertByKey(x, s[1..], key)
  }

  lemma {:induction false} InsertKeepsOrder<T>(x: T, s: seq<T>, key: T -> int)
    requires NonIncreasing(s, key)
    ensures NonIncreasing(InsertByKey(x, s, key), key)
  {
    if s != [] && key(x) < key(s[0]) {
      assert NonIncreasing(s[1..], key) by {
        forall i, j | 0 <= i < j < |s[1..]| ensures key(s[1..][i]) >= key(s[1..][j]) {
          assert s[1..][i] == s[i + 1] && s[1..][j] == s[j + 1];
        }
      }
      InsertKeepsOrder(x, s[1..], key);
      var r := InsertByKey(x, s[1..], key);
      forall y | y in r ensures key(s[0]) >= key(y) {
        assert y in multiset(r);
        if y != x {
          assert y in multiset(s[1..]);
          var k :| 0 <= k < |s[1..]| && s[1..][k] == y;
          assert s[k + 1] == y;
        }
      }
    }
  }

  /** `ORDER BY key DESC`. Rows with equal keys keep their table order; the
      database promises no order among them, so this is one of the orders it
      may return. */
  function SortByKeyDesc<T(==)>(s: seq<T>, key: T -> int): (r: seq<T>)
    ensures multiset(r) == multiset(s)
    ensures |r| == |s|
  {
    if s == [] then []
    else
      assert s == [s[0]] + s[1..];
      InsertByKey(s[0], SortByKeyDesc(s[1..], key), key)
  }

  /** The sort's result is ordered by the key. */
  lemma {:induction false} SortIsOrdered<T>(s: seq<T>, key: T -> int)
    ensures NonIncreasing(SortByKeyDesc(s, key), key)
  {
    if s != [] {
      SortIsOrdered(s[1..], key);
      InsertKeepsOrder(s[0], SortByKeyDesc(s[1..], key), key);
    }
  }
}
