/** Small shared vocabulary: optional values, controller responses and the
    first-match / filter / count / fresh-id helpers that the controllers use
    through LINQ (FirstOrDefault, Where, Count) and the database's
    auto-increment keys. */
module Common {

  datatype Option<+T> = None | Some(value: T)

  /** What a controller action answers. `ServerError` stands for an exception
      that escapes the action (the request fails and nothing is saved). */
  datatype Response<+T> = Ok(value: T) | BadRequest | NotFound | ServerError

  /** C#'s `(int)` conversion of a decimal: truncation toward zero. */
  function TruncateToInt(x: real): (n: int)
    ensures n as real <= x < n as real + 1.0 || n as real - 1.0 < x <= n as real
    ensures x >= 0.0 ==> n >= 0 && n as real <= x
    ensures x < 0.0 ==> n <= 0 && x <= n as real
  {
    if x >= 0.0 then x.Floor else -((-x).Floor)
  }

  /** C#'s `/` on int: the quotient truncated toward zero (`d != 0`). */
  function TruncDiv(a: int, d: int): int
    requires d != 0
  {
    if (a >= 0) == (d > 0) then
      (if a >= 0 then a / d else (-a) / (-d))
    else
      -((if a >= 0 then a else -a) / (if d >= 0 then d else -d))
  }

  /** C#'s `%` on int: the remainder takes the sign of the dividend. */
  function TruncRem(a: int, d: int): (r: int)
    requires d != 0
    ensures a == TruncDiv(a, d) * d + r
  {
    a - TruncDiv(a, d) * d
  }

  /** Index of the first row satisfying `p` (LINQ `FirstOrDefault`). */
  function Find<T>(rows: seq<T>, p: T -> bool): (r: Option<nat>)
    ensures r.Some? ==> r.value < |rows| && p(rows[r.value])
    ensures r.Some? ==> forall j :: 0 <= j < r.value ==> !p(rows[j])
    ensures r.None? <==> forall j :: 0 <= j < |rows| ==> !p(rows[j])
  {
    if rows == [] then None
    else if p(rows[0]) then Some(0)
    else match Find(rows[1..], p)
      case None => None
      case Some(k) => Some(k + 1)
  }

  /** The rows satisfying `p`, in table order (LINQ `Where`). */
  function Filter<T(!new)>(s: seq<T>, p: T -> bool): (r: seq<T>)
    ensures |r| <= |s|
    ensures forall x :: x in r <==> x in s && p(x)
  {
    if s == [] then []
    else Filter(s[..|s| - 1], p) + (if p(s[|s| - 1]) then [s[|s| - 1]] else [])
  }

  /** Number of rows satisfying `p` (LINQ `Count(predicate)`). */
  function CountWhere<T>(s: seq<T>, p: T -> bool): (n: nat)
    ensures n <= |s|
    ensures n == 0 <==> forall j :: 0 <= j < |s| ==> !p(s[j])
  {
    if s == [] then 0
    else CountWhere(s[..|s| - 1], p) + (if p(s[|s| - 1]) then 1 else 0)
  }

  /** The key the database assigns to a new row: larger than every key in use. */
  function NextId<T>(rows: seq<T>, key: T -> int): (n: int)
    ensures n >= 1
    ensures forall j :: 0 <= j < |rows| ==> key(rows[j]) < n
  {
    if rows == [] then 1
    else
      var m := NextId(rows[..|rows| - 1], key);
      var k := key(rows[|rows| - 1]);
      if k < m then m else k + 1
  }

  /** `n` copies of `s` one after the other. */
  function Repeat<T(!new)>(s: seq<T>, n: nat): (r: seq<T>)
    ensures forall x :: x in r <==> n > 0 && x in s
  {
    if n == 0 then [] else Repeat(s, n - 1) + s
  }

  lemma {:induction false} FilterCountAgree<T(!new)>(s: seq<T>, p: T -> bool)
    ensures |Filter(s, p)| == CountWhere(s, p)
  {
    if s != [] { FilterCountAgree(s[..|s| - 1], p); }
  }

  lemma {:induction false} FilterExtensional<T(!new)>(s: seq<T>, p: T -> bool, q: T -> bool)
    requires forall x :: x in s ==> p(x) == q(x)
    ensures Filter(s, p) == Filter(s, q)
  {
    if s != [] { FilterExtensional(s[..|s| - 1], p, q); }
  }

  lemma {:induction false} FilterKeepsAll<T(!new)>(s: seq<T>, p: T -> bool)
    requires forall x :: x in s ==> p(x)
    ensures Filter(s, p) == s
  {
    if s != [] {
      assert s == s[..|s| - 1] + [s[|s| - 1]];
      FilterKeepsAll(s[..|s| - 1], p);
    }
  }

  /** Filtering distributes over concatenation. */
  lemma {:induction false} FilterConcat<T(!new)>(a: seq<T>, b: seq<T>, p: T -> bool)
    ensures Filter(a + b, p) == Filter(a, p) + Filter(b, p)
    decreases |b|
  {
    if b == [] {
      assert a + b == a;
    } else {
      var n := |b| - 1;
      assert (a + b)[..|a + b| - 1] == a + b[..n];
      FilterConcat(a, b[..n], p);
    }
  }

  /** Adding a row adds one to the count exactly when the row satisfies `p`. */
  lemma CountWhereAppend<T>(s: seq<T>, x: T, p: T -> bool)
    ensures CountWhere(s + [x], p) == CountWhere(s, p) + (if p(x) then 1 else 0)
  {
    assert (s + [x])[..|s|] == s;
  }

  lemma {:induction false} CountWhereConcat<T>(a: seq<T>, b: seq<T>, p: T -> bool)
    ensures CountWhere(a + b, p) == CountWhere(a, p) + CountWhere(b, p)
    decreases |b|
  {
    if b == [] {
      assert a + b == a;
    } else {
      var n := |b| - 1;
      assert (a + b)[..|a + b| - 1] == a + b[..n];
      CountWhereConcat(a, b[..n], p);
    }
  }
}
