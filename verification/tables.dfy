/**
 * Tables kept as sequences of rows in storage order, and the queries the
 * services run on them: first match, filter, window, maximum and ordering.
 */
module Tables {
  import opened Wrappers

  function Min(a: int, b: int): int {
    if a <= b then a else b
  }

  /** Index of the first row satisfying `p`: the row a `findFirst` query returns. */
  function FirstIndex<T>(rows: seq<T>, p: T -> bool): (r: Option<nat>)
    ensures r.Some? ==> r.value < |rows| && p(rows[r.value])
    ensures r.Some? ==> forall j :: 0 <= j < r.value ==> !p(rows[j])
    ensures r.None? <==> forall j :: 0 <= j < |rows| ==> !p(rows[j])
  {
    if |rows| == 0 then None
    else if p(rows[0]) then Some(0)
    else
      match FirstIndex(rows[1..], p)
      case None => None
      case Some(i) => Some(i + 1)
  }

  /** The first row satisfying `p`, if any. */
  function First<T(!new)>(rows: seq<T>, p: T -> bool): (r: Option<T>)
    ensures r.Some? ==> r.value in rows && p(r.value)
    ensures r.None? <==> forall x :: x in rows ==> !p(x)
  {
    match FirstIndex(rows, p)
    case None => None
    case Some(i) => Some(rows[i])
  }

  /** The rows satisfying `p`, in storage order. */
  function Filter<T(!new)>(rows: seq<T>, p: T -> bool): (r: seq<T>)
    ensures |r| <= |rows|
    ensures forall x :: x in r <==> x in rows && p(x)
  {
    if |rows| == 0 then []
    else if p(rows[0]) then [rows[0]] + Filter(rows[1..], p)
    else Filter(rows[1..], p)
  }

  /** A filter keeps every matching row as often as it occurs, and no other row. */
  lemma {:induction false} FilterMultiplicity<T(!new)>(rows: seq<T>, p: T -> bool)
    ensures forall x :: multiset(Filter(rows, p))[x] == if p(x) then multiset(rows)[x] else 0
  {
    if |rows| > 0 {
      assert rows == [rows[0]] + rows[1..];
      FilterMultiplicity(rows[1..], p);
    }
  }

  /** Filtering distributes over concatenation. */
  lemma {:induction false} FilterAppend<T(!new)>(a: seq<T>, b: seq<T>, p: T -> bool)
    ensures Filter(a + b, p) == Filter(a, p) + Filter(b, p)
  {
    if |a| == 0 {
      assert a + b == b;
    } else {
      assert (a + b)[1..] == a[1..] + b;
      FilterAppend(a[1..], b, p);
    }
  }

  /** The `skip`/`take` window of a `findMany` query. */
  function Window<T>(rows: seq<T>, skip: nat, take: nat): (r: seq<T>)
    ensures |r| == if skip >= |rows| then 0 else Min(take, |rows| - skip)
    ensures forall i :: 0 <= i < |r| ==> r[i] == rows[skip + i]
  {
    if skip >= |rows| then [] else rows[skip .. Min(skip + take, |rows|)]
  }

  /** The first row whose `key` is greatest: `findFirst` with a descending `orderBy`. */
  function MaxBy<T(!new)>(rows: seq<T>, key: T -> int): (r: Option<T>)
    ensures r.None? <==> |rows| == 0
    ensures r.Some? ==> r.value in rows
    ensures r.Some? ==> forall x :: x in rows ==> key(x) <= key(r.value)
  {
    if |rows| == 0 then None
    else
      match MaxBy(rows[1..], key)
      case None => Some(rows[0])
      case Some(m) => if key(m) > key(rows[0]) then Some(m) else Some(rows[0])
  }

  /** `rows` is ordered by `key`, greatest first. */
  predicate SortedDesc<T>(rows: seq<T>, key: T -> int) {
    forall i, j :: 0 <= i < j < |rows| ==> key(rows[i]) >= key(rows[j])
  }

  /** Prepending a row whose key is at least the head's keeps a sequence descending. */
  lemma ConsSorted<T>(h: T, rows: seq<T>, key: T -> int)
    requires SortedDesc(rows, key)
    requires |rows| == 0 || key(h) >= key(rows[0])
    ensures SortedDesc([h] + rows, key)
  {
    var r := [h] + rows;
    forall i, j | 0 <= i < j < |r| ensures key(r[i]) >= key(r[j]) {
      if i == 0 {
        assert r[j] == rows[j - 1];
        assert key(rows[0]) >= key(rows[j - 1]);
      } else {
        assert r[i] == rows[i - 1] && r[j] == rows[j - 1];
      }
    }
  }

  /** Inserts `x` into a descending sequence, before the rows with an equal key. */
  function InsertDesc<T>(x: T, rows: seq<T>, key: T -> int): (r: seq<T>)
    requires SortedDesc(rows, key)
    ensures |r| == |rows| + 1
    ensures r[0] == x || (|rows| > 0 && r[0] == rows[0])
    ensures SortedDesc(r, key)
    ensures multiset(r) == multiset(rows) + multiset{x}
  {
    if |rows| == 0 || key(x) >= key(rows[0]) then
      ConsSorted(x, rows, key);
      [x] + rows
    else
      var rest := InsertDesc(x, rows[1..], key);
      assert rows == [rows[0]] + rows[1..];
      ConsSorted(rows[0], rest, key);
      [rows[0]] + rest
  }

  /** The rows ordered by `key`, greatest first: `orderBy: {key: 'desc'}`. */
  function SortDesc<T>(rows: seq<T>, key: T -> int): (r: seq<T>)
    ensures SortedDesc(r, key)
    ensures multiset(r) == multiset(rows)
  {
    if |rows| == 0 then []
    else
      assert rows == [rows[0]] + rows[1..];
      InsertDesc(rows[0], SortDesc(rows[1..], key), key)
  }
}
