/** A database table is a sequence of rows; a row's id is its position. This module holds the few
    queries every service makes (sum, first match, filter) and how they react to insert and update. */
module Tables {

  datatype Option<+T> = None | Some(value: T) {
    function GetOr(default: T): T {
      match this
      case Some(v) => v
      case None => default
    }
  }

  /** SELECT SUM(f(row)) FROM rows */
  function Sum<T>(rows: seq<T>, f: T -> int): int {
    if rows == [] then 0 else Sum(rows[..|rows| - 1], f) + f(rows[|rows| - 1])
  }

  /** The first row satisfying p, as `.filter(p).first()`. */
  function Find<T>(rows: seq<T>, p: T -> bool): (r: Option<nat>)
    ensures r.Some? ==> r.value < |rows| && p(rows[r.value])
    ensures r.Some? ==> forall j :: 0 <= j < r.value ==> !p(rows[j])
    ensures r.None? ==> forall j :: 0 <= j < |rows| ==> !p(rows[j])
  {
    if rows == [] then None
    else
      var init := rows[..|rows| - 1];
      match Find(init, p)
      case Some(i) => Some(i)
      case None => if p(rows[|rows| - 1]) then Some(|rows| - 1) else None
  }

  /** `.filter(p)`: the matching rows, in table order. */
  function Keep<T(!new)>(rows: seq<T>, p: T -> bool): (r: seq<T>)
    ensures forall x :: x in r <==> x in rows && p(x)
  {
    if rows == [] then []
    else
      var last := rows[|rows| - 1];
      var init := Keep(rows[..|rows| - 1], p);
      assert rows == rows[..|rows| - 1] + [last];
      if p(last) then init + [last] else init
  }

  lemma SumAppend<T>(rows: seq<T>, x: T, f: T -> int)
    ensures Sum(rows + [x], f) == Sum(rows, f) + f(x)
  {
    assert (rows + [x])[..|rows|] == rows;
  }

  lemma {:induction false} SumConcat<T>(a: seq<T>, b: seq<T>, f: T -> int)
    ensures Sum(a + b, f) == Sum(a, f) + Sum(b, f)
  {
    if b == [] {
      assert a + b == a;
    } else {
      var init := b[..|b| - 1];
      assert a + b == (a + init) + [b[|b| - 1]];
      SumAppend(a + init, b[|b| - 1], f);
      SumConcat(a, init, f);
    }
  }

  lemma {:induction false} SumUpdate<T>(rows: seq<T>, i: nat, x: T, f: T -> int)
    requires i < |rows|
    ensures Sum(rows[i := x], f) == Sum(rows, f) - f(rows[i]) + f(x)
  {
    var n := |rows| - 1;
    if i == n {
      assert rows[i := x][..n] == rows[..n];
    } else {
      assert rows[i := x][..n] == rows[..n][i := x];
      SumUpdate(rows[..n], i, x, f);
    }
  }

  lemma {:induction false} SumRemove<T>(rows: seq<T>, i: nat, f: T -> int)
    requires i < |rows|
    ensures Sum(rows[..i] + rows[i + 1..], f) == Sum(rows, f) - f(rows[i])
  {
    assert rows == rows[..i + 1] + rows[i + 1..];
    SumConcat(rows[..i + 1], rows[i + 1..], f);
    SumConcat(rows[..i], rows[i + 1..], f);
    assert rows[..i + 1] == rows[..i] + [rows[i]];
    SumAppend(rows[..i], rows[i], f);
  }

  /** Two columns that agree on every row have the same sum. */
  lemma {:induction false} SumSame<T, U>(a: seq<T>, b: seq<U>, f: T -> int, g: U -> int)
    requires |a| == |b| && forall i :: 0 <= i < |a| ==> f(a[i]) == g(b[i])
    ensures Sum(a, f) == Sum(b, g)
  {
    if a != [] {
      SumSame(a[..|a| - 1], b[..|b| - 1], f, g);
    }
  }

  lemma {:induction false} SumAtMost<T>(a: seq<T>, b: seq<T>, f: T -> int, g: T -> int)
    requires |a| == |b| && forall i :: 0 <= i < |a| ==> f(a[i]) <= g(b[i])
    ensures Sum(a, f) <= Sum(b, g)
  {
    if a != [] {
      SumAtMost(a[..|a| - 1], b[..|b| - 1], f, g);
    }
  }

  lemma {:induction false} SumSplit<T>(rows: seq<T>, f: T -> int, g: T -> int, h: T -> int)
    requires forall i :: 0 <= i < |rows| ==> f(rows[i]) == g(rows[i]) + h(rows[i])
    ensures Sum(rows, f) == Sum(rows, g) + Sum(rows, h)
  {
    if rows != [] {
      SumSplit(rows[..|rows| - 1], f, g, h);
    }
  }

  /** With nonnegative entries every single entry is at most the sum. */
  lemma {:induction false} SumBounds<T>(rows: seq<T>, f: T -> int)
    requires forall i :: 0 <= i < |rows| ==> 0 <= f(rows[i])
    ensures 0 <= Sum(rows, f)
    ensures forall i :: 0 <= i < |rows| ==> f(rows[i]) <= Sum(rows, f)
  {
    if rows != [] {
      var init := rows[..|rows| - 1];
      SumBounds(init, f);
      forall i | 0 <= i < |rows| ensures f(rows[i]) <= Sum(rows, f) {
        if i < |init| { assert f(init[i]) <= Sum(init, f); }
      }
    }
  }

  /** Adding up zeros and ones counts the rows that have a one. */
  lemma {:induction false} SumCounts<T>(rows: seq<T>, f: T -> int, ones: set<int>)
    requires forall i :: i in ones ==> 0 <= i < |rows|
    requires forall i :: 0 <= i < |rows| ==> f(rows[i]) == if i in ones then 1 else 0
    ensures Sum(rows, f) == |ones|
  {
    if rows == [] {
      assert forall i :: i !in ones;
      assert ones == {};
    } else {
      var n := |rows| - 1;
      SumCounts(rows[..n], f, ones - {n});
      assert n in ones ==> ones == (ones - {n}) + {n};
    }
  }

  lemma {:induction false} KeepConcat<T(!new)>(a: seq<T>, b: seq<T>, p: T -> bool)
    ensures Keep(a + b, p) == Keep(a, p) + Keep(b, p)
  {
    if b == [] {
      assert a + b == a;
    } else {
      var n := |b| - 1;
      assert (a + b)[..|a + b| - 1] == a + b[..n];
      KeepConcat(a, b[..n], p);
    }
  }

  /** A filter that every row passes keeps the table; one that no row passes leaves nothing. */
  lemma {:induction false} KeepAllOrNone<T(!new)>(rows: seq<T>, p: T -> bool, all: bool)
    requires forall x :: x in rows ==> p(x) == all
    ensures Keep(rows, p) == if all then rows else []
  {
    if rows != [] {
      KeepAllOrNone(rows[..|rows| - 1], p, all);
      assert rows[|rows| - 1] in rows;
    }
  }

  lemma {:induction false} KeepSum<T(!new)>(rows: seq<T>, p: T -> bool, f: T -> int, g: T -> int)
    requires forall x :: x in rows ==> g(x) == if p(x) then f(x) else 0
    ensures Sum(Keep(rows, p), f) == Sum(rows, g)
  {
    if rows != [] {
      var init, last := rows[..|rows| - 1], rows[|rows| - 1];
      KeepSum(init, p, f, g);
      if p(last) { SumAppend(Keep(init, p), last, f); }
    }
  }
}
