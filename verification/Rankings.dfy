/** Preference lists: the keys of a dictionary, sorted by value and then reversed. */
module Rankings {
  import opened Lists

  function Insert<T(==,!new)>(r: seq<T>, x: T, u: map<T, real>): (r': seq<T>)
    requires x in u && forall y :: y in r ==> y in u
    ensures forall y :: y in r' <==> y in r || y == x
    ensures |r'| == |r| + 1
  {
    if r == [] then [x]
    else if u[r[0]] <= u[x] then [x] + r
    else [r[0]] + Insert(r[1..], x, u)
  }

  /** `list(reversed(sorted(d, key=lambda k: d[k])))` for a dictionary with keys `keys`, in
      that order, and values `u`: the sort is stable, so later keys come first among equals. */
  function Ranked<T(==,!new)>(keys: seq<T>, u: map<T, real>): (r: seq<T>)
    requires forall x :: x in keys ==> x in u
    ensures forall x :: x in r <==> x in keys
    ensures |r| == |keys|
  {
    if keys == [] then []
    else
      var n := |keys| - 1;
      assert keys == keys[..n] + [keys[n]];
      Insert(Ranked(keys[..n], u), keys[n], u)
  }

  /** `x` must come before `y`. */
  ghost predicate Before<T>(keys: seq<T>, u: map<T, real>, x: T, y: T) {
    x in keys && y in keys && x in u && y in u &&
    (u[x] > u[y] || (u[x] == u[y] && IndexOf(keys, x) > IndexOf(keys, y)))
  }

  ghost predicate AllBefore<T>(keys: seq<T>, u: map<T, real>, r: seq<T>) {
    forall i, j :: 0 <= i < j < |r| ==> Before(keys, u, r[i], r[j])
  }

  lemma {:induction false} IndexOfFirst<T(!new)>(keys: seq<T>, x: T, y: T)
    requires x in keys
    ensures IndexOf(keys + [y], x) == IndexOf(keys, x)
  {
    var i := IndexOf(keys + [y], x);
    var j := IndexOf(keys, x);
    assert (keys + [y])[j] == x;
    assert i < |keys| ==> keys[i] == x;
  }

  lemma {:induction false} IndexOfLast<T(!new)>(keys: seq<T>, y: T)
    requires y !in keys
    ensures IndexOf(keys + [y], y) == |keys|
  {
    assert (keys + [y])[|keys|] == y;
  }

  lemma {:induction false} FirstBeforeAll<T(!new)>(keys: seq<T>, u: map<T, real>, x: T, r: seq<T>)
    requires AllBefore(keys, u, r) && forall y :: y in r ==> Before(keys, u, x, y)
    ensures AllBefore(keys, u, [x] + r)
  {
    hide Before;
    var s := [x] + r;
    forall i, j | 0 <= i < j < |s| ensures Before(keys, u, s[i], s[j]) {
      assert s[j] == r[j - 1];
      if i > 0 {
        assert s[i] == r[i - 1];
      }
    }
  }

  lemma {:induction false} NotAboveFirst<T(!new)>(keys: seq<T>, u: map<T, real>, r: seq<T>, y: T)
    requires AllBefore(keys, u, r) && y in r && y in u && r[0] in u
    ensures u[y] <= u[r[0]]
  {
    var k :| 0 <= k < |r| && r[k] == y;
    assert k == 0 || Before(keys, u, r[0], r[k]);
  }

  lemma {:induction false} InsertOrders<T(!new)>(keys: seq<T>, u: map<T, real>, r: seq<T>, x: T)
    requires x in u && forall y :: y in r ==>
      y in u && Before(keys, u, if u[y] <= u[x] then x else y, if u[y] <= u[x] then y else x)
    requires AllBefore(keys, u, r)
    ensures AllBefore(keys, u, Insert(r, x, u))
  {
    if r != [] {
      hide Before;
      if u[r[0]] <= u[x] {
        forall y | y in r ensures Before(keys, u, x, y) {
          NotAboveFirst(keys, u, r, y);
        }
        FirstBeforeAll(keys, u, x, r);
      } else {
        InsertOrders(keys, u, r[1..], x);
        var rest := Insert(r[1..], x, u);
        forall y | y in rest ensures Before(keys, u, r[0], y) {
          if y != x {
            var k :| 0 <= k < |r[1..]| && r[1..][k] == y;
            assert Before(keys, u, r[0], r[k + 1]);
          }
        }
        FirstBeforeAll(keys, u, r[0], rest);
      }
    }
  }

  /** The list is in the order asked for: by value, later keys first among equals. */
  lemma {:induction false} RankedOrder<T(!new)>(keys: seq<T>, u: map<T, real>)
    requires NoDup(keys) && forall x :: x in keys ==> x in u
    ensures AllBefore(keys, u, Ranked(keys, u)) && NoDup(Ranked(keys, u))
  {
    if keys != [] {
      var n := |keys| - 1;
      var init, x := keys[..n], keys[n];
      assert keys == init + [x];
      var r := Ranked(init, u);
      RankedOrder(init, u);
      forall y | y in init ensures IndexOf(keys, y) == IndexOf(init, y) {
        IndexOfFirst(init, y, x);
      }
      IndexOfLast(init, x);
      forall i, j | 0 <= i < j < |r| ensures Before(keys, u, r[i], r[j]) {
        assert Before(init, u, r[i], r[j]);
      }
      InsertOrders(keys, u, r, x);
    }
    OrderNoDup(keys, u, Ranked(keys, u));
  }

  lemma {:induction false} OrderNoDup<T(!new)>(keys: seq<T>, u: map<T, real>, r: seq<T>)
    requires AllBefore(keys, u, r)
    ensures NoDup(r)
  {
    forall i, j | 0 <= i < j < |r| ensures r[i] != r[j] {
      assert Before(keys, u, r[i], r[j]);
    }
  }
}
