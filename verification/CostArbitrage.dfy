/** The cost arbitrage analysis: out of a history of spot prices, in order of time, it keeps
    the rows of a schedule that always uses the cheapest instance, and prices schedules. */
module CostArbitrage {

  /** A zone and an instance type. */
  datatype Pair = Pair(zone: string, kind: string)

  datatype Row = Row(pair: Pair, price: real, time: real)

  /** Rows by index, as in a data frame. */
  type Frame = map<nat, Row>

  // ----- The latest prices -----

  /** The latest price of every pair in the first `n` rows. */
  function Latest(rows: seq<Row>, n: nat): map<Pair, real>
    requires n <= |rows|
  {
    if n == 0 then map[] else Latest(rows, n - 1)[rows[n - 1].pair := rows[n - 1].price]
  }

  /** The latest price of a pair is the one in its last row. */
  lemma {:induction false} LatestIsLast(rows: seq<Row>, n: nat, i: nat)
    requires i < n <= |rows| && forall k :: i < k < n ==> rows[k].pair != rows[i].pair
    ensures rows[i].pair in Latest(rows, n) && Latest(rows, n)[rows[i].pair] == rows[i].price
  {
    if i < n - 1 {
      LatestIsLast(rows, n - 1, i);
    }
  }

  ghost predicate Least(m: map<Pair, real>, a: Pair) {
    a in m && forall b :: b in m ==> m[a] <= m[b]
  }

  ghost predicate Cheapest(m: map<Pair, real>, a: Pair) {
    a in m && forall b :: b in m && b != a ==> m[a] < m[b]
  }

  // ----- Schedules -----

  /** The row in force before row `n`: the last of the frame below that. */
  function Active(df: Frame, n: nat): Row
    requires 0 in df && n > 0
  {
    if n - 1 in df then df[n - 1] else if n == 1 then df[0] else Active(df, n - 1)
  }

  /** After each of the first `n` rows, the row in force has the least of the latest prices,
      and it is the latest price of its own pair. */
  ghost predicate AlwaysCheapest(rows: seq<Row>, df: Frame, n: nat)
    requires n <= |rows|
  {
    0 in df && forall k :: 0 < k <= n ==>
      var m, row := Latest(rows, k), Active(df, k); Least(m, row.pair) && m[row.pair] == row.price
  }

  /** Row `i` is kept exactly if it is about the pair in force or cheaper than that, and it
      is kept as it is if no other pair is cheaper. */
  ghost predicate KeptRight(rows: seq<Row>, df: Frame, i: nat)
    requires i < |rows| && 0 in df
  {
    && (i > 0 ==> (i in df <==> rows[i].pair == Active(df, i).pair || rows[i].price < Active(df, i).price))
    && (i in df ==> df[i].time == rows[i].time)
    && (i in df && Least(Latest(rows, i + 1), rows[i].pair) ==> df[i] == rows[i])
  }

  lemma {:induction false} ActiveSame(df: Frame, other: Frame, n: nat)
    requires 0 in df && 0 in other && n > 0
    requires forall i :: 0 <= i < n ==> (i in df <==> i in other) && (i in df ==> df[i] == other[i])
    ensures Active(df, n) == Active(other, n)
  {
    if n > 1 {
      ActiveSame(df, other, n - 1);
    }
  }

  /** The nested loop: a row of the least price seen, the given one if that is least. The
      loop visits the prices in any order. */
  method CheapestSeen(latest: map<Pair, real>, row: Row) returns (lowest: Row)
    requires row.pair in latest && latest[row.pair] == row.price
    ensures Least(latest, lowest.pair) && lowest.price == latest[lowest.pair] && lowest.time == row.time
    ensures Least(latest, row.pair) ==> lowest == row
  {
    lowest := row;
    var pending := latest.Keys;
    while pending != {}
      invariant pending <= latest.Keys
      invariant lowest.pair in latest && latest[lowest.pair] == lowest.price && lowest.time == row.time
      invariant forall a :: a in latest && a !in pending ==> lowest.price <= latest[a]
      invariant lowest == row || lowest.price < row.price
      decreases |pending|
    {
      var a :| a in pending;
      pending := pending - {a};
      if latest[a] < lowest.price {
        lowest := Row(a, latest[a], row.time);
      }
    }
  }

  /** What the frame looks like after the first `n` rows. */
  ghost predicate Kept(rows: seq<Row>, df: Frame, n: nat)
    requires n <= |rows|
  {
    AlwaysCheapest(rows, df, n) && forall i :: 0 <= i < n ==> KeptRight(rows, df, i)
  }

  /** A change of the frame at or above row `n` leaves the rows before as they were. */
  lemma {:induction false} KeptBelow(rows: seq<Row>, df: Frame, other: Frame, n: nat)
    requires 0 < n <= |rows| && Kept(rows, df, n) && 0 in other
    requires forall i :: 0 <= i < n ==> (i in df <==> i in other) && (i in df ==> df[i] == other[i])
    ensures Kept(rows, other, n) && Active(other, n) == Active(df, n)
  {
    forall k | 0 < k <= n ensures Active(df, k) == Active(other, k) {
      ActiveSame(df, other, k);
    }
    forall i | 0 <= i < n ensures KeptRight(rows, other, i) {
      assert KeptRight(rows, df, i);
      if i > 0 {
        ActiveSame(df, other, i);
      }
    }
  }

  method KeepCheapest(rows: seq<Row>) returns (df: Frame)
    ensures rows == [] ==> df == map[]
    ensures rows != [] ==> Kept(rows, df, |rows|)
    ensures forall i :: i in df ==> i < |rows|
  {
    df := map i: nat | i < |rows| :: rows[i];
    if rows == [] {
      return;
    }
    var drops: set<nat> := {};
    var latest: map<Pair, real> := map[];
    var current := rows[0];
    var i := 0;
    while i < |rows|
      invariant i <= |rows| && latest == Latest(rows, i)
      invariant forall k: nat :: k in df <==> k < |rows|
      invariant forall k :: i <= k < |rows| ==> df[k] == rows[k] && k !in drops
      invariant 0 in df - drops
      invariant i == 0 ==> current == rows[0]
      invariant i > 0 ==> Kept(rows, df - drops, i) && current == Active(df - drops, i)
    {
      hide Kept, Least;
      var row := rows[i];
      ghost var before := df - drops;
      latest := latest[row.pair := row.price];
      if row.pair == current.pair {
        var lowest := CheapestSeen(latest, row);
        df := df[i := lowest];
        current := df[i];
      } else if row.price < current.price {
        current := row;
      } else {
        drops := drops + {i};
      }
      KeepStep(rows, before, df - drops, i);
      i := i + 1;
    }
    df := df - drops;
  }

  lemma {:induction false} FirstIsLeast(rows: seq<Row>, df: Frame)
    requires rows != [] && 0 in df && df[0] == rows[0]
    ensures Least(Latest(rows, 1), Active(df, 1).pair) && Latest(rows, 1)[Active(df, 1).pair] == Active(df, 1).price
  {
    assert Latest(rows, 1) == map[rows[0].pair := rows[0].price];
  }

  lemma {:induction false} KeepStep(rows: seq<Row>, before: Frame, df: Frame, i: nat)
    requires i < |rows| && 0 in before && 0 in df
    requires i > 0 ==> Kept(rows, before, i)
    requires forall k :: 0 <= k < i ==> (k in before <==> k in df) && (k in before ==> before[k] == df[k])
    requires i == 0 ==> df[0] == rows[0]
    requires i in df ==> df[i].time == rows[i].time && (Least(Latest(rows, i + 1), rows[i].pair) ==> df[i] == rows[i])
    requires i > 0 ==> (i in df <==> rows[i].pair == Active(before, i).pair || rows[i].price < Active(before, i).price)
    requires i > 0 && rows[i].pair == Active(before, i).pair ==>
               Least(Latest(rows, i + 1), df[i].pair) && df[i].price == Latest(rows, i + 1)[df[i].pair]
    requires i > 0 && i in df && rows[i].pair != Active(before, i).pair ==> df[i] == rows[i]
    ensures Kept(rows, df, i + 1) && Active(df, i + 1) == if i in df then df[i] else Active(before, i)
  {
    if i > 0 {
      KeptBelow(rows, before, df, i);
      CheapestStep(rows, i, Active(before, i), if i in df then df[i] else Active(before, i));
    }
    var row := Active(df, i + 1);
    if i == 0 {
      FirstIsLeast(rows, df);
    }
    assert Least(Latest(rows, i + 1), row.pair) && Latest(rows, i + 1)[row.pair] == row.price;
    assert KeptRight(rows, df, i);
  }

  /** The row in force stays the cheapest one when the next price comes. */
  lemma {:induction false} CheapestStep(rows: seq<Row>, i: nat, was: Row, now: Row)
    requires 0 < i < |rows|
    requires Least(Latest(rows, i), was.pair) && Latest(rows, i)[was.pair] == was.price
    requires rows[i].pair == was.pair ==>
      Least(Latest(rows, i + 1), now.pair) && now.price == Latest(rows, i + 1)[now.pair]
    requires rows[i].pair != was.pair ==> now == if rows[i].price < was.price then rows[i] else was
    ensures Least(Latest(rows, i + 1), now.pair) && Latest(rows, i + 1)[now.pair] == now.price
  {
  }

  // ----- Which rows are kept -----

  /** The row is the first, or of the pair that was cheaper than every other before it, or of one
      that is after it. */
  ghost predicate SurelyKept(rows: seq<Row>, i: nat)
    requires i < |rows|
  {
    i == 0 || Cheapest(Latest(rows, i), rows[i].pair) || Cheapest(Latest(rows, i + 1), rows[i].pair)
  }

  /** The same with a pair that was one of the cheapest before. */
  ghost predicate PerhapsKept(rows: seq<Row>, i: nat)
    requires i < |rows|
  {
    i == 0 || Least(Latest(rows, i), rows[i].pair) || Cheapest(Latest(rows, i + 1), rows[i].pair)
  }

  /** No row is of a pair that shared the least price before it. */
  ghost predicate NoTies(rows: seq<Row>) {
    forall i: nat :: i < |rows| && PerhapsKept(rows, i) ==> SurelyKept(rows, i)
  }

  /** Which rows are kept can be told from the rows, up to ties. */
  lemma {:induction false} KeptByRows(rows: seq<Row>, df: Frame, i: nat)
    requires i < |rows| && Kept(rows, df, |rows|)
    ensures SurelyKept(rows, i) ==> i in df
    ensures i in df ==> PerhapsKept(rows, i) && df[i].time == rows[i].time
  {
    assert KeptRight(rows, df, i);
    if i > 0 {
      var was, m, after := Active(df, i), Latest(rows, i), Latest(rows, i + 1);
      assert Least(m, was.pair) && m[was.pair] == was.price;
      assert after == m[rows[i].pair := rows[i].price];
    }
  }
}
