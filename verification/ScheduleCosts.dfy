/** What schedules cost, and that no other choice of instances costs less than the kept one. */
module ScheduleCosts {
  import opened CostArbitrage

  const NIC_PRICE := 0.005

  // ----- The cost of a schedule -----

  /** What `seconds` of an instance cost, its hourly price shared among its interfaces. */
  function Fee(price: real, nics: nat, seconds: real): real
    requires nics > 0
  {
    (price / nics as real + NIC_PRICE) / 60.0 / 60.0 * seconds
  }

  /** Each row is paid from its time to that of the next one, the last up to `end`. */
  function Cost(rows: seq<Row>, nics: nat, end: real): real
    requires nics > 0
  {
    if rows == [] then 0.0
    else
      var last := rows[|rows| - 1];
      Cost(rows[..|rows| - 1], nics, last.time) + Fee(last.price, nics, end - last.time)
  }

  ghost function Sum(s: seq<real>): real {
    if s == [] then 0.0 else Sum(s[..|s| - 1]) + s[|s| - 1]
  }

  /** The hours for which row `i` is in force. */
  ghost function Hours(rows: seq<Row>, i: nat, end: real): real
    requires i < |rows|
  {
    ((if i + 1 < |rows| then rows[i + 1].time else end) - rows[i].time) / 3600.0
  }

  /** What each row costs: an hour of it is its price, shared, and half a cent for the address. */
  ghost function RowCosts(rows: seq<Row>, nics: nat, end: real): (costs: seq<real>)
    requires nics > 0
    ensures |costs| == |rows|
  {
    seq(|rows|, i requires 0 <= i < |rows| => Hours(rows, i, end) * (rows[i].price / nics as real + 0.005))
  }

  lemma {:induction false} FeeByHours(price: real, nics: nat, seconds: real)
    requires nics > 0
    ensures Fee(price, nics, seconds) == seconds / 3600.0 * (price / nics as real + 0.005)
  {
    var rate := price / nics as real + 0.005;
    assert rate / 60.0 / 60.0 == rate / 3600.0;
  }

  /** The cost of a schedule is the sum of what its rows cost by the hour. */
  lemma {:induction false} CostByHours(rows: seq<Row>, nics: nat, end: real)
    requires nics > 0
    ensures Cost(rows, nics, end) == Sum(RowCosts(rows, nics, end))
  {
    if rows != [] {
      var n := |rows| - 1;
      var last := rows[n];
      CostByHours(rows[..n], nics, last.time);
      FeeByHours(last.price, nics, end - last.time);
      FirstCosts(rows, nics, end);
    }
  }

  lemma {:induction false} FirstCosts(rows: seq<Row>, nics: nat, end: real)
    requires rows != [] && nics > 0
    ensures var n := |rows| - 1; RowCosts(rows, nics, end)[..n] == RowCosts(rows[..n], nics, rows[n].time)
  {
    var n := |rows| - 1;
    var all, first := RowCosts(rows, nics, end), RowCosts(rows[..n], nics, rows[n].time);
    forall i | 0 <= i < n ensures all[i] == first[i] {
      assert Hours(rows, i, end) == Hours(rows[..n], i, rows[n].time);
      assert rows[..n][i] == rows[i];
    }
  }

  /** One instance for some hours. */
  lemma {:induction false} OneRowCost(row: Row, nics: nat, hours: real)
    requires nics > 0
    ensures Cost([row], nics, row.time + 3600.0 * hours) == hours * (row.price / nics as real + 0.005)
  {
    var costs := RowCosts([row], nics, row.time + 3600.0 * hours);
    CostByHours([row], nics, row.time + 3600.0 * hours);
    assert costs[..0] == [] && Sum(costs) == costs[0];
  }

  /** The times between rows; the first is zero. */
  function Intervals(rows: seq<Row>): (d: seq<real>)
    ensures |d| == |rows|
  {
    seq(|rows|, i requires 0 <= i < |rows| => if i == 0 then 0.0 else rows[i].time - rows[i - 1].time)
  }

  /** The rows before row `i` are paid up to the time of the last of them. */
  ghost predicate PaidSoFar(rows: seq<Row>, i: nat, nics: nat, total: real, intervals: seq<real>, price: real,
      time: real)
    requires rows != [] && i <= |rows| && nics > 0
  {
    var prev := rows[if i == 0 then 0 else i - 1];
    price == prev.price && time == prev.time && total == Cost(rows[..i], nics, time) &&
      intervals == Intervals(rows)[..i]
  }

  lemma {:induction false} NothingPaid(rows: seq<Row>, nics: nat)
    requires rows != [] && nics > 0
    ensures PaidSoFar(rows, 0, nics, 0.0, [], rows[0].price, rows[0].time)
  {
    NoCost(nics, rows[0].time);
  }

  lemma {:induction false} PaidNext(rows: seq<Row>, i: nat, nics: nat, total: real, intervals: seq<real>, price: real,
      time: real)
    requires i < |rows| && nics > 0 && PaidSoFar(rows, i, nics, total, intervals, price, time)
    ensures var seconds := rows[i].time - time;
      PaidSoFar(rows, i + 1, nics, total + Fee(price, nics, seconds), intervals + [seconds], rows[i].price,
        rows[i].time)
  {
    hide Fee, Cost, Intervals;
    NextInterval(rows, i);
    NextRow(rows, i, nics);
  }

  lemma {:induction false} AllPaid(rows: seq<Row>, nics: nat, total: real, intervals: seq<real>, price: real,
      time: real, end: real)
    requires rows != [] && nics > 0 && PaidSoFar(rows, |rows|, nics, total, intervals, price, time)
    ensures total + Fee(price, nics, end - time) == Cost(rows, nics, end) && intervals == Intervals(rows)
  {
    hide Fee, Cost, Intervals;
    Extend(rows, nics, time, end);
    assert rows[..|rows|] == rows && Intervals(rows)[..|rows|] == Intervals(rows);
  }

  lemma {:induction false} OneRow(rows: seq<Row>, nics: nat, end: real)
    requires nics > 0
    ensures |rows| == 1 ==>
      Cost(rows, nics, end) == (end - rows[0].time) / 3600.0 * (rows[0].price / nics as real + 0.005)
  {
    if |rows| == 1 {
      OneRowCost(rows[0], nics, (end - rows[0].time) / 3600.0);
      assert rows == [rows[0]];
    }
  }

  /** The intervals add up to the time from the first row to the last. */
  lemma {:induction false} IntervalsAdd(rows: seq<Row>)
    requires rows != []
    ensures Sum(Intervals(rows)) == rows[|rows| - 1].time - rows[0].time
  {
    hide Intervals;
    var n := |rows| - 1;
    LastInterval(rows);
    if n == 0 {
      assert Intervals(rows)[..0] == [];
    } else {
      IntervalsAdd(rows[..n]);
      FirstIntervals(rows);
    }
  }

  lemma {:induction false} LastInterval(rows: seq<Row>)
    requires rows != []
    ensures var n := |rows| - 1; Intervals(rows)[n] == if n == 0 then 0.0 else rows[n].time - rows[n - 1].time
  {
  }

  lemma {:induction false} FirstIntervals(rows: seq<Row>)
    requires rows != []
    ensures Intervals(rows)[..|rows| - 1] == Intervals(rows[..|rows| - 1])
  {
    var n := |rows| - 1;
    var all, first := Intervals(rows), Intervals(rows[..n]);
    forall i | 0 <= i < n ensures all[i] == first[i] {
      assert rows[..n][i] == rows[i] && (i > 0 ==> rows[..n][i - 1] == rows[i - 1]);
    }
  }

  datatype CostResult = Costs(total: real, intervals: seq<real>) | NoRows | AssertionFails

  method CalculateCost(rows: seq<Row>, nics: nat, start: real, end: real) returns (r: CostResult)
    requires nics > 0
    ensures r == if rows == [] then NoRows
                 else if rows[0].time != start then AssertionFails
                 else Costs(Cost(rows, nics, end), Intervals(rows))
    ensures r.Costs? ==> r.total == Sum(RowCosts(rows, nics, end))
    ensures |rows| == 1 && r.Costs? ==> r.total == (end - start) / 3600.0 * (rows[0].price / nics as real + 0.005)
  {
    if rows == [] {
      return NoRows;
    }
    hide Fee, Cost, Intervals, PaidSoFar, RowCosts;
    var total, elapsed, intervals := 0.0, 0.0, [];
    var pricePrev, timePrev := rows[0].price, rows[0].time;
    var i := 0;
    NothingPaid(rows, nics);
    while i < |rows|
      invariant i <= |rows| && elapsed == timePrev - rows[0].time
      invariant PaidSoFar(rows, i, nics, total, intervals, pricePrev, timePrev)
    {
      var seconds := rows[i].time - timePrev;
      PaidNext(rows, i, nics, total, intervals, pricePrev, timePrev);
      intervals := intervals + [seconds];
      total := total + Fee(pricePrev, nics, seconds);
      elapsed := elapsed + seconds;
      pricePrev, timePrev := rows[i].price, rows[i].time;
      i := i + 1;
    }
    AllPaid(rows, nics, total, intervals, pricePrev, timePrev, end);
    CostByHours(rows, nics, end);
    OneRow(rows, nics, end);
    total := total + Fee(pricePrev, nics, end - timePrev);
    elapsed := elapsed + (end - timePrev);
    if elapsed != end - start {
      return AssertionFails;
    }
    return Costs(total, intervals);
  }

  lemma {:induction false} NoCost(nics: nat, end: real)
    requires nics > 0
    ensures Cost([], nics, end) == 0.0
  {
  }

  lemma {:induction false} NextInterval(rows: seq<Row>, i: nat)
    requires i < |rows|
    ensures Intervals(rows)[..i + 1] == Intervals(rows)[..i] + [rows[i].time - rows[if i == 0 then 0 else i - 1].time]
  {
  }

  /** The pass over row `i` pays the row before it up to the time of row `i`. */
  lemma {:induction false} NextRow(rows: seq<Row>, i: nat, nics: nat)
    requires i < |rows| && nics > 0
    ensures var prev := rows[if i == 0 then 0 else i - 1];
      Cost(rows[..i + 1], nics, rows[i].time) ==
        Cost(rows[..i], nics, prev.time) + Fee(prev.price, nics, rows[i].time - prev.time)
  {
    hide Fee, Cost;
    assert rows[..i + 1] == rows[..i] + [rows[i]];
    Snoc(rows[..i], rows[i], nics, rows[i].time);
    NoFee(rows[i].price, nics);
    if i == 0 {
      NoCost(nics, rows[0].time);
      assert rows[..0] == [];
    } else {
      Extend(rows[..i], nics, rows[i - 1].time, rows[i].time);
    }
  }

  lemma {:induction false} NoFee(price: real, nics: nat)
    requires nics > 0
    ensures Fee(price, nics, 0.0) == 0.0
  {
  }

  lemma {:induction false} Spread(price: real, nics: nat, x: real, y: real, z: real)
    requires nics > 0
    ensures Fee(price, nics, y - x) + Fee(price, nics, z - y) == Fee(price, nics, z - x)
  {
  }

  /** A later end is paid at the rate of the last row. */
  lemma {:induction false} Extend(rows: seq<Row>, nics: nat, mid: real, end: real)
    requires nics > 0 && rows != []
    ensures Cost(rows, nics, end) == Cost(rows, nics, mid) + Fee(rows[|rows| - 1].price, nics, end - mid)
  {
    hide Fee;
    var last := rows[|rows| - 1];
    Spread(last.price, nics, last.time, mid, end);
  }

  lemma {:induction false} Snoc(rows: seq<Row>, row: Row, nics: nat, end: real)
    requires nics > 0
    ensures Cost(rows + [row], nics, end) == Cost(rows, nics, row.time) + Fee(row.price, nics, end - row.time)
  {
    hide Fee;
    assert (rows + [row])[..|rows|] == rows;
  }

  // ----- Row by row -----

  /** The rows of a frame from index `b` on, below index `n`. */
  function Points(df: Frame, b: nat, n: nat): seq<Row> {
    if n <= b then [] else Points(df, b, n - 1) + (if n - 1 in df then [df[n - 1]] else [])
  }

  /** What it costs to pay, from row `b` on, `prices[k]` from the time of row `k` to the next. */
  function RowByRow(rows: seq<Row>, prices: seq<real>, b: nat, n: nat, nics: nat, end: real): real
    requires n <= |rows| == |prices| && nics > 0
  {
    if n <= b then 0.0
    else RowByRow(rows, prices, b, n - 1, nics, rows[n - 1].time) + Fee(prices[n - 1], nics, end - rows[n - 1].time)
  }

  /** The last row of the frame from `b` up to `k`. */
  function InForce(df: Frame, b: nat, k: nat): Row
    requires b in df && b <= k
  {
    if k in df then df[k] else InForce(df, b, k - 1)
  }

  lemma {:induction false} PointsEnds(df: Frame, b: nat, n: nat)
    requires b in df && b < n
    ensures Points(df, b, n) != [] && Points(df, b, n)[0] == df[b]
    ensures Points(df, b, n)[|Points(df, b, n)| - 1] == InForce(df, b, n - 1)
  {
    if n - 1 > b {
      PointsEnds(df, b, n - 1);
    }
  }

  /** A frame that has a row at `b` costs what its rows in force cost, row by row. */
  lemma {:induction false} CostRowByRow(rows: seq<Row>, df: Frame, prices: seq<real>, b: nat, n: nat, nics: nat,
      end: real)
    requires b < n <= |rows| == |prices| && nics > 0
    requires b in df && forall k :: b <= k < n && k in df ==> df[k].time == rows[k].time
    requires forall k :: b <= k < n ==> prices[k] == InForce(df, b, k).price
    ensures Cost(Points(df, b, n), nics, end) == RowByRow(rows, prices, b, n, nics, end)
    decreases n
  {
    hide Fee, Cost;
    var points, next := Points(df, b, n - 1), rows[n - 1].time;
    if n - 1 == b {
      NoCost(nics, next);
    } else {
      CostRowByRow(rows, df, prices, b, n - 1, nics, next);
    }
    if n - 1 in df {
      Snoc(points, df[n - 1], nics, end);
    } else {
      PointsEnds(df, b, n - 1);
      Extend(points, nics, next, end);
      assert Points(df, b, n) == points;
    }
  }

  ghost predicate Sorted(rows: seq<Row>) {
    forall i, j :: 0 <= i <= j < |rows| ==> rows[i].time <= rows[j].time
  }

  lemma {:induction false} DearerCosts(p: real, q: real, nics: nat, seconds: real)
    requires nics > 0 && p <= q && seconds >= 0.0
    ensures Fee(p, nics, seconds) <= Fee(q, nics, seconds)
  {
    var d := nics as real;
    assert p / d <= q / d;
  }

  /** Lower prices cost no more. */
  lemma {:induction false} LowerPrices(rows: seq<Row>, low: seq<real>, high: seq<real>, b: nat, n: nat, nics: nat,
      end: real)
    requires n <= |rows| == |low| == |high| && nics > 0
    requires forall k :: b <= k < n ==> low[k] <= high[k]
    requires Sorted(rows) && (n > 0 ==> rows[n - 1].time <= end)
    ensures RowByRow(rows, low, b, n, nics, end) <= RowByRow(rows, high, b, n, nics, end)
    decreases n
  {
    hide Fee;
    if n > b {
      LowerPrices(rows, low, high, b, n - 1, nics, rows[n - 1].time);
      DearerCosts(low[n - 1], high[n - 1], nics, end - rows[n - 1].time);
    }
  }

  // ----- The kept schedule against any other -----

  /** What an instance of pair `choice[k]` costs per hour after row `k`. */
  function Paid(rows: seq<Row>, choice: seq<Pair>): (prices: seq<real>)
    requires |choice| == |rows|
    ensures |prices| == |rows|
  {
    seq(|rows|, k requires 0 <= k < |rows| =>
      if choice[k] in Latest(rows, k + 1) then Latest(rows, k + 1)[choice[k]] else 0.0)
  }

  function InForcePrices(df: Frame, b: nat, n: nat): (prices: seq<real>)
    requires b in df
    ensures |prices| == n
  {
    seq(n, k requires 0 <= k < n => if k < b then 0.0 else InForce(df, b, k).price)
  }

  lemma {:induction false} InForceIsActive(df: Frame, b: nat, k: nat)
    requires 0 in df && b in df && b <= k
    ensures InForce(df, b, k) == Active(df, k + 1)
  {
    if k !in df {
      InForceIsActive(df, b, k - 1);
    }
  }

  /** From any kept row on, the kept schedule costs at most what any other selection costs
      that changes at will among the pairs seen so far. */
  lemma {:induction false} NoSelectionBeats(rows: seq<Row>, df: Frame, b: nat, choice: seq<Pair>, nics: nat, end: real)
    requires b < |rows| == |choice| && nics > 0 && Sorted(rows) && rows[|rows| - 1].time <= end
    requires Kept(rows, df, |rows|) && b in df
    requires forall k :: b <= k < |rows| ==> choice[k] in Latest(rows, k + 1)
    ensures Cost(Points(df, b, |rows|), nics, end) <= RowByRow(rows, Paid(rows, choice), b, |rows|, nics, end)
  {
    hide Cost, RowByRow, Points;
    var n := |rows|;
    var low, high := InForcePrices(df, b, n), Paid(rows, choice);
    forall k | b <= k < n ensures k in df ==> df[k].time == rows[k].time {
      assert KeptRight(rows, df, k);
    }
    CostRowByRow(rows, df, low, b, n, nics, end);
    forall k | b <= k < n ensures low[k] <= high[k] {
      InForceIsActive(df, b, k);
      assert Least(Latest(rows, k + 1), Active(df, k + 1).pair);
    }
    LowerPrices(rows, low, high, b, n, nics, end);
  }

  // ----- The kept schedule against one fixed pair -----

  function OfPair(rows: seq<Row>, pair: Pair): Frame {
    map i: nat | i < |rows| && rows[i].pair == pair :: rows[i]
  }

  lemma {:induction false} FixedPrice(rows: seq<Row>, pair: Pair, f: nat, k: nat)
    requires f <= k < |rows| && rows[f].pair == pair
    ensures pair in Latest(rows, k + 1) && InForce(OfPair(rows, pair), f, k).price == Latest(rows, k + 1)[pair]
  {
    if k > f {
      FixedPrice(rows, pair, f, k - 1);
    }
  }

  /** Rows at the same time cost nothing. */
  lemma {:induction false} NoTimePasses(rows: seq<Row>, prices: seq<real>, b: nat, f: nat, n: nat, nics: nat, end: real)
    requires b <= f < n <= |rows| == |prices| && nics > 0
    requires Sorted(rows) && rows[b].time == rows[f].time
    ensures RowByRow(rows, prices, b, n, nics, end) == RowByRow(rows, prices, f, n, nics, end)
    decreases n
  {
    hide Fee;
    if n > f + 1 {
      NoTimePasses(rows, prices, b, f, n - 1, nics, rows[n - 1].time);
    } else {
      NoTimeAtAll(rows, prices, b, f, nics);
    }
  }

  lemma {:induction false} NoTimeAtAll(rows: seq<Row>, prices: seq<real>, b: nat, f: nat, nics: nat)
    requires b <= f < |rows| == |prices| && nics > 0 && Sorted(rows) && rows[b].time == rows[f].time
    ensures RowByRow(rows, prices, b, f, nics, rows[f].time) == 0.0
    decreases f
  {
    hide Fee;
    if b < f {
      NoFee(prices[f - 1], nics);
      assert rows[f - 1].time == rows[f].time;
      NoTimeAtAll(rows, prices, b, f - 1, nics);
    }
  }

  lemma {:induction false} FirstOfPair(df: Frame, b: nat, f: nat, n: nat)
    requires b <= f <= n && forall k :: b <= k < f ==> k !in df
    ensures Points(df, b, n) == Points(df, f, n)
    decreases n
  {
    if n > f {
      FirstOfPair(df, b, f, n - 1);
    } else if n > b {
      FirstOfPair(df, b, n - 1, n - 1);
    }
  }

  /** From a kept row `b` on, the kept schedule costs at most what any one pair costs whose
      rows from `b` on begin at the same time. */
  lemma {:induction false} NoFixedPairBeats(rows: seq<Row>, df: Frame, b: nat, f: nat, pair: Pair, nics: nat, end: real)
    requires b <= f < |rows| && nics > 0 && Sorted(rows) && rows[|rows| - 1].time <= end
    requires Kept(rows, df, |rows|) && b in df
    requires rows[f].pair == pair && rows[f].time == rows[b].time && forall k :: b <= k < f ==> rows[k].pair != pair
    ensures Cost(Points(df, b, |rows|), nics, end) <= Cost(Points(OfPair(rows, pair), b, |rows|), nics, end)
  {
    hide Cost, RowByRow, Points, InForce, KeptRight, Sorted;
    var n, fixed := |rows|, OfPair(rows, pair);
    var choice := seq(n, k requires 0 <= k < n => if k < f then Active(df, k + 1).pair else pair);
    forall k | b <= k < n ensures choice[k] in Latest(rows, k + 1) {
      if k < f {
        ActiveSeen(rows, df, k + 1);
      } else {
        FixedPrice(rows, pair, f, k);
      }
    }
    NoSelectionBeats(rows, df, b, choice, nics, end);
    var prices := Paid(rows, choice);
    NoTimePasses(rows, prices, b, f, n, nics, end);
    FirstOfPair(fixed, b, f, n);
    forall k | f <= k < n ensures prices[k] == InForce(fixed, f, k).price {
      FixedPrice(rows, pair, f, k);
    }
    CostRowByRow(rows, fixed, prices, f, n, nics, end);
  }

  lemma {:induction false} ActiveSeen(rows: seq<Row>, df: Frame, k: nat)
    requires 0 < k <= |rows| && Kept(rows, df, |rows|)
    ensures Active(df, k).pair in Latest(rows, k)
  {
    assert Least(Latest(rows, k), Active(df, k).pair);
  }

  // ----- The comparison -----

  lemma {:induction false} SharedFee(price: real, nics: nat, seconds: real)
    requires nics > 0 && price >= 0.0 && seconds >= 0.0
    ensures Fee(price, nics, seconds) <= Fee(price, 1, seconds)
  {
    var d := nics as real;
    assert price / d <= price;
  }

  /** Sharing the price among more interfaces never costs more. */
  lemma {:induction false} SharedCosts(rows: seq<Row>, prices: seq<real>, b: nat, n: nat, nics: nat, end: real)
    requires n <= |rows| == |prices| && nics > 0 && Sorted(rows) && (n > 0 ==> rows[n - 1].time <= end)
    requires forall k :: b <= k < n ==> prices[k] >= 0.0
    ensures RowByRow(rows, prices, b, n, nics, end) <= RowByRow(rows, prices, b, n, 1, end)
    decreases n
  {
    hide Fee;
    if n > b {
      SharedCosts(rows, prices, b, n - 1, nics, rows[n - 1].time);
      SharedFee(prices[n - 1], nics, end - rows[n - 1].time);
    }
  }

  lemma {:induction false} LatestNotNegative(rows: seq<Row>, n: nat)
    requires n <= |rows| && forall k :: 0 <= k < |rows| ==> rows[k].price >= 0.0
    ensures forall a :: a in Latest(rows, n) ==> Latest(rows, n)[a] >= 0.0
  {
    if n > 0 {
      LatestNotNegative(rows, n - 1);
    }
  }

  lemma {:induction false} SharedScheduleCosts(rows: seq<Row>, df: Frame, b: nat, nics: nat, end: real)
    requires b < |rows| && nics > 0 && Sorted(rows) && rows[|rows| - 1].time <= end
    requires Kept(rows, df, |rows|) && b in df && forall k :: 0 <= k < |rows| ==> rows[k].price >= 0.0
    ensures Cost(Points(df, b, |rows|), nics, end) <= Cost(Points(df, b, |rows|), 1, end)
  {
    hide Cost, RowByRow, Points, Sorted;
    var n := |rows|;
    var prices := InForcePrices(df, b, n);
    forall k | b <= k < n ensures (k in df ==> df[k].time == rows[k].time) && prices[k] >= 0.0 {
      assert KeptRight(rows, df, k);
      InForceIsActive(df, b, k);
      LatestNotNegative(rows, k + 1);
      assert Least(Latest(rows, k + 1), Active(df, k + 1).pair);
    }
    CostRowByRow(rows, df, prices, b, n, nics, end);
    CostRowByRow(rows, df, prices, b, n, 1, end);
    SharedCosts(rows, prices, b, n, nics, end);
  }

  /** The first row of a pair from row `b` on, or `n`. */
  function FirstRow(rows: seq<Row>, pair: Pair, b: nat): (f: nat)
    requires b <= |rows|
    ensures b <= f <= |rows| && (f < |rows| ==> rows[f].pair == pair)
    ensures forall k :: b <= k < f ==> rows[k].pair != pair
    decreases |rows| - b
  {
    if b == |rows| || rows[b].pair == pair then b else FirstRow(rows, pair, b + 1)
  }

  lemma {:induction false} BaselineStarts(rows: seq<Row>, pair: Pair, b: nat)
    requires b <= |rows|
    ensures var f, points := FirstRow(rows, pair, b), Points(OfPair(rows, pair), b, |rows|);
      if f < |rows| then points != [] && points[0] == rows[f] else points == []
  {
    var f := FirstRow(rows, pair, b);
    FirstOfPair(OfPair(rows, pair), b, f, |rows|);
    if f < |rows| {
      PointsEnds(OfPair(rows, pair), f, |rows|);
    }
  }

  datatype Comparison = NoBaseline | Comparison(single: CostResult, multi: CostResult, baseline: CostResult)

  lemma {:induction false} KeptRows(rows: seq<Row>, df: Frame)
    requires rows != [] ==> Kept(rows, df, |rows|)
    ensures forall i: nat :: i < |rows| && SurelyKept(rows, i) ==> i in df && df[i].time == rows[i].time
    ensures forall i: nat :: i < |rows| && i in df ==> PerhapsKept(rows, i) && df[i].time == rows[i].time
    ensures NoTies(rows) ==> forall i: nat :: i < |rows| && PerhapsKept(rows, i) ==> i in df
  {
    hide Kept, SurelyKept, PerhapsKept;
    forall i: nat | i < |rows|
      ensures SurelyKept(rows, i) ==> i in df
      ensures i in df ==> PerhapsKept(rows, i) && df[i].time == rows[i].time
    {
      KeptByRows(rows, df, i);
    }
  }

  /** What the rows of the baseline pair cost from row `b` on. */
  function Baseline(rows: seq<Row>, pair: Pair, b: nat, start: real, end: real): CostResult
    requires b <= |rows|
  {
    var f, points := FirstRow(rows, pair, b), Points(OfPair(rows, pair), b, |rows|);
    if f == |rows| then NoRows
    else if rows[f].time != start then AssertionFails
    else Costs(Cost(points, 1, end), Intervals(points))
  }

  /** The last kept row at its time is the row of the history, and not a replacement, exactly
      if the history has a row of its pair at that time from it on. */
  lemma {:induction false} BaselineExactly(rows: seq<Row>, df: Frame, b: nat)
    requires b < |rows| && Sorted(rows) && Kept(rows, df, |rows|) && b in df
    requires forall i :: i in df && df[i].time == df[b].time ==> i <= b
    ensures df[b] == rows[b] <==> Least(Latest(rows, b + 1), rows[b].pair)
    ensures var f := FirstRow(rows, df[b].pair, b);
      f < |rows| && rows[f].time == df[b].time <==> Least(Latest(rows, b + 1), rows[b].pair)
  {
    hide Least, FirstRow;
    assert KeptRight(rows, df, b);
    assert Least(Latest(rows, b + 1), Active(df, b + 1).pair);
    var f := FirstRow(rows, df[b].pair, b);
    if df[b] != rows[b] && f < |rows| && rows[f].time == df[b].time {
      StillActive(rows, df, b, f);
    }
  }

  /** The last kept row at its time stays in force while the time is the same. */
  lemma {:induction false} StillActive(rows: seq<Row>, df: Frame, b: nat, f: nat)
    requires b < f < |rows| && Sorted(rows) && Kept(rows, df, |rows|) && b in df && rows[f].time == rows[b].time
    requires forall i :: i in df && df[i].time == df[b].time ==> i <= b
    ensures Active(df, f) == df[b] && KeptRight(rows, df, f)
    decreases f
  {
    if f - 1 > b {
      assert rows[b].time <= rows[f - 1].time <= rows[f].time;
      assert KeptRight(rows, df, f - 1) && KeptRight(rows, df, b);
      StillActive(rows, df, b, f - 1);
    }
  }

  /** If the last row at a time is cheaper than the latest price of every other pair, it is
      the last kept row at that time, and it is kept as it is. */
  lemma {:induction false} CheapestLastRow(rows: seq<Row>, df: Frame, b: nat)
    requires b < |rows| && Kept(rows, df, |rows|)
    requires forall i :: b < i < |rows| ==> rows[i].time != rows[b].time
    requires Cheapest(Latest(rows, b + 1), rows[b].pair)
    ensures b in df && df[b] == rows[b]
    ensures forall i :: i in df && i < |rows| && df[i].time == df[b].time ==> i <= b
  {
    assert KeptRight(rows, df, b);
    var m := Latest(rows, b + 1);
    assert m == Latest(rows, b)[rows[b].pair := rows[b].price] && Least(m, rows[b].pair);
    if b > 0 {
      var was := Active(df, b);
      assert Least(Latest(rows, b), was.pair) && Latest(rows, b)[was.pair] == was.price && was.pair in m;
    }
    forall i | i in df && i < |rows| && df[i].time == df[b].time ensures i <= b {
      assert KeptRight(rows, df, i);
    }
  }

  /** The baseline is the pair of the last kept row at the start time. Its rows, and the kept
      ones, count from that row on. */
  method Compare(rows: seq<Row>, start: real, end: real, nics: nat) returns (r: Comparison, df: Frame, b: nat)
    requires nics > 0
    ensures rows != [] ==> Kept(rows, df, |rows|)
    ensures forall i :: i in df ==> i < |rows|
    ensures r == NoBaseline <==> forall i :: i in df ==> df[i].time != start
    ensures (exists i: nat :: i < |rows| && rows[i].time == start && SurelyKept(rows, i)) ==> r.Comparison?
    ensures r.Comparison? ==> b in df && b < |rows| && df[b].time == start
    ensures r.Comparison? ==> rows[b].time == start && PerhapsKept(rows, b)
    ensures NoTies(rows) ==> forall i: nat :: i < |rows| && rows[i].time == start && PerhapsKept(rows, i) ==>
      r.Comparison? && i <= b
    ensures r.Comparison? ==> forall i :: i in df && df[i].time == start ==> i <= b
    ensures r.Comparison? ==> r.single == Costs(Cost(Points(df, b, |rows|), 1, end), Intervals(Points(df, b, |rows|)))
    ensures r.Comparison? ==> r.multi == Costs(Cost(Points(df, b, |rows|), nics, end), Intervals(Points(df, b, |rows|)))
    ensures r.Comparison? ==> r.baseline == Baseline(rows, df[b].pair, b, start, end)
    ensures r.Comparison? && Sorted(rows) ==> (r.baseline.Costs? <==> Least(Latest(rows, b + 1), rows[b].pair))
  {
    hide Cost, Intervals, Kept, Fee, Sorted, Least, SurelyKept, PerhapsKept, NoTies;
    df := KeepCheapest(rows);
    KeptRows(rows, df);
    b := |rows|;
    while b > 0 && !(b - 1 in df && df[b - 1].time == start)
      invariant b <= |rows| && forall i :: i in df && df[i].time == start ==> i < b
    {
      b := b - 1;
    }
    if b == 0 {
      return NoBaseline, df, 0;
    }
    b := b - 1;
    var pair := df[b].pair;
    PointsEnds(df, b, |rows|);
    BaselineStarts(rows, pair, b);
    var points := Points(df, b, |rows|);
    var single := CalculateCost(points, 1, start, end);
    var multi := CalculateCost(points, nics, start, end);
    var baseline := CalculateCost(Points(OfPair(rows, pair), b, |rows|), 1, start, end);
    if Sorted(rows) {
      BaselineExactly(rows, df, b);
    }
    r := Comparison(single, multi, baseline);
  }

  /** What the comparison finds: if it has a baseline cost, that is at least the cost of the
      kept schedule, and that is at least its cost shared among interfaces. */
  lemma {:induction false} ScheduleWins(rows: seq<Row>, df: Frame, b: nat, nics: nat, end: real)
    requires b < |rows| && nics > 0 && Sorted(rows) && rows[|rows| - 1].time <= end
    requires Kept(rows, df, |rows|) && b in df && forall k :: 0 <= k < |rows| ==> rows[k].price >= 0.0
    requires var f := FirstRow(rows, df[b].pair, b); f < |rows| && rows[f].time == df[b].time
    ensures Cost(Points(df, b, |rows|), nics, end) <= Cost(Points(df, b, |rows|), 1, end)
    ensures Cost(Points(df, b, |rows|), 1, end) <= Cost(Points(OfPair(rows, df[b].pair), b, |rows|), 1, end)
  {
    hide Cost, Points, Sorted;
    assert KeptRight(rows, df, b);
    SharedScheduleCosts(rows, df, b, nics, end);
    NoFixedPairBeats(rows, df, b, FirstRow(rows, df[b].pair, b), df[b].pair, 1, end);
  }

  /** A history in which the last row at the start time is replaced by a pair that has no
      later rows. */
  lemma {:induction false} BaselineCanFail(a: Pair, c: Pair, df: Frame)
    requires a != c && Kept([Row(a, 1.0, -2.0), Row(c, 2.0, -1.0), Row(a, 3.0, 0.0)], df, 3)
    ensures var rows := [Row(a, 1.0, -2.0), Row(c, 2.0, -1.0), Row(a, 3.0, 0.0)];
      2 in df && df[2] == Row(c, 2.0, 0.0) && FirstRow(rows, df[2].pair, 2) == |rows|
    ensures forall i :: i in df && i < 3 && df[i].time == 0.0 ==> i == 2
  {
    var rows := [Row(a, 1.0, -2.0), Row(c, 2.0, -1.0), Row(a, 3.0, 0.0)];
    assert KeptRight(rows, df, 0) && KeptRight(rows, df, 1) && KeptRight(rows, df, 2);
    assert Latest(rows, 1) == map[a := 1.0];
    assert Latest(rows, 2) == map[a := 1.0, c := 2.0];
    assert Latest(rows, 3) == map[a := 3.0, c := 2.0];
    assert Active(df, 1) == df[0] && Least(Latest(rows, 1), df[0].pair);
    assert Active(df, 2) == df[0] && 2 in df && Active(df, 3) == df[2];
    var m := Latest(rows, 3);
    assert Least(m, df[2].pair) && m[df[2].pair] == df[2].price;
    assert a in m && c in m && m[a] == 3.0 && m[c] == 2.0;
  }

  /** The comparison of that history from time 0 on has a baseline without rows. */
  method BaselineFails(a: Pair, c: Pair, end: real, nics: nat) returns (r: Comparison)
    requires a != c && nics > 0
    ensures r.Comparison? && r.single.Costs? && r.baseline == NoRows
  {
    hide Kept, FirstRow, Cost;
    var df, b;
    r, df, b := Compare([Row(a, 1.0, -2.0), Row(c, 2.0, -1.0), Row(a, 3.0, 0.0)], 0.0, end, nics);
    BaselineCanFail(a, c, df);
  }
}
