/**
 The historical average shown next to a prediction: the mean selling price of
 the comparison rows, reported only when there is at least one such row.
 */
module History {
  import opened Table

  /** Either the mean selling price of the rows, or the "no historical data" state. */
  datatype Average = Mean(price: real) | NoHistoricalData

  /** Sum of the selling prices of the rows. */
  function TotalPrice(rows: seq<CarRecord>): real
  {
    if |rows| == 0 then 0.0 else rows[0].sellingPrice + TotalPrice(rows[1..])
  }

  /** The sum over two consecutive blocks of rows is the sum of the blocks' sums. */
  lemma {:induction false} TotalPriceAppend(a: seq<CarRecord>, b: seq<CarRecord>)
    ensures TotalPrice(a + b) == TotalPrice(a) + TotalPrice(b)
  {
    if |a| > 0 {
      assert (a + b)[1..] == a[1..] + b;
      TotalPriceAppend(a[1..], b);
    } else {
      assert a + b == b;
    }
  }

  /** Taking one row out of the sum leaves the sum of the other rows. */
  lemma {:induction false} TotalPriceRemove(b: seq<CarRecord>, k: int)
    requires 0 <= k < |b|
    ensures TotalPrice(b) == b[k].sellingPrice + TotalPrice(b[..k] + b[k + 1..])
  {
    var head, tail := b[..k], b[k + 1..];
    var mid := [b[k]] + tail;
    assert b == head + mid;
    TotalPriceAppend(head, mid);
    assert mid[0] == b[k] && mid[1..] == tail;
    assert TotalPrice(mid) == b[k].sellingPrice + TotalPrice(tail);
    TotalPriceAppend(head, tail);
  }

  /** The sum does not depend on the order of the rows, so neither does the mean. */
  lemma {:induction false} TotalPricePermutation(a: seq<CarRecord>, b: seq<CarRecord>)
    requires multiset(a) == multiset(b)
    ensures TotalPrice(a) == TotalPrice(b)
    decreases |a|
  {
    if |a| > 0 {
      assert a[0] in multiset(b);
      var k :| 0 <= k < |b| && b[k] == a[0];
      var rest := b[..k] + b[k + 1..];
      assert b == b[..k] + [b[k]] + b[k + 1..];
      assert a == [a[0]] + a[1..];
      assert multiset(a[1..]) == multiset(a) - multiset{a[0]};
      assert multiset(rest) == multiset(b) - multiset{b[k]};
      TotalPricePermutation(a[1..], rest);
      TotalPriceRemove(b, k);
    } else {
      assert |b| == |multiset(b)| == 0;
    }
  }

  /** The mean is taken only over a non-empty selection; an empty one is not reported as 0. */
  function HistoricalAverage(rows: seq<CarRecord>): (a: Average)
    ensures a.Mean? <==> |rows| > 0
    ensures a.Mean? ==> a.price * |rows| as real == TotalPrice(rows)
  {
    if |rows| == 0 then NoHistoricalData else Mean(TotalPrice(rows) / |rows| as real)
  }

  /** The sum of prices that all lie in [lo, hi] lies between |rows|*lo and |rows|*hi. */
  lemma {:induction false} TotalPriceBounds(rows: seq<CarRecord>, lo: real, hi: real)
    requires forall i :: 0 <= i < |rows| ==> lo <= rows[i].sellingPrice <= hi
    ensures |rows| as real * lo <= TotalPrice(rows) <= |rows| as real * hi
  {
    if |rows| > 0 {
      assert forall i :: 0 <= i < |rows[1..]| ==> rows[1..][i] == rows[i + 1];
      TotalPriceBounds(rows[1..], lo, hi);
    }
  }

  /** The reported mean lies between the cheapest and the dearest matching row. */
  lemma AverageWithinPrices(rows: seq<CarRecord>, lo: real, hi: real)
    requires |rows| > 0
    requires forall i :: 0 <= i < |rows| ==> lo <= rows[i].sellingPrice <= hi
    ensures lo <= HistoricalAverage(rows).price <= hi
  {
    TotalPriceBounds(rows, lo, hi);
    var n := |rows| as real;
    var m := HistoricalAverage(rows).price;
    assert m * n == TotalPrice(rows);
  }

  /** When every matching row sold for the same price, that price is the mean. */
  lemma AverageOfEqualPrices(rows: seq<CarRecord>, p: real)
    requires |rows| > 0
    requires forall i :: 0 <= i < |rows| ==> rows[i].sellingPrice == p
    ensures HistoricalAverage(rows) == Mean(p)
  {
    AverageWithinPrices(rows, p, p);
  }
}
