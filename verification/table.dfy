/**
 The in-memory car table and the row filter both queries of the page use.
 The table is read once and never changed; a filter keeps the matching rows,
 unmodified and in table order, like a boolean mask applied to a data frame.
 */
module Table {

  /** One row of the dataset. Only the named columns are read by any logic. */
  datatype CarRecord = CarRecord(
    year: int,
    fuel: string,
    transmission: string,
    seats: int,
    sellingPrice: real,
    mileage: real,
    engine: real,
    power: real
  )

  /** An inclusive range, as tested by a series' `between` with both ends included. */
  datatype Range = Range(lo: int, hi: int) {
    predicate Contains(x: int) {
      lo <= x <= hi
    }
  }

  /** The two row selections the page makes. */
  datatype Query =
    | /** Rows like the car being priced: same labels, same seat count, year in range. */
      Comparison(fuel: string, transmission: string, seatCount: int, years: Range)
    | /** Rows for browsing: labels among the selected ones, seats and year in range. */
      Exploration(fuels: set<string>, transmissions: set<string>, seats: Range, years: Range)

  /** The conjunction of column conditions a query applies to one row. */
  predicate Matches(q: Query, row: CarRecord)
  {
    match q
    case Comparison(f, t, n, ys) =>
      row.fuel == f && row.transmission == t && row.seats == n && ys.Contains(row.year)
    case Exploration(fs, ts, ss, ys) =>
      row.fuel in fs && row.transmission in ts && ss.Contains(row.seats) && ys.Contains(row.year)
  }

  /** `a` is obtained from `b` by deleting some elements, keeping the rest in order. */
  predicate IsSubsequence<T(==)>(a: seq<T>, b: seq<T>)
    decreases |b|
  {
    && |a| <= |b|
    && (|a| == 0
        || (a[0] == b[0] && IsSubsequence(a[1..], b[1..]))
        || IsSubsequence(a, b[1..]))
  }

  /** The rows of `data` a query keeps. */
  function Select(data: seq<CarRecord>, q: Query): (r: seq<CarRecord>)
    ensures |r| <= |data|
    ensures forall row :: row in r <==> row in data && Matches(q, row)
  {
    if |data| == 0 then []
    else if Matches(q, data[0]) then [data[0]] + Select(data[1..], q)
    else Select(data[1..], q)
  }

  /** The selection keeps rows in table order and changes none of them. */
  lemma {:induction false} SelectIsSubsequence(data: seq<CarRecord>, q: Query)
    ensures IsSubsequence(Select(data, q), data)
  {
    if |data| > 0 {
      SelectIsSubsequence(data[1..], q);
      var r := Select(data, q);
      if Matches(q, data[0]) {
        assert r[0] == data[0] && r[1..] == Select(data[1..], q);
      } else {
        assert r == Select(data[1..], q);
      }
    }
  }

  /** A matching row appears in the selection exactly as often as in the table; others never. */
  lemma {:induction false} SelectMultiplicity(data: seq<CarRecord>, q: Query, row: CarRecord)
    ensures multiset(Select(data, q))[row] == if Matches(q, row) then multiset(data)[row] else 0
  {
    if |data| > 0 {
      SelectMultiplicity(data[1..], q, row);
      assert data == [data[0]] + data[1..];
      assert multiset(data) == multiset([data[0]]) + multiset(data[1..]);
    }
  }

  /** When every row matches, the selection is the whole table. */
  lemma {:induction false} SelectAll(data: seq<CarRecord>, q: Query)
    requires forall row :: row in data ==> Matches(q, row)
    ensures Select(data, q) == data
  {
    if |data| > 0 {
      assert data[0] in data;
      assert forall row :: row in data[1..] ==> row in data;
      SelectAll(data[1..], q);
      assert data == [data[0]] + data[1..];
    }
  }

  /** When no row matches, the selection is empty. */
  lemma {:induction false} SelectNone(data: seq<CarRecord>, q: Query)
    requires forall row :: row in data ==> !Matches(q, row)
    ensures Select(data, q) == []
  {
    if |data| > 0 {
      assert data[0] in data;
      assert forall row :: row in data[1..] ==> row in data;
      SelectNone(data[1..], q);
    }
  }

  /** A query that keeps at least the rows another keeps selects a supersequence of it. */
  lemma {:induction false} SelectMonotone(data: seq<CarRecord>, narrow: Query, wide: Query)
    requires forall row :: row in data && Matches(narrow, row) ==> Matches(wide, row)
    ensures IsSubsequence(Select(data, narrow), Select(data, wide))
  {
    if |data| > 0 {
      assert data[0] in data;
      assert forall row :: row in data[1..] ==> row in data;
      SelectMonotone(data[1..], narrow, wide);
      var n', w' := Select(data[1..], narrow), Select(data[1..], wide);
      var n, w := Select(data, narrow), Select(data, wide);
      if Matches(narrow, data[0]) {
        assert n[0] == w[0] && n[1..] == n' && w[1..] == w';
      } else if Matches(wide, data[0]) {
        assert n == n' && w[1..] == w';
      } else {
        assert n == n' && w == w';
      }
    }
  }

  /** Two queries that agree on every row of the table select the same rows. */
  lemma {:induction false} SelectExtensional(data: seq<CarRecord>, q1: Query, q2: Query)
    requires forall row :: row in data ==> (Matches(q1, row) <==> Matches(q2, row))
    ensures Select(data, q1) == Select(data, q2)
  {
    if |data| > 0 {
      assert data[0] in data;
      assert forall row :: row in data[1..] ==> row in data;
      SelectExtensional(data[1..], q1, q2);
    }
  }
}
