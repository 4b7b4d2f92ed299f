/**
 The two read-only queries of the page: the "Predict Price" action (encode,
 estimate, compare with history) and the dataset exploration view. The loaded
 table and the stored model are explicit parameters.
 */
module Page {
  import opened Wrappers
  import opened Encoding
  import opened Table
  import opened History
  import opened Predictor

  /** The sidebar inputs the prediction reads (the free-text car model is never read). */
  datatype Selection = Selection(fuel: string, transmission: string, engine: int, seats: int, years: Range)

  /** What one press of "Predict Price" ends in. */
  datatype Outcome =
    | /** A label missing from the encoding table (caught by the action's handler). */
      UnknownCategory(field: string, choice: string)
    | /** The estimator returned its "no result" sentinel: no price, no comparison. */
      PredictionFailed(reason: string)
    | /** The model returned no output to read the price from (caught by the action's handler). */
      EmptyPrediction
    | /** A price, and the historical average of comparable rows. */
      Priced(price: real, history: Average)

  /** Rows with the same fuel, transmission and seat count, built within the year range. */
  function ComparisonRows(data: seq<CarRecord>, fuel: string, transmission: string, seats: int, years: Range): (r: seq<CarRecord>)
    ensures forall row :: row in r <==>
      && row in data
      && row.fuel == fuel
      && row.transmission == transmission
      && row.seats == seats
      && years.Contains(row.year)
    ensures IsSubsequence(r, data)
  {
    SelectIsSubsequence(data, Comparison(fuel, transmission, seats, years));
    Select(data, Comparison(fuel, transmission, seats, years))
  }

  /** The whole "Predict Price" action on one set of inputs. */
  function PredictPrice(data: seq<CarRecord>, artifact: Artifact, s: Selection): (o: Outcome)
    ensures o.UnknownCategory? <==> s.fuel !in FuelLabels || s.transmission !in TransmissionLabels
    ensures o.UnknownCategory? && s.fuel !in FuelLabels ==> o == UnknownCategory(FuelField, s.fuel)
    ensures o.UnknownCategory? && s.fuel in FuelLabels ==> o == UnknownCategory(TransmissionField, s.transmission)
    ensures o.PredictionFailed? || o.EmptyPrediction? || o.Priced? ==>
      var p := ModelPred(artifact, Encode(FuelField, s.fuel).value,
                         Encode(TransmissionField, s.transmission).value, s.engine, s.seats);
      && (o.PredictionFailed? <==> p.NoResult?)
      && (o.PredictionFailed? ==> o.reason == p.reason)
      && (o.EmptyPrediction? <==> p.Predicted? && |p.values| == 0)
      && (o.Priced? ==> p.Predicted? && |p.values| > 0 && o.price == p.values[0])
    ensures o.Priced? ==>
      o.history == HistoricalAverage(ComparisonRows(data, s.fuel, s.transmission, s.seats, s.years))
  {
    match Encode(FuelField, s.fuel)
    case None => UnknownCategory(FuelField, s.fuel)
    case Some(fuelCode) =>
      match Encode(TransmissionField, s.transmission)
      case None => UnknownCategory(TransmissionField, s.transmission)
      case Some(transmissionCode) =>
        match ModelPred(artifact, fuelCode, transmissionCode, s.engine, s.seats)
        case NoResult(reason) => PredictionFailed(reason)
        case Predicted(values) =>
          if |values| == 0 then EmptyPrediction
          else Priced(values[0], HistoricalAverage(ComparisonRows(data, s.fuel, s.transmission, s.seats, s.years)))
  }

  /** With the labels the select boxes offer, an action ends in a price exactly when the model answers. */
  lemma OfferedInputsReachModel(data: seq<CarRecord>, artifact: Artifact, s: Selection)
    requires s.fuel in FuelLabels && s.transmission in TransmissionLabels
    ensures var v := Features(Encode(FuelField, s.fuel).value, Encode(TransmissionField, s.transmission).value, s.engine, s.seats);
      PredictPrice(data, artifact, s).Priced? <==>
        artifact.Regressor? && artifact.predict(v).Outputs? && |artifact.predict(v).values| > 0
  {
  }

  /**
   A failed prediction shows no price and never looks at the table: the outcome
   is the same whatever the dataset.
   */
  lemma FailedPredictionSkipsComparison(data1: seq<CarRecord>, data2: seq<CarRecord>, artifact: Artifact, s: Selection)
    requires PredictPrice(data1, artifact, s).PredictionFailed?
    ensures PredictPrice(data2, artifact, s) == PredictPrice(data1, artifact, s)
  {
  }

  /**
   The predicted price depends on the fuel, transmission, engine and seats only:
   not on the year range nor on the dataset (the vector's year slot is a placeholder).
   */
  lemma PriceIgnoresYearsAndTable(data1: seq<CarRecord>, data2: seq<CarRecord>, artifact: Artifact, s1: Selection, s2: Selection)
    requires s1.fuel == s2.fuel && s1.transmission == s2.transmission
    requires s1.engine == s2.engine && s1.seats == s2.seats
    requires PredictPrice(data1, artifact, s1).Priced?
    ensures PredictPrice(data2, artifact, s2).Priced?
    ensures PredictPrice(data2, artifact, s2).price == PredictPrice(data1, artifact, s1).price
  {
  }

  /** With a price, "no historical data" is reported exactly when no comparable row exists. */
  lemma NoHistoryIffNoComparableRow(data: seq<CarRecord>, artifact: Artifact, s: Selection)
    requires PredictPrice(data, artifact, s).Priced?
    ensures PredictPrice(data, artifact, s).history.NoHistoricalData? <==>
      forall row :: row in data ==>
        !(row.fuel == s.fuel && row.transmission == s.transmission && row.seats == s.seats && s.years.Contains(row.year))
  {
    var rows := ComparisonRows(data, s.fuel, s.transmission, s.seats, s.years);
    if |rows| > 0 {
      assert rows[0] in rows;
    }
  }

  /** The exploration view: rows whose labels are selected and whose seats and year are in range. */
  function Explore(data: seq<CarRecord>, fuels: set<string>, transmissions: set<string>, seats: Range, years: Range): (r: seq<CarRecord>)
    ensures forall row :: row in r <==>
      && row in data
      && row.fuel in fuels
      && row.transmission in transmissions
      && seats.Contains(row.seats)
      && years.Contains(row.year)
    ensures IsSubsequence(r, data)
  {
    SelectIsSubsequence(data, Exploration(fuels, transmissions, seats, years));
    Select(data, Exploration(fuels, transmissions, seats, years))
  }

  /** Each row appears in the exploration view as often as in the table if it qualifies, else never. */
  lemma ExploreMultiplicity(data: seq<CarRecord>, fuels: set<string>, transmissions: set<string>, seats: Range, years: Range, row: CarRecord)
    ensures multiset(Explore(data, fuels, transmissions, seats, years))[row] ==
      if row.fuel in fuels && row.transmission in transmissions && seats.Contains(row.seats) && years.Contains(row.year)
      then multiset(data)[row] else 0
  {
    SelectMultiplicity(data, Exploration(fuels, transmissions, seats, years), row);
  }

  /**
   `wide`'s bounds enclose `narrow`'s. This compares bounds, so for an empty
   `narrow` (lo > hi) it asks more than containment of the integers in range.
   */
  predicate RangeWidens(wide: Range, narrow: Range)
  {
    wide.lo <= narrow.lo && narrow.hi <= wide.hi
  }

  /** Widening any selected set or range never removes a row, nor reorders the view. */
  lemma ExploreMonotone(
    data: seq<CarRecord>,
    fuels: set<string>, transmissions: set<string>, seats: Range, years: Range,
    fuels': set<string>, transmissions': set<string>, seats': Range, years': Range)
    requires fuels <= fuels' && transmissions <= transmissions'
    requires RangeWidens(seats', seats) && RangeWidens(years', years)
    ensures IsSubsequence(Explore(data, fuels, transmissions, seats, years),
                          Explore(data, fuels', transmissions', seats', years'))
  {
    SelectMonotone(data, Exploration(fuels, transmissions, seats, years),
                   Exploration(fuels', transmissions', seats', years'));
  }

  /** A seat range that holds no row's seat count gives an empty view. */
  lemma ExploreDisjointSeats(data: seq<CarRecord>, fuels: set<string>, transmissions: set<string>, seats: Range, years: Range)
    requires forall row :: row in data ==> !seats.Contains(row.seats)
    ensures Explore(data, fuels, transmissions, seats, years) == []
  {
    SelectNone(data, Exploration(fuels, transmissions, seats, years));
  }

  /** The comparison is the exploration narrowed to one fuel, one transmission and one seat count. */
  lemma ComparisonIsNarrowExploration(data: seq<CarRecord>, fuel: string, transmission: string, seats: int, years: Range)
    ensures ComparisonRows(data, fuel, transmission, seats, years) ==
            Explore(data, {fuel}, {transmission}, Range(seats, seats), years)
  {
    SelectExtensional(data, Comparison(fuel, transmission, seats, years),
                      Exploration({fuel}, {transmission}, Range(seats, seats), years));
  }

  /** The distinct fuel labels present in the table (the fuel filter's options and default). */
  function FuelValues(data: seq<CarRecord>): (labels: set<string>)
    ensures forall row :: row in data ==> row.fuel in labels
  {
    set row | row in data :: row.fuel
  }

  /** The distinct transmission labels present in the table. */
  function TransmissionValues(data: seq<CarRecord>): (labels: set<string>)
    ensures forall row :: row in data ==> row.transmission in labels
  {
    set row | row in data :: row.transmission
  }

  /** The filter options hold only labels that some row of the table carries. */
  lemma OptionsArePresent(data: seq<CarRecord>, f: string, t: string)
    ensures f in FuelValues(data) ==> exists i :: 0 <= i < |data| && data[i].fuel == f
    ensures t in TransmissionValues(data) ==> exists i :: 0 <= i < |data| && data[i].transmission == t
  {
  }

  /** The least seat count in the table (the seat slider's lower end). */
  function MinSeats(data: seq<CarRecord>): (m: int)
    requires |data| > 0
    ensures forall i :: 0 <= i < |data| ==> m <= data[i].seats
    ensures exists i :: 0 <= i < |data| && data[i].seats == m
  {
    if |data| == 1 then data[0].seats
    else
      var rest := MinSeats(data[1..]);
      assert forall i :: 1 <= i < |data| ==> data[i] == data[1..][i - 1];
      if data[0].seats <= rest then data[0].seats else rest
  }

  /** The greatest seat count in the table (the seat slider's upper end). */
  function MaxSeats(data: seq<CarRecord>): (m: int)
    requires |data| > 0
    ensures forall i :: 0 <= i < |data| ==> data[i].seats <= m
    ensures exists i :: 0 <= i < |data| && data[i].seats == m
  {
    if |data| == 1 then data[0].seats
    else
      var rest := MaxSeats(data[1..]);
      assert forall i :: 1 <= i < |data| ==> data[i] == data[1..][i - 1];
      if data[0].seats >= rest then data[0].seats else rest
  }

  /** Bounds of the year sliders. */
  const FirstYear: int := 1991
  const LastYear: int := 2024

  /** One row of the table passes the full selection's conditions. */
  lemma FullSelectionMatches(data: seq<CarRecord>, i: int)
    requires 0 <= i < |data|
    requires FirstYear <= data[i].year <= LastYear
    ensures Matches(Exploration(FuelValues(data), TransmissionValues(data),
                                Range(MinSeats(data), MaxSeats(data)), Range(FirstYear, LastYear)), data[i])
  {
    assert data[i] in data;
  }

  /**
   Selecting every fuel and transmission present, the slider's whole seat range
   and the whole year range shows the entire table, in order, when every year
   lies within the slider's bounds.
   */
  lemma ExploreFullSelection(data: seq<CarRecord>)
    requires |data| > 0
    requires forall row :: row in data ==> FirstYear <= row.year <= LastYear
    ensures Explore(data, FuelValues(data), TransmissionValues(data),
                    Range(MinSeats(data), MaxSeats(data)), Range(FirstYear, LastYear)) == data
  {
    var q := Exploration(FuelValues(data), TransmissionValues(data),
                         Range(MinSeats(data), MaxSeats(data)), Range(FirstYear, LastYear));
    forall i | 0 <= i < |data|
      ensures Matches(q, data[i])
    {
      FullSelectionMatches(data, i);
    }
    SelectAll(data, q);
  }
}
