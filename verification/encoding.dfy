/**
 Categorical encoding of the two label-valued car attributes. The regression
 model expects small integer codes; the page maps the labels the user picked
 through a fixed two-level dictionary (field name, then label).
 */
module Encoding {
  import opened Wrappers

  const FuelField: string := "fuel_type"
  const TransmissionField: string := "transmission_type"

  /** The choices of the fuel select box, in display order. */
  const FuelLabels: seq<string> := ["Diesel", "Petrol", "CNG", "LPG", "Electric"]

  /** The choices of the transmission select box, in display order. */
  const TransmissionLabels: seq<string> := ["Manual", "Automatic"]

  /** The encoding table, per field: label to model code. */
  const EncodeDict: map<string, map<string, int>> := map[
    FuelField := map["Diesel" := 1, "Petrol" := 2, "CNG" := 3, "LPG" := 4, "Electric" := 5],
    TransmissionField := map["Manual" := 1, "Automatic" := 2]
  ]

  /**
   The labels the page offers for a field (none for an unknown field): distinct,
   and exactly the labels the encoding table knows for that field.
   */
  function OfferedLabels(field: string): (labels: seq<string>)
    ensures forall i, j :: 0 <= i < j < |labels| ==> labels[i] != labels[j]
    ensures field in EncodeDict ==> forall l :: l in labels <==> l in EncodeDict[field]
    ensures field !in EncodeDict ==> labels == []
  {
    if field == FuelField then FuelLabels
    else if field == TransmissionField then TransmissionLabels
    else []
  }

  /**
   Looks a label up in the table; a miss (the dictionary's KeyError) is None.
   The code of a label is its 1-based position among the offered choices, and
   exactly the offered choices have a code.
   */
  function Encode(field: string, choice: string): (r: Option<int>)
    ensures r.Some? <==> choice in OfferedLabels(field)
    ensures r.Some? ==> 1 <= r.value <= |OfferedLabels(field)|
    ensures r.Some? ==> OfferedLabels(field)[r.value - 1] == choice
  {
    if field in EncodeDict && choice in EncodeDict[field] then Some(EncodeDict[field][choice]) else None
  }

  /** The seven entries of the table, each with its literal code. */
  lemma TableFidelity()
    ensures Encode(FuelField, "Diesel") == Some(1)
    ensures Encode(FuelField, "Petrol") == Some(2)
    ensures Encode(FuelField, "CNG") == Some(3)
    ensures Encode(FuelField, "LPG") == Some(4)
    ensures Encode(FuelField, "Electric") == Some(5)
    ensures Encode(TransmissionField, "Manual") == Some(1)
    ensures Encode(TransmissionField, "Automatic") == Some(2)
  {
  }

  /** Within one field, two labels with the same code are the same choice. */
  lemma EncodeInjective(field: string, a: string, b: string)
    requires Encode(field, a).Some?
    requires Encode(field, a) == Encode(field, b)
    ensures a == b
  {
  }

  /** Every choice the select boxes offer has a code, so the lookups cannot miss. */
  lemma OfferedChoicesEncode(fuel: string, transmission: string)
    requires fuel in FuelLabels
    requires transmission in TransmissionLabels
    ensures Encode(FuelField, fuel).Some?
    ensures Encode(TransmissionField, transmission).Some?
  {
  }
}
