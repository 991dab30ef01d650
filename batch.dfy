/**
  The batch processor: detects the metal columns once from the first row,
  then turns every row, in order, into a result record with an identifier
  (or a synthesized label), coordinates, the three indices rounded to two
  decimals, the category of the unrounded HPI and the coerced concentration
  of every metal column.
 */
module Batch {
  import opened Rows
  import opened Standards
  import opened Indices
  import opened Quality

  /** `Object.keys(row)`: the column names, one per entry, in entry order. */
  function Keys(row: Row): (ks: seq<string>)
    ensures |ks| == |row|
    ensures forall i | 0 <= i < |row| :: ks[i] == row[i].0
  {
    seq(|row|, i requires 0 <= i < |row| => row[i].0)
  }

  /** `toLowerCase` on one character. Only ASCII letters are mapped: no other
      character lower-cases to a letter of the reserved column names. */
  function ToLowerChar(c: char): char {
    if 'A' <= c <= 'Z' then (c as int + 32) as char else c
  }

  function ToLower(s: string): (t: string)
    ensures |t| == |s|
  {
    seq(|s|, i requires 0 <= i < |s| => ToLowerChar(s[i]))
  }

  /** Column names, compared in lower case, that never denote a metal. */
  const ReservedColumns: set<string> := {"id", "latitude", "longitude", "lat", "lon", "lng"}

  predicate IsReservedColumn(key: string) {
    ToLower(key) in ReservedColumns
  }

  /** The metal columns of a row: its keys, in order, minus the reserved ones. */
  function MetalColumns(row: Row): (cols: seq<string>)
    ensures forall k :: k in cols <==> k in Keys(row) && !IsReservedColumn(k)
    ensures |cols| <= |row|
  {
    if row == [] then []
    else
      assert Keys(row) == [row[0].0] + Keys(row[1..]);
      (if IsReservedColumn(row[0].0) then [] else [row[0].0]) + MetalColumns(row[1..])
  }

  /** The column filter keeps order: filtering a concatenation concatenates
      the filtered parts, so the result is the key sequence with the reserved
      keys taken out and nothing reordered. */
  lemma {:induction false} MetalColumnsAppend(a: Row, b: Row)
    ensures MetalColumns(a + b) == MetalColumns(a) + MetalColumns(b)
  {
    if a != [] {
      assert (a + b)[0] == a[0];
      assert (a + b)[1..] == a[1..] + b;
      MetalColumnsAppend(a[1..], b);
    } else {
      assert a + b == b;
    }
  }

  /** The reserved names are matched whatever their case; metal symbols and
      names that merely start like a reserved one are kept. */
  lemma ReservedColumnsCaseInsensitive()
    ensures IsReservedColumn("ID") && IsReservedColumn("Latitude") && IsReservedColumn("LNG")
    ensures IsReservedColumn("Lon") && IsReservedColumn("id")
    ensures !IsReservedColumn("As") && !IsReservedColumn("Lead") && !IsReservedColumn("identifier")
  {
    assert ToLower("ID") == "id";
    assert ToLower("Latitude") == "latitude";
    assert ToLower("LNG") == "lng";
    assert ToLower("Lon") == "lon";
    assert ToLower("id") == "id";
    assert ToLower("As") == "as";
    assert ToLower("Lead") == "lead";
    assert |ToLower("identifier")| == 10;
  }

  /** `Math.round(x * 100) / 100`: the nearest multiple of 0.01, halves
      rounded towards +∞. */
  function Round2(x: real): (r: real)
    ensures x - 0.005 < r <= x + 0.005
    ensures (r * 100.0).Floor as real == r * 100.0
  {
    (x * 100.0 + 0.5).Floor as real / 100.0
  }

  lemma Round2Monotone(x: real, y: real)
    requires x <= y
    ensures Round2(x) <= Round2(y)
  {
    assert (x * 100.0 + 0.5).Floor <= (y * 100.0 + 0.5).Floor;
  }

  /** A value already on two decimals is left unchanged; so rounding twice is
      rounding once. */
  lemma Round2Fixed(k: int)
    ensures Round2(k as real / 100.0) == k as real / 100.0
  {
    assert k as real / 100.0 * 100.0 + 0.5 == k as real + 0.5;
    assert (k as real + 0.5).Floor == k;
  }

  lemma Round2Idempotent(x: real)
    ensures Round2(Round2(x)) == Round2(x)
  {
    var k := (x * 100.0 + 0.5).Floor;
    Round2Fixed(k);
  }

  /** One output record. `id`, `latitude` and `longitude` carry the row's own
      values, which need not be strings or numbers. */
  datatype SampleResult = SampleResult(
    id: Value,
    latitude: Value,
    longitude: Value,
    hpi: real,
    hei: real,
    cd: real,
    category: Category,
    metals: map<string, real>)

  /** The label of the row at a 0-based position: `Sample ${index + 1}`,
      a decimal number with no leading zero. */
  function SampleLabel(index: nat): (name: string)
    ensures |name| > 7 && name[..7] == "Sample "
    ensures forall i | 7 <= i < |name| :: IsDigit(name[i])
    ensures name[7] != '0'
  {
    "Sample " + NatToString(index + 1)
  }

  /** The number in a synthesized label reads back as the row's 1-based position. */
  lemma SampleLabelNumber(index: nat)
    ensures ParseFloat(SampleLabel(index)[7..]) == Some((index + 1) as real)
  {
    ParseFloatNatToString(index + 1);
    assert SampleLabel(index)[7..] == NatToString(index + 1);
  }

  /** `sample.id || label` */
  function SampleId(sample: Row, index: nat): (id: Value)
    ensures Truthy(id)
    ensures Truthy(Get(sample, "id")) ==> id == Get(sample, "id")
    ensures !Truthy(Get(sample, "id")) ==> id == Str(SampleLabel(index))
  {
    Or(Get(sample, "id"), Str(SampleLabel(index)))
  }

  /** `sample.latitude || sample.lat` */
  function Latitude(sample: Row): (lat: Value)
    ensures Truthy(Get(sample, "latitude")) ==> lat == Get(sample, "latitude")
    ensures !Truthy(Get(sample, "latitude")) ==> lat == Get(sample, "lat")
  {
    Or(Get(sample, "latitude"), Get(sample, "lat"))
  }

  /** `sample.longitude || sample.lon || sample.lng` */
  function Longitude(sample: Row): (lon: Value)
    ensures Truthy(Get(sample, "longitude")) ==> lon == Get(sample, "longitude")
    ensures !Truthy(Get(sample, "longitude")) && Truthy(Get(sample, "lon")) ==> lon == Get(sample, "lon")
    ensures !Truthy(Get(sample, "longitude")) && !Truthy(Get(sample, "lon")) ==> lon == Get(sample, "lng")
  {
    Or(Or(Get(sample, "longitude"), Get(sample, "lon")), Get(sample, "lng"))
  }

  /** The record the batch processor builds for a row at a position, given
      the metal columns of the batch. It always carries a truthy id, one
      concentration per metal column, and a Contamination Degree equal to
      its HEI. */
  function SampleRecord(sample: Row, index: nat, columns: seq<string>): (r: SampleResult)
    ensures Truthy(r.id)
    ensures r.metals.Keys == set m | m in columns
    ensures r.cd == r.hei
  {
    var hpi := Hpi(sample, columns);
    var hei := Hei(sample, columns);
    var cd := Hei(sample, columns);
    SampleResult(
      SampleId(sample, index),
      Latitude(sample),
      Longitude(sample),
      Round2(hpi),
      Round2(hei),
      Round2(cd),
      CategorizeWaterQuality(hpi),
      map m | m in columns :: Concentration(sample, m))
  }

  /** Fills the `metals` dictionary of a record, one column at a time. */
  method CollectMetals(sample: Row, columns: seq<string>) returns (metals: map<string, real>)
    ensures metals.Keys == set m | m in columns
    ensures forall m | m in columns :: metals[m] == Concentration(sample, m)
  {
    metals := map[];
    for i := 0 to |columns|
      invariant metals.Keys == set m | m in columns[..i]
      invariant forall m | m in columns[..i] :: metals[m] == Concentration(sample, m)
    {
      var metal := columns[i];
      metals := metals[metal := Coerce(Get(sample, metal))];
      assert columns[..i + 1] == columns[..i] + [metal];
    }
    assert columns[..|columns|] == columns;
  }

  /** The body of the `samples.map` callback for one row. */
  method ProcessSample(sample: Row, index: nat, columns: seq<string>) returns (r: SampleResult)
    ensures r == SampleRecord(sample, index, columns)
  {
    var hpi := CalculateHpi(sample, columns);
    var hei := CalculateHei(sample, columns);
    var cd := CalculateCd(sample, columns);
    var category := CategorizeWaterQuality(hpi);
    var metals := CollectMetals(sample, columns);
    r := SampleResult(
      SampleId(sample, index),
      Latitude(sample),
      Longitude(sample),
      Round2(hpi),
      Round2(hei),
      Round2(cd),
      category,
      metals);
  }

  /** `processWaterSamples`: an empty batch gives no records; otherwise the
      metal columns are taken once from the first row and every row yields,
      at its own position, the record computed from that row, its position
      and those columns alone. */
  method ProcessWaterSamples(samples: seq<Row>) returns (results: seq<SampleResult>)
    ensures |results| == |samples|
    ensures samples != [] ==> forall i | 0 <= i < |samples| ::
      results[i] == SampleRecord(samples[i], i, MetalColumns(samples[0]))
  {
    if |samples| == 0 {
      return [];
    }
    var metalColumns := MetalColumns(samples[0]);
    results := [];
    for i := 0 to |samples|
      invariant |results| == i
      invariant forall j | 0 <= j < i :: results[j] == SampleRecord(samples[j], j, metalColumns)
    {
      var record := ProcessSample(samples[i], i, metalColumns);
      ghost var done := results;
      results := results + [record];
      forall j | 0 <= j < i + 1
        ensures results[j] == SampleRecord(samples[j], j, metalColumns)
      {
        if j < i {
          assert results[j] == done[j];
        }
      }
    }
  }

  /** Every record holds exactly the batch's metal columns; a column the row
      lacks holds 0, and HEI and Cd agree. */
  lemma {:induction false} RecordMetals(sample: Row, index: nat, columns: seq<string>, m: string)
    ensures SampleRecord(sample, index, columns).metals.Keys == set c | c in columns
    ensures SampleRecord(sample, index, columns).hei == SampleRecord(sample, index, columns).cd
    ensures m in columns && m !in Keys(sample) ==> SampleRecord(sample, index, columns).metals[m] == 0.0
  {
    if m in columns && m !in Keys(sample) {
      forall j | 0 <= j < |sample| ensures sample[j].0 != m {
        assert Keys(sample)[j] == sample[j].0;
      }
      GetMissing(sample, m);
    }
  }

  /** The record's id is the row's own id when that is truthy and the
      synthesized label otherwise; either way it is truthy. */
  lemma RecordId(sample: Row, index: nat, columns: seq<string>)
    ensures Truthy(Get(sample, "id")) ==> SampleRecord(sample, index, columns).id == Get(sample, "id")
    ensures !Truthy(Get(sample, "id")) ==> SampleRecord(sample, index, columns).id == Str("Sample " + NatToString(index + 1))
    ensures Truthy(SampleRecord(sample, index, columns).id)
  {
  }

  /** A row at position 3 (index 2) without an `id` column is labelled
      "Sample 3"; an upper-case `ID` column is not read as the identifier. */
  lemma SyntheticIds()
    ensures SampleId([("As", Num(0.01))], 2) == Str("Sample 3")
    ensures SampleId([("ID", Str("W1")), ("As", Num(0.01))], 0) == Str("Sample 1")
  {
    assert NatToString(3) == "3";
    assert NatToString(1) == "1";
    var a: Row := [("As", Num(0.01))];
    assert Get(a, "id") == Absent by { GetMissing(a, "id"); }
    var b: Row := [("ID", Str("W1")), ("As", Num(0.01))];
    assert Get(b, "id") == Absent by { GetMissing(b, "id"); }
  }

  /** An upper-case `ID` column is reserved, so it is not a metal column. */
  lemma UpperCaseIdReserved()
    ensures MetalColumns([("ID", Str("W1")), ("As", Num(0.01))]) == ["As"]
  {
    var row: Row := [("ID", Str("W1")), ("As", Num(0.01))];
    assert ToLower("ID") == "id";
    assert ToLower("As") == "as";
    assert row[1..][1..] == [];
  }

  /** Coordinates fall back from `latitude` to `lat` and from `longitude` to
      `lon` to `lng`; a falsy value, such as a latitude of exactly 0, falls
      through like a missing one. */
  lemma CoordinateFallbacks()
    ensures Latitude([("lat", Num(12.5)), ("lon", Num(77.25))]) == Num(12.5)
    ensures Longitude([("lat", Num(12.5)), ("lon", Num(77.25))]) == Num(77.25)
    ensures Longitude([("longitude", Str("")), ("lng", Num(5.0))]) == Num(5.0)
    ensures Latitude([("latitude", Num(0.0)), ("longitude", Num(30.0))]) == Absent
  {
    var a: Row := [("lat", Num(12.5)), ("lon", Num(77.25))];
    assert Get(a, "latitude") == Absent by { GetMissing(a, "latitude"); }
    assert Get(a, "longitude") == Absent by { GetMissing(a, "longitude"); }
    var b: Row := [("longitude", Str("")), ("lng", Num(5.0))];
    assert Get(b, "lon") == Absent by { GetMissing(b, "lon"); }
    var c: Row := [("latitude", Num(0.0)), ("longitude", Num(30.0))];
    assert Get(c, "lat") == Absent by { GetMissing(c, "lat"); }
  }

  /** The category comes from the unrounded HPI, yet it agrees with the
      stored, rounded HPI up to the threshold itself: a Safe record stores at
      most 100, a Hazardous one at least 200. */
  lemma RecordCategoryAgreesWithRounding(sample: Row, index: nat, columns: seq<string>)
    ensures SampleRecord(sample, index, columns).category == Safe ==>
      SampleRecord(sample, index, columns).hpi <= 100.0
    ensures SampleRecord(sample, index, columns).category == SlightlyPolluted ==>
      100.0 <= SampleRecord(sample, index, columns).hpi <= 200.0
    ensures SampleRecord(sample, index, columns).category == Hazardous ==>
      200.0 <= SampleRecord(sample, index, columns).hpi
  {
    var h := Hpi(sample, columns);
    Round2Fixed(10000);
    Round2Fixed(20000);
    if h < 100.0 {
      Round2Monotone(h, 100.0);
    } else if h < 200.0 {
      Round2Monotone(100.0, h);
      Round2Monotone(h, 200.0);
    } else {
      Round2Monotone(200.0, h);
    }
  }

  /** The stored HPI can read 100.00 while the category is Safe: an unknown
      metal (standard 1) at 0.99996 has HPI 99.996. */
  lemma RoundedHpiAtThresholdYetSafe()
    ensures SampleRecord([("X", Num(0.99996))], 0, ["X"]).hpi == 100.0
    ensures SampleRecord([("X", Num(0.99996))], 0, ["X"]).category == Safe
  {
    var row: Row := [("X", Num(0.99996))];
    var rs := Readings(row, ["X"]);
    assert Standard("X") == 1.0;
    assert rs == [Reading(0.99996, 1.0)];
    assert rs[..0] == [];
    assert Hpi(row, ["X"]) == 99.996;
    assert (99.996 * 100.0 + 0.5).Floor == 10000;
  }
}
