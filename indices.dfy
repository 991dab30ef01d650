/**
  The three pollution indices of one sample over a list of metal columns:
  the Heavy Metal Pollution Index (a weighted mean of sub-indices, weight
  1/standard), the Heavy Metal Evaluation Index and the Contamination Degree
  (both the sum of concentration/standard). Each metal contributes one
  reading, its coerced concentration and its standard; the formulas are sums
  over the list of readings, and each index is computed by a loop over the
  metal list proved equal to its formula.
 */
module Indices {
  import opened Rows
  import opened Standards

  /** The concentration a sample holds for a metal: `parseFloat(sample[metal]) || 0`. */
  function Concentration(sample: Row, metal: string): real {
    Coerce(Get(sample, metal))
  }

  /** A missing, non-numeric or boolean cell counts as concentration 0,
      never as an error; a number is taken as it is. */
  lemma ConcentrationDefaults(sample: Row, metal: string)
    ensures (forall j | 0 <= j < |sample| :: sample[j].0 != metal) ==> Concentration(sample, metal) == 0.0
    ensures Get(sample, metal).Str? && ParseFloat(Get(sample, metal).s).None? ==> Concentration(sample, metal) == 0.0
    ensures Get(sample, metal).Bool? ==> Concentration(sample, metal) == 0.0
    ensures Get(sample, metal).Num? ==> Concentration(sample, metal) == Get(sample, metal).x
  {
    if forall j | 0 <= j < |sample| :: sample[j].0 != metal {
      GetMissing(sample, metal);
    }
  }

  /** What one metal contributes to the indices: its concentration `c` and its standard `s`. */
  datatype Reading = Reading(c: real, s: real)

  /** The readings of the metals of a sample, in the order of the metal list. */
  function Readings(sample: Row, metals: seq<string>): (rs: seq<Reading>)
    ensures |rs| == |metals|
    ensures forall i | 0 <= i < |rs| :: rs[i].s > 0.0
  {
    seq(|metals|, i requires 0 <= i < |metals| => Reading(Concentration(sample, metals[i]), Standard(metals[i])))
  }

  /** HPI weight: the inverse of the standard. */
  function Weight(r: Reading): real
    requires r.s > 0.0
  {
    1.0 / r.s
  }

  /** HPI sub-index: the concentration as a percentage of the standard. */
  function SubIndex(r: Reading): real
    requires r.s > 0.0
  {
    (r.c / r.s) * 100.0
  }

  /** Contamination factor: the concentration over the standard. */
  function Ratio(r: Reading): real
    requires r.s > 0.0
  {
    r.c / r.s
  }

  predicate Positive(rs: seq<Reading>) {
    forall i | 0 <= i < |rs| :: rs[i].s > 0.0
  }

  /** Σw over the readings. */
  function SumWeights(rs: seq<Reading>): real
    requires Positive(rs)
  {
    if rs == [] then 0.0 else SumWeights(rs[..|rs| - 1]) + Weight(rs[|rs| - 1])
  }

  /** Σ(w·q) over the readings. */
  function SumWeighted(rs: seq<Reading>): real
    requires Positive(rs)
  {
    if rs == [] then 0.0
    else SumWeighted(rs[..|rs| - 1]) + Weight(rs[|rs| - 1]) * SubIndex(rs[|rs| - 1])
  }

  /** Σ(c/s) over the readings. */
  function SumRatios(rs: seq<Reading>): real
    requires Positive(rs)
  {
    if rs == [] then 0.0 else SumRatios(rs[..|rs| - 1]) + Ratio(rs[|rs| - 1])
  }

  /** Σ(w·q) / Σw, or 0 when the weight sum is not positive. */
  function WeightedMean(rs: seq<Reading>): real
    requires Positive(rs)
  {
    var w := SumWeights(rs);
    if w > 0.0 then SumWeighted(rs) / w else 0.0
  }

  /** The HPI of a sample over a metal list; 0 when there are no metals. */
  function Hpi(sample: Row, metals: seq<string>): (r: real)
    ensures metals == [] ==> r == 0.0
  {
    WeightedMean(Readings(sample, metals))
  }

  /** The HEI of a sample over a metal list; the Contamination Degree is the
      same sum. It is 0 when there are no metals. */
  function Hei(sample: Row, metals: seq<string>): (r: real)
    ensures metals == [] ==> r == 0.0
  {
    SumRatios(Readings(sample, metals))
  }

  /** The sub-index of one metal of a sample. */
  function MetalSubIndex(sample: Row, metal: string): real {
    SubIndex(Reading(Concentration(sample, metal), Standard(metal)))
  }

  /** Extending a prefix of the readings by one reading adds that reading's term to each sum. */
  lemma PrefixStep(rs: seq<Reading>, i: nat)
    requires Positive(rs) && i < |rs|
    ensures SumWeights(rs[..i + 1]) == SumWeights(rs[..i]) + Weight(rs[i])
    ensures SumWeighted(rs[..i + 1]) == SumWeighted(rs[..i]) + Weight(rs[i]) * SubIndex(rs[i])
    ensures SumRatios(rs[..i + 1]) == SumRatios(rs[..i]) + Ratio(rs[i])
  {
    assert rs[..i + 1][..i] == rs[..i];
  }

  /** Substitutes equals for equals in `a + x * y`; calling it keeps the
      product terms out of the solver's search in `CalculateHpi`'s loop. */
  lemma AddProduct(a: real, x: real, y: real, a': real, x': real, y': real)
    requires a == a' && x == x' && y == y'
    ensures a + x * y == a' + x' * y'
  {
  }

  /** `calculateHPI`: accumulates the weighted sum and the total weight in one
      pass over the metals, then divides; 0 for an empty metal list. */
  method CalculateHpi(sample: Row, metals: seq<string>) returns (hpi: real)
    ensures hpi == Hpi(sample, metals)
    ensures metals == [] ==> hpi == 0.0
  {
    ghost var rs := Readings(sample, metals);
    var weightedSum := 0.0;
    var totalWeight := 0.0;
    for i := 0 to |metals|
      invariant weightedSum == SumWeighted(rs[..i])
      invariant totalWeight == SumWeights(rs[..i])
    {
      var metal := metals[i];
      var concentration := Coerce(Get(sample, metal));
      var standard := Standard(metal);
      var weight := 1.0 / standard;
      var subIndex := (concentration / standard) * 100.0;
      assert rs[i] == Reading(concentration, standard);
      PrefixStep(rs, i);
      AddProduct(weightedSum, weight, subIndex, SumWeighted(rs[..i]), Weight(rs[i]), SubIndex(rs[i]));
      weightedSum := weightedSum + weight * subIndex;
      totalWeight := totalWeight + weight;
    }
    assert rs[..|metals|] == rs;
    hpi := if totalWeight > 0.0 then weightedSum / totalWeight else 0.0;
  }

  /** `calculateHEI`: the sum of concentration/standard over the metals. */
  method CalculateHei(sample: Row, metals: seq<string>) returns (sum: real)
    ensures sum == Hei(sample, metals)
    ensures metals == [] ==> sum == 0.0
  {
    ghost var rs := Readings(sample, metals);
    sum := 0.0;
    for i := 0 to |metals|
      invariant sum == SumRatios(rs[..i])
    {
      var metal := metals[i];
      var concentration := Coerce(Get(sample, metal));
      var standard := Standard(metal);
      assert rs[i] == Reading(concentration, standard);
      PrefixStep(rs, i);
      sum := sum + concentration / standard;
    }
    assert rs[..|metals|] == rs;
  }

  /** `calculateCd`: the sum of the contamination factors over the metals,
      the very value `calculateHEI` returns for the same arguments. */
  method CalculateCd(sample: Row, metals: seq<string>) returns (sum: real)
    ensures sum == Hei(sample, metals)
    ensures metals == [] ==> sum == 0.0
  {
    ghost var rs := Readings(sample, metals);
    sum := 0.0;
    for i := 0 to |metals|
      invariant sum == SumRatios(rs[..i])
    {
      var metal := metals[i];
      var concentration := Coerce(Get(sample, metal));
      var standard := Standard(metal);
      var cf := concentration / standard;
      assert rs[i] == Reading(concentration, standard);
      PrefixStep(rs, i);
      sum := sum + cf;
    }
    assert rs[..|metals|] == rs;
  }

  /** A non-empty list of readings has a positive weight sum, so its HPI is
      the weighted mean itself and never the zero fallback. */
  lemma {:induction false} SumWeightsPositive(rs: seq<Reading>)
    requires Positive(rs)
    ensures rs == [] ==> SumWeights(rs) == 0.0
    ensures rs != [] ==> SumWeights(rs) > 0.0
  {
    if rs != [] {
      SumWeightsPositive(rs[..|rs| - 1]);
    }
  }

  lemma StepLower(lo: real, w0: real, s0: real, w: real, q: real, w1: real, s1: real)
    requires lo * w0 <= s0 && w > 0.0 && lo <= q
    requires w1 == w0 + w && s1 == s0 + w * q
    ensures lo * w1 <= s1
  {
    assert w * (q - lo) >= 0.0;
    assert lo * w1 == lo * w0 + lo * w;
  }

  lemma StepUpper(hi: real, w0: real, s0: real, w: real, q: real, w1: real, s1: real)
    requires s0 <= hi * w0 && w > 0.0 && q <= hi
    requires w1 == w0 + w && s1 == s0 + w * q
    ensures s1 <= hi * w1
  {
    assert w * (hi - q) >= 0.0;
    assert hi * w1 == hi * w0 + hi * w;
  }

  lemma {:induction false} SumWeightedLower(rs: seq<Reading>, lo: real)
    requires Positive(rs)
    requires forall i | 0 <= i < |rs| :: lo <= SubIndex(rs[i])
    ensures lo * SumWeights(rs) <= SumWeighted(rs)
  {
    if rs != [] {
      var n := |rs| - 1;
      SumWeightedLower(rs[..n], lo);
      StepLower(lo, SumWeights(rs[..n]), SumWeighted(rs[..n]), Weight(rs[n]), SubIndex(rs[n]),
        SumWeights(rs), SumWeighted(rs));
    }
  }

  lemma {:induction false} SumWeightedUpper(rs: seq<Reading>, hi: real)
    requires Positive(rs)
    requires forall i | 0 <= i < |rs| :: SubIndex(rs[i]) <= hi
    ensures SumWeighted(rs) <= hi * SumWeights(rs)
  {
    if rs != [] {
      var n := |rs| - 1;
      SumWeightedUpper(rs[..n], hi);
      StepUpper(hi, SumWeights(rs[..n]), SumWeighted(rs[..n]), Weight(rs[n]), SubIndex(rs[n]),
        SumWeights(rs), SumWeighted(rs));
    }
  }

  lemma DivideBounds(lo: real, hi: real, w: real, s: real)
    requires w > 0.0 && lo * w <= s <= hi * w
    ensures lo <= s / w <= hi
  {
    var d := s / w;
    assert d * w == s;
    assert (d - lo) * w == s - lo * w;
    assert (hi - d) * w == hi * w - s;
  }

  /** A weighted mean lies within any bounds of the values it averages. */
  lemma WeightedMeanBetween(rs: seq<Reading>, lo: real, hi: real)
    requires Positive(rs) && rs != []
    requires forall i | 0 <= i < |rs| :: lo <= SubIndex(rs[i]) <= hi
    ensures lo <= WeightedMean(rs) <= hi
  {
    SumWeightsPositive(rs);
    SumWeightedLower(rs, lo);
    SumWeightedUpper(rs, hi);
    DivideBounds(lo, hi, SumWeights(rs), SumWeighted(rs));
  }

  /** HPI is a weighted mean of the sub-indices: when every metal's sub-index
      lies in [lo, hi], so does the HPI. */
  lemma HpiBetweenSubIndices(sample: Row, metals: seq<string>, lo: real, hi: real)
    requires metals != []
    requires forall m | m in metals :: lo <= MetalSubIndex(sample, m) <= hi
    ensures lo <= Hpi(sample, metals) <= hi
  {
    var rs := Readings(sample, metals);
    forall i | 0 <= i < |rs| ensures lo <= SubIndex(rs[i]) <= hi {
      assert MetalSubIndex(sample, metals[i]) == SubIndex(rs[i]);
    }
    WeightedMeanBetween(rs, lo, hi);
  }

  /** The smallest sub-index of a non-empty metal list, with a position holding it. */
  function MinSubIndex(sample: Row, metals: seq<string>): (r: (real, nat))
    requires metals != []
    ensures r.1 < |metals| && r.0 == MetalSubIndex(sample, metals[r.1])
    ensures forall m | m in metals :: r.0 <= MetalSubIndex(sample, m)
  {
    if |metals| == 1 then (MetalSubIndex(sample, metals[0]), 0)
    else
      var rest := MinSubIndex(sample, metals[1..]);
      assert forall m | m in metals :: m == metals[0] || m in metals[1..];
      if MetalSubIndex(sample, metals[0]) <= rest.0 then (MetalSubIndex(sample, metals[0]), 0)
      else (rest.0, rest.1 + 1)
  }

  /** The largest sub-index of a non-empty metal list, with a position holding it. */
  function MaxSubIndex(sample: Row, metals: seq<string>): (r: (real, nat))
    requires metals != []
    ensures r.1 < |metals| && r.0 == MetalSubIndex(sample, metals[r.1])
    ensures forall m | m in metals :: MetalSubIndex(sample, m) <= r.0
  {
    if |metals| == 1 then (MetalSubIndex(sample, metals[0]), 0)
    else
      var rest := MaxSubIndex(sample, metals[1..]);
      assert forall m | m in metals :: m == metals[0] || m in metals[1..];
      if rest.0 <= MetalSubIndex(sample, metals[0]) then (MetalSubIndex(sample, metals[0]), 0)
      else (rest.0, rest.1 + 1)
  }

  /** HPI lies between the smallest and the largest sub-index of the metals. */
  lemma HpiBetweenMinMax(sample: Row, metals: seq<string>)
    requires metals != []
    ensures MinSubIndex(sample, metals).0 <= Hpi(sample, metals) <= MaxSubIndex(sample, metals).0
  {
    HpiBetweenSubIndices(sample, metals, MinSubIndex(sample, metals).0, MaxSubIndex(sample, metals).0);
  }

  lemma {:induction false} SumRatiosNonNegative(rs: seq<Reading>)
    requires Positive(rs)
    requires forall i | 0 <= i < |rs| :: rs[i].c >= 0.0
    ensures SumRatios(rs) >= 0.0
  {
    if rs != [] {
      SumRatiosNonNegative(rs[..|rs| - 1]);
      var r := rs[|rs| - 1];
      assert r.c / r.s >= 0.0;
    }
  }

  /** With no negative concentration, every index is non-negative. */
  lemma IndicesNonNegative(sample: Row, metals: seq<string>)
    requires forall m | m in metals :: Concentration(sample, m) >= 0.0
    ensures Hpi(sample, metals) >= 0.0
    ensures Hei(sample, metals) >= 0.0
  {
    var rs := Readings(sample, metals);
    assert forall i | 0 <= i < |rs| :: rs[i].c == Concentration(sample, metals[i]);
    SumRatiosNonNegative(rs);
    if metals != [] {
      forall i | 0 <= i < |rs| ensures 0.0 <= SubIndex(rs[i]) {
        var r := rs[i];
        assert r.c / r.s >= 0.0;
      }
      SumWeightsPositive(rs);
      SumWeightedLower(rs, 0.0);
      DivideBounds(0.0, SumWeighted(rs) / SumWeights(rs), SumWeights(rs), SumWeighted(rs));
    }
  }

  /** Readings of a list grown by one metal. */
  lemma ReadingsSnoc(sample: Row, metals: seq<string>, metal: string)
    ensures Readings(sample, metals + [metal])[..|metals|] == Readings(sample, metals)
    ensures Readings(sample, metals + [metal])[|metals|] == Reading(Concentration(sample, metal), Standard(metal))
  {
  }

  /** A metal the sample does not have adds nothing to HEI/Cd or to the
      weighted sum; it still adds its weight, so it pulls HPI towards 0. */
  lemma MissingMetalAddsNothing(sample: Row, metals: seq<string>, metal: string)
    requires forall j | 0 <= j < |sample| :: sample[j].0 != metal
    ensures Hei(sample, metals + [metal]) == Hei(sample, metals)
    ensures SumWeighted(Readings(sample, metals + [metal])) == SumWeighted(Readings(sample, metals))
    ensures SumWeights(Readings(sample, metals + [metal])) == SumWeights(Readings(sample, metals)) + 1.0 / Standard(metal)
  {
    GetMissing(sample, metal);
    ReadingsSnoc(sample, metals, metal);
  }

  lemma {:induction false} UniformSums(rs: seq<Reading>, s: real)
    requires s > 0.0 && Positive(rs)
    requires forall i | 0 <= i < |rs| :: rs[i].s == s
    ensures SumWeights(rs) == |rs| as real / s
    ensures SumWeighted(rs) == 100.0 / s * SumRatios(rs)
  {
    if rs != [] {
      var n := |rs| - 1;
      UniformSums(rs[..n], s);
      var r := rs[n];
      assert Weight(r) * SubIndex(r) == 100.0 / s * Ratio(r) by {
        assert Weight(r) == 1.0 / s;
        assert SubIndex(r) == (r.c / s) * 100.0;
      }
      assert |rs[..n]| as real / s + 1.0 / s == |rs| as real / s;
      assert 100.0 / s * SumRatios(rs[..n]) + 100.0 / s * Ratio(r) == 100.0 / s * SumRatios(rs);
    }
  }

  lemma UniformMean(r: real, n: real, s: real)
    requires n > 0.0 && s > 0.0
    ensures (100.0 / s * r) / (n / s) == 100.0 * r / n
  {
    var q := 100.0 * r / n;
    assert q * n == 100.0 * r;
    assert q * (n / s) == 100.0 / s * r;
  }

  /** Readings sharing one standard have mean sub-index 100 · Σ(c/s) / n. */
  lemma WeightedMeanUniform(rs: seq<Reading>, s: real)
    requires rs != [] && s > 0.0 && Positive(rs)
    requires forall i | 0 <= i < |rs| :: rs[i].s == s
    ensures WeightedMean(rs) == 100.0 * SumRatios(rs) / |rs| as real
  {
    UniformSums(rs, s);
    SumWeightsPositive(rs);
    UniformMean(SumRatios(rs), |rs| as real, s);
  }

  /** When all metals share one standard (for instance when none is in the
      table, so every standard is the fallback 1), HPI is 100 times the mean
      contamination factor: HPI = 100 · HEI / n. */
  lemma HpiUniformStandard(sample: Row, metals: seq<string>, s: real)
    requires metals != [] && s > 0.0
    requires forall m | m in metals :: Standard(m) == s
    ensures Hpi(sample, metals) == 100.0 * Hei(sample, metals) / |metals| as real
  {
    var rs := Readings(sample, metals);
    forall i | 0 <= i < |rs| ensures rs[i].s == s {
      assert metals[i] in metals;
    }
    WeightedMeanUniform(rs, s);
  }

  /** The readings of the worked example: both metals have standard 0.01. */
  lemma WorkedReadings()
    ensures Readings([("id", Str("S1")), ("As", Num(0.02)), ("Pb", Num(0.01))], ["As", "Pb"])
         == [Reading(0.02, 0.01), Reading(0.01, 0.01)]
  {
    var row: Row := [("id", Str("S1")), ("As", Num(0.02)), ("Pb", Num(0.01))];
    assert Get(row, "As") == Num(0.02);
    assert Get(row, "Pb") == Num(0.01);
    StandardListed("As", 0);
    StandardListed("Pb", 5);
  }

  /** The sums of the worked example. */
  lemma WorkedSums(rs: seq<Reading>)
    requires rs == [Reading(0.02, 0.01), Reading(0.01, 0.01)]
    ensures SumWeights(rs) == 200.0 && SumWeighted(rs) == 30000.0 && SumRatios(rs) == 3.0
  {
    var first := [Reading(0.02, 0.01)];
    assert rs[..1] == first && first[..0] == [];
    assert SumWeights(first) == 100.0 && SumWeighted(first) == 20000.0 && SumRatios(first) == 2.0;
  }

  /** A sample S1 with As = 0.02 and Pb = 0.01 (both standards 0.01) has
      sub-indices 200 and 100, equal weights, HPI 150 and HEI = Cd = 3. */
  lemma WorkedExample()
    ensures Hpi([("id", Str("S1")), ("As", Num(0.02)), ("Pb", Num(0.01))], ["As", "Pb"]) == 150.0
    ensures Hei([("id", Str("S1")), ("As", Num(0.02)), ("Pb", Num(0.01))], ["As", "Pb"]) == 3.0
  {
    WorkedReadings();
    WorkedSums(Readings([("id", Str("S1")), ("As", Num(0.02)), ("Pb", Num(0.01))], ["As", "Pb"]));
  }
}
