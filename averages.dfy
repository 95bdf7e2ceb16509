/**
 * The averaging statistics of the circuit library: the sentinel-aware mean, the
 * mean-imputed variance and covariance, the harmonic mean with its zero patch and
 * the least-squares line.  The mean, the variances and the harmonic mean are proved
 * equal to the plain statistic on the column with its sentinels removed; the
 * covariance only on columns without sentinels, and the line on exact data.
 *
 * Values are real numbers: the fixed-point rounding of the arithmetic substrate is
 * not modelled.  A division whose divisor is zero yields None, standing for the
 * unspecified value the substrate produces without faulting.
 */
module Averages {
  import opened Sentinel

  // ---------------------------------------------------------------------------
  // Plain statistics on a list without sentinels (the reference definitions)
  // ---------------------------------------------------------------------------

  /** Arithmetic mean; undefined for an empty list. */
  function PlainMean(xs: seq<real>): Option<real>
  {
    if xs == [] then None else Some(Sum(xs) / |xs| as real)
  }

  /** x ** 2 */
  function Sq(x: real): real
  {
    x * x
  }

  /** Σ (x - m)^2 */
  function SumSqDev(xs: seq<real>, m: real): real
  {
    if xs == [] then 0.0 else SumSqDev(Init(xs), m) + Sq(Last(xs) - m)
  }

  /** Σ (x - mx)(y - my) over the pairs of two lists of equal length. */
  function CrossDev(xs: seq<real>, ys: seq<real>, mx: real, my: real): real
    requires |xs| == |ys|
  {
    if xs == [] then 0.0
    else CrossDev(Init(xs), Init(ys), mx, my) + Mul(Last(xs) - mx, Last(ys) - my)
  }

  /** Sample variance (divisor n - 1); undefined below two points. */
  function SampleVariance(xs: seq<real>): Option<real>
  {
    if |xs| < 2 then None
    else Some(SumSqDev(xs, Sum(xs) / |xs| as real) / (|xs| as real - 1.0))
  }

  /** Population variance (divisor n); undefined for an empty list. */
  function PopulationVariance(xs: seq<real>): Option<real>
  {
    if xs == [] then None
    else Some(SumSqDev(xs, Sum(xs) / |xs| as real) / |xs| as real)
  }

  /** Sample covariance of two lists of equal length; undefined below two points. */
  function PlainCovariance(xs: seq<real>, ys: seq<real>): Option<real>
    requires |xs| == |ys|
  {
    if |xs| < 2 then None
    else Some(CrossDev(xs, ys, Sum(xs) / |xs| as real, Sum(ys) / |ys| as real) / (|xs| as real - 1.0))
  }

  predicate NoZero(xs: seq<real>)
  {
    forall i :: 0 <= i < |xs| ==> xs[i] != 0.0
  }

  /** 1/x */
  function Inv(x: real): real
    requires x != 0.0
  {
    1.0 / x
  }

  /** Σ 1/x over a list without zeros. */
  function SumReciprocals(xs: seq<real>): real
    requires NoZero(xs)
  {
    if xs == [] then 0.0 else SumReciprocals(Init(xs)) + Inv(Last(xs))
  }

  /** Harmonic mean, defined as zero when the list holds a zero. */
  function PlainHarmonicMean(xs: seq<real>): Option<real>
  {
    if !NoZero(xs) then Some(0.0)
    else
      var t := SumReciprocals(xs);
      Divide(|xs| as real, t)
  }

  // ---------------------------------------------------------------------------
  // The circuit's statistics
  // ---------------------------------------------------------------------------

  /** `_mean`: (Σ genuine entries) / (number of genuine entries), and that number. */
  function MeanAndCount(data: seq<real>): (r: (Option<real>, nat))
    ensures r.0 == PlainMean(Genuine(data))
    ensures r.1 == |Genuine(data)|
  {
    (if Count(data) == 0 then None else Some(Total(data) / Count(data) as real), Count(data))
  }

  /** `mean`: the first component of `_mean`. */
  function Mean(data: seq<real>): (m: Option<real>)
    ensures m == PlainMean(Genuine(data))
  {
    MeanAndCount(data).0
  }

  /** A sentinel entry inserted anywhere changes neither the mean nor the count. */
  lemma {:induction false} MeanIgnoresSentinels(a: seq<real>, b: seq<real>)
    ensures MeanAndCount(a + [SENTINEL] + b) == MeanAndCount(a + b)
  {
    SentinelInsertion(a, b);
  }

  /** The column with every sentinel replaced by `m` (the imputation step). */
  function Impute(data: seq<real>, m: real): (r: seq<real>)
    ensures |r| == |data|
    ensures forall i :: 0 <= i < |data| ==> r[i] == if data[i] != SENTINEL then data[i] else m
  {
    seq(|data|, i requires 0 <= i < |data| => if data[i] != SENTINEL then data[i] else m)
  }

  lemma {:induction false} GenuineSnoc(s: seq<real>, x: real)
    ensures Genuine(s + [x]) == if x != SENTINEL then Genuine(s) + [x] else Genuine(s)
  {
    InitOfAppend(s, x);
  }

  /** Extending a prefix by one entry extends its genuine entries by that entry
      unless it is the sentinel. */
  lemma {:induction false} GenuinePrefixStep(data: seq<real>, i: nat)
    requires i < |data|
    ensures Genuine(data[..i + 1])
         == if data[i] != SENTINEL then Genuine(data[..i]) + [data[i]] else Genuine(data[..i])
  {
    assert data[..i + 1] == data[..i] + [data[i]];
    GenuineSnoc(data[..i], data[i]);
  }

  lemma {:induction false} SumSqDevSnoc(xs: seq<real>, x: real, m: real)
    ensures SumSqDev(xs + [x], m) == SumSqDev(xs, m) + Sq(x - m)
  {
    InitOfAppend(xs, x);
  }

  /** One step of the variance loop: an imputed entry adds (m - m)^2 = 0. */
  lemma {:induction false} SumSqDevStep(data: seq<real>, i: nat, m: real, imputed: real)
    requires i < |data| && imputed == if data[i] != SENTINEL then data[i] else m
    ensures SumSqDev(Genuine(data[..i + 1]), m) == SumSqDev(Genuine(data[..i]), m) + Sq(imputed - m)
  {
    if data[i] != SENTINEL {
      GenuineStep(data, i, m);
    } else {
      SentinelStep(data, i, m);
    }
  }

  lemma {:induction false} GenuineStep(data: seq<real>, i: nat, m: real)
    requires i < |data| && data[i] != SENTINEL
    ensures SumSqDev(Genuine(data[..i + 1]), m) == SumSqDev(Genuine(data[..i]), m) + Sq(data[i] - m)
  {
    var g, x := Genuine(data[..i]), data[i];
    assert Genuine(data[..i + 1]) == g + [x] by {
      GenuinePrefixStep(data, i);
    }
    SumSqDevSnoc(g, x, m);
  }

  lemma {:induction false} SentinelStep(data: seq<real>, i: nat, m: real)
    requires i < |data| && data[i] == SENTINEL
    ensures SumSqDev(Genuine(data[..i + 1]), m) == SumSqDev(Genuine(data[..i]), m) + Sq(m - m)
  {
    GenuinePrefixStep(data, i);
    ImputedAddsNothing(SumSqDev(Genuine(data[..i]), m), m);
  }

  lemma ImputedAddsNothing(s: real, m: real)
    ensures s + Sq(m - m) == s
  {
  }

  /** What the circuit's variance is, in terms of the plain statistics: the sample or
      population variance of the genuine entries.  With no genuine entry at all every
      entry is imputed by the (unspecified) mean, the centred sum is exactly 0, and the
      Bessel divisor is -1, so the sample variance is 0. */
  function VarianceSpec(data: seq<real>, useBessels: bool): Option<real>
  {
    if Count(data) == 0 then (if useBessels then Some(0.0) else None)
    else if useBessels then SampleVariance(Genuine(data))
    else PopulationVariance(Genuine(data))
  }

  /** Dividing the centred sum of the genuine entries by count - 1 or count, as the
      circuit does, gives the variance the specification names; the centre is the
      mean when there is one, and any value otherwise. */
  lemma {:induction false} VarianceFromCentredSum(data: seq<real>, useBessels: bool, m: real)
    requires MeanAndCount(data).0.Some? ==> m == MeanAndCount(data).0.value
    ensures VarianceSpec(data, useBessels)
         == var divisor := MeanAndCount(data).1 - if useBessels then 1 else 0;
            Divide(SumSqDev(Genuine(data), m), divisor as real)
  {
    var g := Genuine(data);
    if g != [] {
      assert m == Sum(g) / |g| as real;
      if useBessels {
        SampleVarianceAround(g, m);
      } else {
        PopulationVarianceAround(g, m);
      }
    }
  }

  lemma {:induction false} SampleVarianceAround(g: seq<real>, m: real)
    requires g != [] && m == Sum(g) / |g| as real
    ensures SampleVariance(g) == Divide(SumSqDev(g, m), |g| as real - 1.0)
  {
  }

  lemma {:induction false} PopulationVarianceAround(g: seq<real>, m: real)
    requires g != [] && m == Sum(g) / |g| as real
    ensures PopulationVariance(g) == Divide(SumSqDev(g, m), |g| as real)
  {
  }

  /** The accumulation loop of `_variance`: replace every sentinel by `mean`, then add
      up (x - mean)^2 over the whole column.  The imputed entries add nothing, so the
      sum is the centred sum of squares of the genuine entries alone. */
  method CentredSumOfSquares(data: seq<real>, mean: real) returns (effDataSum: real)
    ensures effDataSum == SumSqDev(Genuine(data), mean)
  {
    var imputed := Impute(data, mean);
    effDataSum := 0.0;
    for i := 0 to |imputed|
      invariant effDataSum == SumSqDev(Genuine(data[..i]), mean)
    {
      SumSqDevStep(data, i, mean, imputed[i]);
      effDataSum := effDataSum + Sq(imputed[i] - mean);
    }
    assert data[..|data|] == data;
  }

  /** `_variance`: the mean-imputed centred sum of squares divided by count - 1
      (Bessel's correction) or by count. */
  method VarianceOf(data: seq<real>, useBessels: bool) returns (v: Option<real>)
    ensures v == VarianceSpec(data, useBessels)
  {
    var meanCount := MeanAndCount(data);
    var mean := meanCount.0;
    var effSize: int := meanCount.1;
    // Without genuine entries every entry is replaced by the mean and contributes
    // (m - m)^2 = 0, so the value taken for an undefined mean is immaterial.
    var m := if mean.Some? then mean.value else 0.0;
    var effDataSum := CentredSumOfSquares(data, m);
    if useBessels {
      effSize := effSize - 1;
    }
    v := Divide(effDataSum, effSize as real);
    VarianceFromCentredSum(data, useBessels, m);
  }

  /** `variance`: `_variance` with Bessel's correction. */
  method Variance(data: seq<real>) returns (v: Option<real>)
    ensures Count(data) > 0 ==> v == SampleVariance(Genuine(data))
    ensures Count(data) == 0 ==> v == Some(0.0)
    ensures v == VarianceSpec(data, true)
  {
    v := VarianceOf(data, true);
  }

  /** `pvariance`: `_variance` without Bessel's correction. */
  method PVariance(data: seq<real>) returns (v: Option<real>)
    ensures v == PopulationVariance(Genuine(data))
  {
    v := VarianceOf(data, false);
  }

  /** A sentinel inserted anywhere does not change either variance. */
  lemma {:induction false} VarianceIgnoresSentinels(a: seq<real>, b: seq<real>, useBessels: bool)
    ensures VarianceSpec(a + [SENTINEL] + b, useBessels) == VarianceSpec(a + b, useBessels)
  {
    SentinelInsertion(a, b);
  }

  /** Σ (a - ma)(b - mb) over the positions where both columns hold a genuine entry. */
  function CrossSum(a: seq<real>, b: seq<real>, ma: real, mb: real): real
    requires |a| == |b|
  {
    if a == [] then 0.0
    else
      CrossSum(Init(a), Init(b), ma, mb)
      + (if Last(a) != SENTINEL && Last(b) != SENTINEL then Mul(Last(a) - ma, Last(b) - mb) else 0.0)
  }

  lemma {:induction false} CrossSumSnoc(a: seq<real>, b: seq<real>, x: real, y: real, ma: real, mb: real)
    requires |a| == |b|
    ensures CrossSum(a + [x], b + [y], ma, mb)
         == CrossSum(a, b, ma, mb) + if x != SENTINEL && y != SENTINEL then Mul(x - ma, y - mb) else 0.0
  {
    InitOfAppend(a, x);
    InitOfAppend(b, y);
  }

  lemma {:induction false} CountZeroIsAllSentinel(d: seq<real>)
    ensures Count(d) == 0 <==> forall i :: 0 <= i < |d| ==> d[i] == SENTINEL
  {
    if d != [] {
      CountZeroIsAllSentinel(Init(d));
      assert forall i :: 0 <= i < |d| - 1 ==> d[i] == Init(d)[i];
    }
  }

  /** Without a position where both entries are genuine the cross sum is empty. */
  lemma {:induction false} CrossSumWithoutPairs(a: seq<real>, b: seq<real>, ma: real, mb: real)
    requires |a| == |b|
    requires (forall i :: 0 <= i < |a| ==> a[i] == SENTINEL) || (forall i :: 0 <= i < |b| ==> b[i] == SENTINEL)
    ensures CrossSum(a, b, ma, mb) == 0.0
  {
    if a != [] {
      assert forall i :: 0 <= i < |a| - 1 ==> Init(a)[i] == a[i] && Init(b)[i] == b[i];
      CrossSumWithoutPairs(Init(a), Init(b), ma, mb);
    }
  }

  /** What the circuit's covariance is: the cross deviations over the positions where
      both columns are genuine, divided by count(data1) - 1.  A column without genuine
      entries is imputed entirely by its own mean and contributes 0. */
  function CovarianceSpec(data1: seq<real>, data2: seq<real>): Option<real>
    requires |data1| <= |data2|
  {
    var m1, m2 := Mean(data1), Mean(data2);
    var cross :=
      if m1.None? || m2.None? then 0.0
      else CrossSum(data1, data2[..|data1|], m1.value, m2.value);
    Divide(cross, Count(data1) as real - 1.0)
  }

  /** One step of the covariance loop: a position where either entry was imputed adds
      a product with a zero factor. */
  lemma {:induction false} CrossSumStep(a: seq<real>, b: seq<real>, i: nat, ma: real, mb: real)
    requires i < |a| <= |b|
    ensures CrossSum(a[..i + 1], b[..i + 1], ma, mb)
         == CrossSum(a[..i], b[..i], ma, mb) + Mul(Impute(a, ma)[i] - ma, Impute(b, mb)[i] - mb)
  {
    assert a[..i + 1] == a[..i] + [a[i]];
    assert b[..i + 1] == b[..i] + [b[i]];
    CrossSumSnoc(a[..i], b[..i], a[i], b[i], ma, mb);
    if a[i] == SENTINEL {
      assert Impute(a, ma)[i] - ma == 0.0;
    } else if b[i] == SENTINEL {
      assert Impute(b, mb)[i] - mb == 0.0;
    } else {
      assert Impute(a, ma)[i] == a[i] && Impute(b, mb)[i] == b[i];
    }
  }

  /** The accumulation loop of `covariance`: replace the sentinels of each column by
      its mean, then add up the products of the deviations over the first column's
      length.  The imputed positions add nothing. */
  method CentredCrossSum(data1: seq<real>, data2: seq<real>, mean1: real, mean2: real) returns (x: real)
    requires |data1| <= |data2|
    ensures x == CrossSum(data1, data2[..|data1|], mean1, mean2)
  {
    var n := |data1|;
    var imputed1, imputed2 := Impute(data1, mean1), Impute(data2, mean2);
    x := 0.0;
    for i := 0 to n
      invariant x == CrossSum(data1[..i], data2[..i], mean1, mean2)
    {
      CrossSumStep(data1, data2, i, mean1, mean2);
      x := x + Mul(imputed1[i] - mean1, imputed2[i] - mean2);
    }
    assert data1[..n] == data1;
  }

  /** `covariance`: the mean-imputed cross sum divided by count(data1) - 1. */
  method Covariance(data1: seq<real>, data2: seq<real>) returns (c: Option<real>)
    requires |data1| <= |data2|
    ensures c == CovarianceSpec(data1, data2)
  {
    var mc1, mc2 := MeanAndCount(data1), MeanAndCount(data2);
    var count := mc1.1;
    // An undefined mean replaces every entry of its column: each product then has a
    // zero factor, so the value taken for it is immaterial.
    var mean1 := if mc1.0.Some? then mc1.0.value else 0.0;
    var mean2 := if mc2.0.Some? then mc2.0.value else 0.0;
    var x := CentredCrossSum(data1, data2, mean1, mean2);
    c := Divide(x, count as real - 1.0);
    CovarianceFromCrossSum(data1, data2, mean1, mean2);
  }

  /** Dividing the cross sum by count(data1) - 1, as the circuit does, gives the
      covariance the specification names; a column without a mean contributes 0
      whatever centre is taken for it. */
  lemma {:induction false} CovarianceFromCrossSum(data1: seq<real>, data2: seq<real>, mean1: real, mean2: real)
    requires |data1| <= |data2|
    requires MeanAndCount(data1).0.Some? ==> mean1 == MeanAndCount(data1).0.value
    requires MeanAndCount(data2).0.Some? ==> mean2 == MeanAndCount(data2).0.value
    ensures CovarianceSpec(data1, data2)
         == Divide(CrossSum(data1, data2[..|data1|], mean1, mean2), MeanAndCount(data1).1 as real - 1.0)
  {
    assert Count(data1) == MeanAndCount(data1).1;
    if Mean(data1).None? || Mean(data2).None? {
      UndefinedMeanIsAllSentinel(data1);
      UndefinedMeanIsAllSentinel(data2);
      CrossSumWithoutPairs(data1, data2[..|data1|], mean1, mean2);
    }
  }

  /** The mean is undefined exactly when every entry is the sentinel. */
  lemma {:induction false} UndefinedMeanIsAllSentinel(d: seq<real>)
    ensures Mean(d).None? <==> forall i :: 0 <= i < |d| ==> d[i] == SENTINEL
  {
    CountZeroIsAllSentinel(d);
  }

  /** Σ if_else(x != MAGIC_NUMBER, 1/x, 0); unspecified (None) once a genuine zero is
      inverted, since the substrate answers 1/0 with an unspecified value. */
  function InverseTotal(data: seq<real>): (r: Option<real>)
    ensures r.None? <==> 0.0 in data
  {
    if data == [] then Some(0.0)
    else
      InitAndLast(data);
      var rest, x := InverseTotal(Init(data)), Last(data);
      if x == SENTINEL then rest
      else if x == 0.0 || rest.None? then None
      else Some(rest.value + Inv(x))
  }

  lemma {:induction false} InverseTotalOfGenuine(data: seq<real>)
    requires NoZero(data)
    ensures NoZero(Genuine(data))
    ensures InverseTotal(data) == Some(SumReciprocals(Genuine(data)))
  {
    assert NoZero(Genuine(data)) by {
      ZeroIsGenuine(data);
    }
    if data != [] {
      var init, x := Init(data), Last(data);
      assert NoZero(init) && x != 0.0 by {
        forall i | 0 <= i < |init| ensures init[i] != 0.0 {
          assert init[i] == data[i];
        }
      }
      InverseTotalOfGenuine(init);
      var g := Genuine(init);
      assert Genuine(data) == if x != SENTINEL then g + [x] else g by {
        InitAndLast(data);
        GenuineSnoc(init, x);
      }
      if x != SENTINEL {
        InverseTotalSnoc(g, x);
      }
    }
  }

  lemma {:induction false} InverseTotalSnoc(g: seq<real>, x: real)
    requires NoZero(g + [x])
    ensures NoZero(g) && x != 0.0
    ensures SumReciprocals(g + [x]) == SumReciprocals(g) + Inv(x)
  {
    assert (g + [x])[|g|] == x;
    assert forall i :: 0 <= i < |g| ==> g[i] == (g + [x])[i];
    InitOfAppend(g, x);
  }

  /** A zero is genuine (it is not the sentinel), so the column holds one exactly when
      its genuine entries do. */
  lemma {:induction false} ZeroIsGenuine(data: seq<real>)
    ensures NoZero(data) <==> NoZero(Genuine(data))
  {
    var g := Genuine(data);
    GenuineEntries(data);
    assert multiset(g)[0.0] == multiset(data)[0.0];
    assert NoZero(data) <==> 0.0 !in multiset(data);
    assert NoZero(g) <==> 0.0 !in multiset(g);
  }

  /** `harmonic_mean`: effective size over the sum of genuine reciprocals, then
      multiplied by (number of zeros == 0), so that any zero entry gives 0. */
  method HarmonicMean(data: seq<real>) returns (h: Option<real>)
    ensures !NoZero(data) ==> h == Some(0.0)
    ensures h == PlainHarmonicMean(Genuine(data))
  {
    var effSize := Count(data);
    var effInvTotal := InverseTotal(data);
    var result := if effInvTotal.Some? then Divide(effSize as real, effInvTotal.value) else None;
    var numZeros := 0;
    for i := 0 to |data|
      invariant numZeros == multiset(data[..i])[0.0]
    {
      assert data[..i + 1] == data[..i] + [data[i]];
      numZeros := numZeros + if data[i] == 0.0 then 1 else 0;
    }
    assert data[..|data|] == data;
    // A zero factor clears the quotient even where it is unspecified.
    h := if numZeros == 0 then result else Some(0.0);
    ZeroIsGenuine(data);
    if numZeros == 0 {
      assert NoZero(data) by {
        forall i | 0 <= i < |data| ensures data[i] != 0.0 {
          assert data[i] in multiset(data);
        }
      }
      InverseTotalOfGenuine(data);
    } else {
      assert 0.0 in multiset(data);
    }
  }

  /** The two entries `linear_regression` returns; each may be undefined on its own. */
  datatype Line = Line(slope: Option<real>, intercept: Option<real>)

  /** x * y where a factor may be unspecified: a zero factor still gives exactly 0. */
  function MulOption(x: Option<real>, y: Option<real>): Option<real>
  {
    if x == Some(0.0) || y == Some(0.0) then Some(0.0)
    else if x.Some? && y.Some? then Some(Mul(x.value, y.value))
    else None
  }

  /** What the circuit's least-squares line is: slope = covariance / variance of xs,
      intercept = mean(ys) - slope * mean(xs). */
  function RegressionSpec(xs: seq<real>, ys: seq<real>): Line
    requires |xs| <= |ys|
  {
    var covar, v := CovarianceSpec(xs, ys), VarianceSpec(xs, true);
    var slope := if covar.Some? && v.Some? then Divide(covar.value, v.value) else None;
    var shift := MulOption(slope, Mean(xs));
    var yMean := Mean(ys);
    Line(slope, if yMean.Some? && shift.Some? then Some(yMean.value - shift.value) else None)
  }

  /** `linear_regression`: returns [slope, intercept]. */
  method LinearRegression(xs: seq<real>, ys: seq<real>) returns (res: Line)
    requires |xs| <= |ys|
    ensures res == RegressionSpec(xs, ys)
  {
    var covar := Covariance(xs, ys);
    var v := Variance(xs);
    var xMean, yMean := MeanAndCount(xs).0, MeanAndCount(ys).0;
    var slope := None;
    if covar.Some? && v.Some? {
      slope := Divide(covar.value, v.value);
    }
    var shift := MulOption(slope, xMean);
    var intercept := None;
    if yMean.Some? && shift.Some? {
      intercept := Some(yMean.value - shift.value);
    }
    res := Line(slope, intercept);
  }

  /** With every y missing the slope is still defined: the covariance is 0 (the
      imputed ys sit on their own mean), so the slope is 0 whenever xs has a nonzero
      sample variance; only the intercept is undefined. */
  lemma {:induction false} RegressionWithoutYs(xs: seq<real>, ys: seq<real>)
    requires |xs| <= |ys| && Mean(ys).None?
    requires VarianceSpec(xs, true).Some? && VarianceSpec(xs, true).value != 0.0
    ensures RegressionSpec(xs, ys) == Line(Some(0.0), None)
  {
    assert Count(xs) >= 2;
    var d := Count(xs) as real - 1.0;
    assert d != 0.0 && 0.0 / d == 0.0;
    assert CovarianceSpec(xs, ys) == Divide(0.0, d);
  }

  // ---------------------------------------------------------------------------
  // The circuit's statistics against the plain ones
  // ---------------------------------------------------------------------------

  lemma {:induction false} CrossSumOfClean(a: seq<real>, b: seq<real>, ma: real, mb: real)
    requires |a| == |b| && NoSentinel(a) && NoSentinel(b)
    ensures CrossSum(a, b, ma, mb) == CrossDev(a, b, ma, mb)
  {
    if a != [] {
      assert NoSentinel(Init(a)) && NoSentinel(Init(b)) by {
        assert forall i :: 0 <= i < |a| - 1 ==> Init(a)[i] == a[i] && Init(b)[i] == b[i];
      }
      CrossSumOfClean(Init(a), Init(b), ma, mb);
    }
  }

  /** On a column without sentinels the circuit's mean is the plain mean. */
  lemma {:induction false} MeanOfClean(xs: seq<real>)
    requires NoSentinel(xs)
    ensures Mean(xs) == PlainMean(xs)
  {
    GenuineOfClean(xs);
  }

  /** On a column without sentinels and with at least one entry the circuit's
      variance is the sample variance (and its pvariance the population variance). */
  lemma {:induction false} VarianceOfClean(xs: seq<real>)
    requires NoSentinel(xs) && xs != []
    ensures VarianceSpec(xs, true) == SampleVariance(xs)
    ensures VarianceSpec(xs, false) == PopulationVariance(xs)
  {
    GenuineOfClean(xs);
  }

  /** The circuit's covariance on clean columns of equal length, with the plain means. */
  lemma {:induction false} CovarianceSpecOfClean(xs: seq<real>, ys: seq<real>, mx: real, my: real)
    requires |xs| == |ys| && NoSentinel(xs) && NoSentinel(ys)
    requires Mean(xs) == Some(mx) && Mean(ys) == Some(my)
    ensures CovarianceSpec(xs, ys) == Divide(CrossDev(xs, ys, mx, my), |xs| as real - 1.0)
  {
    CountOfClean(xs);
    CrossSumOfCleanPrefix(xs, ys, mx, my);
  }

  lemma {:induction false} CrossSumOfCleanPrefix(xs: seq<real>, ys: seq<real>, mx: real, my: real)
    requires |xs| == |ys| && NoSentinel(xs) && NoSentinel(ys)
    ensures CrossSum(xs, ys[..|xs|], mx, my) == CrossDev(xs, ys, mx, my)
  {
    assert ys[..|xs|] == ys;
    CrossSumOfClean(xs, ys, mx, my);
  }

  lemma {:induction false} CountOfClean(xs: seq<real>)
    requires NoSentinel(xs)
    ensures Count(xs) == |xs|
  {
    GenuineOfClean(xs);
  }

  /** On columns without sentinels the circuit's covariance is the sample covariance
      (for at least one row; an empty column gives 0 where the plain statistic fails). */
  lemma {:induction false} CovarianceOfClean(xs: seq<real>, ys: seq<real>)
    requires |xs| == |ys| > 0 && NoSentinel(xs) && NoSentinel(ys)
    ensures CovarianceSpec(xs, ys) == PlainCovariance(xs, ys)
  {
    var mx, my := Sum(xs) / |xs| as real, Sum(ys) / |ys| as real;
    MeanOfClean(xs);
    MeanOfClean(ys);
    CovarianceSpecOfClean(xs, ys, mx, my);
  }

  /** ys is the image of xs under y = a*x + b, entry by entry. */
  predicate OnLine(xs: seq<real>, ys: seq<real>, a: real, b: real)
  {
    |xs| == |ys| && forall i :: 0 <= i < |xs| ==> ys[i] == a * xs[i] + b
  }

  lemma {:induction false} OnLineInit(xs: seq<real>, ys: seq<real>, a: real, b: real)
    requires OnLine(xs, ys, a, b) && xs != []
    ensures OnLine(Init(xs), Init(ys), a, b) && Last(ys) == a * Last(xs) + b
  {
    assert forall i :: 0 <= i < |xs| - 1 ==> Init(xs)[i] == xs[i] && Init(ys)[i] == ys[i];
  }

  lemma {:induction false} SumOnLine(xs: seq<real>, ys: seq<real>, a: real, b: real)
    requires OnLine(xs, ys, a, b)
    ensures Sum(ys) == Mul(a, Sum(xs)) + Mul(b, |xs| as real)
  {
    if xs != [] {
      OnLineInit(xs, ys, a, b);
      SumOnLine(Init(xs), Init(ys), a, b);
    }
  }

  lemma {:induction false} CrossDevOnLine(xs: seq<real>, ys: seq<real>, a: real, b: real, mx: real)
    requires OnLine(xs, ys, a, b)
    ensures CrossDev(xs, ys, mx, a * mx + b) == Mul(a, SumSqDev(xs, mx))
  {
    if xs != [] {
      OnLineInit(xs, ys, a, b);
      CrossDevOnLine(Init(xs), Init(ys), a, b, mx);
      LineTerm(Last(xs), Last(ys), a, b, mx);
      MulAdd(a, SumSqDev(Init(xs), mx), Sq(Last(xs) - mx));
    }
  }

  /** A point on the line deviates from the centre on the line by a times its x-deviation. */
  lemma LineTerm(x: real, y: real, a: real, b: real, mx: real)
    requires y == a * x + b
    ensures Mul(x - mx, y - (a * mx + b)) == Mul(a, Sq(x - mx))
  {
    assert y - (a * mx + b) == a * (x - mx);
  }

  lemma MulAdd(a: real, s: real, q: real)
    ensures Mul(a, s + q) == Mul(a, s) + Mul(a, q)
  {
  }

  lemma {:induction false} SumSqDevAtLeastTerm(xs: seq<real>, m: real, k: nat)
    requires k < |xs|
    ensures SumSqDev(xs, m) >= Sq(xs[k] - m)
  {
    SumSqDevNonNegative(Init(xs), m);
    if k < |xs| - 1 {
      SumSqDevAtLeastTerm(Init(xs), m, k);
      assert Init(xs)[k] == xs[k];
    }
    assert Sq(Last(xs) - m) >= 0.0;
  }

  lemma {:induction false} SumSqDevNonNegative(xs: seq<real>, m: real)
    ensures SumSqDev(xs, m) >= 0.0
  {
    if xs != [] {
      SumSqDevNonNegative(Init(xs), m);
      assert Sq(Last(xs) - m) >= 0.0;
    }
  }

  lemma {:induction false} SqPositive(d: real)
    requires d != 0.0
    ensures Sq(d) > 0.0
  {
    var e := if d > 0.0 then d else -d;
    calc {
      Sq(d);
    ==
      e * e;
    >  { assert e * e > 0.0 * e; }
      0.0;
    }
  }

  /** Two different values leave a positive spread around any centre. */
  lemma {:induction false} SumSqDevPositive(xs: seq<real>, m: real, i: nat, j: nat)
    requires i < |xs| && j < |xs| && xs[i] != xs[j]
    ensures SumSqDev(xs, m) > 0.0
  {
    var k := if xs[i] != m then i else j;
    SumSqDevAtLeastTerm(xs, m, k);
    SqPositive(xs[k] - m);
  }

  lemma {:induction false} QuotientOfScaled(a: real, s: real, d: real)
    requires s != 0.0 && d != 0.0
    ensures (Mul(a, s) / d) / (s / d) == a
  {
  }

  /** The mean of points on a line lies on the line. */
  lemma {:induction false} MeanOnLine(xs: seq<real>, ys: seq<real>, a: real, b: real)
    requires OnLine(xs, ys, a, b) && xs != []
    ensures Sum(ys) / |xs| as real == a * (Sum(xs) / |xs| as real) + b
  {
    SumOnLine(xs, ys, a, b);
    LinearQuotient(Sum(ys), a, Sum(xs), b, |xs| as real);
  }

  lemma {:induction false} LinearQuotient(u: real, a: real, t: real, b: real, n: real)
    requires n > 0.0 && u == Mul(a, t) + Mul(b, n)
    ensures u / n == a * (t / n) + b
  {
    calc {
      u / n;
    ==
      (a * t) / n + (b * n) / n;
    ==  { assert (b * n) / n == b; }
      (a * t) / n + b;
    ==  { assert (a * t) / n == a * (t / n); }
      a * (t / n) + b;
    }
  }

  /** Points lying exactly on y = a*x + b (without sentinels, with two different xs)
      give back slope a and intercept b. */
  lemma {:induction false} RegressionOfExactLine(xs: seq<real>, ys: seq<real>, a: real, b: real, i: nat, j: nat)
    requires OnLine(xs, ys, a, b) && NoSentinel(xs) && NoSentinel(ys)
    requires i < |xs| && j < |xs| && xs[i] != xs[j]
    ensures RegressionSpec(xs, ys) == Line(Some(a), Some(b))
  {
    var n := |xs|;
    assert n >= 2 by { assert i != j; }
    var mx, my := Sum(xs) / n as real, Sum(ys) / n as real;
    var d := n as real - 1.0;
    var s := SumSqDev(xs, mx);
    assert my == a * mx + b by {
      MeanOnLine(xs, ys, a, b);
    }
    assert Mean(xs) == Some(mx) && Mean(ys) == Some(my) by {
      MeanOfClean(xs);
      MeanOfClean(ys);
    }
    assert CovarianceSpec(xs, ys) == Some(Mul(a, s) / d) by {
      CovarianceOnLine(xs, ys, a, b, mx, my);
    }
    assert VarianceSpec(xs, true) == Some(s / d) by {
      VarianceOfClean(xs);
    }
    assert s != 0.0 by {
      SumSqDevPositive(xs, mx, i, j);
    }
    RegressionFromParts(xs, ys, a, b, mx, my, s, d);
  }

  /** On a line the cross deviations are a times the spread of the xs. */
  lemma {:induction false} CovarianceOnLine(xs: seq<real>, ys: seq<real>, a: real, b: real, mx: real, my: real)
    requires OnLine(xs, ys, a, b) && NoSentinel(xs) && NoSentinel(ys)
    requires Mean(xs) == Some(mx) && Mean(ys) == Some(my) && my == a * mx + b
    ensures CovarianceSpec(xs, ys) == Divide(Mul(a, SumSqDev(xs, mx)), |xs| as real - 1.0)
  {
    CovarianceSpecOfClean(xs, ys, mx, my);
    CrossDevOnLine(xs, ys, a, b, mx);
  }

  /** The last step of the exact-line property: the slope is the scaled spread over
      the spread, and the intercept follows from the means lying on the line. */
  lemma {:induction false} RegressionFromParts(xs: seq<real>, ys: seq<real>, a: real, b: real, mx: real, my: real, s: real, d: real)
    requires |xs| <= |ys| && s != 0.0 && d != 0.0
    requires CovarianceSpec(xs, ys) == Some(Mul(a, s) / d) && VarianceSpec(xs, true) == Some(s / d)
    requires Mean(xs) == Some(mx) && Mean(ys) == Some(my) && my == a * mx + b
    ensures RegressionSpec(xs, ys) == Line(Some(a), Some(b))
  {
    assert Divide(Mul(a, s) / d, s / d) == Some(a) by {
      QuotientOfScaled(a, s, d);
    }
    assert Mean(xs) != Some(0.0) ==> MulOption(Some(a), Mean(xs)) == Some(Mul(a, mx));
    assert my - Mul(a, mx) == b;
  }
}
