/** SNR calibration (snr.py): the sensor-space variance of a source estimate,
    the amplitude factor that brings a signal to a target SNR, and the local and
    global adjustment loops that rescale source waveforms. */
module Snr {
  import opened Outcomes
  import opened Sums
  import opened Matrices
  import opened Floats
  import opened Dicts
  import opened Sources

  // ----- source estimates and the forward model -----

  /** A source estimate: the vertex (space index, vertno) of each data row, the
      rows, the number of samples and the sampling frequency. */
  datatype Estimate = Estimate(vertices: seq<(nat, int)>, rows: seq<Waveform>, samples: nat, sfreq: real)

  /** What the SourceEstimate constructor enforces: one vertex per row and rows
      of equal length. */
  predicate WellFormed(est: Estimate)
  {
    |est.vertices| == |est.rows| && forall v :: 0 <= v < |est.rows| ==> Length(est.rows[v]) == est.samples
  }

  /** The data contain a NaN sample. */
  predicate HasNaN(est: Estimate)
  {
    exists v :: 0 <= v < |est.rows| && est.rows[v].NaNs? && est.rows[v].length > 0
  }

  function SampleAt(rows: seq<Waveform>, v: int, t: int): real
  {
    if 0 <= v < |rows| && rows[v].Samples? && 0 <= t < |rows[v].values| then rows[v].values[t] else 0.0
  }

  /** `stc.data` as a rows x samples matrix (NaN rows read as zeros; HasNaN
      tells them apart). */
  function Data(est: Estimate): (m: Matrix)
    ensures m.rows == |est.rows| && m.cols == est.samples
  {
    Matrix(|est.rows|, est.samples, (v, t) => SampleAt(est.rows, v, t))
  }

  /** The forward model: the number of sensors and the gain column (one entry
      per sensor) of every vertex it covers, with fixed source orientations. */
  datatype Forward = Forward(sensors: nat, gain: map<(nat, int), seq<real>>)

  function GainAt(fwd: Forward, vertices: seq<(nat, int)>, s: int, k: int): real
  {
    if 0 <= k < |vertices| && vertices[k] in fwd.gain && 0 <= s < |fwd.gain[vertices[k]]|
    then fwd.gain[vertices[k]][s] else 0.0
  }

  /** `restrict_forward_to_stc(..., on_missing="raise")` followed by reading
      the gain matrix: column k is the gain of the k-th vertex of the estimate. */
  function Restrict(fwd: Forward, vertices: seq<(nat, int)>): (r: Result<Matrix>)
    ensures r.Ok? <==> forall k :: 0 <= k < |vertices| ==> vertices[k] in fwd.gain
    ensures r.Err? ==> r.error == SourcesMissingFromForward
    ensures r.Ok? ==> r.value.rows == fwd.sensors && r.value.cols == |vertices|
    ensures r.Ok? ==> forall s, k :: 0 <= s < fwd.sensors && 0 <= k < |vertices| ==>
      At(r.value, s, k) == if s < |fwd.gain[vertices[k]]| then fwd.gain[vertices[k]][s] else 0.0
  {
    if exists k :: 0 <= k < |vertices| && vertices[k] !in fwd.gain then Err(SourcesMissingFromForward)
    else Ok(Matrix(fwd.sensors, |vertices|, (s, k) => GainAt(fwd, vertices, s, k)))
  }

  /** The band-pass step (`butter` of order 2 on [fmin, fmax] normalised by
      sfreq / 2, then zero-phase `filtfilt` along time), given as a function of
      (fmin, fmax, sfreq, samples) that returns the samples x samples matrix K of
      the linear map it applies to every row, or the error scipy raises. */
  type Bandpass = (real, real, real, nat) -> Result<Matrix>

  /** Every row x of `data` becomes K x. */
  function Filter(k: Matrix, data: Matrix): (m: Matrix)
    ensures m.rows == data.rows && m.cols == data.cols
  {
    Matrix(data.rows, data.cols, (v, t) => Sum(data.cols, u => At(k, t, u) * At(data, v, u)))
  }

  /** The data the variance is computed on: filtered when asked (and then the
      band limits are required first), the raw data otherwise. */
  function VarianceData(est: Estimate, fmin: Option<real>, fmax: Option<real>, filter: bool, bandpass: Bandpass): (r: Result<Matrix>)
    ensures filter && (fmin.None? || fmax.None?) ==> r == Err(BandLimitsMissing)
    ensures !filter ==> r == Ok(Data(est))
    ensures filter && fmin.Some? && fmax.Some? ==>
      (r.Ok? <==> bandpass(fmin.value, fmax.value, est.sfreq, est.samples).Ok?)
    ensures r.Ok? ==> r.value.rows == |est.rows| && r.value.cols == est.samples
  {
    if !filter then Ok(Data(est))
    else if fmin.None? || fmax.None? then Err(BandLimitsMissing)
    else
      var k :- bandpass(fmin.value, fmax.value, est.sfreq, est.samples);
      Ok(Filter(k, Data(est)))
  }

  // ----- the variance formula -----

  /** Sum over samples of the squared projection onto sensor s. */
  function RowEnergy(l: Matrix, y: Matrix, s: int): real
  {
    SensorEnergies(l, y)(s)
  }

  /** Sum over sensors and samples of the squared projected amplitude. */
  function Energy(l: Matrix, y: Matrix): real
  {
    Sum(l.rows, SensorEnergies(l, y))
  }

  /** The mean over sensors and samples of the squared projected amplitude
      (L @ Y)[s, t]^2. */
  function MeanSquare(l: Matrix, y: Matrix): real
    requires l.rows > 0 && y.cols > 0
  {
    Energy(l, y) / (l.rows * y.cols) as real
  }

  lemma EnergyNonnegative(l: Matrix, y: Matrix)
    ensures Energy(l, y) >= 0.0
  {
    forall s | 0 <= s < l.rows
      ensures SensorEnergies(l, y)(s) >= 0.0
    {
      SumNonnegative(y.cols, SquaredProjections(l, y, s));
    }
    SumNonnegative(l.rows, SensorEnergies(l, y));
  }

  /** The trace formula is c times the energy. */
  lemma TraceIsEnergy(l: Matrix, y: Matrix, c: real)
    requires l.cols == y.rows
    ensures Trace(Mul(Mul(l, ScaleBy(c, Mul(y, Transpose(y)))), Transpose(l))) == c * Energy(l, y)
  {
    TraceOfQuadraticForm(l, y, c);
    ScaledEqual(Trace(Mul(Mul(l, ScaleBy(c, Mul(y, Transpose(y)))), Transpose(l))), c, Energy(l, y), Sum(l.rows, SensorEnergies(l, y)));
  }

  lemma ScaledEqual(t: real, c: real, e: real, s: real)
    requires t == c * s && e == s
    ensures t == c * e
  {
    ScaleBoth(c, e, s);
  }

  /** Lines 56-60: trace(L @ (Y @ Y.T / T) @ L.T) / S, with numpy's NaN for
      0 / 0 (no sensors, or no samples but some rows) and 0 for an estimate with
      neither rows nor samples. */
  function ProjectedVariance(l: Matrix, y: Matrix): (r: Float)
    requires l.cols == y.rows
    ensures r.NaN? <==> l.rows == 0 || (y.cols == 0 && y.rows > 0)
    ensures !r.Infinite?
    ensures r.Finite? ==> r.x >= 0.0
    ensures r.Finite? && y.cols > 0 ==> r.x == MeanSquare(l, y)
    ensures r.Finite? && y.cols == 0 ==> r.x == 0.0
  {
    if l.rows == 0 then NaN
    else if y.cols == 0 then (if y.rows == 0 then Finite(0.0) else NaN)
    else
      var c := 1.0 / y.cols as real;
      var tr := Trace(Mul(Mul(l, ScaleBy(c, Mul(y, Transpose(y)))), Transpose(l)));
      TraceIsMeanSquare(l, y, c, tr);
      Finite(tr / l.rows as real)
  }

  /** The trace formula divided by the number of sensors is the mean square. */
  lemma TraceIsMeanSquare(l: Matrix, y: Matrix, c: real, tr: real)
    requires l.cols == y.rows && l.rows > 0 && y.cols > 0 && c == 1.0 / y.cols as real
    requires tr == Trace(Mul(Mul(l, ScaleBy(c, Mul(y, Transpose(y)))), Transpose(l)))
    ensures tr / l.rows as real == MeanSquare(l, y) >= 0.0
  {
    TraceIsEnergy(l, y, c);
    EnergyNonnegative(l, y);
    TraceOverSensors(tr, Energy(l, y), l.rows, y.cols);
  }

  lemma TraceOverSensors(tr: real, e: real, sensors: nat, samples: nat)
    requires sensors > 0 && samples > 0 && e >= 0.0 && tr == (1.0 / samples as real) * e
    ensures tr / sensors as real == e / (sensors * samples) as real
    ensures e / (sensors * samples) as real >= 0.0
  {
    var p := (sensors * samples) as real;
    assert p == sensors as real * samples as real;
  }

  /** `get_sensor_space_variance`: the band-limit check and the filter, then the
      forward restriction, then the trace formula on the (filtered) data. */
  function SensorSpaceVariance(est: Estimate, fwd: Forward, fmin: Option<real>, fmax: Option<real>,
                               filter: bool, bandpass: Bandpass): (r: Result<Float>)
    requires WellFormed(est)
    ensures filter && (fmin.None? || fmax.None?) ==> r == Err(BandLimitsMissing)
    ensures r.Ok? <==> VarianceData(est, fmin, fmax, filter, bandpass).Ok? && Restrict(fwd, est.vertices).Ok?
    ensures VarianceData(est, fmin, fmax, filter, bandpass).Ok? && Restrict(fwd, est.vertices).Err? ==>
      r == Err(SourcesMissingFromForward)
    ensures r.Ok? ==> !r.value.Infinite?
    ensures r.Ok? ==> (r.value.NaN? <==> HasNaN(est) || fwd.sensors == 0 || (est.samples == 0 && |est.rows| > 0))
    ensures r.Ok? && r.value.Finite? ==> r.value.x >= 0.0
    ensures r.Ok? && r.value.Finite? && est.samples > 0 ==>
      r.value.x == MeanSquare(Restrict(fwd, est.vertices).value, VarianceData(est, fmin, fmax, filter, bandpass).value)
  {
    var y :- VarianceData(est, fmin, fmax, filter, bandpass);
    var l :- Restrict(fwd, est.vertices);
    if HasNaN(est) then
      assert est.samples > 0 && |est.rows| > 0;
      Ok(NaN)
    else Ok(ProjectedVariance(l, y))
  }

  /** The estimate of tests/test_snr.py:24-39: four vertices, two per space,
      where the second vertex of each space is constantly active. */
  function CancellationEstimate(samples: nat): (est: Estimate)
    ensures WellFormed(est)
  {
    var one := Samples(seq(samples, _ => 1.0));
    var zero := Samples(seq(samples, _ => 0.0));
    Estimate([(0, 0), (0, 1), (1, 0), (1, 1)], [zero, one, zero, one], samples, 100.0)
  }

  /** Its forward model: the two active vertices have opposite gain columns. */
  function CancellationForward(): Forward
  {
    Forward(2, map[(0, 0) := [0.0, 0.0], (0, 1) := [1.0, -1.0], (1, 0) := [0.0, 0.0], (1, 1) := [-1.0, 1.0]])
  }

  /** A projection onto four vertices vanishes when the first and third rows
      are zero and the other two are equal with opposite gains. */
  lemma OpposingProjection(l: Matrix, y: Matrix, s: int, t: int)
    requires l.cols == 4
    requires At(y, 0, t) == 0.0 && At(y, 2, t) == 0.0 && At(y, 1, t) == At(y, 3, t)
    requires At(l, s, 1) == -At(l, s, 3)
    ensures At(Mul(l, y), s, t) == 0.0
  {
    var f := k => At(l, s, k) * At(y, k, t);
    assert At(Mul(l, y), s, t) == Sum(4, f);
    assert Sum(4, f) == Sum(3, f) + f(3);
    assert Sum(3, f) == Sum(2, f) + f(2);
    assert Sum(2, f) == Sum(1, f) + f(1);
    assert Sum(1, f) == Sum(0, f) + f(0);
  }

  lemma CancellationGain(samples: nat)
    ensures Restrict(CancellationForward(), CancellationEstimate(samples).vertices).Ok?
    ensures var l := Restrict(CancellationForward(), CancellationEstimate(samples).vertices).value;
      l.rows == 2 && l.cols == 4 && forall s :: 0 <= s < 2 ==> At(l, s, 1) == -At(l, s, 3)
  {
    var fwd := CancellationForward();
    var vs := CancellationEstimate(samples).vertices;
    assert vs[0] in fwd.gain && vs[1] in fwd.gain && vs[2] in fwd.gain && vs[3] in fwd.gain;
    assert forall k :: 0 <= k < |vs| ==> vs[k] in fwd.gain;
  }

  lemma CancellationData(samples: nat, t: int)
    requires 0 <= t < samples
    ensures var y := Data(CancellationEstimate(samples));
      At(y, 0, t) == 0.0 && At(y, 2, t) == 0.0 && At(y, 1, t) == 1.0 && At(y, 3, t) == 1.0
  {
  }

  /** The test's claim: the two sources cancel and the variance is 0. */
  lemma CancellationExample(samples: nat)
    requires samples > 0
    ensures SensorSpaceVariance(CancellationEstimate(samples), CancellationForward(), None, None, false,
                                (_, _, _, _) => Err(BandLimitsMissing)) == Ok(Finite(0.0))
  {
    var est := CancellationEstimate(samples);
    CancellationGain(samples);
    var l := Restrict(CancellationForward(), est.vertices).value;
    var y := Data(est);
    forall s, t | 0 <= s < 2 && 0 <= t < samples
      ensures Square(At(Mul(l, y), s, t)) == 0.0
    {
      CancellationData(samples, t);
      OpposingProjection(l, y, s, t);
    }
    forall s | 0 <= s < 2
      ensures SensorEnergies(l, y)(s) == 0.0
    {
      SumZero(samples, SquaredProjections(l, y, s));
    }
    SumZero(2, SensorEnergies(l, y));
    assert !HasNaN(est) by {
      assert forall v :: 0 <= v < |est.rows| ==> est.rows[v].Samples?;
    }
    ZeroEnergyMean(Energy(l, y), (l.rows * y.cols) as real);
  }

  lemma ZeroEnergyMean(e: real, p: real)
    requires e == 0.0 && p > 0.0
    ensures e / p == 0.0
  {
  }

  // ----- scaling -----

  /** `waveform *= factor` for a factor that is not infinite. */
  function ScaleWaveform(w: Waveform, factor: Float): (r: Waveform)
    requires !factor.Infinite?
    ensures Length(r) == Length(w)
    ensures r.NaNs? <==> w.NaNs? || factor.NaN?
    ensures factor.Finite? && w.Samples? ==> r.Samples? && forall t :: 0 <= t < |w.values| ==> r.values[t] == factor.x * w.values[t]
  {
    match factor
    case Finite(c) =>
      (match w
       case Samples(values) => Samples(seq(|values|, t requires 0 <= t < |values| => c * values[t]))
       case NaNs(n) => NaNs(n))
    case NaN => NaNs(Length(w))
  }

  function ScaleSource(s: PointSource, factor: Float): (r: PointSource)
    requires !factor.Infinite?
    ensures r.srcIdx == s.srcIdx && r.vertno == s.vertno && r.hemi == s.hemi
    ensures r.waveform == ScaleWaveform(s.waveform, factor)
  {
    s.(waveform := ScaleWaveform(s.waveform, factor))
  }

  /** Every row of the estimate multiplied by c. */
  function ScaleEstimate(est: Estimate, c: real): (r: Estimate)
    ensures r.vertices == est.vertices && r.samples == est.samples && r.sfreq == est.sfreq
    ensures |r.rows| == |est.rows| && forall v :: 0 <= v < |est.rows| ==> r.rows[v] == ScaleWaveform(est.rows[v], Finite(c))
  {
    est.(rows := seq(|est.rows|, v requires 0 <= v < |est.rows| => ScaleWaveform(est.rows[v], Finite(c))))
  }

  /** m' is m with every entry multiplied by c. */
  predicate ScaledCopy(m': Matrix, m: Matrix, c: real)
  {
    m'.rows == m.rows && m'.cols == m.cols
    && forall v, u :: 0 <= v < m.rows && 0 <= u < m.cols ==> At(m', v, u) == c * At(m, v, u)
  }

  lemma ScaledData(est: Estimate, c: real)
    ensures ScaledCopy(Data(ScaleEstimate(est, c)), Data(est), c)
  {
  }

  lemma ScaledFilter(k: Matrix, x: Matrix, x': Matrix, c: real)
    requires ScaledCopy(x', x, c)
    ensures ScaledCopy(Filter(k, x'), Filter(k, x), c)
  {
    forall v, t | 0 <= v < x.rows && 0 <= t < x.cols
      ensures At(Filter(k, x'), v, t) == c * At(Filter(k, x), v, t)
    {
      SumScale(x.cols, c, u => At(k, t, u) * At(x, v, u), u => At(k, t, u) * At(x', v, u));
    }
  }

  /** Scaling the rows by c scales the (filtered) data by c: the filter is linear. */
  lemma ScaledVarianceData(est: Estimate, fmin: Option<real>, fmax: Option<real>, filter: bool, bandpass: Bandpass, c: real)
    ensures var r := VarianceData(est, fmin, fmax, filter, bandpass);
      var r' := VarianceData(ScaleEstimate(est, c), fmin, fmax, filter, bandpass);
      r'.Ok? == r.Ok? && (r.Err? ==> r'.error == r.error)
      && (r.Ok? ==> ScaledCopy(r'.value, r.value, c))
  {
    ScaledData(est, c);
    if filter && fmin.Some? && fmax.Some? && bandpass(fmin.value, fmax.value, est.sfreq, est.samples).Ok? {
      ScaledFilter(bandpass(fmin.value, fmax.value, est.sfreq, est.samples).value, Data(est), Data(ScaleEstimate(est, c)), c);
    }
  }

  lemma ScaledProjection(l: Matrix, y: Matrix, y': Matrix, c: real, s: int, t: int)
    requires l.cols == y.rows && ScaledCopy(y', y, c)
    requires 0 <= t < y.cols
    ensures Square(At(Mul(l, y'), s, t)) == (c * c) * Square(At(Mul(l, y), s, t))
  {
    ProjectionScaled(l, y, y', c, s, t);
    SquareScale(c, At(Mul(l, y), s, t));
  }

  /** One entry of L @ Y' is c times the entry of L @ Y. */
  lemma ProjectionScaled(l: Matrix, y: Matrix, y': Matrix, c: real, s: int, t: int)
    requires l.cols == y.rows && ScaledCopy(y', y, c)
    requires 0 <= t < y.cols
    ensures At(Mul(l, y'), s, t) == c * At(Mul(l, y), s, t)
  {
    ProductsScaled(l, y, y', c, s, t);
    SumScale(l.cols, c, k => At(l, s, k) * At(y, k, t), k => At(l, s, k) * At(y', k, t));
  }

  lemma ProductsScaled(l: Matrix, y: Matrix, y': Matrix, c: real, s: int, t: int)
    requires l.cols == y.rows && ScaledCopy(y', y, c)
    requires 0 <= t < y.cols
    ensures forall k :: 0 <= k < l.cols ==> At(l, s, k) * At(y', k, t) == c * (At(l, s, k) * At(y, k, t))
  {
    forall k | 0 <= k < l.cols
      ensures At(l, s, k) * At(y', k, t) == c * (At(l, s, k) * At(y, k, t))
    {
      ScaleInside(At(l, s, k), At(y, k, t), c);
    }
  }

  lemma ScaleInside(a: real, b: real, c: real)
    ensures a * (c * b) == c * (a * b)
  {
  }

  lemma ScaledRowEnergy(l: Matrix, y: Matrix, y': Matrix, c: real, s: int)
    requires l.cols == y.rows && ScaledCopy(y', y, c)
    ensures RowEnergy(l, y', s) == (c * c) * RowEnergy(l, y, s)
  {
    SquaresScaled(l, y, y', c, s);
    SumScale(y.cols, c * c, SquaredProjections(l, y, s), SquaredProjections(l, y', s));
  }

  lemma SquaresScaled(l: Matrix, y: Matrix, y': Matrix, c: real, s: int)
    requires l.cols == y.rows && ScaledCopy(y', y, c)
    ensures forall t :: 0 <= t < y.cols ==> SquaredProjections(l, y', s)(t) == (c * c) * SquaredProjections(l, y, s)(t)
  {
    forall t | 0 <= t < y.cols
      ensures SquaredProjections(l, y', s)(t) == (c * c) * SquaredProjections(l, y, s)(t)
    {
      ScaledProjection(l, y, y', c, s, t);
    }
  }

  lemma ScaledRowEnergies(l: Matrix, y: Matrix, y': Matrix, c: real)
    requires l.cols == y.rows && ScaledCopy(y', y, c)
    ensures forall s :: 0 <= s < l.rows ==> RowEnergy(l, y', s) == (c * c) * RowEnergy(l, y, s)
  {
    forall s | 0 <= s < l.rows
      ensures RowEnergy(l, y', s) == (c * c) * RowEnergy(l, y, s)
    {
      ScaledRowEnergy(l, y, y', c, s);
    }
  }

  lemma SquareScale(c: real, a: real)
    ensures Square(c * a) == (c * c) * Square(a)
  {
    assert c * a * (c * a) == c * (a * (c * a)) == c * (c * (a * a));
  }

  lemma DivideScaled(e: real, e': real, k: real, p: real)
    requires p > 0.0 && e' == k * e
    ensures e' / p == k * (e / p)
  {
  }

  lemma ScaledEnergy(l: Matrix, y: Matrix, y': Matrix, k: real)
    requires forall s :: 0 <= s < l.rows ==> RowEnergy(l, y', s) == k * RowEnergy(l, y, s)
    ensures Energy(l, y') == k * Energy(l, y)
  {
    EnergiesScaled(l, y, y', k);
    SumScale(l.rows, k, SensorEnergies(l, y), SensorEnergies(l, y'));
  }

  lemma EnergiesScaled(l: Matrix, y: Matrix, y': Matrix, k: real)
    requires forall s :: 0 <= s < l.rows ==> RowEnergy(l, y', s) == k * RowEnergy(l, y, s)
    ensures forall s :: 0 <= s < l.rows ==> SensorEnergies(l, y')(s) == k * SensorEnergies(l, y)(s)
  {
    forall s | 0 <= s < l.rows
      ensures SensorEnergies(l, y')(s) == k * SensorEnergies(l, y)(s)
    {
      assert RowEnergy(l, y', s) == k * RowEnergy(l, y, s);
    }
  }

  /** A variance multiplied by c^2 (NaN stays NaN). */
  function TimesSquare(v: Float, c: real): (r: Float)
    ensures r.NaN? == v.NaN? && r.Finite? == v.Finite?
    ensures v.Finite? && v.x >= 0.0 ==> r.x >= 0.0
  {
    if v.Finite? then Finite(Square(c) * v.x) else v
  }

  /** Data scaled by c give c^2 times the variance. */
  lemma ScaledProjectedVariance(l: Matrix, y: Matrix, y': Matrix, c: real)
    requires l.cols == y.rows && ScaledCopy(y', y, c)
    ensures ProjectedVariance(l, y') == TimesSquare(ProjectedVariance(l, y), c)
  {
    if l.rows == 0 || y.cols == 0 {
      EmptyProjectedVariance(l, y, y', c);
    } else {
      FilledProjectedVariance(l, y, y', c);
    }
  }

  /** With sensors and samples the variance is the mean square, which scales by c^2. */
  lemma FilledProjectedVariance(l: Matrix, y: Matrix, y': Matrix, c: real)
    requires l.cols == y.rows && ScaledCopy(y', y, c) && l.rows > 0 && y.cols > 0
    ensures ProjectedVariance(l, y') == TimesSquare(ProjectedVariance(l, y), c)
  {
    ScaledMeanSquare(l, y, y', c);
    ProjectedIsMean(l, y);
    ProjectedIsMean(l, y');
    MeanScaled(ProjectedVariance(l, y), ProjectedVariance(l, y'), MeanSquare(l, y), MeanSquare(l, y'), c);
  }

  /** With sensors and samples the variance is the finite mean square. */
  lemma ProjectedIsMean(l: Matrix, y: Matrix)
    requires l.cols == y.rows && l.rows > 0 && y.cols > 0
    ensures ProjectedVariance(l, y) == Finite(MeanSquare(l, y))
  {
    var r := ProjectedVariance(l, y);
    assert r.Finite? && r.x == MeanSquare(l, y);
  }

  /** Without sensors or samples the variance is NaN or 0 for both. */
  lemma EmptyProjectedVariance(l: Matrix, y: Matrix, y': Matrix, c: real)
    requires l.cols == y.rows && ScaledCopy(y', y, c) && (l.rows == 0 || y.cols == 0)
    ensures ProjectedVariance(l, y') == TimesSquare(ProjectedVariance(l, y), c)
  {
    if l.rows == 0 {
      assert ProjectedVariance(l, y).NaN? && ProjectedVariance(l, y').NaN?;
    } else {
      assert ProjectedVariance(l, y) == ProjectedVariance(l, y');
      assert ProjectedVariance(l, y).NaN? || ProjectedVariance(l, y) == Finite(0.0);
    }
  }

  lemma MeanScaled(p: Float, p': Float, m: real, m': real, c: real)
    requires p == Finite(m) && p' == Finite(m') && m' == Square(c) * m
    ensures p' == TimesSquare(p, c)
  {
  }

  lemma ScaledMeanSquare(l: Matrix, y: Matrix, y': Matrix, c: real)
    requires l.cols == y.rows && ScaledCopy(y', y, c) && l.rows > 0 && y.cols > 0
    ensures MeanSquare(l, y') == Square(c) * MeanSquare(l, y)
  {
    ScaledRowEnergies(l, y, y', c);
    ScaledEnergy(l, y, y', c * c);
    DivideScaled(Energy(l, y), Energy(l, y'), c * c, (l.rows * y.cols) as real);
  }

  /** Multiplying every source row by c leaves the errors of the sensor-space
      variance as they are and multiplies the variance by c^2. */
  lemma VarianceScales(est: Estimate, fwd: Forward, fmin: Option<real>, fmax: Option<real>,
                       filter: bool, bandpass: Bandpass, c: real)
    requires WellFormed(est)
    ensures WellFormed(ScaleEstimate(est, c))
    ensures var r := SensorSpaceVariance(est, fwd, fmin, fmax, filter, bandpass);
      var r' := SensorSpaceVariance(ScaleEstimate(est, c), fwd, fmin, fmax, filter, bandpass);
      r'.Ok? == r.Ok? && (r.Err? ==> r'.error == r.error) && (r.Ok? ==> r'.value == TimesSquare(r.value, c))
  {
    var est' := ScaleEstimate(est, c);
    ScaledHasNaN(est, c);
    ScaledVarianceData(est, fmin, fmax, filter, bandpass, c);
    var y := VarianceData(est, fmin, fmax, filter, bandpass);
    var l := Restrict(fwd, est.vertices);
    if y.Ok? && l.Ok? && !HasNaN(est) {
      var y' := VarianceData(est', fmin, fmax, filter, bandpass).value;
      ScaledProjectedVariance(l.value, y.value, y', c);
      assert SensorSpaceVariance(est, fwd, fmin, fmax, filter, bandpass) == Ok(ProjectedVariance(l.value, y.value));
      assert SensorSpaceVariance(est', fwd, fmin, fmax, filter, bandpass) == Ok(ProjectedVariance(l.value, y'));
    }
  }

  lemma ScaledHasNaN(est: Estimate, c: real)
    ensures HasNaN(ScaleEstimate(est, c)) == HasNaN(est)
  {
    var est' := ScaleEstimate(est, c);
    assert forall v :: 0 <= v < |est.rows| ==> (est'.rows[v].NaNs? <==> est.rows[v].NaNs?);
  }

  // ----- the amplitude factor -----

  /** A sensor-space variance: NaN or a non-negative value. */
  predicate IsVariance(f: Float)
  {
    f.NaN? || (f.Finite? && f.x >= 0.0)
  }

  /** `amplitude_adjustment_factor`: sqrt(target / (signal / noise)), raising
      when signal / noise is infinite (noise variance 0, signal not) and when
      the factor is infinite (signal variance 0, noise and target positive). */
  function AmplitudeAdjustmentFactor(signalVar: Float, noiseVar: Float, target: real, sqrt: real -> real): (r: Result<Float>)
    requires IsSqrt(sqrt) && IsVariance(signalVar) && IsVariance(noiseVar)
    ensures r == Err(ZeroNoiseVariance) <==> signalVar.Finite? && signalVar.x > 0.0 && noiseVar == Finite(0.0)
    ensures r == Err(ZeroSignalVariance) <==>
      signalVar == Finite(0.0) && noiseVar.Finite? && noiseVar.x > 0.0 && target > 0.0
    ensures r.Err? ==> r.error == ZeroNoiseVariance || r.error == ZeroSignalVariance
    ensures r.Ok? ==> !r.value.Infinite?
    ensures (r.Ok? && r.value.Finite?) <==>
      signalVar.Finite? && noiseVar.Finite? && signalVar.x > 0.0 && noiseVar.x > 0.0 && target >= 0.0
    ensures r.Ok? && r.value.Finite? ==> r.value.x >= 0.0
  {
    var current := Divide(signalVar, noiseVar);
    if current.Infinite? then Err(ZeroNoiseVariance)
    else
      var factor := Sqrt(Divide(Finite(target), current), sqrt);
      if factor.Infinite? then Err(ZeroSignalVariance)
      else Ok(factor)
  }

  lemma TargetReached(target: real, s: real, n: real, f: real)
    requires s > 0.0 && n > 0.0 && f * f == target / (s / n)
    ensures f * f * s == target * n
  {
    assert target / (s / n) == target * n / s;
  }

  /** With both variances 0 the ratio is NaN: neither check fires and the
      factor is NaN. */
  lemma BothVariancesZero(target: real, sqrt: real -> real)
    requires IsSqrt(sqrt)
    ensures AmplitudeAdjustmentFactor(Finite(0.0), Finite(0.0), target, sqrt) == Ok(NaN)
  {
  }

  // ----- estimates of sources -----

  /** `PointSource.to_stc(src, sfreq)`: one row on the vertex list of its space
      (there are two lists, so a space index of 2 or more raises IndexError),
      with tstep = 1 / sfreq, so the estimate's sampling rate is the sfreq
      argument. */
  function SourceEstimate(s: PointSource, sfreq: real): (r: Result<Estimate>)
    ensures r.Ok? <==> s.srcIdx < 2 && sfreq != 0.0
    ensures s.srcIdx >= 2 ==> r == Err(SourceSpaceIndexOutOfRange(s.srcIdx))
    ensures s.srcIdx < 2 && sfreq == 0.0 ==> r == Err(ZeroSamplingRate)
    ensures r.Ok? ==> (WellFormed(r.value) && r.value.vertices == [(s.srcIdx, s.vertno)]
      && r.value.rows == [s.waveform] && r.value.sfreq == sfreq)
  {
    if s.srcIdx >= 2 then Err(SourceSpaceIndexOutOfRange(s.srcIdx))
    else if sfreq == 0.0 then Err(ZeroSamplingRate)
    else Ok(Estimate([(s.srcIdx, s.vertno)], [s.waveform], Length(s.waveform), sfreq))
  }

  /** `_combine_sources_into_stc` (not part of this model's sources): one row
      per source, in order, on the vertex of that source; all rows must have
      the same length. */
  function CombineSources(ss: seq<PointSource>, sfreq: real): (r: Result<Estimate>)
    ensures r.Ok? <==> forall i :: 0 <= i < |ss| ==> Length(ss[i].waveform) == Length(ss[0].waveform)
    ensures r.Err? ==> r.error == WaveformShapeMismatch
    ensures r.Ok? ==> (WellFormed(r.value) && |r.value.rows| == |ss| && r.value.sfreq == sfreq
      && forall i :: 0 <= i < |ss| ==> r.value.rows[i] == ss[i].waveform && r.value.vertices[i] == (ss[i].srcIdx, ss[i].vertno))
  {
    if exists i :: 0 <= i < |ss| && Length(ss[i].waveform) != Length(ss[0].waveform) then Err(WaveformShapeMismatch)
    else
      Ok(Estimate(seq(|ss|, i requires 0 <= i < |ss| => (ss[i].srcIdx, ss[i].vertno)),
                  seq(|ss|, i requires 0 <= i < |ss| => ss[i].waveform),
                  if ss == [] then 0 else Length(ss[0].waveform), sfreq))
  }

  /** Scaling a source scales the row of its estimate. */
  lemma ScaledSourceEstimate(s: PointSource, sfreq: real, f: real)
    requires SourceEstimate(s, sfreq).Ok?
    ensures SourceEstimate(ScaleSource(s, Finite(f)), sfreq) == Ok(ScaleEstimate(SourceEstimate(s, sfreq).value, f))
  {
    var est := SourceEstimate(s, sfreq).value;
    assert ScaleEstimate(est, f).rows == [ScaleWaveform(s.waveform, Finite(f))];
  }

  /** Scaling every source by the same factor scales their combined estimate. */
  lemma ScaledCombination(ss: seq<PointSource>, sfreq: real, f: real)
    requires CombineSources(ss, sfreq).Ok?
    ensures var ss' := seq(|ss|, i requires 0 <= i < |ss| => ScaleSource(ss[i], Finite(f)));
      CombineSources(ss', sfreq) == Ok(ScaleEstimate(CombineSources(ss, sfreq).value, f))
  {
    var ss' := seq(|ss|, i requires 0 <= i < |ss| => ScaleSource(ss[i], Finite(f)));
    var est := CombineSources(ss, sfreq).value;
    assert forall i :: 0 <= i < |ss'| ==> Length(ss'[i].waveform) == Length(ss[i].waveform);
    var est' := CombineSources(ss', sfreq).value;
    assert est'.rows == ScaleEstimate(est, f).rows;
    assert est'.vertices == est.vertices;
  }

  // ----- the SNR adjustment -----

  /** What the adjustment needs besides the sources: the forward model, the
      band-pass filter, the square-root function, the `tstep` argument (passed
      on as the sampling rate of each source's estimate) and the sampling rate
      of a combined estimate. */
  datatype Context = Context(fwd: Forward, bandpass: Bandpass, sqrt: real -> real, tstep: real, combinedSfreq: real)

  /** The `snr_params` of a group: None or a dict whose values may be None. */
  type SnrParams = Option<map<string, Option<real>>>

  /** `snr_params[key]`. */
  function Param(params: SnrParams, key: string): (r: Result<Option<real>>)
    ensures params.None? ==> r == Err(SnrParamsNotSubscriptable)
    ensures params.Some? && key !in params.value ==> r == Err(MissingSnrParam(key))
    ensures params.Some? && key in params.value ==> r == Ok(params.value[key])
  {
    if params.None? then Err(SnrParamsNotSubscriptable)
    else if key !in params.value then Err(MissingSnrParam(key))
    else Ok(params.value[key])
  }

  /** The factor for one source: its estimate, its filtered sensor-space
      variance and `amplitude_adjustment_factor` against the noise variance. */
  function SourceFactor(ctx: Context, s: PointSource, target: real, fmin: Option<real>, fmax: Option<real>, noiseVar: Float): (r: Result<Float>)
    requires IsSqrt(ctx.sqrt) && IsVariance(noiseVar)
    ensures r.Ok? ==> !r.value.Infinite?
    ensures SourceEstimate(s, ctx.tstep).Err? ==> r == Err(SourceEstimate(s, ctx.tstep).error)
    ensures fmin.None? || fmax.None? ==> r.Err?
  {
    var est :- SourceEstimate(s, ctx.tstep);
    var signalVar :- SensorSpaceVariance(est, ctx.fwd, fmin, fmax, true, ctx.bandpass);
    AmplitudeAdjustmentFactor(signalVar, noiseVar, target, ctx.sqrt)
  }

  /** The factor does its job: the scaled source's variance is target times
      the noise variance. */
  lemma SourceReachesTarget(ctx: Context, s: PointSource, target: real, fmin: Option<real>, fmax: Option<real>, noiseVar: Float)
    requires IsSqrt(ctx.sqrt) && IsVariance(noiseVar)
    requires SourceFactor(ctx, s, target, fmin, fmax, noiseVar).Ok?
    requires SourceFactor(ctx, s, target, fmin, fmax, noiseVar).value.Finite?
    ensures var f := SourceFactor(ctx, s, target, fmin, fmax, noiseVar).value;
      SourceEstimate(ScaleSource(s, f), ctx.tstep).Ok?
      && SensorSpaceVariance(SourceEstimate(ScaleSource(s, f), ctx.tstep).value, ctx.fwd, fmin, fmax, true, ctx.bandpass)
         == Ok(Finite(target * noiseVar.x))
  {
    var f := SourceFactor(ctx, s, target, fmin, fmax, noiseVar).value;
    var est := SourceEstimate(s, ctx.tstep).value;
    ScaledSourceEstimate(s, ctx.tstep, f.x);
    VarianceScales(est, ctx.fwd, fmin, fmax, true, ctx.bandpass, f.x);
    var sv := SensorSpaceVariance(est, ctx.fwd, fmin, fmax, true, ctx.bandpass).value;
    assert f == AmplitudeAdjustmentFactor(sv, noiseVar, target, ctx.sqrt).value;
    FactorReachesTarget(sv, noiseVar, target, ctx.sqrt, f.x);
  }

  /** Variances multiplied by the square of the factor meet the target. */
  lemma FactorReachesTarget(signalVar: Float, noiseVar: Float, target: real, sqrt: real -> real, f: real)
    requires IsSqrt(sqrt) && IsVariance(signalVar) && IsVariance(noiseVar)
    requires AmplitudeAdjustmentFactor(signalVar, noiseVar, target, sqrt) == Ok(Finite(f))
    ensures signalVar.Finite? && noiseVar.Finite?
    ensures TimesSquare(signalVar, f) == Finite(target * noiseVar.x)
  {
    var current := Divide(signalVar, noiseVar);
    TargetReached(target, signalVar.x, noiseVar.x, f);
  }

  /** The factor the local loop computes for a source and its target SNR.
      The loop is stated for any such function; `AdjustSnrLocal` passes the
      one built from `SourceFactor`. */
  type FactorOf = (PointSource, real) -> Result<Float>

  /** The scaling step needs a factor that is not infinite. */
  ghost predicate NeverInfinite(factor: FactorOf)
  {
    forall s, t :: factor(s, t).Ok? ==> !factor(s, t).value.Infinite?
  }

  /** One step of `for name, target_snr in zip(...)`: look the source up,
      compute its factor and scale its waveform in place. */
  function LocalPair(d: Dict<PointSource>, name: string, target: real, factor: FactorOf): (r: Result<Dict<PointSource>>)
    requires NeverInfinite(factor)
    ensures name !in d.values ==> r == Err(UnknownSourceName(name))
    ensures name in d.values && factor(d.values[name], target).Err? ==> r == Err(factor(d.values[name], target).error)
    ensures r.Ok? <==> name in d.values && factor(d.values[name], target).Ok?
    ensures r.Ok? ==> (name in r.value.values
      && r.value.values[name] == ScaleSource(d.values[name], factor(d.values[name], target).value))
    ensures r.Ok? ==> forall n :: n != name ==> (n in r.value.values <==> n in d.values)
    ensures r.Ok? ==> forall n :: n != name && n in d.values ==> r.value.values[n] == d.values[n]
    ensures r.Ok? && Valid(d) ==> Valid(r.value) && r.value.keys == d.keys
  {
    if name !in d.values then Err(UnknownSourceName(name))
    else
      var s := d.values[name];
      var f :- factor(s, target);
      Ok(Store(d, name, ScaleSource(s, f)))
  }

  /** `zip(sg.names, sg.snr, strict=True)`: the pairs in order; when one side
      runs out first, ValueError after the common prefix was processed. */
  function LocalPairs(d: Dict<PointSource>, names: seq<string>, targets: seq<real>, factor: FactorOf): (r: Result<Dict<PointSource>>)
    requires NeverInfinite(factor)
    ensures r.Ok? ==> |names| == |targets|
    ensures r.Ok? ==> forall n :: n in r.value.values <==> n in d.values
    ensures r.Ok? ==> forall n :: n !in names && n in d.values ==> r.value.values[n] == d.values[n]
    ensures r.Ok? && Valid(d) ==> Valid(r.value) && r.value.keys == d.keys
    decreases |names|
  {
    if names == [] && targets == [] then Ok(d)
    else if names == [] || targets == [] then Err(SnrCountMismatch)
    else
      var d1 :- LocalPair(d, names[0], targets[0], factor);
      var r := LocalPairs(d1, names[1..], targets[1..], factor);
      assert r.Ok? ==> forall n :: n !in names ==> n !in names[1..];
      r
  }

  /** A name that occurs once in the group is scaled once, by the factor of the
      source as it was before the group. */
  lemma {:induction false} LocalPairsScaleOnce(d: Dict<PointSource>, names: seq<string>, targets: seq<real>, factor: FactorOf, i: nat)
    requires NeverInfinite(factor)
    requires LocalPairs(d, names, targets, factor).Ok?
    requires i < |names| && forall j :: 0 <= j < |names| && j != i ==> names[j] != names[i]
    ensures names[i] in d.values && i < |targets|
    ensures var f := factor(d.values[names[i]], targets[i]);
      f.Ok? && !f.value.Infinite? && LocalPairs(d, names, targets, factor).value.values[names[i]] == ScaleSource(d.values[names[i]], f.value)
    decreases i
  {
    var d1 := LocalPair(d, names[0], targets[0], factor).value;
    assert LocalPairs(d, names, targets, factor) == LocalPairs(d1, names[1..], targets[1..], factor);
    if i == 0 {
      assert names[0] !in names[1..] by {
        forall j | 0 <= j < |names[1..]|
          ensures names[1..][j] != names[0]
        {
          assert names[1..][j] == names[j + 1];
        }
      }
    } else {
      LocalPairsScaleOnce(d1, names[1..], targets[1..], factor, i - 1);
      assert names[1..][i - 1] == names[i];
    }
  }

  /** A local-mode group: its source names, its SNR targets and its parameters. */
  datatype SnrGroup = SnrGroup(names: seq<string>, snr: Option<seq<real>>, snrParams: SnrParams)

  /** The factor function of each group with an SNR; building it reads the
      group's band and measures the noise, and can fail. */
  type GroupFactorOf = SnrGroup -> Result<FactorOf>

  ghost predicate GroupsNeverInfinite(groupFactor: GroupFactorOf)
  {
    forall g :: groupFactor(g).Ok? ==> NeverInfinite(groupFactor(g).value)
  }

  /** A group scales a name when it has an SNR and lists the name. */
  predicate ScaledBy(g: SnrGroup, name: string)
  {
    g.snr.Some? && name in g.names
  }

  /** The loop over source groups: groups without an SNR are skipped. */
  function LocalGroups(d: Dict<PointSource>, groups: seq<SnrGroup>, groupFactor: GroupFactorOf): (r: Result<Dict<PointSource>>)
    requires GroupsNeverInfinite(groupFactor)
    ensures r.Ok? ==> forall k :: 0 <= k < |groups| && groups[k].snr.Some? ==> |groups[k].names| == |groups[k].snr.value|
    ensures r.Ok? ==> forall n :: n in r.value.values <==> n in d.values
    ensures r.Ok? ==> forall n :: n in d.values && (forall k :: 0 <= k < |groups| ==> !ScaledBy(groups[k], n)) ==>
      r.value.values[n] == d.values[n]
    ensures r.Ok? && Valid(d) ==> Valid(r.value) && r.value.keys == d.keys
    decreases |groups|
  {
    if groups == [] then Ok(d)
    else
      var g := groups[0];
      var r := if g.snr.None? then LocalGroups(d, groups[1..], groupFactor)
        else
          var factor :- groupFactor(g);
          var d1 :- LocalPairs(d, g.names, g.snr.value, factor);
          LocalGroups(d1, groups[1..], groupFactor);
      assert forall k :: 1 <= k < |groups| ==> groups[k] == groups[1..][k - 1];
      r
  }

  /** A name listed once across all groups with an SNR is multiplied exactly
      once, by the factor its group's factor function gives it. */
  lemma {:induction false} LocalGroupsScaleOnce(d: Dict<PointSource>, groups: seq<SnrGroup>, groupFactor: GroupFactorOf, k: nat, i: nat)
    requires GroupsNeverInfinite(groupFactor)
    requires LocalGroups(d, groups, groupFactor).Ok?
    requires k < |groups| && groups[k].snr.Some? && i < |groups[k].names|
    requires forall k', j :: (0 <= k' < |groups| && groups[k'].snr.Some? && 0 <= j < |groups[k'].names|
      && groups[k'].names[j] == groups[k].names[i]) ==> k' == k && j == i
    ensures var name := groups[k].names[i];
      name in d.values && groupFactor(groups[k]).Ok? && i < |groups[k].snr.value|
      && var f := groupFactor(groups[k]).value(d.values[name], groups[k].snr.value[i]);
         f.Ok? && !f.value.Infinite? && LocalGroups(d, groups, groupFactor).value.values[name] == ScaleSource(d.values[name], f.value)
    decreases k
  {
    var g := groups[0];
    var name := groups[k].names[i];
    var rest := groups[1..];
    assert forall k' :: 1 <= k' < |groups| ==> groups[k'] == rest[k' - 1];
    if k == 0 {
      var factor := groupFactor(g).value;
      var d1 := LocalPairs(d, g.names, g.snr.value, factor).value;
      assert LocalGroups(d, groups, groupFactor) == LocalGroups(d1, rest, groupFactor);
      LocalPairsScaleOnce(d, g.names, g.snr.value, factor, i);
      forall k' | 0 <= k' < |rest|
        ensures !ScaledBy(rest[k'], name)
      {
        forall j | 0 <= j < |rest[k'].names| && rest[k'].snr.Some?
          ensures rest[k'].names[j] != name
        {
          assert rest[k'].names[j] == groups[k' + 1].names[j];
        }
      }
    } else if g.snr.None? {
      assert LocalGroups(d, groups, groupFactor) == LocalGroups(d, rest, groupFactor);
      LocalGroupsScaleOnce(d, rest, groupFactor, k - 1, i);
    } else {
      var factor := groupFactor(g).value;
      var d1 := LocalPairs(d, g.names, g.snr.value, factor).value;
      assert LocalGroups(d, groups, groupFactor) == LocalGroups(d1, rest, groupFactor);
      assert name !in g.names by {
        forall j | 0 <= j < |g.names|
          ensures g.names[j] != name
        {
          assert g.names[j] == groups[0].names[j];
        }
      }
      LocalGroupsScaleOnce(d1, rest, groupFactor, k - 1, i);
    }
  }

  // ----- the factor functions of `_adjust_snr_local` -----

  /** The band and the noise variance of a group with an SNR. */
  datatype Band = Band(fmin: Option<real>, fmax: Option<real>, noiseVar: Float)

  /** `fmin`, then `fmax`, then the filtered noise variance in that band. */
  function GroupBand(ctx: Context, g: SnrGroup, noise: Estimate): (r: Result<Band>)
    requires WellFormed(noise)
    ensures r.Ok? ==> IsVariance(r.value.noiseVar)
    ensures Param(g.snrParams, "fmin").Err? ==> r == Err(Param(g.snrParams, "fmin").error)
    ensures r.Ok? ==> (Param(g.snrParams, "fmin") == Ok(r.value.fmin) && Param(g.snrParams, "fmax") == Ok(r.value.fmax)
      && SensorSpaceVariance(noise, ctx.fwd, r.value.fmin, r.value.fmax, true, ctx.bandpass) == Ok(r.value.noiseVar))
  {
    var fmin :- Param(g.snrParams, "fmin");
    var fmax :- Param(g.snrParams, "fmax");
    var noiseVar :- SensorSpaceVariance(noise, ctx.fwd, fmin, fmax, true, ctx.bandpass);
    Ok(Band(fmin, fmax, noiseVar))
  }

  /** The factor of every source in a band: `SourceFactor` against the band's
      noise variance. */
  function BandFactor(ctx: Context, band: Band): (factor: FactorOf)
    requires IsSqrt(ctx.sqrt) && IsVariance(band.noiseVar)
    ensures NeverInfinite(factor)
  {
    (s: PointSource, t: real) => SourceFactor(ctx, s, t, band.fmin, band.fmax, band.noiseVar)
  }

  /** What each group of the loop uses: its band, then BandFactor. */
  function GroupFactor(ctx: Context, noise: Estimate): (groupFactor: GroupFactorOf)
    requires IsSqrt(ctx.sqrt) && WellFormed(noise)
    ensures GroupsNeverInfinite(groupFactor)
  {
    (g: SnrGroup) => (var band :- GroupBand(ctx, g, noise); Ok(BandFactor(ctx, band)))
  }

  /** A group's factor function fails as its band does, and otherwise gives
      each source its `SourceFactor` in that band. */
  lemma GroupFactorAt(ctx: Context, noise: Estimate, g: SnrGroup, s: PointSource, t: real)
    requires IsSqrt(ctx.sqrt) && WellFormed(noise)
    ensures GroupBand(ctx, g, noise).Err? ==> GroupFactor(ctx, noise)(g) == Err(GroupBand(ctx, g, noise).error)
    ensures GroupBand(ctx, g, noise).Ok? ==>
      GroupFactor(ctx, noise)(g).Ok?
      && var band := GroupBand(ctx, g, noise).value;
         GroupFactor(ctx, noise)(g).value(s, t) == SourceFactor(ctx, s, t, band.fmin, band.fmax, band.noiseVar)
  {
  }

  /** `_adjust_snr_local`: no noise sources raise; otherwise the noise sources
      are combined once and every group with an SNR is adjusted. */
  function AdjustSnrLocal(ctx: Context, sources: Dict<PointSource>, groups: seq<SnrGroup>, noise: Dict<PointSource>): (r: Result<Dict<PointSource>>)
    requires IsSqrt(ctx.sqrt)
    ensures |noise.keys| == 0 ==> r == Err(NoNoiseSources)
    ensures |noise.keys| > 0 && CombineSources(Values(noise), ctx.combinedSfreq).Err? ==> r == Err(WaveformShapeMismatch)
    ensures r.Ok? ==> (|noise.keys| > 0 && CombineSources(Values(noise), ctx.combinedSfreq).Ok?
      && r == LocalGroups(sources, groups, GroupFactor(ctx, CombineSources(Values(noise), ctx.combinedSfreq).value)))
  {
    if |noise.keys| == 0 then Err(NoNoiseSources)
    else
      var stcNoise :- CombineSources(Values(noise), ctx.combinedSfreq);
      LocalGroups(sources, groups, GroupFactor(ctx, stcNoise))
  }

  /** Local mode keeps the set of sources, changes only the sources some group
      with an SNR lists, and every such group pairs each name with one target. */
  lemma AdjustSnrLocalFrame(ctx: Context, sources: Dict<PointSource>, groups: seq<SnrGroup>, noise: Dict<PointSource>)
    requires IsSqrt(ctx.sqrt) && Valid(sources)
    requires AdjustSnrLocal(ctx, sources, groups, noise).Ok?
    ensures var d := AdjustSnrLocal(ctx, sources, groups, noise).value;
      Valid(d) && d.keys == sources.keys
      && (forall k :: 0 <= k < |groups| && groups[k].snr.Some? ==> |groups[k].names| == |groups[k].snr.value|)
      && forall n :: n in sources.values && (forall k :: 0 <= k < |groups| ==> !ScaledBy(groups[k], n)) ==>
           d.values[n] == sources.values[n]
  {
  }

  /** In local mode a name listed once across all groups with an SNR is
      multiplied exactly once, by `SourceFactor` of the source as given, in its
      group's band against the noise variance in that band. */
  lemma AdjustSnrLocalScalesOnce(ctx: Context, sources: Dict<PointSource>, groups: seq<SnrGroup>, noise: Dict<PointSource>, k: nat, i: nat)
    requires IsSqrt(ctx.sqrt)
    requires AdjustSnrLocal(ctx, sources, groups, noise).Ok?
    requires k < |groups| && groups[k].snr.Some? && i < |groups[k].names|
    requires forall k', j :: (0 <= k' < |groups| && groups[k'].snr.Some? && 0 <= j < |groups[k'].names|
      && groups[k'].names[j] == groups[k].names[i]) ==> k' == k && j == i
    ensures CombineSources(Values(noise), ctx.combinedSfreq).Ok?
    ensures var name := groups[k].names[i];
      var band := GroupBand(ctx, groups[k], CombineSources(Values(noise), ctx.combinedSfreq).value);
      name in sources.values && band.Ok? && i < |groups[k].snr.value|
      && var f := SourceFactor(ctx, sources.values[name], groups[k].snr.value[i], band.value.fmin, band.value.fmax, band.value.noiseVar);
         f.Ok? && AdjustSnrLocal(ctx, sources, groups, noise).value.values[name] == ScaleSource(sources.values[name], f.value)
  {
    var stcNoise := CombineSources(Values(noise), ctx.combinedSfreq).value;
    var name := groups[k].names[i];
    LocalGroupsScaleOnce(sources, groups, GroupFactor(ctx, stcNoise), k, i);
    GroupFactorAt(ctx, stcNoise, groups[k], sources.values[name], groups[k].snr.value[i]);
  }

  // ----- global mode -----

  /** `_adjust_snr_global` either warns and returns early or scales the sources. */
  datatype GlobalOutcome = Skipped | Adjusted(sources: Dict<PointSource>)

  /** What global mode measures: the combined signal and noise estimates and
      the band read from the parameters. */
  datatype GlobalInputs = GlobalInputs(signal: Estimate, noise: Estimate, fmin: Option<real>, fmax: Option<real>)

  /** The first steps of `_adjust_snr_global`, in order: combine the signal,
      refuse an empty noise dict, combine the noise, read fmin and fmax. */
  function MeasuredInputs(ctx: Context, sources: Dict<PointSource>, noise: Dict<PointSource>, snrParams: SnrParams): (r: Result<GlobalInputs>)
    ensures CombineSources(Values(sources), ctx.combinedSfreq).Err? ==> r == Err(WaveformShapeMismatch)
    ensures CombineSources(Values(sources), ctx.combinedSfreq).Ok? && |noise.keys| == 0 ==> r == Err(NoNoiseSources)
    ensures r.Ok? <==> (CombineSources(Values(sources), ctx.combinedSfreq).Ok? && |noise.keys| > 0
      && CombineSources(Values(noise), ctx.combinedSfreq).Ok? && Param(snrParams, "fmin").Ok? && Param(snrParams, "fmax").Ok?)
    ensures r.Ok? ==> r.value == GlobalInputs(CombineSources(Values(sources), ctx.combinedSfreq).value,
                                              CombineSources(Values(noise), ctx.combinedSfreq).value,
                                              Param(snrParams, "fmin").value, Param(snrParams, "fmax").value)
    ensures r.Ok? ==> WellFormed(r.value.signal) && WellFormed(r.value.noise)
  {
    var signal :- CombineSources(Values(sources), ctx.combinedSfreq);
    if |noise.keys| == 0 then Err(NoNoiseSources)
    else
      var stcNoise :- CombineSources(Values(noise), ctx.combinedSfreq);
      var fmin :- Param(snrParams, "fmin");
      var fmax :- Param(snrParams, "fmax");
      Ok(GlobalInputs(signal, stcNoise, fmin, fmax))
  }

  /** The common factor: the measured inputs, the filtered variance of the
      noise and then of the signal, and `amplitude_adjustment_factor`. */
  function GlobalFactor(ctx: Context, sources: Dict<PointSource>, noise: Dict<PointSource>, snrGlobal: real, snrParams: SnrParams): (r: Result<Float>)
    requires IsSqrt(ctx.sqrt)
    ensures r.Ok? ==> !r.value.Infinite?
    ensures MeasuredInputs(ctx, sources, noise, snrParams).Err? ==> r == Err(MeasuredInputs(ctx, sources, noise, snrParams).error)
  {
    var g :- MeasuredInputs(ctx, sources, noise, snrParams);
    var noiseVar :- SensorSpaceVariance(g.noise, ctx.fwd, g.fmin, g.fmax, true, ctx.bandpass);
    var signalVar :- SensorSpaceVariance(g.signal, ctx.fwd, g.fmin, g.fmax, true, ctx.bandpass);
    AmplitudeAdjustmentFactor(signalVar, noiseVar, snrGlobal, ctx.sqrt)
  }

  function ScaleAll(sources: Dict<PointSource>, f: Float): (r: Dict<PointSource>)
    requires !f.Infinite?
    ensures Valid(sources) ==> Valid(r)
    ensures r.keys == sources.keys && forall n :: n in r.values <==> n in sources.values
    ensures forall n :: n in sources.values ==> r.values[n] == ScaleSource(sources.values[n], f)
  {
    MapValues(sources, (s: PointSource) => ScaleSource(s, f))
  }

  /** `_adjust_snr_global`: no signal sources warn and change nothing (before
      the noise check); otherwise every signal source is multiplied by one
      common factor. */
  function AdjustSnrGlobal(ctx: Context, sources: Dict<PointSource>, noise: Dict<PointSource>, snrGlobal: real, snrParams: SnrParams): (r: Result<GlobalOutcome>)
    requires IsSqrt(ctx.sqrt)
    ensures |sources.keys| == 0 ==> r == Ok(Skipped)
    ensures |sources.keys| > 0 ==> (r.Ok? <==> GlobalFactor(ctx, sources, noise, snrGlobal, snrParams).Ok?)
    ensures |sources.keys| > 0 && r.Err? ==> r.error == GlobalFactor(ctx, sources, noise, snrGlobal, snrParams).error
    ensures |sources.keys| > 0 && r.Ok? ==>
      r.value == Adjusted(ScaleAll(sources, GlobalFactor(ctx, sources, noise, snrGlobal, snrParams).value))
  {
    if |sources.keys| == 0 then Ok(Skipped)
    else
      var f :- GlobalFactor(ctx, sources, noise, snrGlobal, snrParams);
      Ok(Adjusted(ScaleAll(sources, f)))
  }

  /** Global mode keeps the sources' names and multiplies all of them by one
      factor; with no signal sources the missing noise is not reported. */
  lemma GlobalCommonFactor(ctx: Context, sources: Dict<PointSource>, noise: Dict<PointSource>, snrGlobal: real, snrParams: SnrParams)
    requires IsSqrt(ctx.sqrt) && Valid(sources)
    requires AdjustSnrGlobal(ctx, sources, noise, snrGlobal, snrParams).Ok?
    ensures var r := AdjustSnrGlobal(ctx, sources, noise, snrGlobal, snrParams).value;
      r.Skipped? <==> |sources.keys| == 0
    ensures var r := AdjustSnrGlobal(ctx, sources, noise, snrGlobal, snrParams).value;
      r.Adjusted? ==> (Valid(r.sources) && r.sources.keys == sources.keys
        && exists f: Float :: !f.Infinite? && forall n :: n in sources.values ==> r.sources.values[n] == ScaleSource(sources.values[n], f))
  {
    var r := AdjustSnrGlobal(ctx, sources, noise, snrGlobal, snrParams).value;
    if r.Adjusted? {
      var f := GlobalFactor(ctx, sources, noise, snrGlobal, snrParams).value;
      assert forall n :: n in sources.values ==> r.sources.values[n] == ScaleSource(sources.values[n], f);
    }
  }

  lemma ValuesScaled(sources: Dict<PointSource>, f: real)
    requires Valid(sources)
    ensures var ss := Values(sources);
      Values(ScaleAll(sources, Finite(f))) == seq(|ss|, i requires 0 <= i < |ss| => ScaleSource(ss[i], Finite(f)))
  {
  }

  /** The filtered variance of the signal is target times that of the noise. */
  predicate MeetsTarget(ctx: Context, signal: Estimate, noise: Estimate, fmin: Option<real>, fmax: Option<real>, target: real)
    requires WellFormed(signal) && WellFormed(noise)
  {
    var signalVar := SensorSpaceVariance(signal, ctx.fwd, fmin, fmax, true, ctx.bandpass);
    var noiseVar := SensorSpaceVariance(noise, ctx.fwd, fmin, fmax, true, ctx.bandpass);
    signalVar.Ok? && noiseVar.Ok? && Reaches(signalVar.value, noiseVar.value, target)
  }

  /** A finite noise variance, and a signal variance equal to target times it. */
  predicate Reaches(signalVar: Float, noiseVar: Float, target: real)
  {
    noiseVar.Finite? && signalVar == Finite(target * noiseVar.x)
  }

  /** Scaling every source of a dict scales the combined estimate. */
  lemma ScaledSignal(sources: Dict<PointSource>, sfreq: real, f: real)
    requires Valid(sources) && CombineSources(Values(sources), sfreq).Ok?
    ensures CombineSources(Values(ScaleAll(sources, Finite(f))), sfreq) == Ok(ScaleEstimate(CombineSources(Values(sources), sfreq).value, f))
  {
    ValuesScaled(sources, f);
    ScaledCombination(Values(sources), sfreq, f);
  }

  /** Scaling a signal estimate by the factor computed from its variance and
      the noise's makes it meet the target. */
  lemma ScaledMeetsTarget(ctx: Context, signal: Estimate, noise: Estimate, fmin: Option<real>, fmax: Option<real>, target: real, f: real)
    requires IsSqrt(ctx.sqrt) && WellFormed(signal) && WellFormed(noise)
    requires var sv := SensorSpaceVariance(signal, ctx.fwd, fmin, fmax, true, ctx.bandpass);
      var nv := SensorSpaceVariance(noise, ctx.fwd, fmin, fmax, true, ctx.bandpass);
      sv.Ok? && nv.Ok? && AmplitudeAdjustmentFactor(sv.value, nv.value, target, ctx.sqrt) == Ok(Finite(f))
    ensures WellFormed(ScaleEstimate(signal, f)) && MeetsTarget(ctx, ScaleEstimate(signal, f), noise, fmin, fmax, target)
  {
    VarianceScales(signal, ctx.fwd, fmin, fmax, true, ctx.bandpass, f);
    FactorOnVariances(SensorSpaceVariance(signal, ctx.fwd, fmin, fmax, true, ctx.bandpass).value,
                      SensorSpaceVariance(noise, ctx.fwd, fmin, fmax, true, ctx.bandpass).value,
                      SensorSpaceVariance(ScaleEstimate(signal, f), ctx.fwd, fmin, fmax, true, ctx.bandpass).value,
                      target, ctx.sqrt, f);
  }

  /** FactorReachesTarget for a variance already multiplied by the square of
      the factor. */
  lemma FactorOnVariances(sv: Float, nv: Float, scaled: Float, target: real, sqrt: real -> real, f: real)
    requires IsSqrt(sqrt) && IsVariance(sv) && IsVariance(nv)
    requires AmplitudeAdjustmentFactor(sv, nv, target, sqrt) == Ok(Finite(f))
    requires scaled == TimesSquare(sv, f)
    ensures Reaches(scaled, nv, target)
  {
    FactorReachesTarget(sv, nv, target, sqrt, f);
  }

  /** A successful global factor is `amplitude_adjustment_factor` of the two
      filtered variances of the measured inputs. */
  lemma GlobalFactorParts(ctx: Context, sources: Dict<PointSource>, noise: Dict<PointSource>, snrGlobal: real, snrParams: SnrParams)
    requires IsSqrt(ctx.sqrt)
    requires GlobalFactor(ctx, sources, noise, snrGlobal, snrParams).Ok?
    ensures MeasuredInputs(ctx, sources, noise, snrParams).Ok?
    ensures var g := MeasuredInputs(ctx, sources, noise, snrParams).value;
      var noiseVar := SensorSpaceVariance(g.noise, ctx.fwd, g.fmin, g.fmax, true, ctx.bandpass);
      var signalVar := SensorSpaceVariance(g.signal, ctx.fwd, g.fmin, g.fmax, true, ctx.bandpass);
      noiseVar.Ok? && signalVar.Ok?
      && GlobalFactor(ctx, sources, noise, snrGlobal, snrParams) == AmplitudeAdjustmentFactor(signalVar.value, noiseVar.value, snrGlobal, ctx.sqrt)
  {
  }

  /** With a finite factor, the scaled signal's variance is the global SNR
      times the noise variance. */
  lemma GlobalReachesTarget(ctx: Context, sources: Dict<PointSource>, noise: Dict<PointSource>, snrGlobal: real, snrParams: SnrParams)
    requires IsSqrt(ctx.sqrt) && Valid(sources)
    requires GlobalFactor(ctx, sources, noise, snrGlobal, snrParams).Ok?
    requires GlobalFactor(ctx, sources, noise, snrGlobal, snrParams).value.Finite?
    ensures Param(snrParams, "fmin").Ok? && Param(snrParams, "fmax").Ok? && CombineSources(Values(noise), ctx.combinedSfreq).Ok?
    ensures CombineSources(Values(ScaleAll(sources, GlobalFactor(ctx, sources, noise, snrGlobal, snrParams).value)), ctx.combinedSfreq).Ok?
    ensures MeetsTarget(ctx, CombineSources(Values(ScaleAll(sources, GlobalFactor(ctx, sources, noise, snrGlobal, snrParams).value)), ctx.combinedSfreq).value,
                        CombineSources(Values(noise), ctx.combinedSfreq).value,
                        Param(snrParams, "fmin").value, Param(snrParams, "fmax").value, snrGlobal)
  {
    GlobalFactorParts(ctx, sources, noise, snrGlobal, snrParams);
    var f := GlobalFactor(ctx, sources, noise, snrGlobal, snrParams).value;
    var g := MeasuredInputs(ctx, sources, noise, snrParams).value;
    ScaledMeetsTarget(ctx, g.signal, g.noise, g.fmin, g.fmax, snrGlobal, f.x);
    ScaledSignal(sources, ctx.combinedSfreq, f.x);
    assert f == Finite(f.x);
  }
}
