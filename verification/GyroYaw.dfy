/** Streaming statistics: what a running mean and a running sum of squares stand for. */
module Statistics {
  import opened Motion

  datatype Observation = Observation(now: nat, raw: real, valid: bool, stationary: bool)

  ghost function Sum(w: seq<Observation>): real {
    if w == [] then 0.0 else Sum(w[..|w| - 1]) + w[|w| - 1].raw
  }

  function Square(x: real): (s: real) {
    x * x
  }

  /** The sum of squared distances from `m`. */
  ghost function Deviation(w: seq<Observation>, m: real): real {
    if w == [] then 0.0 else Deviation(w[..|w| - 1], m) + Square(w[|w| - 1].raw - m)
  }

  lemma SquareSign(x: real)
    ensures Square(x) >= 0.0
  {
  }

  lemma {:induction false} DeviationSign(w: seq<Observation>, m: real)
    ensures Deviation(w, m) >= 0.0
  {
    hide Square;
    if w != [] {
      DeviationSign(w[..|w| - 1], m);
      SquareSign(w[|w| - 1].raw - m);
    }
  }

  /** Squared distances from two centres differ by this much. */
  lemma SquareShift(x: real, m: real, k: real)
    ensures Square(x - k) == Square(x - m) + Times(m - k, 2.0 * x - m - k)
  {
  }

  lemma TimesAdds(a: real, b: real, c: real)
    ensures Times(a, b + c) == Times(a, b) + Times(a, c)
  {
  }

  /** `n` times a real. */
  function Scaled(n: nat, a: real): real {
    n as real * a
  }

  lemma ScaledNext(n: nat, a: real)
    ensures Scaled(n + 1, a) == Scaled(n, a) + a && Scaled(0, a) == 0.0
  {
  }

  lemma TimesZero(a: real)
    ensures Times(a, 0.0) == 0.0
  {
  }

  lemma {:induction false} DeviationShift(w: seq<Observation>, m: real, k: real)
    ensures Deviation(w, k) == Deviation(w, m) + Times(m - k, 2.0 * Sum(w) - Scaled(|w|, m + k))
  {
    hide Square, Times, Scaled;
    if w == [] {
      ScaledNext(0, m + k);
      TimesZero(m - k);
    } else {
      var n := |w| - 1;
      var x, s := w[n].raw, Sum(w[..n]);
      DeviationShift(w[..n], m, k);
      SquareShift(x, m, k);
      ScaledNext(n, m + k);
      TimesAdds(m - k, 2.0 * s - Scaled(n, m + k), 2.0 * x - m - k);
      assert 2.0 * Sum(w) - Scaled(n + 1, m + k) == 2.0 * s - Scaled(n, m + k) + (2.0 * x - m - k);
    }
  }

  function Quotient(a: real, n: nat): real
    requires n > 0
  {
    a / n as real
  }

  /** Adding `x` to `n` values of mean `m` makes the mean `k`. */
  lemma MeanMoves(n: nat, m: real, x: real, k: real)
    requires k == m + Quotient(x - m, n + 1)
    ensures Scaled(n + 1, k) == Scaled(n, m) + x
  {
    assert (n + 1) as real * Quotient(x - m, n + 1) == x - m;
  }

  /** The new mean splits the new value's square between the old and the new distance. */
  lemma NewSquare(n: nat, m: real, x: real, k: real)
    requires Scaled(n + 1, k) == Scaled(n, m) + x
    ensures Times(m - k, 2.0 * Scaled(n, m) - Scaled(n, m + k)) + Square(x - k) == Times(x - m, x - k)
  {
    var r := n as real;
    assert r * (m - k) == k - x;
  }

  /** One step of the streaming computation keeps the exact mean and the exact deviation from it. */
  lemma StreamingStep(w: seq<Observation>, o: Observation, m: real, d: real, k: real)
    requires Scaled(|w|, m) == Sum(w) && d == Deviation(w, m)
    requires k == m + Quotient(o.raw - m, |w| + 1)
    ensures Scaled(|w + [o]|, k) == Sum(w + [o])
    ensures d + Times(o.raw - m, o.raw - k) == Deviation(w + [o], k)
  {
    hide Times, Square, Scaled, Quotient;
    var n := |w|;
    assert (w + [o])[..n] == w;
    MeanMoves(n, m, o.raw, k);
    NewSquare(n, m, o.raw, k);
    DeviationShift(w, m, k);
  }
}

/** The yaw-rate gyro: a bias measured over one quiet window, then a low-pass filtered rate. */
module GyroYaw {
  import opened Motion
  import opened Common
  import opened Sequences
  import opened Statistics

  datatype Config = Config(windowUs: nat, maxGapUs: nat, minSamples: nat, maxBias: real, maxStddev: real, lpfHz: real)

  /** The sample standard deviation is over the limit; a single sample has an infinite one. */
  predicate TooNoisy(n: nat, m2: real, limit: real) {
    n <= 1 || limit < 0.0 || m2 / (n - 1) as real > Square(limit)
  }

  /** Comparing with a square root is what `TooNoisy` does without one. */
  lemma RootComparison(n: nat, m2: real, limit: real, root: real)
    requires n > 1 && root >= 0.0 && Square(root) == m2 / (n - 1) as real
    ensures TooNoisy(n, m2, limit) <==> root > limit
  {
    hide Square;
    if limit >= 0.0 {
      SquareOrder(root, limit);
    }
  }

  lemma SquareOrder(a: real, b: real)
    requires a >= 0.0 && b >= 0.0
    ensures Square(a) > Square(b) <==> a > b
  {
    hide Square, Times;
    DifferenceOfSquares(a, b);
    if a > b {
      TimesSign(a - b, a + b);
    } else {
      DifferenceOfSquares(b, a);
      TimesSign(b - a, a + b);
    }
  }

  lemma DifferenceOfSquares(a: real, b: real)
    ensures Square(a) - Square(b) == Times(a - b, b + a)
  {
  }

  lemma TimesSign(a: real, b: real)
    requires a >= 0.0 && b >= 0.0
    ensures Times(a, b) >= 0.0 && (a > 0.0 && b > 0.0 ==> Times(a, b) > 0.0)
  {
  }

  lemma ProductSign(a: real, b: real)
    requires a >= 0.0 && b >= 0.0
    ensures a * b >= 0.0
  {
  }

  /** Two samples with nothing missing between them. */
  predicate Adjacent(a: Observation, b: Observation, maxGapUs: nat) {
    a.now < b.now <= a.now + maxGapUs
  }

  /** Valid samples only, each soon after the one before. */
  ghost predicate Unbroken(w: seq<Observation>, maxGapUs: nat) {
    && (forall i :: 0 <= i < |w| ==> w[i].valid)
    && (forall i :: 0 < i < |w| ==> Adjacent(w[i - 1], w[i], maxGapUs))
  }

  ghost predicate Still(w: seq<Observation>) {
    forall i :: 0 <= i < |w| ==> w[i].stationary
  }

  predicate Spans(w: seq<Observation>, cfg: Config) {
    |w| > 0 && w[|w| - 1].now - w[0].now >= cfg.windowUs
  }

  /** `m` is the exact mean of the window, and neither the mean nor the spread is too large. */
  ghost predicate Passes(w: seq<Observation>, m: real, cfg: Config) {
    && |w| >= cfg.minSamples
    && Scaled(|w|, m) == Sum(w)
    && Abs(m) <= cfg.maxBias
    && !TooNoisy(|w|, Deviation(w, m), cfg.maxStddev)
  }

  /** The corrected samples lie between `lo` and `hi`. */
  ghost predicate Inside(w: seq<Observation>, bias: real, lo: real, hi: real) {
    forall i :: 0 <= i < |w| ==> lo <= w[i].raw - bias <= hi
  }

  /** The rate is inside every interval that holds the corrected samples. */
  ghost predicate InHull(rate: real, w: seq<Observation>, bias: real) {
    forall lo, hi :: Inside(w, bias, lo, hi) ==> lo <= rate <= hi
  }

  /** Moving part of the way towards a new sample stays in the hull. */
  lemma FilterStays(rate: real, w: seq<Observation>, bias: real, o: Observation, alpha: real)
    requires InHull(rate, w, bias) && 0.0 <= alpha <= 1.0
    ensures InHull(rate + Times(alpha, o.raw - bias - rate), w + [o], bias)
  {
    hide Times;
    forall lo, hi | Inside(w + [o], bias, lo, hi)
      ensures lo <= rate + Times(alpha, o.raw - bias - rate) <= hi
    {
      assert forall i :: 0 <= i < |w| ==> w[i] == (w + [o])[i];
      assert Inside(w, bias, lo, hi);
      assert (w + [o])[|w|] == o;
      Convex(rate, o.raw - bias, alpha, lo, hi);
    }
  }

  lemma Convex(a: real, b: real, alpha: real, lo: real, hi: real)
    requires lo <= a <= hi && lo <= b <= hi && 0.0 <= alpha <= 1.0
    ensures lo <= a + Times(alpha, b - a) <= hi
  {
    var d := if b >= a then b - a else a - b;
    ProductSign(alpha, d);
    ProductSign(1.0 - alpha, d);
    assert (1.0 - alpha) * d == d - alpha * d;
    assert alpha * (b - a) == if b >= a then alpha * d else -(alpha * d);
  }

  lemma TakesSample(rate: real, bias: real, o: Observation)
    ensures InHull(rate + Times(1.0, o.raw - bias - rate), [o], bias)
  {
    assert [o][0] == o;
  }

  lemma LatestLast(h: seq<Observation>, n: nat)
    requires 0 < n <= |h|
    ensures Suffix(h, n)[n - 1] == h[|h| - 1]
  {
  }

  ghost function MeanOf(w: seq<Observation>): real {
    if w == [] then 0.0 else Quotient(Sum(w), |w|)
  }

  lemma MeanIsExact(w: seq<Observation>, m: real)
    requires w != [] && Scaled(|w|, m) == Sum(w)
    ensures m == MeanOf(w)
  {
  }

  class Gyro {
    const cfg: Config
    var windowStartUs: nat
    var lastSampleUs: nat
    var samples: nat
    var rejectedWindows: nat
    var mean: real
    var m2: real
    var bias: real
    var rate: real
    var calibrated: bool
    var sampleValid: bool
    var windowStarted: bool
    /** Everything observed so far, the stretch that calibrated, and how long the last unbroken run is. */
    ghost var history: seq<Observation>
    ghost var from: nat
    ghost var to: nat
    ghost var run: nat

    /** The last `n` observations. */
    ghost function Latest(n: nat): (w: seq<Observation>)
      requires n <= |history|
      reads `history
      ensures |w| == n
    {
      Suffix(history, n)
    }

    /** What is known of the last sample. */
    ghost predicate Sampled()
      reads `sampleValid, `history, `lastSampleUs
    {
      && (sampleValid <==> |history| > 0 && history[|history| - 1].valid)
      && (sampleValid ==> history[|history| - 1].now == lastSampleUs)
    }

    /** The statistics describe exactly the last `samples` observations, a quiet unbroken run. */
    ghost predicate Measuring()
      reads `samples, `mean, `m2, `windowStarted, `windowStartUs, `lastSampleUs, `sampleValid, `history
    {
      && samples <= |history|
      && (windowStarted <==> samples > 0)
      && (samples > 0 ==> sampleValid && windowStartUs == Latest(samples)[0].now <= lastSampleUs)
      && Unbroken(Latest(samples), cfg.maxGapUs) && Still(Latest(samples))
      && Scaled(samples, mean) == Sum(Latest(samples))
      && m2 == Deviation(Latest(samples), mean)
    }

    /** The bias is the exact mean of one quiet unbroken run that was long and steady enough. */
    ghost predicate Measured()
      reads `from, `to, `history, `bias
    {
      && from <= to <= |history|
      && Unbroken(history[from..to], cfg.maxGapUs) && Still(history[from..to])
      && Spans(history[from..to], cfg) && Passes(history[from..to], bias, cfg)
    }

    /** The rate is within the corrected samples of the last unbroken run. */
    ghost predicate Tracking()
      reads `sampleValid, `run, `history, `rate, `bias
    {
      sampleValid ==>
        && 0 < run <= |history|
        && Unbroken(Latest(run), cfg.maxGapUs)
        && InHull(rate, Latest(run), bias)
    }

    ghost predicate Valid()
      reads this
    {
      Sampled() && if calibrated then Measured() && Tracking() else Measuring()
    }

    constructor (cfg: Config)
      ensures Valid() && !calibrated && !sampleValid && this.cfg == cfg && history == []
    {
      this.cfg := cfg;
      windowStartUs, lastSampleUs, samples, rejectedWindows := 0, 0, 0, 0;
      mean, m2, bias, rate := 0.0, 0.0, 0.0, 0.0;
      calibrated, sampleValid, windowStarted := false, false, false;
      history, from, to, run := [], 0, 0, 0;
    }

    predicate Gap(now: nat)
      reads this
    {
      !sampleValid || now <= lastSampleUs || now - lastSampleUs > cfg.maxGapUs
    }

    /** The rate, unless the gyro is uncalibrated or its last sample is invalid or too old. */
    method Get(now: nat) returns (r: Option<real>)
      requires Valid()
      ensures r == if calibrated && sampleValid && lastSampleUs <= now <= lastSampleUs + cfg.maxGapUs
                   then Some(rate) else None
      ensures r.Some? ==> 0 < run <= |history| && InHull(r.value, Latest(run), bias) && Measured()
    {
      r := if !calibrated || !sampleValid || now < lastSampleUs || now - lastSampleUs > cfg.maxGapUs
           then None else Some(rate);
    }

    method RestartWindow()
      modifies `samples, `mean, `m2, `windowStarted
      ensures samples == 0 && !windowStarted && mean == 0.0 && m2 == 0.0
    {
      samples, mean, m2 := 0, 0.0, 0.0;
      windowStarted := false;
    }

    /** The window that a quiet sample continues or, after a gap, begins. */
    ghost function Window(o: Observation): seq<Observation>
      requires samples <= |history|
      reads this
    {
      (if Gap(o.now) then [] else Latest(samples)) + [o]
    }

    /** Adds a quiet sample to the statistics. */
    method Accumulate(o: Observation)
      requires Sampled() && Measuring() && o.valid && o.stationary
      modifies `samples, `mean, `m2, `windowStarted, `windowStartUs, `sampleValid, `lastSampleUs, `history
      ensures Sampled() && sampleValid && lastSampleUs == o.now && history == old(history) + [o]
      ensures Measuring() && samples > 0 && Latest(samples) == old(Window(o))
    {
      hide Sum, Deviation, Scaled, Square, Times, Quotient, Unbroken, Still, Suffix;
      ghost var w := if Gap(o.now) then [] else Latest(samples);
      var gap := Gap(o.now);
      lastSampleUs, sampleValid := o.now, true;
      if gap {
        RestartWindow();
        EmptyStatistics();
      }
      if !windowStarted {
        windowStartUs := o.now;
        windowStarted := true;
      }
      SuffixGrows(history, samples, o);
      history := history + [o];
      StreamingStep(w, o, mean, m2, mean + Quotient(o.raw - mean, samples + 1));
      UnbrokenGrows(w, o, cfg.maxGapUs);
      StillGrows(w, o);
      samples := samples + 1;
      var delta := o.raw - mean;
      mean := mean + Quotient(delta, samples);
      m2 := m2 + Times(delta, o.raw - mean);
    }

    /** The low-pass filter: all the way to the corrected sample after a gap or without a filter. */
    function Filtered(raw: real, gap: bool, alpha: real, before: real): real
      reads `bias
    {
      before + Times(if gap || cfg.lpfHz <= 0.0 then 1.0 else alpha, raw - bias - before)
    }

    /** Moves the rate towards a sample: all the way after a gap or without a filter. */
    method Filter(o: Observation, gap: bool, alpha: real, ghost before: seq<Observation>)
      requires calibrated && Measured() && o.valid && 0.0 <= alpha <= 1.0
      requires history == before + [o] && sampleValid && lastSampleUs == o.now
      requires !gap ==> 0 < run <= |before| && InHull(rate, Suffix(before, run), bias)
      requires !gap ==> Unbroken(Suffix(before, run) + [o], cfg.maxGapUs)
      modifies `rate, `run
      ensures Valid() && run == if gap then 1 else old(run) + 1
      ensures rate == Filtered(o.raw, gap, alpha, old(rate))
    {
      hide Unbroken, Still, InHull, Passes, Times, Measured, Suffix;
      var corrected := o.raw - bias;
      var share := if gap || cfg.lpfHz <= 0.0 then 1.0 else alpha;
      if gap {
        SuffixGrows(before, 0, o);
        TakesSample(rate, bias, o);
        EmptyRun(cfg.maxGapUs);
        UnbrokenGrows([], o, cfg.maxGapUs);
        assert Suffix(before, 0) == [] && [] + [o] == [o];
        run := 1;
      } else {
        SuffixGrows(before, run, o);
        FilterStays(rate, Suffix(before, run), bias, o, share);
        run := run + 1;
      }
      WholeStep(corrected - rate);
      rate := rate + Times(share, corrected - rate);
    }

    method ObserveInvalid(o: Observation)
      requires Valid() && !o.valid
      modifies this
      ensures Valid() && history == old(history) + [o] && !sampleValid
      ensures calibrated == old(calibrated) && bias == old(bias) && rate == old(rate)
      ensures rejectedWindows == old(rejectedWindows) && from == old(from) && to == old(to)
    {
      hide Passes, Unbroken, Still;
      sampleValid := false;
      if !calibrated {
        RestartWindow();
        EmptyStatistics();
        EmptyRun(cfg.maxGapUs);
      }
      ghost var before := history;
      history := history + [o];
      assert calibrated ==> history[from..to] == before[from..to];
    }

    method ObserveMoving(o: Observation)
      requires Valid() && o.valid && !calibrated
      modifies this
      ensures Valid() && history == old(history) + [o] && !calibrated && samples == 0 && sampleValid
      ensures rejectedWindows == old(rejectedWindows)
    {
      hide Passes, Unbroken, Still;
      lastSampleUs, sampleValid := o.now, true;
      RestartWindow();
      EmptyStatistics();
      EmptyRun(cfg.maxGapUs);
      history := history + [o];
    }

    /** Ends a window that is long enough: the bias is measured, or the window is thrown away. */
    method Finish(ghost before: seq<Observation>, o: Observation)
      requires Sampled() && Measuring() && !calibrated && samples > 0 && sampleValid && lastSampleUs == o.now
      requires history == before + [o] && o.valid && Spans(Latest(samples), cfg)
      modifies this
      ensures Valid() && history == old(history) && sampleValid
      ensures calibrated <==> Passes(old(Latest(samples)), MeanOf(old(Latest(samples))), cfg)
      ensures calibrated ==>
        && history[from..to] == old(Latest(samples)) && bias == MeanOf(history[from..to]) && rate == o.raw - bias
      ensures rejectedWindows == old(rejectedWindows) + if calibrated then 0 else 1
      ensures !calibrated ==> samples == 0
    {
      hide Unbroken, Still, Sum, Deviation, Scaled, TooNoisy;
      ghost var w := Latest(samples);
      MeanIsExact(w, mean);
      if samples < cfg.minSamples || Abs(mean) > cfg.maxBias || TooNoisy(samples, m2, cfg.maxStddev) {
        rejectedWindows := rejectedWindows + 1;
        RestartWindow();
        EmptyStatistics();
        EmptyRun(cfg.maxGapUs);
        return;
      }
      bias, calibrated := mean, true;
      from, to := |history| - samples, |history|;
      assert history[from..to] == w;
      Filter(o, true, 1.0, before);
    }

    /** One sample: `alpha` is 1 - e^-x for the x >= 0 that the filter frequency and the time step give. */
    method Observe(now: nat, raw: real, valid: bool, stationary: bool, alpha: real)
      requires Valid() && 0.0 <= alpha <= 1.0
      modifies this
      ensures Valid() && history == old(history) + [Observation(now, raw, valid, stationary)]
      ensures old(calibrated) ==> calibrated && bias == old(bias) && from == old(from) && to == old(to)
      ensures sampleValid == valid && (!valid ==> rate == old(rate))
      ensures old(calibrated) && valid ==>
        rate == Filtered(raw, old(Gap(now)), alpha, old(rate)) && run == if old(Gap(now)) then 1 else old(run) + 1
      ensures old(calibrated) && valid ==>
        if old(Gap(now)) || cfg.lpfHz <= 0.0 then rate == raw - bias
        else rate - (raw - bias) == (1.0 - alpha) * (old(rate) - (raw - bias))
      ensures !old(calibrated) ==>
        var w := old(Window(Observation(now, raw, valid, stationary)));
        && (calibrated <==> valid && stationary && Spans(w, cfg) && Passes(w, MeanOf(w), cfg))
        && (calibrated ==> history[from..to] == w && bias == MeanOf(w) && rate == raw - bias)
        && rejectedWindows == old(rejectedWindows) +
           (if valid && stationary && Spans(w, cfg) && !calibrated then 1 else 0)
        && (!calibrated ==>
             samples <= |history| && Latest(samples) == if valid && stationary && !Spans(w, cfg) then w else [])
      ensures var h := old(history);
              var k := |h| - 1;
              old(Gap(now)) <==> k < 0 || !h[k].valid || now <= h[k].now || now > h[k].now + cfg.maxGapUs
    {
      hide Unbroken, Still, Sum, Deviation, Scaled, TooNoisy, Passes, Suffix, InHull, Measured, Tracking, MeanOf;
      var o := Observation(now, raw, valid, stationary);
      var gap := Gap(now);
      if !valid {
        ObserveInvalid(o);
      } else if calibrated {
        FilterContracts(rate, raw - bias, if gap || cfg.lpfHz <= 0.0 then 1.0 else alpha);
        Follow(o, gap, alpha);
      } else if !stationary {
        ObserveMoving(o);
      } else {
        ghost var before := history;
        Accumulate(o);
        if now - windowStartUs >= cfg.windowUs {
          Finish(before, o);
        }
      }
    }

    method Follow(o: Observation, gap: bool, alpha: real)
      requires Valid() && calibrated && o.valid && gap == Gap(o.now) && 0.0 <= alpha <= 1.0
      modifies `lastSampleUs, `sampleValid, `history, `rate, `run
      ensures Valid() && history == old(history) + [o] && sampleValid
      ensures rate == Filtered(o.raw, gap, alpha, old(rate)) && run == if gap then 1 else old(run) + 1
    {
      hide Unbroken, Still, InHull, Passes, Suffix;
      ghost var before := history;
      if !gap {
        LatestLast(before, run);
        UnbrokenGrows(Suffix(before, run), o, cfg.maxGapUs);
      }
      lastSampleUs, sampleValid := o.now, true;
      history := history + [o];
      assert history[from..to] == before[from..to];
      Filter(o, gap, alpha, before);
    }
  }

  /** A step of the filter takes the share `alpha` off the distance to the sample. */
  lemma FilterContracts(rate: real, sample: real, alpha: real)
    ensures rate + Times(alpha, sample - rate) - sample == (1.0 - alpha) * (rate - sample)
  {
  }

  lemma EmptyStatistics()
    ensures Sum([]) == 0.0 && Deviation([], 0.0) == 0.0 && Scaled(0, 0.0) == 0.0
  {
  }

  lemma EmptyRun(maxGapUs: nat)
    ensures Unbroken([], maxGapUs) && Still([])
  {
  }

  lemma WholeStep(a: real)
    ensures Times(1.0, a) == a
  {
  }

  lemma UnbrokenGrows(w: seq<Observation>, o: Observation, maxGapUs: nat)
    requires Unbroken(w, maxGapUs) && o.valid && (w == [] || Adjacent(w[|w| - 1], o, maxGapUs))
    ensures Unbroken(w + [o], maxGapUs)
  {
  }

  lemma StillGrows(w: seq<Observation>, o: Observation)
    requires Still(w) && o.stationary
    ensures Still(w + [o])
  {
  }
}
