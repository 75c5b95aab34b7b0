/**
 * The per-image quality search of auto_quality_optimizer-webp.py: a binary
 * search over the integer quality range that keeps the lowest quality whose
 * trial encoding still reaches the target SSIM.
 *
 * The encoder and the SSIM computation are one abstract oracle per image,
 * `trial: int -> Trial`, giving for each quality what the trial encoding and
 * the comparison with the source image produced.
 */
module QualitySearch {
  import opened Wrappers

  /**
   * The search settings: TARGET_SSIM, MIN_QUALITY and MAX_QUALITY.  SSIM
   * scores are kept on an integer scale of 1/SsimScale, so that comparing a
   * score with the target stays exact.
   */
  datatype Config = Config(targetSsim: int, minQuality: int, maxQuality: int)

  const SsimScale: int := 10000

  /** The source's settings: TARGET_SSIM = 0.98, MIN_QUALITY = 40, MAX_QUALITY = 95. */
  const DefaultConfig: Config := Config(98 * SsimScale / 100, 40, 95)

  /** What comparing the trial encoding with the source image gives. */
  datatype Evaluation =
    | Measured(ssim: int)      // the SSIM score, on the SsimScale
    | EvaluationFailed         // loading, converting or comparing raised

  /** What one trial run of the encoder at some quality gives. */
  datatype Trial =
    | EncoderFailed            // cwebp exited with an error (check=True raises)
    | Encoded(evaluation: Evaluation)

  /** calculate_ssim: the measured score, or 0 when evaluation raised. */
  function CalculateSsim(e: Evaluation): int
  {
    match e
    case Measured(score) => score
    case EvaluationFailed => 0
  }

  /** The search's test: the trial at quality q encoded and its SSIM reached the target. */
  predicate Accepts(trial: int -> Trial, target: int, q: int)
  {
    trial(q).Encoded? && CalculateSsim(trial(q).evaluation) >= target
  }

  /**
   * One run of the search: its result (the best quality, or the quality at
   * which the encoder failed) and the qualities probed, in order.
   */
  datatype Run = Run(result: Result<int, int>, probed: seq<int>)

  /**
   * The search loop from the state (low, high, best_quality) on.  Every probe
   * lies in [low, high], and an encoder failure stops the search at a
   * quality in that range whose trial failed.
   */
  function SearchRun(trial: int -> Trial, target: int, low: int, high: int, best: int): (run: Run)
    ensures forall q :: q in run.probed ==> low <= q <= high
    ensures run.result.Err? ==>
              low <= run.result.error <= high && trial(run.result.error) == EncoderFailed
    decreases high - low + 1
  {
    if low > high then Run(Ok(best), [])
    else
      var quality := (low + high) / 2;  // Python's // on a positive divisor
      match trial(quality)
      case EncoderFailed => Run(Err(quality), [quality])
      case Encoded(e) =>
        var rest :=
          if CalculateSsim(e) >= target then SearchRun(trial, target, low, quality - 1, quality)
          else SearchRun(trial, target, quality + 1, high, best);
        Run(rest.result, [quality] + rest.probed)
  }

  /** The search as the source starts it for one image: best_quality starts at the ceiling. */
  function Search(trial: int -> Trial, cfg: Config): Run
  {
    SearchRun(trial, cfg.targetSsim, cfg.minQuality, cfg.maxQuality, cfg.maxQuality)
  }

  /** Passing at some quality implies passing at every higher quality of [lo, hi]. */
  ghost predicate Monotone(trial: int -> Trial, target: int, lo: int, hi: int)
  {
    forall p, q :: lo <= p <= q <= hi && Accepts(trial, target, p) ==> Accepts(trial, target, q)
  }

  /**
   * q is the smallest passing quality of [lo, hi], or hi when none below hi
   * passes (so also when nothing in the range passes).
   */
  ghost predicate LeastPassing(trial: int -> Trial, target: int, lo: int, hi: int, q: int)
  {
    && lo <= q <= hi
    && (forall p :: lo <= p < q ==> !Accepts(trial, target, p))
    && (Accepts(trial, target, q) || q == hi)
  }

  /** No quality of [lo, hi] makes the encoder fail. */
  ghost predicate EncodesAll(trial: int -> Trial, lo: int, hi: int)
  {
    forall q :: lo <= q <= hi ==> trial(q).Encoded?
  }

  /** No quality of [lo, hi] passes. */
  ghost predicate NonePasses(trial: int -> Trial, target: int, lo: int, hi: int)
  {
    forall q :: lo <= q <= hi ==> !Accepts(trial, target, q)
  }

  /**
   * The result is either the initial best (when no probe passed) or the
   * smallest passing probe.
   */
  lemma {:induction false} SearchResult(trial: int -> Trial, target: int, low: int, high: int, best: int)
    ensures var run := SearchRun(trial, target, low, high, best);
      run.result.Ok? && (forall q :: q in run.probed ==> !Accepts(trial, target, q)) ==>
        run.result.value == best
    ensures var run := SearchRun(trial, target, low, high, best);
      run.result.Ok? && (exists q :: q in run.probed && Accepts(trial, target, q)) ==>
        && run.result.value in run.probed
        && Accepts(trial, target, run.result.value)
        && (forall q :: q in run.probed && Accepts(trial, target, q) ==> run.result.value <= q)
    decreases high - low + 1
  {
    if low <= high {
      var quality := (low + high) / 2;
      if trial(quality).Encoded? {
        if Accepts(trial, target, quality) {
          SearchResult(trial, target, low, quality - 1, quality);
        } else {
          SearchResult(trial, target, quality + 1, high, best);
        }
      }
    }
  }

  /**
   * After a passing probe every later probe is lower, after a failing one
   * every later probe is higher.
   */
  ghost predicate Bracketed(trial: int -> Trial, target: int, p: seq<int>)
  {
    forall i, j :: 0 <= i < j < |p| ==>
      (Accepts(trial, target, p[i]) ==> p[j] < p[i]) && (!Accepts(trial, target, p[i]) ==> p[i] < p[j])
  }

  /** Probing q first and then only on q's side keeps the probes bracketed. */
  lemma BracketedCons(trial: int -> Trial, target: int, q: int, rest: seq<int>)
    requires Bracketed(trial, target, rest)
    requires forall r :: r in rest ==> if Accepts(trial, target, q) then r < q else q < r
    ensures Bracketed(trial, target, [q] + rest)
  {
    var p := [q] + rest;
    forall i, j | 0 <= i < j < |p|
      ensures (Accepts(trial, target, p[i]) ==> p[j] < p[i]) && (!Accepts(trial, target, p[i]) ==> p[i] < p[j])
    {
      assert p[j] == rest[j - 1];
      if i == 0 {
        assert rest[j - 1] in rest;
      } else {
        assert p[i] == rest[i - 1];
      }
    }
  }

  /**
   * The probes of a search are bracketed; in particular no quality is probed
   * twice and the passing probes, and so the successive values of
   * best_quality, strictly decrease.
   */
  lemma {:induction false} ProbesBracket(trial: int -> Trial, target: int, low: int, high: int, best: int)
    ensures Bracketed(trial, target, SearchRun(trial, target, low, high, best).probed)
    decreases high - low + 1
  {
    if low <= high {
      var quality := (low + high) / 2;
      if trial(quality).Encoded? {
        if Accepts(trial, target, quality) {
          ProbesBracket(trial, target, low, quality - 1, quality);
          BracketedCons(trial, target, quality, SearchRun(trial, target, low, quality - 1, quality).probed);
        } else {
          ProbesBracket(trial, target, quality + 1, high, best);
          BracketedCons(trial, target, quality, SearchRun(trial, target, quality + 1, high, best).probed);
        }
      }
    }
  }

  /**
   * Under a monotone oracle the search returns the least passing quality of
   * [lo, hi], or hi when none passes.  The requires are the loop invariant:
   * everything below low fails, and best is high + 1 and passes unless no
   * probe has passed yet.
   */
  lemma {:induction false} SearchFindsLeast(trial: int -> Trial, target: int, lo: int, hi: int,
                                            low: int, high: int, best: int)
    requires lo <= hi && lo <= low && high <= hi && low <= high + 1
    requires Monotone(trial, target, lo, hi)
    requires forall p :: lo <= p < low ==> !Accepts(trial, target, p)
    requires high < hi ==> best == high + 1 && Accepts(trial, target, best)
    requires high == hi ==> best == hi
    ensures var r := SearchRun(trial, target, low, high, best).result;
      r.Ok? ==> LeastPassing(trial, target, lo, hi, r.value)
    decreases high - low + 1
  {
    if low <= high {
      var quality := (low + high) / 2;
      if trial(quality).Encoded? {
        if Accepts(trial, target, quality) {
          SearchFindsLeast(trial, target, lo, hi, low, quality - 1, quality);
        } else {
          assert forall p :: lo <= p < quality + 1 ==> !Accepts(trial, target, p);
          SearchFindsLeast(trial, target, lo, hi, quality + 1, high, best);
        }
      }
    }
  }

  /** When nothing in range makes the encoder fail or passes, the result is the initial best. */
  lemma Fallback(trial: int -> Trial, target: int, low: int, high: int, best: int)
    requires EncodesAll(trial, low, high) && NonePasses(trial, target, low, high)
    ensures SearchRun(trial, target, low, high, best).result == Ok(best)
  {
    var run := SearchRun(trial, target, low, high, best);
    SearchResult(trial, target, low, high, best);
    assert forall q :: q in run.probed ==> !Accepts(trial, target, q);
  }

  /**
   * If every evaluation fails, calculate_ssim gives 0, which is below any
   * positive target, so the search moves up throughout and falls back to
   * the ceiling.
   */
  lemma UnreadableImageFallsBack(trial: int -> Trial, cfg: Config)
    requires cfg.targetSsim > 0
    requires forall q :: cfg.minQuality <= q <= cfg.maxQuality ==> trial(q) == Encoded(EvaluationFailed)
    ensures Search(trial, cfg).result == Ok(cfg.maxQuality)
  {
    Fallback(trial, cfg.targetSsim, cfg.minQuality, cfg.maxQuality, cfg.maxQuality);
  }

  /** floor(log2 n). */
  function FloorLog2(n: nat): nat
    requires n >= 1
  {
    if n == 1 then 0 else 1 + FloorLog2(n / 2)
  }

  lemma {:induction false} FloorLog2Monotone(m: nat, n: nat)
    requires 1 <= m <= n
    ensures FloorLog2(m) <= FloorLog2(n)
    decreases n
  {
    if m > 1 {
      FloorLog2Monotone(m / 2, n / 2);
    }
  }

  /** The search over [low, high] probes at most floor(log2(high - low + 1)) + 1 times. */
  lemma {:induction false} ProbeCount(trial: int -> Trial, target: int, low: int, high: int, best: int)
    requires low <= high
    ensures |SearchRun(trial, target, low, high, best).probed| <= FloorLog2(high - low + 1) + 1
    decreases high - low + 1
  {
    var n := high - low + 1;
    var quality := (low + high) / 2;
    if trial(quality).Encoded? {
      var accepted := Accepts(trial, target, quality);
      var low' := if accepted then low else quality + 1;
      var high' := if accepted then quality - 1 else high;
      var best' := if accepted then quality else best;
      var m := high' - low' + 1;
      assert m <= n / 2;
      if m >= 1 {
        ProbeCount(trial, target, low', high', best');
        FloorLog2Monotone(m, n / 2);
      }
    }
  }

  /** With the source's range 40..95 (56 qualities) that is at most 6 probes per image. */
  lemma DefaultProbeCount(trial: int -> Trial)
    ensures |Search(trial, DefaultConfig).probed| <= 6
  {
    ProbeCount(trial, DefaultConfig.targetSsim, 40, 95, 95);
    assert FloorLog2(56) == 1 + FloorLog2(28) == 2 + FloorLog2(14) == 3 + FloorLog2(7)
        == 4 + FloorLog2(3) == 5 + FloorLog2(1) == 5;
  }

  /** What the search for one image guarantees, gathered from the lemmas above. */
  lemma SearchFacts(trial: int -> Trial, cfg: Config)
    requires cfg.minQuality <= cfg.maxQuality
    ensures var r := Search(trial, cfg).result;
      var lo, hi, target := cfg.minQuality, cfg.maxQuality, cfg.targetSsim;
      && (r.Ok? ==> lo <= r.value <= hi)
      && (r.Ok? && r.value != hi ==> Accepts(trial, target, r.value))
      && (r.Err? ==> lo <= r.error <= hi && trial(r.error) == EncoderFailed)
      && (EncodesAll(trial, lo, hi) ==> r.Ok?)
      && (EncodesAll(trial, lo, hi) && NonePasses(trial, target, lo, hi) ==> r == Ok(hi))
      && (r.Ok? && Monotone(trial, target, lo, hi) ==> LeastPassing(trial, target, lo, hi, r.value))
  {
    var lo, hi, target := cfg.minQuality, cfg.maxQuality, cfg.targetSsim;
    SearchResult(trial, target, lo, hi, hi);
    if Monotone(trial, target, lo, hi) {
      SearchFindsLeast(trial, target, lo, hi, lo, hi, hi);
    }
    if EncodesAll(trial, lo, hi) && NonePasses(trial, target, lo, hi) {
      Fallback(trial, target, lo, hi, hi);
    }
  }

  /**
   * With the source's settings and an oracle whose SSIM jumps from 0.97 to
   * 0.99 at quality 60, the search settles on 60.
   */
  lemma ThresholdAtSixty()
    ensures Search(q => Encoded(Measured(if q >= 60 then 9900 else 9700)), DefaultConfig).result == Ok(60)
  {
    var trial := q => Encoded(Measured(if q >= 60 then 9900 else 9700));
    var target := DefaultConfig.targetSsim;
    assert !Accepts(trial, target, 59) && Accepts(trial, target, 60);
    assert Monotone(trial, target, 40, 95);
    assert EncodesAll(trial, 40, 95);
    SearchFacts(trial, DefaultConfig);
  }

  /**
   * The loop invariant of SearchLoop: the search still to run from
   * (low, high, best) yields the full search's result, and its probes
   * complete the ones made so far to the full search's probes.
   */
  ghost predicate Remaining(trial: int -> Trial, target: int, low: int, high: int, best: int,
                            probed: seq<int>, full: Run)
  {
    var run := SearchRun(trial, target, low, high, best);
    run.result == full.result && probed + run.probed == full.probed
  }

  /** One iteration keeps the loop invariant, or ends the search with the quality that failed. */
  lemma ProbeStep(trial: int -> Trial, target: int, low: int, high: int, best: int,
                  probed: seq<int>, full: Run)
    requires low <= high && Remaining(trial, target, low, high, best, probed, full)
    ensures var quality := (low + high) / 2;
      match trial(quality)
      case EncoderFailed => full == Run(Err(quality), probed + [quality])
      case Encoded(e) =>
        if CalculateSsim(e) >= target then Remaining(trial, target, low, quality - 1, quality, probed + [quality], full)
        else Remaining(trial, target, quality + 1, high, best, probed + [quality], full)
  {
    var quality := (low + high) / 2;
    var run := SearchRun(trial, target, low, high, best);
    if trial(quality).Encoded? {
      var next := if CalculateSsim(trial(quality).evaluation) >= target
                  then SearchRun(trial, target, low, quality - 1, quality)
                  else SearchRun(trial, target, quality + 1, high, best);
      assert run.probed == [quality] + next.probed;
      assert (probed + [quality]) + next.probed == probed + run.probed;
    }
  }

  /**
   * The while loop of the search, from the given low, high and
   * best_quality: each probe at the floor midpoint either records a
   * passing quality and searches below it, or searches above.  An encoder
   * failure aborts with the quality that failed.  The loop computes what
   * SearchRun describes, probe for probe.
   */
  method SearchLoop(trial: int -> Trial, target: int, startLow: int, startHigh: int, startBest: int)
    returns (outcome: Result<int, int>, ghost probed: seq<int>)
    ensures outcome == SearchRun(trial, target, startLow, startHigh, startBest).result
    ensures probed == SearchRun(trial, target, startLow, startHigh, startBest).probed
  {
    ghost var full := SearchRun(trial, target, startLow, startHigh, startBest);
    var low, high, bestQuality := startLow, startHigh, startBest;
    probed := [];
    while low <= high
      invariant Remaining(trial, target, low, high, bestQuality, probed, full)
      decreases high - low + 1
    {
      var quality := (low + high) / 2;
      var encoded := trial(quality);
      ProbeStep(trial, target, low, high, bestQuality, probed, full);
      probed := probed + [quality];
      if encoded.EncoderFailed? {
        return Err(quality), probed;
      }
      var currentSsim := CalculateSsim(encoded.evaluation);
      if currentSsim >= target {
        bestQuality := quality;
        high := quality - 1;
      } else {
        low := quality + 1;
      }
    }
    assert probed + [] == probed;
    outcome := Ok(bestQuality);
  }

  /**
   * The search of auto_optimize_images for one image: low, high and
   * best_quality start at the floor, the ceiling and the ceiling, and the
   * loop runs from there.
   */
  method FindBestQuality(trial: int -> Trial, cfg: Config)
    returns (outcome: Result<int, int>, ghost probed: seq<int>)
    requires cfg.minQuality <= cfg.maxQuality
    ensures outcome == Search(trial, cfg).result && probed == Search(trial, cfg).probed
    ensures forall q :: q in probed ==> cfg.minQuality <= q <= cfg.maxQuality
    ensures |probed| <= FloorLog2(cfg.maxQuality - cfg.minQuality + 1) + 1
    ensures outcome.Ok? ==> cfg.minQuality <= outcome.value <= cfg.maxQuality
    ensures outcome.Ok? && outcome.value != cfg.maxQuality ==> Accepts(trial, cfg.targetSsim, outcome.value)
    ensures outcome.Err? ==>
              cfg.minQuality <= outcome.error <= cfg.maxQuality && trial(outcome.error) == EncoderFailed
    ensures EncodesAll(trial, cfg.minQuality, cfg.maxQuality) ==> outcome.Ok?
    ensures EncodesAll(trial, cfg.minQuality, cfg.maxQuality)
              && NonePasses(trial, cfg.targetSsim, cfg.minQuality, cfg.maxQuality) ==>
              outcome == Ok(cfg.maxQuality)
    ensures outcome.Ok? && Monotone(trial, cfg.targetSsim, cfg.minQuality, cfg.maxQuality) ==>
              LeastPassing(trial, cfg.targetSsim, cfg.minQuality, cfg.maxQuality, outcome.value)
  {
    SearchFacts(trial, cfg);
    ProbeCount(trial, cfg.targetSsim, cfg.minQuality, cfg.maxQuality, cfg.maxQuality);
    outcome, probed := SearchLoop(trial, cfg.targetSsim, cfg.minQuality, cfg.maxQuality, cfg.maxQuality);
  }
}
