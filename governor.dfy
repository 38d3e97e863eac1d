/**
 * The runtime quality governor: frames are counted over windows of at
 * least 1.6 s, and after a window whose average frame rate is below 32 the
 * governor downshifts, at most twice over the life of the page: fewer sparks
 * per burst, a longer launch interval and a smaller renderer pixel ratio.
 * A window resize puts the pixel ratio back to its start-up value without
 * resetting the downshift count; resizing is not modelled here.
 */
module Governor {
  import opened Common
  import Quality
  import Fireworks

  const CheckWindowMs: real := 1600.0
  const LowFps: real := 32.0
  const MaxDownshifts: nat := 2
  const BurstFloor: int := 24
  const IntervalCeiling: int := 1900
  const MaxPixelRatio: real := 2.0

  /** Frames per unit of elapsed time, guarding against a zero window. */
  function Fps(frames: nat, elapsed: real): (f: real)
    ensures f >= 0.0
    ensures elapsed >= 0.001 ==> f * elapsed == frames as real
  {
    frames as real / MaxReal(0.001, elapsed)
  }

  /** A downshift happens after a slow window while fewer than two have happened. */
  predicate Downshift(fps: real, downshifted: nat) {
    fps < LowFps && downshifted < MaxDownshifts
  }

  /** Sparks per burst after a downshift: 22% fewer, never below 24. */
  function NextBurst(b: int): (r: int)
    ensures r >= BurstFloor
    ensures b > BurstFloor ==> r < b
    ensures b <= BurstFloor ==> r == BurstFloor
    ensures r as real > b as real * 0.78 - 1.0
    ensures r == BurstFloor || (b as real * 0.78 - 1.0 < r as real <= b as real * 0.78)
  {
    MaxInt(BurstFloor, (b as real * 0.78).Floor)
  }

  /** The launch interval after a downshift: 18% longer, never above 1900 ms. */
  function NextInterval(i: int): (r: int)
    ensures r <= IntervalCeiling
    ensures 0 <= i ==> MinInt(i, IntervalCeiling) <= r
    ensures 6 <= i < IntervalCeiling ==> r > i
    ensures r == IntervalCeiling || (i as real * 1.18 - 1.0 < r as real <= i as real * 1.18)
  {
    MinInt(IntervalCeiling, (i as real * 1.18).Floor)
  }

  /** Both adjustments are monotone: a larger setting never ends up smaller. */
  lemma NextMonotone(a: int, b: int)
    requires a <= b
    ensures NextBurst(a) <= NextBurst(b)
    ensures NextInterval(a) <= NextInterval(b)
  {
    assert a as real * 0.78 <= b as real * 0.78;
    assert a as real * 1.18 <= b as real * 1.18;
  }

  /**
   * The start-up pixel ratio: the device ratio (1 when absent, given as 0)
   * capped by 2 times the quality profile's scale.
   */
  function InitialPixelRatio(dpr: real, p: Quality.Profile): (r: real)
    ensures r <= MaxPixelRatio * p.pixelRatioScale
    ensures r <= (if dpr == 0.0 then 1.0 else dpr)
    ensures r == MaxPixelRatio * p.pixelRatioScale || r == (if dpr == 0.0 then 1.0 else dpr)
  {
    MinReal(if dpr == 0.0 then 1.0 else dpr, MaxPixelRatio * p.pixelRatioScale)
  }

  /** The pixel ratio a downshift sets, as the code computes it: 88% of it, but at least 1. */
  function NextPixelRatioAsWritten(pr: real): (r: real)
    ensures r >= 1.0
    ensures r >= pr * 0.88
  {
    MaxReal(1.0, pr * 0.88)
  }

  /**
   * On a device reporting a pixel ratio of 0.5 the start-up ratio is 0.5,
   * and the downshift meant to lower the rendering cost doubles the ratio
   * (four times the pixels).
   */
  lemma PixelRatioRaisedByDownshift()
    ensures var pr := InitialPixelRatio(0.5, Quality.ProfileOf(Quality.Low));
      pr == 0.5 && NextPixelRatioAsWritten(pr) == 1.0 && NextPixelRatioAsWritten(pr) > pr
  {
  }

  /** A downshift's pixel ratio that never exceeds the current one. */
  function NextPixelRatio(pr: real): (r: real)
    ensures r <= pr
    ensures r >= MinReal(pr, 1.0)
    ensures pr >= 1.0 ==> r == NextPixelRatioAsWritten(pr)
  {
    MinReal(pr, MaxReal(1.0, pr * 0.88))
  }

  /** A positive pixel ratio stays positive and never grows under repeated downshifts. */
  lemma PixelRatioDescends(pr: real, n: nat)
    requires pr > 0.0
    ensures 0.0 < IterPixelRatio(pr, n) <= pr
  {
    if n > 0 {
      PixelRatioDescends(pr, n - 1);
    }
  }

  function IterPixelRatio(pr: real, n: nat): real {
    if n == 0 then pr else NextPixelRatio(IterPixelRatio(pr, n - 1))
  }

  /** The frame-rate monitor (`app.fps`) plus the renderer's pixel ratio. */
  class FpsMonitor {
    var frames: nat
    var elapsed: real
    var lastCheck: real
    var downshifted: nat
    var pixelRatio: real
    /** The average frame rates of the windows closed so far. */
    ghost var windowRates: seq<real>

    /** The downshift counter is the one `Downshifts` gives for the windows so far. */
    ghost predicate Valid()
      reads this
    {
      downshifted == Downshifts(windowRates, 0) && elapsed >= 0.0 && pixelRatio > 0.0
    }

    constructor (pixelRatio: real)
      requires pixelRatio > 0.0
      ensures Valid()
      ensures frames == 0 && elapsed == 0.0 && lastCheck == 0.0 && downshifted == 0
      ensures this.pixelRatio == pixelRatio && windowRates == []
    {
      frames := 0;
      elapsed := 0.0;
      lastCheck := 0.0;
      downshifted := 0;
      this.pixelRatio := pixelRatio;
      windowRates := [];
    }

    /**
     * Counts the frame; once a window of 1.6 s has passed, measures the
     * average rate, starts a new window and, on a slow window, downshifts.
     */
    method UpdatePerformance(dt: real, now: real, fw: Fireworks.FireworkSim)
      requires Valid() && dt >= 0.0
      modifies this, fw`interval, fw`burstParticles
      ensures Valid()
      ensures now - old(lastCheck) < CheckWindowMs ==>
        && frames == old(frames) + 1 && elapsed == old(elapsed) + dt
        && lastCheck == old(lastCheck) && downshifted == old(downshifted)
        && pixelRatio == old(pixelRatio) && windowRates == old(windowRates)
        && fw.interval == old(fw.interval) && fw.burstParticles == old(fw.burstParticles)
      ensures now - old(lastCheck) >= CheckWindowMs ==>
        var shift := Downshift(Fps(old(frames) + 1, old(elapsed) + dt), old(downshifted));
        && frames == 0 && elapsed == 0.0 && lastCheck == now
        && windowRates == old(windowRates) + [Fps(old(frames) + 1, old(elapsed) + dt)]
        && downshifted == old(downshifted) + (if shift then 1 else 0)
        && pixelRatio == (if shift then NextPixelRatio(old(pixelRatio)) else old(pixelRatio))
        && fw.burstParticles == (if shift then NextBurst(old(fw.burstParticles)) else old(fw.burstParticles))
        && fw.interval == (if shift then NextInterval(old(fw.interval)) else old(fw.interval))
      ensures downshifted > old(downshifted) ==>
        fw.burstParticles >= BurstFloor && fw.interval <= IntervalCeiling && pixelRatio <= old(pixelRatio)
    {
      frames := frames + 1;
      elapsed := elapsed + dt;
      if now - lastCheck < CheckWindowMs {
        return;
      }
      var fps := Fps(frames, elapsed);
      frames := 0;
      elapsed := 0.0;
      lastCheck := now;
      DownshiftsSnoc(windowRates, fps, 0);
      windowRates := windowRates + [fps];
      if fps < LowFps && downshifted < MaxDownshifts {
        downshifted := downshifted + 1;
        fw.burstParticles := NextBurst(fw.burstParticles);
        fw.interval := NextInterval(fw.interval);
        pixelRatio := NextPixelRatio(pixelRatio);
      }
    }
  }

  /**
   * Over any run of windows the governor downshifts at most twice: the
   * number of downshifts after a sequence of window rates never exceeds 2,
   * and it grows by one exactly on a slow window taken while fewer than two
   * have happened.
   */
  function Downshifts(rates: seq<real>, start: nat): (n: nat)
    requires start <= MaxDownshifts
    ensures start <= n <= MaxDownshifts
  {
    if |rates| == 0 then start
    else Downshifts(rates[1..], start + (if Downshift(rates[0], start) then 1 else 0))
  }

  /** Counting one more window continues from the count of the earlier ones. */
  lemma {:induction false} DownshiftsSnoc(rates: seq<real>, r: real, start: nat)
    requires start <= MaxDownshifts
    ensures Downshifts(rates + [r], start) ==
      Downshifts(rates, start) + (if Downshift(r, Downshifts(rates, start)) then 1 else 0)
  {
    if |rates| == 0 {
      assert rates + [r] == [r];
      assert [r][1..] == [];
    } else {
      assert (rates + [r])[1..] == rates[1..] + [r];
      DownshiftsSnoc(rates[1..], r, start + (if Downshift(rates[0], start) then 1 else 0));
    }
  }

  /** Enough slow windows in a row use up both downshifts. */
  lemma {:induction false} SlowWindowsExhaust(rates: seq<real>, start: nat)
    requires start <= MaxDownshifts
    requires |rates| >= MaxDownshifts - start
    requires forall k | 0 <= k < |rates| :: rates[k] < LowFps
    ensures Downshifts(rates, start) == MaxDownshifts
  {
    if start < MaxDownshifts {
      assert rates[0] < LowFps;
      SlowWindowsExhaust(rates[1..], start + 1);
    }
  }
}
