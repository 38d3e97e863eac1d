/**
 * Start-up quality detection: device signals are folded into one score,
 * the score picks one of three fixed tiers, and the tier's profile scales
 * the population constants of the particle field, the star field and the
 * fireworks.
 */
module Quality {

  datatype Tier = Low | Medium | High

  datatype Profile = Profile(
    particleScale: real,
    starScale: real,
    fireworkScale: real,
    pixelRatioScale: real,
    sampleStep: nat)

  /** The population constants after scaling by a profile. */
  datatype ScaledCounts = ScaledCounts(
    maxCount: int,
    heartPointCount: int,
    starCount: int,
    burstParticles: int)

  const BaseMaxCount: int := 5600
  const BaseHeartPointCount: int := 4200
  const BaseStarCount: int := 1400
  const BaseBurstParticles: int := 44

  /** Orders the tiers from least to most capable. */
  function Rank(t: Tier): nat {
    match t
    case Low => 0
    case Medium => 1
    case High => 2
  }

  /** The fixed profile of each tier. */
  function ProfileOf(t: Tier): Profile {
    match t
    case Low => Profile(0.56, 0.66, 0.58, 0.86, 5)
    case Medium => Profile(0.78, 0.82, 0.8, 0.95, 4)
    case High => Profile(1.0, 1.0, 1.0, 1.0, 3)
  }

  /**
   * The capability score: `cores` is the reported hardware concurrency
   * (0 when the browser reports none, which falls back to 4), `coarsePointer`
   * stands for a mobile device, `dpr` is the device pixel ratio (0 when
   * absent, which falls back to 1).
   */
  function Score(cores: nat, coarsePointer: bool, dpr: real): (s: real)
    ensures s >= 0.0
  {
    var c := if cores == 0 then 4 else cores;
    var d := if dpr == 0.0 then 1.0 else dpr;
    (c as real * (if coarsePointer then 0.88 else 1.18)) / (if d > 2.0 then 1.25 else 1.0)
  }

  function TierOf(score: real): (t: Tier)
    ensures t == Low <==> score < 3.8
    ensures t == High <==> score >= 6.8
  {
    if score < 3.8 then Low
    else if score < 6.8 then Medium
    else High
  }

  function DetectQuality(cores: nat, coarsePointer: bool, dpr: real): (p: Profile)
    ensures p.sampleStep in {3, 4, 5}
    ensures 0.0 < p.particleScale <= 1.0 && 0.0 < p.fireworkScale <= 1.0
    ensures 0.0 < p.starScale <= 1.0 && 0.0 < p.pixelRatioScale <= 1.0
  {
    ProfileOf(TierOf(Score(cores, coarsePointer, dpr)))
  }

  /** A more capable tier never has a smaller scale or a coarser sampling stride. */
  lemma ProfileMonotone(t1: Tier, t2: Tier)
    requires Rank(t1) <= Rank(t2)
    ensures ProfileOf(t1).particleScale <= ProfileOf(t2).particleScale
    ensures ProfileOf(t1).starScale <= ProfileOf(t2).starScale
    ensures ProfileOf(t1).fireworkScale <= ProfileOf(t2).fireworkScale
    ensures ProfileOf(t1).pixelRatioScale <= ProfileOf(t2).pixelRatioScale
    ensures ProfileOf(t1).sampleStep >= ProfileOf(t2).sampleStep
  {
  }

  /** A higher score never picks a lower tier. */
  lemma TierMonotone(s1: real, s2: real)
    requires s1 <= s2
    ensures Rank(TierOf(s1)) <= Rank(TierOf(s2))
  {
  }

  /**
   * More cores on the same device never lower the profile, and a
   * coarse-pointer (mobile) device never gets a better profile than a
   * fine-pointer one with the same cores and pixel ratio.
   */
  lemma DetectQualityMonotone(cores1: nat, cores2: nat, coarse1: bool, coarse2: bool, dpr: real)
    requires 0 < cores1 <= cores2
    requires coarse2 ==> coarse1
    ensures Rank(TierOf(Score(cores1, coarse1, dpr))) <= Rank(TierOf(Score(cores2, coarse2, dpr)))
  {
    var d := if dpr == 0.0 then 1.0 else dpr;
    var den := if d > 2.0 then 1.25 else 1.0;
    var f1 := if coarse1 then 0.88 else 1.18;
    var f2 := if coarse2 then 0.88 else 1.18;
    assert cores1 as real * f1 <= cores2 as real * f2 by {
      assert f1 <= f2;
      assert cores1 as real * f1 <= cores2 as real * f1;
    }
    assert Score(cores1, coarse1, dpr) <= Score(cores2, coarse2, dpr) by {
      assert Score(cores1, coarse1, dpr) == (cores1 as real * f1) / den;
      assert Score(cores2, coarse2, dpr) == (cores2 as real * f2) / den;
    }
    TierMonotone(Score(cores1, coarse1, dpr), Score(cores2, coarse2, dpr));
  }

  /** The constants rescaled once at start-up by the detected profile (floored). */
  function ScaleCounts(p: Profile): (c: ScaledCounts) {
    ScaledCounts(
      (BaseMaxCount as real * p.particleScale).Floor,
      (BaseHeartPointCount as real * p.particleScale).Floor,
      (BaseStarCount as real * p.starScale).Floor,
      (BaseBurstParticles as real * p.fireworkScale).Floor)
  }

  /**
   * For every detectable profile the heart fits in the particle buffer
   * (so every heart point gets a particle), the buffer never grows beyond
   * its base size, and the burst population starts above the governor's
   * floor of 24.
   */
  lemma ScaledCountsSound(cores: nat, coarsePointer: bool, dpr: real)
    ensures var c := ScaleCounts(DetectQuality(cores, coarsePointer, dpr));
      && 0 < c.heartPointCount <= c.maxCount <= BaseMaxCount
      && 24 < c.burstParticles <= BaseBurstParticles
  {
    var t := TierOf(Score(cores, coarsePointer, dpr));
    match t
    case Low =>
      assert ScaleCounts(ProfileOf(t)) == ScaledCounts(3136, 2352, 924, 25);
    case Medium =>
      assert ScaleCounts(ProfileOf(t)) == ScaledCounts(4368, 3276, 1148, 35);
    case High =>
      assert ScaleCounts(ProfileOf(t)) == ScaledCounts(5600, 4200, 1400, 44);
  }
}
