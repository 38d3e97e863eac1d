/**
 * The 2D firework layer: bursts of sparks of six shapes are spawned at a
 * fixed interval, every spark moves under gravity and drag with a short
 * trail, and burnt-out sparks are removed from the list in place.
 */
module Fireworks {
  import opened Common
  import HeartGeometry

  const Gravity: real := 0.045
  const Drag: real := 0.984
  const TrailCap: nat := 6
  const LaunchIntervalMs: int := 520
  const BurstMultiplierMin: real := 1.2
  const BurstMultiplierMax: real := 2.9
  const SimultaneousBurstsIntro: int := 2
  const SimultaneousBurstsHeart: int := 3
  /** Fewest sparks in one burst. */
  const MinBurstCount: int := 20

  /** The six palette colours, in palette order. */
  datatype FireColor = Gold | Pink | Blue | Violet | Mint | Coral

  const Palette: seq<FireColor> := [Gold, Pink, Blue, Violet, Mint, Coral]

  /** Position of a colour in the palette (`indexOf`). */
  function PaletteIndex(c: FireColor): (k: nat)
    ensures k < |Palette| && Palette[k] == c
  {
    match c
    case Gold => 0
    case Pink => 1
    case Blue => 2
    case Violet => 3
    case Mint => 4
    case Coral => 5
  }

  /**
   * `pickFireColor`: a uniformly drawn palette colour; when it equals the
   * colour to exclude, the next palette colour (cyclically) instead.
   */
  function PickFireColor(u: real, exclude: Option<FireColor>): FireColor
    requires IsRoll(u)
  {
    var k := RollIndex(u, |Palette|);
    var c := Palette[k];
    if exclude.Some? && c == exclude.value then Palette[(PaletteIndex(c) + 1) % |Palette|] else c
  }

  /** `floor(u * n)` for a roll u: an index below n. */
  function RollIndex(u: real, n: nat): (k: nat)
    requires IsRoll(u) && n > 0
    ensures k < n
  {
    RollTimesBound(u, n as real);
    (u * n as real).Floor
  }

  /**
   * The picked colour is never the excluded one, and it is the drawn colour
   * unless that was excluded, in which case it is the drawn colour's
   * successor in the palette.
   */
  lemma PickFireColorSound(u: real, exclude: Option<FireColor>)
    requires IsRoll(u)
    ensures exclude.Some? ==> PickFireColor(u, exclude) != exclude.value
    ensures var drawn := Palette[RollIndex(u, |Palette|)];
      PickFireColor(u, exclude) == (if exclude == Some(drawn) then Palette[(RollIndex(u, |Palette|) + 1) % 6] else drawn)
  {
    var k := RollIndex(u, |Palette|);
    assert PaletteIndex(Palette[k]) == k;
  }

  datatype FireworkType = Peony | Ring | Chrysanthemum | Willow | HeartShape | Spiral

  /** `pickFireworkType`: cumulative thresholds 0.24, 0.43, 0.6, 0.75, 0.88 on one roll. */
  function PickFireworkType(r: real): FireworkType {
    if r < 0.24 then Peony
    else if r < 0.43 then Ring
    else if r < 0.6 then Chrysanthemum
    else if r < 0.75 then Willow
    else if r < 0.88 then HeartShape
    else Spiral
  }

  /** The roll interval [TypeLow(t), TypeHigh(t)) that selects each type. */
  function TypeLow(t: FireworkType): real {
    match t
    case Peony => 0.0
    case Ring => 0.24
    case Chrysanthemum => 0.43
    case Willow => 0.6
    case HeartShape => 0.75
    case Spiral => 0.88
  }

  function TypeHigh(t: FireworkType): real {
    match t
    case Peony => 0.24
    case Ring => 0.43
    case Chrysanthemum => 0.6
    case Willow => 0.75
    case HeartShape => 0.88
    case Spiral => 1.0
  }

  /**
   * Each type is picked on exactly one interval of the roll; the intervals
   * tile [0, 1), so the selection probabilities are 24%, 19%, 17%, 15%,
   * 13% and 12%.
   */
  lemma PickFireworkTypeIntervals(r: real, t: FireworkType)
    requires IsRoll(r)
    ensures PickFireworkType(r) == t <==> TypeLow(t) <= r < TypeHigh(t)
    ensures TypeLow(Peony) == 0.0 && TypeHigh(Spiral) == 1.0
    ensures TypeHigh(Peony) == TypeLow(Ring) && TypeHigh(Ring) == TypeLow(Chrysanthemum)
    ensures TypeHigh(Chrysanthemum) == TypeLow(Willow) && TypeHigh(Willow) == TypeLow(HeartShape)
    ensures TypeHigh(HeartShape) == TypeLow(Spiral)
  {
  }

  /** One spark. `gravity` and `drag` are absent except for willow sparks. */
  datatype FireParticle = FireParticle(
    x: real, y: real, vx: real, vy: real,
    life: real, maxLife: real,
    color: FireColor, size: real,
    gravity: Option<real>, drag: Option<real>,
    trail: seq<Point2>)

  /** The per-spark options of `pushFireParticle`. */
  datatype SparkOptions = SparkOptions(color: FireColor, life: real, size: real, gravity: Option<real>, drag: Option<real>)

  /**
   * The spark `pushFireParticle` appends: full life, its trail just the start
   * point, so a spark pushed with positive life may join the list.
   */
  function NewParticle(x: real, y: real, vx: real, vy: real, opt: SparkOptions): (p: FireParticle)
    ensures p.life == p.maxLife && p.trail == [Point2(x, y)]
    ensures opt.life > 0.0 ==> WellFormed(p)
    ensures p.color == opt.color && p.size == opt.size && p.gravity == opt.gravity && p.drag == opt.drag
  {
    FireParticle(x, y, vx, vy, opt.life, opt.life, opt.color, opt.size, opt.gravity, opt.drag, [Point2(x, y)])
  }

  /** A spark the list may hold: still alive, its trail between one and six points. */
  predicate WellFormed(p: FireParticle) {
    p.life > 0.0 && 1 <= |p.trail| <= TrailCap
  }

  /** Push the new position; beyond six points, drop the oldest. */
  function PushTrail(trail: seq<Point2>, pt: Point2): (r: seq<Point2>)
    ensures |trail| < TrailCap ==> |r| == |trail| + 1
    ensures |trail| >= TrailCap ==> |r| == |trail|
    ensures |r| > 0 && r[|r| - 1] == pt
    ensures r == (trail + [pt])[|trail| + 1 - |r|..]
  {
    var t := trail + [pt];
    if |t| > TrailCap then t[1..] else t
  }

  /** One frame of motion, `step` = dt * 60 frames of 1/60 s. */
  function Step(p: FireParticle, step: real): (q: FireParticle)
    ensures q.life == p.life - step
    ensures |p.trail| <= TrailCap ==> 1 <= |q.trail| <= TrailCap
    ensures q.color == p.color && q.maxLife == p.maxLife && q.size == p.size
    ensures q.gravity == p.gravity && q.drag == p.drag
  {
    var g := p.gravity.GetOr(Gravity);
    var d := p.drag.GetOr(Drag);
    var vx := p.vx * d;
    var vy := (p.vy + g * step) * d;
    var x := p.x + vx * step;
    var y := p.y + vy * step;
    p.(x := x, y := y, vx := vx, vy := vy, life := p.life - step, trail := PushTrail(p.trail, Point2(x, y)))
  }

  /** Every spark stepped once. */
  function Stepped(ps: seq<FireParticle>, step: real): (qs: seq<FireParticle>)
    ensures |qs| == |ps|
  {
    seq(|ps|, i requires 0 <= i < |ps| => Step(ps[i], step))
  }

  /** The sparks whose life is still positive, in their order. */
  function Alive(qs: seq<FireParticle>): (r: seq<FireParticle>)
    ensures |r| <= |qs|
  {
    if qs == [] then [] else (if qs[0].life > 0.0 then [qs[0]] else []) + Alive(qs[1..])
  }

  /** The sparks that are still alive after one step, stepped, in their order. */
  function Survivors(ps: seq<FireParticle>, step: real): seq<FireParticle> {
    Alive(Stepped(ps, step))
  }

  /** Indices of the live sparks, ascending. */
  function AliveIndices(qs: seq<FireParticle>): (idx: seq<nat>)
    ensures |idx| == |Alive(qs)|
  {
    if qs == [] then [] else (if qs[0].life > 0.0 then [0] else []) + Shift(AliveIndices(qs[1..]))
  }

  function Shift(s: seq<nat>): (r: seq<nat>)
    ensures |r| == |s| && forall k | 0 <= k < |s| :: r[k] == s[k] + 1
  {
    seq(|s|, k requires 0 <= k < |s| => s[k] + 1)
  }

  /** Live spark k is the spark at index k of the live indices. */
  lemma {:induction false} AliveIndexed(qs: seq<FireParticle>)
    ensures var idx := AliveIndices(qs);
      forall k | 0 <= k < |idx| :: idx[k] < |qs| && Alive(qs)[k] == qs[idx[k]]
  {
    if qs != [] {
      var tail := qs[1..];
      AliveIndexed(tail);
      var rest := AliveIndices(tail);
      var head := if qs[0].life > 0.0 then [0] else [];
      var idx := AliveIndices(qs);
      var live := Alive(qs);
      assert idx == head + Shift(rest);
      assert live == (if qs[0].life > 0.0 then [qs[0]] else []) + Alive(tail);
      forall k | 0 <= k < |idx|
        ensures idx[k] < |qs| && live[k] == qs[idx[k]]
      {
        if k >= |head| {
          var j := k - |head|;
          assert idx[k] == rest[j] + 1;
          assert live[k] == Alive(tail)[j];
        }
      }
    }
  }

  predicate Ascending(s: seq<nat>) {
    forall k, l | 0 <= k < l < |s| :: s[k] < s[l]
  }

  lemma ShiftAscending(s: seq<nat>)
    requires Ascending(s)
    ensures Ascending(Shift(s)) && Ascending([0] + Shift(s))
  {
    var t := Shift(s);
    var u := [0] + t;
    forall k, l | 0 <= k < l < |u| ensures u[k] < u[l] {
      assert u[l] == s[l - 1] + 1;
      if k > 0 {
        assert u[k] == s[k - 1] + 1;
      }
    }
  }

  /** The live indices are strictly increasing. */
  lemma {:induction false} AliveIndicesAscending(qs: seq<FireParticle>)
    ensures Ascending(AliveIndices(qs))
  {
    if qs != [] {
      var rest := AliveIndices(qs[1..]);
      AliveIndicesAscending(qs[1..]);
      ShiftAscending(rest);
    }
  }

  /** An index is a live index exactly when that spark's life is positive. */
  lemma {:induction false} AliveIndicesComplete(qs: seq<FireParticle>)
    ensures var idx := AliveIndices(qs);
      forall i | 0 <= i < |qs| :: i in idx <==> qs[i].life > 0.0
  {
    if qs != [] {
      var tail := qs[1..];
      AliveIndicesComplete(tail);
      var rest := AliveIndices(tail);
      var shifted := Shift(rest);
      var head := if qs[0].life > 0.0 then [0] else [];
      var idx := AliveIndices(qs);
      assert idx == head + shifted;
      forall i | 0 <= i < |qs|
        ensures i in idx <==> qs[i].life > 0.0
      {
        ShiftMember(rest, i);
        if i > 0 {
          assert qs[i] == tail[i - 1];
        }
      }
    }
  }

  /** Shifting moves membership up by one, and never yields 0. */
  lemma ShiftMember(s: seq<nat>, i: nat)
    ensures i == 0 ==> i !in Shift(s)
    ensures i > 0 ==> (i in Shift(s) <==> i - 1 in s)
  {
    var t := Shift(s);
    if i > 0 && i - 1 in s {
      var k :| 0 <= k < |s| && s[k] == i - 1;
      assert t[k] == i;
    }
  }

  /**
   * The update keeps exactly the sparks whose life stays above zero, each
   * stepped once, in their original relative order.
   */
  lemma SurvivorsExact(ps: seq<FireParticle>, step: real)
    ensures var idx := AliveIndices(Stepped(ps, step));
      && |idx| == |Survivors(ps, step)|
      && (forall k | 0 <= k < |idx| :: idx[k] < |ps| && Survivors(ps, step)[k] == Step(ps[idx[k]], step))
      && Ascending(idx)
      && (forall i | 0 <= i < |ps| :: i in idx <==> Step(ps[i], step).life > 0.0)
  {
    var qs := Stepped(ps, step);
    AliveIndexed(qs);
    AliveIndicesAscending(qs);
    AliveIndicesComplete(qs);
  }

  /** Stepping and filtering a list one spark at a time from the front. */
  lemma SurvivorsCons(ps: seq<FireParticle>, step: real)
    requires |ps| > 0
    ensures Survivors(ps, step) ==
      (if Step(ps[0], step).life > 0.0 then [Step(ps[0], step)] else []) + Survivors(ps[1..], step)
  {
    assert Stepped(ps, step)[1..] == Stepped(ps[1..], step);
  }

  /** Every survivor of a list of well-formed sparks is well-formed again. */
  lemma SurvivorsWellFormed(ps: seq<FireParticle>, step: real)
    requires forall k | 0 <= k < |ps| :: WellFormed(ps[k])
    ensures forall k | 0 <= k < |Survivors(ps, step)| :: WellFormed(Survivors(ps, step)[k])
  {
    SurvivorsExact(ps, step);
    var idx := AliveIndices(Stepped(ps, step));
    forall k | 0 <= k < |Survivors(ps, step)| ensures WellFormed(Survivors(ps, step)[k]) {
      assert idx[k] in idx;
    }
  }

  // ------------------------------------------------------------- emission

  /**
   * The random values behind one spark.  `dir` is (cos a, sin a) of the
   * emission angle; `curve` the angle of the heart shape; `wave` is
   * sin(0.33 i) for chrysanthemums; `extra` is the willow's downward-kick
   * roll, the chrysanthemum's band roll, or pow(u, 0.42) for peonies.
   */
  datatype SparkDraw = SparkDraw(
    dir: Point2, curve: HeartGeometry.Angle,
    speedRoll: real, lifeRoll: real, sizeRoll: real,
    jitterX: real, jitterY: real, extra: real, wave: real)

  predicate ValidSparkDraw(d: SparkDraw) {
    IsRoll(d.speedRoll) && IsRoll(d.lifeRoll) && IsRoll(d.sizeRoll)
    && IsRoll(d.jitterX) && IsRoll(d.jitterY) && IsRoll(d.extra)
  }

  /** The random values behind one burst. */
  datatype BurstDraw = BurstDraw(
    cxRoll: real, cyRoll: real, typeRoll: real, countRoll: real,
    color1Roll: real, color2Roll: real, scaleRoll: real,
    sparks: nat -> SparkDraw)

  ghost predicate ValidBurstDraw(b: BurstDraw) {
    IsRoll(b.cxRoll) && IsRoll(b.cyRoll) && IsRoll(b.typeRoll) && IsRoll(b.countRoll)
    && IsRoll(b.color1Roll) && IsRoll(b.color2Roll) && IsRoll(b.scaleRoll)
    && forall i :: ValidSparkDraw(b.sparks(i))
  }

  /** Sparks in a burst: `max(20, floor(base * between(1.2, 2.9)))`. */
  function BurstCount(base: int, u: real): (n: nat)
    requires IsRoll(u)
    ensures n >= MinBurstCount
    ensures base >= 0 ==> n <= MaxInt(MinBurstCount, (base as real * BurstMultiplierMax).Floor)
  {
    var m := RandomBetween(BurstMultiplierMin, BurstMultiplierMax, u);
    assert base >= 0 ==> base as real * m <= base as real * BurstMultiplierMax;
    MaxInt(MinBurstCount, (base as real * m).Floor)
  }

  /** Which of the two burst colours spark i of `count` gets. */
  function SparkColor(t: FireworkType, i: nat, count: nat, c1: FireColor, c2: FireColor): FireColor {
    match t
    case Ring => if i % 2 == 0 then c1 else c2
    case Willow => if i % 2 == 0 then c1 else c2
    case HeartShape => if i % 3 == 0 then c2 else c1
    case Peony => if i % 3 == 0 then c2 else c1
    case Chrysanthemum => if i % 4 == 0 then c2 else c1
    case Spiral => if count > 0 && (i as real / count as real) > 0.5 then c2 else c1
  }

  /** Life span range per type, in frames. */
  function LifeRange(t: FireworkType): (real, real) {
    match t
    case Ring => (42.0, 68.0)
    case HeartShape => (44.0, 74.0)
    case Spiral => (36.0, 62.0)
    case Willow => (58.0, 92.0)
    case Chrysanthemum => (40.0, 70.0)
    case Peony => (38.0, 66.0)
  }

  /** Spark size range per type. */
  function SizeRange(t: FireworkType): (real, real) {
    match t
    case Ring => (1.0, 1.9)
    case HeartShape => (0.95, 1.75)
    case Spiral => (0.8, 1.6)
    case Willow => (0.95, 1.7)
    case Chrysanthemum => (0.9, 1.8)
    case Peony => (0.9, 1.8)
  }

  /** The velocity of spark i of `count` in a burst of type t. */
  function SparkVelocity(t: FireworkType, i: nat, count: nat, heartScale: real, d: SparkDraw): Point2
    requires ValidSparkDraw(d)
  {
    match t
    case Ring =>
      var speed := RandomBetween(3.2, 5.8, d.speedRoll);
      Point2(d.dir.x * speed, d.dir.y * speed)
    case HeartShape =>
      var h := HeartGeometry.HeartCurve(d.curve);
      Point2(h.x * heartScale + RandomBetween(-0.22, 0.22, d.jitterX),
             -h.y * heartScale + RandomBetween(-0.22, 0.22, d.jitterY))
    case Spiral =>
      var f := if count > 0 then i as real / count as real else 0.0;
      var speed := RandomBetween(1.2, 5.4, d.speedRoll) * (0.4 + f * 0.8);
      Point2(d.dir.x * speed, d.dir.y * speed)
    case Willow =>
      var speed := RandomBetween(2.4, 5.0, d.speedRoll);
      Point2(d.dir.x * speed, d.dir.y * speed - RandomBetween(0.8, 2.0, d.extra))
    case Chrysanthemum =>
      var band := 0.75 + d.wave * 0.25 + d.extra * 0.12;
      var speed := RandomBetween(2.5, 5.6, d.speedRoll) * band;
      Point2(d.dir.x * speed, d.dir.y * speed)
    case Peony =>
      var speed := d.extra * RandomBetween(2.2, 6.2, d.speedRoll);
      Point2(d.dir.x * speed, d.dir.y * speed)
  }

  /** The options of spark i: its colour, life and size, and the willow's own gravity and drag. */
  function SparkOptionsOf(t: FireworkType, i: nat, count: nat, c1: FireColor, c2: FireColor, d: SparkDraw): SparkOptions
    requires ValidSparkDraw(d)
  {
    var color := SparkColor(t, i, count, c1, c2);
    var life := RandomBetween(LifeRange(t).0, LifeRange(t).1, d.lifeRoll);
    var size := RandomBetween(SizeRange(t).0, SizeRange(t).1, d.sizeRoll);
    if t == Willow then SparkOptions(color, life, size, Some(Gravity * 0.72), Some(0.987))
    else SparkOptions(color, life, size, None, None)
  }

  /** The sparks of one burst of type t at (cx, cy). */
  function Emission(t: FireworkType, cx: real, cy: real, base: int, b: BurstDraw): (e: seq<FireParticle>)
    requires ValidBurstDraw(b)
    ensures |e| == BurstCount(base, b.countRoll)
  {
    var count := BurstCount(base, b.countRoll);
    var c1 := PickFireColor(b.color1Roll, None);
    var c2 := PickFireColor(b.color2Roll, Some(c1));
    var heartScale := RandomBetween(0.19, 0.26, b.scaleRoll);
    seq(count, i requires 0 <= i < count =>
      var v := SparkVelocity(t, i, count, heartScale, b.sparks(i));
      NewParticle(cx, cy, v.x, v.y, SparkOptionsOf(t, i, count, c1, c2, b.sparks(i))))
  }

  /**
   * Every spark of a burst starts at the burst centre with a one-point
   * trail and full life inside its type's life range (so at least 36
   * frames), in one of two different colours chosen by the type's index
   * pattern; only willow sparks carry their own gravity and drag.
   */
  lemma EmissionSound(t: FireworkType, cx: real, cy: real, base: int, b: BurstDraw)
    requires ValidBurstDraw(b)
    ensures var e := Emission(t, cx, cy, base, b);
      var c1 := PickFireColor(b.color1Roll, None);
      var c2 := PickFireColor(b.color2Roll, Some(c1));
      && c1 != c2
      && forall i | 0 <= i < |e| ::
        && e[i].x == cx && e[i].y == cy && e[i].trail == [Point2(cx, cy)]
        && e[i].life == e[i].maxLife
        && LifeRange(t).0 <= e[i].life <= LifeRange(t).1
        && SizeRange(t).0 <= e[i].size <= SizeRange(t).1
        && e[i].color == SparkColor(t, i, |e|, c1, c2)
        && (e[i].gravity.Some? <==> t == Willow) && (e[i].drag.Some? <==> t == Willow)
        && WellFormed(e[i])
  {
    PickFireColorSound(b.color2Roll, Some(PickFireColor(b.color1Roll, None)));
  }

  /** A fresh spark outlives the first update of any frame shorter than 36 / 60 s. */
  lemma FreshSparkSurvivesFirstStep(t: FireworkType, cx: real, cy: real, base: int, b: BurstDraw, i: nat, step: real)
    requires ValidBurstDraw(b) && i < |Emission(t, cx, cy, base, b)| && step < 36.0
    ensures Step(Emission(t, cx, cy, base, b)[i], step).life > 0.0
  {
    EmissionSound(t, cx, cy, base, b);
  }

  /** The random values behind one spawn: the burst count and each burst. */
  datatype SpawnDraw = SpawnDraw(totalRoll: real, bursts: nat -> BurstDraw)

  ghost predicate ValidSpawnDraw(s: SpawnDraw) {
    IsRoll(s.totalRoll) && forall b :: ValidBurstDraw(s.bursts(b))
  }

  /** Bursts per spawn: 3 or 4 during the heart stage, 2 or 3 before. */
  function BurstTotal(heartStage: bool, u: real): (n: int)
    requires IsRoll(u)
    ensures heartStage ==> 3 <= n <= 4
    ensures !heartStage ==> 2 <= n <= 3
  {
    if heartStage then RandomInt(SimultaneousBurstsHeart, SimultaneousBurstsHeart + 1, u)
    else RandomInt(SimultaneousBurstsIntro, SimultaneousBurstsIntro + 1, u)
  }

  /** Burst b's centre: x in [8%, 92%] of the width, y in [8%, 58%] of the height. */
  function BurstCentre(w: real, h: real, b: BurstDraw): (c: Point2)
    requires ValidBurstDraw(b)
    ensures w >= 0.0 ==> 0.08 * w <= c.x <= 0.92 * w
    ensures h >= 0.0 ==> 0.08 * h <= c.y <= 0.58 * h
  {
    Point2(RandomBetween(w * 0.08, w * 0.92, b.cxRoll), RandomBetween(h * 0.08, h * 0.58, b.cyRoll))
  }

  function BurstSparks(w: real, h: real, base: int, b: BurstDraw): seq<FireParticle>
    requires ValidBurstDraw(b)
  {
    var c := BurstCentre(w, h, b);
    Emission(PickFireworkType(b.typeRoll), c.x, c.y, base, b)
  }

  /** The sparks of the first n bursts of a spawn, burst by burst. */
  function Bursts(w: real, h: real, base: int, s: SpawnDraw, n: nat): seq<FireParticle>
    requires ValidSpawnDraw(s)
  {
    if n == 0 then [] else Bursts(w, h, base, s, n - 1) + BurstSparks(w, h, base, s.bursts(n - 1))
  }

  function Spawned(heartStage: bool, w: real, h: real, base: int, s: SpawnDraw): seq<FireParticle>
    requires ValidSpawnDraw(s)
  {
    Bursts(w, h, base, s, BurstTotal(heartStage, s.totalRoll))
  }

  /** One more burst appends that burst's sparks. */
  lemma BurstsNext(w: real, h: real, base: int, s: SpawnDraw, n: nat)
    requires ValidSpawnDraw(s)
    ensures ValidBurstDraw(s.bursts(n))
    ensures Bursts(w, h, base, s, n + 1) == Bursts(w, h, base, s, n) + BurstSparks(w, h, base, s.bursts(n))
  {
  }

  /** Every spawned spark is well-formed, and a spawn adds at least 20 sparks per burst. */
  lemma {:induction false} BurstsSound(w: real, h: real, base: int, s: SpawnDraw, n: nat)
    requires ValidSpawnDraw(s)
    ensures forall k | 0 <= k < |Bursts(w, h, base, s, n)| :: WellFormed(Bursts(w, h, base, s, n)[k])
    ensures |Bursts(w, h, base, s, n)| >= MinBurstCount * n
  {
    if n > 0 {
      BurstsSound(w, h, base, s, n - 1);
      var b := s.bursts(n - 1);
      var c := BurstCentre(w, h, b);
      EmissionSound(PickFireworkType(b.typeRoll), c.x, c.y, base, b);
      var prev, next := Bursts(w, h, base, s, n - 1), BurstSparks(w, h, base, b);
      assert Bursts(w, h, base, s, n) == prev + next;
      AllWellFormedConcat(prev, next);
    }
  }

  /**
   * The list stays well-formed from frame to frame: after appending a spawn
   * (or nothing) to a list of well-formed sparks and stepping it, every
   * survivor is alive with a trail of one to six points.
   */
  lemma FrameKeepsWellFormed(ps: seq<FireParticle>, spawn: bool, heartStage: bool,
                             w: real, h: real, base: int, s: SpawnDraw, step: real)
    requires ValidSpawnDraw(s)
    requires forall k | 0 <= k < |ps| :: WellFormed(ps[k])
    ensures var next := Survivors(ps + (if spawn then Spawned(heartStage, w, h, base, s) else []), step);
      forall k | 0 <= k < |next| :: WellFormed(next[k])
  {
    var added := if spawn then Spawned(heartStage, w, h, base, s) else [];
    BurstsSound(w, h, base, s, BurstTotal(heartStage, s.totalRoll));
    AllWellFormedConcat(ps, added);
    SurvivorsWellFormed(ps + added, step);
  }

  /**
   * One step of the backward walk at index i: stepping spark i in place,
   * or splicing it out when its life has run out, extends the processed
   * suffix by one.
   */
  lemma WalkStep(pre: seq<FireParticle>, cur: seq<FireParticle>, i: nat, step: real)
    requires i < |pre| && cur == pre[..i + 1] + Survivors(pre[i + 1..], step)
    ensures i < |cur| && cur[i] == pre[i]
    ensures Step(pre[i], step).life <= 0.0 ==> cur[..i] + cur[i + 1..] == pre[..i] + Survivors(pre[i..], step)
    ensures Step(pre[i], step).life > 0.0 ==> cur[i := Step(pre[i], step)] == pre[..i] + Survivors(pre[i..], step)
  {
    SurvivorsAt(pre, i, step);
    assert pre[..i + 1] == pre[..i] + [pre[i]];
    WalkSplice(pre[..i], pre[i], Survivors(pre[i + 1..], step), Step(pre[i], step), cur);
  }

  /** The survivors of the suffix from i, in terms of the suffix from i + 1. */
  lemma SurvivorsAt(pre: seq<FireParticle>, i: nat, step: real)
    requires i < |pre|
    ensures Survivors(pre[i..], step) ==
      (if Step(pre[i], step).life > 0.0 then [Step(pre[i], step)] else []) + Survivors(pre[i + 1..], step)
  {
    assert pre[i..][1..] == pre[i + 1..];
    SurvivorsCons(pre[i..], step);
  }

  /** The walk's sequence surgery, for any element type. */
  lemma WalkSplice<T>(a: seq<T>, x: T, rest: seq<T>, y: T, cur: seq<T>)
    requires cur == a + [x] + rest
    ensures |a| < |cur| && cur[|a|] == x
    ensures cur[..|a|] + cur[|a| + 1..] == a + ([] + rest)
    ensures cur[|a| := y] == a + ([y] + rest)
  {
    assert cur[..|a|] == a;
    assert cur[|a| + 1..] == rest;
  }

  lemma AllWellFormedConcat(a: seq<FireParticle>, b: seq<FireParticle>)
    requires forall k | 0 <= k < |a| :: WellFormed(a[k])
    requires forall k | 0 <= k < |b| :: WellFormed(b[k])
    ensures forall k | 0 <= k < |a + b| :: WellFormed((a + b)[k])
  {
    forall k | 0 <= k < |a + b| ensures WellFormed((a + b)[k]) {
      if k >= |a| {
        assert (a + b)[k] == b[k - |a|];
      }
    }
  }

  /** The firework layer's state. */
  class FireworkSim {
    var particles: seq<FireParticle>
    var lastSpawnAt: real
    /** Time between spawns in ms; lengthened by the quality governor. */
    var interval: int
    /** Base sparks per burst; lowered by the quality governor. */
    var burstParticles: int
    var viewWidth: real
    var viewHeight: real

    constructor (burstParticles: int, viewWidth: real, viewHeight: real)
      ensures particles == [] && lastSpawnAt == 0.0 && interval == LaunchIntervalMs
      ensures this.burstParticles == burstParticles
      ensures this.viewWidth == viewWidth && this.viewHeight == viewHeight
    {
      particles := [];
      lastSpawnAt := 0.0;
      interval := LaunchIntervalMs;
      this.burstParticles := burstParticles;
      this.viewWidth := viewWidth;
      this.viewHeight := viewHeight;
    }

    method PushFireParticle(x: real, y: real, vx: real, vy: real, opt: SparkOptions)
      modifies this`particles
      ensures particles == old(particles) + [NewParticle(x, y, vx, vy, opt)]
    {
      particles := particles + [NewParticle(x, y, vx, vy, opt)];
    }

    /** Two burst colours, then one loop over the sparks of the burst. */
    method EmitFireworkByType(t: FireworkType, cx: real, cy: real, b: BurstDraw)
      requires ValidBurstDraw(b)
      modifies this`particles
      ensures particles == old(particles) + Emission(t, cx, cy, burstParticles, b)
    {
      var count := BurstCount(burstParticles, b.countRoll);
      var c1 := PickFireColor(b.color1Roll, None);
      var c2 := PickFireColor(b.color2Roll, Some(c1));
      var heartScale := RandomBetween(0.19, 0.26, b.scaleRoll);
      ghost var e := Emission(t, cx, cy, burstParticles, b);
      var i := 0;
      while i < count
        invariant 0 <= i <= count
        invariant particles == old(particles) + e[..i]
      {
        var v := SparkVelocity(t, i, count, heartScale, b.sparks(i));
        PushFireParticle(cx, cy, v.x, v.y, SparkOptionsOf(t, i, count, c1, c2, b.sparks(i)));
        assert e[..i + 1] == e[..i] + [e[i]];
        i := i + 1;
      }
      assert e[..count] == e;
    }

    method SpawnFireworkBurst(heartStage: bool, s: SpawnDraw)
      requires ValidSpawnDraw(s)
      modifies this`particles
      ensures particles == old(particles) + Spawned(heartStage, old(viewWidth), old(viewHeight), old(burstParticles), s)
    {
      var w, h := viewWidth, viewHeight;
      var total := BurstTotal(heartStage, s.totalRoll);
      var b := 0;
      while b < total
        invariant 0 <= b <= total
        invariant particles == old(particles) + Bursts(w, h, burstParticles, s, b)
      {
        EmitBurst(w, h, s, b, old(particles));
        b := b + 1;
      }
    }

    /** Burst b of a spawn: a random centre and type, then its sparks. */
    method EmitBurst(w: real, h: real, s: SpawnDraw, b: nat, ghost before: seq<FireParticle>)
      requires ValidSpawnDraw(s)
      requires particles == before + Bursts(w, h, burstParticles, s, b)
      modifies this`particles
      ensures particles == before + Bursts(w, h, burstParticles, s, b + 1)
    {
      BurstsNext(w, h, burstParticles, s, b);
      var draw := s.bursts(b);
      var c := BurstCentre(w, h, draw);
      var t := PickFireworkType(draw.typeRoll);
      EmitFireworkByType(t, c.x, c.y, draw);
    }

    /**
     * One frame: spawn when more than `interval` ms have passed since the
     * last spawn, then walk the list backwards, stepping every spark and
     * splicing out those whose life has run out.
     */
    method UpdateFireworks(dt: real, now: real, heartStage: bool, s: SpawnDraw)
      requires ValidSpawnDraw(s)
      modifies this`particles, this`lastSpawnAt
      ensures var spawn := now - old(lastSpawnAt) > old(interval) as real;
        && lastSpawnAt == (if spawn then now else old(lastSpawnAt))
        && particles == Survivors(old(particles)
             + (if spawn then Spawned(heartStage, old(viewWidth), old(viewHeight), old(burstParticles), s) else []),
             dt * 60.0)
    {
      ghost var added := if now - old(lastSpawnAt) > old(interval) as real
        then Spawned(heartStage, old(viewWidth), old(viewHeight), old(burstParticles), s) else [];
      if now - lastSpawnAt > interval as real {
        SpawnFireworkBurst(heartStage, s);
        lastSpawnAt := now;
      }
      StepAll(dt * 60.0, old(particles) + added);
    }

    /** The backward walk: step every spark, splice out the burnt-out ones. */
    method StepAll(step: real, ghost before: seq<FireParticle>)
      requires particles == before
      modifies this`particles
      ensures particles == Survivors(before, step)
    {
      ghost var pre := particles;
      var i := |particles| - 1;
      while i >= 0
        invariant -1 <= i < |pre|
        invariant particles == pre[..i + 1] + Survivors(pre[i + 1..], step)
        decreases i + 1
      {
        WalkStep(pre, particles, i, step);
        var q := Step(particles[i], step);
        if q.life <= 0.0 {
          particles := particles[..i] + particles[i + 1..];
        } else {
          particles := particles[i := q];
        }
        i := i - 1;
      }
      assert pre[..0] == [] && pre[0..] == pre;
    }
  }
}
