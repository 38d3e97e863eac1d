/**
 * The particle field: four flat buffers of 3 * maxCount reals (slot i owns
 * entries 3i, 3i+1, 3i+2) holding positions, targets, velocities and
 * colours, an active count, and the mode machine idle / morph / explode /
 * heart.  Slots at or beyond the active count carry a far-away sentinel
 * target so that they never show.
 */
module ParticleField {
  import opened Common

  datatype Mode = Idle | Morph | Explode | Heart

  /** The three text colours of the configuration. */
  datatype TextColor = ColorA | ColorB | ColorC

  /** The target given to every slot at or beyond the active count. */
  const Sentinel: Vec3 := Vec3(9999.0, 9999.0, -9999.0)

  const PointSize: real := 2.8
  const ExplodeSpeed: real := 2.0
  const ExplodeDrag: real := 0.965
  const ExplodeGravity: real := 0.008
  /** `explodeDuration` before the first explosion (the phrase exit time). */
  const InitialExplodeDuration: real := 900.0

  /** The colour of each configured hex triple, channel bytes scaled to [0, 1]. */
  function RgbOf(c: TextColor): Rgb {
    match c
    case ColorA => Rgb(255.0 / 255.0, 209.0 / 255.0, 140.0 / 255.0)
    case ColorB => Rgb(246.0 / 255.0, 189.0 / 255.0, 215.0 / 255.0)
    case ColorC => Rgb(137.0 / 255.0, 167.0 / 255.0, 255.0 / 255.0)
  }

  /** The colour of the i-th blessing line: the three text colours in turn. */
  function PickLineColor(i: nat): TextColor {
    [ColorA, ColorB, ColorC][i % 3]
  }

  /** Line colours repeat every three lines and neighbouring lines never share one. */
  lemma LineColorsCycle(i: nat)
    ensures PickLineColor(i + 3) == PickLineColor(i)
    ensures PickLineColor(i + 1) != PickLineColor(i)
  {
    ModShift(i, 3);
    assert (i + 1) % 3 == (i % 3 + 1) % 3 by {
      DivModUnique(i + 1, 3, if i % 3 == 2 then i / 3 + 1 else i / 3, (i % 3 + 1) % 3);
    }
  }

  /**
   * The two colours a target assignment blends between: a forced colour
   * blends into colour B; without one, a keep-near-current assignment (the
   * heart) blends A into C and any other blends A into B.
   */
  function GradientEnds(keepNearCurrent: bool, forced: Option<TextColor>): (ends: (TextColor, TextColor))
    ensures forced.Some? ==> ends == (forced.value, ColorB)
    ensures forced.None? ==> ends.0 == ColorA && (ends.1 == ColorC <==> keepNearCurrent)
  {
    if forced.Some? then (forced.value, ColorB)
    else if keepNearCurrent then (ColorA, ColorC)
    else (ColorA, ColorB)
  }

  /**
   * The blend weight of point i among count points: its normalised index
   * scaled by the 0.9 ceiling, so the first point is pure start colour and
   * the last stops short of the end colour.
   */
  function MixWeight(i: nat, count: nat): (w: real)
    ensures i < count ==> 0.0 <= w <= 0.9
    ensures i == 0 ==> w == 0.0
    ensures 2 <= count && i == count - 1 ==> w == 0.9
  {
    var denom := MaxInt(1, count - 1);
    assert i < count ==> i as real / denom as real <= 1.0;
    (i as real / denom as real) * 0.9
  }

  function LerpChannel(a: real, b: real, s: real): (r: real)
    ensures 0.0 <= s <= 1.0 ==> MinReal(a, b) <= r <= MaxReal(a, b)
    ensures s < 1.0 && a != b ==> r != b
  {
    var d := b - a;
    assert 0.0 <= s <= 1.0 ==> (d >= 0.0 ==> 0.0 <= d * s <= d) && (d <= 0.0 ==> d <= d * s <= 0.0) by {
      if 0.0 <= s <= 1.0 {
        if d >= 0.0 { RollScaleBound(s, d); } else { RollScaleBound(s, -d); }
      }
    }
    assert a + d * s - b == d * (s - 1.0);
    a + d * s
  }

  lemma RollScaleBound(s: real, d: real)
    requires 0.0 <= s <= 1.0 && d >= 0.0
    ensures 0.0 <= d * s <= d
  {
    assert d - d * s == d * (1.0 - s);
  }

  /** `Color.lerpColors(a, b, s)`: channel-wise linear interpolation. */
  function LerpColor(a: Rgb, b: Rgb, s: real): (c: Rgb)
    ensures 0.0 <= s <= 1.0 ==> MinReal(a.r, b.r) <= c.r <= MaxReal(a.r, b.r)
    ensures 0.0 <= s <= 1.0 ==> MinReal(a.g, b.g) <= c.g <= MaxReal(a.g, b.g)
    ensures 0.0 <= s <= 1.0 ==> MinReal(a.b, b.b) <= c.b <= MaxReal(a.b, b.b)
    ensures s < 1.0 && a != b ==> c != b
  {
    Rgb(LerpChannel(a.r, b.r, s), LerpChannel(a.g, b.g, s), LerpChannel(a.b, b.b, s))
  }

  /** The colour assigned to point i of count. */
  function PointColor(i: nat, count: nat, keepNearCurrent: bool, forced: Option<TextColor>): Rgb {
    var ends := GradientEnds(keepNearCurrent, forced);
    LerpColor(RgbOf(ends.0), RgbOf(ends.1), MixWeight(i, count))
  }

  /** No point of an assignment takes the pure end colour of its gradient. */
  lemma PointColorNeverEndColor(i: nat, count: nat, keepNearCurrent: bool, forced: Option<TextColor>)
    requires i < count
    requires forced != Some(ColorB)
    ensures PointColor(i, count, keepNearCurrent, forced) != RgbOf(GradientEnds(keepNearCurrent, forced).1)
  {
    var ends := GradientEnds(keepNearCurrent, forced);
    assert ends.0 != ends.1;
    assert RgbOf(ends.0) != RgbOf(ends.1);
  }

  /** The explosion speed for one slot: the base speed times a draw in [0.6, 1.3]. */
  function ExplosionSpeed(u: real): (s: real)
    requires IsRoll(u)
    ensures 1.2 <= s <= 2.6
  {
    ExplodeSpeed * RandomBetween(0.6, 1.3, u)
  }

  function Norm2(v: Vec3): real {
    v.x * v.x + v.y * v.y + v.z * v.z
  }

  /** A direction inside the unit ball gives an explosion velocity no faster than 2.6. */
  lemma ExplosionVelocityBound(dir: Vec3, u: real)
    requires IsRoll(u)
    requires Norm2(dir) <= 1.0
    ensures Norm2(Scale(dir, ExplosionSpeed(u))) <= 2.6 * 2.6
  {
    var s := ExplosionSpeed(u);
    var n := Norm2(dir);
    calc {
      Norm2(Scale(dir, s));
      (dir.x * s) * (dir.x * s) + (dir.y * s) * (dir.y * s) + (dir.z * s) * (dir.z * s);
      { SquareOfProduct(dir.x, s); SquareOfProduct(dir.y, s); SquareOfProduct(dir.z, s); }
      (s * s) * (dir.x * dir.x) + (s * s) * (dir.y * dir.y) + (s * s) * (dir.z * dir.z);
      (s * s) * n;
    }
    assert 0.0 <= s * s <= 2.6 * 2.6 by {
      assert s * s <= 2.6 * s <= 2.6 * 2.6;
    }
    assert 0.0 <= n;
    assert (s * s) * n <= s * s by {
      assert s * s - (s * s) * n == (s * s) * (1.0 - n);
    }
  }

  lemma SquareOfProduct(a: real, s: real)
    ensures (a * s) * (a * s) == (s * s) * (a * a)
  {
  }

  /**
   * One explosion step of a velocity: gravity on y, then drag on every axis.
   * Drag shrinks the horizontal and depth speed without reversing it, and a
   * forward step pulls the vertical velocity below its drag-only value.
   */
  function ExplodeVelocity(v: Vec3, step: real): (w: Vec3)
    ensures v.x > 0.0 ==> 0.0 < w.x < v.x
    ensures v.x < 0.0 ==> v.x < w.x < 0.0
    ensures v.z > 0.0 ==> 0.0 < w.z < v.z
    ensures v.z < 0.0 ==> v.z < w.z < 0.0
    ensures step > 0.0 ==> w.y < v.y * ExplodeDrag
    ensures step == 0.0 ==> w == Scale(v, ExplodeDrag)
  {
    Vec3(v.x * ExplodeDrag, (v.y - ExplodeGravity * step) * ExplodeDrag, v.z * ExplodeDrag)
  }

  /** Velocity after n explosion steps of the same length. */
  function ExplodeVelocityAfter(v: Vec3, step: real, n: nat): Vec3 {
    if n == 0 then v else ExplodeVelocity(ExplodeVelocityAfter(v, step, n - 1), step)
  }

  /** The horizontal and depth velocity decay geometrically with the drag factor. */
  lemma {:induction false} ExplodeDecayGeometric(v: Vec3, step: real, n: nat)
    ensures ExplodeVelocityAfter(v, step, n).x == v.x * Pow(ExplodeDrag, n)
    ensures ExplodeVelocityAfter(v, step, n).z == v.z * Pow(ExplodeDrag, n)
  {
    if n > 0 {
      ExplodeDecayGeometric(v, step, n - 1);
      var w := ExplodeVelocityAfter(v, step, n - 1);
      assert w.x * ExplodeDrag == v.x * (ExplodeDrag * Pow(ExplodeDrag, n - 1));
      assert w.z * ExplodeDrag == v.z * (ExplodeDrag * Pow(ExplodeDrag, n - 1));
    }
  }

  /** The remaining fraction of the explosion, 0 once the deadline passed. */
  function ExplodeRatio(endAt: real, duration: real, now: real): (ratio: real)
    ensures ratio >= 0.0
    ensures now >= endAt ==> ratio == 0.0
    ensures duration > 0.0 && endAt - now <= duration ==> ratio <= 1.0
  {
    var left := MaxReal(0.0, endAt - now);
    if duration > 0.0 then
      assert left <= duration ==> left / duration <= duration / duration;
      left / duration
    else 0.0
  }

  /** Easing a coordinate towards its target by factor e. */
  function Ease(p: real, t: real, e: real): real {
    p + (t - p) * e
  }

  function EaseVec(p: Vec3, t: Vec3, e: real): Vec3 {
    Vec3(Ease(p.x, t.x, e), Ease(p.y, t.y, e), Ease(p.z, t.z, e))
  }

  /** With a factor in [0, 1] the eased coordinate stays between old value and target. */
  lemma EaseBetween(p: real, t: real, e: real)
    requires 0.0 <= e <= 1.0
    ensures MinReal(p, t) <= Ease(p, t, e) <= MaxReal(p, t)
    ensures e == 1.0 ==> Ease(p, t, e) == t
    ensures 0.0 < e && p != t ==> Ease(p, t, e) != p
  {
    var d := t - p;
    assert Ease(p, t, e) == p + d * e;
    if d >= 0.0 {
      RollScaleBound(e, d);
    } else {
      RollScaleBound(e, -d);
      assert (-d) * e == -(d * e);
    }
    assert e == 1.0 ==> d * e == d;
  }

  /** The pulse decays linearly by 2.6 per second and never drops below 0. */
  function NextPulse(pulse: real, dt: real): (r: real)
    ensures pulse >= 0.0 ==> r >= 0.0
    ensures pulse > 0.0 && dt >= 0.0 ==> r <= pulse
  {
    if pulse > 0.0 then MaxReal(0.0, pulse - dt * 2.6) else pulse
  }

  /** The point size: inflated by a live pulse, otherwise eased to the stage baseline. */
  function NextPointSize(size: real, pulse: real, dt: real, heartStage: bool): real {
    if pulse > 0.0 then PointSize * (1.0 + pulse * 0.7)
    else
      var base := if heartStage then PointSize * 1.08 else PointSize;
      size + (base - size) * MinReal(1.0, dt * 8.0)
  }

  function NextOpacity(opacity: real, dt: real, heartStage: bool): real {
    opacity + ((if heartStage then 0.96 else 0.94) - opacity) * MinReal(1.0, dt * 4.0)
  }

  /** The triple of slot i of a flat buffer. */
  function Slot(a: array<real>, i: nat): Vec3
    reads a
    requires 3 * i + 2 < a.Length
  {
    Vec3(a[3 * i], a[3 * i + 1], a[3 * i + 2])
  }

  /** The same triple read as a colour. */
  function ColorSlot(a: array<real>, i: nat): Rgb
    reads a
    requires 3 * i + 2 < a.Length
  {
    var v := Slot(a, i);
    Rgb(v.x, v.y, v.z)
  }

  /** Writes one slot and nothing else. */
  method SetSlot(a: array<real>, i: nat, x: real, y: real, z: real)
    requires 3 * i + 2 < a.Length
    modifies a
    ensures Slot(a, i) == Vec3(x, y, z)
    ensures forall j: nat | 3 * j + 2 < a.Length && j != i :: Slot(a, j) == old(Slot(a, j))
  {
    a[3 * i], a[3 * i + 1], a[3 * i + 2] := x, y, z;
  }

  class Field {
    const maxCount: nat
    const positions: array<real>
    const targets: array<real>
    const velocities: array<real>
    const colors: array<real>
    var count: nat
    var mode: Mode
    var explodeEndAt: real
    var explodeDuration: real
    var pulse: real
    /** The point material's size and opacity. */
    var pointSize: real
    var opacity: real

    ghost predicate Valid()
      reads this
    {
      && positions.Length == 3 * maxCount
      && targets.Length == 3 * maxCount
      && velocities.Length == 3 * maxCount
      && colors.Length == 3 * maxCount
      && positions != targets && positions != velocities && positions != colors
      && targets != velocities && targets != colors && velocities != colors
      && count <= maxCount
      && pulse >= 0.0
    }

    /** Every inactive slot holds the sentinel target. */
    ghost predicate SentinelTail()
      reads this, targets
      requires Valid()
    {
      forall i: nat | count <= i < maxCount :: Slot(targets, i) == Sentinel
    }

    /**
     * The initial buffers: every slot starts at a random point of the spawn
     * sphere (`spawn(i)`), targets equal positions, velocities are zero, the
     * colour is (1, 0.84, 0.65) and nothing is active.
     */
    constructor (maxCount: nat, spawn: nat -> Vec3)
      ensures Valid() && this.maxCount == maxCount
      ensures fresh(positions) && fresh(targets) && fresh(velocities) && fresh(colors)
      ensures count == 0 && mode == Idle && pulse == 0.0 && explodeEndAt == 0.0
      ensures explodeDuration == InitialExplodeDuration
      ensures pointSize == PointSize && opacity == 0.94
      ensures forall i: nat | i < maxCount ::
        Slot(positions, i) == spawn(i) && Slot(targets, i) == spawn(i)
        && Slot(velocities, i) == Vec3(0.0, 0.0, 0.0) && ColorSlot(colors, i) == Rgb(1.0, 0.84, 0.65)
    {
      this.maxCount := maxCount;
      var pos := new real[3 * maxCount](_ => 0.0);
      var tar := new real[3 * maxCount](_ => 0.0);
      var vel := new real[3 * maxCount](_ => 0.0);
      var col := new real[3 * maxCount](_ => 0.0);
      var i := 0;
      while i < maxCount
        invariant 0 <= i <= maxCount
        invariant forall j: nat | j < i ::
          Slot(pos, j) == spawn(j) && Slot(tar, j) == spawn(j) && ColorSlot(col, j) == Rgb(1.0, 0.84, 0.65)
        invariant forall k | 0 <= k < vel.Length :: vel[k] == 0.0
      {
        var p := spawn(i);
        SetSlot(pos, i, p.x, p.y, p.z);
        SetSlot(tar, i, p.x, p.y, p.z);
        SetSlot(col, i, 1.0, 0.84, 0.65);
        i := i + 1;
      }
      positions, targets, velocities, colors := pos, tar, vel, col;
      count := 0;
      mode := Idle;
      explodeEndAt := 0.0;
      pulse := 0.0;
      explodeDuration := InitialExplodeDuration;
      pointSize := PointSize;
      opacity := 0.94;
    }

    /**
     * Replaces the targets with the first min(|points|, maxCount) points.
     * A slot is respawned at `spawn(i)` unless positions are kept and the
     * slot was already active; each active slot is recoloured along the
     * gradient; every slot beyond the new count gets the sentinel target.
     */
    method ApplyTargetPositions(points: seq<Vec3>, keepNearCurrent: bool, forced: Option<TextColor>, spawn: nat -> Vec3)
      requires Valid()
      modifies this`count, positions, targets, colors
      ensures Valid() && SentinelTail()
      ensures count == MinInt(|points|, maxCount)
      ensures forall i: nat | i < count :: Slot(targets, i) == points[i]
      ensures forall i: nat | i < maxCount ::
        Slot(positions, i) ==
          if i < count && (!keepNearCurrent || i >= old(count)) then spawn(i) else old(Slot(positions, i))
      ensures forall i: nat | i < maxCount ::
        ColorSlot(colors, i) ==
          if i < count then PointColor(i, count, keepNearCurrent, forced) else old(ColorSlot(colors, i))
    {
      var n := MinInt(|points|, maxCount);
      PlaceTargets(points, n, keepNearCurrent, forced, spawn);
      ClearTail(n);
      count := n;
    }

    /** The first loop: target, respawn when due, and gradient colour of slots below n. */
    method PlaceTargets(points: seq<Vec3>, n: nat, keepNearCurrent: bool, forced: Option<TextColor>, spawn: nat -> Vec3)
      requires Valid() && n <= |points| && n <= maxCount
      modifies positions, targets, colors
      ensures forall j: nat | j < maxCount ::
        Slot(targets, j) == if j < n then points[j] else old(Slot(targets, j))
      ensures forall j: nat | j < maxCount ::
        Slot(positions, j) ==
          if j < n && (!keepNearCurrent || j >= count) then spawn(j) else old(Slot(positions, j))
      ensures forall j: nat | j < maxCount ::
        ColorSlot(colors, j) ==
          if j < n then PointColor(j, n, keepNearCurrent, forced) else old(ColorSlot(colors, j))
    {
      var i := 0;
      while i < n
        invariant 0 <= i <= n
        invariant forall j: nat | j < maxCount ::
          Slot(targets, j) == if j < i then points[j] else old(Slot(targets, j))
        invariant forall j: nat | j < maxCount ::
          Slot(positions, j) ==
            if j < i && (!keepNearCurrent || j >= count) then spawn(j) else old(Slot(positions, j))
        invariant forall j: nat | j < maxCount ::
          ColorSlot(colors, j) ==
            if j < i then PointColor(j, n, keepNearCurrent, forced) else old(ColorSlot(colors, j))
      {
        var p := points[i];
        SetSlot(targets, i, p.x, p.y, p.z);
        if !keepNearCurrent || i >= count {
          var s := spawn(i);
          SetSlot(positions, i, s.x, s.y, s.z);
        }
        var c := PointColor(i, n, keepNearCurrent, forced);
        SetSlot(colors, i, c.r, c.g, c.b);
        i := i + 1;
      }
    }

    /** The second loop: every slot from n on gets the sentinel target. */
    method ClearTail(n: nat)
      requires Valid() && n <= maxCount
      modifies targets
      ensures forall j: nat | j < maxCount ::
        Slot(targets, j) == if j < n then old(Slot(targets, j)) else Sentinel
    {
      var i := n;
      while i < maxCount
        invariant n <= i <= maxCount
        invariant forall j: nat | j < maxCount ::
          Slot(targets, j) == if j < n || j >= i then old(Slot(targets, j)) else Sentinel
      {
        SetSlot(targets, i, 9999.0, 9999.0, -9999.0);
        i := i + 1;
      }
    }

    /**
     * Starts an explosion lasting `durationMs` from `now`: every active slot
     * gets velocity `dir(i)` times a speed drawn from [1.2, 2.6].
     */
    method TriggerParticleExplosion(durationMs: real, now: real, dir: nat -> Vec3, speedRoll: nat -> real)
      requires Valid()
      requires forall i: nat :: IsRoll(speedRoll(i))
      modifies this`mode, this`explodeDuration, this`explodeEndAt, velocities
      ensures Valid()
      ensures mode == Explode && explodeDuration == durationMs && explodeEndAt == now + durationMs
      ensures forall i: nat | i < maxCount ::
        Slot(velocities, i) ==
          if i < count then Scale(dir(i), ExplosionSpeed(speedRoll(i))) else old(Slot(velocities, i))
    {
      mode := Explode;
      explodeDuration := durationMs;
      explodeEndAt := now + durationMs;
      var i := 0;
      while i < count
        invariant 0 <= i <= count
        modifies velocities
        invariant forall j: nat | j < maxCount ::
          Slot(velocities, j) ==
            if j < i then Scale(dir(j), ExplosionSpeed(speedRoll(j))) else old(Slot(velocities, j))
      {
        var d := dir(i);
        var speed := ExplosionSpeed(speedRoll(i));
        SetSlot(velocities, i, d.x * speed, d.y * speed, d.z * speed);
        i := i + 1;
      }
    }

    /**
     * One frame of `dt` seconds at time `now`.  Nothing happens without
     * active slots.  While exploding, velocities take gravity and drag and
     * move the positions, the opacity fades with the remaining time, and the
     * mode reverts to idle at the deadline.  Otherwise every active position
     * eases towards its target by the factor `ease`, and the pulse, point
     * size and opacity relax towards their stage baselines.
     */
    method UpdateParticles(dt: real, now: real, ease: real, heartStage: bool)
      requires Valid()
      modifies this`mode, this`pulse, this`pointSize, this`opacity, positions, velocities
      ensures Valid()
      ensures count == 0 ==>
        mode == old(mode) && pulse == old(pulse) && pointSize == old(pointSize) && opacity == old(opacity)
        && unchanged(positions) && unchanged(velocities)
      ensures count > 0 && old(mode) == Explode ==>
        && mode == (if now >= explodeEndAt then Idle else Explode)
        && opacity == 0.15 + ExplodeRatio(explodeEndAt, explodeDuration, now) * 0.8
        && pulse == old(pulse) && pointSize == old(pointSize)
        && forall i: nat | i < maxCount ::
             var v := ExplodeVelocity(old(Slot(velocities, i)), dt * 60.0);
             if i < count then
               Slot(velocities, i) == v && Slot(positions, i) == Add(old(Slot(positions, i)), Scale(v, dt * 60.0))
             else
               Slot(velocities, i) == old(Slot(velocities, i)) && Slot(positions, i) == old(Slot(positions, i))
      ensures count > 0 && old(mode) != Explode ==>
        && mode == old(mode)
        && unchanged(velocities)
        && pulse == NextPulse(old(pulse), dt)
        && pointSize == NextPointSize(old(pointSize), old(pulse), dt, heartStage)
        && opacity == NextOpacity(old(opacity), dt, heartStage)
        && forall i: nat | i < maxCount ::
             Slot(positions, i) ==
               if i < count then EaseVec(old(Slot(positions, i)), Slot(targets, i), ease) else old(Slot(positions, i))
    {
      if count == 0 {
        return;
      }
      if mode == Explode {
        opacity := 0.15 + ExplodeRatio(explodeEndAt, explodeDuration, now) * 0.8;
        StepExplosion(dt * 60.0);
        if now >= explodeEndAt {
          mode := Idle;
        }
      } else {
        EaseActive(ease);
        pointSize := NextPointSize(pointSize, pulse, dt, heartStage);
        pulse := NextPulse(pulse, dt);
        opacity := NextOpacity(opacity, dt, heartStage);
      }
    }

    /** The explosion loop: gravity and drag on each active velocity, which then moves the position. */
    method StepExplosion(step: real)
      requires Valid()
      modifies positions, velocities
      ensures forall i: nat | i < maxCount ::
        var v := ExplodeVelocity(old(Slot(velocities, i)), step);
        if i < count then
          Slot(velocities, i) == v && Slot(positions, i) == Add(old(Slot(positions, i)), Scale(v, step))
        else
          Slot(velocities, i) == old(Slot(velocities, i)) && Slot(positions, i) == old(Slot(positions, i))
    {
      var i := 0;
      while i < count
        invariant 0 <= i <= count
        invariant forall j: nat | j < maxCount ::
          var v := ExplodeVelocity(old(Slot(velocities, j)), step);
          if j < i then
            Slot(velocities, j) == v && Slot(positions, j) == Add(old(Slot(positions, j)), Scale(v, step))
          else
            Slot(velocities, j) == old(Slot(velocities, j)) && Slot(positions, j) == old(Slot(positions, j))
      {
        var v := ExplodeVelocity(Slot(velocities, i), step);
        SetSlot(velocities, i, v.x, v.y, v.z);
        var p := Slot(positions, i);
        SetSlot(positions, i, p.x + v.x * step, p.y + v.y * step, p.z + v.z * step);
        i := i + 1;
      }
    }

    /** The morph loop: each active position eases towards its target. */
    method EaseActive(ease: real)
      requires Valid()
      modifies positions
      ensures forall i: nat | i < maxCount ::
        Slot(positions, i) ==
          if i < count then EaseVec(old(Slot(positions, i)), Slot(targets, i), ease) else old(Slot(positions, i))
    {
      var i := 0;
      while i < count
        invariant 0 <= i <= count
        invariant forall j: nat | j < maxCount ::
          Slot(positions, j) ==
            if j < i then EaseVec(old(Slot(positions, j)), Slot(targets, j), ease) else old(Slot(positions, j))
      {
        var p := EaseVec(Slot(positions, i), Slot(targets, i), ease);
        SetSlot(positions, i, p.x, p.y, p.z);
        i := i + 1;
      }
    }

    /**
     * Scales the first min(|base|, count) targets to `base[i] * spread`;
     * every other target, the sentinel tail included, is left as it was.
     */
    method ApplyHeartSpreadTargets(base: seq<Vec3>, spread: real)
      requires Valid()
      modifies targets
      ensures Valid()
      ensures old(SentinelTail()) ==> SentinelTail()
      ensures forall i: nat | i < maxCount ::
        Slot(targets, i) == if i < MinInt(|base|, count) then Scale(base[i], spread) else old(Slot(targets, i))
    {
      if |base| == 0 {
        return;
      }
      var n := MinInt(|base|, count);
      var i := 0;
      while i < n
        invariant 0 <= i <= n
        modifies targets
        invariant forall j: nat | j < maxCount ::
          Slot(targets, j) == if j < i then Scale(base[j], spread) else old(Slot(targets, j))
      {
        SetSlot(targets, i, base[i].x * spread, base[i].y * spread, base[i].z * spread);
        i := i + 1;
      }
    }
  }
}
