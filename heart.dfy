/**
 * Heart geometry: the size of the heart in world units, the classic heart
 * curve, and the placement of the photo cards on the heart (candidate
 * points, a Fisher-Yates shuffle, greedy spacing with a shrinking minimum
 * distance, and cyclic padding).
 */
module HeartGeometry {
  import opened Common

  const OccupyScreenHeight: real := 0.6
  const Depth: real := 18.0
  const CandidateCount: nat := 1500

  /** Target height of the heart and the factor from curve units to world units. */
  datatype Metrics = Metrics(height: real, scale: real)

  /**
   * The heart takes 60% of the visible height, and one curve unit is scaled
   * so that the band [-17, 13] bounding the curve (see HeartCurveBounds)
   * spans exactly that height; the curve itself stays inside the band.
   */
  function ComputeHeartMetrics(visibleHeight: real): (m: Metrics)
    ensures m.height == OccupyScreenHeight * visibleHeight
    ensures (13.0 - (-17.0)) * m.scale == m.height
    ensures visibleHeight >= 0.0 ==> 0.0 <= m.height <= visibleHeight && m.scale >= 0.0
  {
    var height := visibleHeight * OccupyScreenHeight;
    Metrics(height, height / 30.0)
  }

  /** An angle t given by its sine and cosine. */
  datatype Angle = Angle(sin: real, cos: real)

  predicate OnCircle(a: Angle) {
    -1.0 <= a.sin <= 1.0 && -1.0 <= a.cos <= 1.0 && a.sin * a.sin + a.cos * a.cos == 1.0
  }

  // cos(2t), cos(3t) and cos(4t) as Chebyshev polynomials of cos(t).
  function Cos2(a: Angle): real { 2.0 * a.cos * a.cos - 1.0 }
  function Cos3(a: Angle): real { 4.0 * a.cos * a.cos * a.cos - 3.0 * a.cos }
  function Cos4(a: Angle): real { 8.0 * a.cos * a.cos * a.cos * a.cos - 8.0 * a.cos * a.cos + 1.0 }

  /** The heart curve x = 16 sin^3 t, y = 13 cos t - 5 cos 2t - 2 cos 3t - cos 4t. */
  function HeartCurve(a: Angle): Point2 {
    Point2(16.0 * (a.sin * a.sin * a.sin),
           13.0 * a.cos - 5.0 * Cos2(a) - 2.0 * Cos3(a) - Cos4(a))
  }

  lemma MulNonneg(a: real, b: real)
    requires a >= 0.0 && b >= 0.0
    ensures a * b >= 0.0
  {
  }

  /** A cube of a value in [-1, 1] stays in [-1, 1]. */
  lemma CubeBounds(v: real)
    requires -1.0 <= v <= 1.0
    ensures -1.0 <= v * v * v <= 1.0
    ensures 0.0 <= v * v <= 1.0
  {
    MulNonneg(1.0 - v, 1.0 + v);
    assert (1.0 - v) * (1.0 + v) == 1.0 - v * v;
    var sq := v * v;
    MulNonneg(sq, 1.0 - v);
    MulNonneg(sq, 1.0 + v);
    assert sq * (1.0 - v) == sq - v * v * v;
    assert sq * (1.0 + v) == sq + v * v * v;
  }

  /** c^3 minus its tangent line at 0.6, factored. */
  lemma TangentCube(c: real)
    ensures c * c * c - (1.08 * c - 0.432) == (c - 0.6) * (c - 0.6) * (c + 1.2)
  {
  }

  /** c^4 minus its tangent line at 0.6, factored. */
  lemma TangentQuartic(c: real)
    ensures c * c * c * c - (0.864 * c - 0.3888) == (c - 0.6) * (c - 0.6) * ((c + 0.6) * (c + 0.6) + 0.72)
  {
  }

  /**
   * The heart curve lies in the box [-16, 16] x [-17, 13]; the bottom tip
   * (t = pi) reaches -17.
   */
  lemma HeartCurveBounds(a: Angle)
    requires OnCircle(a)
    ensures -16.0 <= HeartCurve(a).x <= 16.0
    ensures -17.0 <= HeartCurve(a).y <= 13.0
  {
    HeartCurveWidth(a);
    HeartCurveHeight(a);
  }

  /** x = 16 sin^3 t stays in [-16, 16]. */
  lemma HeartCurveWidth(a: Angle)
    requires OnCircle(a)
    ensures -16.0 <= HeartCurve(a).x <= 16.0
  {
    CubeBounds(a.sin);
  }

  /** y stays in [-17, 13]: -17 at the bottom tip (t = pi), at most 13 elsewhere. */
  lemma HeartCurveHeight(a: Angle)
    requires OnCircle(a)
    ensures -17.0 <= HeartCurve(a).y <= 13.0
  {
    HeartCurveBottom(a);
    HeartCurveTop(a);
  }

  /** y + 17 = (c + 1) (21 - 8 c^3 - 2 c) for c = cos t, and both factors are non-negative. */
  lemma HeartCurveBottom(a: Angle)
    requires OnCircle(a)
    ensures -17.0 <= HeartCurve(a).y
  {
    var c := a.cos;
    CubeBounds(c);
    var c3 := c * c * c;
    assert HeartCurve(a).y + 17.0 == (c + 1.0) * (21.0 - 8.0 * c3 - 2.0 * c);
    MulNonneg(c + 1.0, 21.0 - 8.0 * c3 - 2.0 * c);
  }

  /** y <= 13, from lower bounds on the powers of c = cos t. */
  lemma HeartCurveTop(a: Angle)
    requires OnCircle(a)
    ensures HeartCurve(a).y <= 13.0
  {
    var c := a.cos;
    CubeBounds(c);
    var c2, c3, c4 := c * c, c * c * c, c * c * c * c;
    assert c4 == c2 * c2;
    assert HeartCurve(a).y == -8.0 * c4 - 8.0 * c3 - 2.0 * c2 + 19.0 * c + 4.0;
    MulNonneg(c2, c2);
    if c >= 0.0 {
      // Tangent lines at c = 0.6 bound c^2, c^3 and c^4 from below.
      var d := c - 0.6;
      TangentCube(c);
      TangentQuartic(c);
      MulNonneg(d * d, c + 1.2);
      MulNonneg(d * d, (c + 0.6) * (c + 0.6) + 0.72);
      assert c2 - (1.2 * c - 0.36) == d * d;
    } else {
      MulNonneg(-c, 1.0 - c2);
      assert (-c) * (1.0 - c2) == c3 - c;
    }
    CurveTopBound(c, c2, c3, c4);
  }

  /**
   * The top of the heart, 13 cos t - 5 cos 2t - 2 cos 3t - cos 4t <= 13,
   * written over the powers of c = cos t and the bounds known for them.
   */
  lemma CurveTopBound(c: real, c2: real, c3: real, c4: real)
    requires -1.0 <= c <= 1.0 && c2 >= 0.0 && c4 >= 0.0
    requires c >= 0.0 ==> c2 >= 1.2 * c - 0.36 && c3 >= 1.08 * c - 0.432 && c4 >= 0.864 * c - 0.3888
    requires c < 0.0 ==> c3 >= c
    ensures -8.0 * c4 - 8.0 * c3 - 2.0 * c2 + 19.0 * c + 4.0 <= 13.0
  {
  }

  /**
   * Scaled by the metrics, the heart fits its height: any two points of the
   * curve are at most `height` apart vertically, which is at most 60% of the
   * visible height.
   */
  lemma ScaledHeartFitsHeight(visibleHeight: real, a: Angle, b: Angle)
    requires visibleHeight >= 0.0 && OnCircle(a) && OnCircle(b)
    ensures var m := ComputeHeartMetrics(visibleHeight);
      (HeartCurve(a).y - HeartCurve(b).y) * m.scale <= m.height <= OccupyScreenHeight * visibleHeight
  {
    var m := ComputeHeartMetrics(visibleHeight);
    HeartCurveHeight(a);
    HeartCurveHeight(b);
    var d := HeartCurve(a).y - HeartCurve(b).y;
    MulNonneg(30.0 - d, m.scale);
    assert (30.0 - d) * m.scale == m.height - d * m.scale;
  }

  /** The random draws behind one photo-card candidate. */
  datatype AnchorDraw = AnchorDraw(angle: Angle, radius: real, depthRoll: real)

  /** `radius` stands for pow(u, 0.72) of a roll u, which lies in [0, 1]. */
  predicate ValidAnchorDraw(d: AnchorDraw) {
    OnCircle(d.angle) && 0.0 <= d.radius <= 1.0 && IsRoll(d.depthRoll)
  }

  /** A candidate: a point inside the heart outline with a depth that thins towards the rim. */
  function Candidate(d: AnchorDraw, scale: real): Vec3 {
    var p := HeartCurve(d.angle);
    Vec3(Shrunk(p.x, d.radius, scale), Shrunk(p.y, d.radius, scale), CandidateDepth(d.depthRoll, d.radius))
  }

  /** A curve coordinate pulled towards the centre by r and scaled to world units. */
  function Shrunk(v: real, r: real, scale: real): real {
    v * r * scale
  }

  /** A depth roll mapped to [-1, 1), times 18, thinned towards the rim. */
  function CandidateDepth(u: real, r: real): real {
    (u * 2.0 - 1.0) * Depth * (0.22 + (1.0 - r) * 0.9)
  }

  function Candidates(draws: seq<AnchorDraw>, scale: real): (cs: seq<Vec3>)
    ensures |cs| == |draws|
    ensures forall i | 0 <= i < |draws| :: cs[i] == Candidate(draws[i], scale)
  {
    seq(|draws|, i requires 0 <= i < |draws| => Candidate(draws[i], scale))
  }

  /** A value of [lo, hi] (lo <= 0 <= hi) shrunk by a factor in [0, 1] and scaled by s >= 0. */
  lemma ShrinkScale(v: real, lo: real, hi: real, r: real, s: real)
    requires lo <= 0.0 <= hi && lo <= v <= hi && 0.0 <= r <= 1.0 && s >= 0.0
    ensures lo * s <= Shrunk(v, r, s) <= hi * s
  {
    if v >= 0.0 {
      MulNonneg(v, 1.0 - r);
      MulNonneg(v * r, 1.0);
      assert 0.0 <= v * r <= v;
    } else {
      MulNonneg(-v, 1.0 - r);
      MulNonneg(-v, r);
      assert v <= v * r <= 0.0;
    }
    var w := v * r;
    MulNonneg(w - lo, s);
    MulNonneg(hi - w, s);
    assert (w - lo) * s == w * s - lo * s;
    assert (hi - w) * s == hi * s - w * s;
  }

  /** The depth of a candidate: a roll in [-1, 1) times 18 times a factor in [0.22, 1.12]. */
  lemma DepthBound(depthRoll: real, radius: real)
    requires IsRoll(depthRoll) && 0.0 <= radius <= 1.0
    ensures -Depth * 1.12 <= CandidateDepth(depthRoll, radius) <= Depth * 1.12
  {
    var f := 0.22 + (1.0 - radius) * 0.9;
    var u := depthRoll * 2.0 - 1.0;
    assert 0.22 <= f <= 1.12 && -18.0 <= u * 18.0 <= 18.0;
    ShrinkScale(u * 18.0, -18.0, 18.0, 1.0, f);
    assert -18.0 * f <= u * 18.0 * 1.0 * f <= 18.0 * f;
    assert u * 18.0 * 1.0 * f == u * Depth * f;
    assert -Depth * 1.12 <= -18.0 * f;
    assert 18.0 * f <= Depth * 1.12;
    assert (depthRoll * 2.0 - 1.0) * Depth * (0.22 + (1.0 - radius) * 0.9) == u * Depth * f;
  }

  /** Every candidate lies in the scaled heart box, at depth at most 18 * 1.12. */
  lemma CandidateInBox(d: AnchorDraw, scale: real)
    requires ValidAnchorDraw(d) && scale >= 0.0
    ensures -16.0 * scale <= Candidate(d, scale).x <= 16.0 * scale
    ensures -17.0 * scale <= Candidate(d, scale).y <= 13.0 * scale
    ensures -Depth * 1.12 <= Candidate(d, scale).z <= Depth * 1.12
  {
    var p := HeartCurve(d.angle);
    HeartCurveBounds(d.angle);
    var c := Candidate(d, scale);
    assert -16.0 * scale <= c.x <= 16.0 * scale by {
      ShrinkScale(p.x, -16.0, 16.0, d.radius, scale);
    }
    assert -17.0 * scale <= c.y <= 13.0 * scale by {
      ShrinkScale(p.y, -17.0, 13.0, d.radius, scale);
    }
    DepthBound(d.depthRoll, d.radius);
  }

  // ---------------------------------------------------------------- shuffle

  /** The swap partner `floor(u * (i + 1))` of position i, in [0, i]. */
  function SwapIndex(u: real, i: nat): (j: nat)
    requires IsRoll(u)
    ensures j <= i
  {
    RollTimesBound(u, (i + 1) as real);
    (u * (i + 1) as real).Floor
  }

  function Swap<T>(s: seq<T>, i: nat, j: nat): (r: seq<T>)
    requires i < |s| && j < |s|
    ensures |r| == |s| && r[i] == s[j] && r[j] == s[i]
    ensures forall k | 0 <= k < |s| && k != i && k != j :: r[k] == s[k]
  {
    s[i := s[j]][j := s[i]]
  }

  lemma SwapPermutes<T>(s: seq<T>, i: nat, j: nat)
    requires i < |s| && j < |s|
    ensures multiset(Swap(s, i, j)) == multiset(s)
  {
    var t := s[i := s[j]];
    assert multiset(t) == multiset(s) - multiset{s[i]} + multiset{s[j]};
    assert multiset(t[j := s[i]]) == multiset(t) - multiset{t[j]} + multiset{s[i]};
  }

  predicate AllRolls(rolls: seq<real>) {
    forall k | 0 <= k < |rolls| :: IsRoll(rolls[k])
  }

  /** The Fisher-Yates passes at positions i, i - 1, ..., 1. */
  function ShuffleDown<T>(s: seq<T>, rolls: seq<real>, i: nat): (r: seq<T>)
    requires i < |s| <= |rolls| && AllRolls(rolls)
    ensures |r| == |s|
    decreases i
  {
    if i == 0 then s
    else ShuffleDown(Swap(s, i, SwapIndex(rolls[i], i)), rolls, i - 1)
  }

  /** The shuffle of the whole sequence, position i using roll i. */
  function Shuffled<T>(s: seq<T>, rolls: seq<real>): (r: seq<T>)
    requires |s| <= |rolls| && AllRolls(rolls)
    ensures |r| == |s|
  {
    if |s| == 0 then s else ShuffleDown(s, rolls, |s| - 1)
  }

  lemma {:induction false} ShuffleDownPermutes<T>(s: seq<T>, rolls: seq<real>, i: nat)
    requires i < |s| <= |rolls| && AllRolls(rolls)
    ensures multiset(ShuffleDown(s, rolls, i)) == multiset(s)
    decreases i
  {
    if i > 0 {
      var t := Swap(s, i, SwapIndex(rolls[i], i));
      SwapPermutes(s, i, SwapIndex(rolls[i], i));
      ShuffleDownPermutes(t, rolls, i - 1);
    }
  }

  /** The shuffle is a permutation of the candidates. */
  lemma ShuffledPermutes<T>(s: seq<T>, rolls: seq<real>)
    requires |s| <= |rolls| && AllRolls(rolls)
    ensures multiset(Shuffled(s, rolls)) == multiset(s)
  {
    if |s| > 0 {
      ShuffleDownPermutes(s, rolls, |s| - 1);
    }
  }

  /** The in-place shuffle loop. */
  method Shuffle(a: array<Vec3>, rolls: seq<real>)
    requires a.Length <= |rolls| && AllRolls(rolls)
    modifies a
    ensures a[..] == Shuffled(old(a[..]), rolls)
  {
    if a.Length == 0 {
      return;
    }
    var i := a.Length - 1;
    while i > 0
      invariant 0 <= i < a.Length
      invariant ShuffleDown(a[..], rolls, i) == Shuffled(old(a[..]), rolls)
      decreases i
    {
      var j := SwapIndex(rolls[i], i);
      ghost var before := a[..];
      a[i], a[j] := a[j], a[i];
      assert a[..] == Swap(before, i, j);
      i := i - 1;
    }
  }

  // ---------------------------------------------------------- greedy spacing

  /**
   * `c` is closer than `m` to `s`.  The distance is compared through its
   * square, which for m > 0 is the same test as `distance < m`.
   */
  predicate Close(c: Vec3, s: Vec3, m: real) {
    DistSq(c, s) < m * m
  }

  predicate Far(c: Vec3, sel: seq<Vec3>, m: real) {
    forall k | 0 <= k < |sel| :: !Close(c, sel[k], m)
  }

  /** The scan over the already selected anchors, stopping at the first close one. */
  method IsFar(c: Vec3, sel: seq<Vec3>, m: real) returns (ok: bool)
    ensures ok == Far(c, sel, m)
  {
    ok := true;
    var j := 0;
    while j < |sel|
      invariant 0 <= j <= |sel|
      invariant forall k | 0 <= k < j :: !Close(c, sel[k], m)
    {
      if Close(c, sel[j], m) {
        ok := false;
        break;
      }
      j := j + 1;
    }
  }

  /** One greedy pass from candidate i on, having selected `sel` so far. */
  function GreedyFrom(cands: seq<Vec3>, i: nat, target: nat, m: real, sel: seq<Vec3>): seq<Vec3>
    decreases |cands| - i
  {
    if i >= |cands| || |sel| >= target then sel
    else GreedyFrom(cands, i + 1, target, m, if Far(cands[i], sel, m) then sel + [cands[i]] else sel)
  }

  function Greedy(cands: seq<Vec3>, target: nat, m: real): seq<Vec3> {
    GreedyFrom(cands, 0, target, m, [])
  }

  /** Pairwise at least m apart. */
  predicate Spread(sel: seq<Vec3>, m: real) {
    forall i, j | 0 <= i < j < |sel| :: !Close(sel[j], sel[i], m)
  }

  lemma {:induction false} GreedyFromSound(cands: seq<Vec3>, i: nat, target: nat, m: real, sel: seq<Vec3>)
    requires |sel| <= target && Spread(sel, m)
    requires forall p | p in sel :: p in cands
    ensures |GreedyFrom(cands, i, target, m, sel)| <= target
    ensures Spread(GreedyFrom(cands, i, target, m, sel), m)
    ensures forall p | p in GreedyFrom(cands, i, target, m, sel) :: p in cands
    decreases |cands| - i
  {
    if i < |cands| && |sel| < target {
      var next := if Far(cands[i], sel, m) then sel + [cands[i]] else sel;
      assert Spread(next, m) by {
        if Far(cands[i], sel, m) {
          forall a, b | 0 <= a < b < |next| ensures !Close(next[b], next[a], m) {
            if b == |sel| {
              assert next[b] == cands[i] && next[a] == sel[a];
            } else {
              assert next[b] == sel[b] && next[a] == sel[a];
            }
          }
        }
      }
      GreedyFromSound(cands, i + 1, target, m, next);
    }
  }

  /**
   * A greedy pass selects at most `target` candidates, each one a
   * candidate, pairwise at least `m` apart.
   */
  lemma GreedySound(cands: seq<Vec3>, target: nat, m: real)
    ensures |Greedy(cands, target, m)| <= target
    ensures Spread(Greedy(cands, target, m), m)
    ensures forall p | p in Greedy(cands, target, m) :: p in cands
  {
    GreedyFromSound(cands, 0, target, m, []);
  }

  /** The greedy pass loop over the candidates. */
  method GreedyPass(cands: seq<Vec3>, target: nat, m: real) returns (sel: seq<Vec3>)
    ensures sel == Greedy(cands, target, m)
  {
    sel := [];
    var i := 0;
    while i < |cands| && |sel| < target
      invariant 0 <= i <= |cands|
      invariant GreedyFrom(cands, i, target, m, sel) == Greedy(cands, target, m)
    {
      var c := cands[i];
      var ok := IsFar(c, sel, m);
      if ok {
        sel := sel + [c];
      }
      i := i + 1;
    }
  }

  // ------------------------------------------------------ shrinking distance

  /** The minimum distance of pass k: 12% of the height, shrunk by 0.9 per pass. */
  function MinDist(height: real, k: nat): real {
    height * 0.12 * Pow(0.9, k)
  }

  lemma {:induction false} PowShrinks(k: nat)
    ensures 0.0 < Pow(0.9, k)
    ensures k >= 10 ==> Pow(0.9, k) <= 0.3486784401
    decreases k
  {
    if k > 0 {
      PowShrinks(k - 1);
      if k > 10 {
        assert Pow(0.9, k) == 0.9 * Pow(0.9, k - 1);
      } else if k == 10 {
        assert Pow(0.9, 10) == 0.3486784401 by {
          assert Pow(0.9, 4) == 0.6561;
          assert Pow(0.9, 8) == 0.43046721;
        }
      }
    }
  }

  /**
   * Another pass runs only while the height is positive and fewer than ten
   * shrinks have happened: 0.12 * 0.9^10 < 0.045.
   */
  lemma {:induction false} MorePassesBounded(height: real, k: nat)
    requires height > 0.0 || k == 0
    ensures MinDist(height, k) > height * 0.045 ==> height > 0.0 && k < 10
    ensures MinDist(height, k) * 0.9 == MinDist(height, k + 1)
  {
    PowShrinks(k);
    var p := Pow(0.9, k);
    if height > 0.0 && k >= 10 {
      assert height * (0.045 - 0.12 * p) >= 0.0 by {
        MulNonneg(height, 0.045 - 0.12 * p);
      }
    }
    assert Pow(0.9, k + 1) == 0.9 * p;
  }

  /** The passes from pass k on, until enough anchors are found or the distance is down to 4.5%. */
  function Rounds(cands: seq<Vec3>, target: nat, height: real, k: nat, sel: seq<Vec3>): seq<Vec3>
    requires height > 0.0 || k == 0
    decreases 10 - k
  {
    if |sel| < target && MinDist(height, k) > height * 0.045 then
      MorePassesBounded(height, k);
      Rounds(cands, target, height, k + 1, Greedy(cands, target, MinDist(height, k)))
    else sel
  }

  lemma {:induction false} RoundsSound(cands: seq<Vec3>, target: nat, height: real, k: nat, sel: seq<Vec3>)
    requires height > 0.0 || k == 0
    requires |sel| <= target && forall p | p in sel :: p in cands
    ensures |Rounds(cands, target, height, k, sel)| <= target
    ensures forall p | p in Rounds(cands, target, height, k, sel) :: p in cands
    decreases 10 - k
  {
    if |sel| < target && MinDist(height, k) > height * 0.045 {
      MorePassesBounded(height, k);
      GreedySound(cands, target, MinDist(height, k));
      RoundsSound(cands, target, height, k + 1, Greedy(cands, target, MinDist(height, k)));
    }
  }

  /** Cyclic padding: the next anchor is candidate |sel| mod |cands|. */
  function Pad(cands: seq<Vec3>, sel: seq<Vec3>, target: nat): (r: seq<Vec3>)
    requires |cands| > 0
    ensures |r| == MaxInt(|sel|, target)
    ensures sel <= r
    decreases target - |sel|
  {
    if |sel| >= target then sel else Pad(cands, sel + [cands[|sel| % |cands|]], target)
  }

  lemma {:induction false} PadFromCandidates(cands: seq<Vec3>, sel: seq<Vec3>, target: nat)
    requires |cands| > 0 && forall p | p in sel :: p in cands
    ensures forall p | p in Pad(cands, sel, target) :: p in cands
    decreases target - |sel|
  {
    if |sel| < target {
      PadFromCandidates(cands, sel + [cands[|sel| % |cands|]], target);
    }
  }

  function PhotoAnchors(cands: seq<Vec3>, target: nat, height: real): seq<Vec3>
    requires |cands| > 0
  {
    Pad(cands, Rounds(cands, target, height, 0, []), target)[..target]
  }

  /**
   * Anchor selection over non-empty candidates yields exactly `target`
   * anchors, all of them candidates.
   */
  lemma PhotoAnchorsSound(cands: seq<Vec3>, target: nat, height: real)
    requires |cands| > 0
    ensures |PhotoAnchors(cands, target, height)| == target
    ensures forall p | p in PhotoAnchors(cands, target, height) :: p in cands
  {
    RoundsSound(cands, target, height, 0, []);
    var sel := Rounds(cands, target, height, 0, []);
    PadFromCandidates(cands, sel, target);
    assert |Pad(cands, sel, target)| == target;
    assert PhotoAnchors(cands, target, height) == Pad(cands, sel, target);
  }

  predicate AllValid(draws: seq<AnchorDraw>) {
    forall i | 0 <= i < |draws| :: ValidAnchorDraw(draws[i])
  }

  /**
   * `generatePhotoAnchors`: 1500 candidates, shuffled in place, then greedy
   * passes with a shrinking minimum distance, then cyclic padding, cut to
   * `targetCount`.
   */
  method GeneratePhotoAnchors(targetCount: nat, metrics: Metrics, draws: seq<AnchorDraw>, shuffleRolls: seq<real>)
    returns (anchors: seq<Vec3>)
    requires |draws| == CandidateCount && |shuffleRolls| == CandidateCount && AllRolls(shuffleRolls)
    ensures anchors == PhotoAnchors(Shuffled(Candidates(draws, metrics.scale), shuffleRolls), targetCount, metrics.height)
    ensures |anchors| == targetCount
    ensures forall p | p in anchors :: p in Candidates(draws, metrics.scale)
  {
    var cands := new Vec3[CandidateCount];
    var i := 0;
    while i < CandidateCount
      invariant 0 <= i <= CandidateCount
      invariant cands[..i] == Candidates(draws, metrics.scale)[..i]
    {
      cands[i] := Candidate(draws[i], metrics.scale);
      i := i + 1;
    }
    assert cands[..] == Candidates(draws, metrics.scale);
    Shuffle(cands, shuffleRolls);
    var shuffled := cands[..];
    ghost var all := Candidates(draws, metrics.scale);
    ShuffledPermutes(all, shuffleRolls);

    var height := metrics.height;
    var selected: seq<Vec3> := [];
    var minDist := height * 0.12;
    ghost var k: nat := 0;
    assert minDist == MinDist(height, 0);
    while |selected| < targetCount && minDist > height * 0.045
      invariant height > 0.0 || k == 0
      invariant minDist == MinDist(height, k)
      invariant Rounds(shuffled, targetCount, height, k, selected) == Rounds(shuffled, targetCount, height, 0, [])
      decreases 10 - k
    {
      MorePassesBounded(height, k);
      selected := GreedyPass(shuffled, targetCount, minDist);
      minDist := minDist * 0.9;
      k := k + 1;
    }

    while |selected| < targetCount
      invariant Pad(shuffled, selected, targetCount) == Pad(shuffled, Rounds(shuffled, targetCount, height, 0, []), targetCount)
      decreases targetCount - |selected|
    {
      selected := selected + [shuffled[|selected| % |shuffled|]];
    }
    anchors := selected[..targetCount];

    PhotoAnchorsSound(shuffled, targetCount, height);
    forall p | p in anchors ensures p in all {
      assert p in multiset(shuffled);
    }
  }
}
