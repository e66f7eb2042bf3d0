/**
 * TracerApp's ribbon: a trail of points behind one finger. Points are
 * appended, aged once per update (fading, thinning and rising), erased once
 * they are spent, and a strip of two vertices per segment is rebuilt for
 * drawing. Alpha and width are exact reals: float rounding is not modelled.
 */
module Ribbons {
  import opened Cinder
  import opened BoundedInts
  import opened Orders

  datatype Point = Point(alpha: real, position: Vec3f, width: real)

  /** A point as `addPoint` creates it: fully opaque. */
  function NewPoint(position: Vec3f, width: real): Point {
    Point(1.0, position, width)
  }

  /** One update's effect on a point. */
  function Aged(p: Point): Point {
    Point(p.alpha - 0.01, p.position.(y := p.position.y + 1.0), p.width - 0.3)
  }

  /** An aged point is erased when it has faded out or thinned out. */
  predicate Expired(p: Point) {
    p.alpha <= 0.0 || p.width <= 0.0
  }

  /** The points `update` keeps: every point aged, the expired ones dropped. */
  function Survivors(ps: seq<Point>): seq<Point>
    decreases |ps|
  {
    if |ps| == 0 then []
    else
      var q := Aged(ps[|ps| - 1]);
      Survivors(ps[..|ps| - 1]) + if Expired(q) then [] else [q]
  }

  /** The positions, in increasing order, of the points that survive their aging. */
  function KeptIndices(ps: seq<Point>): seq<int>
    decreases |ps|
  {
    if |ps| == 0 then []
    else
      KeptIndices(ps[..|ps| - 1]) + if Expired(Aged(ps[|ps| - 1])) then [] else [|ps| - 1]
  }

  /** The kept positions lie within the input and ascend. */
  lemma {:induction false} KeptIndicesAscend(ps: seq<Point>)
    ensures forall k :: 0 <= k < |KeptIndices(ps)| ==> 0 <= KeptIndices(ps)[k] < |ps|
    ensures StrictlyIncreasing(KeptIndices(ps))
    decreases |ps|
  {
    if |ps| > 0 {
      KeptIndicesAscend(ps[..|ps| - 1]);
    }
  }

  /** A position is kept exactly when its aged point has not expired. */
  lemma {:induction false} KeptIndicesExact(ps: seq<Point>)
    ensures forall i :: 0 <= i < |ps| ==> (i in KeptIndices(ps) <==> !Expired(Aged(ps[i])))
    decreases |ps|
  {
    if |ps| > 0 {
      var n := |ps| - 1;
      var init := ps[..n];
      KeptIndicesExact(init);
      KeptIndicesAscend(init);
      var ks := KeptIndices(init);
      assert n !in ks;
      forall i | 0 <= i < n ensures init[i] == ps[i] {}
    }
  }

  /**
   * `update` erases exactly the points whose aged alpha or width is not
   * positive and keeps the others, aged, in their original order.
   */
  lemma {:induction false} SurvivorsKeepOrder(ps: seq<Point>)
    ensures |Survivors(ps)| == |KeptIndices(ps)|
    ensures StrictlyIncreasing(KeptIndices(ps))
    ensures forall k :: 0 <= k < |KeptIndices(ps)| ==>
      0 <= KeptIndices(ps)[k] < |ps| && Survivors(ps)[k] == Aged(ps[KeptIndices(ps)[k]])
    ensures forall i :: 0 <= i < |ps| ==> (i in KeptIndices(ps) <==> !Expired(Aged(ps[i])))
    decreases |ps|
  {
    KeptIndicesAscend(ps);
    KeptIndicesExact(ps);
    if |ps| > 0 {
      var n := |ps| - 1;
      var init := ps[..n];
      SurvivorsKeepOrder(init);
      var ss, ks := Survivors(init), KeptIndices(init);
      forall k | 0 <= k < |ks| ensures ss[k] == Aged(ps[ks[k]]) {
        assert init[ks[k]] == ps[ks[k]];
      }
    }
  }

  /** Every survivor is an aged point of the input that did not expire. */
  lemma SurvivorsAreAged(ps: seq<Point>, q: Point)
    requires q in Survivors(ps)
    ensures exists i :: 0 <= i < |ps| && q == Aged(ps[i]) && !Expired(q)
  {
    SurvivorsKeepOrder(ps);
    var k :| 0 <= k < |Survivors(ps)| && Survivors(ps)[k] == q;
    var i := KeptIndices(ps)[k];
    assert i in KeptIndices(ps);
  }

  /** The state of the trail after `k` updates with no points added. */
  function AgedTimes(ps: seq<Point>, k: nat): seq<Point>
    decreases k
  {
    if k == 0 then ps else Survivors(AgedTimes(ps, k - 1))
  }

  /**
   * Points start fully opaque and fade by 0.01 per update, so a trail left
   * alone is empty after 100 updates.
   */
  lemma {:induction false} TrailFadesOut(ps: seq<Point>, k: nat)
    requires forall p :: p in ps ==> p.alpha <= 1.0
    ensures forall q :: q in AgedTimes(ps, k) ==> q.alpha <= 1.0 - (k as real) / 100.0
    ensures k >= 100 ==> AgedTimes(ps, k) == []
    decreases k
  {
    if k > 0 {
      TrailFadesOut(ps, k - 1);
      forall q | q in AgedTimes(ps, k) ensures q.alpha <= 1.0 - (k as real) / 100.0 {
        SurvivorsAreAged(AgedTimes(ps, k - 1), q);
      }
      if k >= 100 && AgedTimes(ps, k) != [] {
        var q := AgedTimes(ps, k)[0];
        SurvivorsAreAged(AgedTimes(ps, k - 1), q);
        assert false;
      }
    }
  }

  /** Number of strip vertices `update` builds for `n` points. */
  function StripLength(n: nat): nat {
    if n >= 2 then 2 * (n - 1) else 0
  }

  /**
   * How far the strip's edges sit from a segment's start point: the width
   * of the start point along the (normalised) in-plane tangent. `normalize`
   * is the host library's vector normalisation.
   */
  function Offset(a: Point, b: Point, normalize: Vec3f -> Vec3f): Vec3f {
    var dir := Sub(a.position, b.position).(z := 0.0);
    var tan := Cross(dir, ZAxis);
    var tan' := Cross(dir, tan);
    Scale(normalize(Cross(dir, tan')), a.width)
  }

  /**
   * Strip vertex `k`: segment k/2 contributes its start point pushed back by
   * the offset, then its end point pushed forward by it.
   */
  function StripVertex(ps: seq<Point>, k: nat, normalize: Vec3f -> Vec3f): Vec3f
    requires k < StripLength(|ps|)
  {
    var i := k / 2;
    var off := Offset(ps[i], ps[i + 1], normalize);
    if k % 2 == 0 then Sub(ps[i].position, off) else Add(ps[i + 1].position, off)
  }

  /** `draw` stays within both vectors exactly when this holds. */
  predicate DrawInBounds(points: nat, positions: nat) {
    points < 3 || 2 * points - 3 < positions
  }

  /** The colour alpha and the six vertices (two triangles) `draw` emits for segment `i`. */
  datatype Quad = Quad(alpha: real, vertices: seq<Vec3f>)

  function QuadAt(ps: seq<Point>, pos: seq<Vec3f>, i: nat): Quad
    requires i < |ps| && 2 * i + 3 < |pos|
  {
    var index := 2 * i;
    Quad(ps[i].alpha, [pos[index], pos[index + 2], pos[index + 1], pos[index + 1], pos[index + 2], pos[index + 3]])
  }

  /**
   * A strip built for the current points can always be drawn; one more
   * point added after the strip was built (from two or more points) makes
   * `draw` read past its end.
   */
  lemma AddPointBeforeDrawBreaksBounds(n: nat)
    ensures DrawInBounds(n, StripLength(n))
    ensures n >= 2 ==> !DrawInBounds(n + 1, StripLength(n))
  {
  }

  /** The strip `update` builds for points `ps`: vertex `k` is `StripVertex(ps, k, normalize)`. */
  function Strip(ps: seq<Point>, normalize: Vec3f -> Vec3f): (pos: seq<Vec3f>)
    ensures |pos| == StripLength(|ps|)
  {
    seq(StripLength(|ps|), k requires 0 <= k < StripLength(|ps|) => StripVertex(ps, k, normalize))
  }

  /** A ribbon as a value: what a `std::map<int32_t, Ribbon>` entry holds. */
  datatype RibbonState = RibbonState(id: Int32, points: seq<Point>, positions: seq<Vec3f>)

  /** The value `addPoint` leaves: one more point, the strip as it was. */
  function WithPoint(r: RibbonState, position: Vec3f, width: real): RibbonState {
    r.(points := r.points + [NewPoint(position, width)])
  }

  /** The value `update` leaves: the surviving points and a strip rebuilt from them. */
  function Updated(r: RibbonState, normalize: Vec3f -> Vec3f): RibbonState {
    var ps := Survivors(r.points);
    r.(points := ps, positions := Strip(ps, normalize))
  }

  /** `draw` stays in bounds on this ribbon. */
  predicate Drawable(r: RibbonState) {
    DrawInBounds(|r.points|, |r.positions|)
  }

  /** A ribbon just updated can be drawn; adding a point to one with two or more points breaks that. */
  lemma UpdatedIsDrawable(r: RibbonState, normalize: Vec3f -> Vec3f, position: Vec3f, width: real)
    ensures Drawable(Updated(r, normalize))
    ensures |Updated(r, normalize).points| >= 2 ==> !Drawable(WithPoint(Updated(r, normalize), position, width))
  {
    AddPointBeforeDrawBreaksBounds(|Survivors(r.points)|);
  }

  class Ribbon {
    var id: Int32
    var points: seq<Point>
    var positions: seq<Vec3f>

    /** This ribbon as a value. */
    function State(): RibbonState
      reads this
    {
      RibbonState(id, points, positions)
    }

    /** The colour is chosen at random by the caller and only drawn; it is not modelled. */
    constructor (id: Int32)
      ensures this.id == id && points == [] && positions == []
    {
      this.id := id;
      points := [];
      positions := [];
    }

    /** Appends one fully opaque point; the strip is not rebuilt. */
    method AddPoint(position: Vec3f, width: real)
      modifies this
      ensures points == old(points) + [NewPoint(position, width)]
      ensures positions == old(positions) && id == old(id)
      ensures State() == WithPoint(old(State()), position, width)
    {
      var point := NewPoint(position, width);
      points := points + [point];
    }

    /**
     * Ages every point, erasing spent ones while iterating, then rebuilds
     * the strip: two vertices per segment between consecutive survivors.
     */
    method Update(normalize: Vec3f -> Vec3f)
      modifies this
      ensures points == Survivors(old(points))
      ensures |positions| == StripLength(|points|)
      ensures forall k :: 0 <= k < |positions| ==> positions[k] == StripVertex(points, k, normalize)
      ensures id == old(id)
      ensures State() == Updated(old(State()), normalize)
    {
      AgePoints();
      BuildStrip(normalize);
      assert positions == Strip(points, normalize);
    }

    /** The first half of `update`: the aging and erase loop. */
    method AgePoints()
      modifies this
      ensures points == Survivors(old(points))
      ensures positions == old(positions) && id == old(id)
    {
      var i := 0;
      ghost var j := 0;
      while i < |points|
        invariant 0 <= i <= |points| && 0 <= j <= |old(points)|
        invariant points[..i] == Survivors(old(points)[..j])
        invariant points[i..] == old(points)[j..]
        invariant positions == old(positions) && id == old(id)
        decreases |points| - i
      {
        ghost var before := points;
        assert old(points)[..j + 1][..j] == old(points)[..j];
        assert old(points)[j] == before[i];
        points := points[i := Aged(points[i])];
        var p := points[i];
        if p.alpha <= 0.0 || p.width <= 0.0 {
          points := points[..i] + points[i + 1..];
          assert points[..i] == before[..i];
          assert points[i..] == before[i + 1..];
        } else {
          assert points[..i + 1] == before[..i] + [p];
          assert points[i + 1..] == before[i + 1..];
          i := i + 1;
        }
        j := j + 1;
      }
      assert old(points)[..j] == old(points);
    }

    /** The second half of `update`: the strip rebuilt from the points. */
    method BuildStrip(normalize: Vec3f -> Vec3f)
      modifies this
      ensures |positions| == StripLength(|points|)
      ensures forall k :: 0 <= k < |positions| ==> positions[k] == StripVertex(points, k, normalize)
      ensures points == old(points) && id == old(id)
    {
      positions := [];
      var count := |points|;
      if count >= 2 {
        for i := 0 to count - 1
          invariant points == old(points) && id == old(id)
          invariant |positions| == 2 * i
          invariant forall k :: 0 <= k < 2 * i ==> positions[k] == StripVertex(points, k, normalize)
        {
          var a := points[i];
          var b := points[i + 1];
          var pos0 := a.position;
          var pos1 := b.position;
          var dir := Sub(pos0, pos1);
          dir := dir.(z := 0.0);
          var tan := Cross(dir, ZAxis);
          tan := Cross(dir, tan);
          tan := normalize(Cross(dir, tan));
          var offset := Scale(tan, a.width);
          assert offset == Offset(a, b, normalize);
          positions := positions + [Sub(pos0, offset), Add(pos1, offset)];
          assert StripVertex(points, 2 * i, normalize) == Sub(pos0, offset);
          assert StripVertex(points, 2 * i + 1, normalize) == Add(pos1, offset);
        }
      }
    }

    /**
     * Emits two triangles per segment but the last, reading strip vertices
     * 2i .. 2i+3 and point i. Fewer than two points: nothing. A read past
     * the end of either vector throws (`ok` false) after the segments
     * already emitted.
     */
    method Draw() returns (quads: seq<Quad>, ok: bool)
      ensures ok <==> DrawInBounds(|points|, |positions|)
      ensures forall i :: 0 <= i < |quads| ==>
        i < |points| && 2 * i + 3 < |positions| && quads[i] == QuadAt(points, positions, i)
      ensures ok ==> |quads| == if |points| >= 2 then |points| - 2 else 0
      ensures !ok ==> |quads| < |points| - 2 && |positions| <= 2 * |quads| + 3
    {
      quads := [];
      var count := |points|;
      if count < 2 {
        return quads, true;
      }
      var i := 0;
      while i < count - 2
        invariant 0 <= i <= count - 2
        invariant |quads| == i
        invariant forall k :: 0 <= k < i ==>
          2 * k + 3 < |positions| && quads[k] == QuadAt(points, positions, k)
      {
        var index := i * 2;
        if index + 3 >= |positions| {
          return quads, false;
        }
        var pos0 := positions[index + 0];
        var pos1 := positions[index + 1];
        var pos2 := positions[index + 2];
        var pos3 := positions[index + 3];
        var alpha := points[i].alpha;
        quads := quads + [Quad(alpha, [pos0, pos2, pos1, pos1, pos2, pos3])];
        i := i + 1;
      }
      if count >= 3 {
        assert 2 * (count - 3) + 3 < |positions|;
      }
      ok := true;
    }
  }

  /**
   * Two points, an update, then a third point without an update: drawing
   * now reads past the end of the strip and throws.
   */
  method AddAfterUpdateBreaksDraw(normalize: Vec3f -> Vec3f, a: Vec3f, b: Vec3f, c: Vec3f) returns (ok: bool)
    ensures !ok
  {
    var ribbon := new Ribbon(0);
    ribbon.AddPoint(a, 1.0);
    ribbon.AddPoint(b, 1.0);
    ribbon.Update(normalize);
    assert |ribbon.points| == 2 by {
      var ps := [NewPoint(a, 1.0), NewPoint(b, 1.0)];
      assert ps[..1] == [NewPoint(a, 1.0)] && ps[..1][..0] == [];
      assert Survivors(ps[..1]) == [Aged(ps[0])];
    }
    ribbon.AddPoint(c, 1.0);
    var quads;
    quads, ok := ribbon.Draw();
  }
}
