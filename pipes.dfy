// The pipes: where a new pipe's gap is placed, how one frame moves, scores
// and removes pipes, and the forgiving box test between the bird and a pipe.
module Pipes {
  import opened Physics

  const PipeWidth: real := 60.0
  /** Height of the opening between the top and the bottom pipe. */
  const PipeGap: real := 150.0
  /** Pixels every pipe moves to the left per playing frame. */
  const PipeSpeed: real := 2.5
  /** Milliseconds that must have passed (strictly) since the last spawn. */
  const SpawnInterval: real := 1800.0
  /** A new pipe starts this far beyond the right edge of the canvas. */
  const SpawnOverscan: real := 10.0
  /** A pipe is dropped once its right edge is left of this x. */
  const OffScreenEdge: real := -10.0
  /** Distance kept between the gap and the top of the canvas / the ground. */
  const BandMargin: real := 80.0
  /** The bird's box is shrunk by this much on every side before the pipe test. */
  const HitMargin: real := 4.0

  /** topH is the y of the lower edge of the top pipe; the gap is [topH, topH + PipeGap]. */
  datatype Pipe = Pipe(x: real, topH: real, scored: bool)

  /** Bounds of the band the gap's top edge is drawn from. */
  function MinTop(): real { BandMargin }

  function MaxTop(height: real): real
  {
    height - GroundHeight - PipeGap - BandMargin
  }

  /**
   * Where TopHeight may land: inside [MinTop, MaxTop] when that band is not
   * empty; in (MaxTop, MinTop] when the canvas is too short for it, since
   * the band is not clamped.
   */
  predicate InBand(t: real, height: real)
  {
    if MinTop() <= MaxTop(height) then MinTop() <= t <= MaxTop(height)
    else MaxTop(height) < t <= MinTop()
  }

  /** minY + r * (maxY - minY), with r the random draw in [0, 1). */
  function TopHeight(height: real, r: real): (t: real)
    requires 0.0 <= r < 1.0
    ensures InBand(t, height)
    ensures MinTop() < MaxTop(height) ==> t < MaxTop(height)
  {
    var span := MaxTop(height) - MinTop();
    ScaleWithin(r, span);
    MinTop() + r * span
  }

  /** Scaling by a factor in [0, 1) lands between 0 and the scaled value. */
  lemma ScaleWithin(r: real, s: real)
    requires 0.0 <= r < 1.0
    ensures s >= 0.0 ==> 0.0 <= r * s <= s
    ensures s > 0.0 ==> r * s < s
    ensures s < 0.0 ==> s < r * s <= 0.0
  {
    assert s - r * s == (1.0 - r) * s;
    if s > 0.0 {
      assert (1.0 - r) * s > 0.0;
    } else if s < 0.0 {
      assert (1.0 - r) * s < 0.0;
      assert r * s <= 0.0;
    }
  }

  /** The pipe spawnPipe appends: just off the right edge, not yet scored. */
  function NewPipe(width: real, height: real, r: real): (p: Pipe)
    requires 0.0 <= r < 1.0
    ensures p.x == width + SpawnOverscan && !p.scored
    ensures InBand(p.topH, height)
  {
    Pipe(width + SpawnOverscan, TopHeight(height, r), false)
  }

  /** The pipe's right edge is strictly left of the bird's x. */
  predicate Passed(p: Pipe, birdX: real)
  {
    p.x + PipeWidth < birdX
  }

  predicate OffScreen(p: Pipe)
  {
    p.x + PipeWidth < OffScreenEdge
  }

  /**
   * One pipe's part of the frame: it moves left by PipeSpeed and, if it was
   * not yet scored and its right edge is now past the bird, it is scored.
   */
  function Move(p: Pipe, birdX: real): (m: Pipe)
    ensures m.x == p.x - PipeSpeed && m.topH == p.topH
    ensures p.scored ==> m.scored
    ensures m.scored <==> p.scored || Passed(m, birdX)
  {
    var moved := p.(x := p.x - PipeSpeed);
    if !moved.scored && Passed(moved, birdX) then moved.(scored := true) else moved
  }

  /** The pipe's flag goes from false to true in this frame. */
  predicate Flipped(p: Pipe, birdX: real)
  {
    !p.scored && Move(p, birdX).scored
  }

  /**
   * The pipes after one frame: every pipe moved (and possibly scored), the
   * ones now off screen dropped, the others kept in their order.
   */
  function Advance(ps: seq<Pipe>, birdX: real): (qs: seq<Pipe>)
    ensures |qs| <= |ps|
    ensures forall k :: 0 <= k < |qs| ==> !OffScreen(qs[k])
  {
    if ps == [] then []
    else
      var m := Move(ps[0], birdX);
      (if OffScreen(m) then [] else [m]) + Advance(ps[1..], birdX)
  }

  /** How many flags flip from false to true in one frame (the points earned). */
  function Flips(ps: seq<Pipe>, birdX: real): (n: nat)
    ensures n <= |ps|
    ensures n == 0 <==> forall k :: 0 <= k < |ps| ==> !Flipped(ps[k], birdX)
  {
    if ps == [] then 0
    else (if Flipped(ps[0], birdX) then 1 else 0) + Flips(ps[1..], birdX)
  }

  /** The indices, in increasing order, of the pipes that survive the frame. */
  function Kept(ps: seq<Pipe>, birdX: real): (idx: seq<nat>)
    ensures forall k :: 0 <= k < |idx| ==> idx[k] < |ps|
    ensures forall k, l :: 0 <= k < l < |idx| ==> idx[k] < idx[l]
  {
    if ps == [] then []
    else
      var rest := Kept(ps[1..], birdX);
      (if OffScreen(Move(ps[0], birdX)) then [] else [0]) + Shift(rest)
  }

  /** One pipe fewer or the same: the head's fate followed by the tail's. */
  lemma AdvanceUnfold(ps: seq<Pipe>, birdX: real)
    requires ps != []
    ensures Advance(ps, birdX)
         == (if OffScreen(Move(ps[0], birdX)) then [] else [Move(ps[0], birdX)]) + Advance(ps[1..], birdX)
    ensures Kept(ps, birdX)
         == (if OffScreen(Move(ps[0], birdX)) then [] else [0]) + Shift(Kept(ps[1..], birdX))
  {
  }

  /** Every index moved one place right. */
  function Shift(idx: seq<nat>): (r: seq<nat>)
    ensures |r| == |idx|
    ensures forall k :: 0 <= k < |r| ==> r[k] == idx[k] + 1
  {
    seq(|idx|, k requires 0 <= k < |idx| => idx[k] + 1)
  }

  /**
   * Advance is the selection Kept of the moved pipes: the k-th survivor is
   * the pipe at Kept[k] after Move, so it moved by exactly PipeSpeed, kept
   * its gap and kept a set flag; Kept is strictly increasing, so the
   * survivors keep their original relative order.
   */
  lemma {:induction false} AdvanceSelects(ps: seq<Pipe>, birdX: real)
    ensures |Advance(ps, birdX)| == |Kept(ps, birdX)|
    ensures forall k :: 0 <= k < |Kept(ps, birdX)| ==>
              Advance(ps, birdX)[k] == Move(ps[Kept(ps, birdX)[k]], birdX)
  {
    if ps != [] {
      var tail := ps[1..];
      AdvanceSelects(tail, birdX);
      AdvanceUnfold(ps, birdX);
      var adv, kept := Advance(ps, birdX), Kept(ps, birdX);
      var rest := Kept(tail, birdX);
      var h := if OffScreen(Move(ps[0], birdX)) then 0 else 1;
      forall k | 0 <= k < |kept|
        ensures adv[k] == Move(ps[kept[k]], birdX)
      {
        if k >= h {
          assert kept[k] == rest[k - h] + 1;
          assert adv[k] == Advance(tail, birdX)[k - h];
          assert ps[rest[k - h] + 1] == tail[rest[k - h]];
        }
      }
    }
  }

  /** Kept holds exactly the indices of the pipes that are on screen after moving. */
  lemma {:induction false} KeptExactly(ps: seq<Pipe>, birdX: real)
    ensures forall j :: 0 <= j < |ps| ==>
              (j in Kept(ps, birdX) <==> !OffScreen(Move(ps[j], birdX)))
  {
    if ps != [] {
      var tail := ps[1..];
      KeptExactly(tail, birdX);
      AdvanceUnfold(ps, birdX);
      var rest := Kept(tail, birdX);
      var shifted := Shift(rest);
      forall j | 0 <= j < |ps|
        ensures j in Kept(ps, birdX) <==> !OffScreen(Move(ps[j], birdX))
      {
        if j == 0 {
          assert 0 !in shifted;
        } else {
          assert ps[j] == tail[j - 1];
          if j - 1 in rest {
            var k :| 0 <= k < |rest| && rest[k] == j - 1;
            assert shifted[k] == j;
          }
          assert j in shifted ==> j - 1 in rest;
        }
      }
    }
  }

  /**
   * The pipes' flags that flip in one frame, counted as a set of indices
   * rather than by recursion.
   */
  lemma {:induction false} FlipsCountsFlags(ps: seq<Pipe>, birdX: real)
    ensures Flips(ps, birdX) == |set k | 0 <= k < |ps| && Flipped(ps[k], birdX)|
    decreases |ps|
  {
    if ps != [] {
      var init := ps[..|ps| - 1];
      var last := ps[|ps| - 1];
      assert ps == init + [last];
      FlipsCountsFlags(init, birdX);
      FlipsSnoc(init, last, birdX);
      var before := set k | 0 <= k < |init| && Flipped(init[k], birdX);
      var after := set k | 0 <= k < |ps| && Flipped(ps[k], birdX);
      if Flipped(last, birdX) {
        assert after == before + {|init|};
      } else {
        assert after == before;
      }
    }
  }

  /** Flips taken from the other end: the last pipe's flip adds to the rest's. */
  lemma {:induction false} FlipsSnoc(ps: seq<Pipe>, p: Pipe, birdX: real)
    ensures Flips(ps + [p], birdX) == Flips(ps, birdX) + (if Flipped(p, birdX) then 1 else 0)
    decreases |ps|
  {
    if ps != [] {
      assert (ps + [p])[1..] == ps[1..] + [p];
      FlipsSnoc(ps[1..], p, birdX);
    } else {
      assert ([] + [p])[1..] == [];
    }
  }

  /** Left to right on the screen along the list: x strictly increases. */
  predicate Increasing(ps: seq<Pipe>)
  {
    forall k, l :: 0 <= k < l < |ps| ==> ps[k].x < ps[l].x
  }

  predicate AllAtMost(ps: seq<Pipe>, bound: real)
  {
    forall k :: 0 <= k < |ps| ==> ps[k].x <= bound
  }

  /**
   * The list's insertion order is its screen order, oldest (leftmost) first,
   * and every listed pipe has moved at least once since it was spawned at
   * width + SpawnOverscan.
   */
  predicate Ordered(ps: seq<Pipe>, width: real)
  {
    Increasing(ps) && AllAtMost(ps, width + SpawnOverscan - PipeSpeed)
  }

  /** Appending a fresh pipe to an ordered list keeps it increasing. */
  lemma SpawnKeepsIncreasing(ps: seq<Pipe>, width: real, height: real, r: real)
    requires 0.0 <= r < 1.0 && Ordered(ps, width)
    ensures Increasing(ps + [NewPipe(width, height, r)])
    ensures AllAtMost(ps + [NewPipe(width, height, r)], width + SpawnOverscan)
  {
    var qs := ps + [NewPipe(width, height, r)];
    forall k, l | 0 <= k < l < |qs|
      ensures qs[k].x < qs[l].x
    {
      if l == |ps| {
        assert qs[k] == ps[k];
      } else {
        assert qs[k] == ps[k] && qs[l] == ps[l];
      }
    }
  }

  /**
   * One frame keeps the screen order: every survivor moved by the same
   * PipeSpeed and the survivors keep their relative order.
   */
  lemma AdvanceKeepsOrder(ps: seq<Pipe>, birdX: real, bound: real)
    requires Increasing(ps) && AllAtMost(ps, bound)
    ensures Increasing(Advance(ps, birdX))
    ensures AllAtMost(Advance(ps, birdX), bound - PipeSpeed)
  {
    AdvanceSelects(ps, birdX);
    var qs, idx := Advance(ps, birdX), Kept(ps, birdX);
    forall k, l | 0 <= k < l < |qs|
      ensures qs[k].x < qs[l].x
    {
      assert idx[k] < idx[l];
      assert qs[k] == Move(ps[idx[k]], birdX) && qs[l] == Move(ps[idx[l]], birdX);
    }
    forall k | 0 <= k < |qs|
      ensures qs[k].x <= bound - PipeSpeed
    {
      assert qs[k] == Move(ps[idx[k]], birdX);
    }
  }

  /**
   * In a list in screen order a frame removes pipes only at the head: if a
   * pipe survives, every pipe after it survives too.
   */
  lemma DropsOnlyOldest(ps: seq<Pipe>, birdX: real, j: int, l: int)
    requires Increasing(ps) && 0 <= j < l < |ps|
    requires j in Kept(ps, birdX)
    ensures l in Kept(ps, birdX)
  {
    KeptExactly(ps, birdX);
  }

  /**
   * The forgiving box test of one pipe: the bird's box, shrunk by HitMargin
   * on every side, overlaps the pipe's columns horizontally and pokes out
   * of the gap above or below.
   */
  predicate HitsPipe(b: Bird, p: Pipe)
  {
    var left := b.x - BirdW / 2.0;
    var top := b.y - BirdH / 2.0;
    && left + BirdW - HitMargin > p.x
    && left + HitMargin < p.x + PipeWidth
    && (top + HitMargin < p.topH || top + BirdH - HitMargin > p.topH + PipeGap)
  }

  predicate AnyPipeHit(b: Bird, ps: seq<Pipe>)
  {
    exists k :: 0 <= k < |ps| && HitsPipe(b, ps[k])
  }

  /**
   * The margin forgives grazes: a bird whose box reaches at most
   * HitMargin into the top or the bottom pipe is not hit.
   */
  lemma MarginForgivesGraze(b: Bird, p: Pipe)
    requires p.topH - HitMargin <= b.y - BirdH / 2.0
    requires b.y + BirdH / 2.0 <= p.topH + PipeGap + HitMargin
    ensures !HitsPipe(b, p)
  {
  }

  /** A bird whose shrunk box is entirely right of the pipe, or left of it, is not hit. */
  lemma ClearColumnsAreSafe(b: Bird, p: Pipe)
    requires b.x + BirdW / 2.0 - HitMargin <= p.x || p.x + PipeWidth <= b.x - BirdW / 2.0 + HitMargin
    ensures !HitsPipe(b, p)
  {
  }
}
