/**
 * Curvature of a dependency arc: four control-point distances, all equal to
 * 55 times the signed head offset, damped by 0.7 unless the two words are
 * neighbours. The offset is negated when the sentence reads right to left.
 */
module Geometry {

  const Base: real := 55.0
  const Damping: real := 0.7

  function Abs(x: real): real {
    if x < 0.0 then -x else x
  }

  /** The factor every control point is scaled by. */
  function Coefficient(head: int, dep: int, leftToRight: bool): (r: real)
    ensures r > 0.0 <==> (if leftToRight then head > dep else head < dep)
    ensures r == 0.0 <==> head == dep
    ensures Abs(r) == if head - dep == 1 || dep - head == 1 then 1.0 else Damping * Abs((head - dep) as real)
  {
    var c := (head - dep) as real;
    var directed := if leftToRight then c else -c;
    if Abs(directed) != 1.0 then directed * Damping else directed
  }

  function Curvature(head: int, dep: int, leftToRight: bool): (ctrl: seq<real>)
    ensures |ctrl| == 4
    ensures forall k :: 0 <= k < 4 ==> ctrl[k] == ctrl[0]
    ensures ctrl[0] > 0.0 <==> (if leftToRight then head > dep else head < dep)
    ensures ctrl[0] == 0.0 <==> head == dep
    ensures Abs(ctrl[0]) == if head - dep == 1 || dep - head == 1 then Base
                            else Base * Damping * Abs((head - dep) as real)
  {
    var base := [Base, Base, Base, Base];
    var coef := Coefficient(head, dep, leftToRight);
    seq(4, k requires 0 <= k < 4 => base[k] * coef)
  }

  function Negated(xs: seq<real>): (ys: seq<real>)
    ensures |ys| == |xs|
  {
    seq(|xs|, k requires 0 <= k < |xs| => -xs[k])
  }

  /** Switching the reading direction flips the sign of every control point and nothing else. */
  lemma DirectionFlip(head: int, dep: int)
    ensures Curvature(head, dep, false) == Negated(Curvature(head, dep, true))
  {
    var r, l := Curvature(head, dep, false), Curvature(head, dep, true);
    assert Coefficient(head, dep, false) == -Coefficient(head, dep, true);
    assert forall k :: 0 <= k < 4 ==> r[k] == -l[k];
  }

  /** Arcs between neighbouring words bend by exactly 55 in the reading direction. */
  lemma AdjacentArc(dep: int, leftToRight: bool)
    ensures Curvature(dep + 1, dep, leftToRight) == if leftToRight then [55.0, 55.0, 55.0, 55.0] else [-55.0, -55.0, -55.0, -55.0]
    ensures Curvature(dep - 1, dep, leftToRight) == if leftToRight then [-55.0, -55.0, -55.0, -55.0] else [55.0, 55.0, 55.0, 55.0]
  {
  }

  /** An arc two or more words long bends by 38.5 per word of distance. */
  lemma LongArc(head: int, dep: int)
    requires head - dep > 1 || dep - head > 1
    ensures Curvature(head, dep, true)[0] == 38.5 * (head - dep) as real
  {
  }
}
