/**
 * Loss values as the training driver sees them: finite reals, positive
 * infinity, and NaN, with numpy's comparisons (every comparison involving
 * NaN is false).
 */
module Losses {

  datatype Loss = NaN | Finite(v: real) | PosInf

  /** `a < b` on floats. */
  predicate Less(a: Loss, b: Loss)
    ensures Less(a, b) ==> a != NaN && b != NaN && a != b && a != PosInf
  {
    match (a, b)
    case (Finite(x), Finite(y)) => x < y
    case (Finite(_), PosInf) => true
    case _ => false
  }

  /** `a > b` on floats. */
  predicate Greater(a: Loss, b: Loss)
    ensures Greater(a, b) ==> a != NaN && b != NaN && a != b && b != PosInf
  {
    Less(b, a)
  }

  /** `a <= b` on floats. */
  predicate LessEq(a: Loss, b: Loss)
    ensures LessEq(a, b) <==> a != NaN && b != NaN && (Less(a, b) || a == b)
  {
    a != NaN && b != NaN && !Less(b, a)
  }

  /** The check `if np.isnan(loss_cur): loss_cur = inf`. */
  function Sanitize(l: Loss): (r: Loss)
    ensures r != NaN
    ensures l != NaN ==> r == l
    ensures l == NaN ==> Greater(r, Finite(0.0)) && forall x :: x != NaN ==> LessEq(x, r)
  {
    if l == NaN then PosInf else l
  }

  /** Apart from NaN, the comparisons form a total order. */
  lemma OrderIsTotal(a: Loss, b: Loss, c: Loss)
    requires a != NaN && b != NaN && c != NaN
    ensures Less(a, b) || a == b || Less(b, a)
    ensures !(Less(a, b) && Less(b, a))
    ensures Less(a, b) && Less(b, c) ==> Less(a, c)
    ensures LessEq(a, b) && LessEq(b, c) ==> LessEq(a, c)
  {
  }

  /** Float addition: NaN absorbs, infinity absorbs finite values. */
  function Add(a: Loss, b: Loss): (r: Loss)
    ensures r == NaN <==> a == NaN || b == NaN
    ensures a.Finite? && b.Finite? ==> r == Finite(a.v + b.v)
  {
    match (a, b)
    case (NaN, _) => NaN
    case (_, NaN) => NaN
    case (Finite(x), Finite(y)) => Finite(x + y)
    case _ => PosInf
  }

  /** Division of a loss sum by a positive frame count. */
  function Mean(sum: Loss, frames: nat): (r: Loss)
    requires 0 < frames
    ensures r.Finite? <==> sum.Finite?
    ensures r.Finite? ==> r.v * frames as real == sum.v
  {
    match sum
    case Finite(x) => Finite(x / frames as real)
    case _ => sum
  }
}
