/**
 * The fade transition of main.py, reduced to the numbers it computes each
 * frame: the clamped progress, which buffer is shown and the opacity of the
 * black overlay drawn over it.  Arithmetic is exact over `real`.
 */
module Fade {

  /** Python's `int()` on a number: truncation toward zero. */
  function Trunc(x: real): (n: int)
    ensures 0.0 <= x ==> 0 <= n && n as real <= x < n as real + 1.0
    ensures x < 0.0 ==> n <= 0 && n as real - 1.0 < x <= n as real
  {
    if x >= 0.0 then x.Floor else -((-x).Floor)
  }

  lemma TruncMonotone(x: real, y: real)
    requires 0.0 <= x <= y
    ensures Trunc(x) <= Trunc(y)
  {
    assert Trunc(x) as real <= x <= y < Trunc(y) as real + 1.0;
  }

  /** How far a transition is: elapsed over duration, capped at one. */
  function Progress(elapsed: real, duration: real): (p: real)
    requires duration != 0.0
    ensures p <= 1.0 && p <= elapsed / duration
    ensures p == 1.0 || p == elapsed / duration
  {
    var ratio := elapsed / duration;
    if 1.0 < ratio then 1.0 else ratio
  }

  /** Progress starts at zero and is exactly one from the moment the duration is reached. */
  lemma ProgressRange(elapsed: real, duration: real)
    requires 0.0 <= elapsed && 0.0 < duration
    ensures 0.0 <= Progress(elapsed, duration) <= 1.0
    ensures elapsed == 0.0 ==> Progress(elapsed, duration) == 0.0
    ensures elapsed >= duration ==> Progress(elapsed, duration) == 1.0
    ensures elapsed < duration ==> Progress(elapsed, duration) < 1.0
  {
    var ratio := elapsed / duration;
    assert elapsed == ratio * duration;
    if elapsed < duration && ratio >= 1.0 {
      assert false;
    }
  }

  /** Progress is below one half exactly while less than half the duration has elapsed. */
  lemma HalfwayPoint(elapsed: real, duration: real)
    requires 0.0 <= elapsed && 0.0 < duration
    ensures Progress(elapsed, duration) < 0.5 <==> elapsed < duration / 2.0
  {
    var ratio := elapsed / duration;
    assert elapsed == ratio * duration;
    if elapsed < duration / 2.0 && ratio >= 0.5 {
      assert false;
    }
    if elapsed >= duration / 2.0 && ratio < 0.5 {
      assert false;
    }
  }

  /** Which scene buffer the fade blits. */
  datatype Layer = OldLayer | NewLayer

  /** One composited frame: the buffer shown and the overlay's opacity over it. */
  datatype Frame = Frame(layer: Layer, alpha: int)

  /** The frame the fade draws at a given progress. */
  function FadeFrame(progress: real): (f: Frame)
    ensures f.layer == OldLayer <==> progress < 0.5
    ensures 0.0 <= progress <= 1.0 ==> 0 <= f.alpha <= 255
  {
    if progress < 0.5 then
      Frame(OldLayer, Trunc((progress / 0.5) * 255.0))
    else
      Frame(NewLayer, Trunc(((1.0 - progress) / 0.5) * 255.0))
  }

  /**
   * The fade starts on the old scene alone, is fully dark on the new scene at
   * the midpoint (which takes the second branch) and ends on the new scene alone.
   */
  lemma FadeEndpoints()
    ensures FadeFrame(0.0) == Frame(OldLayer, 0)
    ensures FadeFrame(0.5) == Frame(NewLayer, 255)
    ensures FadeFrame(1.0) == Frame(NewLayer, 0)
  {
    assert (0.0 / 0.5) * 255.0 == 0.0;
    assert ((1.0 - 0.5) / 0.5) * 255.0 == 255.0;
    assert ((1.0 - 1.0) / 0.5) * 255.0 == 0.0;
  }

  /** In the first half the overlay darkens and never reaches full opacity. */
  lemma FadeOutRises(p: real, q: real)
    requires 0.0 <= p <= q < 0.5
    ensures FadeFrame(p).layer == OldLayer
    ensures FadeFrame(p).alpha <= FadeFrame(q).alpha < 255
  {
    assert (p / 0.5) * 255.0 <= (q / 0.5) * 255.0 < 255.0;
    TruncMonotone((p / 0.5) * 255.0, (q / 0.5) * 255.0);
  }

  /** In the second half the overlay lightens. */
  lemma FadeInFalls(p: real, q: real)
    requires 0.5 <= p <= q <= 1.0
    ensures FadeFrame(q).layer == NewLayer
    ensures FadeFrame(q).alpha <= FadeFrame(p).alpha
  {
    assert 0.0 <= ((1.0 - q) / 0.5) * 255.0 <= ((1.0 - p) / 0.5) * 255.0;
    TruncMonotone(((1.0 - q) / 0.5) * 255.0, ((1.0 - p) / 0.5) * 255.0);
  }

  /** Once a transition's time is up, the fade shows the new scene with no overlay. */
  lemma FadeAtCompletion(elapsed: real, duration: real)
    requires 0.0 < duration <= elapsed
    ensures FadeFrame(Progress(elapsed, duration)) == Frame(NewLayer, 0)
  {
    ProgressRange(elapsed, duration);
    FadeEndpoints();
  }
}
