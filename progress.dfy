/** The skills-section progress bars: on first sight a bar's width is reset
    to 0 and then raised by one percentage point per animation frame until it
    reaches the width the markup gave it. */
module ProgressBar {

  /** What parseFloat makes of a CSS width: a number, or NaN when the text
      does not start with one (an unset width, for instance). */
  datatype Parsed = Num(value: real) | NaN

  /** The width one frame of the animation writes, from the current width
      towards the target: one point more, but never past the target. */
  function Step(current: real, target: real): (r: real)
    requires current < target
    ensures current < r <= target
    ensures r <= current + 1.0
    ensures r == target || r == current + 1.0
  {
    if current + 1.0 < target then current + 1.0 else target
  }

  /** A bound on the number of frames still to come from width `w`. */
  function FramesLeft(w: real, target: real): nat
  {
    if w < target then (target - w).Floor + 1 else 0
  }

  /** The widths the frames write, in order, when the bar currently shows
      `w` and the captured target is `target`. */
  function Frames(w: real, target: real): seq<real>
    decreases FramesLeft(w, target)
  {
    if w < target then
      var next := Step(w, target);
      [next] + Frames(next, target)
    else []
  }

  /** The widths written after the reset to 0, for the captured target. */
  function Schedule(target: Parsed): seq<real>
  {
    match target
    case Num(t) => Frames(0.0, t)
    case NaN => []
  }

  /** The width the bar ends with: the target when it is positive, otherwise
      the 0 of the reset (a NaN or non-positive target never starts a frame). */
  function Settled(target: Parsed): real
  {
    if target.Num? && target.value > 0.0 then target.value else 0.0
  }

  /** The width shown before write `i` of `s`, when `w` was shown first. */
  function Before(w: real, s: seq<real>, i: nat): real
    requires i < |s|
  {
    if i == 0 then w else s[i - 1]
  }

  /** Each write raises the width, by at most one point, and never past `target`. */
  predicate Climbs(w: real, s: seq<real>, target: real)
  {
    forall i :: 0 <= i < |s| ==> Before(w, s, i) < s[i] <= target && s[i] <= Before(w, s, i) + 1.0
  }

  lemma {:induction false} FramesClimb(w: real, target: real)
    ensures Climbs(w, Frames(w, target), target)
    decreases FramesLeft(w, target)
  {
    if w < target {
      var next := Step(w, target);
      FramesClimb(next, target);
      var s := Frames(w, target);
      assert s == [next] + Frames(next, target);
      forall i | 0 <= i < |s|
        ensures Before(w, s, i) < s[i] <= target && s[i] <= Before(w, s, i) + 1.0
      {
        if i > 0 {
          assert s[i] == Frames(next, target)[i - 1];
          assert Before(w, s, i) == Before(next, Frames(next, target), i - 1);
        }
      }
    }
  }

  /** When `w` is below the target, the frames end exactly on the target. */
  lemma {:induction false} FramesReachTarget(w: real, target: real)
    requires w < target
    ensures |Frames(w, target)| > 0 && Frames(w, target)[|Frames(w, target)| - 1] == target
    decreases FramesLeft(w, target)
  {
    var next := Step(w, target);
    if next < target {
      FramesReachTarget(next, target);
    }
  }

  /** The animation as a whole: the widths written after the reset start
      above 0, climb by at most a point per frame, stay within the target,
      and the last of them is the width the bar settles on. */
  lemma ScheduleProperties(target: Parsed)
    ensures Climbs(0.0, Schedule(target), Settled(target))
    ensures Schedule(target) == [] <==> Settled(target) == 0.0
    ensures Schedule(target) != [] ==> Schedule(target)[|Schedule(target)| - 1] == Settled(target)
  {
    if target.Num? {
      FramesClimb(0.0, target.value);
      if 0.0 < target.value {
        FramesReachTarget(0.0, target.value);
      }
    }
  }

  /** A progress bar element and the widths its style has been given. */
  class Bar {
    /** parseFloat of the bar's inline style width. */
    var width: Parsed
    /** Every width written to the bar's style, oldest first. */
    var shown: seq<real>

    constructor (initial: Parsed)
      ensures width == initial && shown == []
    {
      width := initial;
      shown := [];
    }

    /** animateProgressBar: capture the target, reset to 0, then one write
        per animation frame until the width reaches the target. */
    method Animate()
      modifies this
      ensures shown == old(shown) + [0.0] + Schedule(old(width))
      ensures width == Num(Settled(old(width)))
      ensures old(width).Num? && old(width).value >= 0.0 ==> width == old(width)
    {
      var targetWidth := width;
      width := Num(0.0);
      shown := shown + [0.0];
      while width.Num? && targetWidth.Num? && width.value < targetWidth.value
        invariant width.Num? && 0.0 <= width.value
        invariant targetWidth == old(width)
        invariant targetWidth.Num? && targetWidth.value > 0.0 ==> width.value <= targetWidth.value
        invariant !(targetWidth.Num? && targetWidth.value > 0.0) ==> width.value == 0.0
        invariant targetWidth.Num? ==>
                    shown + Frames(width.value, targetWidth.value) == old(shown) + [0.0] + Schedule(targetWidth)
        invariant targetWidth.NaN? ==> shown == old(shown) + [0.0]
        decreases FramesLeft(width.value, if targetWidth.Num? then targetWidth.value else 0.0)
      {
        var currentWidth := width.value;
        var targetWidthNum := targetWidth.value;
        var newWidth := if currentWidth + 1.0 < targetWidthNum then currentWidth + 1.0 else targetWidthNum;
        assert Frames(currentWidth, targetWidthNum) == [newWidth] + Frames(newWidth, targetWidthNum);
        width := Num(newWidth);
        shown := shown + [newWidth];
      }
    }
  }
}
