/** A dual-thumb range slider: two thumbs select the sub-range
    [leftValue, rightValue] of the integer domain [minimum, maximum]. The
    module holds the thumb policies, the value/pixel geometry, the hit-test
    and the touch state machine of the widget. */
module RangeSeek {
  import opened KotlinInt

  /** Which thumb owns the current gesture; the widget keeps this as the
      codes 0 (None), 1 (Left) and 2 (Right). */
  datatype Thumb = None | Left | Right

  /** The part of a touch event the slider reads: its action and the x
      coordinate of the tracked pointer. `Other` is every action that is not
      a press, a move or a release (cancel, outside, secondary pointers). */
  datatype MotionEvent = Down(x: real) | Move(x: real) | Up | Other

  /** What the host's layout reports, in pixels: the left inset (padding plus
      margin) and the width left once both insets are taken off. */
  datatype Layout = Layout(drawableLeft: real, drawableWidth: real)

  /** One call of the registered listener: the two values as fractions of the
      domain, as float quotients. */
  datatype Notification = Notification(left: Quotient, right: Quotient)

  /** The point of [lo, hi] nearest to `x`. */
  function Clamp(x: int, lo: int, hi: int): int
    requires lo <= hi
  {
    Max(lo, Min(x, hi))
  }

  /** Where a move of the left thumb puts `leftValue`: a candidate beyond the
      right thumb collapses onto it, one below the minimum stops there. */
  function ClampLeft(candidate: Int32, minimum: Int32, rightValue: Int32): (r: Int32)
    ensures candidate > rightValue ==> r == rightValue
    ensures minimum <= rightValue ==> minimum <= r <= rightValue
    ensures minimum <= rightValue ==> r == Clamp(candidate, minimum, rightValue)
  {
    if candidate > rightValue then rightValue
    else if candidate < minimum then minimum
    else candidate
  }

  /** Where a move of the right thumb puts `rightValue`: a candidate before the
      left thumb collapses onto it, one above the maximum stops there. */
  function ClampRight(candidate: Int32, leftValue: Int32, maximum: Int32): (r: Int32)
    ensures candidate < leftValue ==> r == leftValue
    ensures leftValue <= maximum ==> leftValue <= r <= maximum
    ensures leftValue <= maximum ==> r == Clamp(candidate, leftValue, maximum)
  {
    if candidate < leftValue then leftValue
    else if candidate > maximum then maximum
    else candidate
  }

  /** The point a fraction `t` of the way from `lo` to `hi`. */
  function Lerp(t: real, lo: real, hi: real): (x: real)
    ensures t == 0.0 ==> x == lo
    ensures t == 1.0 ==> x == hi
    ensures 0.0 <= t <= 1.0 && lo <= hi ==> lo <= x <= hi
  {
    ScaleWithin(t, hi - lo);
    t * (hi - lo) + lo
  }

  /** The fraction of the way from `lo` to `hi` at which `x` lies. */
  function Unlerp(x: real, lo: real, hi: real): (t: real)
    requires lo != hi
    ensures Lerp(t, lo, hi) == x
    ensures lo <= x <= hi ==> 0.0 <= t <= 1.0
  {
    DivMulCancel(x - lo, hi - lo);
    FractionWithin(x - lo, hi - lo);
    (x - lo) / (hi - lo)
  }

  /** Unlerp undoes Lerp. */
  lemma UnlerpLerp(t: real, lo: real, hi: real)
    requires lo != hi
    ensures Unlerp(Lerp(t, lo, hi), lo, hi) == t
  {
    assert Lerp(t, lo, hi) - lo == t * (hi - lo);
  }

  /** `x` lies strictly within `reach` of `center`. */
  predicate Within(x: real, center: real, reach: real) {
    Abs(x - center) < reach
  }

  class RangeSeekBar {
    var minimum: Int32
    var maximum: Int32
    var leftValue: Int32
    var rightValue: Int32
    /** Thumb radius and touch radius, in density-independent units. */
    var thumbRadius: real
    var thumbHitRadius: real
    var currentThumb: Thumb
    var downMotionX: real
    var leftLabel: string
    var rightLabel: string
    /** Whether the widget accepts input (the platform's `isEnabled`). */
    var enabled: bool
    /** Whether a change listener is registered. */
    var hasListener: bool
    /** Pixels per density-independent unit, fixed at construction. */
    const density: real
    /** Every call made to the listener, oldest first. */
    ghost var notifications: seq<Notification>

    /** The selection lies within the domain, left thumb first. */
    predicate Ordered()
      reads this`minimum, this`maximum, this`leftValue, this`rightValue
    {
      minimum <= leftValue <= rightValue <= maximum
    }

    /** The domain is non-empty and `maximum - minimum` fits in an `Int`. */
    predicate SpanFits()
      reads this`minimum, this`maximum
    {
      0 < maximum - minimum <= INT_MAX
    }

    /** Construction: takes the configured values and repairs a crossed
        configuration in four steps. */
    constructor (minimum: Int32, maximum: Int32, leftValue: Int32, rightValue: Int32,
                 thumbRadius: real, thumbHitRadius: real, density: real)
      ensures this.maximum == maximum
      ensures this.minimum == if minimum > maximum then Min(0, maximum) else minimum
      ensures this.leftValue == Max(leftValue, this.minimum)
      ensures this.rightValue == Max(Min(rightValue, maximum), this.leftValue)
      ensures this.minimum <= this.maximum
      ensures this.minimum <= this.leftValue <= this.rightValue
      ensures leftValue <= maximum <==> this.rightValue <= this.maximum
      ensures this.thumbRadius == thumbRadius && this.thumbHitRadius == thumbHitRadius
      ensures this.density == density
      ensures currentThumb == None && leftLabel == "" && rightLabel == ""
      ensures enabled && !hasListener && notifications == []
    {
      this.minimum := minimum;
      this.maximum := maximum;
      this.leftValue := leftValue;
      this.rightValue := rightValue;
      this.thumbRadius := thumbRadius;
      this.thumbHitRadius := thumbHitRadius;
      this.density := density;
      currentThumb := None;
      downMotionX := 0.0;
      leftLabel := "";
      rightLabel := "";
      enabled := true;
      hasListener := false;
      notifications := [];
      new;
      if this.minimum > this.maximum {
        this.minimum := Min(0, this.maximum);
      }
      if this.leftValue < this.minimum {
        this.leftValue := this.minimum;
      }
      if this.rightValue > this.maximum {
        this.rightValue := this.maximum;
      }
      if this.rightValue < this.leftValue {
        this.rightValue := this.leftValue;
      }
    }

    method SetOnRangeSeekBarChangeListener()
      modifies this`hasListener
      ensures hasListener
    {
      hasListener := true;
    }

    /** The label shown beside the left thumb: the custom label if one is
        set, otherwise the left value in decimal. */
    function ReadLeftLabel(): (s: string)
      reads this`leftLabel, this`leftValue
      ensures s != []
      ensures leftLabel != "" ==> s == leftLabel
      ensures leftLabel == "" ==> s == IntToString(leftValue)
      ensures leftLabel == "" ==> IsCanonical(s) && ParseInt(s) == leftValue
    {
      IntToStringRoundTrip(leftValue);
      if leftLabel == "" then IntToString(leftValue) else leftLabel
    }

    /** The label shown beside the right thumb: the custom label if one is
        set, otherwise the right value in decimal. */
    function ReadRightLabel(): (s: string)
      reads this`rightLabel, this`rightValue
      ensures s != []
      ensures rightLabel != "" ==> s == rightLabel
      ensures rightLabel == "" ==> s == IntToString(rightValue)
      ensures rightLabel == "" ==> IsCanonical(s) && ParseInt(s) == rightValue
    {
      IntToStringRoundTrip(rightValue);
      if rightLabel == "" then IntToString(rightValue) else rightLabel
    }

    /** The thumb radius in pixels: the configured radius scaled by the
        display density. */
    function ThumbRadius(): (r: real)
      reads this`thumbRadius
      ensures density == 1.0 ==> r == thumbRadius
      ensures 0.0 <= thumbRadius && 0.0 <= density ==> 0.0 <= r
    {
      thumbRadius * density
    }

    /** The touch radius in pixels: the configured radius scaled by the
        display density. */
    function ThumbHitRadius(): (r: real)
      reads this`thumbHitRadius
      ensures density == 1.0 ==> r == thumbHitRadius
      ensures 0.0 <= thumbHitRadius && 0.0 <= density ==> 0.0 <= r
    {
      thumbHitRadius * density
    }

    /** The width of the domain, as the `Int` difference converted to a
        float. */
    function RelativeMax(): (r: real)
      reads this`minimum, this`maximum
      ensures r == 0.0 <==> minimum == maximum
      ensures SpanFits() ==> r == (maximum - minimum) as real
    {
      WrapInjective(maximum - minimum, 0);
      Wrap(maximum - minimum) as real
    }

    /** The position of `value` in the domain as a fraction: 0 at the
        minimum, 1 at the maximum. */
    function Relative(value: Int32): (t: real)
      reads this`minimum, this`maximum
      requires minimum != maximum
      ensures t == 0.0 <==> value == minimum
      ensures t == 1.0 <==> value == maximum
      ensures SpanFits() && minimum <= value <= maximum ==> 0.0 <= t <= 1.0
    {
      var a, s := Wrap(value - minimum), RelativeMax();
      WrapInjective(value - minimum, 0);
      WrapInjective(value - minimum, maximum - minimum);
      FractionWithin(a as real, s);
      RatioExtremes(a as real, s);
      a as real / s
    }

    /** The float the listener receives for `value`: its offset from the
        minimum over the width of the domain. It is the finite fraction
        `Relative(value)` unless the domain is a single point, where the
        division by zero gives NaN or an infinity. */
    function Fraction(value: Int32): (q: Quotient)
      reads this`minimum, this`maximum
      ensures minimum != maximum ==> q == Finite(Relative(value))
      ensures minimum == maximum ==> !q.Finite?
    {
      Divide(Wrap(value - minimum) as real, RelativeMax())
    }

    /** The leftmost centre of the left thumb: its disc then starts at the
        left end of the track. */
    function LeftMinCenter(layout: Layout): real
      reads this`thumbRadius
    {
      ThumbRadius() + layout.drawableLeft
    }

    /** The rightmost centre of the left thumb: its travel is the track less
        four thumb radii. */
    function LeftMaxCenter(layout: Layout): (c: real)
      reads this`thumbRadius
      ensures c - LeftMinCenter(layout) == layout.drawableWidth - 4.0 * ThumbRadius()
    {
      (layout.drawableLeft + layout.drawableWidth) - 3.0 * ThumbRadius()
    }

    /** The leftmost centre of the right thumb: one thumb diameter right of
        the left thumb's. */
    function RightMinCenter(layout: Layout): (c: real)
      reads this`thumbRadius
      ensures c == LeftMinCenter(layout) + 2.0 * ThumbRadius()
    {
      3.0 * ThumbRadius() + layout.drawableLeft
    }

    /** The rightmost centre of the right thumb: one thumb diameter right of
        the left thumb's, where its disc ends at the right end of the track. */
    function RightMaxCenter(layout: Layout): (c: real)
      reads this`thumbRadius
      ensures c == LeftMaxCenter(layout) + 2.0 * ThumbRadius()
      ensures c + ThumbRadius() == layout.drawableLeft + layout.drawableWidth
    {
      (layout.drawableLeft + layout.drawableWidth) - ThumbRadius()
    }

    /** The pixel centre of the left thumb. */
    function LeftXPosition(layout: Layout): (x: real)
      reads this`minimum, this`maximum, this`leftValue, this`thumbRadius
      requires minimum != maximum
      ensures leftValue == minimum ==> x == LeftMinCenter(layout)
      ensures leftValue == maximum ==> x == LeftMaxCenter(layout)
      ensures SpanFits() && minimum <= leftValue <= maximum && LeftMinCenter(layout) <= LeftMaxCenter(layout) ==>
                LeftMinCenter(layout) <= x <= LeftMaxCenter(layout)
    {
      Lerp(Relative(leftValue), LeftMinCenter(layout), LeftMaxCenter(layout))
    }

    /** The pixel centre of the right thumb. */
    function RightXPosition(layout: Layout): (x: real)
      reads this`minimum, this`maximum, this`rightValue, this`thumbRadius
      requires minimum != maximum
      ensures rightValue == minimum ==> x == RightMinCenter(layout)
      ensures rightValue == maximum ==> x == RightMaxCenter(layout)
      ensures SpanFits() && minimum <= rightValue <= maximum && RightMinCenter(layout) <= RightMaxCenter(layout) ==>
                RightMinCenter(layout) <= x <= RightMaxCenter(layout)
    {
      Lerp(Relative(rightValue), RightMinCenter(layout), RightMaxCenter(layout))
    }

    /** The thumb a press at `touchX` captures: each thumb owns the open
        window of half-width twice the hit radius around its centre, and the
        left thumb is tried first. On a single-point domain both positions
        are NaN or infinite, every comparison with them is false, and no
        thumb is captured. */
    function ThumbHit(touchX: real, layout: Layout): (t: Thumb)
      reads this`minimum, this`maximum, this`leftValue, this`rightValue, this`thumbRadius, this`thumbHitRadius
      ensures minimum == maximum ==> t == None
      ensures minimum != maximum ==>
        (t == Left <==> Within(touchX, LeftXPosition(layout), 2.0 * ThumbHitRadius()))
      ensures minimum != maximum ==>
        (t == Right <==> !Within(touchX, LeftXPosition(layout), 2.0 * ThumbHitRadius())
                         && Within(touchX, RightXPosition(layout), 2.0 * ThumbHitRadius()))
      ensures minimum != maximum ==>
        (t == None <==> !Within(touchX, LeftXPosition(layout), 2.0 * ThumbHitRadius())
                        && !Within(touchX, RightXPosition(layout), 2.0 * ThumbHitRadius()))
    {
      if minimum == maximum then None else
      var leftX := LeftXPosition(layout);
      var rightX := RightXPosition(layout);
      var hitRadius := ThumbHitRadius();
      if leftX - (hitRadius * 2.0) < touchX && touchX < leftX + (hitRadius * 2.0) then Left
      else if rightX - (hitRadius * 2.0) < touchX && touchX < rightX + (hitRadius * 2.0) then Right
      else None
    }

    /** The value a move to pixel `cx` asks for, for a thumb whose centre
        travels over [cmin, cmax]: the inverse of the thumb's position,
        converted to an `Int`. A move within the travel interval asks for a
        value within the domain. A travel interval of length zero makes the
        fraction NaN or infinite, and the conversion gives 0 or an end of
        the `Int` range. */
    function Candidate(cx: real, cmin: real, cmax: real): (v: Int32)
      reads this`minimum, this`maximum
      ensures cmin != cmax && SpanFits() && cmin <= cx <= cmax ==> minimum <= v <= maximum
      ensures cmin == cmax ==> v == NonFiniteToInt(Divide(cx - cmin, cmax - cmin), RelativeMax())
    {
      if cmin != cmax then ValueAt(Unlerp(cx, cmin, cmax), RelativeMax(), minimum)
      else NonFiniteToInt(Divide(cx - cmin, cmax - cmin), RelativeMax())
    }

    /** Moving to the pixel where a thumb's value is drawn asks for that very
        value: Candidate inverts the position. */
    lemma CandidateAtPosition(value: Int32, cmin: real, cmax: real)
      requires SpanFits() && minimum <= value <= maximum && cmin != cmax
      ensures Candidate(Lerp(Relative(value), cmin, cmax), cmin, cmax) == value
    {
      var t := Relative(value);
      UnlerpLerp(t, cmin, cmax);
      assert Wrap(value - minimum) == value - minimum;
      assert t * RelativeMax() == (value - minimum) as real;
      FloatToIntBetween(value as real, value, value);
    }

    /** Any pixel of a thumb's travel interval maps to a value whose drawn
        position is less than one value step away from it (the step is the
        travel length divided by the domain width). */
    lemma CandidateNearPosition(cx: real, cmin: real, cmax: real)
      requires SpanFits() && cmin < cmax && cmin <= cx <= cmax
      ensures var v := Candidate(cx, cmin, cmax);
        && minimum <= v <= maximum
        && Abs(Lerp(Relative(v), cmin, cmax) - cx) < (cmax - cmin) / RelativeMax()
    {
      var s := RelativeMax();
      var t := Unlerp(cx, cmin, cmax);
      var v := Candidate(cx, cmin, cmax);
      assert v == ValueAt(t, s, minimum);
      ValueAtNear(t, s, minimum, cmin, cmax);
      RelativeExact(v);
    }

    /** Within a domain whose width fits in an `Int`, Relative is the exact
        quotient. */
    lemma RelativeExact(value: Int32)
      requires SpanFits() && minimum <= value <= maximum
      ensures RelativeMax() == (maximum - minimum) as real
      ensures Relative(value) == (value - minimum) as real / RelativeMax()
    {
      assert Wrap(value - minimum) == value - minimum;
    }

    /** Relative preserves the order of values within the domain. */
    lemma RelativeMonotone(a: Int32, b: Int32)
      requires SpanFits() && minimum <= a <= b <= maximum
      ensures Relative(a) <= Relative(b)
    {
      RelativeExact(a);
      RelativeExact(b);
      DivideMonotone((a - minimum) as real, (b - minimum) as real, RelativeMax());
    }

    /** The right thumb is drawn at least one thumb diameter right of the
        left thumb, so the two discs never overlap. */
    lemma ThumbsNeverOverlap(layout: Layout)
      requires SpanFits() && Ordered() && LeftMinCenter(layout) <= LeftMaxCenter(layout)
      ensures RightXPosition(layout) - LeftXPosition(layout) >= 2.0 * ThumbRadius()
    {
      RelativeMonotone(leftValue, rightValue);
      LerpShift(Relative(leftValue), Relative(rightValue), LeftMinCenter(layout), LeftMaxCenter(layout), 2.0 * ThumbRadius());
    }

    /** Neither thumb's disc reaches past an end of the track: the left
        thumb's starts at or after the left edge and the right thumb's ends
        at or before the right edge. */
    lemma ThumbsStayOnTrack(layout: Layout)
      requires SpanFits() && minimum <= leftValue <= maximum && minimum <= rightValue <= maximum
      requires LeftMinCenter(layout) <= LeftMaxCenter(layout)
      ensures LeftXPosition(layout) - ThumbRadius() >= layout.drawableLeft
      ensures RightXPosition(layout) + ThumbRadius() <= layout.drawableLeft + layout.drawableWidth
    {
      assert RightMinCenter(layout) <= RightMaxCenter(layout);
    }

    /** Reports the selection to the listener, if one is registered. */
    method OnChange()
      modifies this`notifications
      ensures notifications == old(notifications) +
        if hasListener then [Notification(Fraction(leftValue), Fraction(rightValue))] else []
      ensures hasListener && SpanFits() && Ordered() ==>
        && Last(notifications).left.Finite? && Last(notifications).right.Finite?
        && 0.0 <= Last(notifications).left.value <= Last(notifications).right.value <= 1.0
      ensures hasListener && minimum == maximum ==>
        !Last(notifications).left.Finite? && !Last(notifications).right.Finite?
    {
      if hasListener {
        var left := Fraction(leftValue);
        var right := Fraction(rightValue);
        notifications := notifications + [Notification(left, right)];
        if SpanFits() && Ordered() {
          RelativeMonotone(leftValue, rightValue);
        }
      }
    }

    /** A press: captures the thumb whose hit window holds `x`, or none. */
    method Press(x: real, layout: Layout)
      modifies this`downMotionX, this`currentThumb
      ensures downMotionX == x
      ensures currentThumb == ThumbHit(x, layout)
    {
      downMotionX := x;
      currentThumb := ThumbHit(downMotionX, layout);
    }

    /** A move to pixel `cx`: the captured thumb takes the value the move
        asks for, clamped by its policy; with no thumb captured nothing
        changes. The selection stays ordered. */
    method Drag(cx: real, layout: Layout)
      modifies this`leftValue, this`rightValue
      ensures currentThumb == None ==> leftValue == old(leftValue) && rightValue == old(rightValue)
      ensures currentThumb == Left ==>
        && leftValue == ClampLeft(Candidate(cx, LeftMinCenter(layout), LeftMaxCenter(layout)), minimum, old(rightValue))
        && rightValue == old(rightValue)
      ensures currentThumb == Right ==>
        && rightValue == ClampRight(Candidate(cx, RightMinCenter(layout), RightMaxCenter(layout)), old(leftValue), maximum)
        && leftValue == old(leftValue)
      ensures old(Ordered()) ==> Ordered()
    {
      match currentThumb {
        case Left =>
          var value := Candidate(cx, LeftMinCenter(layout), LeftMaxCenter(layout));
          leftValue := ClampLeft(value, minimum, rightValue);
        case Right =>
          var value := Candidate(cx, RightMinCenter(layout), RightMaxCenter(layout));
          rightValue := ClampRight(value, leftValue, maximum);
        case None =>
      }
    }

    /** A release: lets go of the thumb and reports the selection once. */
    method Release()
      modifies this`currentThumb, this`notifications
      ensures currentThumb == None
      ensures notifications == old(notifications) +
        if hasListener then [Notification(Fraction(leftValue), Fraction(rightValue))] else []
    {
      currentThumb := None;
      OnChange();
    }

    /** Handles one touch event. A disabled widget ignores every event. A
        press captures the thumb under it; a move drags the captured thumb
        under its clamp policy; a release lets go and reports the selection;
        any other action lets go silently. The result is whatever the
        platform's own handling returns (`superHandled`). */
    method OnTouchEvent(event: MotionEvent, layout: Layout, superHandled: bool) returns (handled: bool)
      modifies this
      ensures handled == (old(enabled) && superHandled)
      ensures !old(enabled) ==> unchanged(this)
      ensures minimum == old(minimum) && maximum == old(maximum)
      ensures thumbRadius == old(thumbRadius) && thumbHitRadius == old(thumbHitRadius)
      ensures leftLabel == old(leftLabel) && rightLabel == old(rightLabel)
      ensures enabled == old(enabled) && hasListener == old(hasListener)
      ensures old(Ordered()) ==> Ordered()
      ensures old(enabled) ==> match event
        case Down(x) =>
          && currentThumb == old(ThumbHit(x, layout)) && downMotionX == x
          && leftValue == old(leftValue) && rightValue == old(rightValue)
          && notifications == old(notifications)
        case Move(x) =>
          && currentThumb == old(currentThumb) && downMotionX == old(downMotionX)
          && notifications == old(notifications)
          && (old(currentThumb) == None ==> leftValue == old(leftValue) && rightValue == old(rightValue))
          && (old(currentThumb) == Left ==>
                && leftValue == ClampLeft(old(Candidate(x, LeftMinCenter(layout), LeftMaxCenter(layout))), minimum, old(rightValue))
                && rightValue == old(rightValue))
          && (old(currentThumb) == Right ==>
                && rightValue == ClampRight(old(Candidate(x, RightMinCenter(layout), RightMaxCenter(layout))), old(leftValue), maximum)
                && leftValue == old(leftValue))
        case Up =>
          && currentThumb == None && downMotionX == old(downMotionX)
          && leftValue == old(leftValue) && rightValue == old(rightValue)
          && notifications == old(notifications) +
               if hasListener then [Notification(old(Fraction(leftValue)), old(Fraction(rightValue)))] else []
        case Other =>
          && currentThumb == None && downMotionX == old(downMotionX)
          && leftValue == old(leftValue) && rightValue == old(rightValue)
          && notifications == old(notifications)
    {
      if !enabled {
        return false;
      }
      match event {
        case Down(x) => Press(x, layout);
        case Move(cx) => Drag(cx, layout);
        case Up => Release();
        case Other => currentThumb := None;
      }
      handled := superHandled;
    }
  }

  /** A drag of the left thumb. On the domain [0, 100] with the selection
      [25, 75], a 432-pixel track and 8-pixel thumbs, the left thumb travels
      over [8, 408]. Pressing it, dragging it to the pixel of value 50 and
      releasing reports (0.5, 0.75). */
  method DragScenario()
  {
    var bar := new RangeSeekBar(0, 100, 25, 75, 8.0, 15.0, 1.0);
    bar.SetOnRangeSeekBarChangeListener();
    var layout := Layout(0.0, 432.0);
    assert bar.LeftMinCenter(layout) == 8.0 && bar.LeftMaxCenter(layout) == 408.0;
    assert bar.Relative(25) == 0.25;
    assert bar.LeftXPosition(layout) == 108.0;
    var handled := bar.OnTouchEvent(Down(108.0), layout, true);
    assert bar.currentThumb == Left;
    handled := bar.OnTouchEvent(Move(208.0), layout, true);
    assert Unlerp(208.0, 8.0, 408.0) == 0.5;
    assert bar.Candidate(208.0, 8.0, 408.0) == 50;
    assert bar.leftValue == 50 && bar.rightValue == 75;
    handled := bar.OnTouchEvent(Up, layout, true);
    assert bar.Relative(50) == 0.5 && bar.Relative(75) == 0.75;
    assert Last(bar.notifications) == Notification(Finite(0.5), Finite(0.75));
    assert bar.currentThumb == None;
  }

  /** A collapse. On the same geometry, dragging the left thumb to the end
      of its travel, past the right thumb at 75, collapses it onto 75. */
  method CollapseScenario()
  {
    var bar := new RangeSeekBar(0, 100, 25, 75, 8.0, 15.0, 1.0);
    var layout := Layout(0.0, 432.0);
    assert bar.LeftMinCenter(layout) == 8.0 && bar.LeftMaxCenter(layout) == 408.0;
    assert bar.Relative(25) == 0.25;
    assert bar.LeftXPosition(layout) == 108.0;
    var handled := bar.OnTouchEvent(Down(108.0), layout, true);
    assert bar.currentThumb == Left;
    handled := bar.OnTouchEvent(Move(408.0), layout, true);
    assert bar.Candidate(408.0, 8.0, 408.0) == 100;
    assert bar.leftValue == 75 && bar.rightValue == 75;
  }

  /** Construction with a crossed domain. [10, 5] is repaired to [0, 5]; a
      configured left value of 25 is not pulled down to the maximum, and the
      right value follows it to 25. */
  method CrossedConfigurationScenario()
  {
    var bar := new RangeSeekBar(10, 5, 25, 75, 8.0, 15.0, 1.0);
    assert bar.minimum == 0 && bar.maximum == 5;
    assert bar.leftValue == 25 && bar.rightValue == 25;
  }

  /** Wrap-around on the widest domain. On [Int.MIN, Int.MAX] the `Int`
      difference `maximum - minimum` wraps to -1, and the value 0,
      inside the domain, is placed at the fraction 2^31, far outside [0, 1].
      This is why the bounds above are stated for domains whose width fits
      in an `Int`. */
  method WideDomainScenario()
  {
    var bar := new RangeSeekBar(INT_MIN, INT_MAX, 0, 0, 8.0, 15.0, 1.0);
    assert bar.minimum == INT_MIN && bar.maximum == INT_MAX && bar.leftValue == 0;
    assert !bar.SpanFits();
    assert bar.RelativeMax() == -1.0;
    assert bar.Relative(0) == 2147483648.0;
  }

  function Last(s: seq<Notification>): Notification
    requires s != []
  {
    s[|s| - 1]
  }

  /** A fraction of `d` between 0 and 1 scales `d` into [0, d]. */
  lemma ScaleWithin(t: real, d: real)
    ensures 0.0 <= t <= 1.0 && 0.0 <= d ==> 0.0 <= t * d <= d
  {
    if 0.0 <= t <= 1.0 && 0.0 <= d {
      ProductNonNegative(t, d);
      ProductNonNegative(1.0 - t, d);
      Distribute(1.0, t, d);
    }
  }

  lemma FractionWithin(a: real, s: real)
    ensures 0.0 <= a <= s && 0.0 < s ==> 0.0 <= a / s <= 1.0
  {
    if 0.0 <= a <= s && 0.0 < s {
      DivideMonotone(a, s, s);
    }
  }

  /** Shifting an interval by `k` and moving to a later fraction of it moves
      a point by at least `k`. */
  lemma LerpShift(t1: real, t2: real, lo: real, hi: real, k: real)
    requires t1 <= t2 && lo <= hi
    ensures Lerp(t2, lo + k, hi + k) - Lerp(t1, lo, hi) >= k
  {
    var d := hi - lo;
    assert Lerp(t2, lo + k, hi + k) - Lerp(t1, lo, hi) == t2 * d - t1 * d + k;
    assert t2 * d - t1 * d == (t2 - t1) * d by { Distribute(t2, t1, d); }
    assert (t2 - t1) * d >= 0.0 by { ProductNonNegative(t2 - t1, d); }
  }

  /** The `Int` that the point a fraction `t` of the width `s` past `m`
      converts to. A fraction within [0, 1] of a whole width that keeps
      within the `Int` range gives a value within [m, m + s]. */
  function ValueAt(t: real, s: real, m: Int32): (v: Int32)
    ensures 0.0 <= t <= 1.0 && 0.0 <= s && s == s.Floor as real && m as real + s <= INT_MAX as real ==>
      m as real <= v as real <= m as real + s
  {
    ValueAtWithin(t, s, m);
    FloatToInt(t * s + m as real)
  }

  lemma ValueAtWithin(t: real, s: real, m: Int32)
    ensures 0.0 <= t <= 1.0 && 0.0 <= s && s == s.Floor as real && m as real + s <= INT_MAX as real ==>
      m as real <= FloatToInt(t * s + m as real) as real <= m as real + s
  {
    if 0.0 <= t <= 1.0 && 0.0 <= s && s == s.Floor as real && m as real + s <= INT_MAX as real {
      var y, mx := t * s + m as real, m + s.Floor;
      assert 0.0 <= t * s <= s by { ScaleWithin(t, s); }
      assert mx as real == m as real + s;
      assert m as real <= y <= mx as real;
      FloatToIntBetween(y, m, mx);
    }
  }

  /** Interpolating the fraction of [m, m + s] at which `ValueAt(t, s, m)`
      lies over [lo, hi] lands less than (hi - lo)/s away from where `t`
      itself lands. */
  lemma ValueAtNear(t: real, s: real, m: Int32, lo: real, hi: real)
    requires 0.0 <= t <= 1.0 && 0.0 < s && m as real + s <= INT_MAX as real && lo < hi
    ensures Abs(Lerp((ValueAt(t, s, m) - m) as real / s, lo, hi) - Lerp(t, lo, hi)) < (hi - lo) / s
  {
    var y := t * s + m as real;
    assert 0.0 <= t * s <= s by { ScaleWithin(t, s); }
    FloatToIntNear(y);
    StepBound(FloatToInt(y), y, m, s, t, lo, hi);
  }

  /** Replacing the exact value `y` = t*s + m by an integer `v` less than one
      away moves its interpolated point by less than (hi - lo)/s. */
  lemma StepBound(v: int, y: real, m: int, s: real, t: real, lo: real, hi: real)
    requires 0.0 < s && lo < hi && y - m as real == t * s && Abs(v as real - y) < 1.0
    ensures Abs(Lerp((v - m) as real / s, lo, hi) - Lerp(t, lo, hi)) < (hi - lo) / s
  {
    var e := v as real - y;
    QuotientStep(v, y, m, s, t);
    LerpStep((v - m) as real / s, t, lo, hi, e / s);
    ScaledBound(e, s, hi - lo);
  }

  lemma QuotientStep(v: int, y: real, m: int, s: real, t: real)
    requires 0.0 < s && y - m as real == t * s
    ensures (v - m) as real / s - t == (v as real - y) / s
  {
    QuotientOf(y - m as real, t, s);
    DivDiff((v - m) as real, y - m as real, s);
  }

  lemma LerpStep(u: real, t: real, lo: real, hi: real, k: real)
    requires u - t == k
    ensures Lerp(u, lo, hi) - Lerp(t, lo, hi) == k * (hi - lo)
  {
    Distribute(u, t, hi - lo);
  }

  lemma ScaledBound(e: real, s: real, d: real)
    requires Abs(e) < 1.0 && 0.0 < s && 0.0 < d
    ensures Abs((e / s) * d) < d / s
  {
    DivMulComm(e, s, d);
    DividePositive(d, s);
    AbsScale(e, d / s);
  }

  lemma Distribute(a: real, b: real, d: real)
    ensures a * d - b * d == (a - b) * d
  {
  }

  lemma ProductNonNegative(a: real, b: real)
    requires 0.0 <= a && 0.0 <= b
    ensures 0.0 <= a * b
  {
  }

  lemma QuotientOf(a: real, t: real, s: real)
    requires s != 0.0 && a == t * s
    ensures a / s == t
  {
  }

  lemma DividePositive(d: real, s: real)
    requires 0.0 < d && 0.0 < s
    ensures 0.0 < d / s
  {
  }

  lemma DivDiff(a: real, b: real, s: real)
    requires s != 0.0
    ensures a / s - b / s == (a - b) / s
  {
  }

  lemma DivMulCancel(a: real, s: real)
    requires s != 0.0
    ensures (a / s) * s == a
  {
  }

  lemma DivMulComm(e: real, s: real, d: real)
    requires s != 0.0
    ensures (e / s) * d == e * (d / s)
  {
  }

  /** A ratio is 0 exactly when its numerator is, and 1 exactly when the
      two are equal. */
  lemma RatioExtremes(a: real, s: real)
    requires s != 0.0
    ensures a / s == 0.0 <==> a == 0.0
    ensures a / s == 1.0 <==> a == s
  {
    assert (a / s) * s == a;
  }

  lemma DivideMonotone(a: real, b: real, s: real)
    requires a <= b && 0.0 < s
    ensures a / s <= b / s
  {
    assert b / s - a / s == (b - a) / s;
  }

  lemma AbsScale(e: real, k: real)
    requires Abs(e) < 1.0 && 0.0 < k
    ensures Abs(e * k) < k
  {
    if e < 0.0 {
      assert Abs(e * k) == (-e) * k;
      assert (-e) * k < 1.0 * k;
    } else {
      assert e * k < 1.0 * k;
    }
  }
}
