# RangeSeekBar in Dafny

A model of the dual-thumb range slider `RangeSeekBar` (Kotlin, Android).
The slider keeps an integer domain `[minimum, maximum]` and a selection
`[leftValue, rightValue]` inside it. Two thumbs are drawn on a horizontal
track, and touch gestures drag them. This model covers:

- the repair of a crossed configuration at construction;
- the geometry that maps values to pixel positions and back;
- the hit-test that decides which thumb a press captures;
- the touch state machine (press, move, release, anything else);
- the listener notification sent on release;
- the label fallback.

Two files:

- `kotlin_int.dfy` (module `KotlinInt`) holds the parts of Kotlin arithmetic
  the widget relies on:
  - `Int32` is the 32-bit `Int`.
  - `Wrap` is the wrap-around of `Int` subtraction.
  - `FloatToInt` is `Float.toInt()`. It rounds toward zero and saturates at
    the ends of the `Int` range.
  - `Quotient`, `Divide` and `NonFiniteToInt` cover float division. A zero
    divisor gives NaN or an infinity, and converting NaN gives 0.
  - `IntToString` is `Int.toString()`, with the inverse `ParseInt`.
  - Floats are idealised as `real`.
- `range_seek_bar.dfy` (module `RangeSeek`) holds the slider:
  - The class `RangeSeekBar` carries the source's fields. Its constructor
    performs the four repairs in place.
  - Pure functions give the geometry, the hit-test and the labels.
  - One method per touch action changes the fields, and `OnTouchEvent`
    dispatches to them.
  - Calls to the listener are recorded in the ghost sequence
    `notifications`.

Properties proved:

- Construction:
  - After construction, `minimum <= maximum` and
    `minimum <= leftValue <= rightValue`.
  - `rightValue <= maximum` holds exactly when the configured `leftValue`
    was at most `maximum`, because `leftValue` is never pulled down.
- Moves:
  - A move keeps `minimum <= leftValue <= rightValue <= maximum` for every
    candidate value.
  - A moving thumb collapses onto its sibling instead of crossing it.
- Hit-test: it uses open windows of half-width twice the hit radius, and
  the left thumb wins a press both windows hold.
- Geometry:
  - The right thumb's travel interval is the left thumb's shifted by one
    thumb diameter.
  - Given a domain whose width fits in an `Int`, an ordered selection and a
    travel interval that is not reversed:
    - the two thumbs are drawn at least a diameter apart;
    - neither thumb's disc reaches past an end of the track.
  - On a domain whose width fits in an `Int`, with floats idealised as
    exact reals, the value a move asks for inverts the drawn position
    exactly.
  - On such a domain, any pixel of the travel interval maps to a value drawn
    less than one value step away from it. This also holds only in the
    exact-real model.
- Release notifies the listener exactly once when one is registered. On a
  domain whose width fits in an `Int` with an ordered selection, the two
  fractions satisfy `0 <= left <= right <= 1`.
- A label with no custom text is exactly `Int.toString()` of the value. That
  text has no leading zero and no "-0", and it reads back as the value.
  Conversely, every such canonical numeral is the text of the number it
  denotes.

Behaviour of the source worth noting:

- The value a move asks for is truncated toward zero by `toInt()`
  (`RangeSeekBar.kt:209`, `:222`), not rounded. The round-trip bound is
  therefore one value step, which is (travel length)/(domain width) pixels,
  not one pixel.
- A single-point domain (`minimum == maximum`) is not special-cased.
  - The fractions sent to the listener are NaN or infinite (`Fraction`).
  - Every thumb position is NaN or infinite, so the hit-test captures
    nothing (`ThumbHit`).
  - A move asks for `minimum`.
  - A travel interval of length zero makes a move ask for 0 or an end of
    the `Int` range (`Candidate`).
- Hit windows are open intervals (`RangeSeekBar.kt:178-179`).
- The constructor never clamps `leftValue` down to `maximum`
  (`RangeSeekBar.kt:65-72`): `[10, 5]` with left 25 becomes `[0, 5]` with
  left and right 25 (`CrossedConfigurationScenario`).
- A disabled widget returns `false` without calling the platform's handler
  (`RangeSeekBar.kt:186-188`). Every enabled event returns the platform
  handler's result, whether or not a press hits a thumb.
- Any action other than press, move and release releases the thumb, even
  when none is captured (`RangeSeekBar.kt:237`).
- `maximum - minimum` is `Int` arithmetic and wraps. On a domain wider than
  `Int.MAX` the fractions leave `[0, 1]` (`WideDomainScenario` places 0 at
  2^31 on `[Int.MIN, Int.MAX]`). The bounds are therefore proved for domains
  whose width fits in an `Int` (`SpanFits`).
- No layout guard exists for an unmeasured widget. The layout is an input,
  and the geometry bounds are stated for travel intervals that are not
  reversed.

## Model

| member | source | states |
|---|---|---|
| RangeSeek.RangeSeekBar.constructor | app/src/main/java/io/kaeawc/rangeseekbar/RangeSeekBar.kt:62-72 | a crossed domain becomes [min(0, maximum), maximum]; leftValue is raised to minimum, rightValue lowered to maximum then raised to leftValue; afterwards minimum <= maximum and minimum <= leftValue <= rightValue, and rightValue <= maximum iff the configured leftValue <= maximum; no thumb captured, no listener |
| RangeSeek.RangeSeekBar.SetOnRangeSeekBarChangeListener | app/src/main/java/io/kaeawc/rangeseekbar/RangeSeekBar.kt:250-252 | a listener is registered afterwards |
| RangeSeek.RangeSeekBar.ReadLeftLabel | app/src/main/java/io/kaeawc/rangeseekbar/RangeSeekBar.kt:116-121 | a non-empty custom label is returned unchanged; with none, the result is exactly `leftValue.toString()`, a canonical numeral that parses back to leftValue |
| RangeSeek.RangeSeekBar.ReadRightLabel | app/src/main/java/io/kaeawc/rangeseekbar/RangeSeekBar.kt:123-128 | the same for rightLabel and rightValue |
| RangeSeek.RangeSeekBar.RelativeMax | app/src/main/java/io/kaeawc/rangeseekbar/RangeSeekBar.kt:139 | the float width is zero exactly when minimum == maximum, and is the exact width when it fits in an Int |
| RangeSeek.RangeSeekBar.Relative | app/src/main/java/io/kaeawc/rangeseekbar/RangeSeekBar.kt:141-143 | the fraction is 0 exactly at minimum and 1 exactly at maximum, and lies in [0, 1] for values of a domain whose width fits in an Int |
| RangeSeek.RangeSeekBar.RelativeExact | app/src/main/java/io/kaeawc/rangeseekbar/RangeSeekBar.kt:141-143 | without wrap-around the fraction is (value - minimum)/(maximum - minimum) |
| RangeSeek.RangeSeekBar.RelativeMonotone | app/src/main/java/io/kaeawc/rangeseekbar/RangeSeekBar.kt:141-143 | on a domain whose width fits in an Int, a larger value never gets a smaller fraction |
| RangeSeek.RangeSeekBar.Fraction | app/src/main/java/io/kaeawc/rangeseekbar/RangeSeekBar.kt:244-246 | the float the listener receives is the finite fraction Relative(value) on a proper domain and NaN or infinite on a single-point one |
| RangeSeek.RangeSeekBar.LeftMaxCenter | app/src/main/java/io/kaeawc/rangeseekbar/RangeSeekBar.kt:146 | the left thumb travels the track width less four thumb radii |
| RangeSeek.RangeSeekBar.RightMinCenter | app/src/main/java/io/kaeawc/rangeseekbar/RangeSeekBar.kt:147 | the right thumb's leftmost centre is one diameter right of the left thumb's |
| RangeSeek.RangeSeekBar.RightMaxCenter | app/src/main/java/io/kaeawc/rangeseekbar/RangeSeekBar.kt:148 | the right thumb's rightmost centre is one diameter right of the left thumb's, and its disc then ends at the right edge of the track |
| RangeSeek.RangeSeekBar.LeftXPosition | app/src/main/java/io/kaeawc/rangeseekbar/RangeSeekBar.kt:150-154 | the left thumb sits at its leftmost centre at minimum, at its rightmost at maximum, and within its travel interval for values in the domain |
| RangeSeek.RangeSeekBar.RightXPosition | app/src/main/java/io/kaeawc/rangeseekbar/RangeSeekBar.kt:156-160 | the same for the right thumb and its travel interval |
| RangeSeek.RangeSeekBar.ThumbsStayOnTrack | app/src/main/java/io/kaeawc/rangeseekbar/RangeSeekBar.kt:145-160 | for values in a domain whose width fits and a left travel interval that is not reversed, the left thumb's disc starts at or after the track's left edge and the right thumb's ends at or before its right edge |
| RangeSeek.RangeSeekBar.ThumbRadius | app/src/main/java/io/kaeawc/rangeseekbar/RangeSeekBar.kt:164 | the pixel radius is the configured radius at density 1, and non-negative for a non-negative radius and density |
| RangeSeek.RangeSeekBar.ThumbHitRadius | app/src/main/java/io/kaeawc/rangeseekbar/RangeSeekBar.kt:166 | the same for the touch radius |
| RangeSeek.RangeSeekBar.ThumbsNeverOverlap | app/src/main/java/io/kaeawc/rangeseekbar/RangeSeekBar.kt:145-160 | on a domain whose width fits, with minimum <= leftValue <= rightValue <= maximum and a left travel interval that is not reversed, the right thumb is drawn at least one diameter right of the left thumb |
| RangeSeek.RangeSeekBar.ThumbHit | app/src/main/java/io/kaeawc/rangeseekbar/RangeSeekBar.kt:172-182 | Left iff the press lies strictly within twice the hit radius of the left thumb; otherwise Right iff it does for the right thumb; otherwise None; always None on a single-point domain |
| RangeSeek.RangeSeekBar.Candidate | app/src/main/java/io/kaeawc/rangeseekbar/RangeSeekBar.kt:206-209 | a move within the travel interval asks for a value within the domain; a travel interval of length zero gives the converted NaN or infinity |
| RangeSeek.RangeSeekBar.CandidateAtPosition | app/src/main/java/io/kaeawc/rangeseekbar/RangeSeekBar.kt:206-209 | on a domain whose width fits in an Int, a move to the pixel where a value is drawn asks for exactly that value |
| RangeSeek.RangeSeekBar.CandidateNearPosition | app/src/main/java/io/kaeawc/rangeseekbar/RangeSeekBar.kt:206-209 | on a domain whose width fits in an Int, any pixel of the travel interval asks for a value in the domain that is drawn less than (travel length)/(domain width) from it |
| RangeSeek.ClampLeft | app/src/main/java/io/kaeawc/rangeseekbar/RangeSeekBar.kt:210-216 | a candidate past the right thumb collapses onto it; otherwise the result is the candidate clamped into [minimum, rightValue] |
| RangeSeek.ClampRight | app/src/main/java/io/kaeawc/rangeseekbar/RangeSeekBar.kt:223-229 | a candidate before the left thumb collapses onto it; otherwise the result is the candidate clamped into [leftValue, maximum] |
| RangeSeek.RangeSeekBar.Press | app/src/main/java/io/kaeawc/rangeseekbar/RangeSeekBar.kt:192-201 | records the press position and captures the thumb the hit-test picks |
| RangeSeek.RangeSeekBar.Drag | app/src/main/java/io/kaeawc/rangeseekbar/RangeSeekBar.kt:202-232 | the captured thumb takes its clamp of the requested value and the other keeps its value; no capture changes nothing; minimum <= leftValue <= rightValue <= maximum is preserved |
| RangeSeek.RangeSeekBar.Release | app/src/main/java/io/kaeawc/rangeseekbar/RangeSeekBar.kt:233-236 | releases the thumb and records one notification of the two fractions when a listener is registered |
| RangeSeek.RangeSeekBar.OnChange | app/src/main/java/io/kaeawc/rangeseekbar/RangeSeekBar.kt:243-248 | appends exactly one notification (leftValue, rightValue as fractions) when a listener is registered, none otherwise; the fractions satisfy 0 <= left <= right <= 1 for an ordered selection on a domain whose width fits in an Int, and neither is finite on a single-point domain |
| RangeSeek.RangeSeekBar.OnTouchEvent | app/src/main/java/io/kaeawc/rangeseekbar/RangeSeekBar.kt:184-241 | disabled: returns false, changes nothing; enabled: returns the platform result; press captures by hit-test, move drags the captured thumb, release lets go and notifies, any other action lets go silently; bounds, radii, labels and flags never change and the selection order is preserved |
| RangeSeek.Lerp | app/src/main/java/io/kaeawc/rangeseekbar/RangeSeekBar.kt:153 | fraction 0 gives the start, 1 the end, and a fraction in [0, 1] a point between them |
| RangeSeek.Unlerp | app/src/main/java/io/kaeawc/rangeseekbar/RangeSeekBar.kt:208 | interpolating the fraction gives back the pixel, and a pixel within the interval gives a fraction in [0, 1] |
| RangeSeek.UnlerpLerp | app/src/main/java/io/kaeawc/rangeseekbar/RangeSeekBar.kt:208 | the fraction of an interpolated point is the fraction interpolated |
| RangeSeek.ValueAt | app/src/main/java/io/kaeawc/rangeseekbar/RangeSeekBar.kt:209 | a fraction in [0, 1] of a whole width starting at m converts to an Int in [m, m + width] |
| RangeSeek.ValueAtNear | app/src/main/java/io/kaeawc/rangeseekbar/RangeSeekBar.kt:206-209 | the converted value's own fraction, interpolated, lands less than one value step from the original point |
| KotlinInt.Wrap | app/src/main/java/io/kaeawc/rangeseekbar/RangeSeekBar.kt:139 | the Int result of a subtraction is congruent to the exact difference modulo 2^32, and equal to it when it fits |
| KotlinInt.WrapInjective | app/src/main/java/io/kaeawc/rangeseekbar/RangeSeekBar.kt:139-143 | two differences less than 2^32 apart wrap to the same Int exactly when they are equal |
| KotlinInt.FloatToInt | app/src/main/java/io/kaeawc/rangeseekbar/RangeSeekBar.kt:209 | rounds toward zero inside the Int range and saturates at its ends |
| KotlinInt.FloatToIntBetween | app/src/main/java/io/kaeawc/rangeseekbar/RangeSeekBar.kt:209 | a float between two Ints converts to an Int between them, and an integral float to itself |
| KotlinInt.FloatToIntNear | app/src/main/java/io/kaeawc/rangeseekbar/RangeSeekBar.kt:209 | within the Int range, conversion moves a value by less than one |
| KotlinInt.Divide | app/src/main/java/io/kaeawc/rangeseekbar/RangeSeekBar.kt:141 | float division is finite exactly for a non-zero divisor, where quotient times divisor is the dividend; 0/0 and only 0/0 is NaN; a positive number over zero is +infinity and a negative one -infinity |
| KotlinInt.NonFiniteToInt | app/src/main/java/io/kaeawc/rangeseekbar/RangeSeekBar.kt:208-209 | NaN, or an infinity times zero, converts to 0; an infinity saturates at the end of its sign |
| KotlinInt.IntToString | app/src/main/java/io/kaeawc/rangeseekbar/RangeSeekBar.kt:118 | the decimal text is non-empty, starts with '-' exactly for negative numbers, and has no leading zero after the sign |
| KotlinInt.IntToStringRoundTrip | app/src/main/java/io/kaeawc/rangeseekbar/RangeSeekBar.kt:118 | the decimal text is a canonical numeral that parses back to the number |
| KotlinInt.ParseIntRoundTrip | app/src/main/java/io/kaeawc/rangeseekbar/RangeSeekBar.kt:118 | every canonical numeral is the text of the number it denotes, so `toString` and parsing are inverse on canonical numerals |

## Left out

- Drawing (`onDraw`, `drawTrack`, `drawThumb`, `drawLabel`, `Paint`,
  `Canvas`): these are foreign drawing primitives. `onDraw` fills the
  track rectangle from the layout and the active-track rectangle from
  `leftXPosition`/`rightXPosition`, which are modelled.
- Layout queries (`drawableWidth`, `undrawableWidth`, `drawableLeft`,
  `drawableRight`, `seekBarY`): they read the platform's padding, margins
  and width. The model takes the drawable left and drawable width as the
  `Layout` input.
- Reading styled attributes and their defaults, paint colours and text size:
  platform plumbing. The constructor takes the six configured values as
  parameters.
- The `resources.displayMetrics.density` lookup: a platform query, taken as
  the constructor parameter `density`.
- Pointer bookkeeping (`activePointerId`, `pointerIndex`, `getPointerId`,
  `findPointerIndex`, `getX`): the event carries the tracked pointer's x
  coordinate. A move therefore reads the x of the pointer the press
  recorded.
- `super.onTouchEvent`: the platform's own handling is unseen. Its result
  is the parameter `superHandled`, and its side effects are not modelled.
- The listener object and `OnRangeSeekBarChangedListener`: foreign code. The
  model records whether one is registered, plus each call's arguments, in
  the ghost sequence `notifications`.
- IEEE `Float` rounding: floats are exact reals, and the `Int`-to-`Float`
  conversion of values beyond 2^24 is exact in the model. NaN and the
  infinities are modelled only where a zero divisor produces them.
- RangeSeek.RangeSeekBar.Relative: the [0, 1] bound is stated only for
  domains whose width fits in an `Int`. Wider domains wrap, as
  `WideDomainScenario` shows.
- RangeSeek.RangeSeekBar.LeftXPosition: the bound within the travel
  interval is stated only for a domain whose width fits in an `Int` and a
  travel interval that is not reversed.
- RangeSeek.RangeSeekBar.RightXPosition: the same as `LeftXPosition`.
- RangeSeek.RangeSeekBar.Candidate: the bound within the domain is stated
  only for the same conditions.
- RangeSeek.RangeSeekBar.ThumbsNeverOverlap: the separation is promised only
  on a domain whose width fits in an `Int`, with an ordered selection and a
  left travel interval that is not reversed. On `[Int.MIN, Int.MAX]` the
  wrapped fractions can put the right thumb left of the left thumb.
- RangeSeek.RangeSeekBar.RelativeMonotone: promised only on a domain whose
  width fits in an `Int`. On `[Int.MIN, Int.MAX]` the wrapped fractions
  give -1 a smaller fraction than `Int.MIN`.
- RangeSeek.RangeSeekBar.OnChange: the `[0, 1]` bound on the reported
  fractions is promised only on a domain whose width fits in an `Int`.
  Wider domains wrap, as `WideDomainScenario` shows.
- RangeSeek.RangeSeekBar.CandidateAtPosition: promised only on a domain
  whose width fits in an `Int`, since wider domains wrap. It also holds only
  for floats idealised as exact reals. With 32-bit float rounding, the
  truncating `toInt()` can come out one below the drawn value.
- RangeSeek.RangeSeekBar.CandidateNearPosition: promised only on a domain
  whose width fits in an `Int`, since on wider ones the step is negative.
  The strict bound of one value step is likewise proved only for exact
  reals. It does not account for float rounding.
