/**
 * The court counter of src/components/CourtConfig.jsx: the increment and
 * decrement handlers, the typed-input clamp and the blur reset. A handler's
 * call to `onCourtsChange` becomes its `Some` result; `None` means nothing is
 * emitted.
 */
module CourtConfig {
  import opened Wrappers

  const MinCourts: real := 1.0
  const MaxCourts: real := 10.0

  /** A JavaScript number as `Number(text)` may produce it. Signed zero is not distinguished. */
  datatype JsNumber = Finite(value: real) | PosInfinity | NegInfinity | NaN

  /** `Math.min(a, b)`: `NaN` if either is `NaN`, otherwise the smaller. */
  function JsMin(a: JsNumber, b: JsNumber): (r: JsNumber)
    ensures r.NaN? <==> a.NaN? || b.NaN?
    ensures !r.NaN? ==> (r == a || r == b) && LessEq(r, a) && LessEq(r, b)
  {
    if a.NaN? || b.NaN? then NaN
    else if LessEq(a, b) then a else b
  }

  /** `Math.max(a, b)`: `NaN` if either is `NaN`, otherwise the larger. */
  function JsMax(a: JsNumber, b: JsNumber): (r: JsNumber)
    ensures r.NaN? <==> a.NaN? || b.NaN?
    ensures !r.NaN? ==> (r == a || r == b) && LessEq(a, r) && LessEq(b, r)
  {
    if a.NaN? || b.NaN? then NaN
    else if LessEq(a, b) then b else a
  }

  /** `a <= b` on numbers that are not `NaN`. */
  predicate LessEq(a: JsNumber, b: JsNumber)
    requires !a.NaN? && !b.NaN?
  {
    match (a, b)
    case (NegInfinity, _) => true
    case (_, PosInfinity) => true
    case (Finite(x), Finite(y)) => x <= y
    case _ => false
  }

  /** `handleIncrement`: nothing when disabled, else `Math.min(10, courts + 1)`. */
  function Increment(courts: real, disabled: bool): (r: Option<real>)
    ensures r.None? <==> disabled
    ensures r.Some? ==> r.value <= MaxCourts && r.value <= courts + 1.0
    ensures r.Some? ==> r.value == MaxCourts || r.value == courts + 1.0
  {
    if disabled then None
    else Some(if MaxCourts <= courts + 1.0 then MaxCourts else courts + 1.0)
  }

  /** `handleDecrement`: nothing when disabled, else `Math.max(1, courts - 1)`. */
  function Decrement(courts: real, disabled: bool): (r: Option<real>)
    ensures r.None? <==> disabled
    ensures r.Some? ==> r.value >= MinCourts && r.value >= courts - 1.0
    ensures r.Some? ==> r.value == MinCourts || r.value == courts - 1.0
  {
    if disabled then None
    else Some(if courts - 1.0 <= MinCourts then MinCourts else courts - 1.0)
  }

  /** The Increment button's `disabled`. */
  predicate IncrementDisabled(courts: real, disabled: bool) {
    disabled || courts >= MaxCourts
  }

  /** The Decrement button's `disabled`. */
  predicate DecrementDisabled(courts: real, disabled: bool) {
    disabled || courts <= MinCourts
  }

  /**
   * The input's `onChange`: `text` is `e.target.value` and `parsed` is
   * `Number(text)`. The empty string and `NaN` emit nothing; anything else is
   * clamped with `Math.max(1, Math.min(10, v))`.
   */
  function TypedInput(text: string, parsed: JsNumber): (r: Option<JsNumber>)
    ensures r.None? <==> text == "" || parsed.NaN?
  {
    if text == "" then None
    else if parsed.NaN? then None
    else Some(JsMax(Finite(MinCourts), JsMin(Finite(MaxCourts), parsed)))
  }

  /** The input's `onBlur` puts `String(courts)` back when the text is empty, not a number, or out of range. */
  predicate BlurResets(text: string, parsed: JsNumber) {
    || text == ""
    || parsed.NaN?
    || (LessEq(parsed, Finite(MinCourts)) && parsed != Finite(MinCourts))
    || (LessEq(Finite(MaxCourts), parsed) && parsed != Finite(MaxCourts))
  }

  /** Whatever is typed, an emitted count is a finite number between 1 and 10. */
  lemma TypedInputInRange(text: string, parsed: JsNumber)
    ensures var r := TypedInput(text, parsed);
      r.Some? ==> r.value.Finite? && MinCourts <= r.value.value <= MaxCourts
  {
    var r := TypedInput(text, parsed);
    if r.Some? {
      var low := JsMin(Finite(MaxCourts), parsed);
      assert LessEq(low, Finite(MaxCourts));
      assert !low.PosInfinity?;
    }
  }

  /** A typed value already within [1, 10] is emitted unchanged; one outside is emitted as the nearer bound. */
  lemma TypedInputClamps(text: string, v: real)
    requires text != ""
    ensures MinCourts <= v <= MaxCourts ==> TypedInput(text, Finite(v)) == Some(Finite(v))
    ensures v < MinCourts ==> TypedInput(text, Finite(v)) == Some(Finite(MinCourts))
    ensures v > MaxCourts ==> TypedInput(text, Finite(v)) == Some(Finite(MaxCourts))
  {
  }

  /** The infinities are clamped to the bounds. */
  lemma TypedInputInfinities(text: string)
    requires text != ""
    ensures TypedInput(text, PosInfinity) == Some(Finite(MaxCourts))
    ensures TypedInput(text, NegInfinity) == Some(Finite(MinCourts))
  {
  }

  /**
   * Blur keeps the typed text exactly when `onChange` emitted that very value:
   * the two handlers agree on which inputs are valid.
   */
  lemma BlurAgreesWithChange(text: string, parsed: JsNumber)
    ensures !BlurResets(text, parsed) <==> TypedInput(text, parsed) == Some(parsed)
  {
    if !BlurResets(text, parsed) {
      assert parsed.Finite?;
    } else if text != "" && !parsed.NaN? {
      TypedInputInRange(text, parsed);
    }
  }

  /** An enabled Increment button raises the count by one, never past 10. */
  lemma IncrementEnabled(courts: real, disabled: bool)
    requires !IncrementDisabled(courts, disabled)
    ensures Increment(courts, disabled) == Some(if courts + 1.0 <= MaxCourts then courts + 1.0 else MaxCourts)
    ensures Increment(courts, disabled).value > courts
  {
  }

  /** An enabled Decrement button lowers the count by one, never below 1. */
  lemma DecrementEnabled(courts: real, disabled: bool)
    requires !DecrementDisabled(courts, disabled)
    ensures Decrement(courts, disabled) == Some(if courts - 1.0 >= MinCourts then courts - 1.0 else MinCourts)
    ensures Decrement(courts, disabled).value < courts
  {
  }

  /** At the bounds the buttons are disabled, and their handlers would re-emit the same count anyway. */
  lemma BoundsAreFixed()
    ensures IncrementDisabled(MaxCourts, false) && Increment(MaxCourts, false) == Some(MaxCourts)
    ensures DecrementDisabled(MinCourts, false) && Decrement(MinCourts, false) == Some(MinCourts)
  {
  }

  /** Within the range the two buttons undo each other. */
  lemma StepsUndo(courts: real)
    ensures MinCourts <= courts <= MaxCourts - 1.0 ==>
      Decrement(Increment(courts, false).value, false) == Some(courts)
    ensures MinCourts + 1.0 <= courts <= MaxCourts ==>
      Increment(Decrement(courts, false).value, false) == Some(courts)
  {
  }

  /** A count in [1, 10] stays in [1, 10] under either button. */
  lemma StepsStayInRange(courts: real, disabled: bool)
    requires MinCourts <= courts <= MaxCourts
    ensures Increment(courts, disabled).Some? ==> MinCourts <= Increment(courts, disabled).value <= MaxCourts
    ensures Decrement(courts, disabled).Some? ==> MinCourts <= Decrement(courts, disabled).value <= MaxCourts
  {
  }
}
