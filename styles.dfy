/** The comparator `get_tdstyle` nested in print_metrics and the per-row choice
    of comparison direction. */
module Styles {
  import opened MetricValues

  /** The style of a current-value cell: the green "good" style, the tomato
      "bad" style, or none (`""`). */
  datatype Style = NoStyle | Good | Bad

  /** Exchanging the roles of the two operands exchanges good and bad. */
  function Flip(s: Style): Style {
    match s
    case NoStyle => NoStyle
    case Good => Bad
    case Bad => Good
  }

  /** `get_tdstyle(prev, curr, higher_is_better)`: no style when either side is
      the empty sentinel, otherwise the sign of `curr - prev` read in the given
      direction. */
  function GetTdStyle(prev: Value, curr: Value, higherIsBetter: bool): (s: Style)
    ensures s == NoStyle <==> prev.Empty? || curr.Empty? || Magnitude(curr) == Magnitude(prev)
  {
    if prev.Empty? || curr.Empty? then NoStyle
    else
      var result := Magnitude(curr) - Magnitude(prev);
      if higherIsBetter then
        (if result > 0.0 then Good else if result < 0.0 then Bad else NoStyle)
      else
        (if result > 0.0 then Bad else if result < 0.0 then Good else NoStyle)
  }

  /** The direction rule of every report row: "loss" is lower-is-better, any
      other name containing "accuracy" is higher-is-better, everything else is
      left unstyled. Validation rows use the base name, not the "val_" key. */
  function RowStyle(name: Name, prev: Value, curr: Value): (s: Style)
    ensures name != "loss" && !IsAccuracy(name) ==> s == NoStyle
    ensures s != NoStyle ==> !prev.Empty? && !curr.Empty? && Magnitude(curr) != Magnitude(prev)
  {
    if name == "loss" then GetTdStyle(prev, curr, false)
    else if IsAccuracy(name) then GetTdStyle(prev, curr, true)
    else NoStyle
  }

  /** What a row's style means: for "loss" a drop is good and a rise is bad,
      for an accuracy-family name a rise is good and a drop is bad, every other
      row and every row with an empty side is unstyled. */
  lemma RowStyleMeaning(name: Name, prev: Value, curr: Value)
    ensures RowStyle(name, prev, curr) == Good <==>
      !prev.Empty? && !curr.Empty? &&
      ((name == "loss" && Magnitude(curr) < Magnitude(prev)) ||
       (name != "loss" && IsAccuracy(name) && Magnitude(curr) > Magnitude(prev)))
    ensures RowStyle(name, prev, curr) == Bad <==>
      !prev.Empty? && !curr.Empty? &&
      ((name == "loss" && Magnitude(curr) > Magnitude(prev)) ||
       (name != "loss" && IsAccuracy(name) && Magnitude(curr) < Magnitude(prev)))
  {
  }

  /** The empty sentinel on either side means no style at all. */
  lemma EmptyMeansNoStyle(prev: Value, curr: Value, higherIsBetter: bool)
    requires prev.Empty? || curr.Empty?
    ensures GetTdStyle(prev, curr, higherIsBetter) == NoStyle
  {
  }

  /** Higher is better: good exactly on an increase, bad exactly on a decrease,
      none exactly when the two magnitudes are equal. */
  lemma HigherIsBetterVerdicts(prev: Value, curr: Value)
    requires !prev.Empty? && !curr.Empty?
    ensures GetTdStyle(prev, curr, true) == Good <==> Magnitude(curr) > Magnitude(prev)
    ensures GetTdStyle(prev, curr, true) == Bad <==> Magnitude(curr) < Magnitude(prev)
    ensures GetTdStyle(prev, curr, true) == NoStyle <==> Magnitude(curr) == Magnitude(prev)
  {
  }

  /** Lower is better is the same verdict with good and bad exchanged. */
  lemma LowerIsBetterFlips(prev: Value, curr: Value)
    ensures GetTdStyle(prev, curr, false) == Flip(GetTdStyle(prev, curr, true))
  {
  }

  /** Comparing the values in the other order exchanges good and bad. */
  lemma SwapOperandsFlips(prev: Value, curr: Value, higherIsBetter: bool)
    ensures GetTdStyle(curr, prev, higherIsBetter) == Flip(GetTdStyle(prev, curr, higherIsBetter))
  {
  }

  /** The verdict on formatted cells never contradicts the verdict on the raw
      numbers: rounding and percent formatting can hide an improvement or a
      regression (turning it into no style) but never show the opposite one. */
  lemma FormattingNeverReverses(name: Name, x: real, y: real, higherIsBetter: bool)
    requires x < y
    ensures GetTdStyle(Format(name, x), Format(name, y), higherIsBetter)
            != (if higherIsBetter then Bad else Good)
  {
    FormatMonotone(name, x, y);
  }

  /** A loss falling from 0.5 to 0.3 is styled good; an accuracy falling from
      "80.00%" to "75.00%" is styled bad; an empty side leaves the row plain. */
  lemma DirectionExamples()
    ensures RowStyle("loss", Num(0.5), Num(0.3)) == Good
    ensures RowStyle("accuracy", Pct(80.0), Pct(75.0)) == Bad
    ensures RowStyle("loss", Empty, Num(0.3)) == NoStyle
    ensures RowStyle("lr", Num(0.1), Num(0.2)) == NoStyle
  {
    assert IsAccuracy("accuracy");
    assert !IsAccuracy("lr");
  }

  /** An example of two different accuracies that are shown alike and compared
      as equal: 0.80001 and 0.80002 both become "80.00%". */
  lemma RoundingHidesSmallDifferences()
    ensures Format("accuracy", 0.80001) == Format("accuracy", 0.80002) == Pct(80.0)
    ensures RowStyle("accuracy", Format("accuracy", 0.80001), Format("accuracy", 0.80002)) == NoStyle
  {
    assert IsAccuracy("accuracy");
    assert Pow10(2) == 100;
    assert Pow10(10) == 10000000000 by {
      assert Pow10(5) == 100000;
    }
  }
}
