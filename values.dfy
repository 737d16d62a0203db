/** Metric names, metric cells and the number formatting that print_metrics applies
    before it stores a value in one of its six metric dictionaries. */
module MetricValues {

  type Name = string

  /** One cell of a metric dictionary. `Empty` is the empty-string sentinel `""`;
      `Num(x)` is a number rounded to ten decimal places; `Pct(p)` is the
      percentage string `f"{100*x:.2f}%"` of an accuracy-family metric, held as
      the number `p` that stands before the `%` sign. */
  datatype Value = Empty | Num(x: real) | Pct(p: real)

  /** The number a non-empty cell denotes when it is compared:
      `float(v)` for a number, `float(v.strip("%"))` for a percentage. */
  function Magnitude(v: Value): (r: real)
    requires !v.Empty?
    ensures v == Num(r) || v == Pct(r)
  {
    match v
    case Num(x) => x
    case Pct(p) => p
  }

  /** Python truthiness of a cell: `""` and a numeric zero are falsy,
      while a percentage string such as "0.00%" is not. */
  predicate Falsy(v: Value): (b: bool)
    ensures v.Pct? ==> !b
    ensures v.Num? ==> (b <==> v.x == 0.0)
  {
    v.Empty? || (v.Num? && v.x == 0.0)
  }

  /** `not d.get(k)`: the key is missing or its value is falsy. */
  predicate FalsyAt(d: map<Name, Value>, k: Name): (b: bool)
    ensures k !in d ==> b
    ensures k in d && d[k].Pct? ==> !b
  {
    k !in d || Falsy(d[k])
  }

  /** Python's `sub in s` on strings. */
  predicate Contains(s: string, sub: string)
    decreases |s|
  {
    sub <= s || (|s| > 0 && Contains(s[1..], sub))
  }

  /** Names containing "accuracy" are shown as percentages and compared higher-is-better. */
  predicate IsAccuracy(name: Name) {
    Contains(name, "accuracy")
  }

  /** The validation variant of a metric name. */
  function ValKey(m: Name): Name {
    "val_" + m
  }

  /** `k.startswith("val_")`. */
  predicate IsValKey(k: Name) {
    "val_" <= k
  }

  lemma ValKeyParts(m: Name)
    ensures IsValKey(ValKey(m)) && ValKey(m)[4..] == m
  {
  }

  /** A name that starts with "val_" is the validation variant of the rest of it. */
  lemma ValKeyOfBase(k: Name)
    requires IsValKey(k)
    ensures ValKey(k[4..]) == k
  {
    assert k == k[..4] + k[4..];
  }

  // ---------------------------------------------------------------------------
  // Rounding

  function Pow10(d: nat): (p: nat)
    ensures p > 0
  {
    if d == 0 then 1 else 10 * Pow10(d - 1)
  }

  /** Rounding to `d` decimal places, half upwards, on exact reals.
      It stands for Python's `round(x, 10)` and for the `:.2f` / `:.10f` format
      specifiers, which round binary floats half to even. */
  function RoundTo(x: real, d: nat): real {
    RoundScaled(x, Pow10(d) as real)
  }

  /** Rounding to the nearest multiple of `1 / p`. */
  function RoundScaled(x: real, p: real): real
    requires p > 0.0
  {
    (ScaledFloor(x, p) as real) / p
  }

  function ScaledFloor(x: real, p: real): int {
    (x * p + 0.5).Floor
  }

  lemma ScaledFloorMonotone(x: real, y: real, p: real)
    requires x <= y && p > 0.0
    ensures ScaledFloor(x, p) <= ScaledFloor(y, p)
  {
    assert x * p <= y * p;
  }

  lemma DivMonotone(a: int, b: int, p: real)
    requires a <= b && p > 0.0
    ensures (a as real) / p <= (b as real) / p
  {
  }

  lemma RoundScaledMonotone(x: real, y: real, p: real)
    requires x <= y && p > 0.0
    ensures RoundScaled(x, p) <= RoundScaled(y, p)
  {
    ScaledFloorMonotone(x, y, p);
    DivMonotone(ScaledFloor(x, p), ScaledFloor(y, p), p);
  }

  /** Rounding can merge two values but never reverses their order. */
  lemma RoundToMonotone(x: real, y: real, d: nat)
    requires x <= y
    ensures RoundTo(x, d) <= RoundTo(y, d)
  {
    RoundScaledMonotone(x, y, Pow10(d) as real);
  }

  /** The cell stored for metric `name` with raw value `x`:
      `round(x, 10)`, then `f"{100*r:.2f}%"` for an accuracy-family name. */
  function Format(name: Name, x: real): (v: Value)
    ensures !v.Empty?
    ensures v.Pct? <==> IsAccuracy(name)
  {
    var r := RoundTo(x, 10);
    if IsAccuracy(name) then Pct(RoundTo(100.0 * r, 2)) else Num(r)
  }

  /** Formatting keeps the order of the raw values (it may turn a strict
      difference into equality, never into the opposite difference). */
  lemma FormatMonotone(name: Name, x: real, y: real)
    requires x <= y
    ensures Magnitude(Format(name, x)) <= Magnitude(Format(name, y))
  {
    RoundToMonotone(x, y, 10);
    var rx, ry := RoundTo(x, 10), RoundTo(y, 10);
    if IsAccuracy(name) {
      RoundToMonotone(100.0 * rx, 100.0 * ry, 2);
    }
  }

  /** An accuracy of 0.8765432109876 is kept as 0.876543211 and shown as "87.65%". */
  lemma AccuracyFormatExample()
    ensures RoundTo(0.8765432109876, 10) == 0.876543211
    ensures Format("val_accuracy", 0.8765432109876) == Pct(87.65)
  {
    assert Pow10(2) == 100;
    assert Pow10(10) == 10000000000 by {
      assert Pow10(5) == 100000;
    }
    assert IsAccuracy("val_accuracy") by {
      assert "accuracy" <= "val_accuracy"[4..];
    }
  }

  // ---------------------------------------------------------------------------
  // Errors

  /** The exceptions print_metrics raises: the ValueError of line 49, the
      AttributeError of `model.optimizer` on a missing model at line 89, and a
      KeyError for a dictionary lookup of a key that is not there. */
  datatype Error = ValueError | AttributeError | KeyError(key: Name)

  datatype Result<T> = Success(value: T) | Failure(error: Error)

  datatype Option<T> = None | Some(value: T)

  // ---------------------------------------------------------------------------
  // Sequences of per-epoch values

  /** A mapping from column name to per-epoch values: `history.history`
      for the current run, the previous run's table for the earlier one. */
  type Series = map<Name, seq<real>>

  predicate NonEmptyColumns(s: Series) {
    forall k :: k in s ==> |s[k]| > 0
  }

  /** `seq[-1]` (or `.iat[-1]`): the last recorded epoch. */
  function Last(s: seq<real>): real
    requires |s| > 0
  {
    s[|s| - 1]
  }

  /** `s.index(x)`: the first position of `x` in `s`. */
  function IndexOf(s: seq<Name>, x: Name): (i: nat)
    requires x in s
    ensures i < |s| && s[i] == x
    ensures forall j :: 0 <= j < i ==> s[j] != x
  {
    if s[0] == x then 0 else 1 + IndexOf(s[1..], x)
  }

  predicate NoDuplicates(s: seq<Name>) {
    forall i, j :: 0 <= i < j < |s| ==> s[i] != s[j]
  }
}
