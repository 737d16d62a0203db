/** The reconciliation stages of print_metrics: extracting the previous and the
    current run's values into six dictionaries, backfilling the previous side,
    absorbing columns that only the previous run logged, making the test keys
    symmetric, and turning the dictionaries into report rows. */
module Reconciler {
  import opened MetricValues
  import opened Styles

  /** One of the six metric dictionaries, from metric (or "val_" key) to cell. */
  type Metrics = map<Name, Value>

  /** The test-set evaluation of one model: the names it declares
      (`model.metrics_names`) and the list `model.evaluate(...)` returned. */
  datatype Evaluation = Evaluation(names: seq<Name>, results: seq<real>)

  /** Every declared name has a result at its position. */
  predicate Covers(e: Evaluation) {
    |e.names| <= |e.results|
  }

  /** An evaluator ran and declares `m`. */
  predicate Declares(test: Option<Evaluation>, m: Name) {
    test.Some? && m in test.value.names
  }

  /** The formatted test result of `m`, taken at the first position of `m`
      among the declared names. */
  function TestValue(test: Option<Evaluation>, m: Name): (v: Value)
    requires Declares(test, m) && Covers(test.value)
    ensures !v.Empty? && (v.Pct? <==> IsAccuracy(m))
  {
    Format(m, test.value.results[IndexOf(test.value.names, m)])
  }

  /** The six dictionaries: {previous, current} x {training, validation, test}. */
  datatype MetricSets = MetricSets(
    prevTr: Metrics, prevVal: Metrics, prevTe: Metrics,
    currTr: Metrics, currVal: Metrics, currTe: Metrics)

  /** Validation counts as present when some history key starts with "val"
      (not "val_": a key such as "value" also switches it on). */
  predicate ValidationPresent(history: Series): (b: bool)
    ensures (exists k :: k in history && IsValKey(k)) ==> b
  {
    exists k :: k in history && "val" <= k
  }

  lemma ValidationPrefixQuirk()
    ensures ValidationPresent(map["loss" := [0.5], "value" := [1.0]])
    ensures "val_loss" !in map["loss" := [0.5], "value" := [1.0]]
  {
    var h := map["loss" := [0.5], "value" := [1.0]];
    assert "value" in h && "val" <= "value";
  }

  // ---------------------------------------------------------------------------
  // Previous run

  /** Lines 65-72: for every resolved name that the previous table has as a
      column, its last-row value; and, when validation is present and the
      table also has the "val_" column, that column's last-row value. */
  method ExtractPrevTraining(names: seq<Name>, table: Series, validationPresent: bool)
    returns (tr: Metrics, val: Metrics)
    requires NonEmptyColumns(table)
    ensures forall k :: k in tr <==> k in names && k in table
    ensures forall k :: k in tr ==> tr[k] == Format(k, Last(table[k]))
    ensures forall m :: m in names ==>
      (ValKey(m) in val <==> validationPresent && m in table && ValKey(m) in table)
    ensures forall m :: ValKey(m) in val ==>
      m in names && ValKey(m) in table && val[ValKey(m)] == Format(m, Last(table[ValKey(m)]))
    ensures forall k :: k in val ==> IsValKey(k)
  {
    tr, val := map[], map[];
    for i := 0 to |names|
      invariant forall k :: k in tr <==> k in names[..i] && k in table
      invariant forall k :: k in tr ==> tr[k] == Format(k, Last(table[k]))
      invariant forall m :: m in names[..i] ==>
        (ValKey(m) in val <==> validationPresent && m in table && ValKey(m) in table)
      invariant forall m :: ValKey(m) in val ==>
        m in names[..i] && ValKey(m) in table && val[ValKey(m)] == Format(m, Last(table[ValKey(m)]))
      invariant forall k :: k in val ==> IsValKey(k)
    {
      var metric := names[i];
      var valMetric := ValKey(metric);
      ValKeyParts(metric);
      assert names[..i + 1] == names[..i] + [metric];
      if metric in table {
        tr := tr[metric := Format(metric, Last(table[metric]))];
        if validationPresent && valMetric in table {
          val := val[valMetric := Format(metric, Last(table[valMetric]))];
        }
      }
      forall m | ValKey(m) in val
        ensures m in names[..i + 1] && ValKey(m) in table
        ensures val[ValKey(m)] == Format(m, Last(table[ValKey(m)]))
      {
        if ValKey(m) == valMetric {
          ValKeyParts(m);
        }
      }
    }
    assert names[..|names|] == names;
  }

  /** Lines 79-85 and 107-114: for every resolved name the evaluator declares,
      the result at the first position of that name in its declared list;
      names it does not declare get no entry. */
  method ExtractTest(names: seq<Name>, test: Option<Evaluation>) returns (te: Metrics)
    requires test.Some? ==> Covers(test.value)
    ensures forall k :: k in te <==> k in names && Declares(test, k)
    ensures forall k :: k in te ==> te[k] == TestValue(test, k)
  {
    te := map[];
    if test.None? {
      return;
    }
    var ev := test.value;
    for i := 0 to |names|
      invariant forall k :: k in te <==> k in names[..i] && k in ev.names
      invariant forall k :: k in te ==> te[k] == Format(k, ev.results[IndexOf(ev.names, k)])
    {
      var metric := names[i];
      assert names[..i + 1] == names[..i] + [metric];
      if metric in ev.names {
        var indx := IndexOf(ev.names, metric);
        te := te[metric := Format(metric, ev.results[indx])];
      }
    }
    assert names[..|names|] == names;
  }

  // ---------------------------------------------------------------------------
  // Current run

  /** The current-run training and validation dictionaries and the previous-run
      ones after the backfill of lines 95 and 98. */
  datatype CurrentRun = CurrentRun(currTr: Metrics, currVal: Metrics, prevTr: Metrics, prevVal: Metrics)

  /** The current history has every key that lines 94 and 97 look up. */
  predicate HistoryCovers(names: seq<Name>, history: Series, validationPresent: bool) {
    forall m :: m in names ==> m in history && (validationPresent ==> ValKey(m) in history)
  }

  /** `if not v: v = ""`: a stored value survives the backfill of lines 95
      and 98 unless it is falsy; `""` and a numeric zero become `""`. */
  function Backfill(v: Value): (b: Value)
    ensures b == Empty <==> Falsy(v)
    ensures !Falsy(v) ==> b == v
  {
    if Falsy(v) then Empty else v
  }

  /** `if not d.get(k): d[k] = ""`: the cell the backfill leaves at `k`. */
  function Backfilled(d: Metrics, k: Name): (v: Value)
    ensures k in d && !Falsy(d[k]) ==> v == d[k]
    ensures FalsyAt(d, k) ==> v == Empty
  {
    Backfill(if k in d then d[k] else Empty)
  }

  /** One pass of the loop of lines 92-101 for `metric`: record its last history
      value, backfill the previous side, and do the same for its "val_" key when
      validation is present; KeyError when the history lacks either key. */
  method ExtractOne(metric: Name, history: Series, validationPresent: bool, s: CurrentRun)
    returns (r: Result<CurrentRun>)
    requires NonEmptyColumns(history)
    ensures r.Success? <==> metric in history && (validationPresent ==> ValKey(metric) in history)
    ensures r.Failure? ==> r.error.KeyError? && r.error.key !in history
    ensures r.Success? ==>
      var c := r.value;
      && c.currTr == s.currTr[metric := Format(metric, Last(history[metric]))]
      && c.prevTr == (if FalsyAt(s.prevTr, metric) then s.prevTr[metric := Empty] else s.prevTr)
      && (validationPresent ==>
            && c.currVal == s.currVal[ValKey(metric) := Format(metric, Last(history[ValKey(metric)]))]
            && c.prevVal == (if FalsyAt(s.prevVal, ValKey(metric)) then s.prevVal[ValKey(metric) := Empty]
                             else s.prevVal))
      && (!validationPresent ==> c.currVal == s.currVal && c.prevVal == s.prevVal)
  {
    var valMetric := ValKey(metric);
    if metric !in history {
      return Failure(KeyError(metric));
    }
    var currTr := s.currTr[metric := Format(metric, Last(history[metric]))];
    var pTr := s.prevTr;
    if FalsyAt(pTr, metric) {
      pTr := pTr[metric := Empty];
    }
    var currVal, pVal := s.currVal, s.prevVal;
    if validationPresent {
      if valMetric !in history {
        return Failure(KeyError(valMetric));
      }
      currVal := currVal[valMetric := Format(metric, Last(history[valMetric]))];
      if FalsyAt(pVal, valMetric) {
        pVal := pVal[valMetric := Empty];
      }
    }
    r := Success(CurrentRun(currTr, currVal, pTr, pVal));
  }

  /** The training dictionaries after the names in `done` went through lines
      94-95: `currTr` has exactly those names, each with its formatted last
      history value, and `pTr` is `prevTr` backfilled at those names and
      untouched elsewhere. */
  ghost predicate TrainingExtracted(done: seq<Name>, history: Series, prevTr: Metrics,
                                    currTr: Metrics, pTr: Metrics)
    requires NonEmptyColumns(history)
  {
    && (forall k :: k in currTr <==> k in done)
    && (forall k :: k in currTr ==> k in history && currTr[k] == Format(k, Last(history[k])))
    && (forall k :: k in pTr <==> k in prevTr || k in done)
    && (forall k :: k in done ==> pTr[k] == Backfilled(prevTr, k))
    && (forall k :: k in prevTr && k !in done ==> pTr[k] == prevTr[k])
  }

  /** The validation dictionaries after the names in `done` went through lines
      96-98: when validation is present `currVal` has exactly the "val_" keys of
      those names with their formatted last history values, and `pVal` is
      `prevVal` backfilled at those keys; when it is absent `currVal` stays
      empty. */
  ghost predicate ValidationExtracted(done: seq<Name>, history: Series, validationPresent: bool,
                                      prevVal: Metrics, currVal: Metrics, pVal: Metrics)
    requires NonEmptyColumns(history)
  {
    && (forall m :: m in done ==> (ValKey(m) in currVal <==> validationPresent))
    && (forall m :: ValKey(m) in currVal ==>
          m in done && ValKey(m) in history && currVal[ValKey(m)] == Format(m, Last(history[ValKey(m)])))
    && (forall k :: k in currVal ==> validationPresent && IsValKey(k))
    && (forall k :: k in pVal <==> k in prevVal || k in currVal)
    && (forall k :: k in currVal ==> pVal[k] == Backfilled(prevVal, k))
    && (forall k :: k in prevVal && k !in currVal ==> pVal[k] == prevVal[k])
  }

  /** One more name through lines 94-95 keeps the training dictionaries
      extracted; in particular a second pass over a repeated name changes nothing. */
  lemma TrainingStep(done: seq<Name>, history: Series, prevTr: Metrics, currTr: Metrics, pTr: Metrics,
                     metric: Name, currTr': Metrics, pTr': Metrics)
    requires NonEmptyColumns(history) && metric in history
    requires TrainingExtracted(done, history, prevTr, currTr, pTr)
    requires currTr' == currTr[metric := Format(metric, Last(history[metric]))]
    requires pTr' == (if FalsyAt(pTr, metric) then pTr[metric := Empty] else pTr)
    ensures TrainingExtracted(done + [metric], history, prevTr, currTr', pTr')
  {
  }

  /** One more name through lines 96-98 keeps the validation dictionaries extracted. */
  lemma ValidationStep(done: seq<Name>, history: Series, validationPresent: bool, prevVal: Metrics,
                       currVal: Metrics, pVal: Metrics, metric: Name, currVal': Metrics, pVal': Metrics)
    requires NonEmptyColumns(history)
    requires validationPresent ==> ValKey(metric) in history
    requires ValidationExtracted(done, history, validationPresent, prevVal, currVal, pVal)
    requires validationPresent ==>
      && currVal' == currVal[ValKey(metric) := Format(metric, Last(history[ValKey(metric)]))]
      && pVal' == (if FalsyAt(pVal, ValKey(metric)) then pVal[ValKey(metric) := Empty] else pVal)
    requires !validationPresent ==> currVal' == currVal && pVal' == pVal
    ensures ValidationExtracted(done + [metric], history, validationPresent, prevVal, currVal', pVal')
  {
    ValKeyParts(metric);
    forall m | ValKey(m) in currVal'
      ensures m in done + [metric] && ValKey(m) in history
      ensures currVal'[ValKey(m)] == Format(m, Last(history[ValKey(m)]))
    {
      if ValKey(m) == ValKey(metric) {
        ValKeyParts(m);
      }
    }
  }

  /** The state of lines 92-101 after the names in `done`. */
  ghost predicate CurrExtracted(done: seq<Name>, history: Series, validationPresent: bool,
                                prevTr: Metrics, prevVal: Metrics, s: CurrentRun)
    requires NonEmptyColumns(history)
  {
    && HistoryCovers(done, history, validationPresent)
    && TrainingExtracted(done, history, prevTr, s.currTr, s.prevTr)
    && ValidationExtracted(done, history, validationPresent, prevVal, s.currVal, s.prevVal)
  }

  /** One turn of the loop of lines 92-101: on success the state covers
      one more name. */
  method ExtractNext(done: seq<Name>, history: Series, validationPresent: bool,
                     prevTr: Metrics, prevVal: Metrics, s: CurrentRun, metric: Name)
    returns (r: Result<CurrentRun>)
    requires NonEmptyColumns(history)
    requires CurrExtracted(done, history, validationPresent, prevTr, prevVal, s)
    ensures r.Success? <==> metric in history && (validationPresent ==> ValKey(metric) in history)
    ensures r.Failure? ==> r.error.KeyError? && r.error.key !in history
    ensures r.Success? ==> CurrExtracted(done + [metric], history, validationPresent, prevTr, prevVal, r.value)
  {
    r := ExtractOne(metric, history, validationPresent, s);
    if r.Success? {
      var c := r.value;
      TrainingStep(done, history, prevTr, s.currTr, s.prevTr, metric, c.currTr, c.prevTr);
      ValidationStep(done, history, validationPresent, prevVal, s.currVal, s.prevVal, metric, c.currVal, c.prevVal);
    }
  }

  /** Lines 92-101: the last value of every resolved name's history (and of its
      "val_" key when validation is present), with the previous side backfilled
      wherever it has no truthy value for the same key. A name the history lacks
      raises KeyError. */
  method ExtractCurrTraining(names: seq<Name>, history: Series, validationPresent: bool,
                             prevTr: Metrics, prevVal: Metrics)
    returns (r: Result<CurrentRun>)
    requires NonEmptyColumns(history)
    ensures r.Success? <==> HistoryCovers(names, history, validationPresent)
    ensures r.Failure? ==> r.error.KeyError? && r.error.key !in history
    ensures r.Success? ==> TrainingExtracted(names, history, prevTr, r.value.currTr, r.value.prevTr)
    ensures r.Success? ==>
      ValidationExtracted(names, history, validationPresent, prevVal, r.value.currVal, r.value.prevVal)
  {
    var s := CurrentRun(map[], map[], prevTr, prevVal);
    for i := 0 to |names|
      invariant CurrExtracted(names[..i], history, validationPresent, prevTr, prevVal, s)
    {
      var metric := names[i];
      assert names[..i + 1] == names[..i] + [metric];
      var step := ExtractNext(names[..i], history, validationPresent, prevTr, prevVal, s, metric);
      if step.Failure? {
        assert !HistoryCovers(names, history, validationPresent) by {
          assert metric in names;
        }
        return step;
      }
      s := step.value;
    }
    assert names[..|names|] == names;
    r := Success(s);
  }

  // ---------------------------------------------------------------------------
  // Columns only the previous run logged

  /** The "val_" columns of the table that belong to the names in `ms`. */
  function ValColumnsOf(ms: seq<Name>, table: Series): (w: set<Name>)
    ensures forall m :: ValKey(m) in w <==> m in ms && ValKey(m) in table
    ensures forall k :: k in w ==> IsValKey(k) && k in table
  {
    if ms == [] then {}
    else
      var m := ms[|ms| - 1];
      ValKeyParts(m);
      assert forall n :: n in ms <==> n in ms[..|ms| - 1] || n == m;
      ValColumnsOf(ms[..|ms| - 1], table) + (if ValKey(m) in table then {ValKey(m)} else {})
  }

  /** Training side of lines 125-128: each legacy column in `added` holds its
      last-row value on the previous side and `""` on the current one; every
      other entry is as it was. */
  ghost predicate TrainingAbsorbed(table: Series, added: seq<Name>,
                                   prevTr: Metrics, currTr: Metrics, pTr: Metrics, cTr: Metrics)
    requires NonEmptyColumns(table)
  {
    && (forall k :: k in added ==> k in table)
    && (forall k :: k in pTr <==> k in prevTr || k in added)
    && (forall k :: k in cTr <==> k in currTr || k in added)
    && (forall k :: k in added ==> pTr[k] == Format(k, Last(table[k])) && cTr[k] == Empty)
    && (forall k :: k in prevTr && k !in added ==> pTr[k] == prevTr[k])
    && (forall k :: k in currTr && k !in added ==> cTr[k] == currTr[k])
  }

  /** Validation side of lines 129-132: the "val_" column of each legacy
      column, when the table has one, holds its last-row value on the previous
      side and `""` on the current one; every other entry is as it was. */
  ghost predicate ValidationAbsorbed(table: Series, added: seq<Name>,
                                     prevVal: Metrics, currVal: Metrics, pVal: Metrics, cVal: Metrics)
    requires NonEmptyColumns(table)
  {
    var w := ValColumnsOf(added, table);
    && (forall k :: k in pVal <==> k in prevVal || k in w)
    && (forall k :: k in cVal <==> k in currVal || k in w)
    && (forall m :: m in added && ValKey(m) in table ==>
          pVal[ValKey(m)] == Format(m, Last(table[ValKey(m)])) && cVal[ValKey(m)] == Empty)
    && (forall k :: k in prevVal && k !in w ==> pVal[k] == prevVal[k])
    && (forall k :: k in currVal && k !in w ==> cVal[k] == currVal[k])
  }

  /** Test side of lines 134-141: each legacy column the previous evaluator
      declares holds its previous test result on the previous side and `""`
      on the current one; every other entry is as it was. */
  ghost predicate TestAbsorbed(prevTest: Option<Evaluation>, added: seq<Name>,
                               prevTe: Metrics, currTe: Metrics, pTe: Metrics, cTe: Metrics)
    requires prevTest.Some? ==> Covers(prevTest.value)
  {
    && (forall k :: k in pTe <==> k in prevTe || (k in added && Declares(prevTest, k)))
    && (forall k :: k in cTe <==> k in currTe || (k in added && Declares(prevTest, k)))
    && (forall k :: k in added && Declares(prevTest, k) ==>
          pTe[k] == TestValue(prevTest, k) && cTe[k] == Empty)
    && (forall k :: k in prevTe && !(k in added && Declares(prevTest, k)) ==> pTe[k] == prevTe[k])
    && (forall k :: k in currTe && !(k in added && Declares(prevTest, k)) ==> cTe[k] == currTe[k])
  }

  /** `t` is `s` after the legacy columns `added` went through lines 125-141. */
  ghost predicate Absorbed(s: MetricSets, table: Series, prevTest: Option<Evaluation>,
                           added: seq<Name>, t: MetricSets)
    requires NonEmptyColumns(table)
    requires prevTest.Some? ==> Covers(prevTest.value)
  {
    && TrainingAbsorbed(table, added, s.prevTr, s.currTr, t.prevTr, t.currTr)
    && ValidationAbsorbed(table, added, s.prevVal, s.currVal, t.prevVal, t.currVal)
    && TestAbsorbed(prevTest, added, s.prevTe, s.currTe, t.prevTe, t.currTe)
  }

  /** Lines 125-141 for one legacy column `key`. */
  method AbsorbOne(table: Series, prevTest: Option<Evaluation>, t: MetricSets, key: Name)
    returns (u: MetricSets)
    requires NonEmptyColumns(table) && key in table
    requires prevTest.Some? ==> Covers(prevTest.value)
    ensures u.prevTr == t.prevTr[key := Format(key, Last(table[key]))]
    ensures u.currTr == t.currTr[key := Empty]
    ensures ValKey(key) in table ==>
      u.prevVal == t.prevVal[ValKey(key) := Format(key, Last(table[ValKey(key)]))]
      && u.currVal == t.currVal[ValKey(key) := Empty]
    ensures ValKey(key) !in table ==> u.prevVal == t.prevVal && u.currVal == t.currVal
    ensures Declares(prevTest, key) ==>
      u.prevTe == t.prevTe[key := TestValue(prevTest, key)] && u.currTe == t.currTe[key := Empty]
    ensures !Declares(prevTest, key) ==> u.prevTe == t.prevTe && u.currTe == t.currTe
  {
    u := t.(prevTr := t.prevTr[key := Format(key, Last(table[key]))], currTr := t.currTr[key := Empty]);
    var valKey := ValKey(key);
    if valKey in table {
      u := u.(prevVal := u.prevVal[valKey := Format(key, Last(table[valKey]))],
              currVal := u.currVal[valKey := Empty]);
    }
    if prevTest.Some? {
      var modelMetricNames := prevTest.value.names;
      if key in modelMetricNames {
        var indx := IndexOf(modelMetricNames, key);
        u := u.(prevTe := u.prevTe[key := Format(key, prevTest.value.results[indx])],
                currTe := u.currTe[key := Empty]);
      }
    }
  }

  lemma TrainingAbsorbStep(table: Series, added: seq<Name>, prevTr: Metrics, currTr: Metrics,
                           pTr: Metrics, cTr: Metrics, key: Name, pTr': Metrics, cTr': Metrics)
    requires NonEmptyColumns(table) && key in table && key !in added
    requires TrainingAbsorbed(table, added, prevTr, currTr, pTr, cTr)
    requires pTr' == pTr[key := Format(key, Last(table[key]))] && cTr' == cTr[key := Empty]
    ensures TrainingAbsorbed(table, added + [key], prevTr, currTr, pTr', cTr')
  {
  }

  lemma ValidationAbsorbStep(table: Series, added: seq<Name>, prevVal: Metrics, currVal: Metrics,
                             pVal: Metrics, cVal: Metrics, key: Name, pVal': Metrics, cVal': Metrics)
    requires NonEmptyColumns(table) && key !in added
    requires ValidationAbsorbed(table, added, prevVal, currVal, pVal, cVal)
    requires ValKey(key) in table ==>
      pVal' == pVal[ValKey(key) := Format(key, Last(table[ValKey(key)]))] && cVal' == cVal[ValKey(key) := Empty]
    requires ValKey(key) !in table ==> pVal' == pVal && cVal' == cVal
    ensures ValidationAbsorbed(table, added + [key], prevVal, currVal, pVal', cVal')
  {
    var added' := added + [key];
    assert added'[..|added'| - 1] == added;
    var w, w' := ValColumnsOf(added, table), ValColumnsOf(added', table);
    assert w' == w + (if ValKey(key) in table then {ValKey(key)} else {});
    forall m | m in added' && ValKey(m) in table
      ensures pVal'[ValKey(m)] == Format(m, Last(table[ValKey(m)])) && cVal'[ValKey(m)] == Empty
    {
      if m != key {
        assert ValKey(m) != ValKey(key) by {
          ValKeyParts(m);
          ValKeyParts(key);
        }
      }
    }
  }

  lemma TestAbsorbStep(prevTest: Option<Evaluation>, added: seq<Name>, prevTe: Metrics, currTe: Metrics,
                       pTe: Metrics, cTe: Metrics, key: Name, pTe': Metrics, cTe': Metrics)
    requires prevTest.Some? ==> Covers(prevTest.value)
    requires key !in added
    requires TestAbsorbed(prevTest, added, prevTe, currTe, pTe, cTe)
    requires Declares(prevTest, key) ==> pTe' == pTe[key := TestValue(prevTest, key)] && cTe' == cTe[key := Empty]
    requires !Declares(prevTest, key) ==> pTe' == pTe && cTe' == cTe
    ensures TestAbsorbed(prevTest, added + [key], prevTe, currTe, pTe', cTe')
  {
  }

  lemma AppendFresh(names: seq<Name>, key: Name)
    requires NoDuplicates(names) && key !in names
    ensures NoDuplicates(names + [key])
    ensures forall k :: k in names + [key] <==> k in names || k == key
  {
  }

  lemma AbsorbedNothing(s: MetricSets, table: Series, prevTest: Option<Evaluation>)
    requires NonEmptyColumns(table)
    requires prevTest.Some? ==> Covers(prevTest.value)
    ensures Absorbed(s, table, prevTest, [], s)
  {
    assert ValColumnsOf([], table) == {};
  }

  /** One turn of the loop of lines 122-141: absorbing a column not absorbed
      before extends `Absorbed` by that column. */
  method AbsorbKey(table: Series, s: MetricSets, prevTest: Option<Evaluation>,
                   added: seq<Name>, t: MetricSets, key: Name) returns (u: MetricSets)
    requires NonEmptyColumns(table) && key in table && key !in added
    requires prevTest.Some? ==> Covers(prevTest.value)
    requires Absorbed(s, table, prevTest, added, t)
    ensures Absorbed(s, table, prevTest, added + [key], u)
  {
    u := AbsorbOne(table, prevTest, t, key);
    TrainingAbsorbStep(table, added, s.prevTr, s.currTr, t.prevTr, t.currTr, key, u.prevTr, u.currTr);
    ValidationAbsorbStep(table, added, s.prevVal, s.currVal, t.prevVal, t.currVal, key, u.prevVal, u.currVal);
    TestAbsorbStep(prevTest, added, s.prevTe, s.currTe, t.prevTe, t.currTe, key, u.prevTe, u.currTe);
  }

  /** Lines 119-141: every column of the previous table that the current
      training dictionary lacks and that does not start with "val_" is appended,
      exactly once and in some order, to the metric names, and absorbed as
      described by `Absorbed`. */
  method AbsorbLegacyColumns(table: Series, s: MetricSets, prevTest: Option<Evaluation>)
    returns (t: MetricSets, added: seq<Name>)
    requires NonEmptyColumns(table)
    requires prevTest.Some? ==> Covers(prevTest.value)
    ensures forall k :: k in added <==> k in table && k !in s.currTr && !IsValKey(k)
    ensures NoDuplicates(added)
    ensures Absorbed(s, table, prevTest, added, t)
  {
    var extra := table.Keys - s.currTr.Keys;
    var rest := extra;
    t, added := s, [];
    AbsorbedNothing(s, table, prevTest);
    while rest != {}
      invariant rest <= extra
      invariant forall k :: k in added <==> k in extra && k !in rest && !IsValKey(k)
      invariant NoDuplicates(added)
      invariant Absorbed(s, table, prevTest, added, t)
      decreases rest
    {
      var key :| key in rest;
      rest := rest - {key};
      if IsValKey(key) {
        continue;
      }
      t := AbsorbKey(table, s, prevTest, added, t, key);
      AppendFresh(added, key);
      added := added + [key];
    }
  }

  // ---------------------------------------------------------------------------
  // Test keys

  /** `d2` is `d` with every key of `keys` set to `""`. */
  ghost predicate FilledEmpty(d: Metrics, keys: set<Name>, d2: Metrics) {
    && (forall k :: k in d2 <==> k in d || k in keys)
    && (forall k :: k in keys ==> d2[k] == Empty)
    && (forall k :: k in d && k !in keys ==> d2[k] == d[k])
  }

  /** `for key in keys: d[key] = ""` */
  method FillEmpty(d: Metrics, keys: set<Name>) returns (d2: Metrics)
    ensures FilledEmpty(d, keys, d2)
  {
    d2 := d;
    var rest := keys;
    while rest != {}
      invariant rest <= keys
      invariant FilledEmpty(d, keys - rest, d2)
      decreases rest
    {
      var key :| key in rest;
      d2 := d2[key := Empty];
      rest := rest - {key};
    }
  }

  /** `for key in keys: c[key] = ""; p[key] = ""` */
  method FillEmptyBoth(c: Metrics, p: Metrics, keys: set<Name>) returns (c2: Metrics, p2: Metrics)
    ensures FilledEmpty(c, keys, c2) && FilledEmpty(p, keys, p2)
  {
    c2, p2 := c, p;
    var rest := keys;
    while rest != {}
      invariant rest <= keys
      invariant FilledEmpty(c, keys - rest, c2) && FilledEmpty(p, keys - rest, p2)
      decreases rest
    {
      var key :| key in rest;
      c2 := c2[key := Empty];
      p2 := p2[key := Empty];
      rest := rest - {key};
    }
  }

  /** Lines 144-150: afterwards both test dictionaries have the same keys,
      namely every key of either of them and every metric name; an entry
      either side already had keeps its value and every new entry is `""`. */
  method SymmetrizeTest(names: seq<Name>, prevTe: Metrics, currTe: Metrics)
    returns (p: Metrics, c: Metrics)
    ensures forall k :: k in p <==> k in prevTe || k in currTe || k in names
    ensures forall k :: k in c <==> k in p
    ensures forall k :: k in p ==> p[k] == (if k in prevTe then prevTe[k] else Empty)
    ensures forall k :: k in c ==> c[k] == (if k in currTe then currTe[k] else Empty)
  {
    var prevTeKeys, currTeKeys := prevTe.Keys, currTe.Keys;
    c := FillEmpty(currTe, prevTeKeys - currTeKeys);
    p := FillEmpty(prevTe, currTeKeys - prevTeKeys);
    c, p := FillEmptyBoth(c, p, (set m | m in names) - c.Keys);
  }

  // ---------------------------------------------------------------------------
  // Report rows

  /** One metric row of a section: the name shown, the previous and the
      current cell, and the style of the current cell. */
  datatype Row = Row(name: Name, prev: Value, curr: Value, style: Style)

  /** The dictionaries have the key `prefix + m` for every name. */
  predicate SectionComplete(names: seq<Name>, prefix: string, prev: Metrics, curr: Metrics) {
    forall m :: m in names ==> prefix + m in prev && prefix + m in curr
  }

  /** `rows` are the rows of a section: one per name, in the order of the
      names, whose cells are looked up under `prefix + name` (the "val_" key
      for the validation section) and styled by the direction rule of the
      plain name. */
  predicate RowsOf(names: seq<Name>, prefix: string, prev: Metrics, curr: Metrics, rows: seq<Row>) {
    && |rows| == |names|
    && forall i :: 0 <= i < |names| ==>
         var key := prefix + names[i];
         key in prev && key in curr &&
         rows[i] == Row(names[i], prev[key], curr[key], RowStyle(names[i], prev[key], curr[key]))
  }

  /** Lines 184-211: the rows of one section. The first name whose key
      either dictionary lacks raises a KeyError. */
  method SectionRows(names: seq<Name>, prefix: string, prev: Metrics, curr: Metrics)
    returns (r: Result<seq<Row>>)
    ensures r.Success? <==> SectionComplete(names, prefix, prev, curr)
    ensures r.Success? ==> RowsOf(names, prefix, prev, curr, r.value)
    ensures r.Failure? ==>
      exists i :: (0 <= i < |names| && r.error == KeyError(prefix + names[i])
                   && (prefix + names[i] !in prev || prefix + names[i] !in curr)
                   && SectionComplete(names[..i], prefix, prev, curr))
  {
    var rows: seq<Row> := [];
    for i := 0 to |names|
      invariant SectionComplete(names[..i], prefix, prev, curr)
      invariant |rows| == i
      invariant forall j :: 0 <= j < i ==>
        var key := prefix + names[j];
        key in prev && key in curr &&
        rows[j] == Row(names[j], prev[key], curr[key], RowStyle(names[j], prev[key], curr[key]))
    {
      var metric := names[i];
      var key := prefix + metric;
      if key !in prev || key !in curr {
        assert !SectionComplete(names, prefix, prev, curr) by {
          assert metric in names;
        }
        return Failure(KeyError(key));
      }
      assert names[..i + 1] == names[..i] + [metric];
      rows := rows + [Row(metric, prev[key], curr[key], RowStyle(metric, prev[key], curr[key]))];
    }
    assert names[..|names|] == names;
    r := Success(rows);
  }

  // ---------------------------------------------------------------------------
  // The whole reconciliation

  predicate TableColumns(table: Option<Series>) {
    table.Some? ==> NonEmptyColumns(table.value)
  }

  /** The previous table, an absent one read as a table without columns
      (neither extraction nor schema drift then finds anything). */
  function Columns(table: Option<Series>): (c: Series)
    ensures table.None? ==> c == map[]
  {
    if table.Some? then table.value else map[]
  }

  /** The cell lines 65-68 store for `m` on the previous training side, or
      `Empty` when nothing is stored. */
  function PrevTraining(tbl: Series, m: Name): Value
    requires NonEmptyColumns(tbl)
  {
    if m in tbl then Format(m, Last(tbl[m])) else Empty
  }

  /** The cell lines 69-71 store under `ValKey(m)` on the previous validation
      side when validation is present (only where the table also has the
      column `m` itself), or `Empty`. */
  function PrevValidation(tbl: Series, m: Name): Value
    requires NonEmptyColumns(tbl)
  {
    if m in tbl && ValKey(m) in tbl then Format(m, Last(tbl[ValKey(m)])) else Empty
  }

  /** The outcome of lines 63-72, as `ExtractPrevTraining` ensures it. */
  ghost predicate PrevExtracted(names: seq<Name>, tbl: Series, vp: bool, tr: Metrics, val: Metrics)
    requires NonEmptyColumns(tbl)
  {
    && (forall k :: k in tr <==> k in names && k in tbl)
    && (forall k :: k in tr ==> tr[k] == Format(k, Last(tbl[k])))
    && (forall m :: m in names ==> (ValKey(m) in val <==> vp && m in tbl && ValKey(m) in tbl))
    && (forall m :: ValKey(m) in val ==>
          m in names && ValKey(m) in tbl && val[ValKey(m)] == Format(m, Last(tbl[ValKey(m)])))
    && (forall k :: k in val ==> IsValKey(k))
  }

  /** The outcome of lines 79-85 or 107-111, as `ExtractTest` ensures it. */
  ghost predicate TestExtracted(names: seq<Name>, test: Option<Evaluation>, te: Metrics)
    requires test.Some? ==> Covers(test.value)
  {
    && (forall k :: k in te <==> k in names && Declares(test, k))
    && (forall k :: k in te ==> te[k] == TestValue(test, k))
  }

  /** The legacy columns of lines 121-124 for the resolved names. */
  ghost predicate LegacyColumns(names: seq<Name>, tbl: Series, added: seq<Name>) {
    forall k :: k in added <==> k in tbl && k !in names && !IsValKey(k)
  }

  /** The training dictionaries at line 117, after the backfill: the
      resolved names are the keys of both; each shows its last history value
      against its backfilled previous value. */
  ghost predicate TrainingAligned(names: seq<Name>, history: Series, tbl: Series,
                                  prevTr: Metrics, currTr: Metrics)
    requires NonEmptyColumns(history) && NonEmptyColumns(tbl)
  {
    && (forall k :: k in currTr <==> k in names)
    && (forall k :: k in prevTr <==> k in names)
    && (forall m :: m in names ==>
          m in history && currTr[m] == Format(m, Last(history[m]))
          && prevTr[m] == Backfill(PrevTraining(tbl, m)))
  }

  /** The validation dictionaries at line 117: when validation is present
      the "val_" keys of the resolved names are the keys of both, otherwise
      both are empty. */
  ghost predicate ValidationAligned(names: seq<Name>, history: Series, vp: bool, tbl: Series,
                                    prevVal: Metrics, currVal: Metrics)
    requires NonEmptyColumns(history) && NonEmptyColumns(tbl)
  {
    && (forall k :: k in currVal ==> IsValKey(k))
    && (forall k :: k in prevVal <==> k in currVal)
    && (forall m :: ValKey(m) in currVal <==> vp && m in names)
    && (forall m :: vp && m in names ==>
          ValKey(m) in history && currVal[ValKey(m)] == Format(m, Last(history[ValKey(m)]))
          && prevVal[ValKey(m)] == Backfill(PrevValidation(tbl, m)))
  }

  lemma TrainingAlignedHolds(names: seq<Name>, history: Series, tbl: Series, vp: bool,
                             prevTr: Metrics, prevVal: Metrics, cur: CurrentRun)
    requires NonEmptyColumns(history) && NonEmptyColumns(tbl)
    requires PrevExtracted(names, tbl, vp, prevTr, prevVal)
    requires TrainingExtracted(names, history, prevTr, cur.currTr, cur.prevTr)
    ensures TrainingAligned(names, history, tbl, cur.prevTr, cur.currTr)
  {
  }

  lemma ValidationAlignedHolds(names: seq<Name>, history: Series, tbl: Series, vp: bool,
                               prevTr: Metrics, prevVal: Metrics, cur: CurrentRun)
    requires NonEmptyColumns(history) && NonEmptyColumns(tbl)
    requires PrevExtracted(names, tbl, vp, prevTr, prevVal)
    requires ValidationExtracted(names, history, vp, prevVal, cur.currVal, cur.prevVal)
    ensures ValidationAligned(names, history, vp, tbl, cur.prevVal, cur.currVal)
  {
    forall k | k in prevVal
      ensures k in cur.currVal
    {
      ValKeyOfBase(k);
    }
  }

  /** Lines 59-115 without the learning rate: the six dictionaries after
      extracting both runs and backfilling the previous side. It fails exactly
      when the history lacks a resolved name, or its "val_" key while
      validation is present. */
  method ExtractRuns(names: seq<Name>, history: Series, table: Option<Series>,
                     prevTest: Option<Evaluation>, currTest: Option<Evaluation>)
    returns (r: Result<MetricSets>)
    requires NonEmptyColumns(history) && TableColumns(table)
    requires prevTest.Some? ==> Covers(prevTest.value)
    requires currTest.Some? ==> Covers(currTest.value)
    ensures r.Success? <==> HistoryCovers(names, history, ValidationPresent(history))
    ensures r.Failure? ==> r.error.KeyError? && r.error.key !in history
    ensures r.Success? ==>
      TrainingAligned(names, history, Columns(table), r.value.prevTr, r.value.currTr)
    ensures r.Success? ==>
      ValidationAligned(names, history, ValidationPresent(history), Columns(table),
                        r.value.prevVal, r.value.currVal)
    ensures r.Success? ==>
      TestExtracted(names, prevTest, r.value.prevTe) && TestExtracted(names, currTest, r.value.currTe)
  {
    var vp := ValidationPresent(history);
    var tbl := Columns(table);
    var prevTr, prevVal: Metrics := map[], map[];
    if table.Some? {
      prevTr, prevVal := ExtractPrevTraining(names, table.value, vp);
    }
    assert PrevExtracted(names, tbl, vp, prevTr, prevVal);
    var prevTe := ExtractTest(names, prevTest);
    var curr := ExtractCurrTraining(names, history, vp, prevTr, prevVal);
    if curr.Failure? {
      return Failure(curr.error);
    }
    var currTe := ExtractTest(names, currTest);
    var cur := curr.value;
    TrainingAlignedHolds(names, history, tbl, vp, prevTr, prevVal, cur);
    ValidationAlignedHolds(names, history, tbl, vp, prevTr, prevVal, cur);
    r := Success(MetricSets(cur.prevTr, cur.prevVal, prevTe, cur.currTr, cur.currVal, currTe));
  }

  /** The training dictionaries at line 143: the resolved names and the
      legacy columns are the keys of both; a resolved name shows its last
      history value against its backfilled previous value, a legacy column
      `""` against its last value in the table. */
  ghost predicate TrainingFinal(names: seq<Name>, history: Series, tbl: Series,
                                added: seq<Name>, prevTr: Metrics, currTr: Metrics)
    requires NonEmptyColumns(history) && NonEmptyColumns(tbl)
  {
    && (forall k :: k in currTr <==> k in names || k in added)
    && (forall k :: k in prevTr <==> k in names || k in added)
    && (forall m :: m in names ==>
          m in history && currTr[m] == Format(m, Last(history[m]))
          && prevTr[m] == Backfill(PrevTraining(tbl, m)))
    && (forall m :: m in added ==>
          m in tbl && currTr[m] == Empty && prevTr[m] == Format(m, Last(tbl[m])))
  }

  /** The validation dictionaries at line 143: both have the same keys, the
      "val_" keys of the resolved names when validation is present and of
      the legacy columns whose "val_" column the table has. */
  ghost predicate ValidationFinal(names: seq<Name>, history: Series, vp: bool, tbl: Series,
                                  added: seq<Name>, prevVal: Metrics, currVal: Metrics)
    requires NonEmptyColumns(history) && NonEmptyColumns(tbl)
  {
    && (forall k :: k in currVal ==> IsValKey(k))
    && (forall k :: k in prevVal <==> k in currVal)
    && (forall m :: ValKey(m) in currVal <==> (vp && m in names) || (m in added && ValKey(m) in tbl))
    && (forall m :: vp && m in names ==>
          ValKey(m) in history && currVal[ValKey(m)] == Format(m, Last(history[ValKey(m)]))
          && prevVal[ValKey(m)] == Backfill(PrevValidation(tbl, m)))
    && (forall m :: m in added && ValKey(m) in tbl ==>
          currVal[ValKey(m)] == Empty && prevVal[ValKey(m)] == Format(m, Last(tbl[ValKey(m)])))
  }

  /** The test dictionaries at line 151: both have exactly the resolved names
      and the legacy columns as keys; a cell holds the evaluator's result where
      it declares the name (the current evaluator only for resolved names) and
      `""` everywhere else. */
  ghost predicate TestFinal(names: seq<Name>, added: seq<Name>,
                            prevTest: Option<Evaluation>, currTest: Option<Evaluation>,
                            prevTe: Metrics, currTe: Metrics)
    requires prevTest.Some? ==> Covers(prevTest.value)
    requires currTest.Some? ==> Covers(currTest.value)
  {
    && (forall k :: k in prevTe <==> k in names || k in added)
    && (forall k :: k in currTe <==> k in prevTe)
    && (forall k :: k in prevTe ==>
          prevTe[k] == (if Declares(prevTest, k) then TestValue(prevTest, k) else Empty))
    && (forall k :: k in currTe ==>
          currTe[k] == (if k in names && Declares(currTest, k) then TestValue(currTest, k) else Empty))
  }

  lemma TrainingFinalHolds(names: seq<Name>, history: Series, tbl: Series,
                           s: MetricSets, added: seq<Name>, pTr: Metrics, cTr: Metrics)
    requires NonEmptyColumns(history) && NonEmptyColumns(tbl)
    requires TrainingAligned(names, history, tbl, s.prevTr, s.currTr)
    requires LegacyColumns(names, tbl, added)
    requires TrainingAbsorbed(tbl, added, s.prevTr, s.currTr, pTr, cTr)
    ensures TrainingFinal(names, history, tbl, added, pTr, cTr)
  {
  }

  lemma ValidationFinalHolds(names: seq<Name>, history: Series, vp: bool, tbl: Series,
                             s: MetricSets, added: seq<Name>, pVal: Metrics, cVal: Metrics)
    requires NonEmptyColumns(history) && NonEmptyColumns(tbl)
    requires ValidationAligned(names, history, vp, tbl, s.prevVal, s.currVal)
    requires LegacyColumns(names, tbl, added)
    requires ValidationAbsorbed(tbl, added, s.prevVal, s.currVal, pVal, cVal)
    ensures ValidationFinal(names, history, vp, tbl, added, pVal, cVal)
  {
  }

  lemma TestFinalHolds(names: seq<Name>, added: seq<Name>,
                       prevTest: Option<Evaluation>, currTest: Option<Evaluation>,
                       prevTe: Metrics, currTe: Metrics, pTe: Metrics, cTe: Metrics,
                       p: Metrics, c: Metrics)
    requires prevTest.Some? ==> Covers(prevTest.value)
    requires currTest.Some? ==> Covers(currTest.value)
    requires TestExtracted(names, prevTest, prevTe) && TestExtracted(names, currTest, currTe)
    requires forall k :: k in added ==> k !in names
    requires TestAbsorbed(prevTest, added, prevTe, currTe, pTe, cTe)
    requires forall k :: k in p <==> k in pTe || k in cTe || k in names + added
    requires forall k :: k in c <==> k in p
    requires forall k :: k in p ==> p[k] == (if k in pTe then pTe[k] else Empty)
    requires forall k :: k in c ==> c[k] == (if k in cTe then cTe[k] else Empty)
    ensures TestFinal(names, added, prevTest, currTest, p, c)
  {
  }

  datatype Reconciled = Reconciled(sets: MetricSets, added: seq<Name>)

  /** Lines 59-150 without the learning rate: the six dictionaries for the
      resolved names `names`, and the legacy columns to be appended to the
      names. It fails exactly as `ExtractRuns` does. */
  method Reconcile(names: seq<Name>, history: Series, table: Option<Series>,
                   prevTest: Option<Evaluation>, currTest: Option<Evaluation>)
    returns (r: Result<Reconciled>)
    requires NonEmptyColumns(history) && TableColumns(table)
    requires prevTest.Some? ==> Covers(prevTest.value)
    requires currTest.Some? ==> Covers(currTest.value)
    ensures r.Success? <==> HistoryCovers(names, history, ValidationPresent(history))
    ensures r.Failure? ==> r.error.KeyError? && r.error.key !in history
    ensures r.Success? ==> NoDuplicates(r.value.added)
    ensures r.Success? ==> LegacyColumns(names, Columns(table), r.value.added)
    ensures r.Success? ==> var t := r.value.sets;
      TrainingFinal(names, history, Columns(table), r.value.added, t.prevTr, t.currTr)
    ensures r.Success? ==> var t := r.value.sets;
      ValidationFinal(names, history, ValidationPresent(history), Columns(table), r.value.added,
                      t.prevVal, t.currVal)
    ensures r.Success? ==> var t := r.value.sets;
      TestFinal(names, r.value.added, prevTest, currTest, t.prevTe, t.currTe)
  {
    var extracted := ExtractRuns(names, history, table, prevTest, currTest);
    if extracted.Failure? {
      return Failure(extracted.error);
    }
    var s := extracted.value;
    var tbl := Columns(table);
    var t, added := s, [];
    if table.Some? {
      t, added := AbsorbLegacyColumns(table.value, s, prevTest);
    } else {
      AbsorbedNothing(s, tbl, prevTest);
    }
    assert LegacyColumns(names, tbl, added);
    TrainingFinalHolds(names, history, tbl, s, added, t.prevTr, t.currTr);
    ValidationFinalHolds(names, history, ValidationPresent(history), tbl, s, added, t.prevVal, t.currVal);
    var p, c := SymmetrizeTest(names + added, t.prevTe, t.currTe);
    TestFinalHolds(names, added, prevTest, currTest, s.prevTe, s.currTe, t.prevTe, t.currTe, p, c);
    r := Success(Reconciled(t.(prevTe := p, currTe := c), added));
  }

  // ---------------------------------------------------------------------------
  // Which sections render

  /** The training section never raises: every final name is a key of both
      training dictionaries. */
  lemma TrainingRowsRender(names: seq<Name>, history: Series, tbl: Series,
                           added: seq<Name>, prevTr: Metrics, currTr: Metrics)
    requires NonEmptyColumns(history) && NonEmptyColumns(tbl)
    requires TrainingFinal(names, history, tbl, added, prevTr, currTr)
    ensures SectionComplete(names + added, "", prevTr, currTr)
  {
    forall m | m in names + added
      ensures "" + m in prevTr && "" + m in currTr
    {
      assert "" + m == m;
    }
  }

  /** The test section never raises either. */
  lemma TestRowsRender(names: seq<Name>, added: seq<Name>,
                       prevTest: Option<Evaluation>, currTest: Option<Evaluation>,
                       prevTe: Metrics, currTe: Metrics)
    requires prevTest.Some? ==> Covers(prevTest.value)
    requires currTest.Some? ==> Covers(currTest.value)
    requires TestFinal(names, added, prevTest, currTest, prevTe, currTe)
    ensures SectionComplete(names + added, "", prevTe, currTe)
  {
    forall m | m in names + added
      ensures "" + m in prevTe && "" + m in currTe
    {
      assert "" + m == m;
    }
  }

  /** When the validation section renders: validation is present (or there
      are no resolved names), and every legacy column has its "val_" column
      in the table. Otherwise lines 199-203 raise a KeyError. */
  predicate ValidationRenders(names: seq<Name>, history: Series, tbl: Series) {
    && (ValidationPresent(history) || |names| == 0)
    && forall k :: k in tbl && k !in names && !IsValKey(k) ==> ValKey(k) in tbl
  }

  lemma ValidationRowsRenderIff(names: seq<Name>, history: Series, tbl: Series,
                                added: seq<Name>, prevVal: Metrics, currVal: Metrics)
    requires NonEmptyColumns(history) && NonEmptyColumns(tbl)
    requires LegacyColumns(names, tbl, added)
    requires ValidationFinal(names, history, ValidationPresent(history), tbl, added, prevVal, currVal)
    ensures SectionComplete(names + added, "val_", prevVal, currVal) <==> ValidationRenders(names, history, tbl)
  {
    var vp := ValidationPresent(history);
    if SectionComplete(names + added, "val_", prevVal, currVal) {
      if |names| > 0 {
        assert ValKey(names[0]) in currVal by {
          assert names[0] in names + added;
        }
      }
      forall k | k in tbl && k !in names && !IsValKey(k)
        ensures ValKey(k) in tbl
      {
        assert ValKey(k) in currVal by {
          assert k in names + added;
        }
      }
    }
    if ValidationRenders(names, history, tbl) {
      forall m | m in names + added
        ensures "val_" + m in prevVal && "val_" + m in currVal
      {
        assert "val_" + m == ValKey(m);
      }
    }
  }
}
