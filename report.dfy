/** print_metrics as a whole: resolving the metric-name list (a list object
    that may be shared with the model), the epoch and learning-rate cells,
    the reconciliation, the three report sections and the returned
    dictionary. */
module Report {
  import opened MetricValues
  import opened Styles
  import opened Reconciler

  /** A Python list of metric names. It is a heap object because the list
      print_metrics resolves may be the caller's list or the model's own
      `metrics_names`, and line 125 appends to it in place. */
  class NameList {
    var items: seq<Name>

    constructor (items: seq<Name>)
      ensures this.items == items
    {
      this.items := items;
    }
  }

  /** A model as print_metrics uses it: its declared metric names and the
      learning rate of its optimizer. */
  class Model {
    const metricsNames: NameList
    const learningRate: real

    constructor (metricsNames: NameList, learningRate: real)
      ensures this.metricsNames == metricsNames && this.learningRate == learningRate
    {
      this.metricsNames := metricsNames;
      this.learningRate := learningRate;
    }
  }

  // ---------------------------------------------------------------------------
  // Epoch and learning-rate cells

  /** An epoch label: the callers pass a count or a string. */
  datatype EpochLabel = Text(s: string) | Count(n: int)

  /** Line 53: a previous-epoch label of 0 is shown as `""`. */
  function NormalizePrevEpochs(e: EpochLabel): (r: EpochLabel)
    ensures e == Count(0) ==> r == Text("")
    ensures e != Count(0) ==> r == e
  {
    if e == Count(0) then Text("") else e
  }

  /** A learning-rate cell: `""`, or a rate shown with ten decimals. */
  datatype LrCell = NoLr | Lr(rate: real)

  /** Line 64: the last "lr" value of the previous table, when it has one. */
  function PrevLr(table: Option<Series>): (c: LrCell)
    requires TableColumns(table)
    ensures c.Lr? <==> table.Some? && "lr" in table.value
  {
    if table.Some? && "lr" in table.value then Lr(RoundTo(Last(table.value["lr"]), 10)) else NoLr
  }

  // ---------------------------------------------------------------------------
  // The returned dictionary

  /** `dict(zip(ks, vs))`: pairs by position up to the shorter sequence; a
      name that occurs twice keeps its later value. */
  function ZipMap<V>(ks: seq<Name>, vs: seq<V>): (d: map<Name, V>)
    ensures forall k :: k in d ==> k in ks
    decreases |ks|
  {
    if |ks| == 0 || |vs| == 0 then map[]
    else
      var rest := ZipMap(ks[1..], vs[1..]);
      if ks[0] in rest then rest else rest[ks[0] := vs[0]]
  }

  /** The number of pairs `zip` forms. */
  function ZipLength(a: nat, b: nat): nat {
    if a <= b then a else b
  }

  /** The keys of the zipped dictionary are exactly the names at the paired
      positions, and a name that occurs only once there gets the value at its
      own position. */
  lemma {:induction false} ZipMapPositional<V>(ks: seq<Name>, vs: seq<V>)
    ensures forall k :: k in ZipMap(ks, vs) <==> k in ks[..ZipLength(|ks|, |vs|)]
    ensures NoDuplicates(ks) ==>
      forall i :: 0 <= i < ZipLength(|ks|, |vs|) ==> ZipMap(ks, vs)[ks[i]] == vs[i]
    decreases |ks|
  {
    if |ks| == 0 || |vs| == 0 {
    } else {
      var n := ZipLength(|ks|, |vs|);
      ZipMapPositional(ks[1..], vs[1..]);
      assert ks[1..][..n - 1] == ks[1..n];
      assert ks[..n] == [ks[0]] + ks[1..n];
      if NoDuplicates(ks) {
        assert NoDuplicates(ks[1..]);
        assert ks[0] !in ks[1..n];
        forall i | 1 <= i < n
          ensures ZipMap(ks, vs)[ks[i]] == vs[i]
        {
          assert ks[i] == ks[1..][i - 1];
        }
      }
    }
  }

  /** What line 219 pairs the names with: the current evaluation when it ran,
      otherwise as many `None`s as there were resolved names (line 115). */
  function ReturnedValues(currResults: Option<seq<real>>, n: nat): (vs: seq<Option<real>>)
    ensures currResults.Some? ==> |vs| == |currResults.value|
    ensures currResults.Some? ==> forall i :: 0 <= i < |vs| ==> vs[i] == Some(currResults.value[i])
    ensures currResults.None? ==> |vs| == n && forall i :: 0 <= i < n ==> vs[i] == None
  {
    match currResults
    case Some(rs) => seq(|rs|, i requires 0 <= i < |rs| => Some(rs[i]))
    case None => seq(n, _ => None)
  }

  /** The comment after line 219 holds when the values are no more than the
      resolved names: none of the appended legacy columns is a key of the
      returned dictionary. */
  lemma AppendedNamesExcluded<V>(names: seq<Name>, added: seq<Name>, vs: seq<V>)
    requires |vs| <= |names|
    requires forall k :: k in added ==> k !in names
    ensures forall k :: k in added ==> k !in ZipMap(names + added, vs)
  {
    ZipMapPositional(names + added, vs);
    assert (names + added)[..|vs|] == names[..|vs|];
    assert forall k :: k in names[..|vs|] ==> k in names;
  }

  /** Positional pairing with an explicit name list in another order than the
      model's: resolved names ["accuracy"], the model declaring
      ["loss", "accuracy"] with results [0.3, 0.9], and the legacy column
      "loss". The returned dictionary maps "accuracy" to the loss value 0.3
      and the appended "loss" to the accuracy value 0.9. */
  lemma MispairingExample()
    ensures ZipMap(["accuracy"] + ["loss"], ReturnedValues(Some([0.3, 0.9]), 1))
            == map["accuracy" := Some(0.3), "loss" := Some(0.9)]
  {
    var vs := ReturnedValues(Some([0.3, 0.9]), 1);
    assert vs == [Some(0.3), Some(0.9)];
    assert ["accuracy"] + ["loss"] == ["accuracy", "loss"];
    assert ZipMap(["loss"], vs[1..]) == map["loss" := Some(0.9)];
    assert "accuracy" !in map["loss" := Some(0.9)];
  }

  // ---------------------------------------------------------------------------
  // print_metrics

  /** The report that lines 171-214 display, as data. */
  datatype Table = Table(
    prevEpochs: EpochLabel, epochs: EpochLabel, prevLr: LrCell, currLr: LrCell,
    training: seq<Row>, validation: seq<Row>, test: seq<Row>)

  /** The displayed table and the value returned at line 219 (`None` when
      `ret_metrics` is false). */
  datatype Output = Output(table: Table, returned: Option<map<Name, Option<real>>>)

  /** Line 50: the list print_metrics works on. */
  function Resolved(metricNames: Option<NameList>, model: Option<Model>): (l: NameList)
    requires metricNames.Some? || model.Some?
    ensures metricNames.Some? ==> l == metricNames.value
    ensures metricNames.None? ==> l == model.value.metricsNames
  {
    if metricNames.Some? then metricNames.value else model.value.metricsNames
  }

  /** The list line 125 may append to, when there is one. */
  function ResolvedFrame(metricNames: Option<NameList>, model: Option<Model>): set<NameList> {
    if metricNames.Some? || model.Some? then {Resolved(metricNames, model)} else {}
  }

  /** `print_metrics(history, epochs, model, ...)`.
      `testData` says whether `ds_test`, or both `X_test` and `y_test`, were
      given; `currResults` and `prevResults` are what `model.evaluate` and
      `prev_model.evaluate` return on them. The ghost results `sets` and
      `added` are the six dictionaries at line 151 and the appended legacy
      columns. */
  method PrintMetrics(history: Series, epochs: EpochLabel, model: Option<Model>, testData: bool,
                      prevHist: Option<Series>, prevModel: Option<Model>, prevEpochs: EpochLabel,
                      metricNames: Option<NameList>, retMetrics: bool,
                      currResults: seq<real>, prevResults: seq<real>)
    returns (r: Result<Output>, ghost sets: MetricSets, ghost added: seq<Name>)
    requires NonEmptyColumns(history) && TableColumns(prevHist)
    requires model.Some? && testData ==> |model.value.metricsNames.items| <= |currResults|
    requires prevModel.Some? && testData ==> |prevModel.value.metricsNames.items| <= |prevResults|
    requires prevModel.Some? && (metricNames.Some? || model.Some?) ==>
      prevModel.value.metricsNames != Resolved(metricNames, model)
    modifies ResolvedFrame(metricNames, model)
    ensures metricNames.None? && model.None? ==> r == Failure(ValueError)
    ensures metricNames.Some? && model.None? ==>
      r == Failure(AttributeError) && unchanged(metricNames.value)
    ensures model.Some? ==>
      var list := Resolved(metricNames, model);
      var names := old(list.items);
      var tbl := Columns(prevHist);
      var vp := ValidationPresent(history);
      && (!HistoryCovers(names, history, vp) ==>
            r.Failure? && r.error.KeyError? && r.error.key !in history && unchanged(list))
      && (HistoryCovers(names, history, vp) ==>
            && list.items == names + added
            && NoDuplicates(added)
            && LegacyColumns(names, tbl, added)
            && TrainingFinal(names, history, tbl, added, sets.prevTr, sets.currTr)
            && ValidationFinal(names, history, vp, tbl, added, sets.prevVal, sets.currVal)
            && (r.Success? <==> ValidationRenders(names, history, tbl))
            && (r.Failure? ==> r.error.KeyError?))
    ensures r.Success? ==> model.Some?
    ensures r.Success? ==>
      var m := model.value;
      var list := Resolved(metricNames, model);
      var names := old(list.items);
      var currTest := if testData then Some(Evaluation(old(m.metricsNames.items), currResults)) else None;
      var prevTest := if prevModel.Some? && testData
                      then Some(Evaluation(prevModel.value.metricsNames.items, prevResults)) else None;
      var t := r.value.table;
      && TestFinal(names, added, prevTest, currTest, sets.prevTe, sets.currTe)
      && t.prevEpochs == NormalizePrevEpochs(prevEpochs) && t.epochs == epochs
      && t.prevLr == PrevLr(prevHist) && t.currLr == Lr(RoundTo(m.learningRate, 10))
      && RowsOf(list.items, "", sets.prevTr, sets.currTr, t.training)
      && RowsOf(list.items, "val_", sets.prevVal, sets.currVal, t.validation)
      && RowsOf(list.items, "", sets.prevTe, sets.currTe, t.test)
      && r.value.returned == (if retMetrics then
           Some(ZipMap(list.items, ReturnedValues(if testData then Some(currResults) else None, |names|)))
         else None)
  {
    sets, added := MetricSets(map[], map[], map[], map[], map[], map[]), [];
    if metricNames.None? && model.None? {
      return Failure(ValueError), sets, added;
    }
    var list := Resolved(metricNames, model);
    var prevEpochsCell := NormalizePrevEpochs(prevEpochs);
    var prevLr := PrevLr(prevHist);
    if model.None? {
      return Failure(AttributeError), sets, added;
    }
    var currLr := Lr(RoundTo(model.value.learningRate, 10));
    var names := list.items;
    var prevTest := if prevModel.Some? && testData
                    then Some(Evaluation(prevModel.value.metricsNames.items, prevResults)) else None;
    var currTest := if testData then Some(Evaluation(model.value.metricsNames.items, currResults)) else None;
    var rec := Reconcile(names, history, prevHist, prevTest, currTest);
    if rec.Failure? {
      return Failure(rec.error), sets, added;
    }
    var t, legacy := rec.value.sets, rec.value.added;
    sets, added := t, legacy;
    list.items := list.items + legacy;
    var finalNames := list.items;
    var tbl := Columns(prevHist);
    TrainingRowsRender(names, history, tbl, legacy, t.prevTr, t.currTr);
    ValidationRowsRenderIff(names, history, tbl, legacy, t.prevVal, t.currVal);
    TestRowsRender(names, legacy, prevTest, currTest, t.prevTe, t.currTe);
    var training := SectionRows(finalNames, "", t.prevTr, t.currTr);
    var validation := SectionRows(finalNames, "val_", t.prevVal, t.currVal);
    if validation.Failure? {
      return Failure(validation.error), sets, added;
    }
    var test := SectionRows(finalNames, "", t.prevTe, t.currTe);
    var returned := None;
    if retMetrics {
      var values := ReturnedValues(if testData then Some(currResults) else None, |names|);
      returned := Some(ZipMap(finalNames, values));
    }
    var shown := Table(prevEpochsCell, epochs, prevLr, currLr, training.value, validation.value, test.value);
    r := Success(Output(shown, returned));
  }
}
