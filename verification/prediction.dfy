/** `predict_all`: encode the rows with the fixed prediction selection,
    score each one, and turn the index of the highest score back into a
    city name. The network itself is a parameter `score`. */
module Prediction {
  import opened Wrappers
  import opened Parsers
  import opened Labels
  import opened Encoding

  /** The input width the network is built with. */
  const NumFeatures: nat := 71

  /** The selection `predict_all` passes: every question but Q8 and Q9, in
      the order written there (Q7 before Q5 and Q6). */
  const PredictionCategories: seq<string> := ["Q1", "Q2", "Q3", "Q4", "Q7", "Q5", "Q6"]

  /** How decoding a score vector can raise: `np.argmax` of an empty
      vector, or `np.eye(4)` indexed past its last row. */
  datatype PredictError = EmptyScores | ClassOutOfRange(index: nat)

  /** `np.argmax`: the position of the largest score, the first one on a
      tie. */
  function ArgMax(a: seq<real>): (k: nat)
    requires |a| > 0
    ensures k < |a|
    ensures forall j :: 0 <= j < |a| ==> a[j] <= a[k]
    ensures forall j :: 0 <= j < k ==> a[j] < a[k]
    decreases |a|
  {
    if |a| == 1 then 0
    else
      var k := ArgMax(a[..|a| - 1]);
      if a[|a| - 1] > a[k] then |a| - 1 else k
  }

  /** Row `idx` of the `n` x `n` identity matrix (`np.eye(n)[idx]`). */
  function UnitRow(idx: nat, n: nat): seq<int>
    requires idx < n
  {
    seq(n, j requires 0 <= j < n => if j == idx then 1 else 0)
  }

  /** `np.where(res == 1)[0][0]` of an identity row finds the row's
      index. */
  lemma UnitRowHotIndex(idx: nat, n: nat)
    requires idx < n
    ensures IndexOf(UnitRow(idx, n), 1) == Some(idx)
  {
    var row := UnitRow(idx, n);
    assert row[idx] == 1;
    assert 1 !in row[..idx] by {
      forall j | 0 <= j < idx
        ensures row[..idx][j] != 1
      {
        assert row[..idx][j] == row[j];
      }
    }
  }

  /** The decoding step of `predict_all`: argmax, identity row, position
      of its 1, then the city of that class. The result names the class whose
      score is the first maximal one; a maximum past the fourth score
      raises. */
  function DecodeScores(pred: seq<real>): (r: Result<string, PredictError>)
    ensures r.Failure? <==> |pred| == 0 || ArgMax(pred) >= NumClasses
    ensures |pred| == 0 ==> r == Failure(EmptyScores)
    ensures |pred| > 0 && ArgMax(pred) >= NumClasses ==> r == Failure(ClassOutOfRange(ArgMax(pred)))
    ensures r.Success? ==>
              var k := LabToNum(r.value);
              && r.value in Cities
              && k < |pred|
              && (forall j :: 0 <= j < |pred| ==> pred[j] <= pred[k])
              && (forall j :: 0 <= j < k ==> pred[j] < pred[k])
  {
    if |pred| == 0 then Failure(EmptyScores)
    else
      var idx := ArgMax(pred);
      if idx >= NumClasses then Failure(ClassOutOfRange(idx))
      else
        var res := UnitRow(idx, NumClasses);
        UnitRowHotIndex(idx, NumClasses);
        var hot := IndexOf(res, 1).value;
        EncodeDecode(hot);
        Success(CityOfClass(hot))
  }

  /** The decoded prediction for one encoded row: a city whose code is
      the argmax of the row's scores. */
  function Classify(score: seq<real> -> seq<real>, fs: seq<Feature>): (r: Result<string, PredictError>)
    ensures var pred := score(Values(fs));
            r.Failure? <==> |pred| == 0 || ArgMax(pred) >= NumClasses
    ensures var pred := score(Values(fs));
            r.Success? ==> r.value in Cities && |pred| > 0 && ArgMax(pred) == LabToNum(r.value)
  {
    var pred := score(Values(fs));
    var d := DecodeScores(pred);
    if d.Success? then
      ArgMaxUnique(pred, LabToNum(d.value));
      d
    else d
  }

  /** The loop of `predict_all` over an encoded table: decode each row in
      order; the first row whose decoding raises aborts the whole call. */
  method DecodeAll(decode: seq<Feature> -> Result<string, PredictError>, data: seq<seq<Feature>>)
    returns (r: Result<seq<string>, PredictError>)
    ensures r.Success? <==> forall i :: 0 <= i < |data| ==> decode(data[i]).Success?
    ensures r.Success? ==>
              && |r.value| == |data|
              && forall i :: 0 <= i < |data| ==> r.value[i] == decode(data[i]).value
    ensures r.Failure? ==>
              exists i :: 0 <= i < |data|
                && (forall j :: 0 <= j < i ==> decode(data[j]).Success?)
                && decode(data[i]) == Failure(r.error)
  {
    var predictions: seq<string> := [];
    var i := 0;
    while i < |data|
      invariant 0 <= i <= |data|
      invariant |predictions| == i
      invariant forall j :: 0 <= j < i ==> decode(data[j]).Success?
      invariant forall j :: 0 <= j < i ==> predictions[j] == decode(data[j]).value
    {
      var city := decode(data[i]);
      if city.Failure? {
        return Failure(city.error);
      }
      predictions := predictions + [city.value];
      i := i + 1;
    }
    return Success(predictions);
  }

  /** `predict_all`: the table encoded with the fixed prediction selection,
      then one city per row, in row order. */
  method PredictAll(score: seq<real> -> seq<real>, rows: seq<Row>, parse: string -> Option<real>)
    returns (r: Result<seq<string>, PredictError>)
    ensures var data := PreprocessForPrediction(PredictionCategories, rows, parse);
            && (r.Success? <==> forall i :: 0 <= i < |rows| ==> Classify(score, data[i]).Success?)
            && (r.Success? ==>
                  && |r.value| == |rows|
                  && forall i :: 0 <= i < |rows| ==> r.value[i] == Classify(score, data[i]).value)
            && (r.Failure? ==>
                  exists i :: 0 <= i < |rows|
                    && (forall j :: 0 <= j < i ==> Classify(score, data[j]).Success?)
                    && Classify(score, data[i]) == Failure(r.error))
  {
    r := DecodeAll(fs => Classify(score, fs), PreprocessForPrediction(PredictionCategories, rows, parse));
  }

  /** Any position holding the first maximal score is the one `ArgMax`
      returns. */
  lemma ArgMaxUnique(a: seq<real>, k: nat)
    requires k < |a|
    requires forall j :: 0 <= j < |a| ==> a[j] <= a[k]
    requires forall j :: 0 <= j < k ==> a[j] < a[k]
    ensures ArgMax(a) == k
  {
  }

  /** The one-hot score vector of a class. */
  function ClassScores(k: nat): seq<real> {
    seq(NumClasses, j requires 0 <= j < NumClasses => if j == k then 1.0 else 0.0)
  }

  /** Decoding the one-hot vector of a city's training code names that
      city: the label codec and the prediction decoder are inverse. */
  lemma DecodeTrainingTarget(name: string)
    requires name in Cities
    ensures DecodeScores(ClassScores(LabToNum(name))) == Success(name)
  {
    var k := LabToNum(name);
    var p := ClassScores(k);
    ArgMaxUnique(p, k);
    DecodeEncode(name);
  }

  /** The prediction selection produces exactly as many columns as the
      network has inputs: 4 x 6 scale columns, Q7, 4 companion flags and
      6 x 7 rank columns. */
  lemma PredictionWidth()
    ensures |Columns(PredictionCategories)| == NumFeatures
  {
    PredictionSelectionCounts();
    ColumnCount(PredictionCategories);
  }

  lemma PredictionSelectionCounts()
    ensures CountSelected(ScaleQuestions, PredictionCategories) == 4
    ensures CountSelected(NumericQuestions, PredictionCategories) == 1
    ensures "Q5" in PredictionCategories && "Q6" in PredictionCategories
  {
    assert "Q7" in PredictionCategories && "Q8" !in PredictionCategories && "Q9" !in PredictionCategories;
  }

  /** The default selection (all nine questions) gives 73 columns, two
      more than the network accepts. */
  lemma DefaultWidth()
    ensures |Columns(AllQuestions)| == NumFeatures + 2
  {
    DefaultSelectionCounts();
    ColumnCount(AllQuestions);
  }

  lemma DefaultSelectionCounts()
    ensures CountSelected(ScaleQuestions, AllQuestions) == 4
    ensures CountSelected(NumericQuestions, AllQuestions) == 3
    ensures "Q5" in AllQuestions && "Q6" in AllQuestions
  {
  }

  /** Every encoded prediction row has exactly the network's input width,
      whatever the answers. */
  lemma PredictionRowsWidth(rows: seq<Row>, parse: string -> Option<real>)
    ensures forall i :: 0 <= i < |rows| ==>
              |PreprocessForPrediction(PredictionCategories, rows, parse)[i]| == NumFeatures
  {
    PredictionWidth();
    PredictionTableColumns(PredictionCategories, rows, parse);
    var t := PreprocessForPrediction(PredictionCategories, rows, parse);
    forall i | 0 <= i < |rows|
      ensures |t[i]| == NumFeatures
    {
      assert |Names(t[i])| == |t[i]|;
    }
  }

  /** Q7 written before Q5 and Q6 does not move its column: the encoding
      is that of the selection in question order. */
  lemma PredictionSelectionInOrder(r: Row, parse: string -> Option<real>)
    ensures EncodeForPrediction(PredictionCategories, r, parse)
            == EncodeForPrediction(["Q1", "Q2", "Q3", "Q4", "Q5", "Q6", "Q7"], r, parse)
  {
    var ordered := ["Q1", "Q2", "Q3", "Q4", "Q5", "Q6", "Q7"];
    assert SameSelection(PredictionCategories, ordered) by {
      forall q
        ensures q in PredictionCategories <==> q in ordered
      {
      }
    }
    SelectionOrderIrrelevant(PredictionCategories, ordered, r, parse);
  }
}
