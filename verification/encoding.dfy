/** The category encoder and feature assembler: one questionnaire row
    becomes a sequence of named numeric features whose names and order
    depend only on the set of selected questions. */
module Encoding {
  import opened Wrappers
  import opened Parsers
  import opened Labels

  /** One questionnaire response; a None cell is pandas NaN. */
  datatype Row = Row(
    q1: Option<string>, q2: Option<string>, q3: Option<string>,
    q4: Option<string>, q5: Option<string>, q6: Option<string>,
    q7: Option<string>, q8: Option<string>, q9: Option<string>)

  /** A training response: the answers and the city label. */
  datatype LabeledRow = LabeledRow(answers: Row, city: Option<string>)

  /** One output column of a row: its name and its value. */
  datatype Feature = Feature(name: string, value: real)

  const ScaleQuestions: seq<string> := ["Q1", "Q2", "Q3", "Q4"]
  const ScaleLevels: seq<int> := [-1, 1, 2, 3, 4, 5]
  const Companions: seq<string> := ["Partner", "Friends", "Siblings", "Co-worker"]
  const Areas: nat := 6
  const RankLevels: seq<int> := [-1, 1, 2, 3, 4, 5, 6]
  const NumericQuestions: seq<string> := ["Q7", "Q8", "Q9"]
  const LabelColumn: string := "Label"

  /** The default selection of both preprocessing functions. */
  const AllQuestions: seq<string> := ["Q1", "Q2", "Q3", "Q4", "Q5", "Q6", "Q7", "Q8", "Q9"]

  function Answer(r: Row, q: string): Option<string> {
    if q == "Q1" then r.q1
    else if q == "Q2" then r.q2
    else if q == "Q3" then r.q3
    else if q == "Q4" then r.q4
    else if q == "Q5" then r.q5
    else if q == "Q6" then r.q6
    else if q == "Q7" then r.q7
    else if q == "Q8" then r.q8
    else if q == "Q9" then r.q9
    else None
  }

  /** Python's `str` of a cell: NaN prints as "nan". */
  function CellText(cell: Option<string>): (t: string)
    ensures cell.Some? ==> t == cell.value
    ensures cell.None? ==> NoDigits(t)
  {
    match cell
    case Some(s) => s
    case None => "nan"
  }

  // ---------------------------------------------------------------------
  // Feature sequences

  function Names(fs: seq<Feature>): seq<string> {
    seq(|fs|, i requires 0 <= i < |fs| => fs[i].name)
  }

  function Values(fs: seq<Feature>): seq<real> {
    seq(|fs|, i requires 0 <= i < |fs| => fs[i].value)
  }

  /** Number of entries equal to 1. */
  function CountOnes(xs: seq<real>): nat
    decreases |xs|
  {
    if xs == [] then 0 else (if xs[0] == 1.0 then 1 else 0) + CountOnes(xs[1..])
  }

  function HotCount(fs: seq<Feature>): nat {
    CountOnes(Values(fs))
  }

  predicate IsIndicator(fs: seq<Feature>) {
    forall j :: 0 <= j < |fs| ==> fs[j].value == 0.0 || fs[j].value == 1.0
  }

  predicate Distinct(levels: seq<int>) {
    forall i, j :: 0 <= i < j < |levels| ==> levels[i] != levels[j]
  }

  // ---------------------------------------------------------------------
  // One-hot blocks (pd.Categorical with fixed categories + get_dummies)

  /** The dummy column names of a categorical column: `prefix_level`. */
  function LevelColumns(prefix: string, levels: seq<int>): seq<string> {
    seq(|levels|, j requires 0 <= j < |levels| => prefix + "_" + IntToString(levels[j]))
  }

  /** The dummies of value `v` over the declared levels: a value outside
      the levels becomes NaN in the categorical and gets no 1 at all. */
  function OneHot(prefix: string, levels: seq<int>, v: int): (fs: seq<Feature>)
    ensures |fs| == |levels|
    ensures IsIndicator(fs)
    ensures forall j :: 0 <= j < |fs| ==> (fs[j].value == 1.0 <==> levels[j] == v)
  {
    seq(|levels|, j requires 0 <= j < |levels| =>
      Feature(prefix + "_" + IntToString(levels[j]), if levels[j] == v then 1.0 else 0.0))
  }

  /** The dummies are named `prefix_level`, in level order. */
  lemma OneHotNames(prefix: string, levels: seq<int>, v: int)
    ensures Names(OneHot(prefix, levels, v)) == LevelColumns(prefix, levels)
  {
  }

  /** Q1-Q4: the first number of the answer, one-hot over -1, 1..5. */
  function ScaleBlock(q: string, cell: Option<string>): (fs: seq<Feature>)
    ensures |fs| == 6 && IsIndicator(fs)
    ensures fs[0].value == 1.0 <==> NoDigits(CellText(cell))
    ensures forall j :: 1 <= j < 6 ==> (fs[j].value == 1.0 <==> FirstNumber(CellText(cell)) == j)
  {
    assert forall j :: 1 <= j < 6 ==> ScaleLevels[j] == j;
    OneHot(q, ScaleLevels, FirstNumber(CellText(cell)))
  }

  function CompanionColumns(): seq<string> {
    seq(|Companions|, k requires 0 <= k < |Companions| => "Q5_" + Companions[k])
  }

  /** Q5: one 0/1 column per companion token, in the fixed token order. */
  function CompanionBlock(cell: Option<string>): (fs: seq<Feature>)
    ensures Names(fs) == CompanionColumns()
    ensures IsIndicator(fs)
    ensures forall k :: 0 <= k < |fs| ==>
              (fs[k].value == 1.0 <==> cell.Some? && exists i :: OccursAt(cell.value, Companions[k], i))
  {
    seq(|Companions|, k requires 0 <= k < |Companions| =>
      Feature("Q5_" + Companions[k], CatInS(cell, Companions[k]) as real))
  }

  function RankPrefix(rank: nat): string {
    "Q6_rank_" + NatToString(rank)
  }

  function RankColumns(rank: nat): seq<string>
    requires 1 <= rank <= Areas + 1
    decreases Areas + 1 - rank
  {
    if rank > Areas then [] else LevelColumns(RankPrefix(rank), RankLevels) + RankColumns(rank + 1)
  }

  /** The blocks of ranks `rank`..6 in rank order. */
  function BlocksFrom(block: nat -> seq<Feature>, rank: nat): seq<Feature>
    requires 1 <= rank <= Areas + 1
    decreases Areas + 1 - rank
  {
    if rank > Areas then [] else block(rank) + BlocksFrom(block, rank + 1)
  }

  /** Every block of ranks 1..6 is 7 columns wide. */
  predicate SevenWide(block: nat -> seq<Feature>) {
    forall rank :: 1 <= rank <= Areas ==> |block(rank)| == 7
  }

  /** Q6, rank `rank`: the 1-based position of that rank in the padded
      number list, one-hot over -1, 1..6. */
  function RankBlock(l: seq<int>, rank: nat): seq<Feature> {
    OneHot(RankPrefix(rank), RankLevels, AreaAtRank(l, rank))
  }

  /** Q6, ranks `rank`..6. */
  function RankBlocksFrom(l: seq<int>, rank: nat): (fs: seq<Feature>)
    requires 1 <= rank <= Areas + 1
    ensures |fs| == 7 * (Areas + 1 - rank)
  {
    BlocksLength((r: nat) => RankBlock(l, r), rank);
    BlocksFrom((r: nat) => RankBlock(l, r), rank)
  }

  lemma {:induction false} BlocksLength(block: nat -> seq<Feature>, rank: nat)
    requires 1 <= rank <= Areas + 1
    requires SevenWide(block)
    ensures |BlocksFrom(block, rank)| == 7 * (Areas + 1 - rank)
    decreases Areas + 1 - rank
  {
    if rank <= Areas {
      BlocksLength(block, rank + 1);
    }
  }

  /** The block of rank `rank` sits at offset 7 * (rank - from) of the
      blocks from `from`. */
  lemma {:induction false} BlockAt(block: nat -> seq<Feature>, from: nat, rank: nat)
    requires 1 <= from <= rank <= Areas
    requires SevenWide(block)
    ensures var fs := BlocksFrom(block, from); var k := 7 * (rank - from);
            k + 7 <= |fs| && fs[k..k + 7] == block(rank)
    decreases rank - from
  {
    var head := block(from);
    var tail := BlocksFrom(block, from + 1);
    BlocksLength(block, from + 1);
    if rank == from {
      PrefixOfConcat(head, tail);
    } else {
      BlockAt(block, from + 1, rank);
      SliceOfRight(head, tail, 7 * (rank - from - 1), 7);
    }
  }

  /** The Q6 blocks carry the rank columns, in rank order. */
  lemma {:induction false} RankBlocksNames(l: seq<int>, rank: nat)
    requires 1 <= rank <= Areas + 1
    ensures Names(RankBlocksFrom(l, rank)) == RankColumns(rank)
    decreases Areas + 1 - rank
  {
    if rank <= Areas {
      var head := RankBlock(l, rank);
      var tail := RankBlocksFrom(l, rank + 1);
      assert Names(head) == LevelColumns(RankPrefix(rank), RankLevels) by {
        OneHotNames(RankPrefix(rank), RankLevels, AreaAtRank(l, rank));
      }
      assert Names(tail) == RankColumns(rank + 1) by {
        RankBlocksNames(l, rank + 1);
      }
      assert RankBlocksFrom(l, rank) == head + tail;
      NamesConcat(head, tail);
    }
  }

  /** Q6: the answer's padded number list, then ranks 1..6. */
  function RankBlocks(cell: Option<string>): (fs: seq<Feature>)
    ensures |fs| == 7 * Areas
  {
    RankBlocksFrom(NumberListClean(CellText(cell)), 1)
  }

  /** Q7-Q9: `to_numeric` followed by `fillna(0)`. */
  function NumericValue(cell: Option<string>, parse: string -> Option<real>): (x: real)
    ensures cell.None? ==> x == 0.0
    ensures cell.Some? && parse(StripCommas(cell.value)).None? ==> x == 0.0
    ensures cell.Some? && parse(StripCommas(cell.value)).Some? ==> x == parse(StripCommas(cell.value)).value
  {
    ToNumeric(cell, parse).GetOr(0.0)
  }

  // ---------------------------------------------------------------------
  // Sections and the assembled row

  function ScaleColumns(keys: seq<string>, cats: seq<string>): seq<string>
    decreases |keys|
  {
    if keys == [] then []
    else (if keys[0] in cats then LevelColumns(keys[0], ScaleLevels) else []) + ScaleColumns(keys[1..], cats)
  }

  function NumericColumns(keys: seq<string>, cats: seq<string>): seq<string>
    decreases |keys|
  {
    if keys == [] then []
    else (if keys[0] in cats then [keys[0]] else []) + NumericColumns(keys[1..], cats)
  }

  /** The feature columns a selection produces, in output order: selected
      scale questions, Q5, Q6, then selected numeric questions. */
  function Columns(cats: seq<string>): seq<string> {
    ScaleColumns(ScaleQuestions, cats)
    + (if "Q5" in cats then CompanionColumns() else [])
    + (if "Q6" in cats then RankColumns(1) else [])
    + NumericColumns(NumericQuestions, cats)
  }

  /** A loop over `keys`: the block of each selected key, in the order of
      `keys`. */
  function Section(keys: seq<string>, cats: seq<string>, block: string -> seq<Feature>): seq<Feature>
    decreases |keys|
  {
    if keys == [] then []
    else (if keys[0] in cats then block(keys[0]) else []) + Section(keys[1..], cats, block)
  }

  /** The Q1-Q4 block of each question, read from row `r`. */
  function ScaleBlockOf(r: Row): string -> seq<Feature> {
    q => ScaleBlock(q, Answer(r, q))
  }

  /** The scale loop: each selected key of `keys`, in the order of `keys`. */
  function ScaleSection(keys: seq<string>, cats: seq<string>, r: Row): seq<Feature> {
    Section(keys, cats, ScaleBlockOf(r))
  }

  /** The scale section carries the level columns of the selected keys. */
  lemma {:induction false} ScaleSectionNames(keys: seq<string>, cats: seq<string>, r: Row)
    ensures Names(ScaleSection(keys, cats, r)) == ScaleColumns(keys, cats)
    decreases |keys|
  {
    if keys != [] {
      var head := if keys[0] in cats then ScaleBlockOf(r)(keys[0]) else [];
      var tail := Section(keys[1..], cats, ScaleBlockOf(r));
      assert Names(head) == if keys[0] in cats then LevelColumns(keys[0], ScaleLevels) else [] by {
        OneHotNames(keys[0], ScaleLevels, FirstNumber(CellText(Answer(r, keys[0]))));
      }
      assert Names(tail) == ScaleColumns(keys[1..], cats) by {
        ScaleSectionNames(keys[1..], cats, r);
      }
      assert ScaleSection(keys, cats, r) == head + tail;
      NamesConcat(head, tail);
    }
  }

  /** The numeric loop: each selected key of `keys`, in the order of `keys`. */
  function NumericSection(keys: seq<string>, cats: seq<string>, r: Row, parse: string -> Option<real>): (fs: seq<Feature>)
    ensures Names(fs) == NumericColumns(keys, cats)
    decreases |keys|
  {
    if keys == [] then []
    else
      var head := if keys[0] in cats then [Feature(keys[0], NumericValue(Answer(r, keys[0]), parse))] else [];
      var tail := NumericSection(keys[1..], cats, r, parse);
      NamesConcat(head, tail);
      head + tail
  }

  /** `preprocess_data_for_prediction`, one row: the features of the
      selected questions; `EncodedColumns` gives their names. */
  function EncodeForPrediction(cats: seq<string>, r: Row, parse: string -> Option<real>): seq<Feature> {
    ScaleSection(ScaleQuestions, cats, r)
    + (if "Q5" in cats then CompanionBlock(r.q5) else [])
    + (if "Q6" in cats then RankBlocks(r.q6) else [])
    + NumericSection(NumericQuestions, cats, r, parse)
  }

  /** An encoded row has the columns of the selection, in the same order,
      whatever the answers. */
  lemma EncodedColumns(cats: seq<string>, r: Row, parse: string -> Option<real>)
    ensures Names(EncodeForPrediction(cats, r, parse)) == Columns(cats)
  {
    var scale := ScaleSection(ScaleQuestions, cats, r);
    var q5 := if "Q5" in cats then CompanionBlock(r.q5) else [];
    var q6 := if "Q6" in cats then RankBlocks(r.q6) else [];
    var numeric := NumericSection(NumericQuestions, cats, r, parse);
    RankBlocksNames(NumberListClean(CellText(r.q6)), 1);
    ScaleSectionNames(ScaleQuestions, cats, r);
    NamesConcat(scale, q5);
    NamesConcat(scale + q5, q6);
    NamesConcat(scale + q5 + q6, numeric);
  }

  /** `preprocess_data_for_training`, one row. Its per-question code is
      the same text as the prediction variant's, so it is the prediction
      encoding of the answers followed by the label code in a final
      "Label" column. */
  function EncodeForTraining(cats: seq<string>, lr: LabeledRow, parse: string -> Option<real>): (fs: seq<Feature>)
    ensures Names(fs) == Columns(cats) + [LabelColumn]
    ensures |fs| > 0 && fs[..|fs| - 1] == EncodeForPrediction(cats, lr.answers, parse)
    ensures |fs| > 0 && fs[|fs| - 1].value == LabelCode(lr.city) as real
  {
    var features := EncodeForPrediction(cats, lr.answers, parse);
    EncodedColumns(cats, lr.answers, parse);
    var target := [Feature(LabelColumn, LabelCode(lr.city) as real)];
    NamesConcat(features, target);
    assert Names(target) == [LabelColumn];
    PrefixOfConcat(features, target);
    features + target
  }

  /** The prediction table: one encoded row per input row, in order. */
  function PreprocessForPrediction(cats: seq<string>, rows: seq<Row>, parse: string -> Option<real>): (t: seq<seq<Feature>>)
    ensures |t| == |rows|
  {
    seq(|rows|, i requires 0 <= i < |rows| => EncodeForPrediction(cats, rows[i], parse))
  }

  /** The training table: one encoded row per input row, in order. */
  function PreprocessForTraining(cats: seq<string>, rows: seq<LabeledRow>, parse: string -> Option<real>): (t: seq<seq<Feature>>)
    ensures |t| == |rows|
    ensures forall i :: 0 <= i < |t| ==> Names(t[i]) == Columns(cats) + [LabelColumn]
  {
    seq(|rows|, i requires 0 <= i < |rows| => EncodeForTraining(cats, rows[i], parse))
  }

  // ---------------------------------------------------------------------
  // Block shapes

  /** Over distinct levels a one-hot block holds exactly one 1 when the
      value is a level, and none otherwise. */
  lemma OneHotCount(prefix: string, levels: seq<int>, v: int)
    requires Distinct(levels)
    ensures HotCount(OneHot(prefix, levels, v)) == if v in levels then 1 else 0
  {
    assert Values(OneHot(prefix, levels, v)) == Indicator(levels, v);
    IndicatorCount(levels, v);
  }

  /** The values of a one-hot block, without its names. */
  function Indicator(levels: seq<int>, v: int): seq<real> {
    seq(|levels|, j requires 0 <= j < |levels| => if levels[j] == v then 1.0 else 0.0)
  }

  lemma {:induction false} IndicatorCount(levels: seq<int>, v: int)
    requires Distinct(levels)
    ensures CountOnes(Indicator(levels, v)) == if v in levels then 1 else 0
    decreases |levels|
  {
    if levels != [] {
      var first := if levels[0] == v then 1 else 0;
      var rest := CountOnes(Indicator(levels[1..], v));
      assert rest == if v in levels[1..] then 1 else 0 by {
        DistinctTail(levels);
        IndicatorCount(levels[1..], v);
      }
      assert levels[0] == v ==> v !in levels[1..] by {
        DistinctTail(levels);
      }
      assert v in levels <==> v == levels[0] || v in levels[1..] by {
        assert levels == [levels[0]] + levels[1..];
      }
      assert CountOnes(Indicator(levels, v)) == first + rest by {
        assert Indicator(levels, v)[1..] == Indicator(levels[1..], v);
      }
    }
  }

  /** Dropping the first of distinct levels leaves distinct levels that
      do not contain it. */
  lemma DistinctTail(levels: seq<int>)
    requires Distinct(levels) && levels != []
    ensures Distinct(levels[1..]) && levels[0] !in levels[1..]
  {
    forall i, j | 0 <= i < j < |levels| - 1
      ensures levels[1..][i] != levels[1..][j]
    {
      assert levels[1..][i] == levels[i + 1] && levels[1..][j] == levels[j + 1];
    }
    forall j | 0 <= j < |levels| - 1
      ensures levels[1..][j] != levels[0]
    {
      assert levels[1..][j] == levels[j + 1];
    }
  }

  /** A scale level set by one-hot encoding: exactly the values -1 and
      1..5 hit a column. */
  lemma ScaleLevelsHot(q: string, v: int)
    ensures |OneHot(q, ScaleLevels, v)| == 6
    ensures HotCount(OneHot(q, ScaleLevels, v)) == if v == -1 || 1 <= v <= 5 then 1 else 0
  {
    assert Distinct(ScaleLevels);
    OneHotCount(q, ScaleLevels, v);
    assert v in ScaleLevels <==> v == -1 || 1 <= v <= 5;
  }

  /** Q1-Q4: six columns; a first number of 0 or above 5 leaves them all 0,
      any other answer (a missing one included) sets exactly one. */
  lemma ScaleBlockShape(q: string, cell: Option<string>)
    ensures |ScaleBlock(q, cell)| == 6
    ensures var v := FirstNumber(CellText(cell));
            HotCount(ScaleBlock(q, cell)) == if v == 0 || v > 5 then 0 else 1
  {
    ScaleLevelsHot(q, FirstNumber(CellText(cell)));
  }

  /** A missing Q1-Q4 answer sets the "-1" column. */
  lemma MissingScaleAnswer(q: string)
    ensures ScaleBlock(q, None)[0].value == 1.0
  {
    assert NoDigits("nan");
  }

  /** The block of rank `rank` sits at offset 7 * (rank - from) of the Q6
      blocks built from `from`. */
  lemma RankBlockAt(l: seq<int>, from: nat, rank: nat)
    requires 1 <= from <= rank <= Areas
    ensures var fs := RankBlocksFrom(l, from); var k := 7 * (rank - from);
            k + 7 <= |fs| && fs[k..k + 7] == OneHot(RankPrefix(rank), RankLevels, AreaAtRank(l, rank))
  {
    BlockAt((r: nat) => RankBlock(l, r), from, rank);
  }

  /** Q6: 42 columns; the block of each rank has its 1 at the rank's
      position in the padded list (at level -1 when the rank is absent), and
      is all zeros exactly when that position is beyond 6, which the
      never-truncated list allows when the cell holds more than six numbers. */
  lemma RankBlockShape(cell: Option<string>, rank: nat)
    requires 1 <= rank <= Areas
    ensures |RankBlocks(cell)| == 42
    ensures var l := NumberListClean(CellText(cell)); var fs := RankBlocks(cell); var k := 7 * (rank - 1);
            && fs[k..k + 7] == OneHot(RankPrefix(rank), RankLevels, AreaAtRank(l, rank))
            && HotCount(fs[k..k + 7]) == (if AreaAtRank(l, rank) > Areas then 0 else 1)
  {
    RankListBlock(NumberListClean(CellText(cell)), rank);
  }

  lemma RankListBlock(l: seq<int>, rank: nat)
    requires 1 <= rank <= Areas
    ensures |RankBlocksFrom(l, 1)| == 42
    ensures var fs := RankBlocksFrom(l, 1); var k := 7 * (rank - 1);
            && fs[k..k + 7] == OneHot(RankPrefix(rank), RankLevels, AreaAtRank(l, rank))
            && HotCount(fs[k..k + 7]) == (if AreaAtRank(l, rank) > Areas then 0 else 1)
  {
    RankBlockAt(l, 1, rank);
    RankLevelsHot(RankPrefix(rank), AreaAtRank(l, rank));
  }

  /** A position set by one-hot encoding over the rank levels: -1 and 1..6
      hit a column. */
  lemma RankLevelsHot(prefix: string, a: int)
    ensures HotCount(OneHot(prefix, RankLevels, a)) == if a == -1 || 1 <= a <= Areas then 1 else 0
  {
    assert Distinct(RankLevels);
    OneHotCount(prefix, RankLevels, a);
    assert a in RankLevels <==> a == -1 || 1 <= a <= 6;
  }

  /** A seventh number can push a rank out of the one-hot range. */
  lemma LongRankListDropsRank()
    ensures AreaAtRank([2, 3, 4, 5, 6, 7, 1], 1) == 7
    ensures HotCount(OneHot(RankPrefix(1), RankLevels, AreaAtRank([2, 3, 4, 5, 6, 7, 1], 1))) == 0
  {
    LongRankListPosition();
    RankLevelsHot(RankPrefix(1), 7);
  }

  lemma LongRankListPosition()
    ensures AreaAtRank([2, 3, 4, 5, 6, 7, 1], 1) == 7
  {
    var l: seq<int> := [2, 3, 4, 5, 6, 7, 1];
    assert l[6] == 1;
    assert 1 !in l[..6];
  }

  // ---------------------------------------------------------------------
  // Column layout

  /** How many of `keys` are selected. */
  function CountSelected(keys: seq<string>, cats: seq<string>): nat
    decreases |keys|
  {
    if keys == [] then 0 else (if keys[0] in cats then 1 else 0) + CountSelected(keys[1..], cats)
  }

  lemma {:induction false} ScaleColumnsCount(keys: seq<string>, cats: seq<string>)
    ensures |ScaleColumns(keys, cats)| == 6 * CountSelected(keys, cats)
    decreases |keys|
  {
    if keys != [] {
      ScaleColumnsCount(keys[1..], cats);
    }
  }

  lemma {:induction false} NumericColumnsCount(keys: seq<string>, cats: seq<string>)
    ensures |NumericColumns(keys, cats)| == CountSelected(keys, cats)
    decreases |keys|
  {
    if keys != [] {
      NumericColumnsCount(keys[1..], cats);
    }
  }

  lemma {:induction false} RankColumnsCount(rank: nat)
    requires 1 <= rank <= Areas + 1
    ensures |RankColumns(rank)| == 7 * (Areas + 1 - rank)
    decreases Areas + 1 - rank
  {
    if rank <= Areas {
      RankColumnsCount(rank + 1);
    }
  }

  /** Width of a selection: 6 per scale question, 4 for Q5, 42 for Q6 and
      1 per numeric question. */
  lemma ColumnCount(cats: seq<string>)
    ensures |Columns(cats)| ==
              6 * CountSelected(ScaleQuestions, cats)
              + (if "Q5" in cats then 4 else 0)
              + (if "Q6" in cats then 42 else 0)
              + CountSelected(NumericQuestions, cats)
  {
    ScaleColumnsCount(ScaleQuestions, cats);
    NumericColumnsCount(NumericQuestions, cats);
    RankColumnsCount(1);
  }

  /** Two selections holding the same questions, in any order and with any
      repetition. */
  ghost predicate SameSelection(c1: seq<string>, c2: seq<string>) {
    forall q :: q in c1 <==> q in c2
  }

  lemma {:induction false} SectionAgrees(keys: seq<string>, c1: seq<string>, c2: seq<string>, block: string -> seq<Feature>)
    requires SameSelection(c1, c2)
    ensures Section(keys, c1, block) == Section(keys, c2, block)
    decreases |keys|
  {
    if keys != [] {
      SectionAgrees(keys[1..], c1, c2, block);
      assert keys[0] in c1 <==> keys[0] in c2;
    }
  }

  lemma {:induction false} NumericSectionAgrees(keys: seq<string>, c1: seq<string>, c2: seq<string>, r: Row, parse: string -> Option<real>)
    requires SameSelection(c1, c2)
    ensures NumericSection(keys, c1, r, parse) == NumericSection(keys, c2, r, parse)
    decreases |keys|
  {
    if keys != [] {
      NumericSectionAgrees(keys[1..], c1, c2, r, parse);
      assert keys[0] in c1 <==> keys[0] in c2;
    }
  }

  /** The encoding depends on the selection only as a set: the order of
      the argument never changes the columns or their values. */
  lemma SelectionOrderIrrelevant(c1: seq<string>, c2: seq<string>, r: Row, parse: string -> Option<real>)
    requires SameSelection(c1, c2)
    ensures EncodeForPrediction(c1, r, parse) == EncodeForPrediction(c2, r, parse)
    ensures Columns(c1) == Columns(c2)
  {
    SectionAgrees(ScaleQuestions, c1, c2, ScaleBlockOf(r));
    ScaleSectionNames(ScaleQuestions, c1, r);
    ScaleSectionNames(ScaleQuestions, c2, r);
    NumericSectionAgrees(NumericQuestions, c1, c2, r, parse);
    assert "Q5" in c1 <==> "Q5" in c2;
    assert "Q6" in c1 <==> "Q6" in c2;
  }

  /** Each feature of `fs` is named after a selected question of `keys`
      and holds that question's coerced answer. */
  ghost predicate CoercedAnswers(fs: seq<Feature>, keys: seq<string>, cats: seq<string>, r: Row, parse: string -> Option<real>) {
    forall i :: 0 <= i < |fs| ==>
      fs[i].name in keys && fs[i].name in cats && fs[i].value == NumericValue(Answer(r, fs[i].name), parse)
  }

  /** Each numeric feature is named after a selected question and holds
      that question's coerced answer. */
  lemma {:induction false} NumericSectionValues(keys: seq<string>, cats: seq<string>, r: Row, parse: string -> Option<real>)
    ensures CoercedAnswers(NumericSection(keys, cats, r, parse), keys, cats, r, parse)
    decreases |keys|
  {
    if keys != [] {
      var head := if keys[0] in cats then [Feature(keys[0], NumericValue(Answer(r, keys[0]), parse))] else [];
      var tail := NumericSection(keys[1..], cats, r, parse);
      var fs := NumericSection(keys, cats, r, parse);
      NumericSectionValues(keys[1..], cats, r, parse);
      assert fs == head + tail;
      forall i | 0 <= i < |fs|
        ensures fs[i].name in keys && fs[i].name in cats
        ensures fs[i].value == NumericValue(Answer(r, fs[i].name), parse)
      {
        if i >= |head| {
          var j := i - |head|;
          assert fs[i] == tail[j];
          assert tail[j].name in keys[1..];
        }
      }
    }
  }

  /** Every block is six columns wide. */
  ghost predicate SixWide(block: string -> seq<Feature>) {
    forall q :: |block(q)| == 6
  }

  /** When every key is selected, the block of key `k` sits at offset
      6 * k of the section. */
  lemma {:induction false} SectionAt(keys: seq<string>, cats: seq<string>, block: string -> seq<Feature>, k: nat)
    requires forall i :: 0 <= i < |keys| ==> keys[i] in cats
    requires SixWide(block)
    requires k < |keys|
    ensures var fs := Section(keys, cats, block);
            6 * k + 6 <= |fs| && fs[6 * k..6 * k + 6] == block(keys[k])
    decreases k
  {
    var head := block(keys[0]);
    var tail := Section(keys[1..], cats, block);
    assert Section(keys, cats, block) == head + tail;
    if k == 0 {
      PrefixOfConcat(head, tail);
    } else {
      assert forall i :: 0 <= i < |keys| - 1 ==> keys[1..][i] == keys[i + 1];
      SectionAt(keys[1..], cats, block, k - 1);
      SliceOfRight(head, tail, 6 * (k - 1), 6);
    }
  }

  /** With all four scale questions selected, the scale section is their
      blocks, six columns each, in question order. */
  lemma ScaleSectionAt(cats: seq<string>, r: Row, k: nat)
    requires "Q1" in cats && "Q2" in cats && "Q3" in cats && "Q4" in cats
    requires k < 4
    ensures var fs := ScaleSection(ScaleQuestions, cats, r);
            6 * k + 6 <= |fs| && fs[6 * k..6 * k + 6] == ScaleBlock(ScaleQuestions[k], Answer(r, ScaleQuestions[k]))
  {
    ScaleQuestionsSelected(cats);
    ScaleBlocksSixWide(r);
    SectionAt(ScaleQuestions, cats, ScaleBlockOf(r), k);
  }

  lemma ScaleQuestionsSelected(cats: seq<string>)
    requires "Q1" in cats && "Q2" in cats && "Q3" in cats && "Q4" in cats
    ensures forall i :: 0 <= i < |ScaleQuestions| ==> ScaleQuestions[i] in cats
  {
  }

  lemma ScaleBlocksSixWide(r: Row)
    ensures SixWide(ScaleBlockOf(r))
  {
    forall q
      ensures |ScaleBlockOf(r)(q)| == 6
    {
      assert |ScaleBlock(q, Answer(r, q))| == |ScaleLevels|;
    }
  }

  /** The last features of an encoded row are the selected numeric
      questions, each holding its coerced answer. */
  lemma EncodedNumericAnswers(cats: seq<string>, r: Row, parse: string -> Option<real>)
    ensures var fs := EncodeForPrediction(cats, r, parse); var n := CountSelected(NumericQuestions, cats);
            n <= |fs| && CoercedAnswers(fs[|fs| - n..], NumericQuestions, cats, r, parse)
  {
    var numeric := NumericSection(NumericQuestions, cats, r, parse);
    var front := ScaleSection(ScaleQuestions, cats, r)
      + (if "Q5" in cats then CompanionBlock(r.q5) else [])
      + (if "Q6" in cats then RankBlocks(r.q6) else []);
    var fs := EncodeForPrediction(cats, r, parse);
    assert fs == front + numeric;
    assert |numeric| == CountSelected(NumericQuestions, cats) by {
      NumericColumnsCount(NumericQuestions, cats);
      assert |Names(numeric)| == |numeric|;
    }
    assert fs[|front|..] == numeric;
    NumericSectionValues(NumericQuestions, cats, r, parse);
  }

  /** An encoded row opens with its scale section. */
  lemma EncodedScalePrefix(cats: seq<string>, r: Row, parse: string -> Option<real>)
    ensures var fs := EncodeForPrediction(cats, r, parse); var scale := ScaleSection(ScaleQuestions, cats, r);
            |scale| <= |fs| && fs[..|scale|] == scale
  {
    var scale := ScaleSection(ScaleQuestions, cats, r);
    var q5 := if "Q5" in cats then CompanionBlock(r.q5) else [];
    var q6 := if "Q6" in cats then RankBlocks(r.q6) else [];
    var numeric := NumericSection(NumericQuestions, cats, r, parse);
    assert EncodeForPrediction(cats, r, parse) == scale + q5 + q6 + numeric;
    PiecesOfFour(scale, q5, q6, numeric);
  }

  /** With all four scale questions selected, columns 6k..6k+5 of an
      encoded row are the one-hot block of question k + 1. */
  lemma EncodedScaleBlock(cats: seq<string>, r: Row, parse: string -> Option<real>, k: nat)
    requires "Q1" in cats && "Q2" in cats && "Q3" in cats && "Q4" in cats
    requires k < 4
    ensures var fs := EncodeForPrediction(cats, r, parse);
            6 * k + 6 <= |fs| && fs[6 * k..6 * k + 6] == ScaleBlock(ScaleQuestions[k], Answer(r, ScaleQuestions[k]))
  {
    var fs := EncodeForPrediction(cats, r, parse);
    var scale := ScaleSection(ScaleQuestions, cats, r);
    EncodedScalePrefix(cats, r, parse);
    ScaleSectionAt(cats, r, k);
    SliceOfPrefix(fs, |scale|, 6 * k, 6 * k + 6);
  }

  /** With Q5 selected, its four flags follow the scale section. */
  lemma EncodedCompanionBlock(cats: seq<string>, r: Row, parse: string -> Option<real>)
    requires "Q5" in cats
    ensures var fs := EncodeForPrediction(cats, r, parse); var n := |ScaleSection(ScaleQuestions, cats, r)|;
            n + 4 <= |fs| && fs[n..n + 4] == CompanionBlock(r.q5)
  {
    var scale := ScaleSection(ScaleQuestions, cats, r);
    var q5 := CompanionBlock(r.q5);
    var q6 := if "Q6" in cats then RankBlocks(r.q6) else [];
    var numeric := NumericSection(NumericQuestions, cats, r, parse);
    assert |q5| == 4 by {
      assert |Names(q5)| == |q5|;
    }
    assert EncodeForPrediction(cats, r, parse) == scale + q5 + q6 + numeric;
    PiecesOfFour(scale, q5, q6, numeric);
  }

  /** With Q6 selected, its 42 rank columns follow the scale section and
      the Q5 flags, if any. */
  lemma EncodedRankBlocks(cats: seq<string>, r: Row, parse: string -> Option<real>)
    requires "Q6" in cats
    ensures var fs := EncodeForPrediction(cats, r, parse);
            var n := |ScaleSection(ScaleQuestions, cats, r)| + (if "Q5" in cats then 4 else 0);
            n + 42 <= |fs| && fs[n..n + 42] == RankBlocks(r.q6)
  {
    var scale := ScaleSection(ScaleQuestions, cats, r);
    var q5 := if "Q5" in cats then CompanionBlock(r.q5) else [];
    var q6 := RankBlocks(r.q6);
    var numeric := NumericSection(NumericQuestions, cats, r, parse);
    assert |q5| == if "Q5" in cats then 4 else 0 by {
      assert |Names(q5)| == |q5|;
    }
    assert EncodeForPrediction(cats, r, parse) == scale + q5 + q6 + numeric;
    PiecesOfFour(scale, q5, q6, numeric);
  }

  /** Every encoded training row is the encoded prediction row of its
      answers plus the label code, row by row. */
  lemma TrainingTableExtendsPrediction(cats: seq<string>, rows: seq<LabeledRow>, parse: string -> Option<real>)
    ensures var t := PreprocessForTraining(cats, rows, parse);
            var p := PreprocessForPrediction(cats, seq(|rows|, i requires 0 <= i < |rows| => rows[i].answers), parse);
            && |t| == |p| == |rows|
            && forall i :: 0 <= i < |rows| ==>
                 |t[i]| == |p[i]| + 1 && t[i][..|p[i]|] == p[i] && t[i][|p[i]|].value == LabelCode(rows[i].city) as real
  {
    var t := PreprocessForTraining(cats, rows, parse);
    var answers := seq(|rows|, i requires 0 <= i < |rows| => rows[i].answers);
    var p := PreprocessForPrediction(cats, answers, parse);
    forall i | 0 <= i < |rows|
      ensures |t[i]| == |p[i]| + 1 && t[i][..|p[i]|] == p[i] && t[i][|p[i]|].value == LabelCode(rows[i].city) as real
    {
      assert t[i] == EncodeForTraining(cats, rows[i], parse);
      assert p[i] == EncodeForPrediction(cats, rows[i].answers, parse);
    }
  }

  /** Every row of the prediction table has the columns of the selection,
      in the same order, whatever the answers. */
  lemma PredictionTableColumns(cats: seq<string>, rows: seq<Row>, parse: string -> Option<real>)
    ensures forall i :: 0 <= i < |rows| ==> Names(PreprocessForPrediction(cats, rows, parse)[i]) == Columns(cats)
  {
    forall i | 0 <= i < |rows|
      ensures Names(PreprocessForPrediction(cats, rows, parse)[i]) == Columns(cats)
    {
      EncodedColumns(cats, rows[i], parse);
    }
  }

  /** The fixed categories make each encoded row a function of that row
      alone: equal answers in two tables give equal encoded rows, whatever
      the other rows hold. */
  lemma RowIndependent(cats: seq<string>, rows1: seq<Row>, rows2: seq<Row>, i: nat, j: nat, parse: string -> Option<real>)
    requires i < |rows1| && j < |rows2| && rows1[i] == rows2[j]
    ensures PreprocessForPrediction(cats, rows1, parse)[i] == PreprocessForPrediction(cats, rows2, parse)[j]
  {
  }

  // ---------------------------------------------------------------------
  // Worked examples

  /** "I rate it 4 out of 5" sets Q1_4 and nothing else. */
  lemma ScaleAnswerExample()
    ensures var fs := ScaleBlock("Q1", Some("I rate it 4 out of 5"));
            |fs| == 6 && fs[4].name == "Q1_4" && fs[4].value == 1.0 && HotCount(fs) == 1
  {
    ScaleAnswerNumber();
    ScaleLevelFour();
  }

  lemma ScaleAnswerNumber()
    ensures FirstNumber("I rate it 4 out of 5") == 4
  {
    assert "I rate it 4 out of 5" == "I rate it " + "4" + " out of 5";
    assert DecimalValue("4") == 4;
    FirstNumberOfConcat("I rate it ", "4", " out of 5");
  }

  lemma ScaleLevelFour()
    ensures var fs := OneHot("Q1", ScaleLevels, 4);
            |fs| == 6 && fs[4].name == "Q1_4" && fs[4].value == 1.0 && HotCount(fs) == 1
  {
    ScaleLevelsHot("Q1", 4);
    assert NatToString(4) == "4";
  }

  /** "Partner, Friends" sets the Partner and Friends flags only. */
  lemma CompanionAnswerExample()
    ensures Values(CompanionBlock(Some("Partner, Friends"))) == [1.0, 1.0, 0.0, 0.0]
  {
    var s := "Partner, Friends";
    var fs := CompanionBlock(Some(s));
    assert OccursAt(s, "Partner", 0);
    assert OccursAt(s, "Friends", 9);
    FirstCharAbsent(s, "Siblings");
    FirstCharAbsent(s, "Co-worker");
  }

  lemma FirstCharAbsent(s: string, pat: string)
    requires |pat| > 0 && pat[0] !in s
    ensures !exists i :: OccursAt(s, pat, i)
  {
  }

  /** "1. Dubai 2. Paris": rank 1 is at position 1, rank 2 at position 2
      and rank 3 is absent. */
  lemma RankAnswerExample()
    ensures var l := NumberListClean("1. Dubai 2. Paris");
            l == [1, 2, -1, -1, -1, -1]
            && AreaAtRank(l, 1) == 1 && AreaAtRank(l, 2) == 2 && AreaAtRank(l, 3) == -1
  {
    RankAnswerNumbers();
    RankAnswerPositions();
  }

  lemma RankAnswerSplit()
    ensures IsRunSplit("1. Dubai 2. Paris", ["", ". Dubai ", ". Paris"], ["1", "2"])
  {
    var gaps: seq<string> := ["", ". Dubai ", ". Paris"];
    assert NoDigits(gaps[0]) && NoDigits(gaps[1]) && NoDigits(gaps[2]);
    RankAnswerInterleave();
  }

  lemma RankAnswerInterleave()
    ensures Interleave(["", ". Dubai ", ". Paris"], ["1", "2"]) == "1. Dubai 2. Paris"
  {
    var gaps: seq<string> := ["", ". Dubai ", ". Paris"];
    var runs: seq<string> := ["1", "2"];
    assert Interleave(gaps[2..], runs[2..]) == ". Paris";
    assert Interleave(gaps[1..], runs[1..]) == ". Dubai " + "2" + ". Paris";
  }

  lemma RankAnswerNumbers()
    ensures NumberListClean("1. Dubai 2. Paris") == [1, 2, -1, -1, -1, -1]
  {
    RankAnswerList();
  }

  lemma RankAnswerList()
    ensures NumberList("1. Dubai 2. Paris") == [1, 2]
  {
    var runs: seq<string> := ["1", "2"];
    assert DecimalValue(runs[0]) == 1 && DecimalValue(runs[1]) == 2;
    RankAnswerSplit();
    NumberListIs("1. Dubai 2. Paris", ["", ". Dubai ", ". Paris"], runs, [1, 2]);
  }

  lemma RankAnswerPositions()
    ensures var l: seq<int> := [1, 2, -1, -1, -1, -1];
            AreaAtRank(l, 1) == 1 && AreaAtRank(l, 2) == 2 && AreaAtRank(l, 3) == -1
  {
    var l: seq<int> := [1, 2, -1, -1, -1, -1];
    assert l[0] == 1 && l[1] == 2 && l[..1] == [1];
    assert 3 !in l;
  }

  // ---------------------------------------------------------------------
  // Generic sequence facts

  lemma NamesConcat(a: seq<Feature>, b: seq<Feature>)
    ensures Names(a + b) == Names(a) + Names(b)
  {
  }

  lemma PrefixOfConcat<T>(a: seq<T>, b: seq<T>)
    ensures (a + b)[..|a|] == a
  {
  }

  lemma SliceOfPrefix<T>(s: seq<T>, n: nat, i: nat, j: nat)
    requires i <= j <= n <= |s|
    ensures s[..n][i..j] == s[i..j]
  {
  }

  lemma PiecesOfFour<T>(a: seq<T>, b: seq<T>, c: seq<T>, d: seq<T>)
    ensures var s := a + b + c + d;
            && (a + b + c + d)[..|a|] == a
            && s[|a|..|a| + |b|] == b
            && s[|a| + |b|..|a| + |b| + |c|] == c
  {
  }

  lemma SliceOfRight<T>(a: seq<T>, b: seq<T>, i: nat, n: nat)
    requires i + n <= |b|
    ensures (a + b)[|a| + i..|a| + i + n] == b[i..i + n]
  {
  }
}
