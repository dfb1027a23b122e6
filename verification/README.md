# Survey encoding and city decoding, in Dafny

This project models the part of City-Classification-MLP that turns free-form
questionnaire answers into a fixed-width numeric feature row. It also models
how the class index the network produces becomes a city name.

- **Parsers** (`parsers.dfy`) covers the scalar helpers of `model/utils.py`:
  - `get_number_list`: the maximal digit runs of `str(cell)`, read as integers.
  - `get_number_list_clean`: that list padded with -1 up to six entries.
  - `get_number`: the first number, or -1.
  - `find_area_at_rank`: a 1-based position, or -1.
  - `cat_in_s`: a substring flag, 0 for a missing cell.
  - `to_numeric`: its comma stripping.
- **Labels** (`labels.dfy`) covers `lab_to_num` and the index-to-city
  mapping of `predict_all`.
- **Encoding** (`encoding.dfy`) covers the two `preprocess_data_*` functions,
  applied to one row and to a table of rows:
  - Q1-Q4 are one-hot encoded over -1, 1..5.
  - Q5 becomes four companion flags.
  - Q6 becomes six rank positions, each one-hot encoded over -1, 1..6.
  - Q7-Q9 are coerced numbers, with 0 for a missing value.
  - Columns are named as pandas `get_dummies` names them (`Q1_-1`,
    `Q6_rank_3_6`).
  - The training variant adds a final `Label` column holding the label code.
- **Prediction** (`prediction.dfy`) covers `predict_all`:
  - It encodes the rows with the fixed selection Q1-Q4, Q7, Q5, Q6.
  - It scores each row with the network, which is a parameter here.
  - It takes the argmax and turns it back into a city name.
  - The first row that raises aborts the whole call.

A cell is an `Option<string>`, where `None` is pandas NaN. A feature is a
column name with a `real` value.

Some facts follow from the model about the code as written:
- The default selection (all nine questions) gives 73 columns (`DefaultWidth`).
  The network is built for 71, which is exactly what the selection that
  `predict_all` passes produces (`PredictionWidth`).
- `get_number_list_clean` never truncates. So a Q6 answer with more than six
  numbers can put a rank at position 7 or later, and that rank's block is then
  all zeros (`LongRankListDropsRank`).
- The docstring of `find_area_at_rank(l, i)` first speaks of "the area at a
  certain rank", but then treats `i` as an area ("if area is not present in
  `l`, return -1"), so it contradicts itself. The code returns the 1-based
  position at which the value `i` occurs in `l`, and the model follows the
  code.

## Model

| member | source | states |
|---|---|---|
| Parsers.NumberList | model/utils.py:22-26 | the number list is empty exactly when the text holds no digit |
| Parsers.Split | model/utils.py:26 | the text is cut into digit-free gaps and non-empty digit runs, with a non-empty gap between consecutive runs, and the pieces put back in order give the text |
| Parsers.SplitUnique | model/utils.py:26 | every such gap/run decomposition of a text is the one `Split` computes, so the digit runs are determined by the text alone |
| Parsers.NumberListOfSplit | model/utils.py:26 | `get_number_list` returns one integer per digit run of any decomposition, each the decimal value of its run, in order |
| Parsers.NatToString | model/utils.py:88 | the decimal text of a level used in a column name is non-empty, all digits, and reads back as the level |
| Parsers.NumberListClean | model/utils.py:28-38 | the padded list has length max(6, n), begins with the number list and holds -1 in every added slot |
| Parsers.FirstNumber | model/utils.py:40-47 | the result is -1 exactly when the text holds no digit; otherwise it is the value of the first digit run |
| Parsers.FirstNumberOfConcat | model/utils.py:40-47 | for a digit-free lead followed by a digit run and then a non-digit, the first number is that run's value |
| Parsers.IndexOf | model/utils.py:57 | `list.index`: None exactly when the value is absent; otherwise the index of its first occurrence |
| Parsers.AreaAtRank | model/utils.py:49-57 | -1 exactly when the value is absent; otherwise a 1-based position holding the value, with no earlier occurrence |
| Parsers.PaddingInvisible | model/utils.py:37 | the -1 padding never changes the position found for any value other than -1 |
| Parsers.Contains | model/utils.py:63 | Python `pat in s`: true exactly when the pattern occurs at some index of the text |
| Parsers.CatInS | model/utils.py:59-63 | the flag is 0 or 1, and it is 1 exactly when the cell is present and the token occurs in it |
| Parsers.StripCommas | model/utils.py:17-18 | the stripped text holds no comma, and it is shorter than the input by exactly the number of commas the input holds |
| Parsers.CommaCountIsMultiplicity | model/utils.py:18 | the comma count in the contract of `StripCommas` is the number of occurrences of ',' in the text |
| Parsers.StripCommasIdempotent | model/utils.py:18 | stripping twice is stripping once |
| Parsers.StripCommasNoCommas | model/utils.py:18 | text without commas is left unchanged |
| Parsers.StripCommasConcat | model/utils.py:18 | stripping distributes over concatenation, so only commas are removed and the other characters keep their order |
| Parsers.ToNumeric | model/utils.py:10-20 | a missing cell converts to NaN; a text without commas is handed to the numeric coercion unchanged |
| Parsers.CommaInsensitive | model/utils.py:17-20 | the value read from a text equals the value read from the same text with its commas removed |
| Labels.LabToNum | model/utils.py:65-73 | the code lies in 0..3; it is below 3 exactly for Dubai, Rio de Janeiro and New York City, and names that city's position; every other label gets 3 |
| Labels.LabelCode | model/utils.py:81 | a label cell gets a code in 0..3; the code is 0, 1 or 2 exactly when the cell holds Dubai, Rio de Janeiro or New York City respectively; a missing label gets 3 |
| Labels.CityOfClass | model/pred.py:40-47 | the printed city is one of the four cities; index k in 0..3 gives the k-th city, and any other index gives Paris |
| Labels.DecodeEncode | model/pred.py:40-47 | the city printed for the code of any of the four city names is that name |
| Labels.EncodeDecode | model/pred.py:40-47 | the code of the city printed for a class in 0..3 is that class |
| Labels.UnknownLabelIsParis | model/utils.py:72-73 | any label other than the four cities reads back as Paris |
| Encoding.CellText | model/utils.py:26 | `str(cell)`: a present cell is its own text, and a missing cell prints as a text with no digit |
| Encoding.OneHot | model/utils.py:87-88 | a categorical column with fixed levels gives one 0/1 column per level, and a column holds 1 exactly when its level equals the value |
| Encoding.OneHotCount | model/utils.py:87-88 | over distinct levels, the dummies hold exactly one 1 when the value is a level and none otherwise |
| Encoding.IndicatorCount | model/utils.py:87-88 | the same count, for the values alone |
| Encoding.ScaleBlock | model/utils.py:86-88 | a Q1-Q4 answer gives six 0/1 columns; the `-1` column is set exactly when the answer holds no digit, and column j (1..5) exactly when its first number is j |
| Encoding.ScaleLevelsHot | model/utils.py:84-88 | a Q1-Q4 value hits exactly one of the six columns when it is -1 or in 1..5, and none otherwise |
| Encoding.ScaleBlockShape | model/utils.py:84-88 | a Q1-Q4 answer gives six columns; they are all 0 when the first number is 0 or above 5, and exactly one is 1 otherwise |
| Encoding.MissingScaleAnswer | model/utils.py:86-87 | a missing Q1-Q4 answer sets the `-1` column |
| Encoding.CompanionBlock | model/utils.py:93-98 | Q5 gives the columns Q5_Partner, Q5_Friends, Q5_Siblings and Q5_Co-worker, all 0/1; each is 1 exactly when the answer is present and contains the token |
| Encoding.RankBlocks | model/utils.py:103-115 | a Q6 answer gives 42 columns; `RankBlockShape` states what each rank block holds |
| Encoding.RankBlocksFrom | model/utils.py:101-115 | ranks r..6 give 7 columns each |
| Encoding.BlocksLength | model/utils.py:105-115 | blocks that are seven wide, one per rank r..6, are 7 * (7 - r) columns in total |
| Encoding.BlockAt | model/utils.py:105-115 | the block of a rank sits at offset 7 * (rank - first rank) of the concatenated rank blocks |
| Encoding.RankBlocksNames | model/utils.py:105-113 | the Q6 columns are `Q6_rank_i_level` for i = 1..6, in rank order and then level order |
| Encoding.RankBlockAt | model/utils.py:105-115 | the seven columns of rank i sit at offset 7 * (i - 1) and one-hot encode the position of i in the padded list |
| Encoding.RankBlockShape | model/utils.py:101-115 | a Q6 answer gives 42 columns; the block of each rank holds its position in the padded list, is all 0 exactly when that position is beyond 6, and otherwise has one 1 |
| Encoding.RankListBlock | model/utils.py:103-115 | the same, for any number list |
| Encoding.RankLevelsHot | model/utils.py:111-112 | a position hits exactly one of the seven rank columns when it is -1 or in 1..6, and none otherwise |
| Encoding.LongRankListDropsRank | model/utils.py:101-115 | the seven-number answer 2,3,4,5,6,7,1 puts rank 1 at position 7, which leaves its block all zeros |
| Encoding.NumericValue | model/utils.py:120 | a missing answer, or one the numeric coercion cannot read, becomes 0; a readable answer keeps the value the coercion reads from it after comma removal |
| Encoding.NumericSection | model/utils.py:117-121 | the numeric columns are the selected Q7-Q9 names, in question order |
| Encoding.NumericSectionValues | model/utils.py:117-121 | every numeric feature is named after a selected question and holds that question's coerced answer |
| Encoding.ScaleSectionNames | model/utils.py:84-89 | the scale columns are the level columns of the selected Q1-Q4, in question order |
| Encoding.SectionAt | model/utils.py:84-91 | when every key is selected and every block is six wide, key k's block sits at offset 6 * k |
| Encoding.ScaleSectionAt | model/utils.py:84-91 | with Q1-Q4 all selected, columns 6k..6k+5 of the scale section are the one-hot block of question k+1's answer |
| Encoding.Columns | model/utils.py:84-121 | no contract of its own: the column list of a selection; `ColumnCount` gives its width and `EncodedColumns` states that every encoded row carries it |
| Encoding.EncodeForPrediction | model/utils.py:125-170 | no contract of its own: one encoded row; its names are stated by `EncodedColumns` and its layout by `EncodedScalePrefix`, `EncodedScaleBlock`, `EncodedCompanionBlock`, `EncodedRankBlocks` and `EncodedNumericAnswers` |
| Encoding.EncodedColumns | model/utils.py:125-170 | whatever the answers, an encoded row carries the columns of the selection: selected scale columns, Q5, Q6, then selected numeric columns |
| Encoding.EncodedScalePrefix | model/utils.py:131-138 | an encoded row opens with its scale section |
| Encoding.EncodedScaleBlock | model/utils.py:131-138 | with Q1-Q4 all selected, columns 6k..6k+5 of an encoded row are the one-hot block of question k+1's answer |
| Encoding.EncodedCompanionBlock | model/utils.py:140-146 | with Q5 selected, the four companion flags of the answer directly follow the scale section of the row |
| Encoding.EncodedRankBlocks | model/utils.py:148-162 | with Q6 selected, the 42 rank columns of the answer directly follow the scale section and the Q5 flags, if any |
| Encoding.EncodedNumericAnswers | model/utils.py:164-170 | the last n features of an encoded row (n = number of selected Q7-Q9) hold the coerced answers of those questions |
| Encoding.EncodeForTraining | model/utils.py:75-123 | a training row has the selection's columns plus `Label`; its features before the last are the prediction encoding of the answers, and its last value is the label code |
| Encoding.PreprocessForPrediction | model/utils.py:125-170 | the table has one row per input row |
| Encoding.PreprocessForTraining | model/utils.py:75-123 | the table has one row per input row, and every row carries the selection's columns plus `Label` |
| Encoding.PredictionTableColumns | model/utils.py:125-170 | every row of the prediction table carries the columns of the selection |
| Encoding.TrainingTableExtendsPrediction | model/utils.py:75-123 | row by row, the training table is the prediction table of the answers with the label code appended |
| Encoding.RowIndependent | model/utils.py:125-170 | an encoded row depends on its own answers only, never on the other rows of the table |
| Encoding.ColumnCount | model/utils.py:84-121 | width = 6 per selected scale question + 4 for Q5 + 42 for Q6 + 1 per selected numeric question |
| Encoding.SelectionOrderIrrelevant | model/utils.py:125-170 | two selections holding the same questions give the same encoded row and the same columns |
| Encoding.ScaleAnswerExample | model/utils.py:84-88 | "I rate it 4 out of 5" sets Q1_4 and no other column |
| Encoding.CompanionAnswerExample | model/utils.py:140-146 | "Partner, Friends" gives the flags 1, 1, 0, 0 |
| Encoding.RankAnswerExample | model/utils.py:28-57 | "1. Dubai 2. Paris" gives the list 1, 2, -1, -1, -1, -1, with rank 1 at position 1, rank 2 at position 2 and rank 3 absent |
| Prediction.ArgMax | model/pred.py:37 | `np.argmax`: the position of a maximal score, where every earlier score is strictly smaller |
| Prediction.ArgMaxUnique | model/pred.py:37 | any position holding the first maximal score is the argmax |
| Prediction.UnitRowHotIndex | model/pred.py:37-40 | the position of the 1 in row k of the identity matrix is k |
| Prediction.DecodeScores | model/pred.py:36-47 | decoding fails exactly when the scores are empty or the argmax is 4 or more; on success it yields a city, whose code is the position of the first maximal score |
| Prediction.Classify | model/pred.py:36-47 | one row's prediction fails exactly when its scores are empty or their argmax is 4 or more; a successful prediction is a city whose code is the argmax of the row's scores |
| Prediction.DecodeTrainingTarget | model/pred.py:37-47 | the one-hot score vector of a city's label code decodes to that city |
| Prediction.DecodeAll | model/pred.py:33-49 | the loop succeeds exactly when every row decodes, with one city per row in row order; on failure, the error is that of the first row that fails |
| Prediction.PredictAll | model/pred.py:24-51 | the same, over the rows encoded with the selection Q1-Q4, Q7, Q5, Q6 |
| Prediction.PredictionWidth | model/pred.py:18-31 | the selection `predict_all` passes produces exactly 71 columns, the network's input width |
| Prediction.PredictionRowsWidth | model/pred.py:18-36 | every encoded row handed to the network has 71 features, whatever the answers |
| Prediction.DefaultWidth | model/utils.py:125 | the default selection of all nine questions produces 73 columns |
| Prediction.PredictionSelectionInOrder | model/pred.py:31 | listing Q7 before Q5 and Q6 in the selection does not move its column |

## Left out

- Reading the CSV file (`pd.read_csv`) and the DataFrame mechanics of concat, drop and column selection are not modelled. Rows are given as values, and a table is a sequence of encoded rows.
- The numeric coercion `pd.to_numeric(..., errors="coerce")` is a parameter `parse`, with `None` for NaN. Only the comma stripping before it and the `fillna(0)` after it are modelled. Float rounding, NaN/inf arithmetic and pandas dtype inference are left out.
- Parsers.ToNumeric: an answer pandas has already read as a number (a numeric column) is treated as text handed to `parse`, because cells are modelled as text.
- `split_data` is left out. It shuffles with a random generator and slices arrays, and it is not part of the encoding.
- `predict`, the `MLPModel` network and its forward pass are left out. The network is a parameter `score`. NaN scores, which would change `np.argmax`, are not modelled.
- `\d` in `get_number_list` is taken as the ASCII digits 0-9. Python also matches other Unicode decimal digits.
- The dummies of `get_dummies` are booleans in pandas. Here they are the reals 0.0 and 1.0.
- `preprocess_data_for_training` repeats the per-question code of `preprocess_data_for_prediction` line for line. It is modelled as the prediction encoding followed by the label, so the two cannot drift apart in the model.
- Encoding.EncodeForPrediction: carries no contract of its own. The lemmas named in its row state its names and where each question's block sits. The value of each scale block is placed at row level only when all four scale questions are selected; with fewer selected, only the section as a whole is placed.
- Encoding.PreprocessForPrediction: its own contract states only the row count. The columns of every row are stated by `PredictionTableColumns`.
