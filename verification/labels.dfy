/** The label codec: the four destination cities and their class codes
    0..3, read when training and written back when predicting. */
module Labels {
  import opened Wrappers

  /** The class names in code order; the spelling is part of the output
      contract. */
  const Cities: seq<string> := ["Dubai", "Rio de Janeiro", "New York City", "Paris"]

  const NumClasses: nat := 4

  /** `lab_to_num`: the code of a label. The first three cities get their
      position; every other text, "Paris" included, gets 3. */
  function LabToNum(name: string): (k: int)
    ensures 0 <= k < NumClasses
    ensures k < 3 <==> name in Cities[..3]
    ensures k < 3 ==> Cities[k] == name
  {
    assert Cities[..3] == ["Dubai", "Rio de Janeiro", "New York City"];
    if name == "Dubai" then 0
    else if name == "Rio de Janeiro" then 1
    else if name == "New York City" then 2
    else 3
  }

  /** The training target of a row: a missing label (NaN) compares unequal
      to every city and so gets code 3. */
  function LabelCode(cell: Option<string>): (k: int)
    ensures 0 <= k < NumClasses
    ensures cell.None? ==> k == 3
    ensures forall j :: 0 <= j < 3 ==> (k == j <==> cell == Some(Cities[j]))
  {
    match cell
    case None => 3
    case Some(name) => LabToNum(name)
  }

  /** The city printed for a class index: 0, 1 and 2 name their city, any
      other index names Paris. */
  function CityOfClass(k: int): (city: string)
    ensures city in Cities
    ensures 0 <= k < NumClasses ==> city == Cities[k]
    ensures !(0 <= k < 3) ==> city == "Paris"
  {
    if k == 0 then "Dubai"
    else if k == 1 then "Rio de Janeiro"
    else if k == 2 then "New York City"
    else "Paris"
  }

  /** Decoding the code of a city name gives the name back. */
  lemma DecodeEncode(name: string)
    requires name in Cities
    ensures CityOfClass(LabToNum(name)) == name
  {
  }

  /** Encoding the city of a code gives the code back. */
  lemma EncodeDecode(k: int)
    requires 0 <= k < NumClasses
    ensures LabToNum(CityOfClass(k)) == k
  {
  }

  /** Every label outside the four cities is read as Paris. */
  lemma UnknownLabelIsParis(name: string)
    requires name !in Cities
    ensures CityOfClass(LabToNum(name)) == "Paris"
  {
  }
}
