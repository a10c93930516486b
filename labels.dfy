/**
 * `build_json_labels`: the rows of `[dbo].[GetAllLabel_SEL]` are positional;
 * each becomes a record whose fields are named after the columns 0 to 19.
 */
module Labels {
  import opened Records

  /** A row of the label store's result set, columns in stored-procedure order. */
  type Row = seq<Value>

  const COLUMNS := 20

  /** The named record of one row; reading `x[19]` needs twenty columns. */
  function LabelOf(row: Row): Label
    requires |row| >= COLUMNS
  {
    Label(row[0], row[1], row[2], row[3], row[4], row[5], row[6], row[7], row[8], row[9],
          row[10], row[11], row[12], row[13], row[14], row[15], row[16], row[17], row[18], row[19])
  }

  /** The inverse direction: a record laid out in column order. */
  function RowOf(l: Label): (row: Row)
    ensures |row| == COLUMNS
  {
    [l.id, l.hashLabel, l.hashModel, l.hashProject, l.tagTitle, l.fieldType, l.minPercentage,
     l.accuracy, l.negative, l.colorTag, l.precision, l.recall, l.imageCount, l.activate,
     l.userCreated, l.userModified, l.dateCreated, l.dateModified, l.deleted, l.idCvTag]
  }

  /** Naming the columns loses nothing of the first twenty. */
  lemma RowOfLabelOf(row: Row)
    requires |row| >= COLUMNS
    ensures RowOf(LabelOf(row)) == row[..COLUMNS]
  {
  }

  /** Laying a record out and naming its columns again gives it back. */
  lemma LabelOfRowOf(l: Label)
    ensures LabelOf(RowOf(l)) == l
  {
  }

  /**
   * The records of all rows, in order, or None when some row is too short
   * (the `IndexError` that makes `get_labels` raise).
   */
  function LabelsOf(rows: seq<Row>): (r: Option<seq<Label>>)
    ensures r.Some? <==> forall i :: 0 <= i < |rows| ==> |rows[i]| >= COLUMNS
    ensures r.Some? ==> |r.value| == |rows|
    ensures r.Some? ==> forall i :: 0 <= i < |rows| ==> RowOf(r.value[i]) == rows[i][..COLUMNS]
  {
    if forall i :: 0 <= i < |rows| ==> |rows[i]| >= COLUMNS then
      var ls := seq(|rows|, i requires 0 <= i < |rows| && |rows[i]| >= COLUMNS => LabelOf(rows[i]));
      assert forall i :: 0 <= i < |rows| ==> RowOf(ls[i]) == rows[i][..COLUMNS] by {
        forall i | 0 <= i < |rows| ensures RowOf(ls[i]) == rows[i][..COLUMNS] {
          RowOfLabelOf(rows[i]);
        }
      }
      Some(ls)
    else
      None
  }

  /** The loop of `build_json_labels`: one record appended per row. */
  method BuildJsonLabels(data: seq<Row>) returns (cont: Option<seq<Label>>)
    ensures cont == LabelsOf(data)
  {
    var acc: seq<Label> := [];
    var k := 0;
    while k < |data|
      invariant 0 <= k <= |data|
      invariant forall i :: 0 <= i < k ==> |data[i]| >= COLUMNS
      invariant |acc| == k && forall i :: 0 <= i < k ==> acc[i] == LabelOf(data[i])
    {
      if |data[k]| < COLUMNS {
        return None;
      }
      acc := acc + [LabelOf(data[k])];
      k := k + 1;
    }
    assert LabelsOf(data).Some? && forall i :: 0 <= i < k ==> LabelsOf(data).value[i] == acc[i];
    assert LabelsOf(data).value == acc;
    cont := Some(acc);
  }
}
