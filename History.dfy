/**
 * The comparison-history table: one row per judgement, with columns
 * Comparison, Model_L, Score_L, Model_R and Score_R (0 to 4). The model
 * columns hold volume names. The table is read cell by cell as text: a cell
 * past the last row reads as "", and removing a row past the last one
 * removes nothing.
 */
module History {
  import opened Wrappers
  import opened Naming

  /** The column constants of the history table, as the logic declares them. */
  const LeftModelCol: int := 2
  const RightModelCol: int := 4

  /** A row of the history table: an empty row (every cell "") or a judgement. */
  datatype ComparisonRow =
    | Blank
    | Judgement(comparison: int, leftVolume: string, leftScore: real, rightVolume: string, rightScore: real)

  /** A row of the Elo history: the comparison count when it was written and every model's rating. */
  datatype EloHistoryRow = EloHistoryRow(comparison: int, elos: seq<real>)

  /**
   * The row written for a judgement of the pair: numbered one past the rows
   * already there, the two volume names, the left score and its complement.
   */
  function RecordFor(pair: NextPair, rowCount: nat, leftScore: real): (row: ComparisonRow)
    ensures row.Judgement? && row.comparison == rowCount + 1
    ensures row.leftScore + row.rightScore == 1.0
  {
    Judgement(rowCount + 1,
              NameFromPatientSequenceAndModel(pair.scan, pair.left), leftScore,
              NameFromPatientSequenceAndModel(pair.scan, pair.right), 1.0 - leftScore)
  }

  /** The two volume names of a written row read back as the pair judged. */
  lemma RecordForReadsBack(pair: NextPair, rowCount: nat, leftScore: real)
    requires |Split(pair.scan)| == 2 && Separator !in pair.left && Separator !in pair.right
    ensures var row := RecordFor(pair, rowCount, leftScore);
      PairFromNames(row.leftVolume, row.rightVolume) == Success(Some(pair))
  {
    PairFromNamesRoundTrip(pair);
  }

  /** Every judgement row carries its own position, counted from 1. */
  predicate Numbered(rows: seq<ComparisonRow>)
  {
    forall i :: 0 <= i < |rows| && rows[i].Judgement? ==> rows[i].comparison == i + 1
  }

  /** Appending the row written for a judgement keeps the numbering. */
  lemma RecordForKeepsNumbering(rows: seq<ComparisonRow>, pair: NextPair, leftScore: real)
    requires Numbered(rows)
    ensures Numbered(rows + [RecordFor(pair, |rows|, leftScore)])
  {
    var next := rows + [RecordFor(pair, |rows|, leftScore)];
    forall i | 0 <= i < |next| && next[i].Judgement? ensures next[i].comparison == i + 1 {
      if i < |rows| {
        assert next[i] == rows[i];
      }
    }
  }

  /** Whether cell (r, c) reads as "": past the table, in an empty row, or an empty volume name. */
  predicate CellIsEmpty(rows: seq<ComparisonRow>, r: int, c: int)
  {
    if r < 0 || r >= |rows| then true
    else
      match rows[r]
      case Blank => true
      case Judgement(_, leftVolume, _, rightVolume, _) =>
        (c == 1 && leftVolume == "") || (c == 3 && rightVolume == "") || c < 0 || c > 4
  }

  /** The text of a volume-name cell, "" past the table or in an empty row. */
  function NameCell(rows: seq<ComparisonRow>, r: int, c: int): (text: string)
    requires c == 1 || c == 3
    ensures text == "" <==> CellIsEmpty(rows, r, c)
  {
    if r < 0 || r >= |rows| then ""
    else
      match rows[r]
      case Blank => ""
      case Judgement(_, leftVolume, _, rightVolume, _) => if c == 1 then leftVolume else rightVolume
  }

  /** The volume-name cells of a row written after the table read back as the names of the pair judged. */
  lemma RecordForNameCells(rows: seq<ComparisonRow>, pair: NextPair, leftScore: real)
    ensures var written := rows + [RecordFor(pair, |rows|, leftScore)];
      && NameCell(written, |rows|, 1) == NameFromPatientSequenceAndModel(pair.scan, pair.left)
      && NameCell(written, |rows|, 3) == NameFromPatientSequenceAndModel(pair.scan, pair.right)
  {
    var written := rows + [RecordFor(pair, |rows|, leftScore)];
    assert written[|rows|] == RecordFor(pair, |rows|, leftScore);
  }

  /** Removes row r; a row index past the table removes nothing. */
  function RemoveRow(rows: seq<ComparisonRow>, r: int): (result: seq<ComparisonRow>)
    ensures 0 <= r < |rows| ==> |result| == |rows| - 1
    ensures 0 <= r < |rows| ==> forall i :: 0 <= i < r ==> result[i] == rows[i]
    ensures 0 <= r < |rows| ==> forall i :: r <= i < |result| ==> result[i] == rows[i + 1]
    ensures !(0 <= r < |rows|) ==> result == rows
  {
    if 0 <= r < |rows| then rows[..r] + rows[r + 1..] else rows
  }

  /**
   * The clean-up before saving as written: the row at index "row count",
   * which is one past the last row, is tested in the two score columns.
   */
  function TrimForSaveAsWritten(rows: seq<ComparisonRow>): (result: seq<ComparisonRow>)
    ensures result == rows
  {
    var n := |rows|;
    if CellIsEmpty(rows, n, LeftModelCol) && CellIsEmpty(rows, n, RightModelCol) then RemoveRow(rows, n)
    else rows
  }

  /** As written, the clean-up keeps a trailing empty row. */
  lemma TrimForSaveAsWrittenKeepsEmptyRow()
    ensures var rows := [Judgement(1, "p1_A_s1", 1.0, "p1_B_s1", 0.0), Blank];
      TrimForSaveAsWritten(rows) == rows && TrimForSaveAsWritten(rows)[|rows| - 1] == Blank
  {
  }

  /**
   * The clean-up before saving: a last row whose two volume-name cells are
   * empty is dropped; everything before it is kept.
   */
  function TrimForSave(rows: seq<ComparisonRow>): (result: seq<ComparisonRow>)
    ensures result <= rows && |rows| - 1 <= |result|
    ensures result != rows <==> |rows| > 0 && CellIsEmpty(rows, |rows| - 1, 1) && CellIsEmpty(rows, |rows| - 1, 3)
    ensures |rows| > 0 && rows[|rows| - 1] == Blank ==> result == rows[..|rows| - 1]
  {
    var last := |rows| - 1;
    if last >= 0 && CellIsEmpty(rows, last, LeftModelCol - 1) && CellIsEmpty(rows, last, RightModelCol - 1) then
      rows[..last]
    else rows
  }

  /** The clean-up removes the empty row that the as-written one keeps. */
  lemma TrimForSaveRemovesEmptyRow()
    ensures var rows := [Judgement(1, "p1_A_s1", 1.0, "p1_B_s1", 0.0), Blank];
      TrimForSave(rows) == rows[..1]
  {
  }

  /**
   * The pair replayed from the history table: the volume names in row
   * "row count" (one past the last row) are read and split back into a scan
   * and two models; two empty names give no pair. The row read is past the
   * table, so no pair is ever replayed.
   */
  function PairFromSurveyTable(rows: seq<ComparisonRow>): (r: Result<Option<NextPair>, PairError>)
    ensures r == Success(None)
  {
    PairFromNames(NameCell(rows, |rows|, LeftModelCol - 1), NameCell(rows, |rows|, RightModelCol - 1))
  }
}
