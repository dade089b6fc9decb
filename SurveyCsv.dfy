/**
 * Loading the rating table: from a previously saved CSV file, which is
 * checked before use, or fresh, one row per loaded model.
 */
module SurveyCsv {
  import opened Wrappers
  import opened EloMath
  import opened Ratings

  /** The columns a rating-table CSV must have, in this order. */
  const DfColumnNames: seq<string> := ["ModelName", "Elo", "GamesPlayed", "TimeLastPlayed"]

  /** One CSV row as read: an empty cell (NaN, NaT) is None. Cells of other columns are not kept. */
  datatype CsvRow = CsvRow(name: Option<string>, elo: Option<real>, games: Option<int>, lastPlayed: Option<int>)

  /** The header and the rows of a CSV file. */
  datatype Csv = Csv(columns: seq<string>, rows: seq<CsvRow>)

  /** Why a CSV file is refused. */
  datatype LoadError =
    | EmptyCsv                           // no rows or no columns
    | MissingColumns(columns: seq<string>)  // required columns absent, in the required order
    | ModelNamesMismatch                 // the CSV's set of model names is not the loaded one
    | MissingValues(columns: seq<string>)   // Elo or GamesPlayed has an empty cell
    | DuplicateModelNames                // a model has more than one row

  /** A data frame with no rows or no columns is empty. */
  predicate Empty(csv: Csv)
  {
    csv.rows == [] || csv.columns == []
  }

  predicate HasAllColumns(csv: Csv)
  {
    forall c :: c in DfColumnNames ==> c in csv.columns
  }

  /**
   * The set of ModelName values is the set of loaded models. An empty name
   * cell reads as NaN, which matches no model.
   */
  predicate NamesMatch(csv: Csv, models: seq<string>)
  {
    && (forall i :: 0 <= i < |csv.rows| ==> csv.rows[i].name.Some? && csv.rows[i].name.value in models)
    && (forall m :: m in models ==> exists i :: 0 <= i < |csv.rows| && csv.rows[i].name == Some(m))
  }

  predicate EloNull(csv: Csv)
  {
    exists i :: 0 <= i < |csv.rows| && csv.rows[i].elo.None?
  }

  predicate GamesNull(csv: Csv)
  {
    exists i :: 0 <= i < |csv.rows| && csv.rows[i].games.None?
  }

  /** Everything the loader checks before it takes a CSV file. TimeLastPlayed may be empty anywhere. */
  predicate Acceptable(csv: Csv, models: seq<string>)
  {
    !Empty(csv) && HasAllColumns(csv) && NamesMatch(csv, models) && !EloNull(csv) && !GamesNull(csv)
  }

  predicate Complete(rows: seq<CsvRow>)
  {
    forall i :: 0 <= i < |rows| ==> rows[i].name.Some? && rows[i].elo.Some? && rows[i].games.Some?
  }

  /** The rating table a checked CSV file holds, row for row. */
  function Decode(rows: seq<CsvRow>): (t: RatingTable)
    requires Complete(rows)
    ensures |t| == |rows|
    ensures forall i :: 0 <= i < |rows| ==>
      t[i] == Candidate(rows[i].name.value, rows[i].elo.value, rows[i].games.value, rows[i].lastPlayed)
  {
    if rows == [] then []
    else
      [Candidate(rows[0].name.value, rows[0].elo.value, rows[0].games.value, rows[0].lastPlayed)]
        + Decode(rows[1..])
  }

  /** The required columns the header lacks, in the required order. */
  method FindMissingColumns(columns: seq<string>) returns (missing: seq<string>)
    ensures forall c :: c in missing <==> c in DfColumnNames && c !in columns
    ensures forall i, j :: 0 <= i < j < |missing| ==> missing[i] != missing[j]
  {
    missing := [];
    for k := 0 to |DfColumnNames|
      invariant forall c :: c in missing <==> c in DfColumnNames[..k] && c !in columns
      invariant forall i, j :: 0 <= i < j < |missing| ==> missing[i] != missing[j]
    {
      var col := DfColumnNames[k];
      assert DfColumnNames[..k + 1] == DfColumnNames[..k] + [col];
      if col !in columns {
        missing := missing + [col];
      }
    }
    assert DfColumnNames[..|DfColumnNames|] == DfColumnNames;
  }

  /**
   * The columns Elo and GamesPlayed (the second and third required ones)
   * that have an empty cell. Empty cells elsewhere are not looked at.
   */
  method FindNullColumns(csv: Csv) returns (nanColNames: seq<string>)
    ensures "Elo" in nanColNames <==> EloNull(csv)
    ensures "GamesPlayed" in nanColNames <==> GamesNull(csv)
    ensures forall c :: c in nanColNames ==> c == "Elo" || c == "GamesPlayed"
    ensures |nanColNames| <= 2
  {
    nanColNames := [];
    for i := 1 to |DfColumnNames| - 1
      invariant "Elo" in nanColNames <==> 1 < i && EloNull(csv)
      invariant "GamesPlayed" in nanColNames <==> 2 < i && GamesNull(csv)
      invariant forall c :: c in nanColNames ==> c == "Elo" || c == "GamesPlayed"
      invariant |nanColNames| <= i - 1
    {
      var column := DfColumnNames[i];
      var hasNull := if column == "Elo" then EloNull(csv) else GamesNull(csv);
      if hasNull {
        nanColNames := nanColNames + [column];
      }
    }
  }

  /** Whether the ModelName column, read as a set, is exactly the loaded models. */
  method NamesMatchAt(csv: Csv, models: seq<string>) returns (b: bool)
    ensures b <==> NamesMatch(csv, models)
  {
    var csvNames: set<Option<string>> := set i | 0 <= i < |csv.rows| :: csv.rows[i].name;
    var modelNames: set<Option<string>> := set m | m in models :: Some(m);
    b := csvNames == modelNames;
    if NamesMatch(csv, models) {
      forall x | x in csvNames ensures x in modelNames {
        var i :| 0 <= i < |csv.rows| && csv.rows[i].name == x;
        assert Some(csv.rows[i].name.value) == x;
      }
      forall x | x in modelNames ensures x in csvNames {
        var m :| m in models && x == Some(m);
        var i :| 0 <= i < |csv.rows| && csv.rows[i].name == Some(m);
      }
    }
    if b {
      forall i | 0 <= i < |csv.rows| ensures csv.rows[i].name.Some? && csv.rows[i].name.value in models {
        assert csv.rows[i].name in modelNames;
      }
      forall m | m in models ensures exists i :: 0 <= i < |csv.rows| && csv.rows[i].name == Some(m) {
        assert Some(m) in csvNames;
      }
    }
  }

  /**
   * The CSV checks in the order the loader makes them: an empty file, missing
   * columns (all of them listed), model names that differ from the loaded
   * ones, then empty cells in Elo or GamesPlayed (both listed). A file that
   * passes becomes the rating table row for row.
   */
  method ValidateCsvAsWritten(csv: Csv, models: seq<string>) returns (r: Result<RatingTable, LoadError>)
    ensures Empty(csv) ==> r == Failure(EmptyCsv)
    ensures !Empty(csv) && !HasAllColumns(csv) ==>
      r.Failure? && r.error.MissingColumns?
      && forall c :: c in r.error.columns <==> c in DfColumnNames && c !in csv.columns
    ensures !Empty(csv) && HasAllColumns(csv) && !NamesMatch(csv, models) ==> r == Failure(ModelNamesMismatch)
    ensures !Empty(csv) && HasAllColumns(csv) && NamesMatch(csv, models) && (EloNull(csv) || GamesNull(csv)) ==>
      r.Failure? && r.error.MissingValues?
      && ("Elo" in r.error.columns <==> EloNull(csv))
      && ("GamesPlayed" in r.error.columns <==> GamesNull(csv))
    ensures r.Success? <==> Acceptable(csv, models)
    ensures r.Success? ==> Complete(csv.rows) && r.value == Decode(csv.rows)
  {
    if Empty(csv) {
      return Failure(EmptyCsv);
    }
    var missingCols := FindMissingColumns(csv.columns);
    if missingCols != [] {
      assert missingCols[0] in missingCols;
      return Failure(MissingColumns(missingCols));
    }
    assert HasAllColumns(csv);
    var namesMatch := NamesMatchAt(csv, models);
    if !namesMatch {
      return Failure(ModelNamesMismatch);
    }
    var nanColNames := FindNullColumns(csv);
    if nanColNames != [] {
      assert nanColNames[0] in nanColNames;
      return Failure(MissingValues(nanColNames));
    }
    assert Complete(csv.rows);
    return Success(Decode(csv.rows));
  }

  /**
   * The loader's checks with one more: a model may have only one row. Every
   * lookup takes a model's first row, so a second row would never be updated.
   */
  method ValidateCsv(csv: Csv, models: seq<string>) returns (r: Result<RatingTable, LoadError>)
    ensures r.Success? <==> Acceptable(csv, models) && UniqueNames(Decode(csv.rows))
    ensures r.Success? ==> r.value == Decode(csv.rows)
    ensures r.Success? ==> UniqueNames(r.value) && forall m :: Has(r.value, m) <==> m in models
    ensures r.Failure? && Acceptable(csv, models) ==> r == Failure(DuplicateModelNames)
  {
    r := ValidateCsvAsWritten(csv, models);
    if r.Success? {
      if !UniqueNames(r.value) {
        return Failure(DuplicateModelNames);
      }
      DecodeHasModels(csv, models);
    }
  }

  /** A checked CSV file holds exactly the loaded models. */
  lemma DecodeHasModels(csv: Csv, models: seq<string>)
    requires Acceptable(csv, models)
    ensures Complete(csv.rows)
    ensures forall m :: Has(Decode(csv.rows), m) <==> m in models
  {
    var t := Decode(csv.rows);
    forall m | m in models ensures Has(t, m) {
      var i :| 0 <= i < |csv.rows| && csv.rows[i].name == Some(m);
      assert t[i].name == m;
    }
  }

  /** Two rows for model A pass every check of the loader. */
  lemma DuplicateModelNamesAccepted()
    ensures var csv := Csv(DfColumnNames, [CsvRow(Some("A"), Some(1000.0), Some(0), None),
                                            CsvRow(Some("A"), Some(1016.0), Some(1), Some(7)),
                                            CsvRow(Some("B"), Some(984.0), Some(1), Some(7))]);
      Acceptable(csv, ["A", "B"]) && !UniqueNames(Decode(csv.rows))
  {
    var csv := Csv(DfColumnNames, [CsvRow(Some("A"), Some(1000.0), Some(0), None),
                                    CsvRow(Some("A"), Some(1016.0), Some(1), Some(7)),
                                    CsvRow(Some("B"), Some(984.0), Some(1), Some(7))]);
    assert csv.rows[0].name == Some("A") && csv.rows[2].name == Some("B");
    var t := Decode(csv.rows);
    assert t[0].name == t[1].name;
  }

  /** The fresh table: every model at the default rating, with no games, never played. */
  function DefaultTable(models: seq<string>): (t: RatingTable)
    ensures |t| == |models|
    ensures forall i :: 0 <= i < |models| ==> t[i] == Candidate(models[i], DefaultElo, 0, None)
  {
    if models == [] then []
    else [Candidate(models[0], DefaultElo, 0, None)] + DefaultTable(models[1..])
  }

  /** For distinct models the fresh table has one row per model and no other row. */
  lemma DefaultTableHoldsModels(models: seq<string>)
    requires forall i, j :: 0 <= i < j < |models| ==> models[i] != models[j]
    ensures UniqueNames(DefaultTable(models))
    ensures forall m :: Has(DefaultTable(models), m) <==> m in models
  {
    var t := DefaultTable(models);
    forall m | m in models ensures Has(t, m) {
      var i :| 0 <= i < |models| && models[i] == m;
      assert t[i].name == m;
    }
  }

  /**
   * The rating table at the start of a survey: from the CSV file when there
   * is one (after the loader's checks, duplicates included), fresh otherwise.
   */
  method LoadSurveyTable(csv: Option<Csv>, models: seq<string>) returns (r: Result<RatingTable, LoadError>)
    requires forall i, j :: 0 <= i < j < |models| ==> models[i] != models[j]
    ensures csv.None? ==> r == Success(DefaultTable(models))
    ensures csv.Some? ==> (r.Success? <==> Acceptable(csv.value, models) && UniqueNames(Decode(csv.value.rows)))
    ensures csv.Some? && r.Success? ==> r.value == Decode(csv.value.rows)
    ensures r.Success? ==> UniqueNames(r.value) && forall m :: Has(r.value, m) <==> m in models
  {
    if csv.None? {
      DefaultTableHoldsModels(models);
      return Success(DefaultTable(models));
    }
    r := ValidateCsv(csv.value, models);
  }
}
