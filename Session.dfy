/**
 * The state of a survey session and the logic operations that change it:
 * the loaded models and their scan usage, the rating table, the pair on
 * display, the comparison history and the Elo history.
 */
module Session {
  import opened Wrappers
  import opened EloMath
  import opened Naming
  import opened Volumes
  import opened Ratings
  import opened SurveyCsv
  import History
  import opened Matchmaking

  // The methods below follow the steps updateComparisonData takes on its
  // copies of the data frame and the usage map, one write at a time. Each is
  // proved to compute the Ratings or Volumes function that specifies it; the
  // properties of a judgement are proved once, about those functions.

  /** The two Elo cells rewritten: both ratings updated from the expected scores. */
  method RerateCopy(pow10: ExpFn, t: RatingTable, left: string, right: string, leftScore: real)
    returns (surveyDF: RatingTable)
    requires Has(t, left) && Has(t, right)
    ensures surveyDF == Rerate(pow10, t, left, right, leftScore)
  {
    surveyDF := t;
    var leftElo, rightElo := EloOf(surveyDF, left), EloOf(surveyDF, right);
    var expected := ExpectedScores(pow10, leftElo, rightElo);
    var leftNewElo := NewElo(leftElo, leftScore, expected.0);
    var rightNewElo := NewElo(rightElo, 1.0 - leftScore, expected.1);
    var leftModelIdx, rightModelIdx := IndexOf(surveyDF, left), IndexOf(surveyDF, right);
    surveyDF := surveyDF[leftModelIdx := surveyDF[leftModelIdx].(elo := leftNewElo)];
    surveyDF := surveyDF[rightModelIdx := surveyDF[rightModelIdx].(elo := rightNewElo)];
  }

  /**
   * One pass of the counting loop: the model's game count and timestamp are
   * set, then its usage counter of the scan rises; None is the KeyError of a
   * scan the model does not have.
   */
  method CountGame(surveyDF: RatingTable, scansAndModelsDict: Usage, model: string, scan: string, time: int)
    returns (r: Option<(RatingTable, Usage)>)
    requires Has(surveyDF, model) && model in scansAndModelsDict
    ensures r.Some? <==> scan in scansAndModelsDict[model]
    ensures r.Some? ==> r.value == (MarkPlayed(surveyDF, model, time), Bump(scansAndModelsDict, model, scan))
  {
    var modelIdx := IndexOf(surveyDF, model);
    var updated := surveyDF[modelIdx := surveyDF[modelIdx].(games := surveyDF[modelIdx].games + 1,
                                                            lastPlayed := Some(time))];
    if scan !in scansAndModelsDict[model] {
      return None;
    }
    var counts := scansAndModelsDict[model];
    r := Some((updated, scansAndModelsDict[model := counts[scan := counts[scan] + 1]]));
  }

  /**
   * The judgement on a pair worked out on copies of the rating table and the
   * usage map, as the logic does before writing both back: the two ratings
   * are updated, then for the left and then the right model the game count
   * and the timestamp are set and the scan's usage counter rises. None is
   * the KeyError raised when the scan is not a scan of one of the models;
   * neither copy is then written back.
   */
  method ApplyJudgement(pow10: ExpFn, t: RatingTable, usage: Usage, pair: NextPair, leftScore: real,
                        leftTime: int, rightTime: int) returns (r: Option<(RatingTable, Usage)>)
    requires Has(t, pair.left) && Has(t, pair.right)
    requires pair.left in usage && pair.right in usage && pair.left != pair.right
    ensures r.Some? <==> pair.scan in usage[pair.left] && pair.scan in usage[pair.right]
    ensures r.Some? ==> r.value.0 == ApplyResult(pow10, t, pair.left, pair.right, leftScore, leftTime, rightTime)
    ensures r.Some? ==> r.value.1 == Bump(Bump(usage, pair.left, pair.scan), pair.right, pair.scan)
  {
    var scan, left, right := pair.scan, pair.left, pair.right;
    var surveyDF := RerateCopy(pow10, t, left, right, leftScore);
    var scansAndModelsDict := usage;
    var played, times := [left, right], [leftTime, rightTime];
    for i := 0 to 2
      invariant SameNames(surveyDF, t) && scansAndModelsDict.Keys == usage.Keys
      invariant i >= 1 ==> scan in usage[left]
      invariant i == 0 ==> (surveyDF, scansAndModelsDict) == (Rerate(pow10, t, left, right, leftScore), usage)
      invariant i == 1 ==> (surveyDF, scansAndModelsDict)
                            == (MarkPlayed(Rerate(pow10, t, left, right, leftScore), left, leftTime),
                                Bump(usage, left, scan))
      invariant i == 2 ==> scan in usage[right]
      invariant i == 2 ==> (surveyDF, scansAndModelsDict)
                            == (ApplyResult(pow10, t, left, right, leftScore, leftTime, rightTime),
                                Bump(Bump(usage, left, scan), right, scan))
    {
      assert Has(surveyDF, played[i]) by { assert Has(t, played[i]); }
      var counted := CountGame(surveyDF, scansAndModelsDict, played[i], scan, times[i]);
      if counted.None? {
        return None;
      }
      surveyDF, scansAndModelsDict := counted.value.0, counted.value.1;
    }
    r := Some((surveyDF, scansAndModelsDict));
  }

  /**
   * Every model listed once with at least one scan, one row per model in
   * the rating table, and a pair on display made of two different known
   * models.
   */
  ghost predicate Consistent(models: seq<string>, usage: Usage, table: RatingTable, nextPair: Option<NextPair>)
  {
    && WellFormed(ScanIndex(models, usage))
    && UniqueNames(table)
    && (forall m :: Has(table, m) <==> m in usage)
    && (nextPair.Some? ==>
          nextPair.value.left in usage && nextPair.value.right in usage
          && nextPair.value.left != nextPair.value.right)
  }

  /** Recording a judgement on the pair on display keeps the session consistent. */
  lemma JudgementKeepsConsistent(models: seq<string>, usage: Usage, table: RatingTable, pair: NextPair,
                                 newTable: RatingTable)
    requires Consistent(models, usage, table, Some(pair))
    requires pair.scan in usage[pair.left] && pair.scan in usage[pair.right]
    requires SameNames(newTable, table)
    ensures Consistent(models, Bump(Bump(usage, pair.left, pair.scan), pair.right, pair.scan), newTable, Some(pair))
    ensures forall m :: m in models ==> Has(newTable, m)
  {
    BumpPair(ScanIndex(models, usage), pair.left, pair.right, pair.scan);
    SameNamesSameModels(newTable, table);
  }

  /**
   * The judgement on the pair on display worked out in full before anything
   * is written back: the new rating table, the new usage map and the Elo
   * history row of every model's new rating. None when the scan is not a
   * scan of both models.
   */
  method RecordJudgement(pow10: ExpFn, models: seq<string>, usage: Usage, table: RatingTable, pair: NextPair,
                         leftScore: real, leftTime: int, rightTime: int)
    returns (r: Option<(RatingTable, Usage, seq<real>)>)
    requires Consistent(models, usage, table, Some(pair))
    ensures r.Some? <==> pair.scan in usage[pair.left] && pair.scan in usage[pair.right]
    ensures r.Some? ==>
      && r.value.0 == ApplyResult(pow10, table, pair.left, pair.right, leftScore, leftTime, rightTime)
      && r.value.1 == Bump(Bump(usage, pair.left, pair.scan), pair.right, pair.scan)
      && Consistent(models, r.value.1, r.value.0, Some(pair))
      && (forall m :: m in models ==> Has(r.value.0, m))
      && r.value.2 == Snapshot(r.value.0, models)
  {
    var updated := ApplyJudgement(pow10, table, usage, pair, leftScore, leftTime, rightTime);
    if updated.None? {
      return None;
    }
    var surveyDF, scansAndModelsDict := updated.value.0, updated.value.1;
    JudgementKeepsConsistent(models, usage, table, pair, surveyDF);
    var elos := EloColumn(surveyDF, models);
    r := Some((surveyDF, scansAndModelsDict, elos));
  }

  class SegmentationComparisonLogic {
    /** 10 ** x, for the expected scores. */
    const pow10: ExpFn
    /** math.exp, for the sampling weights. */
    const exp: ExpFn

    /** The models in the order they were discovered (the key order of scansAndModelsDict). */
    var models: seq<string>
    /** scansAndModelsDict: model -> scan -> number of comparisons shown on that scan. */
    var usage: Usage
    /** The survey data frame. */
    var table: RatingTable
    /** The pair on display; None before the first choice or after an empty replay. */
    var nextPair: Option<NextPair>
    /** The comparison-history table. */
    var results: seq<History.ComparisonRow>
    /** The Elo history table. */
    var eloHistory: seq<History.EloHistoryRow>
    /** Comparisons made in this session; counted by the user interface. */
    var sessionComparisonCount: nat

    /**
     * Every model listed once with at least one scan, one row per model in
     * the rating table, and a pair on display made of two different known
     * models.
     */
    ghost predicate Valid()
      reads this
    {
      Consistent(models, usage, table, nextPair)
    }

    /**
     * A session over the volumes found and the histories loaded, before the
     * rating table is loaded: every model starts fresh.
     */
    constructor(pow10: ExpFn, exp: ExpFn, index: ScanIndex,
                results: seq<History.ComparisonRow>, eloHistory: seq<History.EloHistoryRow>)
      requires WellFormed(index)
      ensures Valid()
      ensures this.pow10 == pow10 && this.exp == exp
      ensures models == index.models && usage == index.usage && table == DefaultTable(index.models)
      ensures nextPair == None && this.results == results && this.eloHistory == eloHistory
      ensures sessionComparisonCount == 0
    {
      this.pow10 := pow10;
      this.exp := exp;
      models := index.models;
      usage := index.usage;
      table := DefaultTable(index.models);
      nextPair := None;
      this.results := results;
      this.eloHistory := eloHistory;
      sessionComparisonCount := 0;
      new;
      DefaultTableHoldsModels(index.models);
    }

    /**
     * Loads the rating table from a CSV file, or makes a fresh one without a
     * file. A refused file leaves the table as it was.
     */
    method LoadSurveyTable(csv: Option<Csv>) returns (err: Option<LoadError>)
      requires Valid()
      modifies this
      ensures Valid()
      ensures csv.None? ==> err.None? && table == DefaultTable(models)
      ensures csv.Some? ==> (err.None? <==> Acceptable(csv.value, models) && UniqueNames(Decode(csv.value.rows)))
      ensures csv.Some? && err.None? ==> table == Decode(csv.value.rows)
      ensures err.Some? ==> table == old(table)
      ensures models == old(models) && usage == old(usage) && nextPair == old(nextPair)
      ensures results == old(results) && eloHistory == old(eloHistory)
      ensures sessionComparisonCount == old(sessionComparisonCount)
    {
      var r := SurveyCsv.LoadSurveyTable(csv, models);
      if r.Failure? {
        return Some(r.error);
      }
      table := r.value;
      err := None;
    }

    /** Chooses the next pair to show (see Matchmaking.ChooseNextPair). */
    method UpdateNextPair(isNewCsv: bool)
      requires Valid() && |table| >= 2
      modifies this
      ensures Valid()
      ensures nextPair.Some?
      ensures var p := nextPair.value;
        && Has(table, p.left) && Has(table, p.right) && p.left != p.right
        && (!Bootstrap(sessionComparisonCount, isNewCsv) ==> p.left == table[LeastPlayedIndex(table)].name)
        && (!Bootstrap(sessionComparisonCount, isNewCsv)
            && (exists i :: 0 <= i < |table| && table[i].elo != EloOf(table, p.left))
            ==> EloOf(table, p.right) != EloOf(table, p.left))
        && ScanIsLeastUsed(usage, p.left, p.right, p.scan)
      ensures models == old(models) && usage == old(usage) && table == old(table)
      ensures results == old(results) && eloHistory == old(eloHistory)
      ensures sessionComparisonCount == old(sessionComparisonCount)
    {
      forall i | 0 <= i < |table| ensures table[i].name in usage && |usage[table[i].name]| > 0 {
        assert Has(table, table[i].name);
      }
      var pair := ChooseNextPair(exp, table, usage, sessionComparisonCount, isNewCsv);
      nextPair := Some(pair);
    }

    /** The judgement on the pair on display can be recorded: its scan is a scan of both models. */
    ghost predicate CanRecord()
      reads this
      requires Valid()
    {
      nextPair.Some? && nextPair.value.scan in usage[nextPair.value.left]
      && nextPair.value.scan in usage[nextPair.value.right]
    }

    /**
     * Records the judgement on the pair on display: the left model scored
     * leftScore and the right one 1 - leftScore (a score outside [0, 1] is
     * not refused). Both ratings are updated, both models get one more game,
     * each with its own clock reading, both usage counters of the scan rise
     * by one, and an Elo-history row with every model's new rating is added.
     * Without a pair, or when the scan is not a scan of both models, nothing
     * changes (the rating table and the usage map are changed on copies that
     * are only written back at the end).
     */
    method UpdateComparisonData(leftScore: real, leftTime: int, rightTime: int) returns (ok: bool)
      requires Valid()
      modifies this
      ensures Valid()
      ensures ok <==> old(CanRecord())
      ensures ok ==>
        var p := old(nextPair).value;
        && table == ApplyResult(pow10, old(table), p.left, p.right, leftScore, leftTime, rightTime)
        && usage == Bump(Bump(old(usage), p.left, p.scan), p.right, p.scan)
        && (forall m :: m in models ==> Has(table, m))
        && eloHistory == old(eloHistory) + [History.EloHistoryRow(|results|, Snapshot(table, models))]
      ensures !ok ==> table == old(table) && usage == old(usage) && eloHistory == old(eloHistory)
      ensures models == old(models) && nextPair == old(nextPair) && results == old(results)
      ensures sessionComparisonCount == old(sessionComparisonCount)
    {
      if nextPair.None? {
        return false;
      }
      var recorded := RecordJudgement(pow10, models, usage, table, nextPair.value, leftScore, leftTime, rightTime);
      if recorded.None? {
        return false;
      }
      Commit(recorded.value.0, recorded.value.1, recorded.value.2);
      ok := true;
    }

    /** Writes back the rating table and the usage map of a judgement, and adds its Elo-history row. */
    method Commit(newTable: RatingTable, newUsage: Usage, elos: seq<real>)
      requires Consistent(models, newUsage, newTable, nextPair)
      modifies this
      ensures Valid()
      ensures table == newTable && usage == newUsage
      ensures eloHistory == old(eloHistory) + [History.EloHistoryRow(|results|, elos)]
      ensures models == old(models) && nextPair == old(nextPair) && results == old(results)
      ensures sessionComparisonCount == old(sessionComparisonCount)
    {
      table, usage := newTable, newUsage;
      eloHistory := eloHistory + [History.EloHistoryRow(|results|, elos)];
    }

    /**
     * Appends the row of the judgement on the pair on display to the
     * comparison history: numbered one past the rows already there, with both
     * volume names and the scores leftScore and 1 - leftScore. Without a pair
     * the row is added and left empty before the lookup fails.
     */
    method AddRecordInTable(leftScore: real) returns (ok: bool)
      requires Valid()
      modifies this
      ensures Valid()
      ensures ok <==> old(nextPair).Some?
      ensures TotalComparisonCount() == old(TotalComparisonCount()) + 1
      ensures ok ==> results == old(results) + [History.RecordFor(old(nextPair).value, |old(results)|, leftScore)]
      ensures !ok ==> results == old(results) + [History.Blank]
      ensures models == old(models) && usage == old(usage) && table == old(table) && nextPair == old(nextPair)
      ensures eloHistory == old(eloHistory) && sessionComparisonCount == old(sessionComparisonCount)
    {
      if nextPair.None? {
        results := results + [History.Blank];
        return false;
      }
      results := results + [History.RecordFor(nextPair.value, |results|, leftScore)];
      ok := true;
    }

    /** The number of rows of the comparison history. */
    function TotalComparisonCount(): (n: nat)
      reads this
      ensures n == |results|
    {
      |results|
    }

    /** The pair replayed from the comparison history: never one, since the row read is past the table. */
    function PairFromSurveyTable(): (r: Result<Option<NextPair>, PairError>)
      reads this
      ensures r == Success(None)
    {
      History.PairFromSurveyTable(results)
    }

    /** Before the comparison history is saved, a last row without volume names is dropped. */
    method TrimResultsForSave()
      requires Valid()
      modifies this
      ensures Valid()
      ensures results == History.TrimForSave(old(results))
      ensures models == old(models) && usage == old(usage) && table == old(table) && nextPair == old(nextPair)
      ensures eloHistory == old(eloHistory) && sessionComparisonCount == old(sessionComparisonCount)
    {
      results := History.TrimForSave(results);
    }
  }
}
