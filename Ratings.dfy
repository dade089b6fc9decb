/**
 * The rating table (the survey data frame): one row per model with its Elo
 * rating, the number of comparisons it took part in and when it last took
 * part. Rows are looked up by model name, and a lookup takes the first row
 * with that name, as a query followed by `.iloc[0]` does.
 */
module Ratings {
  import opened Wrappers
  import opened EloMath

  /** One row: ModelName, Elo, GamesPlayed and TimeLastPlayed (None is NaT, never played). */
  datatype Candidate = Candidate(name: string, elo: real, games: int, lastPlayed: Option<int>)

  type RatingTable = seq<Candidate>

  /** Some row holds the model. */
  predicate Has(t: RatingTable, name: string)
  {
    exists i :: 0 <= i < |t| && t[i].name == name
  }

  /** Both tables hold the same models in the same rows. */
  predicate SameNames(r: RatingTable, t: RatingTable)
  {
    |r| == |t| && forall i :: 0 <= i < |t| ==> r[i].name == t[i].name
  }

  predicate UniqueNames(t: RatingTable)
  {
    forall i, j :: 0 <= i < j < |t| ==> t[i].name != t[j].name
  }

  /** Tables with the same names in the same rows hold the same models, each as often. */
  lemma SameNamesSameModels(r: RatingTable, t: RatingTable)
    requires SameNames(r, t)
    ensures UniqueNames(r) <==> UniqueNames(t)
    ensures forall m :: Has(r, m) <==> Has(t, m)
  {
    forall m | Has(t, m) ensures Has(r, m) {
      var i :| 0 <= i < |t| && t[i].name == m;
      assert r[i].name == m;
    }
  }

  /** The first row holding the given model. */
  function IndexOf(t: RatingTable, name: string): (k: nat)
    requires Has(t, name)
    ensures k < |t| && t[k].name == name
    ensures forall j :: 0 <= j < k ==> t[j].name != name
    decreases |t|
  {
    if t[0].name == name then 0
    else
      assert Has(t[1..], name) by {
        var i :| 0 <= i < |t| && t[i].name == name;
        assert t[1..][i - 1].name == name;
      }
      1 + IndexOf(t[1..], name)
  }

  /** With unique names, the row holding a name is the only one. */
  lemma IndexOfUnique(t: RatingTable, i: nat)
    requires UniqueNames(t) && i < |t|
    ensures Has(t, t[i].name) && IndexOf(t, t[i].name) == i
  {
  }

  /** The Elo of the first row holding the model. */
  function EloOf(t: RatingTable, name: string): real
    requires Has(t, name)
  {
    t[IndexOf(t, name)].elo
  }

  /** The Elo rewrite of a comparison: both ratings move by the Elo update. */
  function Rerate(pow10: ExpFn, t: RatingTable, left: string, right: string, leftScore: real): (r: RatingTable)
    requires Has(t, left) && Has(t, right)
    ensures SameNames(r, t)
  {
    var li, ri := IndexOf(t, left), IndexOf(t, right);
    var elos := UpdatedElos(pow10, t[li].elo, t[ri].elo, leftScore);
    var t1 := t[li := t[li].(elo := elos.0)];
    t1[ri := t1[ri].(elo := elos.1)]
  }

  /** One more game for the model, last played at the given time. */
  function MarkPlayed(t: RatingTable, model: string, time: int): (r: RatingTable)
    requires Has(t, model)
    ensures SameNames(r, t)
  {
    var k := IndexOf(t, model);
    t[k := t[k].(games := t[k].games + 1, lastPlayed := Some(time))]
  }

  /**
   * The rating-table part of recording a judgement: the two ratings are
   * updated, then each model gets one more game and its own clock reading.
   */
  function ApplyResult(pow10: ExpFn, t: RatingTable, left: string, right: string, leftScore: real,
                       leftTime: int, rightTime: int): (r: RatingTable)
    requires Has(t, left) && Has(t, right)
    ensures SameNames(r, t)
  {
    MarkPlayed(MarkPlayed(Rerate(pow10, t, left, right, leftScore), left, leftTime), right, rightTime)
  }

  /** Counting a game rewrites the model's first row and no other. */
  lemma MarkPlayedAt(t: RatingTable, model: string, time: int, i: nat)
    requires Has(t, model) && i < |t|
    ensures var k := IndexOf(t, model);
      MarkPlayed(t, model, time)[i]
        == if i == k then t[i].(games := t[i].games + 1, lastPlayed := Some(time)) else t[i]
  {
  }

  /** The Elo rewrite of two different models rewrites their two rows and no other. */
  lemma RerateAt(pow10: ExpFn, t: RatingTable, left: string, right: string, leftScore: real, i: nat)
    requires Has(t, left) && Has(t, right) && left != right && i < |t|
    ensures var li, ri := IndexOf(t, left), IndexOf(t, right);
      var elos := UpdatedElos(pow10, t[li].elo, t[ri].elo, leftScore);
      Rerate(pow10, t, left, right, leftScore)[i]
        == if i == li then t[i].(elo := elos.0) else if i == ri then t[i].(elo := elos.1) else t[i]
  {
  }

  /**
   * After a judgement between two different models, the left model's row holds
   * its new rating, one more game and the left clock reading, the right
   * model's row likewise, and every other row is as it was.
   */
  lemma ApplyResultRows(pow10: ExpFn, t: RatingTable, left: string, right: string, leftScore: real,
                        leftTime: int, rightTime: int)
    requires UniqueNames(t) && Has(t, left) && Has(t, right) && left != right
    ensures var r := ApplyResult(pow10, t, left, right, leftScore, leftTime, rightTime);
      var elos := UpdatedElos(pow10, EloOf(t, left), EloOf(t, right), leftScore);
      && |r| == |t|
      && (forall i :: 0 <= i < |t| && t[i].name == left ==>
            r[i] == Candidate(left, elos.0, t[i].games + 1, Some(leftTime)))
      && (forall i :: 0 <= i < |t| && t[i].name == right ==>
            r[i] == Candidate(right, elos.1, t[i].games + 1, Some(rightTime)))
      && (forall i :: 0 <= i < |t| && t[i].name != left && t[i].name != right ==> r[i] == t[i])
  {
    var li, ri := IndexOf(t, left), IndexOf(t, right);
    var t1 := Rerate(pow10, t, left, right, leftScore);
    var t2 := MarkPlayed(t1, left, leftTime);
    // the judgement keeps the names, so the pair's rows stay where they were
    IndexOfUnique(t, li);
    IndexOfUnique(t, ri);
    assert UniqueNames(t1) && t1[li].name == left;
    IndexOfUnique(t1, li);
    assert UniqueNames(t2) && t2[ri].name == right;
    IndexOfUnique(t2, ri);
    forall i | 0 <= i < |t|
      ensures var r := ApplyResult(pow10, t, left, right, leftScore, leftTime, rightTime);
        var elos := UpdatedElos(pow10, EloOf(t, left), EloOf(t, right), leftScore);
        && (t[i].name == left ==> r[i] == Candidate(left, elos.0, t[i].games + 1, Some(leftTime)))
        && (t[i].name == right ==> r[i] == Candidate(right, elos.1, t[i].games + 1, Some(rightTime)))
        && (t[i].name != left && t[i].name != right ==> r[i] == t[i])
    {
      IndexOfUnique(t, i);
      RerateAt(pow10, t, left, right, leftScore, i);
      MarkPlayedAt(t1, left, leftTime, i);
      MarkPlayedAt(t2, right, rightTime, i);
    }
  }

  /** The sum of all ratings. */
  function TotalElo(t: RatingTable): real
  {
    if t == [] then 0.0 else TotalElo(t[..|t| - 1]) + t[|t| - 1].elo
  }

  /** Replacing one row's rating changes the total by the difference. */
  lemma {:induction false} TotalEloUpdate(t: RatingTable, k: nat, c: Candidate)
    requires k < |t|
    ensures TotalElo(t[k := c]) == TotalElo(t) - t[k].elo + c.elo
    decreases |t|
  {
    var u := t[k := c];
    if k == |t| - 1 {
      assert u[..|u| - 1] == t[..|t| - 1];
    } else {
      assert u[..|u| - 1] == t[..|t| - 1][k := c];
      TotalEloUpdate(t[..|t| - 1], k, c);
    }
  }

  /** The Elo rewrite of a comparison between two different models keeps the sum of all ratings. */
  lemma RerateConservesTotal(pow10: ExpFn, t: RatingTable, left: string, right: string, leftScore: real)
    requires Has(t, left) && Has(t, right) && left != right
    ensures TotalElo(Rerate(pow10, t, left, right, leftScore)) == TotalElo(t)
  {
    var li, ri := IndexOf(t, left), IndexOf(t, right);
    var elos := UpdatedElos(pow10, t[li].elo, t[ri].elo, leftScore);
    UpdatedElosZeroSum(pow10, t[li].elo, t[ri].elo, leftScore);
    var t1 := t[li := t[li].(elo := elos.0)];
    TotalEloUpdate(t, li, t[li].(elo := elos.0));
    TotalEloUpdate(t1, ri, t1[ri].(elo := elos.1));
  }

  /** Counting a game leaves every rating as it was. */
  lemma MarkPlayedKeepsTotal(t: RatingTable, model: string, time: int)
    requires Has(t, model)
    ensures TotalElo(MarkPlayed(t, model, time)) == TotalElo(t)
  {
    var k := IndexOf(t, model);
    TotalEloUpdate(t, k, t[k].(games := t[k].games + 1, lastPlayed := Some(time)));
  }

  /** Recording a judgement between two different models keeps the sum of all ratings. */
  lemma ApplyResultConservesTotal(pow10: ExpFn, t: RatingTable, left: string, right: string, leftScore: real,
                                  leftTime: int, rightTime: int)
    requires Has(t, left) && Has(t, right) && left != right
    ensures TotalElo(ApplyResult(pow10, t, left, right, leftScore, leftTime, rightTime)) == TotalElo(t)
  {
    var r1 := Rerate(pow10, t, left, right, leftScore);
    RerateConservesTotal(pow10, t, left, right, leftScore);
    MarkPlayedKeepsTotal(r1, left, leftTime);
    MarkPlayedKeepsTotal(MarkPlayed(r1, left, leftTime), right, rightTime);
  }

  /** The rating of every listed model, in list order: the body of an Elo history row. */
  function Snapshot(t: RatingTable, models: seq<string>): (elos: seq<real>)
    requires forall m :: m in models ==> Has(t, m)
    ensures |elos| == |models|
    ensures forall i :: 0 <= i < |models| ==> elos[i] == t[IndexOf(t, models[i])].elo
  {
    if models == [] then [] else [EloOf(t, models[0])] + Snapshot(t, models[1..])
  }

  /** The history row's ratings, cell by cell. */
  method EloColumn(t: RatingTable, models: seq<string>) returns (elos: seq<real>)
    requires forall m :: m in models ==> Has(t, m)
    ensures elos == Snapshot(t, models)
  {
    elos := [];
    for i := 0 to |models|
      invariant |elos| == i
      invariant forall j :: 0 <= j < i ==> elos[j] == EloOf(t, models[j])
    {
      elos := elos + [EloOf(t, models[i])];
    }
  }

  // ---------------------------------------------------------------------
  // Choosing the least-played model
  // ---------------------------------------------------------------------

  /** x was played strictly earlier than y; never played (None) is earliest of all. */
  predicate PlayedBefore(x: Option<int>, y: Option<int>)
  {
    (x.None? && y.Some?) || (x.Some? && y.Some? && x.value < y.value)
  }

  /** a is due before b: fewer games, or as many games and played less recently. */
  predicate Ahead(a: Candidate, b: Candidate)
  {
    a.games < b.games || (a.games == b.games && PlayedBefore(a.lastPlayed, b.lastPlayed))
  }

  /**
   * The row of the model to play next: a row with the fewest games that was
   * played least recently among those, never-played first, the first such row
   * on a tie.
   */
  function LeastPlayedIndex(t: RatingTable): (k: nat)
    requires |t| > 0
    ensures k < |t|
    ensures forall i :: 0 <= i < |t| ==> t[k].games <= t[i].games
    ensures forall i :: 0 <= i < |t| ==> !Ahead(t[i], t[k])
    ensures forall i :: 0 <= i < k ==> Ahead(t[k], t[i])
    decreases |t|
  {
    if |t| == 1 then 0
    else
      var k := LeastPlayedIndex(t[..|t| - 1]);
      if Ahead(t[|t| - 1], t[k]) then |t| - 1 else k
  }

  /** The fewest games any row has. */
  function MinGames(t: RatingTable): (m: int)
    requires |t| > 0
    ensures exists i :: 0 <= i < |t| && t[i].games == m
    ensures forall i :: 0 <= i < |t| ==> m <= t[i].games
    decreases |t|
  {
    if |t| == 1 then t[0].games
    else
      var m := MinGames(t[..|t| - 1]);
      if t[|t| - 1].games < m then t[|t| - 1].games else m
  }

  /** The indexes, from `from` on and in order, of the rows with g games. */
  function RowsWithGames(t: RatingTable, g: int, from: nat): (rows: seq<nat>)
    requires from <= |t|
    ensures forall j :: 0 <= j < |rows| ==> from <= rows[j] < |t| && t[rows[j]].games == g
    ensures forall i :: from <= i < |t| && t[i].games == g ==> i in rows
    ensures forall j, l :: 0 <= j < l < |rows| ==> rows[j] < rows[l]
    decreases |t| - from
  {
    if from == |t| then []
    else
      var rest := RowsWithGames(t, g, from + 1);
      if t[from].games == g then [from] + rest else rest
  }

  /** The earliest timestamp among the given rows, never-played rows skipped (a pandas min). */
  function EarliestTime(t: RatingTable, rows: seq<nat>): (e: Option<int>)
    requires forall j :: 0 <= j < |rows| ==> rows[j] < |t|
    ensures e.Some? <==> exists j :: 0 <= j < |rows| && t[rows[j]].lastPlayed.Some?
    ensures e.Some? ==> exists j :: 0 <= j < |rows| && t[rows[j]].lastPlayed == e
    ensures e.Some? ==> forall j :: 0 <= j < |rows| && t[rows[j]].lastPlayed.Some? ==>
      e.value <= t[rows[j]].lastPlayed.value
    decreases |rows|
  {
    if rows == [] then None
    else
      var e := EarliestTime(t, rows[1..]);
      var here := t[rows[0]].lastPlayed;
      if here.None? then e
      else if e.None? || here.value <= e.value then here
      else e
  }

  /** The first row, anywhere in the table, last played at the given time. */
  function FirstPlayedAt(t: RatingTable, time: int, from: nat): (k: Option<nat>)
    requires from <= |t|
    ensures k.Some? ==> from <= k.value < |t| && t[k.value].lastPlayed == Some(time)
    ensures k.Some? ==> forall i :: from <= i < k.value ==> t[i].lastPlayed != Some(time)
    ensures k.None? ==> forall i :: from <= i < |t| ==> t[i].lastPlayed != Some(time)
    decreases |t| - from
  {
    if from == |t| then None
    else if t[from].lastPlayed == Some(time) then Some(from)
    else FirstPlayedAt(t, time, from + 1)
  }

  /**
   * The rows with the fewest games are not empty, they carry no timestamp
   * exactly when the earliest of their timestamps is missing, and an earliest
   * timestamp is always found again in the whole table.
   */
  lemma LeastPlayedRowsTimed(t: RatingTable)
    requires |t| > 0
    ensures var rows := RowsWithGames(t, MinGames(t), 0);
      && |rows| > 0
      && (EarliestTime(t, rows).None? <==>
          forall i :: 0 <= i < |t| && t[i].games == MinGames(t) ==> t[i].lastPlayed.None?)
      && (EarliestTime(t, rows).Some? ==> FirstPlayedAt(t, EarliestTime(t, rows).value, 0).Some?)
  {
    var m := MinGames(t);
    var rows := RowsWithGames(t, m, 0);
    var w :| 0 <= w < |t| && t[w].games == m;
    assert w in rows;
    var e := EarliestTime(t, rows);
    if e.None? {
      forall i | 0 <= i < |t| && t[i].games == m
        ensures t[i].lastPlayed.None?
      {
        assert i in rows;
        var j :| 0 <= j < |rows| && rows[j] == i;
      }
    } else {
      var j :| 0 <= j < |rows| && t[rows[j]].lastPlayed == e;
      assert t[rows[j]].games == m;
    }
  }

  /**
   * The least-played model as the matchmaker selects it: the only row with
   * the fewest games, or else the first row of the WHOLE table whose
   * timestamp equals the earliest timestamp among the fewest-games rows.
   * None is the IndexError raised when no row matches, which happens when
   * none of the fewest-games rows was ever played: the query then compares
   * with NaT, and NaT equals nothing.
   */
  function LeastPlayedAsWritten(t: RatingTable): (r: Option<string>)
    requires |t| > 0
    ensures r.Some? ==> Has(t, r.value)
    ensures r.None? <==>
      && |RowsWithGames(t, MinGames(t), 0)| > 1
      && forall i :: 0 <= i < |t| && t[i].games == MinGames(t) ==> t[i].lastPlayed.None?
  {
    var rows := RowsWithGames(t, MinGames(t), 0);
    if |rows| == 1 then Some(t[rows[0]].name)
    else
      LeastPlayedRowsTimed(t);
      match EarliestTime(t, rows)
      case None => None
      case Some(time) =>
        match FirstPlayedAt(t, time, 0)
        case None => None
        case Some(k) => Some(t[k].name)
  }

  /** When only row k has g games, the rows with g games from `from` on are k alone, or none past k. */
  lemma RowsWithUniqueGames(t: RatingTable, g: int, from: nat, k: nat)
    requires from <= |t| && k < |t| && t[k].games == g
    requires forall i :: 0 <= i < |t| && i != k ==> t[i].games != g
    ensures RowsWithGames(t, g, from) == if from <= k then [k] else []
    decreases |t| - from
  {
    if from < |t| {
      var rest := RowsWithGames(t, g, from + 1);
      RowsWithUniqueGames(t, g, from + 1, k);
      if from == k {
        assert RowsWithGames(t, g, from) == [from] + rest;
      } else {
        assert RowsWithGames(t, g, from) == [] + rest;
      }
    }
  }

  /** When one row has the fewest games, both selections agree on it. */
  lemma LeastPlayedSingleMinimum(t: RatingTable, k: nat)
    requires k < |t|
    requires forall i :: 0 <= i < |t| && i != k ==> t[k].games < t[i].games
    ensures LeastPlayedAsWritten(t) == Some(t[k].name)
    ensures LeastPlayedIndex(t) == k
  {
    assert MinGames(t) == t[k].games;
    RowsWithUniqueGames(t, t[k].games, 0, k);
  }

  /** A table of three models: A with 2 games, B and C with 1, B played before C. */
  function TieExampleTable(): RatingTable
  {
    [Candidate("A", 1000.0, 2, Some(1)), Candidate("B", 1000.0, 1, Some(2)), Candidate("C", 1000.0, 1, Some(3))]
  }

  lemma TieExampleRows()
    ensures MinGames(TieExampleTable()) == 1 && RowsWithGames(TieExampleTable(), 1, 0) == [1, 2]
  {
    var t := TieExampleTable();
    assert MinGames(t[..1]) == 2;
    assert MinGames(t[..2]) == 1 by { assert t[..2][..1] == t[..1]; }
    assert RowsWithGames(t, 1, 2) == [2];
  }

  lemma TieExampleEarliest()
    ensures EarliestTime(TieExampleTable(), [1, 2]) == Some(2)
    ensures FirstPlayedAt(TieExampleTable(), 2, 0) == Some(1)
  {
    assert [1, 2][1..] == [2];
    assert FirstPlayedAt(TieExampleTable(), 2, 1) == Some(1);
  }

  lemma TieExampleIndex()
    ensures LeastPlayedIndex(TieExampleTable()) == 1
  {
    var t := TieExampleTable();
    assert LeastPlayedIndex(t[..1]) == 0;
    assert LeastPlayedIndex(t[..2]) == 1 by { assert t[..2][..1] == t[..1]; }
  }

  /** A with 2 games, B and C with 1, B played before C: both selections pick B. */
  lemma LeastPlayedTieExample()
    ensures var t := TieExampleTable();
      LeastPlayedAsWritten(t) == Some("B") && t[LeastPlayedIndex(t)].name == "B"
  {
    TieExampleRows();
    TieExampleEarliest();
    TieExampleIndex();
  }

  /** A fresh table of four models A, B, C and D: default rating, no games, never played. */
  function FreshFourModelTable(): RatingTable
  {
    [Candidate("A", DefaultElo, 0, None), Candidate("B", DefaultElo, 0, None),
     Candidate("C", DefaultElo, 0, None), Candidate("D", DefaultElo, 0, None)]
  }

  /** Two rows with one game each ahead of two never-played rows without games. */
  lemma NeverPlayedTieRows(t: RatingTable)
    requires |t| == 4 && t[0].games == 1 && t[1].games == 1
    requires t[2] == Candidate("C", DefaultElo, 0, None) && t[3] == Candidate("D", DefaultElo, 0, None)
    ensures MinGames(t) == 0 && RowsWithGames(t, 0, 0) == [2, 3]
  {
    assert MinGames(t[..1]) == 1;
    assert MinGames(t[..2]) == 1 by { assert t[..2][..1] == t[..1]; }
    assert MinGames(t[..3]) == 0 by { assert t[..3][..2] == t[..2]; }
    assert t[..4] == t;
    assert RowsWithGames(t, 0, 3) == [3];
    assert RowsWithGames(t, 0, 2) == [2, 3];
  }

  /** With C and D tied on zero games and never played, the query as written matches no row. */
  lemma NeverPlayedTieAsWritten(t: RatingTable)
    requires |t| == 4 && t[0].games == 1 && t[1].games == 1
    requires t[2] == Candidate("C", DefaultElo, 0, None) && t[3] == Candidate("D", DefaultElo, 0, None)
    ensures LeastPlayedAsWritten(t) == None
  {
    NeverPlayedTieRows(t);
    assert EarliestTime(t, [2, 3]) == None by { assert [2, 3][1..] == [3]; }
  }

  /** With C and D tied on zero games and never played, the corrected selection picks C. */
  lemma NeverPlayedTieIndex(t: RatingTable)
    requires |t| == 4 && t[0].games == 1 && t[1].games == 1
    requires t[2] == Candidate("C", DefaultElo, 0, None) && t[3] == Candidate("D", DefaultElo, 0, None)
    ensures LeastPlayedIndex(t) == 2
  {
    assert LeastPlayedIndex(t[..3]) == 2 by {
      assert t[..3][..2] == t[..2];
      assert LeastPlayedIndex(t[..2]) < 2;
    }
    assert t[..4] == t;
  }

  /** The first judgement of a fresh four-model session, between A and B. */
  lemma FirstJudgementOnFreshTable(pow10: ExpFn, leftScore: real, leftTime: int, rightTime: int)
    ensures var t0 := FreshFourModelTable();
      Has(t0, "A") && Has(t0, "B") &&
      var t := ApplyResult(pow10, t0, "A", "B", leftScore, leftTime, rightTime);
      |t| == 4 && t[0].games == 1 && t[1].games == 1
      && t[2] == Candidate("C", DefaultElo, 0, None) && t[3] == Candidate("D", DefaultElo, 0, None)
  {
    var t0 := FreshFourModelTable();
    assert t0[0].name == "A" && t0[1].name == "B" && t0[2].name == "C" && t0[3].name == "D";
    ApplyResultRows(pow10, t0, "A", "B", leftScore, leftTime, rightTime);
    var t := ApplyResult(pow10, t0, "A", "B", leftScore, leftTime, rightTime);
    assert t[0].games == t0[0].games + 1;
    assert t[1].games == t0[1].games + 1;
    assert t[2] == t0[2] && t[3] == t0[3];
  }

  /**
   * The second pairing of a fresh four-model session: after the first
   * judgement, the two models not yet shown tie on zero games and were never
   * played, so the selection as written matches no row, where the corrected
   * one picks the first of them.
   */
  lemma LeastPlayedAsWrittenFailsWhenNeverPlayedTie(pow10: ExpFn, leftScore: real, leftTime: int, rightTime: int)
    ensures var t0 := FreshFourModelTable();
      Has(t0, "A") && Has(t0, "B") &&
      var t := ApplyResult(pow10, t0, "A", "B", leftScore, leftTime, rightTime);
      LeastPlayedAsWritten(t) == None && t[LeastPlayedIndex(t)].name == "C"
  {
    FirstJudgementOnFreshTable(pow10, leftScore, leftTime, rightTime);
    var t := ApplyResult(pow10, FreshFourModelTable(), "A", "B", leftScore, leftTime, rightTime);
    NeverPlayedTieAsWritten(t);
    NeverPlayedTieIndex(t);
  }

  /** Three models: A busier than B and C, A and B last played at the same moment. */
  function SharedTimestampTable(): RatingTable
  {
    [Candidate("A", 1000.0, 2, Some(5)), Candidate("B", 1000.0, 1, Some(5)), Candidate("C", 1000.0, 1, Some(7))]
  }

  lemma SharedTimestampRows()
    ensures MinGames(SharedTimestampTable()) == 1 && RowsWithGames(SharedTimestampTable(), 1, 0) == [1, 2]
  {
    var t := SharedTimestampTable();
    assert MinGames(t[..1]) == 2;
    assert MinGames(t[..2]) == 1 by { assert t[..2][..1] == t[..1]; }
    assert RowsWithGames(t, 1, 2) == [2];
  }

  lemma SharedTimestampTime()
    ensures EarliestTime(SharedTimestampTable(), [1, 2]) == Some(5)
    ensures FirstPlayedAt(SharedTimestampTable(), 5, 0) == Some(0)
  {
    assert [1, 2][1..] == [2];
  }

  lemma SharedTimestampIndex()
    ensures LeastPlayedIndex(SharedTimestampTable()) == 1
  {
    var t := SharedTimestampTable();
    assert LeastPlayedIndex(t[..1]) == 0;
    assert LeastPlayedIndex(t[..2]) == 1 by { assert t[..2][..1] == t[..1]; }
  }

  /**
   * The timestamp search runs over the whole table: a busier model that was
   * last played at the same moment as the least-played one is picked instead.
   */
  lemma LeastPlayedAsWrittenPicksBusierModel()
    ensures var t := SharedTimestampTable();
      LeastPlayedAsWritten(t) == Some("A") && t[0].games > MinGames(t)
      && t[LeastPlayedIndex(t)].name == "B"
  {
    SharedTimestampRows();
    SharedTimestampTime();
    SharedTimestampIndex();
  }

  /** A played once at time 5, B played once and never timed. */
  function MixedTieTable(): RatingTable
  {
    [Candidate("A", 1000.0, 1, Some(5)), Candidate("B", 1000.0, 1, None)]
  }

  lemma MixedTieRows()
    ensures MinGames(MixedTieTable()) == 1 && RowsWithGames(MixedTieTable(), 1, 0) == [0, 1]
  {
    var t := MixedTieTable();
    assert MinGames(t[..1]) == 1;
    assert RowsWithGames(t, 1, 1) == [1];
  }

  /**
   * On a tie between a played and a never-played model, the minimum skips
   * the missing timestamp, so the selection as written picks the played
   * model; the corrected one counts the never-played model as due first.
   */
  lemma LeastPlayedMixedTie()
    ensures var t := MixedTieTable();
      LeastPlayedAsWritten(t) == Some("A") && LeastPlayedIndex(t) == 1
  {
    var t := MixedTieTable();
    MixedTieRows();
    assert [0, 1][1..] == [1];
    assert EarliestTime(t, [0, 1]) == Some(5);
    assert FirstPlayedAt(t, 5, 0) == Some(0);
    assert LeastPlayedIndex(t[..1]) == 0;
  }
}
