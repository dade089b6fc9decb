/**
 * Choosing the next pair to show: two models and a scan both have a
 * segmentation of, or at least one of them has. Random choices are picked
 * with `:|`: what is specified is which outcomes are possible, not how
 * likely each one is.
 */
module Matchmaking {
  import opened Wrappers
  import opened EloMath
  import opened Naming
  import opened Ratings
  import opened Volumes

  /** s is a scan of the map with the fewest uses. */
  predicate LeastUsedIn(scans: map<string, nat>, s: string)
  {
    s in scans && forall x :: x in scans ==> scans[s] <= scans[x]
  }

  /** Every nonempty usage map has a least-used scan. */
  lemma {:induction false} LeastUsedExists(scans: map<string, nat>)
    requires |scans| > 0
    ensures exists s :: LeastUsedIn(scans, s)
    decreases |scans|
  {
    var k :| k in scans;
    var rest := scans - {k};
    if |rest| == 0 {
      assert scans.Keys == {k};
      assert LeastUsedIn(scans, k);
    } else {
      LeastUsedExists(rest);
      var s :| LeastUsedIn(rest, s);
      assert s in scans && rest[s] == scans[s];
      assert forall x :: x in scans && x != k ==> x in rest && rest[x] == scans[x];
      if scans[k] < rest[s] {
        assert LeastUsedIn(scans, k);
      } else {
        assert LeastUsedIn(scans, s);
      }
    }
  }

  /**
   * The minimum by count of a model's (scan, count) entries in shuffled
   * order: any scan with the fewest uses.
   */
  method LeastUsedScan(scans: map<string, nat>) returns (scan: string, count: nat)
    requires |scans| > 0
    ensures LeastUsedIn(scans, scan) && count == scans[scan]
  {
    LeastUsedExists(scans);
    scan :| LeastUsedIn(scans, scan);
    count := scans[scan];
  }

  /** No scan of either model has fewer uses than c. */
  predicate AtMostAllUses(usage: Usage, left: string, right: string, c: nat)
    requires left in usage && right in usage
  {
    && (forall x :: x in usage[left] ==> c <= usage[left][x])
    && (forall x :: x in usage[right] ==> c <= usage[right][x])
  }

  /** scan is a scan of one of the two models and has the fewest uses among all scans of both. */
  predicate ScanIsLeastUsed(usage: Usage, left: string, right: string, scan: string)
    requires left in usage && right in usage
  {
    || (scan in usage[left] && AtMostAllUses(usage, left, right, usage[left][scan]))
    || (scan in usage[right] && AtMostAllUses(usage, left, right, usage[right][scan]))
  }

  /**
   * The scan of the next pair: the least-used scan of each model, then the
   * one of the two with fewer uses, the left model's on a tie.
   */
  method ChooseScan(usage: Usage, left: string, right: string) returns (scan: string)
    requires left in usage && right in usage && |usage[left]| > 0 && |usage[right]| > 0
    ensures ScanIsLeastUsed(usage, left, right, scan)
    ensures (exists x :: x in usage[left] && forall y :: y in usage[right] ==> usage[left][x] <= usage[right][y])
      ==> LeastUsedIn(usage[left], scan)
  {
    var leftScan, leftCount := LeastUsedScan(usage[left]);
    var rightScan, rightCount := LeastUsedScan(usage[right]);
    if leftCount <= rightCount {
      scan := leftScan;
    } else {
      scan := rightScan;
    }
  }

  /** The absolute value of a rating difference. */
  function Abs(x: real): real
  {
    if x < 0.0 then -x else x
  }

  /** The absolute rating difference of every row to the given rating. */
  function EloDiffs(t: RatingTable, elo: real): (diffs: seq<real>)
    ensures |diffs| == |t|
    ensures forall i :: 0 <= i < |t| ==> diffs[i] == Abs(t[i].elo - elo)
    ensures forall i :: 0 <= i < |t| ==> (diffs[i] == 0.0 <==> t[i].elo == elo)
  {
    if t == [] then [] else [Abs(t[0].elo - elo)] + EloDiffs(t[1..], elo)
  }

  /** The first comparison of a session that started without a rating-table file is drawn at random. */
  predicate Bootstrap(sessionCount: nat, isNewCsv: bool)
  {
    sessionCount == 0 && isNewCsv
  }

  /**
   * The next pair. On the first comparison of a fresh session: two different
   * models at random. Otherwise the left model is the least-played one, and
   * the right model is drawn among the models whose rating differs from it,
   * closer ratings weighing more; when all ratings are equal, any other
   * model. The scan is the least-used scan of the two models.
   */
  method ChooseNextPair(exp: ExpFn, t: RatingTable, usage: Usage, sessionCount: nat, isNewCsv: bool)
    returns (pair: NextPair)
    requires |t| >= 2 && UniqueNames(t)
    requires forall i :: 0 <= i < |t| ==> t[i].name in usage && |usage[t[i].name]| > 0
    ensures Has(t, pair.left) && Has(t, pair.right) && pair.left != pair.right
    ensures !Bootstrap(sessionCount, isNewCsv) ==> pair.left == t[LeastPlayedIndex(t)].name
    ensures !Bootstrap(sessionCount, isNewCsv) && (exists i :: 0 <= i < |t| && t[i].elo != EloOf(t, pair.left))
      ==> EloOf(t, pair.right) != EloOf(t, pair.left)
    ensures pair.left in usage && pair.right in usage && ScanIsLeastUsed(usage, pair.left, pair.right, pair.scan)
  {
    var left: string, right: string;
    if Bootstrap(sessionCount, isNewCsv) {
      assert t[0].name != t[1].name;
      var i, j :| 0 <= i < |t| && 0 <= j < |t| && i != j;
      left, right := t[i].name, t[j].name;
    } else {
      var k := LeastPlayedIndex(t);
      left := t[k].name;
      IndexOfUnique(t, k);
      var leastModelElo := EloOf(t, left);
      var eloDiffs := EloDiffs(t, leastModelElo);
      if forall i :: 0 <= i < |eloDiffs| ==> eloDiffs[i] == 0.0 {
        // the retry loop: draw until the model differs from the left one
        assert t[0].name != t[1].name;
        var c :| 0 <= c < |t| && t[c].name != left;
        right := t[c].name;
      } else {
        var samplingWeights := SamplingWeights(exp, eloDiffs);
        // random.choices never draws an entry of weight 0
        var c :| 0 <= c < |t| && samplingWeights[c] != 0.0;
        right := t[c].name;
        IndexOfUnique(t, c);
      }
    }
    var scan := ChooseScan(usage, left, right);
    pair := NextPair(scan, left, right);
  }
}
