# SegmentationComparison rating and matchmaking engine, in Dafny

This project models the logic core of the SegmentationComparison 3D Slicer
module (`SegmentationComparison/SegmentationComparison.py`, class
`SegmentationComparisonLogic`). In a survey, a rater is shown two AI
segmentations of the same scan and says which one is better, or that they
are equal. The logic does four things:

- It keeps an Elo rating for every AI model.
- It counts how often each (model, scan) pair has been shown.
- It chooses the next pair of models and the scan to show them on.
- It writes every judgement to a comparison-history table and an
  Elo-history table.

Modules:

- `Wrappers`: `Option` and `Result`.
- `EloMath`: the logistic expected scores (base 10, scale 400), the
  K-factor update (`K = 32`) and the sampling weights `exp(-0.01 * diff)`
  that favour close ratings. `10 ** x` and `math.exp` are parameters of
  type `ExpFn`: any function that is positive, maps `-x` to the reciprocal
  of `x`, and is strictly increasing. Every result is proved for all such
  functions.
- `Naming`: Python's `str.split('_')` and `'_'.join`, and volume names
  (`patientId_model_sequence`):
  - `nameFromPatientSequenceAndModel`;
  - the unpacking done by the volume loader;
  - the read-back of a pair from two volume names.
- `Volumes`: `scansAndModelsDict` (model -> scan -> number of times shown)
  as the volume loader builds it, and the `+= 1` of a judgement.
- `Ratings`: the survey data frame as a sequence of rows (model name, Elo,
  games played, time last played).
  - The rating part of a judgement.
  - The Elo-history column.
  - The selection of the least-played model, both as written and corrected.
- `SurveyCsv`: `loadSurveyTable`. A saved rating table is checked in the
  order the loader checks it; without a file, a fresh table is built.
- `History`: the rows of the comparison-history table. Covers
  `addRecordInTable`, the clean-up before saving, and
  `getPairFromSurveyTable`.
- `Matchmaking`: `updateNextPair`, which chooses the two models and the
  scan.
- `Session`: the class `SegmentationComparisonLogic`. Its fields are the
  state the logic keeps. These live in its parameter node:
  - the models and their scan usage;
  - the rating table;
  - the pair on display;
  - the two history tables.

  The session comparison count is a plain attribute, set to 0 in
  `__init__`.

  Its methods change that state and keep the invariant `Valid()`:
  - models are distinct and each has at least one scan;
  - the rating table has exactly one row per model;
  - the pair on display is two different known models.

Modelling conventions:

- Ratings and scores are `real`; the source computes in doubles.
- Times are abstract integers passed in by the caller. The two models of a
  judgement get separate clock readings, because `datetime.now()` is called
  once per model.
- A random choice is a `:|` pick. The contracts state which outcomes are
  possible, not how likely each one is.
- An exception becomes an error value (`None` or `Failure`) or a `false`
  result.
- The host table returns `""` for a cell past the last row, and removing a
  row past the last one does nothing. The model assumes this; the host
  table's code is not part of this model.

Three things in the source do not work as the code evidently intends. The
model keeps each as written, proves the failure on a concrete input, and
gives a corrected version with the intended property proved. The session
runs the corrected versions (see Findings and Left out):

- The least-played model. The comment at line 1437 says "Pick first model
  with least recent date played". The query at lines 1438-1439 looks up the
  earliest time among the tied rows in the whole table. When none of the
  tied rows was ever played, that earliest time is NaT, nothing matches,
  and `.iloc[0]` raises IndexError. The query can also match a busier
  model that shares the timestamp. The session uses
  `Ratings.LeastPlayedIndex`: the first tied row played least recently,
  with never-played rows first. On a tie between played and never-played
  rows the two differ: pandas' `min` skips NaT, so the query picks the
  earliest-played row, while the session picks a never-played one
  (`Ratings.LeastPlayedMixedTie`).
- The clean-up before saving (lines 950-952). It is meant to drop a
  trailing history row without volume names. Its guard reads the row one
  past the last one, in the score columns, so it never fires. The session
  uses `History.TrimForSave`, which tests the last row's two volume-name
  columns.
- The rating-table loader accepts a file with two rows for one model
  (lines 1137-1139). The session uses `SurveyCsv.ValidateCsv`, which also
  rejects duplicate model rows.

With fewer than two models, `random.sample` raises ValueError on the first
pairing (line 1425), and the retry loop (lines 1447-1450) never ends. The
model requires at least two models.

## Model

| member | source | states |
|---|---|---|
| EloMath.ExpectedScores | SegmentationComparison/SegmentationComparison.py:1340-1343 | both expected scores lie strictly between 0 and 1 and add up to 1; equal ratings give 0.5 each; the left score is below the right one exactly when the left rating is lower |
| EloMath.UpdatedElos | SegmentationComparison/SegmentationComparison.py:1373-1383 | the left rating rises exactly when the left score beats its expected score; the right rating rises exactly when 1 - leftScore beats the right expected score |
| EloMath.ExpectedScoresSymmetric | SegmentationComparison/SegmentationComparison.py:1341-1342 | swapping the two ratings swaps the two expected scores |
| EloMath.NewElo | SegmentationComparison/SegmentationComparison.py:1365-1366 | the rating rises exactly when the actual score beats the expected one, and is unchanged exactly when they are equal |
| EloMath.UpdatedElosZeroSum | SegmentationComparison/SegmentationComparison.py:1377-1383 | the two updated ratings have the same sum as before, whatever the score, in range or not |
| EloMath.UpdatedElosEqualRatings | SegmentationComparison/SegmentationComparison.py:1377-1383 | between equal ratings a draw changes nothing and a win moves K/2 = 16 points each way |
| EloMath.UpdatedElosWinnerGains | SegmentationComparison/SegmentationComparison.py:1377-1383 | in a decisive judgement the winner's rating rises and the loser's falls |
| EloMath.SamplingWeight | SegmentationComparison/SegmentationComparison.py:1525-1532 | the weight of an opponent with a nonzero rating difference is positive |
| EloMath.SamplingWeightFavoursCloser | SegmentationComparison/SegmentationComparison.py:1525-1532 | a smaller rating difference gets a strictly larger weight |
| EloMath.SamplingWeights | SegmentationComparison/SegmentationComparison.py:1525-1532 | one weight per difference; a weight is 0 exactly when its difference is 0, and exp(-0.01 * diff) otherwise |
| Naming.Split | SegmentationComparison/SegmentationComparison.py:1636 | `str.split('_')`: at least one part, and no part holds a separator |
| Naming.Join | SegmentationComparison/SegmentationComparison.py:1637 | `'_'.join`: starts with the first part, and a separator follows it when there are two parts or more |
| Naming.SplitJoin | SegmentationComparison/SegmentationComparison.py:1636-1637 | joining separator-free parts with '_' and splitting again gives the parts back |
| Naming.JoinSplit | SegmentationComparison/SegmentationComparison.py:1636-1637 | splitting a string on '_' and joining again gives the string back |
| Naming.NameFromPatientSequenceAndModel | SegmentationComparison/SegmentationComparison.py:1634-1638 | the name starts with the scan's first part, a separator, the model and a separator; a scan without a separator gives patientSequence_model_ |
| Naming.NameOfPatientSequence | SegmentationComparison/SegmentationComparison.py:1634-1638 | for separator-free parts, scan patientId_sequence and a model give patientId_model_sequence |
| Naming.NameParts | SegmentationComparison/SegmentationComparison.py:1634-1638 | a volume name splits into the scan's first part, the model, and the scan's other parts (one empty part when the scan has none) |
| Naming.ParseVolumeName | SegmentationComparison/SegmentationComparison.py:1269-1271 | a name unpacks exactly when it has three parts; the model is then separator-free and the scan holds a separator |
| Naming.ParseVolumeNameSound | SegmentationComparison/SegmentationComparison.py:1269-1271 | a name is accepted exactly when it has three parts; what is taken from it is a two-part scan and a separator-free model whose volume name is the name itself |
| Naming.ParseVolumeNameRoundTrip | SegmentationComparison/SegmentationComparison.py:1269-1271 | parsing the volume name built from a two-part scan and a model gives back that scan and model |
| Naming.PairFromNames | SegmentationComparison/SegmentationComparison.py:1549-1555 | no pair exactly when both names are empty; an error exactly when a name is non-empty and a name has too few parts |
| Naming.PairFromNamesRoundTrip | SegmentationComparison/SegmentationComparison.py:1549-1555 | the two volume names written for a pair read back as that same pair |
| Volumes.Register | SegmentationComparison/SegmentationComparison.py:1273-1276 | the volume's counter is 0; the model is added at the end of the key order when it is new, and only its scan is added; every other model and counter is unchanged |
| Volumes.RegisterStep | SegmentationComparison/SegmentationComparison.py:1273-1276 | registering one more volume keeps the index well formed; the index then records exactly the volumes seen so far, all counters at 0 |
| Volumes.BuildScanIndex | SegmentationComparison/SegmentationComparison.py:1261-1276 | no names is NoVolumes; success exactly when every name has three parts; otherwise the first bad name is reported; on success the index records exactly the parsed volumes, with distinct models and counters at 0 |
| Volumes.Bump | SegmentationComparison/SegmentationComparison.py:1398 | the model's counter of the scan rises by one; every other counter, model and scan is unchanged |
| Volumes.BumpPair | SegmentationComparison/SegmentationComparison.py:1392-1398 | a judgement raises both models' counters of the scan by one, leaves every other counter, model and scan as it was, and keeps the index well formed |
| Ratings.IndexOf | SegmentationComparison/SegmentationComparison.py:1384-1385 | the index of the first row holding the model |
| Ratings.Rerate | SegmentationComparison/SegmentationComparison.py:1377-1387 | the rating update keeps every row's model name in place |
| Ratings.MarkPlayed | SegmentationComparison/SegmentationComparison.py:1394-1397 | counting a game keeps every row's model name in place |
| Ratings.ApplyResult | SegmentationComparison/SegmentationComparison.py:1373-1398 | recording a judgement keeps every row's model name in place |
| Ratings.ApplyResultRows | SegmentationComparison/SegmentationComparison.py:1373-1398 | after a judgement, each model of the pair has its new rating, one more game and its own clock reading; every other row is unchanged |
| Ratings.RerateConservesTotal | SegmentationComparison/SegmentationComparison.py:1377-1387 | the rating update keeps the total of all ratings |
| Ratings.MarkPlayedKeepsTotal | SegmentationComparison/SegmentationComparison.py:1394-1397 | counting a game keeps the total of all ratings |
| Ratings.ApplyResultConservesTotal | SegmentationComparison/SegmentationComparison.py:1373-1398 | a whole judgement keeps the total of all ratings |
| Ratings.Snapshot | SegmentationComparison/SegmentationComparison.py:1412-1417 | one rating per model, in the models' order, each taken from that model's row |
| Ratings.EloColumn | SegmentationComparison/SegmentationComparison.py:1412-1417 | the loop that fills the Elo-history row computes that snapshot |
| Ratings.LeastPlayedIndex | SegmentationComparison/SegmentationComparison.py:1430-1440 | corrected selection: a row with the fewest games that no row is due before (never-played first, then earliest played); among equally due rows, the first |
| Ratings.MinGames | SegmentationComparison/SegmentationComparison.py:1430 | the fewest games of any row, reached by some row |
| Ratings.RowsWithGames | SegmentationComparison/SegmentationComparison.py:1430 | exactly the rows with that many games, in increasing order |
| Ratings.EarliestTime | SegmentationComparison/SegmentationComparison.py:1438-1439 | the earliest timestamp among the given rows, never-played rows skipped; none when none of them was played |
| Ratings.FirstPlayedAt | SegmentationComparison/SegmentationComparison.py:1439 | the first row of the whole table with the given timestamp, or none |
| Ratings.LeastPlayedAsWritten | SegmentationComparison/SegmentationComparison.py:1428-1440 | the selection as written: a model it picks is in the table; it fails (the IndexError) exactly when several rows have the fewest games and none of them was ever played |
| Ratings.LeastPlayedSingleMinimum | SegmentationComparison/SegmentationComparison.py:1432-1435 | when one row has the fewest games, the selection as written and the corrected one both pick it |
| Ratings.LeastPlayedTieExample | SegmentationComparison/SegmentationComparison.py:1436-1440 | A with 2 games, B and C with 1, B played before C: both selections pick B |
| Ratings.FirstJudgementOnFreshTable | SegmentationComparison/SegmentationComparison.py:1389-1398 | after the first judgement, A against B on a fresh four-model table, A and B have one game each and C and D are untouched |
| Ratings.LeastPlayedAsWrittenFailsWhenNeverPlayedTie | SegmentationComparison/SegmentationComparison.py:1436-1440 | on the second pairing of that session, the selection as written matches no row; the corrected one picks C |
| Ratings.LeastPlayedMixedTie | SegmentationComparison/SegmentationComparison.py:1436-1440 | A and B with one game each, A played at time 5 and B never: the selection as written picks A (the minimum skips NaT), the corrected one picks B |
| Ratings.LeastPlayedAsWrittenPicksBusierModel | SegmentationComparison/SegmentationComparison.py:1436-1440 | when a busier model shares the least-played model's timestamp, the selection as written picks the busier one (A) and the corrected one picks B |
| SurveyCsv.Decode | SegmentationComparison/SegmentationComparison.py:1120-1152 | a checked CSV file becomes the rating table row for row |
| SurveyCsv.FindMissingColumns | SegmentationComparison/SegmentationComparison.py:1128-1131 | exactly the required columns the header lacks, each once |
| SurveyCsv.FindNullColumns | SegmentationComparison/SegmentationComparison.py:1143-1148 | "Elo" is listed exactly when Elo has an empty cell, and "GamesPlayed" likewise; no other column is listed |
| SurveyCsv.NamesMatchAt | SegmentationComparison/SegmentationComparison.py:1137-1139 | true exactly when the set of ModelName cells is the set of loaded models (an empty cell matches none) |
| SurveyCsv.ValidateCsvAsWritten | SegmentationComparison/SegmentationComparison.py:1120-1152 | each error in the loader's order (empty, missing columns, name mismatch, empty Elo or GamesPlayed cells); success exactly when every check passes, giving the decoded table |
| SurveyCsv.ValidateCsv | SegmentationComparison/SegmentationComparison.py:1120-1152 | the same checks, plus a rejection of duplicate model rows; a table accepted has one row per loaded model and no other |
| SurveyCsv.DecodeHasModels | SegmentationComparison/SegmentationComparison.py:1137-1139 | a table that passes the checks holds exactly the loaded models |
| SurveyCsv.DuplicateModelNamesAccepted | SegmentationComparison/SegmentationComparison.py:1137-1139 | a file with two rows for model A passes every check of the loader |
| SurveyCsv.DefaultTable | SegmentationComparison/SegmentationComparison.py:1154-1163 | the fresh table: one row per model, in order, at rating 1000, no games, never played |
| SurveyCsv.DefaultTableHoldsModels | SegmentationComparison/SegmentationComparison.py:1154-1163 | for distinct models, the fresh table holds each model exactly once and nothing else |
| SurveyCsv.LoadSurveyTable | SegmentationComparison/SegmentationComparison.py:1118-1166 | without a file, the fresh table; with one, success exactly when it passes the loader's checks and has no duplicate model rows; on success, one row per loaded model and no other |
| History.RecordFor | SegmentationComparison/SegmentationComparison.py:1769-1780 | the row written is a judgement numbered one past the existing rows; its two scores add up to 1 |
| History.RecordForReadsBack | SegmentationComparison/SegmentationComparison.py:1774-1780 | the row's two volume names read back as the pair judged |
| History.RecordForKeepsNumbering | SegmentationComparison/SegmentationComparison.py:1771-1777 | appending the row keeps every judgement row numbered by its 1-based position |
| History.NameCell | SegmentationComparison/SegmentationComparison.py:1548-1549 | a volume-name cell reads as "" exactly when it is past the table, in an empty row, or empty |
| History.RecordForNameCells | SegmentationComparison/SegmentationComparison.py:1774-1779 | the two volume-name cells of a row appended by RecordFor read back as the left and right volume names of the pair judged |
| History.RemoveRow | SegmentationComparison/SegmentationComparison.py:952 | removing an existing row shortens the table by one, keeps the rows before it and shifts the rows after it down by one; removing a row past the end changes nothing |
| History.TrimForSaveAsWrittenKeepsEmptyRow | SegmentationComparison/SegmentationComparison.py:950-952 | as written, the clean-up keeps a trailing empty row |
| History.TrimForSaveAsWritten | SegmentationComparison/SegmentationComparison.py:950-952 | as written, the clean-up returns every table unchanged |
| History.TrimForSave | SegmentationComparison/SegmentationComparison.py:950-952 | corrected clean-up: keeps a prefix, removes at most one row, changes the table exactly when the last row's two volume names are empty, and drops a trailing empty row |
| History.TrimForSaveRemovesEmptyRow | SegmentationComparison/SegmentationComparison.py:950-952 | the corrected clean-up drops the trailing empty row that the as-written one keeps |
| History.PairFromSurveyTable | SegmentationComparison/SegmentationComparison.py:1545-1555 | the row read is one past the table, so no pair is ever read back |
| Matchmaking.LeastUsedExists | SegmentationComparison/SegmentationComparison.py:1463 | every non-empty usage map has a least-used scan |
| Matchmaking.LeastUsedScan | SegmentationComparison/SegmentationComparison.py:1461-1463 | the minimum of the shuffled (scan, count) entries: a scan with the fewest uses, and its count |
| Matchmaking.ChooseScan | SegmentationComparison/SegmentationComparison.py:1457-1465 | the scan has the fewest uses among all scans of both models; on a tie between the two models, a least-used scan of the left model |
| Matchmaking.EloDiffs | SegmentationComparison/SegmentationComparison.py:1443-1444 | one difference per row, the absolute difference of that row's rating to the least-played model's; zero exactly when the ratings are equal |
| Matchmaking.ChooseNextPair | SegmentationComparison/SegmentationComparison.py:1419-1466 | two different models of the table. Outside the first random pairing of a fresh session, the left model is the least-played one by the corrected selection `Ratings.LeastPlayedIndex`, and when any rating differs from its rating the right model's rating differs too. The scan is least used |
| Session.RerateCopy | SegmentationComparison/SegmentationComparison.py:1373-1387 | the two Elo cells written are the rating update of the pair |
| Session.CountGame | SegmentationComparison/SegmentationComparison.py:1393-1398 | one pass of the counting loop: fails exactly when the model has no such scan; otherwise one more game, the clock reading, and one more use of the scan |
| Session.ApplyJudgement | SegmentationComparison/SegmentationComparison.py:1373-1401 | the judgement succeeds exactly when the scan belongs to both models; the new table is the rating update plus both games counted, and the new usage has both counters raised |
| Session.JudgementKeepsConsistent | SegmentationComparison/SegmentationComparison.py:1389-1401 | the new table and usage after a judgement still satisfy the session invariant |
| Session.RecordJudgement | SegmentationComparison/SegmentationComparison.py:1373-1417 | the whole judgement worked out before anything is written back: the new table, the new usage, the invariant, and the Elo-history row of every model's new rating |
| Session.SegmentationComparisonLogic.constructor | SegmentationComparison/SegmentationComparison.py:1015-1023 | a session count of 0 (`__init__`), the usage map of a well-formed scan index as `setScansAndModelsDict` stores it (line 1315), and no pair. The fresh table is a stand-in until LoadSurveyTable. The session is valid |
| Session.SegmentationComparisonLogic.LoadSurveyTable | SegmentationComparison/SegmentationComparison.py:1118-1166 | the table comes from the CSV file checked by the corrected loader, or is fresh; a refused file leaves everything unchanged; the invariant is kept |
| Session.SegmentationComparisonLogic.UpdateNextPair | SegmentationComparison/SegmentationComparison.py:1419-1466 | sets a pair with the properties of ChooseNextPair, with the corrected least-played selection, and changes nothing else |
| Session.SegmentationComparisonLogic.UpdateComparisonData | SegmentationComparison/SegmentationComparison.py:1368-1417 | succeeds exactly when there is a pair whose scan belongs to both models. The table becomes the judgement's table, both usage counters rise, and an Elo-history row of the new ratings is appended. Otherwise nothing changes. The invariant is kept |
| Session.SegmentationComparisonLogic.AddRecordInTable | SegmentationComparison/SegmentationComparison.py:1769-1780 | the history gets exactly one more row: the row of the pair on display, or an empty row when there is no pair |
| Session.SegmentationComparisonLogic.Commit | SegmentationComparison/SegmentationComparison.py:1400-1417 | the judgement's table and usage are written back, and its Elo-history row is appended; nothing else changes; the invariant holds |
| Session.SegmentationComparisonLogic.TotalComparisonCount | SegmentationComparison/SegmentationComparison.py:1534-1543 | the number of rows of the comparison history |
| Session.SegmentationComparisonLogic.PairFromSurveyTable | SegmentationComparison/SegmentationComparison.py:1545-1555 | always "no pair" |
| Session.SegmentationComparisonLogic.TrimResultsForSave | SegmentationComparison/SegmentationComparison.py:950-952 | the history becomes its corrected clean-up; nothing else changes |

## Left out

- The user interface and the rendering: Qt widgets, sliders, cameras, display nodes, and loading the image volumes.
- Volume files and directories: the input of `Volumes.BuildScanIndex` is the list of file base names. The glob pattern and the per-scan index JSON files are not modelled.
- Persistence: the model keeps values in fields. It does not model the JSON encoding in the parameter node, `pd.read_csv` of a malformed file, writing the CSV files, or the string form of history cells.
- `pd.to_datetime` of the TimeLastPlayed column: a CSV time is already an optional integer.
- Floating point: ratings, scores and weights are exact reals.
- `10 ** x` and `math.exp`: the model knows only that each is positive, maps `-x` to the reciprocal of `x`, and is strictly increasing.
- The probability laws of `random.sample`, `random.choices`, `rng.integers` and the scan shuffle: only the set of possible outcomes is specified.
- The retry loop (SegmentationComparison/SegmentationComparison.py:1447-1450) is modelled by its outcome, any model other than the left one. The number of draws is not modelled.
- Matchmaking.ChooseNextPair: requires at least two models. With fewer, the source raises in `random.sample` or never leaves the retry loop; neither is modelled.
- Matchmaking.ChooseNextPair: picks the left model with the corrected `Ratings.LeastPlayedIndex`, not the query of lines 1436-1440. The IndexError on a tie of never-played models is not raised, and the busier model the whole-table query can match is not picked. On a tie between played and never-played rows, the source's `min` skips NaT and picks the earliest-played row; the model picks a never-played row instead (`Ratings.LeastPlayedMixedTie`). `Ratings.LeastPlayedAsWritten` models the query as written.
- Session.SegmentationComparisonLogic.UpdateNextPair: goes through `Matchmaking.ChooseNextPair`, so it also uses the corrected selection: it never raises that IndexError, and on a tie between played and never-played rows it picks a never-played row where the source picks the earliest-played one.
- Matchmaking.LeastUsedScan: models `random.sample` over the scan dictionary's items (lines 1461-1463) as Python before 3.11 runs it, where the items are turned into a tuple and shuffled. From Python 3.11 on, `random.sample` rejects a dictionary view with TypeError; that failure is not modelled.
- Session.SegmentationComparisonLogic.TrimResultsForSave: uses the corrected `History.TrimForSave`. The source's guard never removes a row; `History.TrimForSaveAsWritten` models that.
- SurveyCsv.LoadSurveyTable: uses the corrected `SurveyCsv.ValidateCsv`, which refuses a file with two rows for one model. The source accepts such a file; `SurveyCsv.ValidateCsvAsWritten` models that.
- Session.SegmentationComparisonLogic.LoadSurveyTable: goes through `SurveyCsv.LoadSurveyTable`, so it refuses duplicate model rows that the source accepts.
- Session.SegmentationComparisonLogic.UpdateComparisonData: the score range check only logs in the source, and the log message is not modelled. The `None` pair and the missing scan, which raise in the source, are the `false` result; a lookup of a model missing from the table cannot happen, because of the invariant.
- Session.SegmentationComparisonLogic.AddRecordInTable: an empty row is appended when there is no pair, because the row is added before the lookup fails. The exception itself is the `false` result.
- `getTotalComparisonCount` is the number of history rows, read as `TotalComparisonCount()`. The branch for a missing history table (which returns 0) is not modelled, because the session always holds one.
- `calculateScaledScore` and `calculateActualScores` are not called on the path the core uses (the score comes from the button), so they are not modelled.
- `sessionComparisonCount` is raised by the widget (`changeScene`), not by the logic. The model keeps it as a field, and no logic method changes it.
- Reading a cell past the last row, and removing a row past the last one, follow the host table's behaviour (`""`, and nothing removed). The host table is not part of this model.

## Findings

| source | as written | input that shows it | evidently intended | confidence | as-written member | corrected member |
|---|---|---|---|---|---|---|
| SegmentationComparison/SegmentationComparison.py:1436-1440 | a tie among least-played models is broken by a query `TimeLastPlayed == min` of the tied rows; when none of them was ever played, the minimum is NaT, which equals nothing, and `.iloc[0]` raises IndexError | a fresh session of four models A, B, C, D after the first judgement, A against B: C and D tie on zero games and were never played | a never-played model counts as played earliest, and the first of the tied rows is picked | medium, not executed | Ratings.LeastPlayedAsWrittenFailsWhenNeverPlayedTie | Ratings.LeastPlayedIndex |
| SegmentationComparison/SegmentationComparison.py:1439 | the timestamp query searches the whole table, not only the tied rows | A with 2 games last played at time 5, B with 1 game at time 5, C with 1 game at time 7: A is picked | the least recently played row among the rows with the fewest games (B) | medium, not executed | Ratings.LeastPlayedAsWrittenPicksBusierModel | Ratings.LeastPlayedIndex |
| SegmentationComparison/SegmentationComparison.py:1137-1139 | model names are compared as sets, so a CSV file with two rows for one model is accepted; each later lookup updates only the first of those rows | rows A, A, B for the loaded models A and B | each loaded model has exactly one row | low, not executed | SurveyCsv.DuplicateModelNamesAccepted | SurveyCsv.ValidateCsv |
| SegmentationComparison/SegmentationComparison.py:950-952 | the guard reads row index "row count", one past the last row, in columns 2 and 4 (the score columns), so the trailing empty row is never removed | a history of one judgement followed by an empty row | test the last row (row count - 1) in the volume-name columns 1 and 3 | medium, not executed | History.TrimForSaveAsWrittenKeepsEmptyRow | History.TrimForSaveRemovesEmptyRow |
