# Mirror Match data preparation, modelled in Dafny

Mirror Match is a browser viewer for NFL tracking data. Its offline scripts
turn tracking rows and nflverse play-by-play rows into the JSON play records
and tendency tables the viewer loads. This project models those scripts as
pure functions over sequences of immutable records and proves what each
script promises about its output.

Modules follow the scripts:

- `Basics`: the shared vocabulary.
  - `Option`, for a value that may be missing (NaN in a CSV).
  - Counting, filtering and mapping.
  - `FilterMap`, the skip-on-error loop.
  - A stable insertion sort `SortBy`, standing for `sort_values`.
  - `DistinctSorted` and `KeyRows`, standing for `groupby` on an integer key.
  - `Quotient`, an exact rate kept as numerator and denominator.
- `Tracking`: the rows of the 2026 Big Data Bowl input and output files, and
  their grouping by `(game_id, play_id)` and by `nfl_id`.
- `PlayByPlay`: an nflverse play-by-play row.
- `PlaysWithFilters` (`build_plays_with_filters.py`):
  - the field zone;
  - merging each player's input and output frames;
  - frame totals;
  - play-by-play metadata and its defaults;
  - the per-offense tendencies.
- `Tendencies` (`build_tendencies.py`): the pass/run summary, and the
  down, distance and formation buckets of the KC and PHI reports.
- `Preprocess` (`preprocess_data.py`): `process_play` and the weekly loop
  that skips plays whose processing raises.
- `Compact` (`create_compact_data.py`): the first 100 plays with at least
  10 frames, each frame projected to `f`, `x`, `y`.
- `Preprocess2017` (`preprocess_2017.py`): one 2017 game's plays. It covers
  the split between ball and player rows, the count of distinct frames, the
  possession flag and the defaults.

Rates are exact: a rate is a `Quotient(num, den)`, and every property about
a rate is stated before rounding. The one rounding that affects a later
decision is modelled: a play's stored metrics are rounded to one decimal,
which decides the truthiness test behind the coverage average. A Python
exception is modelled where it changes the output:

- The only `try` in `build_play_data` guards the lookup of a play's output
  rows and catches only `KeyError` and `AttributeError`. So the `ValueError`
  that `int()` raises on a missing yard line aborts the whole build, and its
  model returns `None`.
- `preprocess_data.py` catches the exception and skips the play.
- `preprocess_2017.py` raises when the games table has no row for the game.

## Model

| member | source | states |
|---|---|---|
| Basics.FilterMap | mirror-match/scripts/preprocess_data.py:87-93 | every result of the skip-on-error loop comes from some input, every success appears, and the output is no longer than the input |
| Basics.FilterMapAppend | mirror-match/scripts/preprocess_data.py:87-90 | the loop appends per input in order: the results of `a + b` are those of `a` then those of `b`, and one input yields its value on success and nothing on failure, which fixes order and multiplicity |
| Basics.ConcatMap | mirror-match/scripts/preprocess_data.py:79-90 | an item is in the concatenation exactly when some part contributes it |
| Basics.ConcatMapAppend | mirror-match/scripts/preprocess_data.py:79-90 | the concatenation of `a + b` is that of `a` followed by that of `b`, and one part contributes exactly its own items |
| Basics.SortBy | mirror-match/scripts/preprocess_data.py:38 | sorting by frame gives a sequence in key order that is a permutation of its input |
| Basics.FirstBy | mirror-match/scripts/preprocess_data.py:39 | the first row after sorting is a row of the group with the smallest key |
| Basics.DistinctSorted | mirror-match/scripts/preprocess_data.py:37 | groupby visits each distinct key once, in strictly ascending order, and no other key |
| Basics.GroupTotalAll | mirror-match/scripts/preprocess_data.py:37 | the groups of a groupby partition the rows: their sizes add up to the number of rows |
| Basics.IncreasingCard | mirror-match/scripts/preprocess_2017.py:44 | a strictly ascending sequence of frame ids is as long as the set of its values |
| Tracking.SortedKeys | mirror-match/scripts/build_plays_with_filters.py:122 | the (game, play) groups are visited in strictly ascending key order, once per key present |
| Tracking.FirstPlayerRow | mirror-match/scripts/preprocess_data.py:38-39 | a player's descriptive row is one of their rows, with the earliest frame |
| Tracking.PlayerIdsHaveRows | mirror-match/scripts/preprocess_data.py:37 | every player group is non-empty |
| Tracking.PlayKeysHaveRows | mirror-match/scripts/preprocess_data.py:85-87 | every play group is non-empty |
| PlaysWithFilters.FieldZone | mirror-match/scripts/build_plays_with_filters.py:106-115 | total four-way split: unknown iff no yard line, red zone iff at most 20, midfield iff 21 to 50, own territory iff above 50 |
| PlaysWithFilters.FieldZoneMonotone | mirror-match/scripts/build_plays_with_filters.py:110-115 | a yard line further up the field never gives an earlier zone, and a known yard line never gives unknown |
| PlaysWithFilters.TeamOf | mirror-match/scripts/build_plays_with_filters.py:188 | a player is away exactly when their side is Offense, home otherwise |
| PlaysWithFilters.InputFramesOf | mirror-match/scripts/build_plays_with_filters.py:157-169 | a player's input frames are in frame order, one per row, and are the player's rows with a missing speed set to 0 |
| PlaysWithFilters.OutputFramesOf | mirror-match/scripts/build_plays_with_filters.py:172-180 | a player's output frames are in frame order, one per output row, renumbered by the offset, all with speed 0 |
| PlaysWithFilters.BuildPlayer | mirror-match/scripts/build_plays_with_filters.py:156-190 | the player entry carries its id; its name, position, side and role come from its earliest row; its team follows its side |
| PlaysWithFilters.PlayerFramesMerge | mirror-match/scripts/build_plays_with_filters.py:157-180 | the frames are the input frames in frame order followed by the output frames in frame order, offset by the last input frame and with speed 0 |
| PlaysWithFilters.PlayerFramesChronological | mirror-match/scripts/build_plays_with_filters.py:171-180 | with non-negative output frame ids, the whole merged frame list is in frame order |
| PlaysWithFilters.InputFramesBounded | mirror-match/scripts/build_plays_with_filters.py:144 | no input frame of a player exceeds the play's last input frame |
| PlaysWithFilters.OutputFramesBounded | mirror-match/scripts/build_plays_with_filters.py:176 | every offset output frame comes at or after the play's last input frame |
| PlaysWithFilters.Round1 | mirror-match/scripts/build_plays_with_filters.py:209-210 | `round(v, 1)`: a multiple of 0.1 within 0.05 of `v`, and the even multiple on a tie |
| PlaysWithFilters.StoredMetric | mirror-match/scripts/build_plays_with_filters.py:209-210 | a metric is stored as missing both when it is missing and when it is exactly 0 (a falsy zero); any other value is stored as a multiple of 0.1 within 0.05 of it |
| PlaysWithFilters.StoredMetricZero | mirror-match/scripts/build_plays_with_filters.py:209 | the truthiness test runs before the rounding: a non-zero metric is stored as 0.0 exactly when it lies within 0.05 of zero, so it then drops out of the team's coverage mean |
| PlaysWithFilters.MetaOf | mirror-match/scripts/build_plays_with_filters.py:216-227 | each play-by-play field is copied when present and otherwise defaults to 0, unknown, False, UNK, 1 or the empty text as written |
| PlaysWithFilters.BuildPlay | mirror-match/scripts/build_plays_with_filters.py:197-212 | a play cannot be built exactly when its first row has no yard line |
| PlaysWithFilters.BuildPlayHeader | mirror-match/scripts/build_plays_with_filters.py:197-212 | play-level fields come from the first input row; the zone of a built play is never unknown |
| PlaysWithFilters.BuildPlayFrameCounts | mirror-match/scripts/build_plays_with_filters.py:193-206 | numInputFrames is the largest input frame; numOutputFrames is the largest output frame, or 0 without output rows; numFrames is their sum |
| PlaysWithFilters.OutputMaxBounds | mirror-match/scripts/build_plays_with_filters.py:193 | the largest output frame bounds every output row of the play |
| PlaysWithFilters.BuildPlayPlayers | mirror-match/scripts/build_plays_with_filters.py:155-190 | a play's players are built with its own output rows and its last input frame as offset |
| PlaysWithFilters.BuildPlayMeta | mirror-match/scripts/build_plays_with_filters.py:214-227 | metadata is present exactly when a play-by-play row has the play's key, and then comes from the first such row |
| PlaysWithFilters.PbpRowsPresent | mirror-match/scripts/build_plays_with_filters.py:134 | the lookup finds rows exactly when some row carries the play's key |
| PlaysWithFilters.BuildPlayers | mirror-match/scripts/build_plays_with_filters.py:156 | one player per distinct input player id, in ascending id order, and no other player |
| PlaysWithFilters.PlayGroups | mirror-match/scripts/build_plays_with_filters.py:129-137 | each visited group is non-empty, single-keyed and headed by a row of its key |
| PlaysWithFilters.BuildPlayKey | mirror-match/scripts/build_plays_with_filters.py:197-199 | a built play carries the key of its group |
| PlaysWithFilters.BuildPlayData | mirror-match/scripts/build_plays_with_filters.py:129-229 | the build fails exactly when some play lacks a yard line, and otherwise yields one play per distinct key |
| PlaysWithFilters.BuildPlayDataAt | mirror-match/scripts/build_plays_with_filters.py:129-229 | the i-th play is the play built from the i-th group and carries that group's key |
| PlaysWithFilters.BuildPlayDataOrdered | mirror-match/scripts/build_plays_with_filters.py:122-129 | the plays are in strictly ascending (game, play) order, and each key of the input has exactly one play |
| PlaysWithFilters.Summarize | mirror-match/scripts/build_plays_with_filters.py:251-260 | totalPlays is the team's play count; pass and run rates are non-negative counts over it that sum to at most 1; avgCoverage averages only the truthy coverage values and is 0 without them |
| PlaysWithFilters.TeamTendencies | mirror-match/scripts/build_plays_with_filters.py:233-264 | empty input gives an empty map; a team is present exactly when it has at least 10 plays (no metadata counts as UNK), with the summary of its plays |
| Tendencies.LocationCounts | mirror-match/scripts/build_tendencies.py:31-33 | left, middle and right passes together number at most the passes |
| Tendencies.ComputeTendencies | mirror-match/scripts/build_tendencies.py:14-54 | None exactly when there is no pass and no run, so also for empty input; sampleSize is passes plus runs; pass and run rates share that denominator and sum to 1; direction shares are 0 without passes and otherwise the left, middle and right pass counts over the passes, each in [0,1] with sum at most 1; pass and run yard means are 0 without passes or runs |
| Tendencies.PassRunCover | mirror-match/scripts/build_tendencies.py:67 | on pass and run rows only, passes and runs together count every row |
| Tendencies.ShotgunRateBounded | mirror-match/scripts/build_tendencies.py:50 | on pass and run rows the summary exists, samples every row, and the shotgun rate is at most 1 |
| Tendencies.DistancePartition | mirror-match/scripts/build_tendencies.py:93-95 | short, medium and long are pairwise disjoint, and with the rows whose distance is missing or below 1 they split every set of rows |
| Tendencies.FormationDisjoint | mirror-match/scripts/build_tendencies.py:103-104 | no row is both shotgun and under center |
| Tendencies.Bucketed | mirror-match/scripts/build_tendencies.py:86-90 | a bucket's label is a key exactly when its subset has a summary, maps to that summary, and no other key occurs |
| Tendencies.Reports | mirror-match/scripts/build_tendencies.py:72-120 | the output holds a report for KC and for PHI and nothing else |
| Tendencies.ReportOfTeam | mirror-match/scripts/build_tendencies.py:72-83 | each report sits under its own team; its play count is the number of input rows of that offense that are passes or runs, and equals its passes plus its runs |
| Tendencies.BucketKeys | mirror-match/scripts/build_tendencies.py:85-109 | each down key 1 to 4 is present exactly when that down's subset has a summary and then holds it; every distance and formation key is present exactly when its subset has a summary |
| Tendencies.ThirdDownMatchesByDown | mirror-match/scripts/build_tendencies.py:111-118 | the third-down overall summary exists exactly when byDown has key 3, and equals it |
| Tendencies.ThirdDownSplits | mirror-match/scripts/build_tendencies.py:111-117 | the third-down short, medium and long entries summarize the offense's third downs with 1 to 3, 4 to 7 and at least 8 yards to go |
| Tendencies.TeamOverall | mirror-match/scripts/build_tendencies.py:76-79 | a team's overall summary exists exactly when it has plays, samples all of them, and has a shotgun rate of at most 1 |
| Preprocess.MotionsOf | mirror-match/scripts/preprocess_data.py:38-50 | a player's frames are in frame order, one per row, with missing speed and direction set to 0 |
| Preprocess.ProcessPlayer | mirror-match/scripts/preprocess_data.py:37-59 | the player entry carries its id, takes its descriptive fields from its earliest row, and has one frame per row in frame order |
| Preprocess.ProcessPlayers | mirror-match/scripts/preprocess_data.py:36-59 | one player per distinct id of the play's rows, in ascending id order, and no other |
| Preprocess.ProcessPlay | mirror-match/scripts/preprocess_data.py:30-70 | processing fails exactly on empty rows or a missing yard line or output frame count; otherwise ids, direction, yard line, numFrames and ball landing come from the first row |
| Preprocess.ProcessPlayFrames | mirror-match/scripts/preprocess_data.py:36-59 | a processed play has one player per distinct id, each with its rows' frames in frame order |
| Preprocess.FrameTotalGroups | mirror-match/scripts/preprocess_data.py:37 | the frames over all players count the rows of their groups |
| Preprocess.ProcessPlayKeepsEveryRow | mirror-match/scripts/preprocess_data.py:37-50 | no row is lost or duplicated: a processed play has exactly one frame per row |
| Preprocess.ProcessPlayKey | mirror-match/scripts/preprocess_data.py:61-63 | the play built from a group carries that group's key |
| Preprocess.PlayOfKeyKeys | mirror-match/scripts/preprocess_data.py:87-89 | every play the loop produces carries the key it was built for |
| Preprocess.SkippingKeepsOrder | mirror-match/scripts/preprocess_data.py:85-93 | skipping failed plays keeps the rest in strictly ascending key order |
| Preprocess.SkippingKeepsPresent | mirror-match/scripts/preprocess_data.py:87-93 | a key is missing from the output exactly when its play failed |
| Preprocess.ProcessWeekPlays | mirror-match/scripts/preprocess_data.py:85-93 | a week's plays are in ascending key order, and a key of the input is absent exactly when its play cannot be processed |
| Preprocess.ProcessWeeks | mirror-match/scripts/preprocess_data.py:79-93 | a play is in the output exactly when some week with an input file produced it |
| Preprocess.ProcessWeeksAppend | mirror-match/scripts/preprocess_data.py:79-90 | the output is the weeks' plays concatenated in week order: weeks `a + b` give the plays of `a` then those of `b`; one week gives its own plays in key order, or none without an input file |
| Compact.Selected | mirror-match/scripts/create_compact_data.py:16 | the selection is the first min(100, k) qualifying plays, in input order, each with at least 10 frames |
| Compact.CompactData | mirror-match/scripts/create_compact_data.py:16-25 | the output is the selection with every play compacted |
| Compact.SelectionSettles | mirror-match/scripts/create_compact_data.py:16 | once 100 plays qualify, later plays do not change the selection |
| Compact.FewPlaysAllKept | mirror-match/scripts/create_compact_data.py:16 | with fewer than 100 qualifying plays, a play is kept exactly when it has at least 10 frames |
| Compact.CompactExpand | mirror-match/scripts/create_compact_data.py:19-25 | compaction loses nothing a compact play holds: widening one and compacting it again gives it back |
| Compact.CompactKeepsPositions | mirror-match/scripts/create_compact_data.py:19-25 | ids, direction, yard line, ball landing and numFrames are unchanged; each player keeps its id, name, position, side and role; each frame list keeps its length and order, and each frame keeps f, x and y |
| Preprocess2017.PointsOf | mirror-match/scripts/preprocess_2017.py:76-82 | points are in frame order, one per row, and are the rows' frame and position |
| Preprocess2017.PositionLookup | mirror-match/scripts/preprocess_2017.py:53-54 | the position is that of the players table's first row for the player, and UNK when there is none |
| Preprocess2017.TrackPlayer | mirror-match/scripts/preprocess_2017.py:48-71 | the player carries its id and table position; name, jersey (0 when missing) and team come from its earliest row; one point per row in frame order |
| Preprocess2017.TrackedIdsHaveRows | mirror-match/scripts/preprocess_2017.py:48 | every player group is non-empty |
| Preprocess2017.TrackPlayers | mirror-match/scripts/preprocess_2017.py:47-71 | one player per distinct id among the non-ball rows, in ascending id order |
| Preprocess2017.BuildGamePlay | mirror-match/scripts/preprocess_2017.py:32-105 | a play is skipped exactly when it has no tracking rows; quarter, down, yardsToGo and yardsGained default to 0; formation, personnel, passResult and passLength default to empty, while possession and description pass a missing value through; isHomeOffense holds exactly when possession is the home team |
| Preprocess2017.NumFramesDistinct | mirror-match/scripts/preprocess_2017.py:44 | numFrames is the number of distinct frame ids over all the play's rows, ball rows included |
| Preprocess2017.GamePlayTracks | mirror-match/scripts/preprocess_2017.py:40-82 | ball points and each player's points are in frame order and are their rows; no ball row is a player row, and together they number at most the play's rows |
| Preprocess2017.BallSplit | mirror-match/scripts/preprocess_2017.py:40-41 | ball rows and non-ball rows partition a play's rows |
| Preprocess2017.PointTotalGroups | mirror-match/scripts/preprocess_2017.py:48 | the points over all players count the rows of their groups |
| Preprocess2017.GamePlayKeepsPlayerRows | mirror-match/scripts/preprocess_2017.py:48-82 | each player row becomes exactly one player point, and each ball row one ball point |
| Preprocess2017.GameInfoOf | mirror-match/scripts/preprocess_2017.py:112-119 | the header has the game's id and teams, and a missing score column gives 27 and 42 |
| Preprocess2017.Build | mirror-match/scripts/preprocess_2017.py:22-107 | the program fails exactly when the games table has no row for the game |
| Preprocess2017.BuildPlays | mirror-match/scripts/preprocess_2017.py:22-119 | the header comes from the games table's first row for the game; every entry belongs to the game and is the entry built from one of its plays; every play of the game with tracking rows has its entry |
| Preprocess2017.BuildPlaysAppend | mirror-match/scripts/preprocess_2017.py:32-107 | the entries follow the plays table's order: rows `a + b` give the entries of `a` then those of `b`, and one row gives its entry exactly when it belongs to the game and has tracking rows |

## Left out

- Reading and writing CSV and JSON, paths, `mkdir`, file sizes and progress
  prints. Inputs are in-memory sequences of rows, and outputs are values.
- `round(..., 0/1/3)` on coordinates, speeds, directions and rates. Rates
  are exact quotients, stated before rounding. The one-decimal rounding of
  the stored coverage and separation metrics is modelled by `Round1`.
- PlaysWithFilters.Round1: rounds the exact real value half to even. Python
  rounds the nearest double, so a decimal tie such as 0.35, whose double
  lies just below it, can round the other way in the source.
- `compute_coverage_tightness` and `compute_separation_at_target`: they
  compute Euclidean distances in floating point. They enter the model as
  parameters (optional reals per play). Only what the play stores of them
  is modelled: missing on a falsy value, otherwise rounded to one decimal.
- pandas' default sort is not stable, so the order of equal frame numbers
  is unspecified in the source. `SortBy` is a stable sort, and every
  contract about frames holds up to that order, through sortedness and a
  multiset equality.
- JSON key order, and keys that the source leaves out of a play object.
  Missing play-by-play metadata is `meta == None`.
- NaN handling beyond `Option`:
  - A comparison with NaN is false, and the `Option` predicates reproduce that.
  - A float cast of a number is the identity here.
  - `int()` of a non-integral float truncates in the source, while the model holds integers.
- The `filters` constant object written next to the plays and tendencies in
  `build_plays_with_filters.py`. It is static data.
- The week ranges and the missing-file checks of the loaders
  (`load_bdb_data`, `load_week_data`): `BuildPlayData` receives the already
  concatenated rows. `ProcessWeeks` takes one entry per week read (weeks 1
  to 3 in the source), and a week whose input file is missing is `None`.
- The output-tracking file (`output_2023_wNN.csv`) that `load_week_data`
  reads for each week, which `preprocess_data.py` never uses. Also left out
  is the 20-play sample file that script writes.
- The `unknown` zone is unreachable from `build_play_data`. A missing yard
  line raises in `int()` before `get_field_zone` is called. `FieldZone`
  still models the branch.
- `preprocess_2017.py` with a score column whose value is NaN. `int()`
  raises there, and the model does not include that exception.
- Tendencies.ComputeTendencies: the three yard means are given by
  `MeanYards` (pandas' `mean`, which skips missing values and reports 0 for
  none). The contract states only that the pass and run means are 0 without
  passes or runs.
- Tendencies.ShotgunRateBounded: the shotgun numerator counts every row, but
  the denominator counts only passes and runs. The rate is at most 1 only
  when every row is a pass or a run, which `main` guarantees by filtering.
- Preprocess.ProcessPlay: the contract covers the play-level fields. The
  players are covered by `ProcessPlayFrames` and `ProcessPlayKeepsEveryRow`.
- Tendencies.Report has no contract of its own. Its fields are covered by
  `ReportOfTeam`, `TeamOverall`, `BucketKeys`, `ThirdDownMatchesByDown` and
  `ThirdDownSplits`. The values of the distance and formation buckets follow
  from the general contract of `Bucketed`.
