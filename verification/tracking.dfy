/** Rows of the 2026 Big Data Bowl tracking files and the grouping of those rows
    into plays and players, as pandas' `groupby(['game_id', 'play_id'])` and
    `groupby('nfl_id')` followed by `sort_values('frame_id')` produce them. */
module Tracking {
  import opened Basics

  /** One row of an input file (snap to ball release): one player at one frame,
      carrying the play-level columns repeated on every row. */
  datatype InputRow = InputRow(
    game: int, play: int, nflId: int, frameId: int,
    x: real, y: real, s: Option<real>, dir: Option<real>,
    name: string, position: string, side: string, role: string,
    direction: string, yardline: Option<int>,
    ballLandX: Option<real>, ballLandY: Option<real>,
    numFramesOutput: Option<int>)

  /** One row of an output file (ball release to arrival); it has no speed. */
  datatype OutputRow = OutputRow(game: int, play: int, nflId: int, frameId: int, x: real, y: real)

  /** The key a play is grouped by. */
  datatype PlayKey = PlayKey(game: int, play: int)

  function KeyOf(r: InputRow): PlayKey {
    PlayKey(r.game, r.play)
  }

  /** Lexicographic order on play keys, the order `groupby` visits groups in. */
  predicate Before(a: PlayKey, b: PlayKey) {
    a.game < b.game || (a.game == b.game && a.play < b.play)
  }

  /** Keys in strictly ascending order, hence without repetitions. */
  predicate KeysIncreasing(s: seq<PlayKey>) {
    forall i, j :: 0 <= i < j < |s| ==> Before(s[i], s[j])
  }

  /** Adds `k` to the ascending `s` unless it is already there. */
  function InsertPlayKey(k: PlayKey, s: seq<PlayKey>): (r: seq<PlayKey>)
    requires KeysIncreasing(s)
    ensures KeysIncreasing(r)
    ensures forall q :: q in r <==> q == k || q in s
  {
    if |s| == 0 || Before(k, s[0]) then [k] + s
    else if k == s[0] then s
    else
      var t := InsertPlayKey(k, s[1..]);
      assert forall j :: 0 <= j < |t| ==> t[j] in t;
      [s[0]] + t
  }

  /** The distinct play keys of `keys` in ascending order. */
  function SortedKeys(keys: seq<PlayKey>): (r: seq<PlayKey>)
    ensures KeysIncreasing(r)
    ensures forall q :: q in r <==> q in keys
  {
    if |keys| == 0 then [] else InsertPlayKey(keys[0], SortedKeys(keys[1..]))
  }

  /** The plays present in `rows`, in the order `groupby` visits them. */
  function PlayKeys(rows: seq<InputRow>): seq<PlayKey> {
    SortedKeys(Map(rows, KeyOf))
  }

  /** The rows of one play, in file order. */
  function PlayRows(rows: seq<InputRow>, k: PlayKey): seq<InputRow> {
    Filter(rows, (r: InputRow) => KeyOf(r) == k)
  }

  /** The output rows of one play, in file order. */
  function PlayOutputRows(rows: seq<OutputRow>, k: PlayKey): seq<OutputRow> {
    Filter(rows, (r: OutputRow) => r.game == k.game && r.play == k.play)
  }

  /** The players present in `rows`, in the order `groupby('nfl_id')` visits them. */
  function PlayerIds(rows: seq<InputRow>): seq<int> {
    DistinctSorted(Map(rows, NflIdOfRow))
  }

  function NflIdOfRow(r: InputRow): int { r.nflId }

  /** The rows of one player, in file order. */
  function PlayerRows(rows: seq<InputRow>, id: int): seq<InputRow> {
    KeyRows(rows, NflIdOfRow, id)
  }

  /** The output rows of one player, in file order. */
  function PlayerOutputRows(rows: seq<OutputRow>, id: int): seq<OutputRow> {
    Filter(rows, (r: OutputRow) => r.nflId == id)
  }

  function FrameOf(r: InputRow): int { r.frameId }

  function OutputFrameOf(r: OutputRow): int { r.frameId }

  /** The row a player's descriptive fields come from: their first row after
      sorting by frame, which has the smallest frame number. */
  function FirstPlayerRow(rows: seq<InputRow>, id: int): (r: InputRow)
    requires |PlayerRows(rows, id)| > 0
    ensures r in PlayerRows(rows, id)
    ensures forall q :: q in PlayerRows(rows, id) ==> r.frameId <= q.frameId
  {
    FirstBy(PlayerRows(rows, id), FrameOf)
  }

  /** Every player of `PlayerIds(rows)` has at least one row. */
  lemma PlayerIdsHaveRows(rows: seq<InputRow>)
    ensures forall id :: id in PlayerIds(rows) ==> |PlayerRows(rows, id)| > 0
  {
    forall id | id in PlayerIds(rows)
      ensures |PlayerRows(rows, id)| > 0
    {
      var ids := Map(rows, NflIdOfRow);
      var i :| 0 <= i < |ids| && ids[i] == id;
      assert rows[i] in PlayerRows(rows, id);
    }
  }

  /** Every key of `PlayKeys(rows)` has at least one row. */
  lemma PlayKeysHaveRows(rows: seq<InputRow>)
    ensures forall k :: k in PlayKeys(rows) ==> |PlayRows(rows, k)| > 0
  {
    forall k | k in PlayKeys(rows)
      ensures |PlayRows(rows, k)| > 0
    {
      var keys := Map(rows, KeyOf);
      var i :| 0 <= i < |keys| && keys[i] == k;
      assert rows[i] in PlayRows(rows, k);
    }
  }
}
