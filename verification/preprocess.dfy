/** The viewer data set of `preprocess_data.py`: every play of the 2023 input
    files, its players with their frames in frame order. A play whose required
    numeric fields are missing is skipped and the others are kept. */
module Preprocess {
  import opened Basics
  import opened Tracking

  /** One frame for the viewer; a missing speed or direction becomes 0. */
  datatype Motion = Motion(f: int, x: real, y: real, s: real, d: real)

  function MotionOf(r: InputRow): Motion {
    Motion(r.frameId, r.x, r.y, r.s.GetOr(0.0), r.dir.GetOr(0.0))
  }

  function MotionNumber(m: Motion): int { m.f }

  datatype Player = Player(
    nflId: int, name: string, position: string, side: string, role: string,
    frames: seq<Motion>)

  /** `numFrames` is the play's `num_frames_output` column. */
  datatype Play = Play(
    gameId: int, playId: int, direction: string, yardline: int,
    ballLandX: Option<real>, ballLandY: Option<real>,
    numFrames: int, players: seq<Player>)

  function PlayKeyOf(p: Play): PlayKey { PlayKey(p.gameId, p.playId) }

  function PlayerIdOf(p: Player): int { p.nflId }

  /** A player's frames in frame order. */
  function MotionsOf(rows: seq<InputRow>, id: int): (fs: seq<Motion>)
    ensures |fs| == |PlayerRows(rows, id)|
    ensures SortedBy(fs, MotionNumber)
    ensures multiset(fs) == multiset(Map(PlayerRows(rows, id), MotionOf))
  {
    var sorted := SortBy(PlayerRows(rows, id), FrameOf);
    MapSortBy(PlayerRows(rows, id), FrameOf, MotionOf);
    assert |sorted| == |PlayerRows(rows, id)| by {
      assert |multiset(sorted)| == |multiset(PlayerRows(rows, id))|;
    }
    Map(sorted, MotionOf)
  }

  /** One player of a play: descriptive fields from their earliest row, then
      one frame per row in frame order. */
  function ProcessPlayer(rows: seq<InputRow>, id: int): (p: Player)
    requires |PlayerRows(rows, id)| > 0
    ensures p.nflId == id
    ensures exists r :: (r in PlayerRows(rows, id) &&
      p.name == r.name && p.position == r.position && p.side == r.side && p.role == r.role &&
      forall q :: q in PlayerRows(rows, id) ==> r.frameId <= q.frameId)
    ensures |p.frames| == |PlayerRows(rows, id)|
    ensures SortedBy(p.frames, MotionNumber)
    ensures multiset(p.frames) == multiset(Map(PlayerRows(rows, id), MotionOf))
  {
    var first := FirstPlayerRow(rows, id);
    Player(id, first.name, first.position, first.side, first.role, MotionsOf(rows, id))
  }

  /** The players of a play, one per distinct player id in ascending id order. */
  function ProcessPlayers(rows: seq<InputRow>): (ps: seq<Player>)
    ensures Increasing(Map(ps, PlayerIdOf))
    ensures forall id :: id in Map(ps, PlayerIdOf) <==> id in Map(rows, NflIdOfRow)
    ensures forall i :: 0 <= i < |ps| ==>
      && |PlayerRows(rows, ps[i].nflId)| > 0
      && ps[i] == ProcessPlayer(rows, ps[i].nflId)
  {
    var ids := PlayerIds(rows);
    PlayerIdsHaveRows(rows);
    var ps := seq(|ids|, i requires 0 <= i < |ids| => ProcessPlayer(rows, ids[i]));
    assert Map(ps, PlayerIdOf) == ids;
    ps
  }

  /** `process_play` raises, and its caller skips the play, when the rows are
      empty or the first row lacks the yard line or the output frame count
      (`int` of a missing value). */
  predicate Unprocessable(rows: seq<InputRow>) {
    |rows| == 0 || rows[0].yardline.None? || rows[0].numFramesOutput.None?
  }

  /** `process_play`: the play-level fields come from the first row. */
  function ProcessPlay(rows: seq<InputRow>): (r: Option<Play>)
    ensures r.None? <==> Unprocessable(rows)
    ensures r.Some? ==>
      && r.value.gameId == rows[0].game && r.value.playId == rows[0].play
      && r.value.direction == rows[0].direction
      && r.value.yardline == rows[0].yardline.value
      && r.value.numFrames == rows[0].numFramesOutput.value
      && r.value.ballLandX == rows[0].ballLandX && r.value.ballLandY == rows[0].ballLandY
  {
    if Unprocessable(rows) then None
    else
      var first := rows[0];
      Some(Play(first.game, first.play, first.direction, first.yardline.value,
                first.ballLandX, first.ballLandY, first.numFramesOutput.value,
                ProcessPlayers(rows)))
  }

  /** A processed play has every frame of its rows: one frame per row, each
      player's frames in frame order. */
  lemma ProcessPlayFrames(rows: seq<InputRow>)
    requires !Unprocessable(rows)
    ensures var p := ProcessPlay(rows).value;
      && Increasing(Map(p.players, PlayerIdOf))
      && (forall id :: id in Map(p.players, PlayerIdOf) <==> id in Map(rows, NflIdOfRow))
      && forall i :: 0 <= i < |p.players| ==>
        && |p.players[i].frames| == |PlayerRows(rows, p.players[i].nflId)|
        && SortedBy(p.players[i].frames, MotionNumber)
        && multiset(p.players[i].frames) == multiset(Map(PlayerRows(rows, p.players[i].nflId), MotionOf))
  {
    var ps := ProcessPlayers(rows);
    assert ProcessPlay(rows).value.players == ps;
  }

  /** The number of frames over all players. */
  function FrameTotal(ps: seq<Player>): nat {
    if |ps| == 0 then 0 else |ps[0].frames| + FrameTotal(ps[1..])
  }

  lemma {:induction false} FrameTotalGroups(rows: seq<InputRow>, ps: seq<Player>)
    requires forall i :: 0 <= i < |ps| ==> |ps[i].frames| == |PlayerRows(rows, ps[i].nflId)|
    ensures FrameTotal(ps) == GroupTotal(rows, NflIdOfRow, Map(ps, PlayerIdOf))
  {
    if |ps| > 0 {
      FrameTotalGroups(rows, ps[1..]);
      assert Map(ps, PlayerIdOf)[1..] == Map(ps[1..], PlayerIdOf);
    }
  }

  /** No row is lost or duplicated: the players' frames of a processed play
      number exactly its rows. */
  lemma ProcessPlayKeepsEveryRow(rows: seq<InputRow>)
    requires !Unprocessable(rows)
    ensures FrameTotal(ProcessPlay(rows).value.players) == |rows|
  {
    var ps := ProcessPlayers(rows);
    assert ProcessPlay(rows).value.players == ps;
    var ids := Map(ps, PlayerIdOf);
    FrameTotalGroups(rows, ps);
    forall i | 0 <= i < |rows|
      ensures NflIdOfRow(rows[i]) in ids
    {
      assert Map(rows, NflIdOfRow)[i] == NflIdOfRow(rows[i]);
    }
    GroupTotalAll(rows, NflIdOfRow, ids);
  }

  /** The play built from the rows of key `k` carries that key. */
  lemma ProcessPlayKey(inRows: seq<InputRow>, k: PlayKey)
    ensures ProcessPlay(PlayRows(inRows, k)).Some? ==>
      PlayKeyOf(ProcessPlay(PlayRows(inRows, k)).value) == k
  {
    var g := PlayRows(inRows, k);
    if |g| > 0 {
      assert KeyOf(g[0]) == k;
    }
  }

  /** `process_play` on the rows of one key. */
  function PlayOfKey(inRows: seq<InputRow>): PlayKey -> Option<Play> {
    (k: PlayKey) => ProcessPlay(PlayRows(inRows, k))
  }

  /** One week: every play of the input rows in (game, play) order, skipping
      the plays that cannot be processed. */
  function ProcessWeek(inRows: seq<InputRow>): seq<Play> {
    FilterMap(PlayKeys(inRows), PlayOfKey(inRows))
  }

  /** Every play `PlayOfKey` yields carries the key it was asked for. */
  lemma PlayOfKeyKeys(inRows: seq<InputRow>)
    ensures forall k :: PlayOfKey(inRows)(k).Some? ==> PlayKeyOf(PlayOfKey(inRows)(k).value) == k
  {
    forall k | PlayOfKey(inRows)(k).Some?
      ensures PlayKeyOf(PlayOfKey(inRows)(k).value) == k
    {
      ProcessPlayKey(inRows, k);
    }
  }

  /** Skipping plays keeps the order of the keys: ascending keys give plays in
      strictly ascending key order when every play carries its own key. */
  lemma {:induction false} SkippingKeepsOrder(keys: seq<PlayKey>, f: PlayKey -> Option<Play>)
    requires KeysIncreasing(keys)
    requires forall k :: f(k).Some? ==> PlayKeyOf(f(k).value) == k
    ensures KeysIncreasing(Map(FilterMap(keys, f), PlayKeyOf))
  {
    if |keys| > 0 {
      SkippingKeepsOrder(keys[1..], f);
      var rest := FilterMap(keys[1..], f);
      var rk := Map(rest, PlayKeyOf);
      forall i | 0 <= i < |rest|
        ensures Before(keys[0], rk[i])
      {
        var j :| 0 <= j < |keys[1..]| && f(keys[1..][j]) == Some(rest[i]);
        assert keys[1..][j] == keys[j + 1];
      }
      if f(keys[0]).Some? {
        var ks := Map([f(keys[0]).value] + rest, PlayKeyOf);
        assert ks[0] == keys[0];
        assert forall i :: 1 <= i < |ks| ==> ks[i] == rk[i - 1];
      }
    }
  }

  /** Skipping drops exactly the keys that yield nothing. */
  lemma SkippingKeepsPresent(keys: seq<PlayKey>, f: PlayKey -> Option<Play>)
    requires forall k :: f(k).Some? ==> PlayKeyOf(f(k).value) == k
    ensures forall k :: k in keys ==> (k in Map(FilterMap(keys, f), PlayKeyOf) <==> f(k).Some?)
  {
    var plays := FilterMap(keys, f);
    forall k | k in keys
      ensures k in Map(plays, PlayKeyOf) <==> f(k).Some?
    {
      var j :| 0 <= j < |keys| && keys[j] == k;
      if f(k).Some? {
        var i :| 0 <= i < |plays| && plays[i] == f(keys[j]).value;
        assert Map(plays, PlayKeyOf)[i] == k;
      }
      if k in Map(plays, PlayKeyOf) {
        var i :| 0 <= i < |plays| && PlayKeyOf(plays[i]) == k;
        var j' :| 0 <= j' < |keys| && f(keys[j']) == Some(plays[i]);
      }
    }
  }

  /** A week's plays are in strictly ascending (game, play) order, and a key of
      the input is absent from them exactly when its play cannot be processed. */
  lemma ProcessWeekPlays(inRows: seq<InputRow>)
    ensures KeysIncreasing(Map(ProcessWeek(inRows), PlayKeyOf))
    ensures forall k :: k in Map(inRows, KeyOf) ==>
      (k in Map(ProcessWeek(inRows), PlayKeyOf) <==> !Unprocessable(PlayRows(inRows, k)))
  {
    var keys := PlayKeys(inRows);
    var f := PlayOfKey(inRows);
    PlayOfKeyKeys(inRows);
    SkippingKeepsOrder(keys, f);
    SkippingKeepsPresent(keys, f);
    assert forall k :: f(k).Some? <==> !Unprocessable(PlayRows(inRows, k));
  }

  /** `main`: the weeks in order, each one's plays in key order; a week whose
      input file is missing (`None`) contributes nothing. */
  function ProcessWeeks(weeks: seq<Option<seq<InputRow>>>): (plays: seq<Play>)
    ensures forall p :: p in plays <==>
      exists w :: 0 <= w < |weeks| && weeks[w].Some? && p in ProcessWeek(weeks[w].value)
  {
    ConcatMap(weeks, WeekPlays)
  }

  /** One week's contribution: its plays, or none without an input file. */
  function WeekPlays(week: Option<seq<InputRow>>): seq<Play> {
    if week.Some? then ProcessWeek(week.value) else []
  }

  /** The weeks' plays are concatenated in week order: the plays of `a + b`
      are those of `a` followed by those of `b`; one week with an input file
      contributes its plays in key order, and one without contributes none. */
  lemma {:induction false} ProcessWeeksAppend(a: seq<Option<seq<InputRow>>>, b: seq<Option<seq<InputRow>>>)
    ensures ProcessWeeks(a + b) == ProcessWeeks(a) + ProcessWeeks(b)
    ensures |a| == 1 && a[0].Some? ==> ProcessWeeks(a) == ProcessWeek(a[0].value)
    ensures |a| == 1 && a[0].None? ==> ProcessWeeks(a) == []
  {
    ConcatMapAppend(a, b, WeekPlays);
  }
}
