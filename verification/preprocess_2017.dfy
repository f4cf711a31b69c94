/** The 2017 replay data set of `preprocess_2017.py`: one game's plays with
    the tracking of every player and of the ball, and the game's header. */
module Preprocess2017 {
  import opened Basics

  /** The one game the program reads. */
  const GameId := 2017090700

  /** The `team` value of the ball's tracking rows. */
  const BallTeam := "ball"

  /** Scores used when the games table has no score column. */
  const DefaultHomeScore := 27
  const DefaultAwayScore := 42

  /** One tracking row of the game: a player (or the ball, whose id is
      missing) at one frame. */
  datatype TrackRow = TrackRow(
    playId: int, frameId: int, nflId: Option<int>, team: string,
    x: real, y: real, displayName: string, jersey: Option<int>)

  /** One row of the plays table; the columns the program reads with a
      default are optional. */
  datatype PlayRow = PlayRow(
    gameId: int, playId: int,
    quarter: Option<int>, down: Option<int>, yardsToGo: Option<int>,
    possession: Option<string>,
    formation: Option<string>, personnel: Option<string>,
    passResult: Option<string>, passLength: Option<string>,
    playResult: Option<int>, description: Option<string>)

  /** One row of the players table. */
  datatype PlayerInfo = PlayerInfo(nflId: int, position: string)

  /** One row of the games table; a score is `None` when the table has no such
      column. */
  datatype GameRow = GameRow(
    gameId: int, home: string, away: string,
    homeScore: Option<int>, awayScore: Option<int>)

  datatype TrackedPlayer = TrackedPlayer(
    nflId: int, name: string, jersey: int, team: string, position: string,
    frames: seq<Point>)

  datatype GamePlay = GamePlay(
    gameId: int, playId: int, quarter: int, down: int, yardsToGo: int,
    possession: Option<string>,
    formation: string, personnel: string, passResult: string, passLength: string,
    yardsGained: int, description: Option<string>,
    numFrames: nat, isHomeOffense: bool,
    players: seq<TrackedPlayer>, ball: seq<Point>)

  datatype GameInfo = GameInfo(gameId: int, home: string, away: string, homeScore: int, awayScore: int)

  datatype Output = Output(game: GameInfo, plays: seq<GamePlay>)

  predicate IsBall(r: TrackRow) { r.team == BallTeam }

  /** A row that joins a player group: not the ball, and with a player id
      (pandas' `groupby` drops rows whose key is missing). */
  predicate IsTrackedPlayer(r: TrackRow) { !IsBall(r) && r.nflId.Some? }

  /** The player id of a tracked player's row. */
  function IdOf(r: TrackRow): int { r.nflId.GetOr(0) }

  function TrackFrameOf(r: TrackRow): int { r.frameId }

  function PointOfRow(r: TrackRow): Point { Point(r.frameId, r.x, r.y) }

  function PlayTracking(tracking: seq<TrackRow>, playId: int): seq<TrackRow> {
    Filter(tracking, (r: TrackRow) => r.playId == playId)
  }

  function BallRows(rows: seq<TrackRow>): seq<TrackRow> { Filter(rows, IsBall) }

  function PlayerTrack(rows: seq<TrackRow>): seq<TrackRow> { Filter(rows, IsTrackedPlayer) }

  /** The rows of one player, in file order. */
  function RowsOf(rows: seq<TrackRow>, id: int): seq<TrackRow> {
    KeyRows(PlayerTrack(rows), IdOf, id)
  }

  /** The tracked players of a play in ascending id order. */
  function TrackedIds(rows: seq<TrackRow>): seq<int> {
    DistinctSorted(Map(PlayerTrack(rows), IdOf))
  }

  /** The distinct frame numbers of a play in ascending order, ball included. */
  function FrameIds(rows: seq<TrackRow>): seq<int> {
    DistinctSorted(Map(rows, TrackFrameOf))
  }

  /** Points in frame order. */
  function PointsOf(rows: seq<TrackRow>): (ps: seq<Point>)
    ensures |ps| == |rows|
    ensures SortedBy(ps, PointFrame)
    ensures multiset(ps) == multiset(Map(rows, PointOfRow))
  {
    var sorted := SortBy(rows, TrackFrameOf);
    MapSortBy(rows, TrackFrameOf, PointOfRow);
    assert |sorted| == |rows| by {
      assert |multiset(sorted)| == |multiset(rows)|;
    }
    Map(sorted, PointOfRow)
  }

  function PointFrame(p: Point): int { p.f }

  /** The position of a player from the players table, or `UNK` when the
      table has no row for the player. */
  function PositionOf(info: seq<PlayerInfo>, id: int): string {
    if |info| == 0 then "UNK"
    else if info[0].nflId == id then info[0].position
    else PositionOf(info[1..], id)
  }

  /** The position is that of the table's first row for the player, and `UNK`
      exactly when there is no such row. */
  lemma {:induction false} PositionLookup(info: seq<PlayerInfo>, id: int)
    ensures (forall i :: 0 <= i < |info| ==> info[i].nflId != id) ==> PositionOf(info, id) == "UNK"
    ensures forall i ::
      (0 <= i < |info| && info[i].nflId == id && (forall j :: 0 <= j < i ==> info[j].nflId != id)) ==>
      PositionOf(info, id) == info[i].position
  {
    if |info| > 0 {
      PositionLookup(info[1..], id);
      forall i | 0 <= i < |info| && info[i].nflId == id && (forall j :: 0 <= j < i ==> info[j].nflId != id)
        ensures PositionOf(info, id) == info[i].position
      {
        if i > 0 {
          assert info[1..][i - 1] == info[i];
          assert forall j :: 0 <= j < i - 1 ==> info[1..][j] == info[j + 1];
        }
      }
      if forall i :: 0 <= i < |info| ==> info[i].nflId != id {
        assert forall i :: 0 <= i < |info[1..]| ==> info[1..][i] == info[i + 1];
      }
    }
  }

  /** One player: name, jersey and team from their earliest row, position from
      the players table, one point per row in frame order. */
  function TrackPlayer(rows: seq<TrackRow>, info: seq<PlayerInfo>, id: int): (p: TrackedPlayer)
    requires |RowsOf(rows, id)| > 0
    ensures p.nflId == id
    ensures p.position == PositionOf(info, id)
    ensures exists r :: (r in RowsOf(rows, id) &&
      p.name == r.displayName && p.team == r.team && p.jersey == r.jersey.GetOr(0) &&
      forall q :: q in RowsOf(rows, id) ==> r.frameId <= q.frameId)
    ensures |p.frames| == |RowsOf(rows, id)|
    ensures SortedBy(p.frames, PointFrame)
    ensures multiset(p.frames) == multiset(Map(RowsOf(rows, id), PointOfRow))
  {
    var first := FirstBy(RowsOf(rows, id), TrackFrameOf);
    TrackedPlayer(id, first.displayName, first.jersey.GetOr(0), first.team,
                  PositionOf(info, id), PointsOf(RowsOf(rows, id)))
  }

  lemma TrackedIdsHaveRows(rows: seq<TrackRow>)
    ensures forall id :: id in TrackedIds(rows) ==> |RowsOf(rows, id)| > 0
  {
    forall id | id in TrackedIds(rows)
      ensures |RowsOf(rows, id)| > 0
    {
      var ids := Map(PlayerTrack(rows), IdOf);
      var i :| 0 <= i < |ids| && ids[i] == id;
      assert PlayerTrack(rows)[i] in RowsOf(rows, id);
    }
  }

  function TrackedIdOf(p: TrackedPlayer): int { p.nflId }

  /** The players of a play, one per tracked id in ascending id order. */
  function TrackPlayers(rows: seq<TrackRow>, info: seq<PlayerInfo>): (ps: seq<TrackedPlayer>)
    ensures Increasing(Map(ps, TrackedIdOf))
    ensures forall id :: id in Map(ps, TrackedIdOf) <==> id in Map(PlayerTrack(rows), IdOf)
    ensures forall i :: 0 <= i < |ps| ==>
      && |RowsOf(rows, ps[i].nflId)| > 0
      && ps[i] == TrackPlayer(rows, info, ps[i].nflId)
  {
    var ids := TrackedIds(rows);
    TrackedIdsHaveRows(rows);
    var ps := seq(|ids|, i requires 0 <= i < |ids| => TrackPlayer(rows, info, ids[i]));
    assert Map(ps, TrackedIdOf) == ids;
    ps
  }

  /** A play's entry, or `None` when the play has no tracking rows (the
      program skips it). */
  function BuildGamePlay(row: PlayRow, tracking: seq<TrackRow>, info: seq<PlayerInfo>, home: string): (r: Option<GamePlay>)
    ensures r.None? <==> |PlayTracking(tracking, row.playId)| == 0
    ensures r.Some? ==>
      && r.value.gameId == row.gameId && r.value.playId == row.playId
      && r.value.quarter == row.quarter.GetOr(0)
      && r.value.down == row.down.GetOr(0)
      && r.value.yardsToGo == row.yardsToGo.GetOr(0)
      && r.value.yardsGained == row.playResult.GetOr(0)
      && r.value.formation == row.formation.GetOr("")
      && r.value.personnel == row.personnel.GetOr("")
      && r.value.passResult == row.passResult.GetOr("")
      && r.value.passLength == row.passLength.GetOr("")
      && r.value.possession == row.possession
      && r.value.description == row.description
      && (r.value.isHomeOffense <==> row.possession == Some(home))
  {
    var rows := PlayTracking(tracking, row.playId);
    if |rows| == 0 then None
    else
      Some(GamePlay(
        row.gameId, row.playId,
        row.quarter.GetOr(0), row.down.GetOr(0), row.yardsToGo.GetOr(0),
        row.possession,
        row.formation.GetOr(""), row.personnel.GetOr(""),
        row.passResult.GetOr(""), row.passLength.GetOr(""),
        row.playResult.GetOr(0), row.description,
        |FrameIds(rows)|, row.possession == Some(home),
        TrackPlayers(rows, info), PointsOf(BallRows(rows))))
  }

  /** `numFrames` is the number of distinct frame numbers of the play's rows,
      the ball's included. */
  lemma NumFramesDistinct(row: PlayRow, tracking: seq<TrackRow>, info: seq<PlayerInfo>, home: string)
    requires |PlayTracking(tracking, row.playId)| > 0
    ensures var rows := PlayTracking(tracking, row.playId);
      BuildGamePlay(row, tracking, info, home).value.numFrames == |set r | r in rows :: r.frameId|
  {
    var rows := PlayTracking(tracking, row.playId);
    var ids := FrameIds(rows);
    IncreasingCard(ids);
    assert (set k | k in ids) == (set r | r in rows :: r.frameId) by {
      forall k | k in ids
        ensures k in (set r | r in rows :: r.frameId)
      {
        var i :| 0 <= i < |rows| && Map(rows, TrackFrameOf)[i] == k;
      }
      forall r | r in rows
        ensures r.frameId in ids
      {
        var i :| 0 <= i < |rows| && rows[i] == r;
        assert Map(rows, TrackFrameOf)[i] == r.frameId;
      }
    }
  }

  /** The ball's points are its rows in frame order; each player's points are
      that player's rows in frame order; the ball and the players share no
      row. */
  lemma GamePlayTracks(row: PlayRow, tracking: seq<TrackRow>, info: seq<PlayerInfo>, home: string)
    requires |PlayTracking(tracking, row.playId)| > 0
    ensures var rows := PlayTracking(tracking, row.playId);
      var p := BuildGamePlay(row, tracking, info, home).value;
      && SortedBy(p.ball, PointFrame)
      && multiset(p.ball) == multiset(Map(BallRows(rows), PointOfRow))
      && Increasing(Map(p.players, TrackedIdOf))
      && (forall i :: 0 <= i < |p.players| ==>
            && SortedBy(p.players[i].frames, PointFrame)
            && multiset(p.players[i].frames) == multiset(Map(RowsOf(rows, p.players[i].nflId), PointOfRow)))
      && (forall r :: r in BallRows(rows) ==> r !in PlayerTrack(rows))
      && |BallRows(rows)| + |PlayerTrack(rows)| <= |rows|
  {
    var rows := PlayTracking(tracking, row.playId);
    var ps := TrackPlayers(rows, info);
    assert BuildGamePlay(row, tracking, info, home).value.players == ps;
    CountDisjoint(rows, IsBall, IsTrackedPlayer);
  }

  /** The rows the program treats as player rows before grouping. */
  predicate NotBall(r: TrackRow) { !IsBall(r) }

  /** Ball rows and non-ball rows split a play's rows; the rows that join a
      player group are among the non-ball rows. */
  lemma {:induction false} BallSplit(rows: seq<TrackRow>)
    ensures Count(rows, IsBall) + Count(rows, NotBall) == |rows|
    ensures Count(rows, IsTrackedPlayer) <= Count(rows, NotBall)
  {
    if |rows| > 0 {
      BallSplit(rows[1..]);
    }
  }

  /** The number of points over all players. */
  function PointTotal(ps: seq<TrackedPlayer>): nat {
    if |ps| == 0 then 0 else |ps[0].frames| + PointTotal(ps[1..])
  }

  lemma {:induction false} PointTotalGroups(rows: seq<TrackRow>, ps: seq<TrackedPlayer>)
    requires forall i :: 0 <= i < |ps| ==> |ps[i].frames| == |RowsOf(rows, ps[i].nflId)|
    ensures PointTotal(ps) == GroupTotal(PlayerTrack(rows), IdOf, Map(ps, TrackedIdOf))
  {
    if |ps| > 0 {
      PointTotalGroups(rows, ps[1..]);
      assert Map(ps, TrackedIdOf)[1..] == Map(ps[1..], TrackedIdOf);
    }
  }

  /** Every player row of a play becomes exactly one point of its player. */
  lemma GamePlayKeepsPlayerRows(row: PlayRow, tracking: seq<TrackRow>, info: seq<PlayerInfo>, home: string)
    requires |PlayTracking(tracking, row.playId)| > 0
    ensures var rows := PlayTracking(tracking, row.playId);
      PointTotal(BuildGamePlay(row, tracking, info, home).value.players) == |PlayerTrack(rows)|
      && |BuildGamePlay(row, tracking, info, home).value.ball| == |BallRows(rows)|
  {
    var rows := PlayTracking(tracking, row.playId);
    var ps := TrackPlayers(rows, info);
    assert BuildGamePlay(row, tracking, info, home).value.players == ps;
    var ids := Map(ps, TrackedIdOf);
    PointTotalGroups(rows, ps);
    var track := PlayerTrack(rows);
    forall i | 0 <= i < |track|
      ensures IdOf(track[i]) in ids
    {
      assert Map(track, IdOf)[i] == IdOf(track[i]);
    }
    GroupTotalAll(track, IdOf, ids);
  }

  /** The entry of one row of the plays table. */
  function EntryOf(tracking: seq<TrackRow>, info: seq<PlayerInfo>, home: string): PlayRow -> Option<GamePlay> {
    (row: PlayRow) => BuildGamePlay(row, tracking, info, home)
  }

  predicate InGame(row: PlayRow) { row.gameId == GameId }

  predicate IsGameRow(g: GameRow) { g.gameId == GameId }

  /** The game's header; a missing score column takes the default score. */
  function GameInfoOf(g: GameRow): (info: GameInfo)
    ensures info.gameId == GameId
    ensures info.home == g.home && info.away == g.away
    ensures info.homeScore == (if g.homeScore.Some? then g.homeScore.value else DefaultHomeScore)
    ensures info.awayScore == (if g.awayScore.Some? then g.awayScore.value else DefaultAwayScore)
  {
    GameInfo(GameId, g.home, g.away, g.homeScore.GetOr(DefaultHomeScore), g.awayScore.GetOr(DefaultAwayScore))
  }

  /** `main`: `None` when the games table has no row for the game (the lookup
      raises); otherwise the header from the first such row and one entry per
      play of the game that has tracking rows, in the plays table's order. */
  function Build(tracking: seq<TrackRow>, plays: seq<PlayRow>, info: seq<PlayerInfo>, games: seq<GameRow>): (r: Option<Output>)
    ensures r.None? <==> Count(games, IsGameRow) == 0
  {
    var gs := Filter(games, IsGameRow);
    if |gs| == 0 then None
    else
      var game := gs[0];
      Some(Output(GameInfoOf(game), FilterMap(Filter(plays, InGame), EntryOf(tracking, info, game.home))))
  }

  /** Every entry of the output is the entry of one of the game's plays, built
      with the home team of the games table's first row for the game; every
      play of the game with tracking rows has its entry; the header is that
      first row's. */
  lemma BuildPlays(tracking: seq<TrackRow>, plays: seq<PlayRow>, info: seq<PlayerInfo>, games: seq<GameRow>)
    requires Count(games, IsGameRow) > 0
    ensures var g := Filter(games, IsGameRow)[0];
      var out := Build(tracking, plays, info, games).value;
      && out.game == GameInfoOf(g)
      && (forall p :: p in out.plays ==> (p.gameId == GameId &&
            exists row :: row in plays && InGame(row) && BuildGamePlay(row, tracking, info, g.home) == Some(p)))
      && (forall row :: (row in plays && InGame(row) && |PlayTracking(tracking, row.playId)| > 0) ==>
            BuildGamePlay(row, tracking, info, g.home).value in out.plays)
  {
    var g := Filter(games, IsGameRow)[0];
    var own := Filter(plays, InGame);
    var f := EntryOf(tracking, info, g.home);
    var entries := FilterMap(own, f);
    assert Build(tracking, plays, info, games).value.plays == entries;
    forall p | p in entries
      ensures p.gameId == GameId
      ensures exists row :: row in plays && InGame(row) && BuildGamePlay(row, tracking, info, g.home) == Some(p)
    {
      var i :| 0 <= i < |entries| && entries[i] == p;
      var j :| 0 <= j < |own| && f(own[j]) == Some(entries[i]);
      assert own[j] in own;
    }
    forall row | row in plays && InGame(row) && |PlayTracking(tracking, row.playId)| > 0
      ensures BuildGamePlay(row, tracking, info, g.home).value in entries
    {
      assert row in own;
      var j :| 0 <= j < |own| && own[j] == row;
      assert f(own[j]).Some?;
    }
  }

  /** The entries follow the plays table's order: the entries of `a + b` are
      those of `a` followed by those of `b`, and one row yields its entry
      exactly when it belongs to the game and has tracking rows. */
  lemma BuildPlaysAppend(tracking: seq<TrackRow>, a: seq<PlayRow>, b: seq<PlayRow>, info: seq<PlayerInfo>, games: seq<GameRow>)
    requires Count(games, IsGameRow) > 0
    ensures var home := Filter(games, IsGameRow)[0].home;
      && Build(tracking, a + b, info, games).value.plays ==
           Build(tracking, a, info, games).value.plays + Build(tracking, b, info, games).value.plays
      && (|a| == 1 ==> (Build(tracking, a, info, games).value.plays ==
           if InGame(a[0]) && |PlayTracking(tracking, a[0].playId)| > 0
           then [BuildGamePlay(a[0], tracking, info, home).value] else []))
  {
    var home := Filter(games, IsGameRow)[0].home;
    var f := EntryOf(tracking, info, home);
    FilterAppend(a, b, InGame);
    FilterMapAppend(Filter(a, InGame), Filter(b, InGame), f);
    if |a| == 1 {
      assert a[1..] == [];
      var own := Filter(a, InGame);
      assert own == if InGame(a[0]) then [a[0]] else [];
      FilterMapAppend(own, [], f);
      if !InGame(a[0]) {
        assert FilterMap(own, f) == [];
      }
    }
  }
}
