/** The play builder of `build_plays_with_filters.py`: it joins the input
    tracking rows (snap to release) of each play with its output rows (release
    to arrival) and its nflverse play-by-play row, and then aggregates the
    plays into per-offense tendencies. */
module PlaysWithFilters {
  import opened Basics
  import opened Tracking
  import opened PlayByPlay

  /** Field position classes; `yardline` is the absolute yard line. */
  datatype Zone = Unknown | RedZone | Midfield | OwnTerritory

  /** `get_field_zone`: total over an optional yard line, thresholds inclusive. */
  function FieldZone(yardline: Option<int>): (z: Zone)
    ensures z == Unknown <==> yardline.None?
    ensures z == RedZone <==> yardline.Some? && yardline.value <= 20
    ensures z == Midfield <==> yardline.Some? && 20 < yardline.value <= 50
    ensures z == OwnTerritory <==> yardline.Some? && 50 < yardline.value
  {
    match yardline
    case None => Unknown
    case Some(y) => if y <= 20 then RedZone else if y <= 50 then Midfield else OwnTerritory
  }

  /** Position of a known zone along the field, counted from yard line 0. */
  function ZoneRank(z: Zone): int {
    match z
    case RedZone => 0
    case Midfield => 1
    case OwnTerritory => 2
    case Unknown => -1
  }

  /** Moving up the field never moves a play back to an earlier zone. */
  lemma FieldZoneMonotone(a: int, b: int)
    requires a <= b
    ensures 0 <= ZoneRank(FieldZone(Some(a))) <= ZoneRank(FieldZone(Some(b)))
  {
  }

  /** One frame of a player: frame number, position and speed. */
  datatype Frame = Frame(f: int, x: real, y: real, s: real)

  function FrameNumber(fr: Frame): int { fr.f }

  /** A tracked player of a built play. */
  datatype Player = Player(
    nflId: int, name: string, position: string, side: string, role: string,
    team: string, frames: seq<Frame>)

  /** The play-by-play fields copied onto a play, with their defaults. */
  datatype Meta = Meta(
    down: int, yardsToGo: int, playType: string, yardsGained: int, shotgun: bool,
    passLength: Option<string>, passLocation: Option<string>,
    offense: string, defense: string, quarter: int, description: string)

  /** A built play. `meta` is `None` when no play-by-play row matched, in which
      case the source leaves the corresponding keys out of the play object. */
  datatype Play = Play(
    gameId: int, playId: int, direction: string, yardline: int,
    ballLandX: Option<real>, ballLandY: Option<real>,
    numFrames: int, numInputFrames: int, numOutputFrames: int,
    players: seq<Player>,
    coverageTightness: Option<real>, separation: Option<real>,
    fieldZone: Zone, meta: Option<Meta>)

  /** The side that makes a player the away team in the viewer. */
  const OffenseSide := "Offense"

  /** A player's display team, from their side of the ball. */
  function TeamOf(side: string): (team: string)
    ensures team == "away" <==> side == OffenseSide
    ensures team == "home" <==> side != OffenseSide
  {
    if side == OffenseSide then "away" else "home"
  }

  /** An input frame; a missing speed becomes 0. */
  function InputFrame(r: InputRow): Frame {
    Frame(r.frameId, r.x, r.y, r.s.GetOr(0.0))
  }

  /** Output frames, renumbered after the last input frame, with speed 0. */
  function OutputFrames(rows: seq<OutputRow>, offset: int): seq<Frame> {
    Map(rows, (o: OutputRow) => Frame(o.frameId + offset, o.x, o.y, 0.0))
  }

  /** A player's input frames in frame order. */
  function InputFramesOf(rows: seq<InputRow>, id: int): (fs: seq<Frame>)
    ensures |fs| == |PlayerRows(rows, id)|
    ensures SortedBy(fs, FrameNumber)
    ensures multiset(fs) == multiset(Map(PlayerRows(rows, id), InputFrame))
  {
    var sorted := SortBy(PlayerRows(rows, id), FrameOf);
    MapSortBy(PlayerRows(rows, id), FrameOf, InputFrame);
    assert |sorted| == |PlayerRows(rows, id)| by {
      assert |multiset(sorted)| == |multiset(PlayerRows(rows, id))|;
    }
    Map(sorted, InputFrame)
  }

  /** A player's output frames in frame order, renumbered after `maxIn`. */
  function OutputFramesOf(outRows: seq<OutputRow>, id: int, maxIn: int): (fs: seq<Frame>)
    ensures |fs| == |PlayerOutputRows(outRows, id)|
    ensures SortedBy(fs, FrameNumber)
    ensures forall i :: 0 <= i < |fs| ==> fs[i].s == 0.0
    ensures multiset(fs) == multiset(OutputFrames(PlayerOutputRows(outRows, id), maxIn))
  {
    var sorted := SortBy(PlayerOutputRows(outRows, id), OutputFrameOf);
    MapSortBy(PlayerOutputRows(outRows, id), OutputFrameOf,
              (o: OutputRow) => Frame(o.frameId + maxIn, o.x, o.y, 0.0));
    assert |sorted| == |PlayerOutputRows(outRows, id)| by {
      assert |multiset(sorted)| == |multiset(PlayerOutputRows(outRows, id))|;
    }
    OutputFrames(sorted, maxIn)
  }

  /** One player of a play: the player's input frames in frame order followed
      by their output frames in frame order. `rows` are the play's input rows,
      `outRows` its output rows and `maxIn` its last input frame. */
  function BuildPlayer(rows: seq<InputRow>, outRows: seq<OutputRow>, maxIn: int, id: int): (p: Player)
    requires |PlayerRows(rows, id)| > 0
    ensures p.nflId == id
    ensures p.team == "away" <==> p.side == OffenseSide
    ensures exists r :: (r in PlayerRows(rows, id) &&
      p.name == r.name && p.position == r.position && p.side == r.side && p.role == r.role &&
      forall q :: q in PlayerRows(rows, id) ==> r.frameId <= q.frameId)
  {
    var first := FirstPlayerRow(rows, id);
    Player(id, first.name, first.position, first.side, first.role, TeamOf(first.side),
           InputFramesOf(rows, id) + OutputFramesOf(outRows, id, maxIn))
  }

  /** A player's frames: the input frames in frame order, then the output frames
      in frame order, each output frame renumbered by `maxIn` and with speed 0. */
  lemma PlayerFramesMerge(rows: seq<InputRow>, outRows: seq<OutputRow>, maxIn: int, id: int)
    requires |PlayerRows(rows, id)| > 0
    ensures var p := BuildPlayer(rows, outRows, maxIn, id);
      var k := |PlayerRows(rows, id)|;
      && |p.frames| == k + |PlayerOutputRows(outRows, id)|
      && SortedBy(p.frames[..k], FrameNumber)
      && multiset(p.frames[..k]) == multiset(Map(PlayerRows(rows, id), InputFrame))
      && SortedBy(p.frames[k..], FrameNumber)
      && (forall i :: k <= i < |p.frames| ==> p.frames[i].s == 0.0)
      && multiset(p.frames[k..]) == multiset(OutputFrames(PlayerOutputRows(outRows, id), maxIn))
  {
    var ins := InputFramesOf(rows, id);
    var outs := OutputFramesOf(outRows, id, maxIn);
    assert (ins + outs)[..|ins|] == ins;
    assert (ins + outs)[|ins|..] == outs;
  }

  /** A player's frames are in frame order as a whole when the output frame
      numbers are not negative: every output frame follows the last input frame. */
  lemma PlayerFramesChronological(rows: seq<InputRow>, outRows: seq<OutputRow>, id: int)
    requires |rows| > 0
    requires |PlayerRows(rows, id)| > 0
    requires forall o :: o in outRows ==> o.frameId >= 0
    ensures SortedBy(BuildPlayer(rows, outRows, Max(Map(rows, FrameOf)), id).frames, FrameNumber)
  {
    var maxIn := Max(Map(rows, FrameOf));
    var ins := InputFramesOf(rows, id);
    var outs := OutputFramesOf(outRows, id, maxIn);
    InputFramesBounded(rows, id);
    OutputFramesBounded(outRows, id, maxIn);
    SortedConcat(ins, outs, FrameNumber, maxIn);
    assert BuildPlayer(rows, outRows, maxIn, id).frames == ins + outs;
  }

  lemma InputFramesBounded(rows: seq<InputRow>, id: int)
    requires |rows| > 0
    ensures forall i :: 0 <= i < |InputFramesOf(rows, id)| ==>
      InputFramesOf(rows, id)[i].f <= Max(Map(rows, FrameOf))
  {
    var maxIn := Max(Map(rows, FrameOf));
    var ins := InputFramesOf(rows, id);
    var m := Map(PlayerRows(rows, id), InputFrame);
    forall i | 0 <= i < |ins|
      ensures ins[i].f <= maxIn
    {
      assert ins[i] in multiset(m);
      var j :| 0 <= j < |m| && m[j] == ins[i];
      var r := PlayerRows(rows, id)[j];
      assert r in rows;
      RowFrameBelowMax(rows, r);
    }
  }

  /** No input row has a frame number above the last input frame. */
  lemma RowFrameBelowMax(rows: seq<InputRow>, r: InputRow)
    requires r in rows
    ensures r.frameId <= Max(Map(rows, FrameOf))
  {
    var n :| 0 <= n < |rows| && rows[n] == r;
    assert Map(rows, FrameOf)[n] == r.frameId;
  }

  lemma OutputFramesBounded(outRows: seq<OutputRow>, id: int, maxIn: int)
    requires forall o :: o in outRows ==> o.frameId >= 0
    ensures forall i :: 0 <= i < |OutputFramesOf(outRows, id, maxIn)| ==>
      OutputFramesOf(outRows, id, maxIn)[i].f >= maxIn
  {
    var outs := OutputFramesOf(outRows, id, maxIn);
    var os := PlayerOutputRows(outRows, id);
    var m := OutputFrames(os, maxIn);
    forall i | 0 <= i < |outs|
      ensures outs[i].f >= maxIn
    {
      assert outs[i] in multiset(m);
      var j :| 0 <= j < |m| && m[j] == outs[i];
      assert os[j] in outRows;
    }
  }

  /** Python's `round(v, 1)` on exact reals: the nearest multiple of 0.1,
      with a tie going to the even multiple. */
  function Round1(v: real): (r: real)
    ensures (r * 10.0).Floor as real == r * 10.0
    ensures -0.05 <= r - v <= 0.05
    ensures (r - v == 0.05 || v - r == 0.05) ==> (r * 10.0).Floor % 2 == 0
  {
    var t := v * 10.0;
    var n := t.Floor;
    var frac := t - n as real;
    var k := if frac > 0.5 then n + 1 else if frac < 0.5 then n else if n % 2 == 0 then n else n + 1;
    assert (k as real / 10.0) * 10.0 == k as real;
    k as real / 10.0
  }

  /** What a play keeps of a derived metric: a missing value and a value of
      exactly zero are both stored as missing (zero is falsy in the source),
      and any other value is stored rounded to one decimal. */
  function StoredMetric(v: Option<real>): (r: Option<real>)
    ensures r.None? <==> v.None? || v.value == 0.0
    ensures r.Some? ==> (r.value * 10.0).Floor as real == r.value * 10.0
    ensures r.Some? ==> -0.05 <= r.value - v.value <= 0.05
  {
    if v.Some? && v.value != 0.0 then Some(Round1(v.value)) else None
  }

  /** The truthiness test comes before the rounding: a non-zero metric stores
      0.0 exactly when it lies within 0.05 of zero, so such a value is falsy
      afterwards although it was truthy before. */
  lemma StoredMetricZero(v: real)
    requires v != 0.0
    ensures StoredMetric(Some(v)) == Some(0.0) <==> -0.05 <= v <= 0.05
  {
    var r := Round1(v);
    var k := (r * 10.0).Floor;
    if -0.05 <= v <= 0.05 {
      assert -1 <= k <= 1;
    } else {
      assert k != 0;
    }
  }

  /** The play-by-play fields of a matched row, each missing value replaced by
      its default. */
  function MetaOf(row: PbpRow): (m: Meta)
    ensures m.down == (if row.down.Some? then row.down.value else 0)
    ensures m.yardsToGo == (if row.ydstogo.Some? then row.ydstogo.value else 0)
    ensures m.playType == (if row.playType.Some? then row.playType.value else "unknown")
    ensures m.yardsGained == (if row.yardsGained.Some? then row.yardsGained.value else 0)
    ensures m.shotgun <==> row.shotgun.Some? && row.shotgun.value != 0
    ensures m.passLength == row.passLength && m.passLocation == row.passLocation
    ensures m.offense == (if row.posteam.Some? then row.posteam.value else "UNK")
    ensures m.defense == (if row.defteam.Some? then row.defteam.value else "UNK")
    ensures m.quarter == (if row.qtr.Some? then row.qtr.value else 1)
    ensures m.description == (if row.desc.Some? then row.desc.value else "")
  {
    Meta(row.down.GetOr(0), row.ydstogo.GetOr(0), row.playType.GetOr("unknown"),
         row.yardsGained.GetOr(0), row.shotgun.Some? && row.shotgun.value != 0,
         row.passLength, row.passLocation,
         row.posteam.GetOr("UNK"), row.defteam.GetOr("UNK"),
         row.qtr.GetOr(1), row.desc.GetOr(""))
  }

  /** The play-by-play rows of one play. */
  function PbpRowsOf(pbp: seq<PbpRow>, k: PlayKey): seq<PbpRow> {
    Filter(pbp, (r: PbpRow) => r.game == k.game && r.play == k.play)
  }

  function NflIdOf(p: Player): int { p.nflId }

  /** A group of input rows that `groupby` can produce: non-empty, one key. */
  predicate IsGroup(g: seq<InputRow>) {
    |g| > 0 && forall i :: 0 <= i < |g| ==> KeyOf(g[i]) == KeyOf(g[0])
  }

  /** The first row of a group has no yard line, so the play cannot be built. */
  predicate MissingYardline(g: seq<InputRow>) {
    |g| > 0 && g[0].yardline.None?
  }

  /** One play from its input rows (`rows`, one group, in file order), all
      output rows and all play-by-play rows. The coverage and separation
      metrics are computed outside the model and passed in. `None` models the
      exception `int()` raises on a missing yard line, which aborts the build. */
  function BuildPlay(rows: seq<InputRow>, outAll: seq<OutputRow>, pbp: seq<PbpRow>,
                     coverage: Option<real>, separation: Option<real>): (r: Option<Play>)
    requires IsGroup(rows)
    ensures r.None? <==> MissingYardline(rows)
  {
    if MissingYardline(rows) then None else Some(AssemblePlay(rows, outAll, pbp, coverage, separation))
  }

  /** The play object of a group whose first row has a yard line. */
  function AssemblePlay(rows: seq<InputRow>, outAll: seq<OutputRow>, pbp: seq<PbpRow>,
                        coverage: Option<real>, separation: Option<real>): Play
    requires IsGroup(rows) && !MissingYardline(rows)
  {
    var first := rows[0];
    var key := KeyOf(first);
    var maxIn := Max(Map(rows, FrameOf));
    var outPlay := PlayOutputRows(outAll, key);
    var maxOut := if |outPlay| > 0 then Max(Map(outPlay, OutputFrameOf)) else 0;
    var players := BuildPlayers(rows, outPlay, maxIn);
    var matches := PbpRowsOf(pbp, key);
    var meta := if |matches| > 0 then Some(MetaOf(matches[0])) else None;
    Play(first.game, first.play, first.direction, first.yardline.value,
         first.ballLandX, first.ballLandY,
         maxIn + maxOut, maxIn, maxOut, players,
         StoredMetric(coverage), StoredMetric(separation),
         FieldZone(first.yardline), meta)
  }

  /** Play-level fields come from the play's first input row; the stored
      metrics drop a zero; the zone is never `Unknown` for a built play. */
  lemma BuildPlayHeader(rows: seq<InputRow>, outAll: seq<OutputRow>, pbp: seq<PbpRow>,
                        coverage: Option<real>, separation: Option<real>)
    requires IsGroup(rows)
    requires !MissingYardline(rows)
    ensures var p := BuildPlay(rows, outAll, pbp, coverage, separation).value;
      && p.gameId == rows[0].game && p.playId == rows[0].play
      && p.direction == rows[0].direction
      && p.yardline == rows[0].yardline.value
      && p.ballLandX == rows[0].ballLandX && p.ballLandY == rows[0].ballLandY
      && p.fieldZone == FieldZone(rows[0].yardline) && p.fieldZone != Unknown
      && p.coverageTightness == StoredMetric(coverage)
      && p.separation == StoredMetric(separation)
  {
  }

  /** `numInputFrames` is the last input frame, `numOutputFrames` the last
      output frame or 0 when the play has no output rows, and `numFrames`
      their sum. */
  lemma BuildPlayFrameCounts(rows: seq<InputRow>, outAll: seq<OutputRow>, pbp: seq<PbpRow>,
                             coverage: Option<real>, separation: Option<real>)
    requires IsGroup(rows)
    requires !MissingYardline(rows)
    ensures var p := BuildPlay(rows, outAll, pbp, coverage, separation).value;
      var outPlay := PlayOutputRows(outAll, KeyOf(rows[0]));
      && p.numInputFrames in Map(rows, FrameOf)
      && (forall i :: 0 <= i < |rows| ==> rows[i].frameId <= p.numInputFrames)
      && (|outPlay| == 0 ==> p.numOutputFrames == 0)
      && (|outPlay| > 0 ==> p.numOutputFrames in Map(outPlay, OutputFrameOf))
      && (forall o :: o in outPlay ==> o.frameId <= p.numOutputFrames)
      && p.numFrames == p.numInputFrames + p.numOutputFrames
  {
    var outPlay := PlayOutputRows(outAll, KeyOf(rows[0]));
    if |outPlay| > 0 {
      OutputMaxBounds(outPlay);
    }
  }

  /** The largest output frame bounds every output row. */
  lemma OutputMaxBounds(outPlay: seq<OutputRow>)
    requires |outPlay| > 0
    ensures forall o :: o in outPlay ==> o.frameId <= Max(Map(outPlay, OutputFrameOf))
  {
    forall o | o in outPlay
      ensures o.frameId <= Max(Map(outPlay, OutputFrameOf))
    {
      var i :| 0 <= i < |outPlay| && outPlay[i] == o;
      assert Map(outPlay, OutputFrameOf)[i] == o.frameId;
    }
  }

  /** The players of a built play are those of `BuildPlayers`, with the play's
      last input frame as the output frames' offset. */
  lemma BuildPlayPlayers(rows: seq<InputRow>, outAll: seq<OutputRow>, pbp: seq<PbpRow>,
                         coverage: Option<real>, separation: Option<real>)
    requires IsGroup(rows)
    requires !MissingYardline(rows)
    ensures var p := BuildPlay(rows, outAll, pbp, coverage, separation).value;
      p.players == BuildPlayers(rows, PlayOutputRows(outAll, KeyOf(rows[0])), p.numInputFrames)
  {
  }

  /** The play-by-play fields are present exactly when a row with the play's
      key exists, and then come from the first such row. */
  lemma BuildPlayMeta(rows: seq<InputRow>, outAll: seq<OutputRow>, pbp: seq<PbpRow>,
                      coverage: Option<real>, separation: Option<real>)
    requires IsGroup(rows)
    requires !MissingYardline(rows)
    ensures var p := BuildPlay(rows, outAll, pbp, coverage, separation).value;
      var matches := PbpRowsOf(pbp, KeyOf(rows[0]));
      && (p.meta.Some? <==> exists j :: 0 <= j < |pbp| && pbp[j].game == rows[0].game && pbp[j].play == rows[0].play)
      && (p.meta.Some? ==> p.meta.value == MetaOf(matches[0]))
  {
    PbpRowsPresent(pbp, KeyOf(rows[0]));
  }

  /** A play has play-by-play rows exactly when some row carries its key. */
  lemma PbpRowsPresent(pbp: seq<PbpRow>, k: PlayKey)
    ensures |PbpRowsOf(pbp, k)| > 0 <==> exists j :: 0 <= j < |pbp| && pbp[j].game == k.game && pbp[j].play == k.play
  {
    var matches := PbpRowsOf(pbp, k);
    if |matches| > 0 {
      assert matches[0] in pbp;
      var j :| 0 <= j < |pbp| && pbp[j] == matches[0];
    }
    if exists j :: 0 <= j < |pbp| && pbp[j].game == k.game && pbp[j].play == k.play {
      var j :| 0 <= j < |pbp| && pbp[j].game == k.game && pbp[j].play == k.play;
      assert pbp[j] in matches;
    }
  }

  /** The players of a play, one per distinct player id in ascending id order. */
  function BuildPlayers(rows: seq<InputRow>, outRows: seq<OutputRow>, maxIn: int): (ps: seq<Player>)
    ensures Increasing(Map(ps, NflIdOf))
    ensures forall id :: id in Map(ps, NflIdOf) <==> id in Map(rows, NflIdOfRow)
    ensures forall i :: 0 <= i < |ps| ==>
      && |PlayerRows(rows, ps[i].nflId)| > 0
      && ps[i] == BuildPlayer(rows, outRows, maxIn, ps[i].nflId)
  {
    var ids := PlayerIds(rows);
    PlayerIdsHaveRows(rows);
    var ps := seq(|ids|, i requires 0 <= i < |ids| => BuildPlayer(rows, outRows, maxIn, ids[i]));
    assert Map(ps, NflIdOf) == ids;
    ps
  }

  /** The rows of each listed play form a group headed by a row of that play. */
  lemma PlayGroups(inRows: seq<InputRow>)
    ensures forall k :: k in PlayKeys(inRows) ==>
      IsGroup(PlayRows(inRows, k)) && KeyOf(PlayRows(inRows, k)[0]) == k
  {
    PlayKeysHaveRows(inRows);
  }

  /** A built play carries its group's key. */
  lemma BuildPlayKey(rows: seq<InputRow>, outAll: seq<OutputRow>, pbp: seq<PbpRow>,
                     coverage: Option<real>, separation: Option<real>)
    requires IsGroup(rows)
    requires !MissingYardline(rows)
    ensures BuildPlay(rows, outAll, pbp, coverage, separation).Some?
    ensures var p := BuildPlay(rows, outAll, pbp, coverage, separation).value;
      PlayKey(p.gameId, p.playId) == KeyOf(rows[0])
  {
  }

  /** `build_play_data`: one play per distinct (game, play) key of the input
      rows, in ascending key order. Nothing catches the exception a missing
      yard line raises, so one such play aborts the whole build (`None`). */
  function BuildPlayData(inRows: seq<InputRow>, outRows: seq<OutputRow>, pbp: seq<PbpRow>,
                         coverageOf: seq<InputRow> -> Option<real>,
                         separationOf: seq<InputRow> -> Option<real>): (r: Option<seq<Play>>)
    ensures r.None? <==> exists k :: k in PlayKeys(inRows) && MissingYardline(PlayRows(inRows, k))
    ensures r.Some? ==> |r.value| == |PlayKeys(inRows)|
  {
    var keys := PlayKeys(inRows);
    PlayGroups(inRows);
    if exists i :: 0 <= i < |keys| && MissingYardline(PlayRows(inRows, keys[i])) then None
    else
      var plays := seq(|keys|, i requires 0 <= i < |keys| =>
        var g := PlayRows(inRows, keys[i]);
        BuildPlay(g, outRows, pbp, coverageOf(g), separationOf(g)).value);
      Some(plays)
  }

  /** Play `i` of a build is the play `build_play` makes from the rows of the
      `i`-th key, and carries that key. */
  lemma BuildPlayDataAt(inRows: seq<InputRow>, outRows: seq<OutputRow>, pbp: seq<PbpRow>,
                        coverageOf: seq<InputRow> -> Option<real>,
                        separationOf: seq<InputRow> -> Option<real>, i: int)
    requires BuildPlayData(inRows, outRows, pbp, coverageOf, separationOf).Some?
    requires 0 <= i < |BuildPlayData(inRows, outRows, pbp, coverageOf, separationOf).value|
    ensures var p := BuildPlayData(inRows, outRows, pbp, coverageOf, separationOf).value[i];
      var g := PlayRows(inRows, PlayKeys(inRows)[i]);
      && IsGroup(g) && !MissingYardline(g)
      && PlayKey(p.gameId, p.playId) == PlayKeys(inRows)[i]
      && Some(p) == BuildPlay(g, outRows, pbp, coverageOf(g), separationOf(g))
  {
    var keys := PlayKeys(inRows);
    var g := PlayRows(inRows, keys[i]);
    PlayGroups(inRows);
    assert keys[i] in keys;
    BuildPlayKey(g, outRows, pbp, coverageOf(g), separationOf(g));
  }

  /** The built plays are in strictly ascending (game, play) order and each
      key of the input occurs exactly once. */
  lemma BuildPlayDataOrdered(inRows: seq<InputRow>, outRows: seq<OutputRow>, pbp: seq<PbpRow>,
                             coverageOf: seq<InputRow> -> Option<real>,
                             separationOf: seq<InputRow> -> Option<real>)
    requires BuildPlayData(inRows, outRows, pbp, coverageOf, separationOf).Some?
    ensures var plays := BuildPlayData(inRows, outRows, pbp, coverageOf, separationOf).value;
      && (forall i, j :: 0 <= i < j < |plays| ==>
            Before(PlayKey(plays[i].gameId, plays[i].playId), PlayKey(plays[j].gameId, plays[j].playId)))
      && (forall k :: k in Map(inRows, KeyOf) <==>
            exists i :: 0 <= i < |plays| && PlayKey(plays[i].gameId, plays[i].playId) == k)
  {
    var plays := BuildPlayData(inRows, outRows, pbp, coverageOf, separationOf).value;
    var keys := PlayKeys(inRows);
    forall i | 0 <= i < |plays|
      ensures PlayKey(plays[i].gameId, plays[i].playId) == keys[i]
    {
      BuildPlayDataAt(inRows, outRows, pbp, coverageOf, separationOf, i);
    }
    forall k | k in Map(inRows, KeyOf)
      ensures exists i :: 0 <= i < |plays| && PlayKey(plays[i].gameId, plays[i].playId) == k
    {
      var i :| 0 <= i < |keys| && keys[i] == k;
      assert PlayKey(plays[i].gameId, plays[i].playId) == k;
    }
  }

  // ---------------------------------------------------------------------
  // Per-offense tendencies (`compute_tendencies`)
  // ---------------------------------------------------------------------

  /** The offense a play counts for: `UNK` when no play-by-play row matched. */
  function OffenseOf(p: Play): string {
    if p.meta.Some? then p.meta.value.offense else "UNK"
  }

  predicate IsPass(p: Play) { p.meta.Some? && p.meta.value.playType == "pass" }

  predicate IsRun(p: Play) { p.meta.Some? && p.meta.value.playType == "run" }

  function YardsOf(p: Play): int { if p.meta.Some? then p.meta.value.yardsGained else 0 }

  /** The coverage value is truthy: present and not zero. */
  predicate HasCoverage(p: Play) { p.coverageTightness.Some? && p.coverageTightness.value != 0.0 }

  function CoverageOf(p: Play): real { if HasCoverage(p) then p.coverageTightness.value else 0.0 }

  /** The plays of one offense, in order. */
  function TeamPlays(plays: seq<Play>, team: string): seq<Play> {
    Filter(plays, (p: Play) => OffenseOf(p) == team)
  }

  /** The minimum number of plays for a team to be reported. */
  const MinTeamPlays := 10

  datatype TeamTendency = TeamTendency(
    totalPlays: nat, passRate: Quotient, runRate: Quotient, avgYards: Quotient, avgCoverage: Quotient)

  /** The tendencies of one team's plays; every rate is over all of the
      team's plays, and the coverage mean is over the truthy coverage values. */
  function Summarize(ps: seq<Play>): (t: TeamTendency)
    requires |ps| > 0
    ensures t.totalPlays == |ps|
    ensures t.passRate.den == |ps| && t.runRate.den == |ps| && t.avgYards.den == |ps|
    ensures t.passRate.num == Count(ps, IsPass) as real && t.runRate.num == Count(ps, IsRun) as real
    ensures 0.0 <= t.passRate.num && 0.0 <= t.runRate.num
    ensures t.passRate.num + t.runRate.num <= |ps| as real
    ensures t.avgYards.num == Sum(ps, YardsOf) as real
    ensures t.avgCoverage.den == (if Count(ps, HasCoverage) == 0 then 1 else Count(ps, HasCoverage))
    ensures t.avgCoverage.num == SumReal(Filter(ps, HasCoverage), CoverageOf)
    ensures Count(ps, HasCoverage) == 0 ==> t.avgCoverage.num == 0.0
  {
    var covered := Filter(ps, HasCoverage);
    CountDisjoint(ps, IsPass, IsRun);
    TeamTendency(|ps|,
                 Quotient(Count(ps, IsPass) as real, |ps|),
                 Quotient(Count(ps, IsRun) as real, |ps|),
                 Quotient(Sum(ps, YardsOf) as real, |ps|),
                 Quotient(SumReal(covered, CoverageOf), if |covered| > 0 then |covered| else 1))
  }

  /** `compute_tendencies`: one entry per offense with at least ten plays. */
  function TeamTendencies(plays: seq<Play>): (m: map<string, TeamTendency>)
    ensures |plays| == 0 ==> m == map[]
    ensures forall t :: t in m <==> |TeamPlays(plays, t)| >= MinTeamPlays
    ensures forall t :: t in m ==> m[t] == Summarize(TeamPlays(plays, t))
  {
    if |plays| == 0 then map[]
    else
      var teams := set p | p in plays :: OffenseOf(p);
      assert forall t :: |TeamPlays(plays, t)| > 0 ==> t in teams by {
        forall t | |TeamPlays(plays, t)| > 0
          ensures t in teams
        {
          assert TeamPlays(plays, t)[0] in plays;
        }
      }
      map t | t in teams && |TeamPlays(plays, t)| >= MinTeamPlays :: Summarize(TeamPlays(plays, t))
  }
}
