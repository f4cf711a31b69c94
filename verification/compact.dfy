/** The compact viewer data set of `create_compact_data.py`: the first plays
    of the full data set with enough frames, each frame reduced to its frame
    number and position. */
module Compact {
  import opened Basics
  import opened Preprocess

  /** A play qualifies with at least this many frames. */
  const MinFrames := 10

  /** At most this many qualifying plays are kept. */
  const MaxPlays := 100

  datatype CompactPlayer = CompactPlayer(
    nflId: int, name: string, position: string, side: string, role: string,
    frames: seq<Point>)

  datatype CompactPlay = CompactPlay(
    gameId: int, playId: int, direction: string, yardline: int,
    ballLandX: Option<real>, ballLandY: Option<real>,
    numFrames: int, players: seq<CompactPlayer>)

  predicate LongEnough(p: Play) { p.numFrames >= MinFrames }

  function PointOf(m: Motion): Point { Point(m.f, m.x, m.y) }

  function CompactPlayerOf(p: Player): CompactPlayer {
    CompactPlayer(p.nflId, p.name, p.position, p.side, p.role, Map(p.frames, PointOf))
  }

  /** A play with every frame reduced to `f`, `x` and `y`; nothing else changes. */
  function CompactPlayOf(p: Play): CompactPlay {
    CompactPlay(p.gameId, p.playId, p.direction, p.yardline, p.ballLandX, p.ballLandY,
                p.numFrames, Map(p.players, CompactPlayerOf))
  }

  /** The plays kept: the qualifying plays in input order, at most `MaxPlays`. */
  function Selected(plays: seq<Play>): (r: seq<Play>)
    ensures |r| == if Count(plays, LongEnough) < MaxPlays then Count(plays, LongEnough) else MaxPlays
    ensures r == Filter(plays, LongEnough)[..|r|]
    ensures forall i :: 0 <= i < |r| ==> r[i].numFrames >= MinFrames
  {
    var good := Filter(plays, LongEnough);
    if |good| <= MaxPlays then good else good[..MaxPlays]
  }

  /** One step of the scan: the qualifying plays of a longer prefix. */
  lemma FilterStep(plays: seq<Play>, i: int)
    requires 0 <= i < |plays|
    ensures Filter(plays[..i + 1], LongEnough) ==
      Filter(plays[..i], LongEnough) + (if LongEnough(plays[i]) then [plays[i]] else [])
  {
    FilterAppend(plays[..i], [plays[i]], LongEnough);
    assert plays[..i + 1] == plays[..i] + [plays[i]];
  }

  /** Where the scan stops, its qualifying plays are the selection. */
  lemma ScanStopped(plays: seq<Play>, i: int)
    requires 0 <= i <= |plays|
    requires |Filter(plays[..i], LongEnough)| <= MaxPlays
    requires i == |plays| || |Filter(plays[..i], LongEnough)| == MaxPlays
    ensures Selected(plays) == Filter(plays[..i], LongEnough)
  {
    FilterAppend(plays[..i], plays[i..], LongEnough);
    assert plays == plays[..i] + plays[i..];
  }

  /** `main`: the qualifying plays in input order, cut to the first
      `MaxPlays`, each compacted. The source filters the whole list before
      slicing; this loop stops scanning once `MaxPlays` plays are kept, which
      the contract shows gives the same result. */
  method CompactData(plays: seq<Play>) returns (out: seq<CompactPlay>)
    ensures out == Map(Selected(plays), CompactPlayOf)
  {
    out := [];
    ghost var kept: seq<Play> := [];
    var i := 0;
    while i < |plays| && |out| < MaxPlays
      invariant 0 <= i <= |plays|
      invariant kept == Filter(plays[..i], LongEnough)
      invariant |out| == |kept| <= MaxPlays
      invariant forall j :: 0 <= j < |out| ==> out[j] == CompactPlayOf(kept[j])
      decreases |plays| - i
    {
      FilterStep(plays, i);
      if LongEnough(plays[i]) {
        out := out + [CompactPlayOf(plays[i])];
        kept := kept + [plays[i]];
      }
      i := i + 1;
    }
    ScanStopped(plays, i);
  }

  /** Once `MaxPlays` plays qualify, later plays no longer matter. */
  lemma SelectionSettles(a: seq<Play>, b: seq<Play>)
    requires Count(a, LongEnough) >= MaxPlays
    ensures Selected(a + b) == Selected(a)
  {
    FilterAppend(a, b, LongEnough);
    assert Filter(a + b, LongEnough)[..MaxPlays] == Filter(a, LongEnough)[..MaxPlays];
  }

  /** With fewer than `MaxPlays` qualifying plays every one of them is kept,
      and a play is kept exactly when it qualifies. */
  lemma FewPlaysAllKept(plays: seq<Play>)
    requires Count(plays, LongEnough) < MaxPlays
    ensures Selected(plays) == Filter(plays, LongEnough)
    ensures forall p :: p in Selected(plays) <==> p in plays && p.numFrames >= MinFrames
  {
  }

  /** The full frame a point stands for, with speed and direction 0. */
  function Widen(pt: Point): Motion { Motion(pt.f, pt.x, pt.y, 0.0, 0.0) }

  function ExpandPlayer(c: CompactPlayer): Player {
    Player(c.nflId, c.name, c.position, c.side, c.role, Map(c.frames, Widen))
  }

  /** A full play whose frames have speed and direction 0. */
  function ExpandPlay(c: CompactPlay): Play {
    Play(c.gameId, c.playId, c.direction, c.yardline, c.ballLandX, c.ballLandY,
         c.numFrames, Map(c.players, ExpandPlayer))
  }

  /** Compaction keeps all the information a compact play holds: widening it
      and compacting again gives it back. */
  lemma CompactExpand(c: CompactPlay)
    ensures CompactPlayOf(ExpandPlay(c)) == c
  {
    forall i | 0 <= i < |c.players|
      ensures CompactPlayerOf(ExpandPlayer(c.players[i])) == c.players[i]
    {
      var fs := c.players[i].frames;
      assert Map(Map(fs, Widen), PointOf) == fs;
    }
    assert Map(Map(c.players, ExpandPlayer), CompactPlayerOf) == c.players;
  }

  /** Compaction drops only each frame's speed and direction: the play's
      fields, its players' fields, and each frame's number and position are
      those of the full play, in the same order. */
  lemma CompactKeepsPositions(p: Play)
    ensures var c := CompactPlayOf(p);
      && c.gameId == p.gameId && c.playId == p.playId && c.numFrames == p.numFrames
      && c.direction == p.direction && c.yardline == p.yardline
      && c.ballLandX == p.ballLandX && c.ballLandY == p.ballLandY
      && |c.players| == |p.players|
      && forall i :: 0 <= i < |p.players| ==>
        && c.players[i].nflId == p.players[i].nflId
        && c.players[i].name == p.players[i].name && c.players[i].position == p.players[i].position
        && c.players[i].side == p.players[i].side && c.players[i].role == p.players[i].role
        && |c.players[i].frames| == |p.players[i].frames|
        && forall j :: 0 <= j < |p.players[i].frames| ==>
          Widen(c.players[i].frames[j]) == p.players[i].frames[j].(s := 0.0, d := 0.0)
  {
  }
}
