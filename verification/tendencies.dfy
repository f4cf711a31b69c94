/** The situational tendency tables of `build_tendencies.py`: pass/run rates,
    pass directions, shotgun usage and yards gained over play-by-play rows,
    overall and split by down, distance and formation, for two offenses. */
module Tendencies {
  import opened Basics
  import opened PlayByPlay

  predicate IsPass(r: PbpRow) { r.playType == Some("pass") }

  predicate IsRun(r: PbpRow) { r.playType == Some("run") }

  predicate IsPassOrRun(r: PbpRow) { IsPass(r) || IsRun(r) }

  predicate PassLeft(r: PbpRow) { IsPass(r) && r.passLocation == Some("left") }

  predicate PassMiddle(r: PbpRow) { IsPass(r) && r.passLocation == Some("middle") }

  predicate PassRight(r: PbpRow) { IsPass(r) && r.passLocation == Some("right") }

  /** The formation flag equals 1 (a missing flag equals nothing). */
  predicate Shotgun(r: PbpRow) { r.shotgun == Some(1) }

  predicate UnderCenter(r: PbpRow) { r.shotgun == Some(0) }

  predicate HasYards(r: PbpRow) { r.yardsGained.Some? }

  function YardsOf(r: PbpRow): int { r.yardsGained.GetOr(0) }

  /** pandas' `mean` of the yards column: missing values are skipped, and a
      column with no value at all yields NaN, which the source reports as 0. */
  function MeanYards(rows: seq<PbpRow>): Quotient {
    var present := Filter(rows, HasYards);
    if |present| == 0 then Quotient(0.0, 1) else Quotient(Sum(present, YardsOf) as real, |present|)
  }

  /** The share `part / whole` of the passes, or 0 when there are no passes. */
  function PassShare(part: nat, passes: nat): Quotient {
    if passes > 0 then Quotient(part as real, passes) else Quotient(0.0, 1)
  }

  /** One tendency summary; every rate is an exact quotient. */
  datatype Tendency = Tendency(
    sampleSize: nat,
    passRate: Quotient, runRate: Quotient,
    passLeft: Quotient, passMiddle: Quotient, passRight: Quotient,
    shotgunRate: Quotient,
    avgYards: Quotient, passAvgYards: Quotient, runAvgYards: Quotient)

  /** Pass-direction counts never exceed the number of passes. */
  lemma {:induction false} LocationCounts(rows: seq<PbpRow>)
    ensures Count(rows, PassLeft) + Count(rows, PassMiddle) + Count(rows, PassRight) <= Count(rows, IsPass)
  {
    if |rows| > 0 {
      LocationCounts(rows[1..]);
    }
  }

  /** `compute_tendencies`: `None` for an empty input and for an input with no
      pass and no run; otherwise rates over the pass and run rows only. */
  function ComputeTendencies(rows: seq<PbpRow>): (r: Option<Tendency>)
    ensures r.None? <==> Count(rows, IsPass) + Count(rows, IsRun) == 0
    ensures |rows| == 0 ==> r.None?
    ensures r.Some? ==>
      && r.value.sampleSize == Count(rows, IsPass) + Count(rows, IsRun)
      && r.value.sampleSize > 0
      && r.value.passRate == Quotient(Count(rows, IsPass) as real, r.value.sampleSize)
      && r.value.runRate == Quotient(Count(rows, IsRun) as real, r.value.sampleSize)
      && r.value.passRate.num + r.value.runRate.num == r.value.sampleSize as real
      && r.value.shotgunRate == Quotient(Count(rows, Shotgun) as real, r.value.sampleSize)
    ensures r.Some? && Count(rows, IsPass) == 0 ==>
      && r.value.passLeft.num == 0.0 && r.value.passMiddle.num == 0.0 && r.value.passRight.num == 0.0
      && r.value.passAvgYards.num == 0.0
    ensures r.Some? && Count(rows, IsPass) > 0 ==>
      && r.value.passLeft.den == Count(rows, IsPass)
      && r.value.passMiddle.den == Count(rows, IsPass)
      && r.value.passRight.den == Count(rows, IsPass)
      && r.value.passLeft.num == Count(rows, PassLeft) as real
      && r.value.passMiddle.num == Count(rows, PassMiddle) as real
      && r.value.passRight.num == Count(rows, PassRight) as real
      && 0.0 <= r.value.passLeft.num && 0.0 <= r.value.passMiddle.num && 0.0 <= r.value.passRight.num
      && r.value.passLeft.num + r.value.passMiddle.num + r.value.passRight.num <= Count(rows, IsPass) as real
    ensures r.Some? && Count(rows, IsRun) == 0 ==> r.value.runAvgYards.num == 0.0
  {
    var total := |rows|;
    if total == 0 then None
    else
      var passes := Filter(rows, IsPass);
      var runs := Filter(rows, IsRun);
      var passCount := |passes|;
      var runCount := |runs|;
      var passRunTotal := passCount + runCount;
      if passRunTotal == 0 then None
      else
        LocationCounts(rows);
        Some(Tendency(
          passRunTotal,
          Quotient(passCount as real, passRunTotal),
          Quotient(runCount as real, passRunTotal),
          PassShare(Count(rows, PassLeft), passCount),
          PassShare(Count(rows, PassMiddle), passCount),
          PassShare(Count(rows, PassRight), passCount),
          Quotient(Count(rows, Shotgun) as real, passRunTotal),
          MeanYards(rows),
          if passCount > 0 then MeanYards(passes) else Quotient(0.0, 1),
          if runCount > 0 then MeanYards(runs) else Quotient(0.0, 1)))
  }

  /** Rows that are all passes or runs count each once between the two. */
  lemma {:induction false} PassRunCover(rows: seq<PbpRow>)
    requires forall i :: 0 <= i < |rows| ==> IsPassOrRun(rows[i])
    ensures Count(rows, IsPass) + Count(rows, IsRun) == |rows|
  {
    if |rows| > 0 {
      PassRunCover(rows[1..]);
    }
  }

  /** On pass and run rows the sample is every row and the shotgun share is at
      most 1 (its numerator counts all rows, its denominator only passes and
      runs). */
  lemma ShotgunRateBounded(rows: seq<PbpRow>)
    requires |rows| > 0
    requires forall i :: 0 <= i < |rows| ==> IsPassOrRun(rows[i])
    ensures ComputeTendencies(rows).Some?
    ensures ComputeTendencies(rows).value.sampleSize == |rows|
    ensures ComputeTendencies(rows).value.shotgunRate.num <= ComputeTendencies(rows).value.shotgunRate.den as real
  {
    PassRunCover(rows);
  }

  // ---------------------------------------------------------------------
  // Situational buckets
  // ---------------------------------------------------------------------

  predicate Short(r: PbpRow) { r.ydstogo.Some? && 1 <= r.ydstogo.value <= 3 }

  predicate Medium(r: PbpRow) { r.ydstogo.Some? && 4 <= r.ydstogo.value <= 7 }

  predicate Long(r: PbpRow) { r.ydstogo.Some? && 8 <= r.ydstogo.value }

  /** No distance bucket applies: the distance is missing or below 1. */
  predicate NoDistance(r: PbpRow) { r.ydstogo.None? || r.ydstogo.value < 1 }

  /** The distance buckets and rows outside them split every set of rows. */
  lemma {:induction false} DistancePartition(rows: seq<PbpRow>)
    ensures Count(rows, Short) + Count(rows, Medium) + Count(rows, Long) + Count(rows, NoDistance) == |rows|
    ensures forall r :: !(Short(r) && Medium(r)) && !(Short(r) && Long(r)) && !(Medium(r) && Long(r))
  {
    if |rows| > 0 {
      DistancePartition(rows[1..]);
    }
  }

  /** The shotgun and under-center subsets never share a row. */
  lemma {:induction false} FormationDisjoint(rows: seq<PbpRow>)
    ensures Count(rows, Shotgun) + Count(rows, UnderCenter) <= |rows|
    ensures forall i :: 0 <= i < |rows| ==> !(Shotgun(rows[i]) && UnderCenter(rows[i]))
  {
    if |rows| > 0 {
      FormationDisjoint(rows[1..]);
    }
  }

  predicate OnDown1(r: PbpRow) { r.down == Some(1) }
  predicate OnDown2(r: PbpRow) { r.down == Some(2) }
  predicate OnDown3(r: PbpRow) { r.down == Some(3) }
  predicate OnDown4(r: PbpRow) { r.down == Some(4) }

  /** A labelled subset: the output key and the rows it selects. */
  type Bucket = (string, PbpRow -> bool)

  const DownBuckets: seq<Bucket> := [("1", OnDown1), ("2", OnDown2), ("3", OnDown3), ("4", OnDown4)]

  const DistanceBuckets: seq<Bucket> := [("short", Short), ("medium", Medium), ("long", Long)]

  const FormationBuckets: seq<Bucket> := [("shotgun", Shotgun), ("underCenter", UnderCenter)]

  predicate DistinctLabels(buckets: seq<Bucket>) {
    forall i, j :: 0 <= i < j < |buckets| ==> buckets[i].0 != buckets[j].0
  }

  /** The summary of each bucket, keyed by label, for the buckets whose
      summary exists. */
  function Bucketed<V>(rows: seq<PbpRow>, buckets: seq<Bucket>, summarize: seq<PbpRow> -> Option<V>): (m: map<string, V>)
    requires DistinctLabels(buckets)
    ensures forall i :: 0 <= i < |buckets| ==>
      (buckets[i].0 in m <==> summarize(Filter(rows, buckets[i].1)).Some?)
    ensures forall i :: 0 <= i < |buckets| && buckets[i].0 in m ==>
      m[buckets[i].0] == summarize(Filter(rows, buckets[i].1)).value
    ensures forall k :: k in m ==> exists i :: 0 <= i < |buckets| && buckets[i].0 == k
  {
    if |buckets| == 0 then map[]
    else
      var rest := Bucketed(rows, buckets[1..], summarize);
      assert forall i :: 1 <= i < |buckets| ==> buckets[i] == buckets[1..][i - 1];
      var t := summarize(Filter(rows, buckets[0].1));
      if t.Some? then rest[buckets[0].0 := t.value] else rest
  }

  // ---------------------------------------------------------------------
  // Per-team report (`main`)
  // ---------------------------------------------------------------------

  /** The pass and run rows of one offense, in file order. */
  function TeamRows(rows: seq<PbpRow>, team: string): seq<PbpRow> {
    Filter(rows, (r: PbpRow) => r.posteam == Some(team) && IsPassOrRun(r))
  }

  datatype ThirdDown = ThirdDown(
    overall: Option<Tendency>, short: Option<Tendency>,
    medium: Option<Tendency>, long: Option<Tendency>)

  datatype TeamReport = TeamReport(
    team: string, totalPlays: nat, overall: Option<Tendency>,
    byDown: map<string, Tendency>, byDistance: map<string, Tendency>,
    byFormation: map<string, Tendency>, thirdDown: ThirdDown)

  /** The third-down block: all third downs, then split by distance. */
  function ThirdDownOf(teamRows: seq<PbpRow>): ThirdDown {
    var third := Filter(teamRows, OnDown3);
    ThirdDown(ComputeTendencies(third),
              ComputeTendencies(Filter(third, Short)),
              ComputeTendencies(Filter(third, Medium)),
              ComputeTendencies(Filter(third, Long)))
  }

  /** The report of one offense. */
  function Report(rows: seq<PbpRow>, team: string): TeamReport {
    var teamRows := TeamRows(rows, team);
    TeamReport(
      team, |teamRows|, ComputeTendencies(teamRows),
      Bucketed(teamRows, DownBuckets, ComputeTendencies),
      Bucketed(teamRows, DistanceBuckets, ComputeTendencies),
      Bucketed(teamRows, FormationBuckets, ComputeTendencies),
      ThirdDownOf(teamRows))
  }

  /** The whole output: one report per covered offense, under its name. */
  function Reports(rows: seq<PbpRow>): (m: map<string, TeamReport>)
    ensures m.Keys == {"KC", "PHI"}
  {
    map t | t in {"KC", "PHI"} :: Report(rows, t)
  }

  /** Each report sits under its own offense, and its play count is the
      number of that offense's rows that are passes or runs, which is its
      passes plus its runs. */
  lemma ReportOfTeam(rows: seq<PbpRow>, team: string)
    requires team in {"KC", "PHI"}
    ensures Reports(rows)[team] == Report(rows, team)
    ensures Report(rows, team).team == team
    ensures Report(rows, team).totalPlays == Count(rows, (r: PbpRow) => r.posteam == Some(team) && IsPassOrRun(r))
    ensures Report(rows, team).totalPlays ==
      Count(TeamRows(rows, team), IsPass) + Count(TeamRows(rows, team), IsRun)
  {
    PassRunCover(TeamRows(rows, team));
  }

  /** A down, distance or formation key is present exactly when that subset has
      a tendency summary, and then holds it. */
  lemma BucketKeys(rows: seq<PbpRow>, team: string)
    ensures var t := Report(rows, team);
      var teamRows := TeamRows(rows, team);
      && ("1" in t.byDown <==> ComputeTendencies(Filter(teamRows, OnDown1)).Some?)
      && ("1" in t.byDown ==> t.byDown["1"] == ComputeTendencies(Filter(teamRows, OnDown1)).value)
      && ("2" in t.byDown <==> ComputeTendencies(Filter(teamRows, OnDown2)).Some?)
      && ("2" in t.byDown ==> t.byDown["2"] == ComputeTendencies(Filter(teamRows, OnDown2)).value)
      && ("3" in t.byDown <==> ComputeTendencies(Filter(teamRows, OnDown3)).Some?)
      && ("3" in t.byDown ==> t.byDown["3"] == ComputeTendencies(Filter(teamRows, OnDown3)).value)
      && ("4" in t.byDown <==> ComputeTendencies(Filter(teamRows, OnDown4)).Some?)
      && ("4" in t.byDown ==> t.byDown["4"] == ComputeTendencies(Filter(teamRows, OnDown4)).value)
      && ("short" in t.byDistance <==> ComputeTendencies(Filter(teamRows, Short)).Some?)
      && ("medium" in t.byDistance <==> ComputeTendencies(Filter(teamRows, Medium)).Some?)
      && ("long" in t.byDistance <==> ComputeTendencies(Filter(teamRows, Long)).Some?)
      && ("shotgun" in t.byFormation <==> ComputeTendencies(Filter(teamRows, Shotgun)).Some?)
      && ("underCenter" in t.byFormation <==> ComputeTendencies(Filter(teamRows, UnderCenter)).Some?)
  {
    var teamRows := TeamRows(rows, team);
    assert DownBuckets[0] == ("1", OnDown1);
    assert DownBuckets[1] == ("2", OnDown2);
    assert DownBuckets[2] == ("3", OnDown3);
    assert DownBuckets[3] == ("4", OnDown4);
    assert DistanceBuckets[0] == ("short", Short);
    assert DistanceBuckets[1] == ("medium", Medium);
    assert DistanceBuckets[2] == ("long", Long);
    assert FormationBuckets[0] == ("shotgun", Shotgun);
    assert FormationBuckets[1] == ("underCenter", UnderCenter);
  }

  /** The third-down block repeats the third-down entry of `byDown`. */
  lemma ThirdDownMatchesByDown(rows: seq<PbpRow>, team: string)
    ensures var t := Report(rows, team);
      && (t.thirdDown.overall.Some? <==> "3" in t.byDown)
      && ("3" in t.byDown ==> t.thirdDown.overall == Some(t.byDown["3"]))
  {
    BucketKeys(rows, team);
  }

  /** The third-down block splits the offense's third downs by distance. */
  lemma ThirdDownSplits(rows: seq<PbpRow>, team: string)
    ensures var third := Filter(TeamRows(rows, team), OnDown3);
      var t := Report(rows, team).thirdDown;
      && t.short == ComputeTendencies(Filter(third, Short))
      && t.medium == ComputeTendencies(Filter(third, Medium))
      && t.long == ComputeTendencies(Filter(third, Long))
  {
  }

  /** Every team row is a pass or a run, so a team's overall summary exists
      exactly when it has plays, samples every one of them, and has a shotgun
      rate of at most 1. */
  lemma TeamOverall(rows: seq<PbpRow>, team: string)
    ensures var t := Report(rows, team);
      && (t.overall.Some? <==> t.totalPlays > 0)
      && (t.overall.Some? ==> t.overall.value.sampleSize == t.totalPlays)
      && (t.overall.Some? ==> t.overall.value.shotgunRate.num <= t.overall.value.shotgunRate.den as real)
  {
    var teamRows := TeamRows(rows, team);
    if |teamRows| > 0 {
      ShotgunRateBounded(teamRows);
    }
  }
}
