/** One row of an nflverse play-by-play file, restricted to the columns the
    scripts read. Every column may be missing (NaN in the file). */
module PlayByPlay {
  import opened Basics

  datatype PbpRow = PbpRow(
    game: int, play: int,
    down: Option<int>, ydstogo: Option<int>,
    playType: Option<string>, yardsGained: Option<int>,
    shotgun: Option<int>,
    passLength: Option<string>, passLocation: Option<string>,
    posteam: Option<string>, defteam: Option<string>,
    qtr: Option<int>, desc: Option<string>)
}
