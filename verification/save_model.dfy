/**
 The records a profile's save document holds once it has been deserialised,
 and the flat row the extraction produces from them.
 */
module SaveModel {

  /** A slot of a score array that is either null or holds a record; also the
      outcome of reading and parsing one profile's save document. */
  datatype Option<+T> = None | Some(value: T)

  /** Rust's i32. */
  newtype i32 = x: int | -0x8000_0000 <= x < 0x8000_0000

  /** One recorded play of one song at one difficulty. The accuracy is an f64
      that is only ever copied, so it is kept as a real. */
  datatype ScoreRecord = ScoreRecord(score: i32, acc: real, fc: bool)

  /** Profile-level metadata: `saveInfo.summary`. */
  datatype Summary = Summary(rankingScore: real, gameVersion: i32)

  datatype SaveInfo = SaveInfo(summary: Summary)

  /** One entry of `gameRecord`: a raw song id and its per-difficulty slots. */
  type SongEntry = (string, seq<Option<ScoreRecord>>)

  /** A deserialised save document. `gameRecord` is a hash map in the program;
      here its entries are listed in the order one iteration visits them. */
  datatype SaveData = SaveData(gameRecord: seq<SongEntry>, saveInfo: SaveInfo)

  /** One output row: one (profile, song, difficulty) with a present slot. */
  datatype ProcessedRecord = ProcessedRecord(
    songName: string,
    difficulty: string,
    score: i32,
    acc: real,
    fc: bool,
    rankingScore: real,
    gameVersion: string)
}
