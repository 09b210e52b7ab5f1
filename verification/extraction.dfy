/**
 Row extraction: one parsed save document becomes a flat list of
 ProcessedRecord rows, one per present slot among the first four slots of
 each song entry.
 */
module Extraction {

  import opened SaveModel
  import opened Decimal
  import opened SongId

  /** Difficulty labels by slot index. */
  const Difficulties: seq<string> := ["EZ", "HD", "IN", "AT"]

  /** Only this many slots of an entry are looked at (`take(4)`). */
  const SlotLimit: nat := 4

  function Min(a: nat, b: nat): nat {
    if a <= b then a else b
  }

  /** The position of a difficulty label, 4 for anything else. */
  function DifficultyRank(d: string): (i: nat)
    ensures i <= 4
    ensures i < 4 ==> Difficulties[i] == d
    ensures d in Difficulties ==> i < 4
  {
    if d == "EZ" then 0
    else if d == "HD" then 1
    else if d == "IN" then 2
    else if d == "AT" then 3
    else 4
  }

  /** The row for a present slot `i`. */
  function MakeRow(name: string, i: nat, rec: ScoreRecord, rks: real, ver: string): ProcessedRecord
    requires i < SlotLimit
  {
    ProcessedRecord(name, Difficulties[i], rec.score, rec.acc, rec.fc, rks, ver)
  }

  /** The rows of the first `n` slots, in slot order. */
  function SlotRows(name: string, slots: seq<Option<ScoreRecord>>, n: nat, rks: real, ver: string): seq<ProcessedRecord>
    requires n <= |slots| && n <= SlotLimit
    decreases n
  {
    if n == 0 then []
    else
      match slots[n - 1]
      case None => SlotRows(name, slots, n - 1, rks, ver)
      case Some(rec) => SlotRows(name, slots, n - 1, rks, ver) + [MakeRow(name, n - 1, rec, rks, ver)]
  }

  /** The rows of one song entry. */
  function EntryRows(name: string, slots: seq<Option<ScoreRecord>>, rks: real, ver: string): seq<ProcessedRecord> {
    SlotRows(name, slots, Min(SlotLimit, |slots|), rks, ver)
  }

  /** The rows of one entry, under its canonical name. */
  function EntryRowsOf(entry: SongEntry, rks: real, ver: string): seq<ProcessedRecord> {
    EntryRows(Canonical(entry.0), entry.1, rks, ver)
  }

  /** The rows of the first `m` entries of a game record, in entry order. */
  function EntriesRows(record: seq<SongEntry>, m: nat, rks: real, ver: string): seq<ProcessedRecord>
    requires m <= |record|
    decreases m
  {
    if m == 0 then []
    else EntriesRows(record, m - 1, rks, ver) + EntryRowsOf(record[m - 1], rks, ver)
  }

  function RankingScore(save: SaveData): real {
    save.saveInfo.summary.rankingScore
  }

  function GameVersion(save: SaveData): string {
    DecimalString(save.saveInfo.summary.gameVersion as int)
  }

  /** All rows of one save document. */
  function SaveRows(save: SaveData): seq<ProcessedRecord> {
    EntriesRows(save.gameRecord, |save.gameRecord|, RankingScore(save), GameVersion(save))
  }

  /** The body of the outer loop of `process_save_file`: canonicalise the
      entry's song id, then push the row of every present slot among its
      first four onto `scoresAndRks`. */
  method PushEntryRows(scoresAndRks: seq<ProcessedRecord>, entry: SongEntry, rankingScore: real, gameVersion: string)
    returns (pushed: seq<ProcessedRecord>)
    ensures pushed == scoresAndRks + EntryRowsOf(entry, rankingScore, gameVersion)
  {
    var (songId, songScores) := entry;
    var songName := Canonical(songId);
    pushed := scoresAndRks;
    var i := 0;
    while i < |songScores| && i < SlotLimit
      invariant i <= Min(SlotLimit, |songScores|)
      invariant pushed == scoresAndRks + SlotRows(songName, songScores, i, rankingScore, gameVersion)
    {
      match songScores[i] {
        case Some(rec) =>
          pushed := pushed + [ProcessedRecord(songName, Difficulties[i], rec.score, rec.acc, rec.fc, rankingScore, gameVersion)];
        case None =>
      }
      i := i + 1;
    }
  }

  /** The outer loop of `process_save_file`: the rows of every entry of a
      game record, in entry order, under one ranking score and version. */
  method RecordRows(record: seq<SongEntry>, rankingScore: real, gameVersion: string) returns (scoresAndRks: seq<ProcessedRecord>)
    ensures scoresAndRks == EntriesRows(record, |record|, rankingScore, gameVersion)
  {
    scoresAndRks := [];
    var e := 0;
    while e < |record|
      invariant e <= |record|
      invariant scoresAndRks == EntriesRows(record, e, rankingScore, gameVersion)
    {
      scoresAndRks := PushEntryRows(scoresAndRks, record[e], rankingScore, gameVersion);
      e := e + 1;
    }
  }

  /** `process_save_file` after the read and the parse. */
  method ProcessSaveFile(save: SaveData) returns (scoresAndRks: seq<ProcessedRecord>)
    ensures scoresAndRks == SaveRows(save)
  {
    var rankingScore := save.saveInfo.summary.rankingScore;
    var gameVersion := DecimalString(save.saveInfo.summary.gameVersion as int);
    scoresAndRks := RecordRows(save.gameRecord, rankingScore, gameVersion);
  }

  // ---------------------------------------------------------------------
  // Properties of the extraction

  /** The number of present slots, counted from the front. */
  function CountPresent(slots: seq<Option<ScoreRecord>>): nat {
    if slots == [] then 0 else (if slots[0].Some? then 1 else 0) + CountPresent(slots[1..])
  }

  lemma {:induction false} CountPresentAppend(s: seq<Option<ScoreRecord>>, x: Option<ScoreRecord>)
    ensures CountPresent(s + [x]) == CountPresent(s) + (if x.Some? then 1 else 0)
    decreases |s|
  {
    if s != [] {
      assert (s + [x])[1..] == s[1..] + [x];
      CountPresentAppend(s[1..], x);
    }
  }

  lemma {:induction false} SlotRowsCount(name: string, slots: seq<Option<ScoreRecord>>, n: nat, rks: real, ver: string)
    requires n <= |slots| && n <= SlotLimit
    ensures |SlotRows(name, slots, n, rks, ver)| == CountPresent(slots[..n])
    decreases n
  {
    if n > 0 {
      SlotRowsCount(name, slots, n - 1, rks, ver);
      assert slots[..n] == slots[..n - 1] + [slots[n - 1]];
      CountPresentAppend(slots[..n - 1], slots[n - 1]);
    }
  }

  /** One song entry yields as many rows as it has present slots among its
      first four; slots from index 4 on never yield a row. */
  lemma EntryRowsCount(name: string, slots: seq<Option<ScoreRecord>>, rks: real, ver: string)
    ensures |EntryRows(name, slots, rks, ver)| == CountPresent(slots[..Min(SlotLimit, |slots|)])
  {
    SlotRowsCount(name, slots, Min(SlotLimit, |slots|), rks, ver);
  }

  /** Rows in strictly ascending slot order. */
  predicate AscendingSlots(rows: seq<ProcessedRecord>) {
    forall j1, j2 :: 0 <= j1 < j2 < |rows| ==> DifficultyRank(rows[j1].difficulty) < DifficultyRank(rows[j2].difficulty)
  }

  /** Every row of the first `n` slots comes from a present slot below `n`,
      copies that slot's fields and is labelled by that slot's index. */
  lemma {:induction false} SlotRowsRow(name: string, slots: seq<Option<ScoreRecord>>, n: nat, rks: real, ver: string, r: ProcessedRecord)
    requires n <= |slots| && n <= SlotLimit
    requires r in SlotRows(name, slots, n, rks, ver)
    ensures DifficultyRank(r.difficulty) < n && slots[DifficultyRank(r.difficulty)].Some?
    ensures r == MakeRow(name, DifficultyRank(r.difficulty), slots[DifficultyRank(r.difficulty)].value, rks, ver)
    decreases n
  {
    var prev := SlotRows(name, slots, n - 1, rks, ver);
    if r in prev {
      SlotRowsRow(name, slots, n - 1, rks, ver, r);
    } else {
      assert r == MakeRow(name, n - 1, slots[n - 1].value, rks, ver);
    }
  }

  /** The rows of the first `n` slots appear in strictly ascending slot order. */
  lemma {:induction false} SlotRowsAscending(name: string, slots: seq<Option<ScoreRecord>>, n: nat, rks: real, ver: string)
    requires n <= |slots| && n <= SlotLimit
    ensures AscendingSlots(SlotRows(name, slots, n, rks, ver))
    decreases n
  {
    if n > 0 {
      SlotRowsAscending(name, slots, n - 1, rks, ver);
      var rows := SlotRows(name, slots, n, rks, ver);
      var prev := SlotRows(name, slots, n - 1, rks, ver);
      if slots[n - 1].Some? {
        var last := MakeRow(name, n - 1, slots[n - 1].value, rks, ver);
        assert rows == prev + [last];
        assert DifficultyRank(last.difficulty) == n - 1;
        forall j1, j2 | 0 <= j1 < j2 < |rows|
          ensures DifficultyRank(rows[j1].difficulty) < DifficultyRank(rows[j2].difficulty)
        {
          if j2 == |rows| - 1 {
            assert rows[j1] == prev[j1];
            SlotRowsRow(name, slots, n - 1, rks, ver, prev[j1]);
          }
        }
      } else {
        assert rows == prev;
      }
    }
  }

  /** Every present slot among the first `n` yields its row. */
  lemma {:induction false} SlotRowsComplete(name: string, slots: seq<Option<ScoreRecord>>, n: nat, rks: real, ver: string)
    requires n <= |slots| && n <= SlotLimit
    ensures forall i :: 0 <= i < n && slots[i].Some? ==>
      MakeRow(name, i, slots[i].value, rks, ver) in SlotRows(name, slots, n, rks, ver)
    decreases n
  {
    if n > 0 {
      SlotRowsComplete(name, slots, n - 1, rks, ver);
    }
  }

  /** The rows of one entry: exactly the rows of its present slots below
      index 4, each labelled by its slot's difficulty and copying the slot's
      score, accuracy and full-combo flag, in ascending slot order. */
  lemma EntryRowsExact(name: string, slots: seq<Option<ScoreRecord>>, rks: real, ver: string)
    ensures var rows := EntryRows(name, slots, rks, ver);
      (forall i :: 0 <= i < Min(SlotLimit, |slots|) && slots[i].Some? ==>
        MakeRow(name, i, slots[i].value, rks, ver) in rows)
      && (forall r :: r in rows ==>
        DifficultyRank(r.difficulty) < Min(SlotLimit, |slots|)
        && Difficulties[DifficultyRank(r.difficulty)] == r.difficulty
        && slots[DifficultyRank(r.difficulty)] == Some(ScoreRecord(r.score, r.acc, r.fc))
        && r.songName == name && r.rankingScore == rks && r.gameVersion == ver)
      && AscendingSlots(rows)
  {
    var n := Min(SlotLimit, |slots|);
    SlotRowsComplete(name, slots, n, rks, ver);
    SlotRowsAscending(name, slots, n, rks, ver);
    forall r | r in SlotRows(name, slots, n, rks, ver)
      ensures DifficultyRank(r.difficulty) < n
      ensures slots[DifficultyRank(r.difficulty)] == Some(ScoreRecord(r.score, r.acc, r.fc))
      ensures r.songName == name && r.rankingScore == rks && r.gameVersion == ver
    {
      SlotRowsRow(name, slots, n, rks, ver, r);
    }
  }

  lemma {:induction false} SlotRowsAgree(name: string, a: seq<Option<ScoreRecord>>, b: seq<Option<ScoreRecord>>, n: nat, rks: real, ver: string)
    requires n <= |a| && n <= |b| && n <= SlotLimit && a[..n] == b[..n]
    ensures SlotRows(name, a, n, rks, ver) == SlotRows(name, b, n, rks, ver)
    decreases n
  {
    if n > 0 {
      assert a[..n - 1] == b[..n - 1] by { assert a[..n - 1] == a[..n][..n - 1]; assert b[..n - 1] == b[..n][..n - 1]; }
      assert a[n - 1] == a[..n][n - 1] == b[..n][n - 1] == b[n - 1];
      SlotRowsAgree(name, a, b, n - 1, rks, ver);
    }
  }

  /** Slots past the fourth are ignored: appending any slots to an entry that
      already has four changes none of its rows. */
  lemma EntryRowsIgnoreTail(name: string, slots: seq<Option<ScoreRecord>>, extra: seq<Option<ScoreRecord>>, rks: real, ver: string)
    requires |slots| >= SlotLimit
    ensures EntryRows(name, slots + extra, rks, ver) == EntryRows(name, slots, rks, ver)
  {
    assert (slots + extra)[..SlotLimit] == slots[..SlotLimit];
    SlotRowsAgree(name, slots + extra, slots, SlotLimit, rks, ver);
  }

  /** The song ids of a game record, canonicalised. */
  predicate NamesKey(record: seq<SongEntry>, name: string) {
    exists e :: 0 <= e < |record| && Canonical(record[e].0) == name
  }

  lemma {:induction false} EntriesRowsRow(record: seq<SongEntry>, m: nat, rks: real, ver: string, r: ProcessedRecord)
    requires m <= |record| && r in EntriesRows(record, m, rks, ver)
    ensures r.rankingScore == rks && r.gameVersion == ver && r.difficulty in Difficulties
    ensures exists e :: 0 <= e < m && Canonical(record[e].0) == r.songName
    decreases m
  {
    var e := m - 1;
    if r in EntriesRows(record, e, rks, ver) {
      EntriesRowsRow(record, e, rks, ver, r);
    } else {
      EntryRowsExact(Canonical(record[e].0), record[e].1, rks, ver);
    }
  }

  /** `r` is one of the rows of entry `e`. */
  predicate RowOfEntry(record: seq<SongEntry>, e: nat, rks: real, ver: string, r: ProcessedRecord)
    requires e < |record|
  {
    r in EntryRows(Canonical(record[e].0), record[e].1, rks, ver)
  }

  /** A row of the first `m` entries is a row of one of those entries. */
  lemma {:induction false} EntriesRowsMembership(record: seq<SongEntry>, m: nat, rks: real, ver: string, r: ProcessedRecord)
    requires m <= |record|
    ensures r in EntriesRows(record, m, rks, ver) <==> exists e :: 0 <= e < m && RowOfEntry(record, e, rks, ver, r)
    decreases m
  {
    if m > 0 {
      var prev := EntriesRows(record, m - 1, rks, ver);
      var cur := EntryRows(Canonical(record[m - 1].0), record[m - 1].1, rks, ver);
      assert EntriesRows(record, m, rks, ver) == prev + cur;
      EntriesRowsMembership(record, m - 1, rks, ver, r);
      if r in prev {
        var e :| 0 <= e < m - 1 && RowOfEntry(record, e, rks, ver, r);
        assert 0 <= e < m && RowOfEntry(record, e, rks, ver, r);
      } else if r in cur {
        assert RowOfEntry(record, m - 1, rks, ver, r);
      }
      if e :| 0 <= e < m && RowOfEntry(record, e, rks, ver, r) {
        if e < m - 1 {
          assert r in prev;
        } else {
          assert r in cur;
        }
      }
    }
  }

  /** Every row of a save carries that save's ranking score and the decimal
      rendering of its game version, has one of the four labels, and is named
      after the canonical form of one of its song ids. */
  lemma SaveRowsShape(save: SaveData)
    ensures forall r :: r in SaveRows(save) ==>
      r.rankingScore == save.saveInfo.summary.rankingScore
      && r.gameVersion == DecimalString(save.saveInfo.summary.gameVersion as int)
      && ParseDecimal(r.gameVersion) == Some(save.saveInfo.summary.gameVersion as int)
      && r.difficulty in Difficulties
      && NamesKey(save.gameRecord, r.songName)
  {
    DecimalRoundTrip(save.saveInfo.summary.gameVersion as int);
    forall r | r in SaveRows(save)
      ensures r.rankingScore == save.saveInfo.summary.rankingScore
      ensures r.gameVersion == DecimalString(save.saveInfo.summary.gameVersion as int)
      ensures r.difficulty in Difficulties
      ensures NamesKey(save.gameRecord, r.songName)
    {
      EntriesRowsRow(save.gameRecord, |save.gameRecord|, RankingScore(save), GameVersion(save), r);
    }
  }

  /** The number of present slots below index 4, summed over the entries. */
  function PresentInRecord(record: seq<SongEntry>): nat {
    if record == [] then 0
    else CountPresent(record[0].1[..Min(SlotLimit, |record[0].1|)]) + PresentInRecord(record[1..])
  }

  lemma {:induction false} PresentInRecordAppend(record: seq<SongEntry>, x: SongEntry)
    ensures PresentInRecord(record + [x]) == PresentInRecord(record) + CountPresent(x.1[..Min(SlotLimit, |x.1|)])
    decreases |record|
  {
    if record != [] {
      assert (record + [x])[1..] == record[1..] + [x];
      PresentInRecordAppend(record[1..], x);
    }
  }

  lemma PresentInPrefix(record: seq<SongEntry>, m: nat)
    requires 0 < m <= |record|
    ensures PresentInRecord(record[..m]) == PresentInRecord(record[..m - 1]) + CountPresent(record[m - 1].1[..Min(SlotLimit, |record[m - 1].1|)])
  {
    assert record[..m] == record[..m - 1] + [record[m - 1]];
    PresentInRecordAppend(record[..m - 1], record[m - 1]);
  }

  lemma {:induction false} EntriesRowsCount(record: seq<SongEntry>, m: nat, rks: real, ver: string)
    requires m <= |record|
    ensures |EntriesRows(record, m, rks, ver)| == PresentInRecord(record[..m])
    decreases m
  {
    if m > 0 {
      EntriesRowsCount(record, m - 1, rks, ver);
      EntryRowsCount(Canonical(record[m - 1].0), record[m - 1].1, rks, ver);
      PresentInPrefix(record, m);
    }
  }

  /** A save yields as many rows as there are present slots among the first
      four slots of all its entries. */
  lemma SaveRowsCount(save: SaveData)
    ensures |SaveRows(save)| == PresentInRecord(save.gameRecord)
  {
    EntriesRowsCount(save.gameRecord, |save.gameRecord|, RankingScore(save), GameVersion(save));
    assert save.gameRecord[..|save.gameRecord|] == save.gameRecord;
  }

  // ---------------------------------------------------------------------
  // Which entries yield rows at all

  /** One of the first four slots holds a score. */
  predicate Scored(slots: seq<Option<ScoreRecord>>) {
    exists i :: 0 <= i < Min(SlotLimit, |slots|) && slots[i].Some?
  }

  /** An entry yields rows exactly when one of its first four slots holds a
      score; a fifth or later slot never counts. */
  lemma EntryRowsNonEmpty(name: string, slots: seq<Option<ScoreRecord>>, rks: real, ver: string)
    ensures EntryRows(name, slots, rks, ver) != [] <==> Scored(slots)
  {
    var rows := EntryRows(name, slots, rks, ver);
    EntryRowsExact(name, slots, rks, ver);
    if rows != [] {
      assert rows[0] in rows;
      assert slots[DifficultyRank(rows[0].difficulty)].Some?;
    }
    if Scored(slots) {
      var i :| 0 <= i < Min(SlotLimit, |slots|) && slots[i].Some?;
      assert MakeRow(name, i, slots[i].value, rks, ver) in rows;
    }
  }

  /** The save has an entry whose canonical name is `target` and that yields rows. */
  predicate HasScoredEntry(save: SaveData, target: string) {
    exists e :: 0 <= e < |save.gameRecord| && Canonical(save.gameRecord[e].0) == target && Scored(save.gameRecord[e].1)
  }

  lemma SaveRowNamedHasEntry(save: SaveData, r: ProcessedRecord)
    requires r in SaveRows(save)
    ensures HasScoredEntry(save, r.songName)
  {
    var record := save.gameRecord;
    var rks, ver := RankingScore(save), GameVersion(save);
    EntriesRowsMembership(record, |record|, rks, ver, r);
    var e :| 0 <= e < |record| && RowOfEntry(record, e, rks, ver, r);
    var name := Canonical(record[e].0);
    EntryRowsExact(name, record[e].1, rks, ver);
    EntryRowsNonEmpty(name, record[e].1, rks, ver);
    assert name == r.songName && Scored(record[e].1);
  }

  lemma ScoredEntryHasRow(save: SaveData, target: string, e: nat)
    requires e < |save.gameRecord| && Canonical(save.gameRecord[e].0) == target && Scored(save.gameRecord[e].1)
    ensures exists r :: r in SaveRows(save) && r.songName == target
  {
    var record := save.gameRecord;
    var rks, ver := RankingScore(save), GameVersion(save);
    var rows := EntryRows(target, record[e].1, rks, ver);
    EntryRowsNonEmpty(target, record[e].1, rks, ver);
    EntryRowsExact(target, record[e].1, rks, ver);
    var r := rows[0];
    assert r in rows;
    assert RowOfEntry(record, e, rks, ver, r);
    EntriesRowsMembership(record, |record|, rks, ver, r);
  }

  /** A save yields a row named `target` exactly when it has an entry with
      that canonical name and a score in one of its first four slots. */
  lemma SaveRowsNamed(save: SaveData, target: string)
    ensures (exists r :: r in SaveRows(save) && r.songName == target) <==> HasScoredEntry(save, target)
  {
    if r :| r in SaveRows(save) && r.songName == target {
      SaveRowNamedHasEntry(save, r);
    }
    if HasScoredEntry(save, target) {
      var e :| 0 <= e < |save.gameRecord| && Canonical(save.gameRecord[e].0) == target && Scored(save.gameRecord[e].1);
      ScoredEntryHasRow(save, target, e);
    }
  }
}
