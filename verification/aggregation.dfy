/**
 Per-song aggregation, the loop of `main`: for each catalog name, the rows of
 every successfully parsed profile whose song name is that name, in profile
 order; a song's output files are written only when it has at least one row.
 Writing a file is modelled by the `SongOutput` it would hold.
 */
module Aggregation {

  import opened SaveModel
  import opened SongId
  import opened Extraction
  import opened Lexicographic
  import opened Catalog
  import opened Flatten

  /** The rows whose song name is `target`, in their original order. */
  function RowsNamed(rows: seq<ProcessedRecord>, target: string): (kept: seq<ProcessedRecord>)
    ensures |kept| <= |rows|
    ensures forall i :: 0 <= i < |kept| ==> kept[i].songName == target
    decreases |rows|
  {
    if rows == [] then []
    else if rows[0].songName == target then [rows[0]] + RowsNamed(rows[1..], target)
    else RowsNamed(rows[1..], target)
  }

  /** What `process_save_file` returns for one profile: its rows, or `None`
      when the save could not be read or parsed. */
  function Extract(profile: Option<SaveData>): Option<seq<ProcessedRecord>> {
    match profile
    case None => None
    case Some(save) => Some(SaveRows(save))
  }

  /** The extraction outcome of every profile, in enumeration order. */
  function Outcomes(profiles: seq<Option<SaveData>>): (outcomes: seq<Option<seq<ProcessedRecord>>>)
    ensures |outcomes| == |profiles|
    ensures forall p :: 0 <= p < |profiles| ==> outcomes[p] == Extract(profiles[p])
  {
    seq(|profiles|, p requires 0 <= p < |profiles| => Extract(profiles[p]))
  }

  /** What one outcome contributes to the rows of `target`: nothing when the
      save failed to read or parse. */
  function OutcomeRows(outcome: Option<seq<ProcessedRecord>>, target: string): seq<ProcessedRecord> {
    match outcome
    case None => []
    case Some(rows) => RowsNamed(rows, target)
  }

  /** The contribution of every outcome, in order. */
  function Parts(outcomes: seq<Option<seq<ProcessedRecord>>>, target: string): (parts: seq<seq<ProcessedRecord>>)
    ensures |parts| == |outcomes|
    ensures forall p :: 0 <= p < |outcomes| ==> parts[p] == OutcomeRows(outcomes[p], target)
  {
    seq(|outcomes|, p requires 0 <= p < |outcomes| => OutcomeRows(outcomes[p], target))
  }

  /** The rows of `target` from a list of outcomes, in order. */
  function Collect(outcomes: seq<Option<seq<ProcessedRecord>>>, target: string): seq<ProcessedRecord> {
    Concat(Parts(outcomes, target))
  }

  /** The rows of `target` across all profiles. */
  function Aggregate(profiles: seq<Option<SaveData>>, target: string): seq<ProcessedRecord> {
    Collect(Outcomes(profiles), target)
  }

  /** `process_save_file` on one profile: `None` (the program's `Err`) when
      its save could not be read or parsed, the rows of the save otherwise. */
  method ProcessProfile(profile: Option<SaveData>) returns (outcome: Option<seq<ProcessedRecord>>)
    ensures outcome == Extract(profile)
  {
    match profile {
      case None =>
        outcome := None;
      case Some(save) =>
        var scoresAndRks := ProcessSaveFile(save);
        outcome := Some(scoresAndRks);
    }
  }

  lemma OutcomesSnoc(profiles: seq<Option<SaveData>>, p: nat)
    requires p < |profiles|
    ensures Outcomes(profiles[..p + 1]) == Outcomes(profiles[..p]) + [Extract(profiles[p])]
  {
  }

  /** `process_save_file` on the `save.json` of every profile directory. */
  method ExtractAll(profiles: seq<Option<SaveData>>) returns (outcomes: seq<Option<seq<ProcessedRecord>>>)
    ensures outcomes == Outcomes(profiles)
  {
    outcomes := [];
    var p := 0;
    while p < |profiles|
      invariant p <= |profiles|
      invariant outcomes == Outcomes(profiles[..p])
    {
      var outcome := ProcessProfile(profiles[p]);
      OutcomesSnoc(profiles, p);
      outcomes := outcomes + [outcome];
      p := p + 1;
    }
    assert profiles[..p] == profiles;
  }

  /** For every outcome that is `Some`, keep the rows of `songName` and extend
      `all_song_data` with them. */
  method CollectSong(outcomes: seq<Option<seq<ProcessedRecord>>>, songName: string) returns (allSongData: seq<ProcessedRecord>)
    ensures allSongData == Collect(outcomes, songName)
  {
    ghost var parts := Parts(outcomes, songName);
    allSongData := [];
    var p := 0;
    while p < |outcomes|
      invariant p <= |outcomes|
      invariant allSongData == ConcatUpTo(parts, p)
    {
      match outcomes[p] {
        case Some(scoresAndRks) =>
          var songData := RowsNamed(scoresAndRks, songName);
          allSongData := allSongData + songData;
        case None =>
          assert parts[p] == [];
          assert allSongData + parts[p] == allSongData;
      }
      p := p + 1;
    }
  }

  /** The rows of one song across all profiles (`all_song_data`). */
  method AggregateSong(profiles: seq<Option<SaveData>>, songName: string) returns (allSongData: seq<ProcessedRecord>)
    ensures allSongData == Aggregate(profiles, songName)
  {
    var outcomes := ExtractAll(profiles);
    allSongData := CollectSong(outcomes, songName);
  }

  /** The files written for one song: its name and the rows they hold. */
  datatype SongOutput = SongOutput(songName: string, rows: seq<ProcessedRecord>)

  /** The outputs for a list of names, in list order, skipping names without rows. */
  function OutputsFor(profiles: seq<Option<SaveData>>, names: seq<string>): seq<SongOutput>
    decreases |names|
  {
    if names == [] then []
    else
      var name := names[|names| - 1];
      var rows := Aggregate(profiles, name);
      if rows == [] then OutputsFor(profiles, names[..|names| - 1])
      else OutputsFor(profiles, names[..|names| - 1]) + [SongOutput(name, rows)]
  }

  /** The body of `main` after the output directory exists: build the catalog,
      then aggregate and emit each name in catalog order. */
  method Run(profiles: seq<Option<SaveData>>) returns (songNames: seq<string>, outputs: seq<SongOutput>)
    ensures StrictlySorted(songNames)
    ensures forall x :: x in songNames <==> x in CatalogNames(profiles)
    ensures outputs == OutputsFor(profiles, songNames)
  {
    songNames := GetAllSongNames(profiles);
    outputs := [];
    var k := 0;
    while k < |songNames|
      invariant k <= |songNames|
      invariant outputs == OutputsFor(profiles, songNames[..k])
    {
      var songName := songNames[k];
      var allSongData := AggregateSong(profiles, songName);
      if allSongData != [] {
        outputs := outputs + [SongOutput(songName, allSongData)];
      }
      assert songNames[..k + 1][..k] == songNames[..k];
      k := k + 1;
    }
    assert songNames[..|songNames|] == songNames;
  }

  // ---------------------------------------------------------------------
  // Properties of the aggregation

  /** The filter keeps exactly the rows named `target`. */
  lemma {:induction false} RowsNamedMembership(rows: seq<ProcessedRecord>, target: string, r: ProcessedRecord)
    ensures r in RowsNamed(rows, target) <==> r in rows && r.songName == target
    decreases |rows|
  {
    if rows != [] {
      RowsNamedMembership(rows[1..], target, r);
      assert rows == [rows[0]] + rows[1..];
    }
  }

  /** Filtering a concatenation filters each part. */
  lemma {:induction false} RowsNamedConcat(a: seq<ProcessedRecord>, b: seq<ProcessedRecord>, target: string)
    ensures RowsNamed(a + b, target) == RowsNamed(a, target) + RowsNamed(b, target)
    decreases |a|
  {
    if a != [] {
      assert (a + b)[0] == a[0];
      assert (a + b)[1..] == a[1..] + b;
      RowsNamedConcat(a[1..], b, target);
      if a[0].songName == target {
        assert [a[0]] + (RowsNamed(a[1..], target) + RowsNamed(b, target))
          == ([a[0]] + RowsNamed(a[1..], target)) + RowsNamed(b, target);
      }
    } else {
      assert a + b == b;
    }
  }

  /** The outcome succeeded and `r` is one of its rows. */
  predicate RowIn(outcome: Option<seq<ProcessedRecord>>, r: ProcessedRecord) {
    outcome.Some? && r in outcome.value
  }

  /** One outcome contributes exactly its rows named `target`. */
  lemma OutcomeRowsMembership(outcome: Option<seq<ProcessedRecord>>, target: string, r: ProcessedRecord)
    ensures r in OutcomeRows(outcome, target) <==> r.songName == target && RowIn(outcome, r)
  {
    if outcome.Some? {
      RowsNamedMembership(outcome.value, target, r);
    }
  }

  /** The collected rows of `target` are exactly the rows named `target` of
      the outcomes that succeeded. */
  lemma CollectMembership(outcomes: seq<Option<seq<ProcessedRecord>>>, target: string, r: ProcessedRecord)
    ensures r in Collect(outcomes, target) <==>
      r.songName == target && exists p :: 0 <= p < |outcomes| && RowIn(outcomes[p], r)
  {
    var parts := Parts(outcomes, target);
    ConcatMembership(parts, r);
    if r in Collect(outcomes, target) {
      var p :| 0 <= p < |parts| && r in parts[p];
      OutcomeRowsMembership(outcomes[p], target, r);
    }
    if r.songName == target && exists p :: 0 <= p < |outcomes| && RowIn(outcomes[p], r) {
      var p :| 0 <= p < |outcomes| && RowIn(outcomes[p], r);
      OutcomeRowsMembership(outcomes[p], target, r);
      assert r in parts[p];
    }
  }

  /** The aggregated rows of `target` are exactly the rows named `target` of
      the profiles whose save was read and parsed. */
  lemma AggregateMembership(profiles: seq<Option<SaveData>>, target: string, r: ProcessedRecord)
    ensures r in Aggregate(profiles, target) <==>
      r.songName == target && exists p :: 0 <= p < |profiles| && RowIn(Extract(profiles[p]), r)
  {
    var outcomes := Outcomes(profiles);
    CollectMembership(outcomes, target, r);
    if r in Aggregate(profiles, target) {
      var p :| 0 <= p < |outcomes| && RowIn(outcomes[p], r);
      assert RowIn(Extract(profiles[p]), r);
    }
    if r.songName == target && exists p :: 0 <= p < |profiles| && RowIn(Extract(profiles[p]), r) {
      var p :| 0 <= p < |profiles| && RowIn(Extract(profiles[p]), r);
      assert RowIn(outcomes[p], r);
    }
  }

  /** Every aggregated row carries the target name. */
  lemma AggregateNamesTarget(profiles: seq<Option<SaveData>>, target: string)
    ensures forall r :: r in Aggregate(profiles, target) ==> r.songName == target
  {
    forall r | r in Aggregate(profiles, target) ensures r.songName == target {
      AggregateMembership(profiles, target, r);
    }
  }

  /** Outcomes are taken profile by profile. */
  lemma OutcomesAppend(a: seq<Option<SaveData>>, b: seq<Option<SaveData>>)
    ensures Outcomes(a + b) == Outcomes(a) + Outcomes(b)
  {
    var whole, left, right := Outcomes(a + b), Outcomes(a), Outcomes(b);
    forall p | 0 <= p < |a + b| ensures whole[p] == (left + right)[p] {
      if p < |a| {
        assert (a + b)[p] == a[p];
      } else {
        assert (a + b)[p] == b[p - |a|];
      }
    }
  }

  /** Contributions are taken outcome by outcome. */
  lemma PartsAppend(a: seq<Option<seq<ProcessedRecord>>>, b: seq<Option<seq<ProcessedRecord>>>, target: string)
    ensures Parts(a + b, target) == Parts(a, target) + Parts(b, target)
  {
    var whole, left, right := Parts(a + b, target), Parts(a, target), Parts(b, target);
    forall p | 0 <= p < |a + b| ensures whole[p] == (left + right)[p] {
      if p < |a| {
        assert (a + b)[p] == a[p];
      } else {
        assert (a + b)[p] == b[p - |a|];
      }
    }
  }

  /** Aggregating two lists of profiles in a row concatenates their rows. */
  lemma AggregateAppend(a: seq<Option<SaveData>>, b: seq<Option<SaveData>>, target: string)
    ensures Aggregate(a + b, target) == Aggregate(a, target) + Aggregate(b, target)
  {
    OutcomesAppend(a, b);
    PartsAppend(Outcomes(a), Outcomes(b), target);
    ConcatAppend(Parts(Outcomes(a), target), Parts(Outcomes(b), target));
  }

  /** A single profile contributes its own rows named `target`, or nothing
      when its save failed to read or parse. */
  lemma AggregateSingle(profile: Option<SaveData>, target: string)
    ensures Aggregate([profile], target) == if profile.Some? then RowsNamed(SaveRows(profile.value), target) else []
  {
    var outcomes := Outcomes([profile]);
    var parts := Parts(outcomes, target);
    assert parts == [parts[0]];
    ConcatSingle(parts[0]);
  }

  /** Profiles are concatenated in enumeration order, each contributing its
      own rows named `target` in extraction order. */
  lemma AggregateInProfileOrder(before: seq<Option<SaveData>>, save: SaveData, after: seq<Option<SaveData>>, target: string)
    ensures Aggregate(before + [Some(save)] + after, target)
      == Aggregate(before, target) + RowsNamed(SaveRows(save), target) + Aggregate(after, target)
  {
    AggregateAppend(before + [Some(save)], after, target);
    AggregateAppend(before, [Some(save)], target);
    AggregateSingle(Some(save), target);
  }

  /** A profile whose save failed to read or parse is skipped without
      changing anything, wherever it stands. */
  lemma AggregateSkipsFailed(before: seq<Option<SaveData>>, after: seq<Option<SaveData>>, target: string)
    ensures Aggregate(before + [None] + after, target) == Aggregate(before + after, target)
  {
    AggregateAppend(before + [None], after, target);
    AggregateAppend(before, [None], target);
    AggregateAppend(before, after, target);
    AggregateSingle(None, target);
    assert Aggregate(before, target) + [] == Aggregate(before, target);
  }

  /** A song's aggregated rows are empty exactly when no parsed profile has
      an entry with that canonical name and a present slot among its first
      four: such a song gets no output files. */
  lemma AggregateEmptyIff(profiles: seq<Option<SaveData>>, target: string)
    ensures Aggregate(profiles, target) == [] <==>
      forall p :: 0 <= p < |profiles| && profiles[p].Some? ==> !HasScoredEntry(profiles[p].value, target)
  {
    var rows := Aggregate(profiles, target);
    if rows != [] {
      var r := rows[0];
      AggregateMembership(profiles, target, r);
      var p :| 0 <= p < |profiles| && RowIn(Extract(profiles[p]), r);
      SaveRowsNamed(profiles[p].value, target);
    }
    forall p | 0 <= p < |profiles| && profiles[p].Some? && HasScoredEntry(profiles[p].value, target)
      ensures rows != []
    {
      SaveRowsNamed(profiles[p].value, target);
      var r :| r in SaveRows(profiles[p].value) && r.songName == target;
      assert RowIn(Extract(profiles[p]), r);
      AggregateMembership(profiles, target, r);
    }
  }

  // ---------------------------------------------------------------------
  // The aggregate as a filter over every extracted row

  /** The rows a profile yields: none when its save failed to read or parse. */
  function ProfileRows(profile: Option<SaveData>): seq<ProcessedRecord> {
    match profile
    case None => []
    case Some(save) => SaveRows(save)
  }

  /** Every row of every profile, in enumeration order. */
  function AllRows(profiles: seq<Option<SaveData>>): seq<ProcessedRecord>
    decreases |profiles|
  {
    if profiles == [] then []
    else AllRows(profiles[..|profiles| - 1]) + ProfileRows(profiles[|profiles| - 1])
  }

  /** The per-profile loop computes the same rows as extracting every profile
      first and then keeping the rows named `target` of the whole list. */
  lemma {:induction false} AggregateIsFilter(profiles: seq<Option<SaveData>>, target: string)
    ensures Aggregate(profiles, target) == RowsNamed(AllRows(profiles), target)
    decreases |profiles|
  {
    if profiles == [] {
      assert Parts(Outcomes(profiles), target) == [];
    } else {
      var prefix, last := profiles[..|profiles| - 1], profiles[|profiles| - 1];
      assert profiles == prefix + [last];
      AggregateIsFilter(prefix, target);
      AggregateAppend(prefix, [last], target);
      AggregateSingle(last, target);
      RowsNamedConcat(AllRows(prefix), ProfileRows(last), target);
    }
  }

  // ---------------------------------------------------------------------
  // Properties of the outputs

  lemma {:induction false} OutputsForMembership(profiles: seq<Option<SaveData>>, names: seq<string>, o: SongOutput)
    ensures o in OutputsFor(profiles, names) <==>
      o.songName in names && o.rows == Aggregate(profiles, o.songName) && o.rows != []
    decreases |names|
  {
    if names != [] {
      var prefix, name := names[..|names| - 1], names[|names| - 1];
      assert names == prefix + [name];
      OutputsForMembership(profiles, prefix, o);
    }
  }

  /** The names of the outputs keep the order of the list of names. */
  lemma {:induction false} OutputsForOrdered(profiles: seq<Option<SaveData>>, names: seq<string>)
    requires StrictlySorted(names)
    ensures var outs := OutputsFor(profiles, names);
      forall i, j :: 0 <= i < j < |outs| ==> Less(outs[i].songName, outs[j].songName)
    decreases |names|
  {
    if names != [] {
      var prefix, name := names[..|names| - 1], names[|names| - 1];
      var outs, prev := OutputsFor(profiles, names), OutputsFor(profiles, prefix);
      var rows := Aggregate(profiles, name);
      OutputsForOrdered(profiles, prefix);
      if rows == [] {
        assert outs == prev;
      } else {
        var last := SongOutput(name, rows);
        assert outs == prev + [last];
        forall i | 0 <= i < |prev| ensures Less(prev[i].songName, name) {
          OutputsForInNames(profiles, prefix, i);
          var k :| 0 <= k < |prefix| && prefix[k] == prev[i].songName;
          assert names[k] == prefix[k];
        }
        forall i, j | 0 <= i < j < |outs| ensures Less(outs[i].songName, outs[j].songName) {
          if j < |prev| {
            assert outs[i] == prev[i] && outs[j] == prev[j];
          } else {
            assert outs[i] == prev[i] && outs[j] == last;
          }
        }
      }
    }
  }

  /** Every output is named after one of the names. */
  lemma OutputsForInNames(profiles: seq<Option<SaveData>>, names: seq<string>, i: nat)
    requires i < |OutputsFor(profiles, names)|
    ensures OutputsFor(profiles, names)[i].songName in names
  {
    var o := OutputsFor(profiles, names)[i];
    OutputsForMembership(profiles, names, o);
  }

  /** Some output is for the song named `x`. */
  predicate HasOutput(outs: seq<SongOutput>, x: string) {
    exists o :: o in outs && o.songName == x
  }

  /** Some parsed profile has an entry named `x` with a score in one of its
      first four slots. */
  predicate ScoredSomewhere(profiles: seq<Option<SaveData>>, x: string) {
    exists p :: 0 <= p < |profiles| && profiles[p].Some? && HasScoredEntry(profiles[p].value, x)
  }

  /** What `main` writes: one output per catalog name whose aggregated rows
      are non-empty, holding exactly those rows, in ascending name order; a
      name gets an output exactly when some parsed profile has an entry with
      that canonical name and a score in one of its first four slots. */
  lemma RunOutputs(profiles: seq<Option<SaveData>>, songNames: seq<string>)
    requires StrictlySorted(songNames)
    requires forall x :: x in songNames <==> x in CatalogNames(profiles)
    ensures var outs := OutputsFor(profiles, songNames);
      (forall i, j :: 0 <= i < j < |outs| ==> Less(outs[i].songName, outs[j].songName))
      && (forall o :: o in outs <==>
        o.songName in CatalogNames(profiles) && o.rows == Aggregate(profiles, o.songName) && o.rows != [])
      && (forall o :: o in outs ==> forall r :: r in o.rows ==> r.songName == o.songName)
      && (forall x :: HasOutput(outs, x) <==> ScoredSomewhere(profiles, x))
  {
    var outs := OutputsFor(profiles, songNames);
    OutputsForOrdered(profiles, songNames);
    forall o ensures o in outs <==>
      o.songName in CatalogNames(profiles) && o.rows == Aggregate(profiles, o.songName) && o.rows != []
    {
      OutputsForMembership(profiles, songNames, o);
    }
    forall o | o in outs ensures forall r :: r in o.rows ==> r.songName == o.songName {
      OutputsForMembership(profiles, songNames, o);
      AggregateNamesTarget(profiles, o.songName);
    }
    forall x ensures HasOutput(outs, x) <==> ScoredSomewhere(profiles, x) {
      AggregateEmptyIff(profiles, x);
      if o :| o in outs && o.songName == x {
        OutputsForMembership(profiles, songNames, o);
      }
      if p :| 0 <= p < |profiles| && profiles[p].Some? && HasScoredEntry(profiles[p].value, x) {
        var e :| 0 <= e < |profiles[p].value.gameRecord| && Canonical(profiles[p].value.gameRecord[e].0) == x
          && Scored(profiles[p].value.gameRecord[e].1);
        CatalogMembership(profiles, x);
        assert ProfileHasName(profiles[p], x);
        var o := SongOutput(x, Aggregate(profiles, x));
        OutputsForMembership(profiles, songNames, o);
      }
    }
  }

  /** Every row extracted from a parsed profile ends up in the output of its
      song: the catalog and the extraction use the same canonical name, so
      no row is lost between them. */
  lemma EveryRowHasItsOutput(profiles: seq<Option<SaveData>>, songNames: seq<string>, p: nat, r: ProcessedRecord)
    requires StrictlySorted(songNames)
    requires forall x :: x in songNames <==> x in CatalogNames(profiles)
    requires p < |profiles| && profiles[p].Some? && r in SaveRows(profiles[p].value)
    ensures SongOutput(r.songName, Aggregate(profiles, r.songName)) in OutputsFor(profiles, songNames)
    ensures r in Aggregate(profiles, r.songName)
  {
    var save := profiles[p].value;
    SaveRowNamedHasEntry(save, r);
    assert RowIn(Extract(profiles[p]), r);
    AggregateMembership(profiles, r.songName, r);
    var e :| 0 <= e < |save.gameRecord| && Canonical(save.gameRecord[e].0) == r.songName && Scored(save.gameRecord[e].1);
    assert ProfileHasName(profiles[p], r.songName);
    CatalogMembership(profiles, r.songName);
    OutputsForMembership(profiles, songNames, SongOutput(r.songName, Aggregate(profiles, r.songName)));
  }
}
