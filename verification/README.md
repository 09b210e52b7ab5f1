# PhiSaveSong, modelled in Dafny

PhiSaveSong reads the `save.json` of every profile directory under
`saveData/` and regroups the scores by song. Each profile's `gameRecord` maps
a raw song id to an array of up to four difficulty slots (EZ, HD, IN, AT),
each null or a score record. The program:

1. builds a catalog of canonical song names. A raw id keeps the part before
   its last `.` when everything after that `.` is a decimal digit, so
   `songA.1` and `songA.2` both become `songA`;
2. for each catalog name in ascending order, walks the profiles again. For
   every profile whose save reads and parses, it keeps the flattened rows of
   that song;
3. writes a CSV and an XLSX file for a song only when it has at least one row.

The model covers `src/main.rs`:

- the data types;
- the canonicalisation of song ids;
- `process_save_file` after the read and the JSON parse;
- `get_all_song_names` after the directory walk and the reads;
- the aggregation loop of `main`, down to the decision to write a song's
  output.

Modules, one per file:

- `SaveModel`: the deserialised records and the output row.
- `Decimal`: `i32::to_string` and its reading back.
- `SongId`: the `rsplit_once('.')` rule.
- `Extraction`: `process_save_file`, as two nested loops over sequences,
  specified by the function `SaveRows`.
- `Lexicographic`: the string order `sort` uses, and sorting a set by
  repeated minimum selection.
- `Catalog`: `get_all_song_names`, specified by the set `CatalogNames`.
- `Flatten`: concatenation of a list of parts, the shape of every
  `extend` loop.
- `Aggregation`: the loop of `main`, specified by `Aggregate` and
  `OutputsFor`.

The filesystem is not modelled. The directory walk is a sequence of
profiles, each `Some(save)` when its `save.json` was read and parsed and
`None` otherwise; every pass over the directory sees this same sequence.

An id ending in `.` (`"foo."`) splits into `"foo"` and `""`. `all` over an
empty suffix is true, so its canonical name is `"foo"`: the code strips an
empty variant suffix just as it strips a numeric one.
`SongId.CanonicalDropsNumericSuffix` proves this.

## Model

| member | source | states |
|---|---|---|
| `Decimal.NatDigits` | src/main.rs:56 | the decimal digits of a natural number: non-empty, all ASCII digits, no leading zero |
| `Decimal.DecimalString` | src/main.rs:56 | `to_string` of an integer: a leading '-' exactly for negatives, digits after it |
| `Decimal.NatDigitsValue` | src/main.rs:56 | the digits of n read back as n |
| `Decimal.DecimalRoundTrip` | src/main.rs:56 | the game version string parses back to the i32 it renders |
| `Decimal.DecimalStringInjective` | src/main.rs:56 | two distinct versions never render to the same string |
| `SongId.LastDot` | src/main.rs:60 | the split point of `rsplit_once('.')`: none exactly when there is no '.', otherwise a '.' with no '.' after it |
| `SongId.LastDotIsUnique` | src/main.rs:60 | any '.' with no '.' after it is the split point |
| `SongId.Canonical` | src/main.rs:60-66 | the song-name closure; its verbatim copy at src/main.rs:99-105 is modelled by the same function. The name is never longer than the id, and when it differs, the id has a '.' right after it |
| `SongId.CanonicalIsIdOrBase` | src/main.rs:60-66 | the canonical name is the raw id, or its strict prefix before the last '.' when only digits follow that '.' |
| `SongId.CanonicalRule` | src/main.rs:60-66 | no '.' keeps the id; otherwise the base is taken exactly when the suffix after the last '.' is all digits |
| `SongId.CanonicalChangesIff` | src/main.rs:60-66 | the name differs from the id exactly when the id has a '.' and only digits follow the last one |
| `SongId.CanonicalDropsNumericSuffix` | src/main.rs:60-66 | "foo.1" to "foo", "foo." to "foo", "a.b.2" to "a.b", "a.1.2" to "a.1" |
| `SongId.CanonicalKeepsOtherIds` | src/main.rs:60-66 | "foo.bar" and "foo" are kept unchanged |
| `Extraction.DifficultyRank` | src/main.rs:57 | the index of a difficulty label in ["EZ","HD","IN","AT"], 4 for any other string |
| `Extraction.PushEntryRows` | src/main.rs:60-80 | one outer iteration: the entry's rows are appended after the rows already pushed |
| `Extraction.RecordRows` | src/main.rs:59-81 | the outer loop yields the rows of every entry, in entry order |
| `Extraction.ProcessSaveFile` | src/main.rs:54-83 | the returned vector is `SaveRows` of the save |
| `Extraction.SlotRowsCount` | src/main.rs:68-80 | the first n slots yield one row per present slot among them |
| `Extraction.EntryRowsCount` | src/main.rs:68-80 | an entry yields as many rows as it has present slots among its first min(4, len) |
| `Extraction.SlotRowsRow` | src/main.rs:69-78 | every row of the first n slots comes from a present slot below n, labelled by that slot's index |
| `Extraction.SlotRowsAscending` | src/main.rs:68 | rows of one entry are in strictly ascending slot order |
| `Extraction.SlotRowsComplete` | src/main.rs:68-79 | every present slot among the first n yields its row |
| `Extraction.EntryRowsExact` | src/main.rs:68-80 | an entry's rows are exactly its present slots below index 4: label from the index, score, acc and fc copied, name, rks and version attached, ascending |
| `Extraction.SlotRowsAgree` | src/main.rs:68 | the rows of the first n slots depend only on those n slots |
| `Extraction.EntryRowsIgnoreTail` | src/main.rs:68 | slots from the fifth on never change an entry's rows |
| `Extraction.EntriesRowsRow` | src/main.rs:59-81 | every row carries the save's rks and version, a known label, and the canonical name of one of the entries |
| `Extraction.EntriesRowsMembership` | src/main.rs:59-81 | a row of the first m entries is exactly a row of one of those entries |
| `Extraction.SaveRowsShape` | src/main.rs:55-77 | rankingScore and gameVersion are the same in every row of a save, and the version reads back as the save's i32 |
| `Extraction.SaveRowsCount` | src/main.rs:59-81 | a save yields as many rows as present slots among the first four of all its entries |
| `Extraction.EntryRowsNonEmpty` | src/main.rs:68-80 | an entry yields rows exactly when one of its first four slots is present |
| `Extraction.SaveRowNamedHasEntry` | src/main.rs:59-81 | a row named x comes from an entry with canonical name x and a present slot among its first four |
| `Extraction.ScoredEntryHasRow` | src/main.rs:59-81 | such an entry yields a row named x |
| `Extraction.SaveRowsNamed` | src/main.rs:59-81 | a save yields a row named x exactly when it has a scored entry whose canonical name is x |
| `Lexicographic.Less` | src/main.rs:113 | the `Ord` of `String` that `sort` uses: character by character, a proper prefix first; a string never precedes an equal one |
| `Lexicographic.LessIrreflexive` | src/main.rs:113 | no string sorts before itself |
| `Lexicographic.LessTransitive` | src/main.rs:113 | the string order is transitive |
| `Lexicographic.LessTotal` | src/main.rs:113 | any two distinct strings are ordered one way or the other |
| `Lexicographic.LessAsymmetric` | src/main.rs:113 | the string order is asymmetric |
| `Lexicographic.HasLeast` | src/main.rs:112-113 | a non-empty set of strings has a least element |
| `Lexicographic.SortedUnique` | src/main.rs:112-113 | two strictly sorted lists with the same elements are equal |
| `Lexicographic.SortedList` | src/main.rs:112-113 | the listing is strictly ascending and holds exactly the set's elements |
| `Catalog.GetAllSongNames` | src/main.rs:86-115 | the result is strictly ascending, with no duplicates, and holds exactly the catalog names |
| `Catalog.RecordNamesMembership` | src/main.rs:98-107 | the names of a record are the canonical forms of its keys |
| `Catalog.ProfileNamesMembership` | src/main.rs:96-108 | a profile contributes names only when its save was read and parsed |
| `Catalog.NamesUpToMembership` | src/main.rs:88-111 | the names of the first n profiles come from the parsed ones among them |
| `Catalog.CatalogMembership` | src/main.rs:86-115 | a name is in the catalog exactly when some parsed profile has a key with that canonical name |
| `Catalog.CatalogSkipsFailed` | src/main.rs:92-97 | a profile that fails to read or parse contributes nothing, wherever it is |
| `Catalog.CatalogUnion` | src/main.rs:88-111 | the catalog of two runs of profiles, one after the other, is the union of their catalogs |
| `Catalog.CatalogOrderIndependent` | src/main.rs:88-111 | the catalog does not depend on the order in which two runs of profiles are enumerated |
| `Catalog.CatalogListingUnique` | src/main.rs:112-113 | the sorted catalog is one list, whatever the set's iteration order |
| `Flatten.ConcatMembership` | src/main.rs:173 | an element of the extended vector is an element of one part, and every part's elements are in it |
| `Flatten.ConcatAppend` | src/main.rs:173 | extending with two lists of parts in a row concatenates their results |
| `Aggregation.ProcessProfile` | src/main.rs:166-168 | a profile's outcome is `None` (the program's `Err`) when its save failed, and `Some` of its rows otherwise |
| `Aggregation.ExtractAll` | src/main.rs:160-168 | the outcomes of every profile, in enumeration order |
| `Aggregation.CollectSong` | src/main.rs:159-176 | `all_song_data` is the concatenation of the rows named `song_name` of each successful outcome |
| `Aggregation.AggregateSong` | src/main.rs:158-176 | the rows of one song across all profiles |
| `Aggregation.Run` | src/main.rs:156-185 | the catalog is strictly sorted and exact; the outputs are those of `OutputsFor` on it |
| `Aggregation.RowsNamed` | src/main.rs:169-172 | the `filter(..).collect()` on `song_name`: keeps no more rows than it is given, and every kept row carries the target name |
| `Aggregation.RowsNamedMembership` | src/main.rs:169-172 | the filter keeps exactly the rows named `song_name` |
| `Aggregation.RowsNamedConcat` | src/main.rs:169-172 | filtering a concatenation filters each part, in order |
| `Aggregation.OutcomeRowsMembership` | src/main.rs:168-174 | a failed outcome contributes nothing; a successful one its rows named `song_name` |
| `Aggregation.CollectMembership` | src/main.rs:159-176 | the collected rows are exactly the rows named `song_name` of the successful outcomes |
| `Aggregation.AggregateMembership` | src/main.rs:159-176 | the aggregated rows are exactly the rows named `song_name` of the parsed profiles |
| `Aggregation.AggregateNamesTarget` | src/main.rs:171 | every aggregated row carries the target name |
| `Aggregation.AggregateAppend` | src/main.rs:160-176 | aggregating two runs of profiles concatenates their rows |
| `Aggregation.AggregateSingle` | src/main.rs:168-174 | one profile contributes its rows named `song_name`, or nothing when it failed |
| `Aggregation.AggregateInProfileOrder` | src/main.rs:160-176 | rows appear profile by profile, in enumeration order, each profile's in extraction order |
| `Aggregation.AggregateSkipsFailed` | src/main.rs:164-168 | a failed profile changes nothing, wherever it stands |
| `Aggregation.AggregateEmptyIff` | src/main.rs:178 | a song's rows are empty exactly when no parsed profile has a scored entry with that canonical name |
| `Aggregation.AggregateIsFilter` | src/main.rs:158-176 | the per-profile loop equals filtering the concatenation of every profile's rows |
| `Aggregation.OutputsForMembership` | src/main.rs:178-184 | an output exists for a name exactly when its aggregated rows are non-empty, and it holds those rows |
| `Aggregation.OutputsForOrdered` | src/main.rs:158 | outputs are produced in the order of the names |
| `Aggregation.RunOutputs` | src/main.rs:156-185 | outputs are in ascending name order; each is a catalog name with non-empty rows, all carrying its name; a name gets output exactly when a parsed profile has a scored entry under it |
| `Aggregation.EveryRowHasItsOutput` | src/main.rs:158-185 | every row extracted from a parsed profile is among its song's aggregated rows, and that song's output is written: the catalog and the extraction use the same canonical name, so no row is lost |

## Left out

- Reading `save.json`, the JSON parse (serde), `WalkDir`: each profile is given as the outcome of the read and the parse, `Some(save)` or `None`. `None` also covers a walk entry that is not a directory, an unreadable entry, or a missing file.
- Files changing between passes: the model assumes every pass over `saveData/` sees the same profiles, in the same order.
- `HashMap` iteration order: a game record is a sequence of (id, slots) pairs in one fixed order. The program builds a new `HashMap`, with its own `RandomState`, on every parse, so the catalog pass and each song's pass may visit the entries of one save in different orders, while the model uses one order for all passes. Nothing observable is lost. The catalog is a sorted set and does not depend on order. A song's rows depend only on the relative order of the entries that share its canonical name, and a single sequence can agree with every pass on those entries at once.
- `HashSet` collection: the catalog is a set. `sort` is modelled by repeated minimum selection; `CatalogListingUnique` shows that any sorting gives the same list.
- f64: `acc` and `rankingScore` are only copied, so they are modelled as `real` without rounding or NaN.
- Creating the output directory, `write_to_csv` and `write_to_excel`: a written pair of files is modelled as a `SongOutput` holding the song name and its rows. Write errors and the `?` early return of `main` are not modelled.
- Interleaving in `main`: the model extracts every profile and then filters (`ExtractAll`, then `CollectSong`). The program filters each profile right after extracting it. The rows and their order are the same.
- `nrks.py` is not part of this model.
