/**
 The song catalog (`get_all_song_names`): the canonical names of every
 `gameRecord` key of every profile whose save document was read and parsed,
 without duplicates, in ascending order. Each profile is given as the outcome
 of reading and parsing its `save.json`; `None` stands for a missing
 directory entry, a missing or unreadable file, or a document that does not
 parse.
 */
module Catalog {

  import opened SaveModel
  import opened SongId
  import opened Extraction
  import opened Lexicographic

  /** The canonical names of the first `m` entries of a game record. */
  function RecordNames(record: seq<SongEntry>, m: nat): set<string>
    requires m <= |record|
    decreases m
  {
    if m == 0 then {} else RecordNames(record, m - 1) + {Canonical(record[m - 1].0)}
  }

  /** What one profile contributes to the catalog. */
  function ProfileNames(profile: Option<SaveData>): set<string> {
    match profile
    case None => {}
    case Some(save) => RecordNames(save.gameRecord, |save.gameRecord|)
  }

  /** The names contributed by the first `n` profiles. */
  function NamesUpTo(profiles: seq<Option<SaveData>>, n: nat): set<string>
    requires n <= |profiles|
    decreases n
  {
    if n == 0 then {} else NamesUpTo(profiles, n - 1) + ProfileNames(profiles[n - 1])
  }

  function CatalogNames(profiles: seq<Option<SaveData>>): set<string> {
    NamesUpTo(profiles, |profiles|)
  }

  /** `get_all_song_names`: collect the names into a set, then list them sorted. */
  method GetAllSongNames(profiles: seq<Option<SaveData>>) returns (names: seq<string>)
    ensures StrictlySorted(names)
    ensures forall x :: x in names <==> x in CatalogNames(profiles)
  {
    var songNames: set<string> := {};
    var p := 0;
    while p < |profiles|
      invariant p <= |profiles|
      invariant songNames == NamesUpTo(profiles, p)
    {
      match profiles[p] {
        case Some(save) =>
          var record := save.gameRecord;
          ghost var before := songNames;
          var e := 0;
          while e < |record|
            invariant e <= |record|
            invariant songNames == before + RecordNames(record, e)
          {
            var (songId, _) := record[e];
            songNames := songNames + {Canonical(songId)};
            e := e + 1;
          }
        case None =>
      }
      p := p + 1;
    }
    names := SortedList(songNames);
  }

  // ---------------------------------------------------------------------
  // Properties of the catalog

  /** A profile whose save was parsed and has a key with canonical name `x`. */
  predicate ProfileHasName(profile: Option<SaveData>, x: string) {
    profile.Some? && NamesKey(profile.value.gameRecord, x)
  }

  lemma {:induction false} RecordNamesMembership(record: seq<SongEntry>, m: nat, x: string)
    requires m <= |record|
    ensures x in RecordNames(record, m) <==> exists e :: 0 <= e < m && Canonical(record[e].0) == x
    decreases m
  {
    if m > 0 {
      RecordNamesMembership(record, m - 1, x);
    }
  }

  lemma ProfileNamesMembership(profile: Option<SaveData>, x: string)
    ensures x in ProfileNames(profile) <==> ProfileHasName(profile, x)
  {
    if profile.Some? {
      RecordNamesMembership(profile.value.gameRecord, |profile.value.gameRecord|, x);
    }
  }

  lemma {:induction false} NamesUpToMembership(profiles: seq<Option<SaveData>>, n: nat, x: string)
    requires n <= |profiles|
    ensures x in NamesUpTo(profiles, n) <==> exists p :: 0 <= p < n && ProfileHasName(profiles[p], x)
    decreases n
  {
    if n > 0 {
      NamesUpToMembership(profiles, n - 1, x);
      ProfileNamesMembership(profiles[n - 1], x);
    }
  }

  /** A name is in the catalog exactly when some successfully parsed profile
      has a key whose canonical name it is. */
  lemma CatalogMembership(profiles: seq<Option<SaveData>>, x: string)
    ensures x in CatalogNames(profiles) <==> exists p :: 0 <= p < |profiles| && ProfileHasName(profiles[p], x)
  {
    NamesUpToMembership(profiles, |profiles|, x);
  }

  /** A profile that failed to read or parse contributes nothing, wherever it
      stands in the enumeration. */
  lemma CatalogSkipsFailed(before: seq<Option<SaveData>>, after: seq<Option<SaveData>>)
    ensures CatalogNames(before + [None] + after) == CatalogNames(before + after)
  {
    var withFailed := before + [None] + after;
    var without := before + after;
    forall x ensures x in CatalogNames(withFailed) <==> x in CatalogNames(without) {
      CatalogMembership(withFailed, x);
      CatalogMembership(without, x);
      if x in CatalogNames(withFailed) {
        var p :| 0 <= p < |withFailed| && ProfileHasName(withFailed[p], x);
        if p < |before| {
          assert without[p] == withFailed[p];
        } else {
          assert without[p - 1] == withFailed[p];
        }
      }
      if x in CatalogNames(without) {
        var p :| 0 <= p < |without| && ProfileHasName(without[p], x);
        if p < |before| {
          assert withFailed[p] == without[p];
        } else {
          assert withFailed[p + 1] == without[p];
        }
      }
    }
  }

  /** The catalog of two runs of profiles is the union of their catalogs. */
  lemma {:induction false} CatalogAppend(a: seq<Option<SaveData>>, b: seq<Option<SaveData>>, n: nat)
    requires n <= |b|
    ensures NamesUpTo(a + b, |a| + n) == CatalogNames(a) + NamesUpTo(b, n)
    decreases n
  {
    if n == 0 {
      assert NamesUpTo(a + b, |a|) == NamesUpTo(a, |a|) by {
        NamesUpToAgree(a + b, a, |a|);
      }
    } else {
      var ab := a + b;
      var before, added := NamesUpTo(b, n - 1), ProfileNames(b[n - 1]);
      CatalogAppend(a, b, n - 1);
      assert ab[|a| + n - 1] == b[n - 1];
      assert NamesUpTo(ab, |a| + n) == (CatalogNames(a) + before) + added;
      assert NamesUpTo(b, n) == before + added;
    }
  }

  /** The names of the first `n` profiles depend only on those profiles. */
  lemma {:induction false} NamesUpToAgree(s: seq<Option<SaveData>>, t: seq<Option<SaveData>>, n: nat)
    requires n <= |s| && n <= |t| && s[..n] == t[..n]
    ensures NamesUpTo(s, n) == NamesUpTo(t, n)
    decreases n
  {
    if n > 0 {
      assert s[..n - 1] == t[..n - 1] by {
        assert s[..n - 1] == s[..n][..n - 1] && t[..n - 1] == t[..n][..n - 1];
      }
      assert s[n - 1] == s[..n][n - 1] && t[n - 1] == t[..n][n - 1];
      NamesUpToAgree(s, t, n - 1);
    }
  }

  /** The catalog of two runs of profiles, one after the other. */
  lemma CatalogUnion(a: seq<Option<SaveData>>, b: seq<Option<SaveData>>)
    ensures CatalogNames(a + b) == CatalogNames(a) + CatalogNames(b)
  {
    CatalogAppend(a, b, |b|);
  }

  /** The catalog does not depend on the order in which two runs of profiles
      are enumerated. */
  lemma CatalogOrderIndependent(a: seq<Option<SaveData>>, b: seq<Option<SaveData>>)
    ensures CatalogNames(a + b) == CatalogNames(b + a)
  {
    CatalogUnion(a, b);
    CatalogUnion(b, a);
  }

  /** Any two sorted listings of the catalog are the same list. */
  lemma CatalogListingUnique(profiles: seq<Option<SaveData>>, names1: seq<string>, names2: seq<string>)
    requires StrictlySorted(names1) && forall x :: x in names1 <==> x in CatalogNames(profiles)
    requires StrictlySorted(names2) && forall x :: x in names2 <==> x in CatalogNames(profiles)
    ensures names1 == names2
  {
    SortedUnique(names1, names2);
  }
}
