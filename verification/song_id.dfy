/**
 Canonical song names. A raw `gameRecord` key may carry a numeric variant
 suffix after its last '.' ("songA.1", "songA.2"); the canonical name drops
 it, so that the variants of one song are grouped together.
 */
module SongId {

  import opened SaveModel
  import opened Decimal

  /** The position of the last '.' in `id`, the split point of `rsplit_once('.')`. */
  function LastDot(id: string): (r: Option<nat>)
    ensures r.None? <==> forall j :: 0 <= j < |id| ==> id[j] != '.'
    ensures r.Some? ==> r.value < |id| && id[r.value] == '.' && forall j :: r.value < j < |id| ==> id[j] != '.'
    decreases |id|
  {
    if |id| == 0 then None
    else if id[|id| - 1] == '.' then Some(|id| - 1)
    else
      var r := LastDot(id[..|id| - 1]);
      assert id == id[..|id| - 1] + [id[|id| - 1]];
      r
  }

  /** The canonical name of a raw song id: the part before the last '.' when
      everything after it is a digit (vacuously so when nothing follows the
      '.'), and the id itself otherwise. The result is the id or the strict
      prefix of it that ends just before its last '.'. */
  function Canonical(id: string): (name: string)
    ensures |name| <= |id|
    ensures name != id ==> |name| < |id| && id[|name|] == '.'
  {
    match LastDot(id)
    case None => id
    case Some(k) => if AllDigits(id[k + 1..]) then id[..k] else id
  }

  /** The canonical name is the id itself or the strict prefix of it that
      ends just before its last '.', followed only by digits. */
  lemma CanonicalIsIdOrBase(id: string)
    ensures var name := Canonical(id);
      name == id
      || (|name| < |id| && name == id[..|name|] && id[|name|] == '.'
          && '.' !in id[|name| + 1..] && AllDigits(id[|name| + 1..]))
  {
  }

  /** The split point is the last '.', wherever it is found. */
  lemma LastDotIsUnique(id: string, k: nat)
    requires k < |id| && id[k] == '.' && '.' !in id[k + 1..]
    ensures LastDot(id) == Some(k)
  {
  }

  /** The whole rule: no '.' leaves the id alone; otherwise the split is at
      the last '.', and the base is kept exactly when the suffix is all digits. */
  lemma CanonicalRule(id: string)
    ensures '.' !in id ==> Canonical(id) == id
    ensures forall k :: 0 <= k < |id| && id[k] == '.' && '.' !in id[k + 1..] ==>
      Canonical(id) == (if AllDigits(id[k + 1..]) then id[..k] else id)
  {
    forall k | 0 <= k < |id| && id[k] == '.' && '.' !in id[k + 1..]
      ensures Canonical(id) == (if AllDigits(id[k + 1..]) then id[..k] else id)
    {
      LastDotIsUnique(id, k);
    }
  }

  /** The canonical name differs from the id exactly when the id has a '.'
      and only digits follow the last one. */
  lemma CanonicalChangesIff(id: string)
    ensures Canonical(id) != id <==>
      exists k :: 0 <= k < |id| && id[k] == '.' && '.' !in id[k + 1..] && AllDigits(id[k + 1..])
  {
    if Canonical(id) != id {
      var k := LastDot(id).value;
      assert id[k] == '.' && '.' !in id[k + 1..] && AllDigits(id[k + 1..]);
    }
    forall k | 0 <= k < |id| && id[k] == '.' && '.' !in id[k + 1..] && AllDigits(id[k + 1..])
      ensures Canonical(id) != id
    {
      LastDotIsUnique(id, k);
      assert |Canonical(id)| == k;
    }
  }

  /** Worked examples: a numeric suffix after the last '.' is dropped, and
      so is a trailing '.' with nothing after it; only one suffix goes. */
  lemma CanonicalDropsNumericSuffix()
    ensures Canonical("foo.1") == "foo"
    ensures Canonical("foo.") == "foo"
    ensures Canonical("a.b.2") == "a.b"
    ensures Canonical("a.1.2") == "a.1"
  {
    LastDotIsUnique("foo.1", 3);
    LastDotIsUnique("foo.", 3);
    LastDotIsUnique("a.b.2", 3);
    LastDotIsUnique("a.1.2", 3);
  }

  /** Worked examples: an id without '.' or with a non-numeric suffix is kept. */
  lemma CanonicalKeepsOtherIds()
    ensures Canonical("foo.bar") == "foo.bar"
    ensures Canonical("foo") == "foo"
  {
    LastDotIsUnique("foo.bar", 3);
    assert "foo.bar"[4..][0] == 'b';
  }
}
