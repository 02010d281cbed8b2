/**
  The `/text` endpoints of the world server's web API over the English text
  table: texts for a list of ids, every present text keyed by index, and one
  text with a readable message in place of a missing one.
*/
module Texts {
  import opened Base
  import opened Decimal
  import Tables

  /**
    The English text table as the endpoints use it: its `lookup` array and
    its `GetEntry`, which gives `None` (null) for an id it does not hold.
  */
  datatype TextTable = TextTable(lookup: CsArray<int32>, getEntry: uint32 -> Option<string>)

  const NULL_TEXT_PREFIX: string := "NULL for text id "
  const FOUND_LOCALIZED_SUFFIX: string := ", but found LocalizedText"

  /** `POST /text`: the English text of each id, position by position. */
  method PostMultiple(english: TextTable, ids: CsArray<uint32>) returns (results: seq<Option<string>>)
    ensures |results| == |ids|
    ensures forall i :: 0 <= i < |ids| ==> results[i] == english.getEntry(ids[i])
  {
    var a := new Option<string>[|ids|](_ => None);
    for i := 0 to |ids|
      invariant forall j :: 0 <= j < i ==> a[j] == english.getEntry(ids[j])
    {
      a[i] := english.getEntry(ids[i]);
    }
    results := a[..];
  }

  /** The indices whose `lookup` entry is present. */
  ghost function PresentIndices(lookup: seq<int32>, n: nat): set<int>
    requires n <= |lookup|
  {
    set i | 0 <= i < n && lookup[i] >= 0
  }

  /** `GET /text/all`: every present index of the table, mapped to its text. */
  method GetAll(english: TextTable) returns (texts: map<int, Option<string>>)
    ensures texts.Keys == PresentIndices(english.lookup, |english.lookup|)
    ensures forall i :: i in texts ==> 0 <= i < |english.lookup| && texts[i] == english.getEntry(i as uint32)
  {
    var lookup := english.lookup;
    texts := map[];
    for i := 0 to |lookup|
      invariant texts.Keys == PresentIndices(lookup, i)
      invariant forall k :: k in texts ==> 0 <= k < i && texts[k] == english.getEntry(k as uint32)
    {
      if lookup[i] >= 0 {
        texts := texts[i := english.getEntry(i as uint32)];
      }
    }
  }

  /** The endpoint returns as many texts as the table has present entries. */
  lemma {:induction false} PresentIndicesCount(lookup: seq<int32>, n: nat)
    requires n <= |lookup|
    ensures |PresentIndices(lookup, n)| == Tables.PresentBefore(lookup, n)
  {
    if n > 0 {
      PresentIndicesCount(lookup, n - 1);
      var before := PresentIndices(lookup, n - 1);
      if lookup[n - 1] >= 0 {
        assert PresentIndices(lookup, n) == before + {n - 1};
        assert n - 1 !in before;
      } else {
        assert PresentIndices(lookup, n) == before;
      }
    }
  }

  /**
    `GET /text/{id}`: the English text when there is one; otherwise a message
    that names the id and says whether a LocalizedText entry exists for it.
  */
  function Get(english: TextTable, localizedExists: uint32 -> bool, id: uint32): (s: string)
    ensures english.getEntry(id).Some? ==> s == english.getEntry(id).value
    ensures english.getEntry(id).None? ==>
              var tail := if localizedExists(id) then FOUND_LOCALIZED_SUFFIX else "";
              && |NULL_TEXT_PREFIX| < |s| - |tail|
              && s[..|NULL_TEXT_PREFIX|] == NULL_TEXT_PREFIX
              && s[|s| - |tail|..] == tail
              && var digits := s[|NULL_TEXT_PREFIX|..|s| - |tail|];
                 && AllDigits(digits) && DigitsValue(digits) == id as nat
                 && (digits[0] == '0' ==> digits == "0")
  {
    match english.getEntry(id)
    case Some(text) => text
    case None =>
      var tail := if localizedExists(id) then FOUND_LOCALIZED_SUFFIX else "";
      DecimalAfterPrefix(NULL_TEXT_PREFIX, id as nat, tail);
      NULL_TEXT_PREFIX + NatToDecimal(id as nat) + tail
  }
}
