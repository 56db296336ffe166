/** The tag-dictionary editor panel: pending changes collected per tag id
 *  before they are written, the validation of a new dictionary entry, and
 *  the save that writes every pending change and reports the counts. The
 *  store actions it calls are not shown; their answers are parameters. */
module DictTagsEdit {
  import opened Wrappers
  import opened JsNumber
  import opened JsString
  import opened TagDictionaryStore

  /** A pending change: a deletion (stored as an entry with empty name and
   *  value and the `_delete` mark) or a revised dictionary entry. */
  datatype PendingChange = Deletion(tagId: string) | Revision(tag: TagDictionaryItem)

  function ChangeId(c: PendingChange): string
  {
    if c.Deletion? then c.tagId else c.tag.tagId
  }

  /** Every pending change sits under the id it changes. */
  predicate KeyedByChange(pending: map<string, PendingChange>)
  {
    forall k | k in pending :: ChangeId(pending[k]) == k
  }

  /** `tagDictionary.find`: the first entry with the id. */
  function FindTag(dictionary: seq<TagDictionaryItem>, tagId: string): (r: Option<TagDictionaryItem>)
    ensures r.Some? <==> exists i | 0 <= i < |dictionary| :: dictionary[i].tagId == tagId
    ensures r.Some? ==> r.value in dictionary && r.value.tagId == tagId
  {
    if |dictionary| == 0 then None
    else if dictionary[0].tagId == tagId then Some(dictionary[0])
    else
      var r := FindTag(dictionary[1..], tagId);
      assert r.Some? ==> r.value in dictionary;
      assert forall i | 1 <= i < |dictionary| :: dictionary[i] == dictionary[1..][i - 1];
      r
  }

  /** addChanges: the copied map with one change set under tagId. */
  function ChangesAdded(pending: map<string, PendingChange>, dictionary: seq<TagDictionaryItem>,
                        tagId: string, newValue: string, deleteTag: bool): map<string, PendingChange>
  {
    if deleteTag then pending[tagId := Deletion(tagId)]
    else
      var existing := FindTag(dictionary, tagId);
      if existing.Some? then pending[tagId := Revision(existing.value.(name := newValue))]
      else pending
  }

  /** A deletion replaces whatever was pending for the id; a revision of a
   *  known tag stores that entry renamed; an unknown tag changes nothing;
   *  other ids are untouched; and changes stay under their own ids. */
  lemma ChangesAddedFacts(pending: map<string, PendingChange>, dictionary: seq<TagDictionaryItem>,
                          tagId: string, newValue: string, deleteTag: bool)
    ensures var r := ChangesAdded(pending, dictionary, tagId, newValue, deleteTag);
            deleteTag ==> tagId in r && r[tagId] == Deletion(tagId)
    ensures var r := ChangesAdded(pending, dictionary, tagId, newValue, deleteTag);
            !deleteTag && FindTag(dictionary, tagId).Some? ==>
              tagId in r && r[tagId] == Revision(FindTag(dictionary, tagId).value.(name := newValue)) &&
              r[tagId].tag.tagId == tagId && r[tagId].tag.vr == FindTag(dictionary, tagId).value.vr
    ensures !deleteTag && (forall i | 0 <= i < |dictionary| :: dictionary[i].tagId != tagId) ==>
              ChangesAdded(pending, dictionary, tagId, newValue, deleteTag) == pending
    ensures var r := ChangesAdded(pending, dictionary, tagId, newValue, deleteTag);
            r.Keys <= pending.Keys + {tagId} &&
            forall k | k in pending && k != tagId :: k in r && r[k] == pending[k]
    ensures KeyedByChange(pending) ==> KeyedByChange(ChangesAdded(pending, dictionary, tagId, newValue, deleteTag))
  {
  }

  // ---------------------------------------------------------------------
  // Adding an entry

  const BadTagId: string := "Tag ID has to be 8 numbers"
  const EmptyName: string := "Tag Name can't be empty"

  /** addtag's checks, in order: the id must be 8 characters that parseInt
   *  reads as a number, and the name must not be empty. */
  function AddTagError(tagId: string, tagName: string): (error: Option<string>)
    ensures error == Some(BadTagId) <==> |tagId| != 8 || ParseInt(tagId, Unspecified).NaN?
    ensures error == Some(EmptyName) <==> |tagId| == 8 && ParseInt(tagId, Unspecified).Int? && tagName == ""
    ensures error.None? <==> |tagId| == 8 && ParseInt(tagId, Unspecified).Int? && tagName != ""
  {
    if |tagId| != 8 || ParseInt(tagId, Unspecified).NaN? then Some(BadTagId)
    else if |tagName| < 1 then Some(EmptyName)
    else None
  }

  /** Eight decimal digits and a name pass the checks. */
  lemma DecimalTagIdAccepted(tagId: string, tagName: string)
    requires |tagId| == 8 && AllDigits(tagId, 10) && tagName != ""
    ensures AddTagError(tagId, tagName).None?
  {
    assert DigitValue(tagId[0], 10) >= 0;
    assert !IsWhiteSpace(tagId[0]);
    assert TrimStart(tagId) == tagId;
    assert DigitValue(tagId[1], 10) >= 0;
    assert DigitValue(DigitPrefix(tagId, 10)[0], 10) >= 0;
  }

  /** Only the leading digits matter to parseInt, so an id of eight
   *  characters that starts with a digit (and not with "0x") passes however
   *  it goes on. */
  lemma DigitLedTagIdAccepted(tagId: string, tagName: string)
    requires |tagId| == 8 && '0' <= tagId[0] <= '9' && tagId[1] != 'x' && tagId[1] != 'X' && tagName != ""
    ensures AddTagError(tagId, tagName).None?
  {
    assert !IsWhiteSpace(tagId[0]);
    assert TrimStart(tagId) == tagId;
    assert DigitValue(tagId[0], 10) >= 0;
  }

  /** An id that starts with a letter other than a digit, like the
   *  "X00100010" form the table displays, is rejected. */
  lemma LetterLedTagIdRejected(tagId: string, tagName: string)
    requires |tagId| == 8 && 'G' <= tagId[0] <= 'Z'
    ensures AddTagError(tagId, tagName) == Some(BadTagId)
  {
    assert !IsWhiteSpace(tagId[0]);
    assert TrimStart(tagId) == tagId;
  }

  // ---------------------------------------------------------------------
  // The panel

  /** What addtag did: rejected the input with an alert, or handed the entry
   *  to the store, which answered `stored`. */
  datatype AddOutcome = Rejected(alert: string) | Submitted(tag: TagDictionaryItem, stored: bool)

  /** The panel's state: the new-entry form and the pending changes. */
  class DictTagsEditor {
    var tagId: string
    var tagName: string
    var tagVR: string
    var showAddTag: bool
    var pendingChanges: map<string, PendingChange>

    constructor ()
      ensures tagId == "" && tagName == "" && tagVR == "" && !showAddTag && pendingChanges == map[]
    {
      tagId, tagName, tagVR, showAddTag, pendingChanges := "", "", "", false, map[];
    }

    /** addChanges. */
    method AddChanges(dictionary: seq<TagDictionaryItem>, id: string, newValue: string, deleteTag: bool)
      modifies this
      ensures pendingChanges == ChangesAdded(old(pendingChanges), dictionary, id, newValue, deleteTag)
      ensures tagId == old(tagId) && tagName == old(tagName) && tagVR == old(tagVR) && showAddTag == old(showAddTag)
    {
      var newChanges := pendingChanges;
      if deleteTag {
        newChanges := newChanges[id := Deletion(id)];
      } else {
        var existingTag := FindTag(dictionary, id);
        if existingTag.Some? {
          newChanges := newChanges[id := Revision(existingTag.value.(name := newValue))];
        }
      }
      pendingChanges := newChanges;
    }

    /** addtag: rejected input changes nothing and never reaches the store;
     *  an entry the store accepted clears the form and hides it. */
    method AddTag(id: string, vr: string, stored: bool) returns (outcome: AddOutcome)
      modifies this
      ensures outcome.Rejected? <==> AddTagError(id, old(tagName)).Some?
      ensures outcome.Rejected? ==> outcome.alert == AddTagError(id, old(tagName)).value &&
                                    tagId == old(tagId) && tagName == old(tagName) && tagVR == old(tagVR) &&
                                    showAddTag == old(showAddTag)
      ensures outcome.Submitted? ==> outcome == Submitted(TagDictionaryItem(id, old(tagName), vr), stored)
      ensures outcome.Submitted? && stored ==> tagId == "" && tagName == "" && tagVR == "" && !showAddTag
      ensures outcome.Submitted? && !stored ==>
                tagId == old(tagId) && tagName == old(tagName) && tagVR == old(tagVR) && showAddTag == old(showAddTag)
      ensures pendingChanges == old(pendingChanges)
    {
      if |id| != 8 || ParseInt(id, Unspecified).NaN? {
        return Rejected(BadTagId);
      }
      if |tagName| < 1 {
        return Rejected(EmptyName);
      }
      outcome := Submitted(TagDictionaryItem(id, tagName, vr), stored);
      if stored {
        tagId, tagName, tagVR, showAddTag := "", "", "", false;
      }
    }

    /** handleUpdateValue: each pending change is written (a removal or an
     *  update) and counted as a success or a failure; then the pending map
     *  is cleared and the message reports the counts. */
    method HandleUpdateValue(succeeds: PendingChange -> bool)
      returns (successCount: nat, failCount: nat, message: string)
      modifies this
      ensures successCount + failCount == |old(pendingChanges)|
      ensures successCount == |Succeeding(old(pendingChanges), succeeds)|
      ensures message == SaveMessage(successCount, failCount)
      ensures pendingChanges == map[] && !showAddTag
      ensures tagId == old(tagId) && tagName == old(tagName) && tagVR == old(tagVR)
    {
      successCount, failCount := CountOutcomes(pendingChanges, succeeds);
      message := SaveMessage(successCount, failCount);
      showAddTag := false;
      pendingChanges := map[];
    }
  }

  /** The loop of handleUpdateValue: one write per pending change, counted
   *  as a success or a failure. */
  method CountOutcomes(pending: map<string, PendingChange>, succeeds: PendingChange -> bool)
    returns (successCount: nat, failCount: nat)
    ensures successCount + failCount == |pending|
    ensures successCount == |Succeeding(pending, succeeds)|
  {
    successCount, failCount := 0, 0;
    var done: set<string> := {};
    while done != pending.Keys
      invariant done <= pending.Keys
      invariant successCount + failCount == |done|
      invariant successCount == |SucceedingAmong(pending, done, succeeds)|
      decreases |pending.Keys - done|
    {
      var k :| k in pending.Keys - done;
      SucceedingStep(pending, done, k, succeeds);
      if succeeds(pending[k]) {
        successCount := successCount + 1;
      } else {
        failCount := failCount + 1;
      }
      done := done + {k};
    }
    assert SucceedingAmong(pending, done, succeeds) == Succeeding(pending, succeeds);
  }

  /** The ids of the pending changes that are written successfully. */
  function Succeeding(pending: map<string, PendingChange>, succeeds: PendingChange -> bool): set<string>
  {
    set k | k in pending && succeeds(pending[k])
  }

  /** The ids among `done` whose pending change is written successfully. */
  function SucceedingAmong(pending: map<string, PendingChange>, done: set<string>,
                           succeeds: PendingChange -> bool): set<string>
  {
    set k | k in done && k in pending && succeeds(pending[k])
  }

  lemma SucceedingStep(pending: map<string, PendingChange>, done: set<string>, k: string,
                       succeeds: PendingChange -> bool)
    requires k in pending && k !in done
    ensures SucceedingAmong(pending, done + {k}, succeeds) ==
              SucceedingAmong(pending, done, succeeds) + (if succeeds(pending[k]) then {k} else {})
    ensures |SucceedingAmong(pending, done + {k}, succeeds)| ==
              |SucceedingAmong(pending, done, succeeds)| + (if succeeds(pending[k]) then 1 else 0)
  {
    var before := SucceedingAmong(pending, done, succeeds);
    assert SucceedingAmong(pending, done + {k}, succeeds) ==
             before + (if succeeds(pending[k]) then {k} else {});
    assert k !in before;
  }

  /** The alert after a save. */
  function SaveMessage(successCount: nat, failCount: nat): (message: string)
  {
    if failCount == 0 then "Updates Saved (" + NatToString(successCount) + " changes)"
    else "Updates partially saved (" + NatToString(successCount) + " successes, " +
         NatToString(failCount) + " failures)"
  }

  /** The save reads "Updates Saved" exactly when nothing failed. */
  lemma SaveMessageFullyIffNoFailure(successCount: nat, failCount: nat)
    ensures (SaveMessage(successCount, failCount)[..13] == "Updates Saved") <==> failCount == 0
  {
    var m := SaveMessage(successCount, failCount);
    if failCount != 0 {
      assert m[8] == 'p';
    }
  }
}
