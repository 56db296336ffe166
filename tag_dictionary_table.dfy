/** The tag-dictionary table: the search filter, the "Load More" paging
 *  over the filtered entries, the empty-table message, and what each row is
 *  told about a pending change to its entry. */
module TagDictionaryTable {
  import opened Wrappers
  import opened JsString
  import opened TagDictionaryStore
  import opened DictTagsEdit

  // ---------------------------------------------------------------------
  // Search

  /** A tag matches a query when its id or its name contains the query,
   *  compared in lower case. */
  predicate Matches(tag: TagDictionaryItem, query: string)
  {
    Includes(ToLower(tag.tagId), ToLower(query)) || Includes(ToLower(tag.name), ToLower(query))
  }

  /** `tags.filter(...)` with the match above. */
  function MatchingTags(tags: seq<TagDictionaryItem>, query: string): (r: seq<TagDictionaryItem>)
    ensures |r| <= |tags|
    ensures forall t | t in r :: t in tags && Matches(t, query)
    ensures forall t | t in tags && Matches(t, query) :: t in r
  {
    if tags == [] then []
    else (if Matches(tags[0], query) then [tags[0]] else []) + MatchingTags(tags[1..], query)
  }

  /** filteredTags: a blank query keeps every tag, any other query keeps the
   *  matching tags. */
  function FilteredTags(tags: seq<TagDictionaryItem>, searchQuery: string): (r: seq<TagDictionaryItem>)
    ensures |r| <= |tags|
    ensures forall t | t in r :: t in tags
    ensures Trim(searchQuery) == "" ==> r == tags
  {
    if Trim(searchQuery) == "" then tags else MatchingTags(tags, searchQuery)
  }

  /** With a query that is not blank, a tag is listed exactly when it matches. */
  lemma FilteredTagsMembership(tags: seq<TagDictionaryItem>, searchQuery: string, t: TagDictionaryItem)
    requires Trim(searchQuery) != ""
    ensures t in FilteredTags(tags, searchQuery) <==> t in tags && Matches(t, searchQuery)
  {
  }

  /** The filter keeps the tags in their order: filtering a concatenation is
   *  concatenating the filtered parts. */
  lemma {:induction false} MatchingTagsAppend(a: seq<TagDictionaryItem>, b: seq<TagDictionaryItem>, query: string)
    ensures MatchingTags(a + b, query) == MatchingTags(a, query) + MatchingTags(b, query)
  {
    if a == [] {
      assert a + b == b;
    } else {
      assert (a + b)[1..] == a[1..] + b;
      MatchingTagsAppend(a[1..], b, query);
    }
  }

  /** Lower-casing the query twice, or upper-casing it first, changes
   *  nothing: the search ignores the case of ASCII letters in the query. */
  lemma MatchesIgnoresQueryCase(tag: TagDictionaryItem, query: string)
    ensures Matches(tag, ToUpper(query)) <==> Matches(tag, query)
    ensures Matches(tag, ToLower(query)) <==> Matches(tag, query)
  {
    assert ToLower(ToUpper(query)) == ToLower(query);
    assert ToLower(ToLower(query)) == ToLower(query);
  }

  /** Lower-casing keeps an occurrence where it was. */
  lemma OccursAtLower(s: string, sub: string, k: int)
    requires OccursAt(s, sub, k)
    ensures OccursAt(ToLower(s), ToLower(sub), k)
  {
    assert ToLower(s)[k..k + |sub|] == ToLower(sub) by {
      forall i | 0 <= i < |sub|
        ensures ToLower(s)[k..k + |sub|][i] == ToLower(sub)[i]
      {
        assert s[k + i] == sub[i];
      }
    }
  }

  /** A tag whose id or name contains the query as typed is listed. */
  lemma ContainedQueryMatches(tag: TagDictionaryItem, query: string)
    requires Includes(tag.tagId, query) || Includes(tag.name, query)
    ensures Matches(tag, query)
  {
    if Includes(tag.tagId, query) {
      var k :| 0 <= k <= |tag.tagId| - |query| && OccursAt(tag.tagId, query, k);
      OccursAtLower(tag.tagId, query, k);
    } else {
      var k :| 0 <= k <= |tag.name| - |query| && OccursAt(tag.name, query, k);
      OccursAtLower(tag.name, query, k);
    }
  }

  // ---------------------------------------------------------------------
  // Paging

  const PageSize: nat := 50

  function Min(a: int, b: int): int
  {
    if a < b then a else b
  }

  /** `filteredTags.slice(0, displayCount)`: the rows on screen. */
  function VisibleTags(filtered: seq<TagDictionaryItem>, displayCount: nat): (r: seq<TagDictionaryItem>)
    ensures r <= filtered
    ensures |r| == if displayCount < |filtered| then displayCount else |filtered|
  {
    filtered[..Min(displayCount, |filtered|)]
  }

  /** The "Load More (n remaining)" button: shown with the count of rows not
   *  on screen, or not shown. */
  function LoadMoreButton(displayCount: nat, filteredLength: nat): (remaining: Option<nat>)
    ensures remaining.Some? <==> displayCount < filteredLength
    ensures remaining.Some? ==> remaining.value > 0 && displayCount + remaining.value == filteredLength
  {
    if displayCount < filteredLength then Some(filteredLength - displayCount) else None
  }

  /** The button is shown exactly when some filtered rows are not on screen,
   *  and its count is the number of those rows. */
  lemma LoadMoreButtonIffRowsHidden(filtered: seq<TagDictionaryItem>, displayCount: nat)
    ensures LoadMoreButton(displayCount, |filtered|).Some? <==> |VisibleTags(filtered, displayCount)| < |filtered|
    ensures LoadMoreButton(displayCount, |filtered|).Some? ==>
              LoadMoreButton(displayCount, |filtered|).value == |filtered| - |VisibleTags(filtered, displayCount)|
  {
  }

  /** loadMoreRows: fifty more rows, but no more than there are. */
  function LoadedMore(displayCount: nat, filteredLength: nat): nat
  {
    Min(displayCount + PageSize, filteredLength) as nat
  }

  /** From a page with the button shown, one press shows fifty more rows or
   *  every remaining row, whichever is fewer. */
  lemma LoadedMoreProgress(displayCount: nat, filteredLength: nat)
    requires displayCount < filteredLength
    ensures displayCount < LoadedMore(displayCount, filteredLength) <= filteredLength
    ensures LoadedMore(displayCount, filteredLength) - displayCount ==
              Min(PageSize, filteredLength - displayCount)
  {
  }

  /** The display count after `presses` presses of the button. */
  function Pressed(displayCount: nat, filteredLength: nat, presses: nat): nat
    decreases presses
  {
    if presses == 0 || LoadMoreButton(displayCount, filteredLength).None? then displayCount
    else Pressed(LoadedMore(displayCount, filteredLength), filteredLength, presses - 1)
  }

  /** Enough presses show every filtered row and hide the button. */
  lemma {:induction false} PressedReachesAll(displayCount: nat, filteredLength: nat, presses: nat)
    requires displayCount <= filteredLength
    requires presses * PageSize >= filteredLength - displayCount
    ensures Pressed(displayCount, filteredLength, presses) == filteredLength
    ensures LoadMoreButton(Pressed(displayCount, filteredLength, presses), filteredLength).None?
    decreases presses
  {
    if displayCount < filteredLength {
      var next := LoadedMore(displayCount, filteredLength);
      PressedReachesAll(next, filteredLength, presses - 1);
    }
  }

  /** The table's own state: how many filtered rows it shows. */
  class TablePage {
    var displayCount: nat

    constructor ()
      ensures displayCount == PageSize
    {
      displayCount := 50;
    }

    /** loadMoreRows, for the current length of the filtered list. */
    method LoadMoreRows(filteredLength: nat)
      modifies this
      ensures displayCount == LoadedMore(old(displayCount), filteredLength)
    {
      if displayCount + 50 < filteredLength {
        displayCount := displayCount + 50;
      } else {
        displayCount := filteredLength;
      }
    }
  }

  // ---------------------------------------------------------------------
  // The empty table

  const NoMatch: string := "No tags match your search query"
  const NoTags: string := "No tags available. Add some tags to get started."

  /** The message row shown when the filtered list is empty; any non-empty
   *  query, blank or not, selects the "no match" text. */
  function EmptyMessage(filteredLength: nat, searchQuery: string): (m: Option<string>)
    ensures m.Some? <==> filteredLength == 0
    ensures m.Some? ==> (m.value == NoMatch <==> searchQuery != "")
    ensures m.Some? ==> (m.value == NoTags <==> searchQuery == "")
  {
    if filteredLength != 0 then None
    else if searchQuery != "" then Some(NoMatch)
    else Some(NoTags)
  }

  /** The message appears exactly when the dictionary is empty (blank query)
   *  or no tag matches (any other query). */
  lemma EmptyMessageWhenNothingListed(tags: seq<TagDictionaryItem>, searchQuery: string)
    ensures Trim(searchQuery) == "" ==>
              (EmptyMessage(|FilteredTags(tags, searchQuery)|, searchQuery).Some? <==> tags == [])
    ensures Trim(searchQuery) != "" ==>
              (EmptyMessage(|FilteredTags(tags, searchQuery)|, searchQuery).Some? <==>
                 forall i | 0 <= i < |tags| :: !Matches(tags[i], searchQuery))
  {
    if Trim(searchQuery) != "" {
      var r := FilteredTags(tags, searchQuery);
      if |r| != 0 {
        assert r[0] in r;
      }
    }
  }

  // ---------------------------------------------------------------------
  // Rows and pending changes

  /** What the table hands a row: its entry, its position, and its pending
   *  state. */
  datatype Row = Row(tagId: string, tagName: string, tagVR: string, index: nat,
                     isPendingDelete: bool, pendingValue: Option<string>)

  /** isPendingDelete: the pending change for the id is a deletion. */
  predicate PendingDelete(pending: map<string, PendingChange>, tagId: string)
  {
    tagId in pending && pending[tagId].Deletion?
  }

  /** pendingValue: the VR of a pending revision, and nothing for a
   *  deletion or when no change is pending. */
  function PendingValue(pending: map<string, PendingChange>, tagId: string): (v: Option<string>)
    ensures v.Some? <==> tagId in pending && pending[tagId].Revision?
    ensures v.Some? ==> v.value == pending[tagId].tag.vr
    ensures v.Some? ==> !PendingDelete(pending, tagId)
  {
    if tagId in pending && pending[tagId].Revision? then Some(pending[tagId].tag.vr) else None
  }

  /** After an edit of a known entry's name, its row is told the entry's VR,
   *  which is unchanged by the edit, and not the new name; after a deletion,
   *  the row is marked for deletion and told no value. */
  lemma PendingValueAfterChange(pending: map<string, PendingChange>, dictionary: seq<TagDictionaryItem>,
                                tagId: string, newValue: string, deleteTag: bool)
    ensures var r := ChangesAdded(pending, dictionary, tagId, newValue, deleteTag);
            !deleteTag && FindTag(dictionary, tagId).Some? ==>
              PendingValue(r, tagId) == Some(FindTag(dictionary, tagId).value.vr) && !PendingDelete(r, tagId)
    ensures var r := ChangesAdded(pending, dictionary, tagId, newValue, deleteTag);
            deleteTag ==> PendingDelete(r, tagId) && PendingValue(r, tagId).None?
  {
  }

  /** On a concrete entry: renaming X00100010 (VR "PN") to "New" gives its
   *  row the pending value "PN". */
  lemma PendingValueShowsVR(dictionary: seq<TagDictionaryItem>)
    requires dictionary == [TagDictionaryItem("X00100010", "PatientName", "PN")]
    ensures var pending := ChangesAdded(map[], dictionary, "X00100010", "New", false);
            PendingValue(pending, "X00100010") == Some("PN")
  {
    assert dictionary[0].tagId == "X00100010";
  }

  /** The rows on screen, in order, each with its pending state. */
  function Rows(filtered: seq<TagDictionaryItem>, displayCount: nat, pending: map<string, PendingChange>): (rows: seq<Row>)
    ensures |rows| == |VisibleTags(filtered, displayCount)|
    ensures forall i | 0 <= i < |rows| ::
              rows[i].index == i && rows[i].tagId == filtered[i].tagId &&
              rows[i].tagName == filtered[i].name && rows[i].tagVR == filtered[i].vr
    ensures forall i | 0 <= i < |rows| ::
              rows[i].isPendingDelete == PendingDelete(pending, filtered[i].tagId) &&
              rows[i].pendingValue == PendingValue(pending, filtered[i].tagId)
  {
    var visible := VisibleTags(filtered, displayCount);
    seq(|visible|, i requires 0 <= i < |visible| =>
      Row(visible[i].tagId, visible[i].name, visible[i].vr, i,
          PendingDelete(pending, visible[i].tagId), PendingValue(pending, visible[i].tagId)))
  }

  /** No row is both marked for deletion and given a pending value. */
  lemma RowsPendingExclusive(filtered: seq<TagDictionaryItem>, displayCount: nat, pending: map<string, PendingChange>)
    ensures forall row | row in Rows(filtered, displayCount, pending) ::
              !(row.isPendingDelete && row.pendingValue.Some?)
  {
  }
}
