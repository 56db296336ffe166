/** The anonymisation side panel (src/Features/AutoAnonymize/Components/AutoConfirmPanel.tsx):
 *  the list of tags to anonymise and their new values, which the user edits;
 *  "Show" turns the list into pending edits in the store, one per file and
 *  listed tag the file holds; "OK" and "Cancel" empty the list. */
module AutoConfirmPanel {
  import opened Wrappers
  import opened DicomTypes
  import opened StateStore

  // ---------------------------------------------------------------------
  // handleUpdateValue

  /** `tags.some(tag => tag.tagId === tagId)`. */
  predicate HasTag(tags: seq<AnonTag>, tagId: string)
  {
    exists i | 0 <= i < |tags| :: tags[i].tagId == tagId
  }

  /** `tags.filter(tag => tag.tagId !== tagId)`. */
  function WithoutTag(tags: seq<AnonTag>, tagId: string): (r: seq<AnonTag>)
    ensures |r| <= |tags|
    ensures forall i | 0 <= i < |r| :: r[i].tagId != tagId
  {
    if tags == [] then []
    else WithoutTag(tags[..|tags| - 1], tagId) +
         (if tags[|tags| - 1].tagId != tagId then [tags[|tags| - 1]] else [])
  }

  /** The map step: every entry with this id takes the new value. */
  function WithValue(tags: seq<AnonTag>, tagId: string, newValue: string): (r: seq<AnonTag>)
    ensures |r| == |tags|
  {
    seq(|tags|, i requires 0 <= i < |tags| => if tags[i].tagId == tagId then tags[i].(newValue := newValue) else tags[i])
  }

  /** handleUpdateValue: a delete drops every entry with the id; otherwise
   *  the entries with the id take the new value, or a new entry with an
   *  empty name is appended when there is none. */
  function UpdatedTags(tags: seq<AnonTag>, tagId: string, newValue: string, deleteTag: bool): (r: seq<AnonTag>)
    ensures deleteTag ==> !HasTag(r, tagId)
    ensures !deleteTag ==> exists i | 0 <= i < |r| :: r[i].tagId == tagId && r[i].newValue == newValue
    ensures !deleteTag ==> |r| == if HasTag(tags, tagId) then |tags| else |tags| + 1
  {
    if deleteTag then WithoutTag(tags, tagId)
    else if HasTag(tags, tagId) then
      var r := WithValue(tags, tagId, newValue);
      var i :| 0 <= i < |tags| && tags[i].tagId == tagId;
      assert r[i].tagId == tagId && r[i].newValue == newValue;
      r
    else
      var r := tags + [AnonTag(tagId, "", newValue)];
      assert r[|tags|].tagId == tagId;
      r
  }

  /** A delete keeps exactly the entries with other ids, in their order. */
  lemma {:induction false} WithoutTagKeepsOthers(tags: seq<AnonTag>, tagId: string)
    ensures forall t :: t in WithoutTag(tags, tagId) <==> t in tags && t.tagId != tagId
  {
    if tags != [] {
      WithoutTagKeepsOthers(tags[..|tags| - 1], tagId);
      assert tags == tags[..|tags| - 1] + [tags[|tags| - 1]];
    }
  }

  /** The filter keeps the order: filtering a concatenation filters each part. */
  lemma {:induction false} WithoutTagAppend(a: seq<AnonTag>, b: seq<AnonTag>, tagId: string)
    ensures WithoutTag(a + b, tagId) == WithoutTag(a, tagId) + WithoutTag(b, tagId)
    decreases |b|
  {
    if b == [] {
      assert a + b == a;
    } else {
      assert (a + b)[..|a + b| - 1] == a + b[..|b| - 1];
      WithoutTagAppend(a, b[..|b| - 1], tagId);
    }
  }

  /** An update of a listed id keeps the length, the ids and the names; only
   *  the entries with that id change, and they take the new value. */
  lemma UpdatedTagsSetsMatching(tags: seq<AnonTag>, tagId: string, newValue: string)
    requires HasTag(tags, tagId)
    ensures var r := UpdatedTags(tags, tagId, newValue, false);
            |r| == |tags| &&
            forall i | 0 <= i < |tags| ::
              r[i].tagId == tags[i].tagId && r[i].tagName == tags[i].tagName &&
              (tags[i].tagId == tagId ==> r[i].newValue == newValue) &&
              (tags[i].tagId != tagId ==> r[i] == tags[i])
  {
  }

  /** An update of an unlisted id appends it at the end with an empty name. */
  lemma UpdatedTagsAppendsUnknown(tags: seq<AnonTag>, tagId: string, newValue: string)
    requires !HasTag(tags, tagId)
    ensures UpdatedTags(tags, tagId, newValue, false) == tags + [AnonTag(tagId, "", newValue)]
  {
  }

  /** Repeating an update or a delete changes nothing more. */
  lemma UpdatedTagsIdempotent(tags: seq<AnonTag>, tagId: string, newValue: string, deleteTag: bool)
    ensures var r := UpdatedTags(tags, tagId, newValue, deleteTag);
            UpdatedTags(r, tagId, newValue, deleteTag) == r
  {
    var r := UpdatedTags(tags, tagId, newValue, deleteTag);
    if deleteTag {
      AllKeptWithout(r, tagId);
    } else {
      assert HasTag(r, tagId);
      if HasTag(tags, tagId) {
        assert WithValue(r, tagId, newValue) == r;
      } else {
        assert forall i | 0 <= i < |tags| :: r[i] == tags[i] && r[i].tagId != tagId;
        assert WithValue(r, tagId, newValue) == r;
      }
    }
  }

  /** Deleting an id the list does not hold keeps the list. */
  lemma {:induction false} AllKeptWithout(tags: seq<AnonTag>, tagId: string)
    requires !HasTag(tags, tagId)
    ensures WithoutTag(tags, tagId) == tags
  {
    if tags != [] {
      var prefix := tags[..|tags| - 1];
      assert forall i | 0 <= i < |prefix| :: prefix[i] == tags[i];
      AllKeptWithout(prefix, tagId);
      assert tags == prefix + [tags[|tags| - 1]];
    }
  }

  /** No two entries share an id. */
  predicate DistinctIds(tags: seq<AnonTag>)
  {
    forall i, j | 0 <= i < j < |tags| :: tags[i].tagId != tags[j].tagId
  }

  /** No update or delete makes two entries share an id. */
  lemma UpdatedTagsKeepsIdsUnique(tags: seq<AnonTag>, tagId: string, newValue: string, deleteTag: bool)
    requires DistinctIds(tags)
    ensures DistinctIds(UpdatedTags(tags, tagId, newValue, deleteTag))
  {
    var r := UpdatedTags(tags, tagId, newValue, deleteTag);
    if deleteTag {
      WithoutTagSubsequence(tags, tagId);
    } else if !HasTag(tags, tagId) {
      forall i, j | 0 <= i < j < |r|
        ensures r[i].tagId != r[j].tagId
      {
        if j == |tags| {
          assert r[i] == tags[i];
        }
      }
    }
  }

  /** The filter keeps the ids pairwise different when they were. */
  lemma {:induction false} WithoutTagSubsequence(tags: seq<AnonTag>, tagId: string)
    requires DistinctIds(tags)
    ensures DistinctIds(WithoutTag(tags, tagId))
  {
    if tags != [] {
      var prefix := tags[..|tags| - 1];
      var last := tags[|tags| - 1];
      assert forall i | 0 <= i < |prefix| :: prefix[i] == tags[i];
      WithoutTagSubsequence(prefix, tagId);
      WithoutTagKeepsOthers(prefix, tagId);
      var front := WithoutTag(prefix, tagId);
      var r := WithoutTag(tags, tagId);
      assert r == front + (if last.tagId != tagId then [last] else []);
      forall i, j | 0 <= i < j < |r|
        ensures r[i].tagId != r[j].tagId
      {
        if j >= |front| {
          assert r[j] == last;
          assert r[i] == front[i];
          assert front[i] in front;
          assert front[i] in prefix;
          var k :| 0 <= k < |prefix| && prefix[k] == front[i];
          assert tags[k] == front[i];
          assert tags[k].tagId != tags[|tags| - 1].tagId;
          assert r[i].tagId != r[j].tagId;
        } else {
          assert r[i] == front[i] && r[j] == front[j];
          assert front[i].tagId != front[j].tagId;
        }
      }
    }
  }

  // ---------------------------------------------------------------------
  // showUpdates

  /** The pending edits one file gets: one per listed tag it holds, in list order. */
  function FileUpdates(fileName: string, keys: set<string>, tags: seq<AnonTag>): (r: seq<TableUpdateData>)
    ensures |r| <= |tags|
  {
    if tags == [] then []
    else
      var last := tags[|tags| - 1];
      FileUpdates(fileName, keys, tags[..|tags| - 1]) +
      (if last.tagId in keys then [TableUpdateData(fileName, last.tagId, last.newValue, false, false)] else [])
  }

  /** The pending edits of the first n files, file after file. */
  function Emitted(files: seq<string>, data: seq<set<string>>, tags: seq<AnonTag>, n: nat): (r: seq<TableUpdateData>)
    requires n <= |files| && n <= |data|
  {
    if n == 0 then []
    else Emitted(files, data, tags, n - 1) + FileUpdates(files[n - 1], data[n - 1], tags)
  }

  /** How many files showUpdates gets through: those with parsed data. */
  function ShownFiles(files: seq<string>, data: seq<set<string>>): (n: nat)
    ensures n <= |files| && n <= |data|
    ensures n == |files| || n == |data|
  {
    if |files| <= |data| then |files| else |data|
  }

  /** showUpdates throws: a file without parsed data, with tags listed. */
  predicate ShowThrows(files: seq<string>, data: seq<set<string>>, tags: seq<AnonTag>)
  {
    |files| > |data| && tags != []
  }

  /** One more listed tag adds its edit when the file holds the tag. */
  lemma FileUpdatesStep(fileName: string, keys: set<string>, tags: seq<AnonTag>, t: nat)
    requires t < |tags|
    ensures tags[t].tagId in keys ==>
              FileUpdates(fileName, keys, tags[..t + 1]) ==
              FileUpdates(fileName, keys, tags[..t]) + [TableUpdateData(fileName, tags[t].tagId, tags[t].newValue, false, false)]
    ensures tags[t].tagId !in keys ==> FileUpdates(fileName, keys, tags[..t + 1]) == FileUpdates(fileName, keys, tags[..t])
  {
    assert tags[..t + 1][..t] == tags[..t];
  }

  /** Every edit of a file stands for one listed tag the file holds, with the
   *  listed value and neither the add nor the delete flag; every such tag
   *  has its edit. */
  lemma {:induction false} FileUpdatesExactly(fileName: string, keys: set<string>, tags: seq<AnonTag>)
    ensures forall u :: u in FileUpdates(fileName, keys, tags) <==>
              exists t | 0 <= t < |tags| :: tags[t].tagId in keys &&
                                           u == TableUpdateData(fileName, tags[t].tagId, tags[t].newValue, false, false)
  {
    if tags != [] {
      var prefix := tags[..|tags| - 1];
      FileUpdatesExactly(fileName, keys, prefix);
      assert forall t | 0 <= t < |prefix| :: prefix[t] == tags[t];
    }
  }

  /** The edits of the first n files are those of each file, one after the other. */
  lemma {:induction false} EmittedExactly(files: seq<string>, data: seq<set<string>>, tags: seq<AnonTag>, n: nat)
    requires n <= |files| && n <= |data|
    ensures forall u :: u in Emitted(files, data, tags, n) <==>
              exists i | 0 <= i < n :: u in FileUpdates(files[i], data[i], tags)
  {
    if n > 0 {
      EmittedExactly(files, data, tags, n - 1);
      hide FileUpdates;
      var front := Emitted(files, data, tags, n - 1);
      var last := FileUpdates(files[n - 1], data[n - 1], tags);
      assert Emitted(files, data, tags, n) == front + last;
      forall u
        ensures u in front + last <==> exists i | 0 <= i < n :: u in FileUpdates(files[i], data[i], tags)
      {
        if u in last {
          assert u in FileUpdates(files[n - 1], data[n - 1], tags);
        }
      }
    }
  }

  /** Applying a list of edits to the store's pending edits, one setNewTagValues each. */
  function UpsertedAll(values: seq<TableUpdateData>, updates: seq<TableUpdateData>): (r: seq<TableUpdateData>)
    ensures |r| <= |values| + |updates|
  {
    if updates == [] then values
    else Upserted(UpsertedAll(values, updates[..|updates| - 1]), updates[|updates| - 1])
  }

  /** At most one pending edit per key, before and after. */
  lemma {:induction false} UpsertedAllKeepsUnique(values: seq<TableUpdateData>, updates: seq<TableUpdateData>)
    requires UniqueKeys(values)
    ensures UniqueKeys(UpsertedAll(values, updates))
  {
    if updates != [] {
      UpsertedAllKeepsUnique(values, updates[..|updates| - 1]);
      UpsertedKeepsUnique(UpsertedAll(values, updates[..|updates| - 1]), updates[|updates| - 1]);
    }
  }

  /** One more edit is one more setNewTagValues. */
  lemma UpsertedAllStep(values: seq<TableUpdateData>, a: seq<TableUpdateData>, u: TableUpdateData)
    ensures UpsertedAll(values, a + [u]) == Upserted(UpsertedAll(values, a), u)
  {
    assert (a + [u])[..|a|] == a;
  }

  /** Two lists of edits one after the other are their concatenation. */
  lemma {:induction false} UpsertedAllAppend(values: seq<TableUpdateData>, a: seq<TableUpdateData>, b: seq<TableUpdateData>)
    ensures UpsertedAll(values, a + b) == UpsertedAll(UpsertedAll(values, a), b)
    decreases |b|
  {
    if b == [] {
      assert a + b == a;
    } else {
      assert (a + b)[..|a + b| - 1] == a + b[..|b| - 1];
      UpsertedAllAppend(values, a, b[..|b| - 1]);
    }
  }

  /** After the edits, each one's key is pending. */
  lemma {:induction false} UpsertedAllHoldsKeys(values: seq<TableUpdateData>, updates: seq<TableUpdateData>)
    ensures forall u | u in updates :: FindIndex(UpsertedAll(values, updates), u) != -1
  {
    if updates != [] {
      var front := UpsertedAll(values, updates[..|updates| - 1]);
      var last := updates[|updates| - 1];
      var r := UpsertedAll(values, updates);
      UpsertedAllHoldsKeys(values, updates[..|updates| - 1]);
      UpsertedFinds(front, last);
      forall u | u in updates
        ensures FindIndex(r, u) != -1
      {
        if u != last {
          var k :| 0 <= k < |updates| && updates[k] == u;
          assert u in updates[..|updates| - 1] by {
            assert updates[..|updates| - 1][k] == u;
          }
          UpsertedKeepsKey(front, last, u);
        }
      }
    }
  }

  /** An upsert never drops a key that was pending. */
  lemma UpsertedKeepsKey(values: seq<TableUpdateData>, tags: TableUpdateData, u: TableUpdateData)
    requires FindIndex(values, u) != -1
    ensures FindIndex(Upserted(values, tags), u) != -1
  {
    var k := FindIndex(values, u);
    var r := Upserted(values, tags);
    assert SameKey(values[k], u);
    if FindIndex(values, tags) != -1 && FindIndex(values, tags) == k {
      assert SameKey(r[k], u);
    } else {
      assert r[k] == values[k];
    }
  }

  /** Two stores of pending edits, one after the other, leave every other
   *  field as it was. */
  lemma PendingOnly(s: State<string, set<string>>, before: State<string, set<string>>,
                    after: State<string, set<string>>, values: seq<TableUpdateData>)
    requires before == s.(newTagValues := before.newTagValues)
    requires after == before.(newTagValues := values)
    ensures after == s.(newTagValues := after.newTagValues)
  {
  }

  /** Nothing pending is nothing applied. */
  lemma UpsertedAllNone(values: seq<TableUpdateData>)
    ensures UpsertedAll(values, []) == values
  {
  }

  /** No file, no edit. */
  lemma EmittedNone(files: seq<string>, data: seq<set<string>>, tags: seq<AnonTag>)
    ensures Emitted(files, data, tags, 0) == []
  {
  }

  /** One more file is that file's edits after the earlier files'. */
  lemma EmittedStep(files: seq<string>, data: seq<set<string>>, tags: seq<AnonTag>, n: nat)
    requires n < |files| && n < |data|
    ensures Emitted(files, data, tags, n + 1) == Emitted(files, data, tags, n) + FileUpdates(files[n], data[n], tags)
  {
  }

  /** The store fields showUpdates sets, one `set` after the other. */
  lemma ShownStates(s: State<string, set<string>>, pending: seq<TableUpdateData>)
    ensures s.(loading := true).(newTagValues := pending) == s.(loading := true, newTagValues := pending)
    ensures s.(loading := true).(newTagValues := pending).(loading := false).(sidePanelVisible := false) ==
            s.(loading := false, sidePanelVisible := false, newTagValues := pending)
  {
  }

  /** The side panel: the store it works on, and its own state (the PII
   *  found, whether some was found, and a reset counter). */
  class SidePanel {
    const store: Store<string, set<string>>
    var pii: seq<DicomTag>
    var foundPII: bool
    var reset: int

    constructor (store: Store<string, set<string>>)
      ensures this.store == store && pii == [] && !foundPII && reset == 0
    {
      this.store := store;
      pii := [];
      foundPII := false;
      reset := 0;
    }

    /** handleUpdateValue: the store's tag list becomes the updated list. */
    method HandleUpdateValue(tagId: string, newValue: string, deleteTag: bool)
      modifies store
      ensures store.state == old(store.state).(tags := UpdatedTags(old(store.state.tags), tagId, newValue, deleteTag))
    {
      var tags := store.state.tags;
      if deleteTag {
        store.SetTags(WithoutTag(tags, tagId));
        return;
      }
      var temp := if HasTag(tags, tagId) then WithValue(tags, tagId, newValue) else tags + [AnonTag(tagId, "", newValue)];
      store.SetTags(temp);
    }

    /** showUpdates: loading on; for each file in order and each listed tag
     *  it holds, one pending edit through setNewTagValues; then loading and
     *  the panel off. A file without parsed data, with tags listed, throws
     *  there, leaving loading on and the edits made so far in place. The
     *  store's files are their names and each parsed file its tag ids. */
    method ShowUpdates() returns (r: Result<(), string>)
      modifies this, store
      ensures var s := old(store.state);
              var pending := UpsertedAll(s.newTagValues, Emitted(s.files, s.dicomData, s.tags, ShownFiles(s.files, s.dicomData)));
              if ShowThrows(s.files, s.dicomData, s.tags) then
                r.Err? && store.state == s.(loading := true, newTagValues := pending) &&
                pii == old(pii) && foundPII == old(foundPII) && reset == old(reset)
              else
                r.Ok? && store.state == s.(loading := false, sidePanelVisible := false, newTagValues := pending) &&
                pii == [] && !foundPII && reset == old(reset)
    {
      hide UpsertedAll, Emitted, Upserted;
      ghost var s := store.state;
      store.SetLoading(true);
      r := EmitUpdates(store.state.files, store.state.dicomData, store.state.tags);
      ghost var pending := store.state.newTagValues;
      ShownStates(s, pending);
      if r.Err? {
        return;
      }
      store.SetLoading(false);
      store.SetSidePanelVisible(false);
      foundPII := false;
      pii := [];
    }

    /** The nested forEach of showUpdates over the given files, parsed data and tags. */
    method EmitUpdates(files: seq<string>, data: seq<set<string>>, tags: seq<AnonTag>) returns (r: Result<(), string>)
      modifies store
      ensures store.state == old(store.state).(newTagValues :=
                UpsertedAll(old(store.state.newTagValues), Emitted(files, data, tags, ShownFiles(files, data))))
      ensures r.Err? <==> ShowThrows(files, data, tags)
    {
      ghost var s := store.state;
      UpsertedAllNone(s.newTagValues);
      EmittedNone(files, data, tags);
      var index := 0;
      while index < |files| && index < |data|
        invariant index <= |files| && index <= |data|
        invariant store.state == s.(newTagValues := UpsertedAll(s.newTagValues, Emitted(files, data, tags, index)))
      {
        EmitFile(files, data, tags, index, s);
        index := index + 1;
      }
      assert index == ShownFiles(files, data);
      if index < |files| && tags != [] {
        return Err("TypeError: Cannot read properties of undefined (reading 'tags')");
      }
      r := Ok(());
    }

    /** One turn of the outer forEach. */
    method EmitFile(files: seq<string>, data: seq<set<string>>, tags: seq<AnonTag>, index: nat, ghost s: State<string, set<string>>)
      requires index < |files| && index < |data|
      requires store.state == s.(newTagValues := UpsertedAll(s.newTagValues, Emitted(files, data, tags, index)))
      modifies store
      ensures store.state == s.(newTagValues := UpsertedAll(s.newTagValues, Emitted(files, data, tags, index + 1)))
    {
      hide *;
      ghost var before := store.state;
      EmitFileUpdates(files[index], data[index], tags);
      EmittedStep(files, data, tags, index);
      UpsertedAllAppend(s.newTagValues, Emitted(files, data, tags, index), FileUpdates(files[index], data[index], tags));
      PendingOnly(s, before, store.state, store.state.newTagValues);
    }

    /** The inner forEach: one setNewTagValues per listed tag the file holds. */
    method EmitFileUpdates(fileName: string, keys: set<string>, tags: seq<AnonTag>)
      modifies store
      ensures store.state == old(store.state).(newTagValues :=
                UpsertedAll(old(store.state.newTagValues), FileUpdates(fileName, keys, tags)))
    {
      ghost var s := store.state;
      UpsertedAllNone(s.newTagValues);
      hide *;
      for t := 0 to |tags|
        invariant store.state == s.(newTagValues := store.state.newTagValues)
        invariant store.state.newTagValues == UpsertedAll(s.newTagValues, FileUpdates(fileName, keys, tags[..t]))
      {
        FileUpdatesStep(fileName, keys, tags, t);
        var tag := tags[t];
        if tag.tagId in keys {
          var updatedTag := TableUpdateData(fileName, tag.tagId, tag.newValue, false, false);
          UpsertedAllStep(s.newTagValues, FileUpdates(fileName, keys, tags[..t]), updatedTag);
          ghost var before := store.state;
          store.SetNewTagValues(updatedTag);
          PendingOnly(s, before, store.state, Upserted(before.newTagValues, updatedTag));
        }
      }
      assert tags[..|tags|] == tags;
    }

    /** handleAutoAnon, after the anonymisation and download (AutoClean's
     *  AutoAnon): the store cleared, the panel closed, the PII and the tag
     *  list emptied. `setReset(prev => prev++)` stores the old value. */
    method FinishAutoAnon()
      modifies this, store
      ensures store.state == Cleared(old(store.state)).(sidePanelVisible := false, tags := [])
      ensures pii == [] && !foundPII && reset == old(reset)
    {
      store.SetLoading(true);
      store.ClearData();
      store.SetSidePanelVisible(false);
      foundPII := false;
      pii := [];
      var prev := reset;
      reset := prev;
      store.SetTags([]);
    }

    /** The Cancel button: the panel closed, the PII and the tag list emptied. */
    method Cancel()
      modifies this, store
      ensures store.state == old(store.state).(sidePanelVisible := false, tags := [])
      ensures pii == [] && !foundPII && reset == old(reset)
    {
      store.SetSidePanelVisible(false);
      foundPII := false;
      pii := [];
      store.SetTags([]);
      var prev := reset;
      reset := prev;
    }
  }
}
