/** The tag-dictionary service: an IndexedDB object store of dictionary
 *  entries keyed by tag id. The database connection is optional; every
 *  operation first tries to open it when it is missing and gives up (false,
 *  [] or null) when that fails. The outcome of opening the database is a
 *  parameter. */
module TagDictionaryStore {
  import opened Wrappers
  import opened JsString

  /** One dictionary entry. */
  datatype TagDictionaryItem = TagDictionaryItem(tagId: string, name: string, vr: string)

  /** The object store's contents, by key. */
  type Entries = map<string, TagDictionaryItem>

  /** The object store's key path is tagId: every entry sits under its own id. */
  predicate KeyedById(store: Entries)
  {
    forall k | k in store :: store[k].tagId == k
  }

  /** addTag on an open store: a new id is inserted, an existing one left alone. */
  function WithAdded(store: Entries, tag: TagDictionaryItem): Entries
  {
    if tag.tagId in store then store else store[tag.tagId := tag]
  }

  /** updateTag on an open store: an existing id is overwritten, a missing one
   *  left alone. */
  function WithUpdated(store: Entries, tag: TagDictionaryItem): Entries
  {
    if tag.tagId in store then store[tag.tagId := tag] else store
  }

  /** getTag on an open store: the entry, or null (None). */
  function Lookup(store: Entries, tagId: string): Option<TagDictionaryItem>
  {
    if tagId in store then Some(store[tagId]) else None
  }

  /** Adding stores the tag under a new id and changes nothing under an
   *  existing one; other ids are untouched either way. */
  lemma AddedThenLookup(store: Entries, tag: TagDictionaryItem, id: string)
    ensures tag.tagId !in store ==> Lookup(WithAdded(store, tag), tag.tagId) == Some(tag)
    ensures tag.tagId in store ==> WithAdded(store, tag) == store
    ensures id != tag.tagId ==> Lookup(WithAdded(store, tag), id) == Lookup(store, id)
    ensures KeyedById(store) ==> KeyedById(WithAdded(store, tag))
  {
  }

  /** Updating replaces an existing entry and never creates one. */
  lemma UpdatedThenLookup(store: Entries, tag: TagDictionaryItem, id: string)
    ensures tag.tagId in store ==> Lookup(WithUpdated(store, tag), tag.tagId) == Some(tag)
    ensures tag.tagId !in store ==> WithUpdated(store, tag) == store
    ensures id != tag.tagId ==> Lookup(WithUpdated(store, tag), id) == Lookup(store, id)
    ensures KeyedById(store) ==> KeyedById(WithUpdated(store, tag))
  {
  }

  /** Removing makes the id unknown and keeps the other entries. */
  lemma RemovedThenLookup(store: Entries, tagId: string, id: string)
    ensures Lookup(store - {tagId}, tagId) == None
    ensures id != tagId ==> Lookup(store - {tagId}, id) == Lookup(store, id)
    ensures KeyedById(store) ==> KeyedById(store - {tagId})
  {
  }

  // ---------------------------------------------------------------------
  // Resetting to the standard dictionary

  /** The store after adding the items one by one to an empty store. */
  function Loaded(items: seq<TagDictionaryItem>): (store: Entries)
  {
    if |items| == 0 then map[] else WithAdded(Loaded(items[..|items| - 1]), items[|items| - 1])
  }

  /** No two items share a tag id. */
  predicate DistinctIds(items: seq<TagDictionaryItem>)
  {
    forall i, j | 0 <= i < j < |items| :: items[i].tagId != items[j].tagId
  }

  /** The index of the first item with the given id, |items| when none. */
  function FirstWithId(items: seq<TagDictionaryItem>, id: string): (k: nat)
    ensures k <= |items|
    ensures forall i | 0 <= i < k :: items[i].tagId != id
    ensures k < |items| ==> items[k].tagId == id
  {
    if |items| == 0 then 0
    else if items[0].tagId == id then 0
    else 1 + FirstWithId(items[1..], id)
  }

  /** Loading keeps, for each id, the first item that carries it, and
   *  nothing else. */
  lemma {:induction false} LoadedKeepsFirst(items: seq<TagDictionaryItem>)
    ensures forall id :: id in Loaded(items) <==> FirstWithId(items, id) < |items|
    ensures forall id | id in Loaded(items) :: Loaded(items)[id] == items[FirstWithId(items, id)]
  {
    if |items| > 0 {
      var front := items[..|items| - 1];
      var last := items[|items| - 1];
      LoadedKeepsFirst(front);
      forall id
        ensures FirstWithId(items, id) == if FirstWithId(front, id) < |front| then FirstWithId(front, id)
                                          else if last.tagId == id then |front| else |items|
      {
        FirstWithIdPrefix(items, id);
      }
    }
  }

  lemma FirstWithIdPrefix(items: seq<TagDictionaryItem>, id: string)
    requires |items| > 0
    ensures var front := items[..|items| - 1];
            FirstWithId(items, id) == if FirstWithId(front, id) < |front| then FirstWithId(front, id)
                                      else if items[|items| - 1].tagId == id then |front| else |items|
  {
    var front := items[..|items| - 1];
    var k := FirstWithId(front, id);
    if k < |front| {
      FirstWithIdIs(items, id, k);
    } else if items[|items| - 1].tagId == id {
      FirstWithIdIs(items, id, |front|);
    } else {
      FirstWithIdIs(items, id, |items|);
    }
  }

  lemma FirstWithIdIs(items: seq<TagDictionaryItem>, id: string, k: nat)
    requires k <= |items|
    requires forall i | 0 <= i < k :: items[i].tagId != id
    requires k < |items| ==> items[k].tagId == id
    ensures FirstWithId(items, id) == k
  {
  }

  /** With distinct ids (the keys of a JavaScript object are distinct) the
   *  loaded store holds exactly the items. */
  lemma LoadedDistinct(items: seq<TagDictionaryItem>)
    requires DistinctIds(items)
    ensures forall i | 0 <= i < |items| :: Lookup(Loaded(items), items[i].tagId) == Some(items[i])
    ensures forall id | id in Loaded(items) :: exists i | 0 <= i < |items| :: items[i].tagId == id
  {
    LoadedKeepsFirst(items);
    forall i | 0 <= i < |items| ensures FirstWithId(items, items[i].tagId) == i {
      FirstWithIdIs(items, items[i].tagId, i);
    }
  }

  // ---------------------------------------------------------------------
  // The service

  /** Listing the least remaining key next keeps the list in ascending key
   *  order and below every key still to come. */
  lemma AppendLeastKeepsOrder(tags: seq<TagDictionaryItem>, left: set<string>, next: TagDictionaryItem)
    requires next.tagId in left && forall x | x in left && x != next.tagId :: StrLess(next.tagId, x)
    requires forall i, j | 0 <= i < j < |tags| :: StrLess(tags[i].tagId, tags[j].tagId)
    requires forall t, x | t in tags && x in left :: StrLess(t.tagId, x)
    ensures var r := tags + [next];
            forall i, j | 0 <= i < j < |r| :: StrLess(r[i].tagId, r[j].tagId)
    ensures forall t, x | t in tags + [next] && x in left - {next.tagId} :: StrLess(t.tagId, x)
  {
    var r := tags + [next];
    forall i, j | 0 <= i < j < |r| ensures StrLess(r[i].tagId, r[j].tagId) {
      if j < |tags| {
        assert r[i] == tags[i] && r[j] == tags[j];
      } else {
        assert r[i] in tags && r[j] == next;
      }
    }
  }

  class TagDictionaryDB {
    /** The open database's object store, or None when there is no connection. */
    var db: Option<Entries>

    predicate Valid()
      reads this
    {
      db.Some? ==> KeyedById(db.value)
    }

    constructor ()
      ensures db.None? && Valid()
    {
      db := None;
    }

    /** initDB: on success the connection holds the connection store; on failure
     *  the field keeps its value. */
    method InitDB(connection: Option<Entries>) returns (ok: bool)
      requires connection.Some? ==> KeyedById(connection.value)
      requires Valid()
      modifies this
      ensures ok <==> connection.Some?
      ensures db == if connection.Some? then connection else old(db)
      ensures Valid()
    {
      if connection.Some? {
        db := connection;
        ok := true;
      } else {
        ok := false;
      }
    }

    /** The prologue of every operation: open the database when there is
     *  none; the result says whether a store is available. */
    method Connect(connection: Option<Entries>) returns (available: bool)
      requires connection.Some? ==> KeyedById(connection.value)
      requires Valid()
      modifies this
      ensures db == if old(db).Some? then old(db) else connection
      ensures available <==> db.Some?
      ensures Valid()
    {
      if db.None? {
        var _ := InitDB(connection);
        if db.None? {
          return false;
        }
      }
      return true;
    }

    /** getAllTags: every stored entry once, in ascending key order, as an
     *  object store's getAll returns them; [] without a database. */
    method GetAllTags(connection: Option<Entries>) returns (tags: seq<TagDictionaryItem>)
      requires connection.Some? ==> KeyedById(connection.value)
      requires Valid()
      modifies this
      ensures db == if old(db).Some? then old(db) else connection
      ensures db.None? ==> tags == []
      ensures db.Some? ==> |tags| == |db.value| &&
                           (forall t | t in tags :: t.tagId in db.value && db.value[t.tagId] == t) &&
                           (forall k | k in db.value :: db.value[k] in tags)
      ensures forall i, j | 0 <= i < j < |tags| :: StrLess(tags[i].tagId, tags[j].tagId)
      ensures Valid()
    {
      var available := Connect(connection);
      if !available {
        return [];
      }
      var store := db.value;
      var left := store.Keys;
      tags := [];
      while left != {}
        invariant db == Some(store)
        invariant left <= store.Keys
        invariant |tags| + |left| == |store|
        invariant forall t | t in tags :: t.tagId in store && t.tagId !in left && store[t.tagId] == t
        invariant forall k | k in store && k !in left :: store[k] in tags
        invariant forall i, j | 0 <= i < j < |tags| :: StrLess(tags[i].tagId, tags[j].tagId)
        invariant forall t, k | t in tags && k in left :: StrLess(t.tagId, k)
        decreases |left|
      {
        StrLessMinimum(left);
        var k :| k in left && forall x | x in left :: !StrLess(x, k);
        StrLessLeastBelowOthers(left, k);
        AppendLeastKeepsOrder(tags, left, store[k]);
        tags := tags + [store[k]];
        left := left - {k};
      }
      assert store.Keys == {} + store.Keys;
      assert |tags| == |store.Keys|;
    }

    /** addTag: false when there is no database or the id is taken. */
    method AddTag(tag: TagDictionaryItem, connection: Option<Entries>) returns (added: bool)
      requires connection.Some? ==> KeyedById(connection.value)
      requires Valid()
      modifies this
      ensures var store := if old(db).Some? then old(db) else connection;
              if store.None? then !added && db.None?
              else (added <==> tag.tagId !in store.value) && db == Some(WithAdded(store.value, tag))
      ensures Valid()
    {
      var available := Connect(connection);
      if !available {
        return false;
      }
      if tag.tagId in db.value {
        return false;
      }
      db := Some(db.value[tag.tagId := tag]);
      return true;
    }

    /** updateTag: false when there is no database or the id is unknown. */
    method UpdateTag(tag: TagDictionaryItem, connection: Option<Entries>) returns (updated: bool)
      requires connection.Some? ==> KeyedById(connection.value)
      requires Valid()
      modifies this
      ensures var store := if old(db).Some? then old(db) else connection;
              if store.None? then !updated && db.None?
              else (updated <==> tag.tagId in store.value) && db == Some(WithUpdated(store.value, tag))
      ensures Valid()
    {
      var available := Connect(connection);
      if !available {
        return false;
      }
      if tag.tagId !in db.value {
        return false;
      }
      db := Some(db.value[tag.tagId := tag]);
      return true;
    }

    /** removeTag: deleting succeeds whether or not the id was stored. */
    method RemoveTag(tagId: string, connection: Option<Entries>) returns (removed: bool)
      requires connection.Some? ==> KeyedById(connection.value)
      requires Valid()
      modifies this
      ensures var store := if old(db).Some? then old(db) else connection;
              if store.None? then !removed && db.None?
              else removed && db == Some(store.value - {tagId})
      ensures Valid()
    {
      var available := Connect(connection);
      if !available {
        return false;
      }
      db := Some(db.value - {tagId});
      return true;
    }

    /** getTag: the stored entry, or null. */
    method GetTag(tagId: string, connection: Option<Entries>) returns (tag: Option<TagDictionaryItem>)
      requires connection.Some? ==> KeyedById(connection.value)
      requires Valid()
      modifies this
      ensures db == if old(db).Some? then old(db) else connection
      ensures tag == if db.None? then None else Lookup(db.value, tagId)
      ensures Valid()
    {
      var available := Connect(connection);
      if !available {
        return None;
      }
      if tagId in db.value {
        return Some(db.value[tagId]);
      }
      return None;
    }

    /** resetToDefaults: clear the store, then add the standard entries one by
     *  one; the result is true exactly when every add succeeded, that is when
     *  no two standard entries share an id. */
    method ResetToDefaults(defaults: seq<TagDictionaryItem>, connection: Option<Entries>)
      returns (success: bool)
      requires connection.Some? ==> KeyedById(connection.value)
      requires Valid()
      modifies this
      ensures var store := if old(db).Some? then old(db) else connection;
              if store.None? then !success && db.None?
              else (success <==> DistinctIds(defaults)) && db == Some(Loaded(defaults))
      ensures Valid()
    {
      var available := Connect(connection);
      if !available {
        return false;
      }
      db := Some(map[]);
      success := true;
      for i := 0 to |defaults|
        invariant db == Some(Loaded(defaults[..i]))
        invariant success <==> DistinctIds(defaults[..i])
        invariant Valid()
      {
        assert defaults[..i + 1][..i] == defaults[..i];
        LoadedKeepsFirst(defaults[..i]);
        FirstWithIdPrefix(defaults[..i + 1], defaults[i].tagId);
        var added := AddTag(defaults[i], connection);
        if !added {
          success := false;
        }
        DistinctStep(defaults, i);
      }
      assert defaults[..|defaults|] == defaults;
    }
  }

  /** Extending a prefix by one item keeps the ids distinct exactly when the
   *  prefix was distinct and the new id is not among its ids. */
  lemma DistinctStep(items: seq<TagDictionaryItem>, i: nat)
    requires i < |items|
    ensures DistinctIds(items[..i + 1]) <==>
              DistinctIds(items[..i]) && FirstWithId(items[..i], items[i].tagId) == i
  {
    var front := items[..i];
    var grown := items[..i + 1];
    if DistinctIds(grown) {
      forall j | 0 <= j < i ensures front[j].tagId != items[i].tagId {
        assert grown[j] == front[j] && grown[i] == items[i];
      }
      FirstWithIdIs(front, items[i].tagId, i);
    }
    if DistinctIds(front) && FirstWithId(front, items[i].tagId) == i {
      forall a, b | 0 <= a < b < |grown| ensures grown[a].tagId != grown[b].tagId {
        if b < i {
          assert grown[a] == front[a] && grown[b] == front[b];
        }
      }
    }
  }

}
