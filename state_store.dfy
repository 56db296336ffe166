/** The application's global store: the loaded files and their parsed data,
 *  the current file index, display flags, the theme, and the list of pending
 *  tag edits. Every action replaces some fields and leaves the others. */
module StateStore {
  import opened Wrappers
  import opened DicomTypes

  // ---------------------------------------------------------------------
  // Pending edits: an upsert keyed by (fileName, tagId)

  /** Two pending edits address the same tag of the same file. */
  predicate SameKey(a: TableUpdateData, b: TableUpdateData)
  {
    a.fileName == b.fileName && a.tagId == b.tagId
  }

  /** At most one pending edit per (fileName, tagId). */
  predicate UniqueKeys(values: seq<TableUpdateData>)
  {
    forall i, j | 0 <= i < j < |values| :: !SameKey(values[i], values[j])
  }

  /** `findIndex` for the key of tags: the first index with the same key, or -1. */
  function FindIndex(values: seq<TableUpdateData>, tags: TableUpdateData): (k: int)
    ensures -1 <= k < |values|
    ensures k == -1 <==> forall i | 0 <= i < |values| :: !SameKey(values[i], tags)
    ensures 0 <= k ==> SameKey(values[k], tags) && forall i | 0 <= i < k :: !SameKey(values[i], tags)
  {
    if |values| == 0 then -1
    else if SameKey(values[0], tags) then 0
    else
      var k := FindIndex(values[1..], tags);
      if k == -1 then -1 else k + 1
  }

  /** setNewTagValues: the edit with the same key is replaced in place, and
   *  an edit with a new key is appended. */
  function Upserted(values: seq<TableUpdateData>, tags: TableUpdateData): (r: seq<TableUpdateData>)
    ensures tags in r
    ensures |values| <= |r| <= |values| + 1
  {
    var k := FindIndex(values, tags);
    if k != -1 then
      var r := seq(|values|, i requires 0 <= i < |values| => if i == k then tags else values[i]);
      assert r[k] == tags;
      r
    else values + [tags]
  }

  /** Replace in place when the key is present, append otherwise. */
  lemma UpsertedReplacesOrAppends(values: seq<TableUpdateData>, tags: TableUpdateData)
    ensures (exists i | 0 <= i < |values| :: SameKey(values[i], tags)) ==>
              Upserted(values, tags) == values[FindIndex(values, tags) := tags]
    ensures (forall i | 0 <= i < |values| :: !SameKey(values[i], tags)) ==>
              Upserted(values, tags) == values + [tags]
  {
  }

  /** The edit just stored is the one found under its key. */
  lemma UpsertedFinds(values: seq<TableUpdateData>, tags: TableUpdateData)
    ensures var r := Upserted(values, tags);
            0 <= FindIndex(r, tags) && r[FindIndex(r, tags)] == tags
  {
    var r := Upserted(values, tags);
    var k := FindIndex(values, tags);
    if k != -1 {
      assert forall i | 0 <= i < k :: r[i] == values[i];
      assert SameKey(r[k], tags);
    } else {
      assert forall i | 0 <= i < |values| :: r[i] == values[i];
      assert SameKey(r[|values|], tags);
    }
  }

  /** Edits under other keys keep their values and their positions, and the
   *  list grows by one exactly when the key was new. */
  lemma UpsertedKeepsOthers(values: seq<TableUpdateData>, tags: TableUpdateData)
    ensures var r := Upserted(values, tags);
            |r| == if FindIndex(values, tags) == -1 then |values| + 1 else |values|
    ensures var r := Upserted(values, tags);
            forall i | 0 <= i < |values| && !SameKey(values[i], tags) :: r[i] == values[i]
  {
  }

  /** Storing keeps at most one edit per key. */
  lemma UpsertedKeepsUnique(values: seq<TableUpdateData>, tags: TableUpdateData)
    requires UniqueKeys(values)
    ensures UniqueKeys(Upserted(values, tags))
  {
    var r := Upserted(values, tags);
    var k := FindIndex(values, tags);
    forall i, j | 0 <= i < j < |r| ensures !SameKey(r[i], r[j]) {
      if k == -1 && j == |values| {
        assert !SameKey(values[i], tags);
      } else if i == k {
        assert !SameKey(values[k], values[j]);
      } else if j == k {
        assert !SameKey(values[i], values[k]);
      }
    }
  }

  /** Storing the same edit twice is storing it once. */
  lemma UpsertedIdempotent(values: seq<TableUpdateData>, tags: TableUpdateData)
    ensures Upserted(Upserted(values, tags), tags) == Upserted(values, tags)
  {
    var r := Upserted(values, tags);
    var k := FindIndex(values, tags);
    if k != -1 {
      assert forall i | 0 <= i < k :: r[i] == values[i];
      assert SameKey(r[k], tags);
    } else {
      assert forall i | 0 <= i < |values| :: r[i] == values[i];
      assert SameKey(r[|values|], tags);
    }
  }

  // ---------------------------------------------------------------------
  // Toggles

  /** toggleTheme: "corporate" becomes "night", every other theme "corporate". */
  function ToggledTheme(theme: string): (r: string)
    ensures r != theme
  {
    if theme == "corporate" then "night" else "corporate"
  }

  /** From either built-in theme, toggling alternates between the two. */
  lemma ToggledThemeAlternates(theme: string)
    ensures ToggledTheme(theme) == "night" <==> theme == "corporate"
    ensures theme == "corporate" || theme == "night" ==> ToggledTheme(ToggledTheme(theme)) == theme
    ensures ToggledTheme(theme) == "corporate" || ToggledTheme(theme) == "night"
  {
  }

  // ---------------------------------------------------------------------
  // The store

  /** All fields of the store, as one value. */
  datatype State<File, Data> = State(
    files: seq<File>,
    dicomData: seq<Data>,
    currentFileIndex: int,
    loading: bool,
    showErrorModal: bool,
    sidebarVisible: bool,
    sidePanelVisible: bool,
    showSeriesModal: bool,
    hideTagNumber: bool,
    series: bool,
    seriesSwitchModel: bool,
    downloadOption: string,
    theme: string,
    newTagValues: seq<TableUpdateData>,
    showHiddenTags: bool,
    tags: seq<AnonTag>,
    fileParseErrorFileNames: seq<string>)

  /** clearData: the seven fields it resets. */
  function Cleared<File, Data>(s: State<File, Data>): (r: State<File, Data>)
    ensures r.files == [] && r.dicomData == [] && r.newTagValues == []
    ensures r.theme == s.theme && r.tags == s.tags
  {
    s.(newTagValues := [], dicomData := [], files := [], currentFileIndex := 0,
       loading := false, sidebarVisible := false, series := false)
  }

  /** clearData empties the loaded data and pending edits and keeps the
   *  settings (theme, download option, hidden-tag flags) and the tag list. */
  lemma ClearedResetsDataOnly<File, Data>(s: State<File, Data>)
    ensures var r := Cleared(s);
            r.newTagValues == [] && r.dicomData == [] && r.files == [] && r.currentFileIndex == 0 &&
            !r.loading && !r.sidebarVisible && !r.series
    ensures var r := Cleared(s);
            r.theme == s.theme && r.tags == s.tags && r.downloadOption == s.downloadOption &&
            r.showHiddenTags == s.showHiddenTags && r.hideTagNumber == s.hideTagNumber &&
            r.showErrorModal == s.showErrorModal && r.sidePanelVisible == s.sidePanelVisible &&
            r.showSeriesModal == s.showSeriesModal && r.seriesSwitchModel == s.seriesSwitchModel &&
            r.fileParseErrorFileNames == s.fileParseErrorFileNames
    ensures Cleared(Cleared(s)) == Cleared(s)
  {
  }

  /** toggleSeries. */
  function SeriesToggled<File, Data>(s: State<File, Data>): (r: State<File, Data>)
    ensures r.series != s.series
    ensures r.(series := s.series) == s
  {
    s.(series := !s.series)
  }

  /** toggleSeries flips the flag, and twice restores the whole state. */
  lemma SeriesToggledInvolution<File, Data>(s: State<File, Data>)
    ensures SeriesToggled(s).series != s.series
    ensures SeriesToggled(SeriesToggled(s)) == s
  {
  }

  /** The store: zustand keeps the state as one object, and every `set`
   *  merges the given fields into it. The initial download option is "zip"
   *  on Safari, else the stored one, else "single"; the initial theme is the
   *  stored one, else "corporate". Reading localStorage becomes the
   *  constructor's parameters. */
  class Store<File, Data> {
    var state: State<File, Data>

    constructor (isSafari: bool, storedDownloadOption: Option<string>, storedTheme: Option<string>,
                 storedShowHiddenTags: bool)
      ensures state.files == [] && state.dicomData == [] && state.currentFileIndex == 0
      ensures state.newTagValues == [] && state.tags == [] && state.fileParseErrorFileNames == []
      ensures !state.loading && !state.showErrorModal && !state.sidebarVisible && !state.sidePanelVisible
      ensures !state.showSeriesModal && !state.hideTagNumber && !state.series && !state.seriesSwitchModel
      ensures state.downloadOption == if isSafari then "zip"
                                      else if storedDownloadOption.Some? then storedDownloadOption.value
                                      else "single"
      ensures state.theme == if storedTheme.Some? then storedTheme.value else "corporate"
      ensures state.showHiddenTags == storedShowHiddenTags
    {
      state := State([], [], 0, false, false, false, false, false, false, false, false,
                     if isSafari then "zip"
                     else if storedDownloadOption.Some? then storedDownloadOption.value else "single",
                     if storedTheme.Some? then storedTheme.value else "corporate",
                     [], storedShowHiddenTags, [], []);
    }

    /** setNewTagValues. */
    method SetNewTagValues(tagValue: TableUpdateData)
      modifies this
      ensures state == old(state).(newTagValues := Upserted(old(state.newTagValues), tagValue))
      ensures old(UniqueKeys(state.newTagValues)) ==> UniqueKeys(state.newTagValues)
    {
      if UniqueKeys(state.newTagValues) {
        UpsertedKeepsUnique(state.newTagValues, tagValue);
      }
      var existingIndex := FindIndex(state.newTagValues, tagValue);
      if existingIndex != -1 {
        state := state.(newTagValues := state.newTagValues[existingIndex := tagValue]);
      } else {
        state := state.(newTagValues := state.newTagValues + [tagValue]);
      }
    }

    /** emptyNewTagValues. */
    method EmptyNewTagValues()
      modifies this
      ensures state == old(state).(newTagValues := [])
    {
      state := state.(newTagValues := []);
    }

    /** setLoading. */
    method SetLoading(loading: bool)
      modifies this
      ensures state == old(state).(loading := loading)
    {
      state := state.(loading := loading);
    }

    /** setSidePanelVisible. */
    method SetSidePanelVisible(visible: bool)
      modifies this
      ensures state == old(state).(sidePanelVisible := visible)
    {
      state := state.(sidePanelVisible := visible);
    }

    /** setTags: the anonymisation panel's tag list. */
    method SetTags(tags: seq<AnonTag>)
      modifies this
      ensures state == old(state).(tags := tags)
    {
      state := state.(tags := tags);
    }

    /** setCurrentFileIndex: any index is stored as given. */
    method SetCurrentFileIndex(index: int)
      modifies this
      ensures state == old(state).(currentFileIndex := index)
    {
      state := state.(currentFileIndex := index);
    }

    /** toggleSeries. */
    method ToggleSeries()
      modifies this
      ensures state == SeriesToggled(old(state))
    {
      state := state.(series := !state.series);
    }

    /** toggleTheme. */
    method ToggleTheme()
      modifies this
      ensures state == old(state).(theme := ToggledTheme(old(state.theme)))
    {
      if state.theme == "corporate" {
        state := state.(theme := "night");
      } else {
        state := state.(theme := "corporate");
      }
    }

    /** clearData: seven successive `set` calls. */
    method ClearData()
      modifies this
      ensures state == Cleared(old(state))
    {
      state := state.(newTagValues := []);
      state := state.(dicomData := []);
      state := state.(files := []);
      state := state.(currentFileIndex := 0);
      state := state.(loading := false);
      state := state.(sidebarVisible := false);
      state := state.(series := false);
    }
  }
}
