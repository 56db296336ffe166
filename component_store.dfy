/** The older global store of the components tree. It has the same pending
 *  edit upsert, toggles and reset as the application store, a popup flag in
 *  place of the side-panel, tag-number and parse-error fields, and generic
 *  popup tags. */
module ComponentStore {
  import opened Wrappers
  import opened DicomTypes
  import opened StateStore

  /** All fields of the store, as one value. */
  datatype ComponentState<File, Data, Tag> = ComponentState(
    files: seq<File>,
    dicomData: seq<Data>,
    currentFileIndex: int,
    loading: bool,
    showErrorModal: bool,
    sidebarVisible: bool,
    showSeriesModal: bool,
    series: bool,
    seriesSwitchModel: bool,
    downloadOption: string,
    theme: string,
    newTagValues: seq<TableUpdateData>,
    showHiddenTags: bool,
    tags: seq<Tag>,
    showPopup: bool)

  /** clearData: the seven fields it resets. */
  function ComponentCleared<File, Data, Tag>(s: ComponentState<File, Data, Tag>): (r: ComponentState<File, Data, Tag>)
    ensures r.files == [] && r.dicomData == [] && r.newTagValues == []
    ensures r.theme == s.theme && r.showPopup == s.showPopup
  {
    s.(newTagValues := [], dicomData := [], files := [], currentFileIndex := 0,
       loading := false, sidebarVisible := false, series := false)
  }

  /** clearData resets the seven fields only: the settings, the popup flag
   *  and the popup tags survive it. */
  lemma ComponentClearedResetsSevenFields<File, Data, Tag>(s: ComponentState<File, Data, Tag>)
    ensures var r := ComponentCleared(s);
            r.newTagValues == [] && r.dicomData == [] && r.files == [] && r.currentFileIndex == 0 &&
            !r.loading && !r.sidebarVisible && !r.series
    ensures var r := ComponentCleared(s);
            r.theme == s.theme && r.tags == s.tags && r.showPopup == s.showPopup &&
            r.downloadOption == s.downloadOption && r.showHiddenTags == s.showHiddenTags &&
            r.showErrorModal == s.showErrorModal && r.showSeriesModal == s.showSeriesModal &&
            r.seriesSwitchModel == s.seriesSwitchModel
  {
  }

  /** The store; the constructor's parameters stand for what localStorage
   *  and the browser check give. */
  class Store<File, Data, Tag> {
    var state: ComponentState<File, Data, Tag>

    constructor (isSafari: bool, storedDownloadOption: Option<string>, storedTheme: Option<string>,
                 storedShowHiddenTags: bool)
      ensures state.files == [] && state.dicomData == [] && state.currentFileIndex == 0
      ensures state.newTagValues == [] && state.tags == []
      ensures !state.loading && !state.showErrorModal && !state.sidebarVisible && !state.showSeriesModal
      ensures !state.series && !state.seriesSwitchModel && !state.showPopup
      ensures state.downloadOption == if isSafari then "zip"
                                      else if storedDownloadOption.Some? then storedDownloadOption.value
                                      else "single"
      ensures state.theme == if storedTheme.Some? then storedTheme.value else "corporate"
      ensures state.showHiddenTags == storedShowHiddenTags
    {
      state := ComponentState([], [], 0, false, false, false, false, false, false,
                              if isSafari then "zip"
                              else if storedDownloadOption.Some? then storedDownloadOption.value
                              else "single",
                              if storedTheme.Some? then storedTheme.value else "corporate",
                              [], storedShowHiddenTags, [], false);
    }

    /** setNewTagValues: the same keyed upsert as the application store. */
    method SetNewTagValues(tagValue: TableUpdateData)
      modifies this
      ensures state == old(state).(newTagValues := Upserted(old(state.newTagValues), tagValue))
      ensures old(UniqueKeys(state.newTagValues)) ==> UniqueKeys(state.newTagValues)
    {
      if UniqueKeys(state.newTagValues) {
        UpsertedKeepsUnique(state.newTagValues, tagValue);
      }
      var existingIndex := FindIndex(state.newTagValues, tagValue);
      if existingIndex != -1 {
        state := state.(newTagValues := state.newTagValues[existingIndex := tagValue]);
      } else {
        state := state.(newTagValues := state.newTagValues + [tagValue]);
      }
    }

    /** emptyNewTagValues. */
    method EmptyNewTagValues()
      modifies this
      ensures state == old(state).(newTagValues := [])
    {
      state := state.(newTagValues := []);
    }

    /** toggleSeries: flips the flag, so two calls restore the state. */
    method ToggleSeries()
      modifies this
      ensures state == old(state).(series := !old(state.series))
    {
      state := state.(series := !state.series);
    }

    /** toggleTheme. */
    method ToggleTheme()
      modifies this
      ensures state == old(state).(theme := ToggledTheme(old(state.theme)))
    {
      if state.theme == "corporate" {
        state := state.(theme := "night");
      } else {
        state := state.(theme := "corporate");
      }
    }

    /** setShowPopup. */
    method SetShowPopup(show: bool)
      modifies this
      ensures state == old(state).(showPopup := show)
    {
      state := state.(showPopup := show);
    }

    /** clearData: seven successive `set` calls. */
    method ClearData()
      modifies this
      ensures state == ComponentCleared(old(state))
    {
      state := state.(newTagValues := []);
      state := state.(dicomData := []);
      state := state.(files := []);
      state := state.(currentFileIndex := 0);
      state := state.(loading := false);
      state := state.(sidebarVisible := false);
      state := state.(series := false);
    }
  }
}
