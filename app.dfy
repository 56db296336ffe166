/** The top-level component of src/App.tsx: the uploaded files, their parsed
 *  data and the index of the file being viewed, moved by Previous, Next and
 *  a direct selection. */
module App {
  import opened Wrappers

  /** nextFile: one file on, unless the last file is showing. */
  function NextIndex(index: int, count: nat): (r: int)
    ensures index < count - 1 ==> r == index + 1
    ensures index >= count - 1 ==> r == index
  {
    if index < count - 1 then index + 1 else index
  }

  /** prevFile: one file back, unless the first file is showing. */
  function PrevIndex(index: int): (r: int)
    ensures index > 0 ==> r == index - 1
    ensures index <= 0 ==> r == index
  {
    if index > 0 then index - 1 else index
  }

  /** The index names a file, or is 0 while there are none. */
  predicate IndexValid(index: int, count: nat)
  {
    if count == 0 then index == 0 else 0 <= index < count
  }

  /** Previous and Next keep a valid index valid. */
  lemma NavigationKeepsIndexValid(index: int, count: nat)
    requires IndexValid(index, count)
    ensures IndexValid(NextIndex(index, count), count)
    ensures IndexValid(PrevIndex(index), count)
  {
  }

  /** Next then Previous returns to the file one started from, unless Next
   *  did nothing. */
  lemma PrevUndoesNext(index: int, count: nat)
    requires 0 <= index < count - 1
    ensures PrevIndex(NextIndex(index, count)) == index
  {
  }

  /** Pressing Next k times from the first file reaches file k, or the last. */
  function NextTimes(index: int, count: nat, k: nat): (r: int)
    ensures IndexValid(index, count) ==> IndexValid(r, count)
    ensures index <= r
  {
    if k == 0 then index else NextIndex(NextTimes(index, count, k - 1), count)
  }

  lemma {:induction false} NextTimesReachesLast(count: nat, k: nat)
    requires count > 0
    ensures NextTimes(0, count, k) == if k < count - 1 then k else count - 1
  {
    if k > 0 {
      NextTimesReachesLast(count, k - 1);
    }
  }

  /** The heading's file: none while nothing is loaded, and a TypeError when
   *  the index is outside the files. */
  function CurrentlyViewing<F, D>(files: seq<F>, dicomData: seq<D>, index: int): (r: Result<Option<F>, string>)
    ensures IndexValid(index, |files|) ==> r.Ok?
    ensures r.Ok? && r.value.Some? ==> 0 <= index < |files| && r.value.value == files[index]
    ensures (files == [] || dicomData == []) ==> r == Ok(None)
    ensures files != [] && dicomData != [] && !(0 <= index < |files|) ==> r.Err?
  {
    if |files| > 0 && |dicomData| > 0 then
      if 0 <= index < |files| then Ok(Some(files[index]))
      else Err("TypeError: Cannot read properties of undefined (reading 'name')")
    else Ok(None)
  }

  class AppState<F, D> {
    var sidebarVisible: bool
    var files: seq<F>
    var dicomData: seq<D>
    var currentFileIndex: int

    constructor()
      ensures !sidebarVisible && files == [] && dicomData == [] && currentFileIndex == 0
      ensures IndexValid(currentFileIndex, |files|)
    {
      sidebarVisible := false;
      files := [];
      dicomData := [];
      currentFileIndex := 0;
    }

    method ToggleSidebar()
      modifies this
      ensures sidebarVisible == !old(sidebarVisible)
      ensures files == old(files) && dicomData == old(dicomData) && currentFileIndex == old(currentFileIndex)
    {
      sidebarVisible := !sidebarVisible;
    }

    /** handleFileUpload: the new files replace the old, and the first is shown. */
    method HandleFileUpload(newFiles: seq<F>, newDicomData: seq<D>)
      modifies this
      ensures files == newFiles && dicomData == newDicomData && currentFileIndex == 0
      ensures sidebarVisible == old(sidebarVisible)
      ensures IndexValid(currentFileIndex, |files|)
    {
      files := newFiles;
      dicomData := newDicomData;
      currentFileIndex := 0;
    }

    method NextFile()
      modifies this
      ensures currentFileIndex == NextIndex(old(currentFileIndex), |files|)
      ensures files == old(files) && dicomData == old(dicomData) && sidebarVisible == old(sidebarVisible)
      ensures old(IndexValid(currentFileIndex, |files|)) ==> IndexValid(currentFileIndex, |files|)
    {
      if currentFileIndex < |files| - 1 {
        currentFileIndex := currentFileIndex + 1;
      }
    }

    method PrevFile()
      modifies this
      ensures currentFileIndex == PrevIndex(old(currentFileIndex))
      ensures files == old(files) && dicomData == old(dicomData) && sidebarVisible == old(sidebarVisible)
      ensures old(IndexValid(currentFileIndex, |files|)) ==> IndexValid(currentFileIndex, |files|)
    {
      if currentFileIndex > 0 {
        currentFileIndex := currentFileIndex - 1;
      }
    }

    /** handleFileSelect: the index is taken as given, with no bounds check. */
    method HandleFileSelect(index: int)
      modifies this
      ensures currentFileIndex == index
      ensures files == old(files) && dicomData == old(dicomData) && sidebarVisible == old(sidebarVisible)
    {
      currentFileIndex := index;
    }
  }

  /** A selection past the files makes the heading throw. */
  lemma SelectPastFilesThrows<F, D>(files: seq<F>, dicomData: seq<D>)
    requires files != [] && dicomData != []
    ensures CurrentlyViewing(files, dicomData, |files|).Err?
    ensures !IndexValid(|files|, |files|)
  {
  }
}
