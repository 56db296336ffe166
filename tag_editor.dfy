/** The plain-JavaScript editor. Its splice helpers, getEndian,
 *  checkSequences, readUint32, orderByOffset and findOffsetForNewTag are the
 *  same code as the DicomUpdater class and are modelled there; what is its
 *  own is the entry point that decides whether there is anything to save. */
module TagEditor {
  import opened Wrappers

  /** What downloadModifiedDicom receives as its edits: a Map from tag to new
   *  value, or anything else (`updateTagValue` yields undefined when there is
   *  no dataset). */
  datatype ModifiedTags = TagMap(tags: map<string, string>) | NotAMap

  /** How downloadModifiedDicom ends: it returns early when there is no
   *  dataset or nothing was modified, and otherwise only creates an editor,
   *  which it discards. In no case does it change the dataset. */
  datatype Download = NoDataSet | NoTagsModified | EditorCreated

  /** The guard clauses of downloadModifiedDicom. */
  function DownloadModifiedDicom<D>(modifiedTags: ModifiedTags, dataSet: Option<D>): (r: Download)
    ensures r == NoDataSet <==> dataSet.None?
    ensures r == NoTagsModified <==> dataSet.Some? && (modifiedTags.NotAMap? || |modifiedTags.tags| == 0)
    ensures r == EditorCreated <==> dataSet.Some? && modifiedTags.TagMap? && |modifiedTags.tags| > 0
  {
    if dataSet.None? then NoDataSet
    else if !modifiedTags.TagMap? || |modifiedTags.tags| == 0 then NoTagsModified
    else EditorCreated
  }
}
