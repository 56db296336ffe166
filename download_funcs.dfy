/** The download helpers' file naming (src/DataFunctions/DicomData/DownloadFuncs.ts):
 *  an edited file is named after the original, with "_edited.dcm" in place
 *  of its last four characters when the name contains ".dcm" anywhere. */
module DownloadFuncs {
  import opened JsBytes
  import opened JsString

  const Suffix: string := "_edited.dcm"

  /** A file ready for the zip: its name and its bytes. */
  datatype NamedFile = NamedFile(name: string, content: seq<byte>)

  /** The name createFile gives an edited file. */
  function EditedName(fileName: string): (r: string)
    ensures |r| >= |Suffix| && r[|r| - |Suffix|..] == Suffix
    ensures Includes(fileName, ".dcm") ==> |fileName| >= 4 && r == fileName[..|fileName| - 4] + Suffix
    ensures !Includes(fileName, ".dcm") ==> r == fileName + Suffix
  {
    var stem := if Includes(fileName, ".dcm") then Slice(fileName, 0, -4) else fileName;
    stem + Suffix
  }

  /** createFile: the edited name and the given bytes. */
  function CreateFile(fileName: string, data: seq<byte>): (f: NamedFile)
    ensures f.content == data
    ensures |f.name| >= |Suffix| && f.name[|f.name| - |Suffix|..] == Suffix
  {
    NamedFile(EditedName(fileName), data)
  }

  /** A name ending in ".dcm" keeps its stem. */
  lemma DcmNameKeepsStem(stem: string)
    ensures EditedName(stem + ".dcm") == stem + Suffix
  {
    var name := stem + ".dcm";
    assert OccursAt(name, ".dcm", |stem|);
    assert name[..|name| - 4] == stem;
  }

  /** An already edited name gains a second suffix. */
  lemma EditedTwice()
    ensures EditedName("x_edited.dcm") == "x_edited_edited.dcm"
  {
    DcmNameKeepsStem("x_edited");
    assert "x_edited" + ".dcm" == "x_edited.dcm";
    assert "x_edited" + Suffix == "x_edited_edited.dcm";
  }

  /** ".dcm" inside the name is enough: the last four characters are dropped
   *  whatever they are. */
  lemma InnerDcmDropsLastFour()
    ensures EditedName("scan.dcm.bak") == "scan.dcm_edited.dcm"
  {
    assert OccursAt("scan.dcm.bak", ".dcm", 4);
  }
}
