/** buildFileStructure of src/DataFunctions/DicomData/FileProcessor.ts: the
 *  uploaded files are grouped by the folder part of their relative path,
 *  files at the top level (or without a path) going to "root". */
module FileProcessor {
  import opened JsString

  /** An uploaded file: its name and its `webkitRelativePath` ("" when absent). */
  datatype UploadedFile = UploadedFile(name: string, webkitRelativePath: string)

  /** Folder path to the files in it, in upload order. */
  type FileStructure = map<string, seq<UploadedFile>>

  /** `path.split("/").slice(0, -1).join("/")`. */
  function ParentPath(path: string): string
  {
    var parts := Split(path, '/');
    Join(parts[..|parts| - 1], "/")
  }

  /** The parent path is everything before the last '/', and nothing when
   *  the path holds no '/'. */
  lemma {:induction false} ParentPathBeforeLastSlash(path: string)
    ensures '/' !in path ==> ParentPath(path) == ""
    ensures '/' in path ==>
      var k := |ParentPath(path)|;
      k < |path| && path[..k] == ParentPath(path) && path[k] == '/' && '/' !in path[k + 1..]
    decreases |path|
  {
    if '/' in path {
      var k := IndexOf(path, '/');
      var rest := path[k + 1..];
      var tail := Split(rest, '/');
      var parts := Split(path, '/');
      assert parts == [path[..k]] + tail;
      assert ParentPath(path) == Join(parts[..|parts| - 1], "/");
      assert ParentPath(rest) == Join(tail[..|tail| - 1], "/");
      assert '/' !in rest ==> tail == [rest];
      assert Join([path[..k]], "/") == path[..k];
      hide Split, Join, ParentPath;
      assert parts[..|parts| - 1] == [path[..k]] + tail[..|tail| - 1];
      if '/' in rest {
        ParentPathBeforeLastSlash(rest);
        var j := |ParentPath(rest)|;
        JoinCons(path[..k], tail[..|tail| - 1], "/");
        assert ParentPath(path) == path[..k] + "/" + rest[..j];
        assert path[..k] + "/" + rest[..j] == path[..k + 1 + j];
        assert path[k + 1 + j] == rest[j];
        assert path[k + 1 + j + 1..] == rest[j + 1..];
      } else {
        assert parts[..|parts| - 1] == [path[..k]];
      }
    } else {
      assert Split(path, '/') == [path];
    }
  }

  /** The key a file is filed under: its parent path, or "root". */
  function DirectoryOf(file: UploadedFile): (directory: string)
    ensures directory != ""
  {
    var parent := ParentPath(file.webkitRelativePath);
    if parent == "" then "root" else parent
  }

  /** A file without a path, or with no folder in it, goes to "root". */
  lemma TopLevelGoesToRoot(file: UploadedFile)
    requires '/' !in file.webkitRelativePath
    ensures DirectoryOf(file) == "root"
  {
    ParentPathBeforeLastSlash(file.webkitRelativePath);
  }

  /** A file "a/b/c.dcm" goes to "a/b". */
  lemma NestedFileGoesToFolder(folder: string, name: string)
    requires folder != "" && '/' !in name
    ensures DirectoryOf(UploadedFile(name, folder + "/" + name)) == folder
  {
    var path := folder + "/" + name;
    assert path[|folder|] == '/';
    ParentPathBeforeLastSlash(path);
    var k := |ParentPath(path)|;
    assert forall j | k + 1 <= j < |path| :: path[j] == path[k + 1..][j - k - 1];
    assert forall j | |folder| < j < |path| :: path[j] == name[j - |folder| - 1];
    assert ParentPath(path) == path[..|folder|] == folder;
  }

  /** The structure the forEach has built after the given files. */
  function Grouped(files: seq<UploadedFile>): (groups: FileStructure)
    ensures forall directory | directory in groups :: directory != ""
  {
    if files == [] then map[]
    else
      var groups := Grouped(files[..|files| - 1]);
      var file := files[|files| - 1];
      var directory := DirectoryOf(file);
      var group := if directory in groups then groups[directory] else [];
      groups[directory := group + [file]]
  }

  /** The files filed under the given directory, in upload order. */
  function FilesIn(files: seq<UploadedFile>, directory: string): (r: seq<UploadedFile>)
    ensures |r| <= |files|
    ensures forall file | file in r :: file in files && DirectoryOf(file) == directory
  {
    if files == [] then []
    else
      var rest := FilesIn(files[..|files| - 1], directory);
      var file := files[|files| - 1];
      if DirectoryOf(file) == directory then rest + [file] else rest
  }

  /** The groups are exactly the directories of the files. */
  lemma {:induction false} GroupedKeys(files: seq<UploadedFile>)
    ensures Grouped(files).Keys == set i | 0 <= i < |files| :: DirectoryOf(files[i])
  {
    hide DirectoryOf;
    if files != [] {
      var front := files[..|files| - 1];
      var last := DirectoryOf(files[|files| - 1]);
      GroupedKeys(front);
      assert Grouped(files).Keys == Grouped(front).Keys + {last};
      var before := set i | 0 <= i < |front| :: DirectoryOf(front[i]);
      var after := set i | 0 <= i < |files| :: DirectoryOf(files[i]);
      assert forall i | 0 <= i < |front| :: front[i] == files[i];
      assert after == before + {last};
    }
  }

  /** Each group holds exactly the files of its directory, in upload order. */
  lemma {:induction false} GroupedByDirectory(files: seq<UploadedFile>)
    ensures forall directory | directory in Grouped(files) ::
      Grouped(files)[directory] == FilesIn(files, directory)
  {
    hide DirectoryOf;
    if files != [] {
      var front := files[..|files| - 1];
      var file := files[|files| - 1];
      var last := DirectoryOf(file);
      GroupedByDirectory(front);
      GroupedKeys(front);
      if last !in Grouped(front) {
        FilesInNone(front, last);
      }
      forall directory | directory in Grouped(files)
        ensures Grouped(files)[directory] == FilesIn(files, directory)
      {
        if directory == last {
          assert FilesIn(files, directory) == FilesIn(front, directory) + [file];
        } else {
          assert FilesIn(files, directory) == FilesIn(front, directory);
        }
      }
    }
  }

  lemma {:induction false} FilesInNone(files: seq<UploadedFile>, directory: string)
    requires forall i | 0 <= i < |files| :: DirectoryOf(files[i]) != directory
    ensures FilesIn(files, directory) == []
  {
    hide DirectoryOf;
    if files != [] {
      FilesInNone(files[..|files| - 1], directory);
    }
  }

  /** Every file sits in the group of its directory and in no other. */
  lemma EveryFileInOneGroup(files: seq<UploadedFile>, i: nat)
    requires i < |files|
    ensures DirectoryOf(files[i]) in Grouped(files)
    ensures files[i] in Grouped(files)[DirectoryOf(files[i])]
    ensures forall directory | directory in Grouped(files) && files[i] in Grouped(files)[directory] ::
      directory == DirectoryOf(files[i])
  {
    GroupedKeys(files);
    GroupedByDirectory(files);
    FileInItsGroup(files, i);
  }

  lemma {:induction false} FileInItsGroup(files: seq<UploadedFile>, i: nat)
    requires i < |files|
    ensures files[i] in FilesIn(files, DirectoryOf(files[i]))
  {
    hide DirectoryOf;
    var front := files[..|files| - 1];
    if i < |front| {
      assert front[i] == files[i];
      FileInItsGroup(front, i);
    }
  }

  /** The total number of files over all groups. */
  ghost function TotalSize(groups: FileStructure): nat
    decreases |groups.Keys|
  {
    if groups == map[] then 0
    else
      var directory :| directory in groups;
      assert groups.Keys == (groups - {directory}).Keys + {directory};
      |groups[directory]| + TotalSize(groups - {directory})
  }

  /** The total can be taken apart at any directory. */
  lemma {:induction false} TotalSizeAt(groups: FileStructure, directory: string)
    requires directory in groups
    ensures TotalSize(groups) == |groups[directory]| + TotalSize(groups - {directory})
    decreases |groups.Keys|
  {
    var chosen :| chosen in groups && TotalSize(groups) == |groups[chosen]| + TotalSize(groups - {chosen});
    if chosen != directory {
      var both := groups - {chosen} - {directory};
      assert groups.Keys == (groups - {chosen}).Keys + {chosen};
      assert groups.Keys == (groups - {directory}).Keys + {directory};
      TotalSizeAt(groups - {chosen}, directory);
      TotalSizeAt(groups - {directory}, chosen);
      assert groups - {chosen} - {directory} == groups - {directory} - {chosen};
    }
  }

  /** The group sizes add up to the number of files. */
  lemma {:induction false} GroupSizesSum(files: seq<UploadedFile>)
    ensures TotalSize(Grouped(files)) == |files|
  {
    hide DirectoryOf;
    if files != [] {
      var front := files[..|files| - 1];
      var before := Grouped(front);
      var directory := DirectoryOf(files[|files| - 1]);
      var after := Grouped(files);
      GroupSizesSum(front);
      TotalSizeAt(after, directory);
      if directory in before {
        TotalSizeAt(before, directory);
        assert after - {directory} == before - {directory};
      } else {
        assert after - {directory} == before;
      }
    }
  }

  /** buildFileStructure. */
  method BuildFileStructure(fileArray: seq<UploadedFile>) returns (fileStructure: FileStructure)
    ensures fileStructure == Grouped(fileArray)
  {
    fileStructure := map[];
    for i := 0 to |fileArray|
      invariant fileStructure == Grouped(fileArray[..i])
    {
      var file := fileArray[i];
      var directory := DirectoryOf(file);
      if directory !in fileStructure {
        fileStructure := fileStructure[directory := []];
      }
      fileStructure := fileStructure[directory := fileStructure[directory] + [file]];
      assert fileArray[..i + 1][..i] == fileArray[..i];
    }
    assert fileArray[..|fileArray|] == fileArray;
  }
}
