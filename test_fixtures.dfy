/** What the two browser harnesses (system_test/playwright_tests.py and
 *  system_test/selenium_tests.py) share: the fixture listing, the sidecar
 *  JSON named after each DICOM sample, and the per-row comparison of the
 *  tag table against the sidecar's records. */
module TestFixtures {
  import opened JsString

  /** One record of a sidecar file: the expected tag, name and value. */
  datatype ExpectedTag = ExpectedTag(tag: string, name: string, value: string)

  /** One row of the rendered tag table: the text of the tag cell, the text
   *  of the name cell and the value of the input in the value cell. */
  datatype TableRow = TableRow(tagText: string, nameText: string, value: string)

  predicate EndsWith(s: string, suffix: string)
  {
    |suffix| <= |s| && s[|s| - |suffix|..] == suffix
  }

  /** `[f for f in files_list if f.endswith(suffix)]`. */
  function WithSuffix(filesList: seq<string>, suffix: string): (r: seq<string>)
    ensures forall f | f in r :: f in filesList && EndsWith(f, suffix)
    ensures forall f | f in filesList && EndsWith(f, suffix) :: f in r
  {
    if filesList == [] then []
    else
      var rest := WithSuffix(filesList[..|filesList| - 1], suffix);
      var f := filesList[|filesList| - 1];
      if EndsWith(f, suffix) then rest + [f] else rest
  }

  /** `f'tags_{file.split(".")[0]}.json'`. */
  function SidecarName(file: string): string
  {
    "tags_" + Split(file, '.')[0] + ".json"
  }

  /** The sidecar is named after the sample's name up to its first '.'. */
  lemma SidecarNameUsesFirstDot(file: string)
    ensures '.' in file ==> SidecarName(file) == "tags_" + file[..IndexOf(file, '.')] + ".json"
    ensures '.' !in file ==> SidecarName(file) == "tags_" + file + ".json"
  {
  }

  /** A sample "stem.ext" whose stem has no dot looks for "tags_stem.json". */
  lemma SidecarOfStem(stem: string, ext: string)
    requires '.' !in stem
    ensures SidecarName(stem + "." + ext) == "tags_" + stem + ".json"
  {
    var file := stem + "." + ext;
    assert file[|stem|] == '.';
    var k := IndexOf(file, '.');
    assert forall j | 0 <= j < |stem| :: file[j] == stem[j];
    assert k <= |stem| by {
      assert forall j | 0 <= j < k :: file[..k][j] == file[j];
    }
    assert file[..k] == stem;
    SidecarNameUsesFirstDot(file);
  }

  /** A row passes when the expected tag and name are substrings of the
   *  observed cells and, unless the observed value holds an '@', the
   *  expected value is a substring of it. */
  predicate RowFails(expected: ExpectedTag, row: TableRow)
  {
    !Includes(row.tagText, expected.tag)
    || !Includes(row.nameText, expected.name)
    || ('@' !in row.value && !Includes(row.value, expected.value))
  }

  /** An observed value holding '@' makes the expected value irrelevant. */
  lemma AtSkipsValue(expected: ExpectedTag, row: TableRow, other: string)
    requires '@' in row.value
    ensures RowFails(expected, row) == RowFails(expected.(value := other), row)
  {
  }

  /** Observed cells that repeat the expected text always pass. */
  lemma ExactRowPasses(expected: ExpectedTag)
    ensures !RowFails(expected, TableRow(expected.tag, expected.name, expected.value))
  {
    IncludesItself(expected.tag);
    IncludesItself(expected.name);
    IncludesItself(expected.value);
  }
}
