/** The Playwright harness (system_test/playwright_tests.py): for each browser,
 *  every DICOM sample with a sidecar is uploaded and the tag table is compared
 *  with the sidecar; mismatches are counted, not raised. What the page shows
 *  for a sample is a parameter, since the page is reloaded before each one. */
module PlaywrightTests {
  import opened JsString
  import opened TestFixtures

  /** Failures of the rows of one sample: one for each row with a mismatch,
   *  since the first mismatching field counts and moves on to the next row. */
  function RowsFailures(expected: seq<ExpectedTag>, rows: seq<TableRow>): (n: nat)
    requires |expected| == |rows|
    ensures n <= |rows|
    ensures n == 0 <==> forall i | 0 <= i < |rows| :: !RowFails(expected[i], rows[i])
  {
    if rows == [] then 0
    else
      var k := |rows| - 1;
      var before := RowsFailures(expected[..k], rows[..k]);
      assert forall i | 0 <= i < k :: expected[..k][i] == expected[i] && rows[..k][i] == rows[i];
      before + if RowFails(expected[k], rows[k]) then 1 else 0
  }

  /** Failures of one sample: exactly one when the row count is off, in which
   *  case no field is compared. */
  function SampleFailures(expected: seq<ExpectedTag>, rows: seq<TableRow>): (n: nat)
    ensures |rows| != |expected| ==> n == 1
    ensures |rows| == |expected| ==> n <= |rows|
  {
    if |rows| != |expected| then 1 else RowsFailures(expected, rows)
  }

  /** Failures over the given samples; one without a sidecar adds nothing. */
  function SamplesFailures(dicomFiles: seq<string>, tagsFiles: seq<string>,
                           load: string -> seq<ExpectedTag>, rowsOf: string -> seq<TableRow>): (n: nat)
  {
    if dicomFiles == [] then 0
    else
      var file := dicomFiles[|dicomFiles| - 1];
      var before := SamplesFailures(dicomFiles[..|dicomFiles| - 1], tagsFiles, load, rowsOf);
      if SidecarName(file) in tagsFiles then before + SampleFailures(load(SidecarName(file)), rowsOf(file))
      else before
  }

  /** The failure count splits over any split of the samples. */
  lemma {:induction false} SamplesFailuresAppend(first: seq<string>, second: seq<string>, tagsFiles: seq<string>,
                                                 load: string -> seq<ExpectedTag>, rowsOf: string -> seq<TableRow>)
    ensures SamplesFailures(first + second, tagsFiles, load, rowsOf)
         == SamplesFailures(first, tagsFiles, load, rowsOf) + SamplesFailures(second, tagsFiles, load, rowsOf)
    decreases |second|
  {
    if second != [] {
      var all := first + second;
      var front := second[..|second| - 1];
      assert all[..|all| - 1] == first + front;
      assert all[|all| - 1] == second[|second| - 1];
      SamplesFailuresAppend(first, front, tagsFiles, load, rowsOf);
    } else {
      assert first + second == first;
    }
  }

  /** A run finds no failure exactly when every sample with a sidecar shows
   *  the sidecar's row count and every row passes. */
  lemma {:induction false} NoFailuresIffAllPass(dicomFiles: seq<string>, tagsFiles: seq<string>,
                                                load: string -> seq<ExpectedTag>, rowsOf: string -> seq<TableRow>)
    ensures SamplesFailures(dicomFiles, tagsFiles, load, rowsOf) == 0 <==>
      forall file | file in dicomFiles && SidecarName(file) in tagsFiles ::
        |rowsOf(file)| == |load(SidecarName(file))|
        && forall i | 0 <= i < |rowsOf(file)| :: !RowFails(load(SidecarName(file))[i], rowsOf(file)[i])
  {
    if dicomFiles != [] {
      var front := dicomFiles[..|dicomFiles| - 1];
      NoFailuresIffAllPass(front, tagsFiles, load, rowsOf);
      assert dicomFiles == front + [dicomFiles[|dicomFiles| - 1]];
    }
  }

  /** runTest for one browser: the count it was given plus this browser's
   *  failures. */
  method RunTest(filesList: seq<string>, load: string -> seq<ExpectedTag>, rowsOf: string -> seq<TableRow>,
                 failedTests: int) returns (failed: int)
    ensures failed == failedTests + SamplesFailures(WithSuffix(filesList, ".dcm"), WithSuffix(filesList, ".json"), load, rowsOf)
    ensures failed >= failedTests
  {
    var tagsFiles := WithSuffix(filesList, ".json");
    var dicomFiles := WithSuffix(filesList, ".dcm");
    failed := failedTests;
    for k := 0 to |dicomFiles|
      invariant failed == failedTests + SamplesFailures(dicomFiles[..k], tagsFiles, load, rowsOf)
    {
      assert dicomFiles[..k + 1][..k] == dicomFiles[..k];
      var file := dicomFiles[k];
      var findTagFile := SidecarName(file);
      if findTagFile !in tagsFiles {
        continue;
      }
      var fileIMTags := load(findTagFile);
      var rows := rowsOf(file);
      if |rows| != |fileIMTags| {
        failed := failed + 1;
        continue;
      }
      failed := CompareRows(fileIMTags, rows, failed);
    }
    assert dicomFiles[..|dicomFiles|] == dicomFiles;
  }

  /** The row loop of runTest: each row adds one failure at its first
   *  mismatching field. */
  method CompareRows(fileIMTags: seq<ExpectedTag>, rows: seq<TableRow>, failedTests: int) returns (failed: int)
    requires |rows| == |fileIMTags|
    ensures failed == failedTests + RowsFailures(fileIMTags, rows)
  {
    failed := failedTests;
    for i := 0 to |rows|
      invariant failed == failedTests + RowsFailures(fileIMTags[..i], rows[..i])
    {
      assert fileIMTags[..i + 1][..i] == fileIMTags[..i];
      assert rows[..i + 1][..i] == rows[..i];
      var row := rows[i];
      var value := row.value;
      if !Includes(row.tagText, fileIMTags[i].tag) {
        failed := failed + 1;
        continue;
      }
      if !Includes(row.nameText, fileIMTags[i].name) {
        failed := failed + 1;
        continue;
      }
      if '@' !in value {
        if !Includes(value, fileIMTags[i].value) {
          failed := failed + 1;
          continue;
        }
      }
    }
    assert fileIMTags[..|rows|] == fileIMTags && rows[..|rows|] == rows;
  }

  /** The three browsers runAllTests visits, in order. */
  datatype BrowserType = Chromium | Firefox | Webkit

  const BrowserTypes: seq<BrowserType> := [Chromium, Firefox, Webkit]

  /** runAllTests: the failures of the three browsers added up. */
  method RunAllTests(filesList: seq<string>, load: string -> seq<ExpectedTag>,
                     rowsOf: BrowserType -> string -> seq<TableRow>) returns (failedTests: int)
    ensures failedTests == SamplesFailures(WithSuffix(filesList, ".dcm"), WithSuffix(filesList, ".json"), load, rowsOf(Chromium))
                         + SamplesFailures(WithSuffix(filesList, ".dcm"), WithSuffix(filesList, ".json"), load, rowsOf(Firefox))
                         + SamplesFailures(WithSuffix(filesList, ".dcm"), WithSuffix(filesList, ".json"), load, rowsOf(Webkit))
    ensures failedTests >= 0
  {
    failedTests := 0;
    for b := 0 to |BrowserTypes|
      invariant failedTests == BrowsersFailures(filesList, load, rowsOf, BrowserTypes[..b])
    {
      assert BrowserTypes[..b + 1][..b] == BrowserTypes[..b];
      var count := RunTest(filesList, load, rowsOf(BrowserTypes[b]), 0);
      failedTests := failedTests + count;
    }
    var dicomFiles := WithSuffix(filesList, ".dcm");
    var tagsFiles := WithSuffix(filesList, ".json");
    assert BrowserTypes[..3] == BrowserTypes;
    assert [Chromium, Firefox, Webkit][..2] == [Chromium, Firefox];
    assert [Chromium, Firefox][..1] == [Chromium];
    assert BrowsersFailures(filesList, load, rowsOf, [Chromium])
        == SamplesFailures(dicomFiles, tagsFiles, load, rowsOf(Chromium));
    assert BrowsersFailures(filesList, load, rowsOf, [Chromium, Firefox])
        == BrowsersFailures(filesList, load, rowsOf, [Chromium])
         + SamplesFailures(dicomFiles, tagsFiles, load, rowsOf(Firefox));
  }

  /** The failures over the given browsers. */
  function BrowsersFailures(filesList: seq<string>, load: string -> seq<ExpectedTag>,
                            rowsOf: BrowserType -> string -> seq<TableRow>, browsers: seq<BrowserType>): nat
  {
    if browsers == [] then 0
    else BrowsersFailures(filesList, load, rowsOf, browsers[..|browsers| - 1])
         + SamplesFailures(WithSuffix(filesList, ".dcm"), WithSuffix(filesList, ".json"), load, rowsOf(browsers[|browsers| - 1]))
  }
}
