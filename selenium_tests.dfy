/** The Selenium harness (system_test/selenium_tests.py): the same comparison
 *  as the Playwright harness, but every check is an `assert`, so the first
 *  mismatch aborts the rest of the run; the driver is quit in `finally`. A
 *  raised AssertionError is an Err result here. */
module SeleniumTests {
  import opened Wrappers
  import opened JsString
  import opened TestFixtures
  import PlaywrightTests

  /** The assertion that failed first. */
  datatype Failure =
    | TitleLacksDicom
    | RowCount(file: string)
    | TagText(file: string, row: nat)
    | NameText(file: string, row: nat)
    | ValueText(file: string, row: nat)

  /** The checks of one row, in the order they are asserted. */
  function RowFailure(file: string, i: nat, expected: ExpectedTag, row: TableRow): (f: Option<Failure>)
    ensures f.None? <==> !RowFails(expected, row)
    ensures f.Some? ==> f.value in {TagText(file, i), NameText(file, i), ValueText(file, i)}
  {
    if !Includes(row.tagText, expected.tag) then Some(TagText(file, i))
    else if !Includes(row.nameText, expected.name) then Some(NameText(file, i))
    else if '@' !in row.value && !Includes(row.value, expected.value) then Some(ValueText(file, i))
    else None
  }

  /** The first failing row of a sample, if any. */
  function RowsFailure(file: string, expected: seq<ExpectedTag>, rows: seq<TableRow>): (f: Option<Failure>)
    requires |expected| == |rows|
    ensures f.None? <==> forall i | 0 <= i < |rows| :: !RowFails(expected[i], rows[i])
  {
    if rows == [] then None
    else
      var k := |rows| - 1;
      var before := RowsFailure(file, expected[..k], rows[..k]);
      assert forall i | 0 <= i < k :: expected[..k][i] == expected[i] && rows[..k][i] == rows[i];
      if before.Some? then before else RowFailure(file, k, expected[k], rows[k])
  }

  /** The first failure over the given samples; samples without a sidecar
   *  are skipped. */
  function SamplesFailure(dicomFiles: seq<string>, tagsFiles: seq<string>,
                          load: string -> seq<ExpectedTag>, rowsOf: string -> seq<TableRow>): Option<Failure>
  {
    if dicomFiles == [] then None
    else
      var file := dicomFiles[|dicomFiles| - 1];
      var before := SamplesFailure(dicomFiles[..|dicomFiles| - 1], tagsFiles, load, rowsOf);
      if before.Some? || SidecarName(file) !in tagsFiles then before
      else if |rowsOf(file)| != |load(SidecarName(file))| then Some(RowCount(file))
      else RowsFailure(file, load(SidecarName(file)), rowsOf(file))
  }

  /** The outcome of run_test: the title check, then the samples. */
  function TestOutcome(title: string, filesList: seq<string>,
                       load: string -> seq<ExpectedTag>, rowsOf: string -> seq<TableRow>): Result<(), Failure>
  {
    if !Includes(title, "DICOM") then Err(TitleLacksDicom)
    else
      match SamplesFailure(WithSuffix(filesList, ".dcm"), WithSuffix(filesList, ".json"), load, rowsOf)
      case None => Ok(())
      case Some(failure) => Err(failure)
  }

  /** A failure in the first samples is the run's failure, whatever the rest
   *  would show: the later samples are never looked at. */
  lemma {:induction false} FailureAbortsRest(first: seq<string>, rest: seq<string>, tagsFiles: seq<string>,
                                             load: string -> seq<ExpectedTag>, rowsOf: string -> seq<TableRow>)
    requires SamplesFailure(first, tagsFiles, load, rowsOf).Some?
    ensures SamplesFailure(first + rest, tagsFiles, load, rowsOf) == SamplesFailure(first, tagsFiles, load, rowsOf)
    decreases |rest|
  {
    if rest == [] {
      assert first + rest == first;
    } else {
      var all := first + rest;
      assert all[..|all| - 1] == first + rest[..|rest| - 1];
      FailureAbortsRest(first, rest[..|rest| - 1], tagsFiles, load, rowsOf);
    }
  }

  /** Both harnesses judge a run alike: with the title in order, the Selenium
   *  run passes exactly when the Playwright run counts no failure. */
  lemma {:induction false} PassesIffNoCountedFailure(dicomFiles: seq<string>, tagsFiles: seq<string>,
                                                     load: string -> seq<ExpectedTag>, rowsOf: string -> seq<TableRow>)
    ensures SamplesFailure(dicomFiles, tagsFiles, load, rowsOf).None?
        <==> PlaywrightTests.SamplesFailures(dicomFiles, tagsFiles, load, rowsOf) == 0
  {
    if dicomFiles != [] {
      PassesIffNoCountedFailure(dicomFiles[..|dicomFiles| - 1], tagsFiles, load, rowsOf);
    }
  }

  /** A remote WebDriver session: the page title it shows and whether it has
   *  been quit. */
  class Driver {
    const title: string
    var quit: bool

    constructor(title: string)
      ensures this.title == title && !quit
    {
      this.title := title;
      quit := false;
    }

    method Quit()
      modifies this
      ensures quit
    {
      quit := true;
    }
  }

  /** run_test: the checks, and the driver quit whether they pass or not. */
  method RunTest(driver: Driver, filesList: seq<string>,
                 load: string -> seq<ExpectedTag>, rowsOf: string -> seq<TableRow>) returns (r: Result<(), Failure>)
    modifies driver
    ensures r == TestOutcome(driver.title, filesList, load, rowsOf)
    ensures driver.quit
  {
    r := RunChecks(driver.title, filesList, load, rowsOf);
    driver.Quit();
  }

  /** The try block of run_test, which stops at the first failed assert. */
  method RunChecks(title: string, filesList: seq<string>,
                   load: string -> seq<ExpectedTag>, rowsOf: string -> seq<TableRow>) returns (r: Result<(), Failure>)
    ensures r == TestOutcome(title, filesList, load, rowsOf)
  {
    if !Includes(title, "DICOM") {
      return Err(TitleLacksDicom);
    }
    var tagsFiles := WithSuffix(filesList, ".json");
    var dicomFiles := WithSuffix(filesList, ".dcm");
    for k := 0 to |dicomFiles|
      invariant SamplesFailure(dicomFiles[..k], tagsFiles, load, rowsOf).None?
    {
      assert dicomFiles[..k + 1][..k] == dicomFiles[..k];
      var file := dicomFiles[k];
      var findTagFile := SidecarName(file);
      if findTagFile !in tagsFiles {
        continue;
      }
      var fileIMTags := load(findTagFile);
      var rows := rowsOf(file);
      if |rows| != |fileIMTags| {
        FailureAbortsRest(dicomFiles[..k + 1], dicomFiles[k + 1..], tagsFiles, load, rowsOf);
        assert dicomFiles[..k + 1] + dicomFiles[k + 1..] == dicomFiles;
        return Err(RowCount(file));
      }
      var failure := CheckRows(file, fileIMTags, rows);
      if failure.Some? {
        FailureAbortsRest(dicomFiles[..k + 1], dicomFiles[k + 1..], tagsFiles, load, rowsOf);
        assert dicomFiles[..k + 1] + dicomFiles[k + 1..] == dicomFiles;
        return Err(failure.value);
      }
    }
    assert dicomFiles[..|dicomFiles|] == dicomFiles;
    r := Ok(());
  }

  /** The row loop of run_test: the first failed assert of the first failing
   *  row. */
  method CheckRows(file: string, fileIMTags: seq<ExpectedTag>, rows: seq<TableRow>) returns (failure: Option<Failure>)
    requires |rows| == |fileIMTags|
    ensures failure == RowsFailure(file, fileIMTags, rows)
  {
    for i := 0 to |rows|
      invariant RowsFailure(file, fileIMTags[..i], rows[..i]).None?
    {
      assert fileIMTags[..i + 1][..i] == fileIMTags[..i];
      assert rows[..i + 1][..i] == rows[..i];
      var row := rows[i];
      var value := row.value;
      if !Includes(row.tagText, fileIMTags[i].tag) {
        RowsFailureAbortsRest(file, fileIMTags, rows, i + 1);
        return Some(TagText(file, i));
      }
      if !Includes(row.nameText, fileIMTags[i].name) {
        RowsFailureAbortsRest(file, fileIMTags, rows, i + 1);
        return Some(NameText(file, i));
      }
      if '@' !in value && !Includes(value, fileIMTags[i].value) {
        RowsFailureAbortsRest(file, fileIMTags, rows, i + 1);
        return Some(ValueText(file, i));
      }
    }
    assert fileIMTags[..|rows|] == fileIMTags && rows[..|rows|] == rows;
    failure := None;
  }

  /** The first failing row decides the sample, whatever the later rows show. */
  lemma {:induction false} RowsFailureAbortsRest(file: string, expected: seq<ExpectedTag>, rows: seq<TableRow>, n: nat)
    requires |expected| == |rows| && n <= |rows|
    requires RowsFailure(file, expected[..n], rows[..n]).Some?
    ensures RowsFailure(file, expected, rows) == RowsFailure(file, expected[..n], rows[..n])
    decreases |rows| - n
  {
    if n < |rows| {
      assert expected[..n + 1][..n] == expected[..n];
      assert rows[..n + 1][..n] == rows[..n];
      RowsFailureAbortsRest(file, expected, rows, n + 1);
    } else {
      assert expected[..n] == expected && rows[..n] == rows;
    }
  }

  /** The browsers run_all_tests_all_browsers visits, in order. */
  datatype Browser = Firefox | Chrome | Edge

  const Browsers: seq<Browser> := [Firefox, Chrome, Edge]

  /** run_all_tests_all_browsers: one fresh remote driver per browser; a
   *  failure propagates at once, so the browsers after it never run. The
   *  second result lists the browsers that ran. */
  method RunAllTestsAllBrowsers(filesList: seq<string>, load: string -> seq<ExpectedTag>,
                                titleOf: Browser -> string, rowsOf: Browser -> string -> seq<TableRow>)
    returns (r: Result<(), (Browser, Failure)>, ran: seq<Browser>)
    ensures 1 <= |ran| <= |Browsers| && ran == Browsers[..|ran|]
    ensures forall j | 0 <= j < |ran| - 1 :: TestOutcome(titleOf(ran[j]), filesList, load, rowsOf(ran[j])).Ok?
    ensures r.Ok? <==> forall b | b in Browsers :: TestOutcome(titleOf(b), filesList, load, rowsOf(b)).Ok?
    ensures r.Ok? ==> ran == Browsers
    ensures r.Err? ==> (r.error.0 == ran[|ran| - 1]
                        && TestOutcome(titleOf(r.error.0), filesList, load, rowsOf(r.error.0)) == Err(r.error.1))
  {
    ran := [];
    for b := 0 to |Browsers|
      invariant ran == Browsers[..b]
      invariant forall j | 0 <= j < b :: TestOutcome(titleOf(ran[j]), filesList, load, rowsOf(ran[j])).Ok?
    {
      var browser := Browsers[b];
      var driver := new Driver(titleOf(browser));
      var outcome := RunTest(driver, filesList, load, rowsOf(browser));
      ran := ran + [browser];
      if outcome.Err? {
        return Err((browser, outcome.error)), ran;
      }
    }
    assert Browsers[..3] == Browsers;
    r := Ok(());
  }
}
