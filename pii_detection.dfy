/** The scan for potential personally identifiable information: every text
 *  value of every loaded file that looks like a name (one or two words of
 *  letters, longer than three characters, not all capitals, not a known
 *  placeholder) and whose tag is not already anonymised or queued for it is
 *  reported, once per tag id, first occurrence first. The anonymisation
 *  table enters as the list of its tag ids; the loading messages and the
 *  yield to the event loop are left out. */
module PiiDetection {
  import opened Wrappers
  import opened JsString
  import opened DicomTypes

  /** Values that are known placeholders, compared in upper case. */
  const NotPii: seq<string> := ["ANONYMIZED", "ANONYMOUS", "NONE", "FREE FORM", "COMPOSITE", "VOID",
                                "VOLUME VIEWER", "MEASURED", "PREDICTED"]

  // ---------------------------------------------------------------------
  // The value test

  predicate IsLetter(c: char)
  {
    'A' <= c <= 'Z' || 'a' <= c <= 'z'
  }

  /** `[A-Za-z]+`. */
  predicate Word(w: string)
  {
    |w| > 0 && forall i | 0 <= i < |w| :: IsLetter(w[i])
  }

  /** `^[A-Za-z]+(?: [A-Za-z]+)?$`: one word, or two words around the first
   *  space. */
  predicate PiiPattern(v: string)
  {
    if ' ' in v then
      var k := IndexOf(v, ' ');
      Word(v[..k]) && Word(v[k + 1..])
    else Word(v)
  }

  /** The pattern holds exactly when splitting at spaces gives one or two
   *  parts and every part is a word. */
  lemma PiiPatternIsOneOrTwoWords(v: string)
    ensures PiiPattern(v) <==> |Split(v, ' ')| <= 2 && forall i | 0 <= i < |Split(v, ' ')| :: Word(Split(v, ' ')[i])
  {
    if ' ' !in v {
      var parts := Split(v, ' ');
      assert parts == [v];
      assert (forall i | 0 <= i < |parts| :: Word(parts[i])) == Word(parts[0]);
    } else {
      var k := IndexOf(v, ' ');
      var rest := v[k + 1..];
      assert Split(v, ' ') == [v[..k]] + Split(rest, ' ');
      if ' ' !in rest {
        assert Split(rest, ' ') == [rest];
        var parts := Split(v, ' ');
        assert parts == [v[..k], rest];
        assert PiiPattern(v) == (Word(parts[0]) && Word(parts[1]));
        assert (forall i | 0 <= i < |parts| :: Word(parts[i])) == (Word(parts[0]) && Word(parts[1]));
      } else {
        var k2 := IndexOf(rest, ' ');
        assert Split(rest, ' ') == [rest[..k2]] + Split(rest[k2 + 1..], ' ');
        assert |Split(v, ' ')| > 2;
        assert !IsLetter(rest[k2]);
        assert !Word(rest);
      }
    }
  }

  /** The test a text value passes to be reported, in the order the source
   *  writes it. */
  predicate LooksLikePii(value: string, tagId: string, tagsToAnon: seq<string>)
  {
    PiiPattern(value) && |value| > 3 && ToUpper(value) !in NotPii && tagId !in tagsToAnon &&
    |Split(value, ' ')| <= 2 && ToUpper(value) != value
  }

  /** A tag is reported when its value is text, its id is not in the
   *  anonymisation table, and the value test holds. */
  predicate Reportable(tag: DicomTag, tagsAnonIds: seq<string>, tagsToAnon: seq<string>)
  {
    tag.value.Text? && tag.tagId !in tagsAnonIds && LooksLikePii(tag.value.text, tag.tagId, tagsToAnon)
  }

  /** A reported value is made of letters and at most one space, and has at
   *  least one lower-case letter. */
  lemma ReportedValueShape(value: string, tagId: string, tagsToAnon: seq<string>)
    requires LooksLikePii(value, tagId, tagsToAnon)
    ensures forall i | 0 <= i < |value| :: IsLetter(value[i]) || value[i] == ' '
    ensures exists i | 0 <= i < |value| :: 'a' <= value[i] <= 'z'
  {
    if ' ' in value {
      var k := IndexOf(value, ' ');
      assert forall i | 0 <= i < k :: value[i] == value[..k][i];
      assert forall i | k < i < |value| :: value[i] == value[k + 1..][i - k - 1];
    }
    var upper := ToUpper(value);
    assert |upper| == |value|;
    var i :| 0 <= i < |value| && upper[i] != value[i];
    assert 'a' <= value[i] <= 'z';
  }

  /** A first and last name in mixed case is reported. */
  lemma FirstAndLastNameLooksLikePii()
    ensures LooksLikePii("John Smith", "X00100010", [])
  {
    var v := "John Smith";
    assert v[4] == ' ' && ' ' !in v[..4];
    assert IndexOf(v, ' ') == 4;
    assert Word(v[..4]) && Word(v[5..]);
    assert ' ' !in v[5..];
    assert Split(v[5..], ' ') == [v[5..]];
    assert Split(v, ' ') == [v[..4]] + Split(v[5..], ' ');
    assert ToUpper(v)[1] == 'O';
    assert ToUpper(v)[0] == 'J';
    assert forall p | p in NotPii :: p == [] || p[0] != 'J';
  }

  /** A value in capitals only is not reported. */
  lemma CapitalsNotPii(value: string, tagId: string, tagsToAnon: seq<string>)
    requires forall i | 0 <= i < |value| :: !('a' <= value[i] <= 'z')
    ensures !LooksLikePii(value, tagId, tagsToAnon)
  {
    assert ToUpper(value) == value;
  }

  /** A placeholder in any case is not reported. */
  lemma PlaceholderNotPii()
    ensures !LooksLikePii("Anonymous", "X00100010", [])
  {
    assert ToUpper("Anonymous") == NotPii[1];
  }

  // ---------------------------------------------------------------------
  // The scan

  /** `localPII.some(existing => existing.tagId === tagId)`. */
  predicate HasId(found: seq<DicomTag>, tagId: string)
  {
    exists i | 0 <= i < |found| :: found[i].tagId == tagId
  }

  /** No two reported tags share an id. */
  predicate DistinctIds(found: seq<DicomTag>)
  {
    forall i, j | 0 <= i < j < |found| :: found[i].tagId != found[j].tagId
  }

  /** One tag's turn: reported tags with a new id are appended. */
  function Noted(found: seq<DicomTag>, tag: DicomTag, tagsAnonIds: seq<string>, tagsToAnon: seq<string>): seq<DicomTag>
  {
    if Reportable(tag, tagsAnonIds, tagsToAnon) && !HasId(found, tag.tagId) then found + [tag] else found
  }

  /** A tag's turn appends it, reportable, or changes nothing. */
  lemma NotedAppendsReportable(found: seq<DicomTag>, tag: DicomTag, tagsAnonIds: seq<string>, tagsToAnon: seq<string>)
    ensures var r := Noted(found, tag, tagsAnonIds, tagsToAnon);
            r == found || (r == found + [tag] && Reportable(tag, tagsAnonIds, tagsToAnon))
  {
  }

  /** The scan of one file's tags, in order, continuing from `found`. */
  function ScanTags(found: seq<DicomTag>, tags: seq<DicomTag>, tagsAnonIds: seq<string>,
                    tagsToAnon: seq<string>): (r: seq<DicomTag>)
    ensures found <= r
    decreases |tags|
  {
    if tags == [] then found
    else Noted(ScanTags(found, tags[..|tags| - 1], tagsAnonIds, tagsToAnon), tags[|tags| - 1], tagsAnonIds, tagsToAnon)
  }

  /** The scan of every file, in order; None when a file has no tags object,
   *  which makes the scan throw. */
  function ScanFiles(dicomData: seq<Option<seq<DicomTag>>>, tagsAnonIds: seq<string>,
                     tagsToAnon: seq<string>): (r: Option<seq<DicomTag>>)
    ensures r.None? <==> exists i | 0 <= i < |dicomData| :: dicomData[i].None?
    decreases |dicomData|
  {
    if dicomData == [] then Some([])
    else
      var before := ScanFiles(dicomData[..|dicomData| - 1], tagsAnonIds, tagsToAnon);
      var last := dicomData[|dicomData| - 1];
      assert forall i | 0 <= i < |dicomData| - 1 :: dicomData[..|dicomData| - 1][i] == dicomData[i];
      if before.None? || last.None? then None
      else Some(ScanTags(before.value, last.value, tagsAnonIds, tagsToAnon))
  }

  /** The scan keeps one tag per id. */
  lemma {:induction false} ScanTagsDistinct(found: seq<DicomTag>, tags: seq<DicomTag>,
                                            tagsAnonIds: seq<string>, tagsToAnon: seq<string>)
    requires DistinctIds(found)
    ensures DistinctIds(ScanTags(found, tags, tagsAnonIds, tagsToAnon))
    decreases |tags|
  {
    if tags != [] {
      ScanTagsDistinct(found, tags[..|tags| - 1], tagsAnonIds, tagsToAnon);
    }
  }

  /** What the scan adds are reportable tags of the file. */
  lemma {:induction false} ScanTagsSound(found: seq<DicomTag>, tags: seq<DicomTag>,
                                         tagsAnonIds: seq<string>, tagsToAnon: seq<string>)
    ensures forall i | |found| <= i < |ScanTags(found, tags, tagsAnonIds, tagsToAnon)| ::
              ScanTags(found, tags, tagsAnonIds, tagsToAnon)[i] in tags &&
              Reportable(ScanTags(found, tags, tagsAnonIds, tagsToAnon)[i], tagsAnonIds, tagsToAnon)
    decreases |tags|
  {
    if tags != [] {
      var front := tags[..|tags| - 1];
      var last := tags[|tags| - 1];
      var prev := ScanTags(found, front, tagsAnonIds, tagsToAnon);
      ScanTagsSound(found, front, tagsAnonIds, tagsToAnon);
      var r := ScanTags(found, tags, tagsAnonIds, tagsToAnon);
      assert r == Noted(prev, last, tagsAnonIds, tagsToAnon);
      NotedAppendsReportable(prev, last, tagsAnonIds, tagsToAnon);
      forall i | |found| <= i < |r|
        ensures r[i] in tags && Reportable(r[i], tagsAnonIds, tagsToAnon)
      {
        if i < |prev| {
          assert r[i] == prev[i] && prev[i] in front;
          assert Reportable(prev[i], tagsAnonIds, tagsToAnon);
        } else {
          assert r[i] == last;
          assert Reportable(last, tagsAnonIds, tagsToAnon);
        }
      }
    }
  }

  /** Every reportable tag of the file has its id among the scan's result. */
  lemma {:induction false} ScanTagsComplete(found: seq<DicomTag>, tags: seq<DicomTag>,
                                            tagsAnonIds: seq<string>, tagsToAnon: seq<string>)
    ensures var r := ScanTags(found, tags, tagsAnonIds, tagsToAnon);
            forall t | t in tags && Reportable(t, tagsAnonIds, tagsToAnon) :: HasId(r, t.tagId)
    decreases |tags|
  {
    if tags != [] {
      var front := tags[..|tags| - 1];
      var prev := ScanTags(found, front, tagsAnonIds, tagsToAnon);
      ScanTagsComplete(found, front, tagsAnonIds, tagsToAnon);
      var r := ScanTags(found, tags, tagsAnonIds, tagsToAnon);
      forall t | t in tags && Reportable(t, tagsAnonIds, tagsToAnon)
        ensures HasId(r, t.tagId)
      {
        if t in front {
          var i :| 0 <= i < |prev| && prev[i].tagId == t.tagId;
          assert r[i] == prev[i];
        } else if !HasId(prev, t.tagId) {
          assert r[|prev|] == t;
        } else {
          var i :| 0 <= i < |prev| && prev[i].tagId == t.tagId;
          assert r[i] == prev[i];
        }
      }
    }
  }

  /** Over all files, the scan keeps one tag per id. */
  lemma {:induction false} ScanFilesDistinct(dicomData: seq<Option<seq<DicomTag>>>, tagsAnonIds: seq<string>,
                                             tagsToAnon: seq<string>)
    requires ScanFiles(dicomData, tagsAnonIds, tagsToAnon).Some?
    ensures DistinctIds(ScanFiles(dicomData, tagsAnonIds, tagsToAnon).value)
    decreases |dicomData|
  {
    if dicomData != [] {
      var front := dicomData[..|dicomData| - 1];
      ScanFilesDistinct(front, tagsAnonIds, tagsToAnon);
      ScanTagsDistinct(ScanFiles(front, tagsAnonIds, tagsToAnon).value, dicomData[|dicomData| - 1].value,
                       tagsAnonIds, tagsToAnon);
    }
  }

  /** Over all files, every reported tag is a reportable tag of some file. */
  lemma {:induction false} ScanFilesSound(dicomData: seq<Option<seq<DicomTag>>>, tagsAnonIds: seq<string>,
                                          tagsToAnon: seq<string>)
    requires ScanFiles(dicomData, tagsAnonIds, tagsToAnon).Some?
    ensures var r := ScanFiles(dicomData, tagsAnonIds, tagsToAnon).value;
            forall i | 0 <= i < |r| :: Reportable(r[i], tagsAnonIds, tagsToAnon) &&
              exists f | 0 <= f < |dicomData| :: r[i] in dicomData[f].value
    decreases |dicomData|
  {
    if dicomData != [] {
      var n := |dicomData| - 1;
      var front := dicomData[..n];
      var prev := ScanFiles(front, tagsAnonIds, tagsToAnon).value;
      var tags := dicomData[n].value;
      var r := ScanTags(prev, tags, tagsAnonIds, tagsToAnon);
      ScanFilesSound(front, tagsAnonIds, tagsToAnon);
      ScanTagsSound(prev, tags, tagsAnonIds, tagsToAnon);
      forall i | 0 <= i < |r|
        ensures Reportable(r[i], tagsAnonIds, tagsToAnon) && exists f | 0 <= f < |dicomData| :: r[i] in dicomData[f].value
      {
        if i < |prev| {
          assert r[i] == prev[i];
          var f :| 0 <= f < n && prev[i] in front[f].value;
          assert front[f] == dicomData[f];
        } else {
          assert r[i] in tags && tags == dicomData[n].value;
        }
      }
    }
  }

  /** Over all files, every reportable tag of every file has its id
   *  reported. */
  lemma {:induction false} ScanFilesComplete(dicomData: seq<Option<seq<DicomTag>>>, tagsAnonIds: seq<string>,
                                             tagsToAnon: seq<string>)
    requires ScanFiles(dicomData, tagsAnonIds, tagsToAnon).Some?
    ensures var r := ScanFiles(dicomData, tagsAnonIds, tagsToAnon).value;
            forall f, t | 0 <= f < |dicomData| && t in dicomData[f].value && Reportable(t, tagsAnonIds, tagsToAnon) ::
              HasId(r, t.tagId)
    decreases |dicomData|
  {
    if dicomData != [] {
      var n := |dicomData| - 1;
      var front := dicomData[..n];
      var prev := ScanFiles(front, tagsAnonIds, tagsToAnon).value;
      var tags := dicomData[n].value;
      var r := ScanTags(prev, tags, tagsAnonIds, tagsToAnon);
      ScanFilesComplete(front, tagsAnonIds, tagsToAnon);
      ScanTagsComplete(prev, tags, tagsAnonIds, tagsToAnon);
      forall f, t | 0 <= f < |dicomData| && t in dicomData[f].value && Reportable(t, tagsAnonIds, tagsToAnon)
        ensures HasId(r, t.tagId)
      {
        if f < n {
          assert front[f] == dicomData[f];
          var i :| 0 <= i < |prev| && prev[i].tagId == t.tagId;
          assert r[i] == prev[i];
        }
      }
    }
  }

  // ---------------------------------------------------------------------
  // Which occurrence is reported

  /** Every file's tags, the files in order; a file without a tags object
   *  adds none. */
  function AllTags(dicomData: seq<Option<seq<DicomTag>>>): seq<DicomTag>
  {
    if dicomData == [] then []
    else
      var last := dicomData[|dicomData| - 1];
      AllTags(dicomData[..|dicomData| - 1]) + (if last.Some? then last.value else [])
  }

  /** all[k] is reportable and no reportable tag before it has its id. */
  predicate FirstOccurrence(all: seq<DicomTag>, k: nat, tagsAnonIds: seq<string>, tagsToAnon: seq<string>)
    requires k < |all|
  {
    Reportable(all[k], tagsAnonIds, tagsToAnon) &&
    forall j | 0 <= j < k :: Reportable(all[j], tagsAnonIds, tagsToAnon) ==> all[j].tagId != all[k].tagId
  }

  /** The first occurrences among all[..n], in the order of all. */
  function FirstOccurrences(all: seq<DicomTag>, n: nat, tagsAnonIds: seq<string>, tagsToAnon: seq<string>): seq<DicomTag>
    requires n <= |all|
  {
    if n == 0 then []
    else FirstOccurrences(all, n - 1, tagsAnonIds, tagsToAnon) +
         (if FirstOccurrence(all, n - 1, tagsAnonIds, tagsToAnon) then [all[n - 1]] else [])
  }

  /** An id is among the first occurrences exactly when a reportable tag
   *  carries it. */
  lemma {:induction false} FirstOccurrencesHasId(all: seq<DicomTag>, n: nat, tagsAnonIds: seq<string>,
                                                 tagsToAnon: seq<string>, tagId: string)
    requires n <= |all|
    ensures HasId(FirstOccurrences(all, n, tagsAnonIds, tagsToAnon), tagId) <==>
            exists j | 0 <= j < n :: Reportable(all[j], tagsAnonIds, tagsToAnon) && all[j].tagId == tagId
  {
    if n > 0 {
      var prev := FirstOccurrences(all, n - 1, tagsAnonIds, tagsToAnon);
      var r := FirstOccurrences(all, n, tagsAnonIds, tagsToAnon);
      FirstOccurrencesHasId(all, n - 1, tagsAnonIds, tagsToAnon, tagId);
      var x := all[n - 1];
      if HasId(r, tagId) {
        var i :| 0 <= i < |r| && r[i].tagId == tagId;
        if i < |prev| {
          assert prev[i].tagId == tagId;
        }
      }
      if HasId(prev, tagId) {
        var i :| 0 <= i < |prev| && prev[i].tagId == tagId;
        assert r[i] == prev[i];
      }
      if Reportable(x, tagsAnonIds, tagsToAnon) && x.tagId == tagId && !HasId(prev, tagId) {
        assert FirstOccurrence(all, n - 1, tagsAnonIds, tagsToAnon);
        assert r[|prev|] == x;
      }
      if exists j | 0 <= j < n :: Reportable(all[j], tagsAnonIds, tagsToAnon) && all[j].tagId == tagId {
        var j :| 0 <= j < n && Reportable(all[j], tagsAnonIds, tagsToAnon) && all[j].tagId == tagId;
        if j < n - 1 {
          assert HasId(prev, tagId);
        }
      }
    }
  }

  /** Scanning all[..n] from nothing keeps exactly the first occurrences. */
  lemma {:induction false} ScanPrefixIsFirstOccurrences(all: seq<DicomTag>, n: nat, tagsAnonIds: seq<string>,
                                                        tagsToAnon: seq<string>)
    requires n <= |all|
    ensures ScanTags([], all[..n], tagsAnonIds, tagsToAnon) == FirstOccurrences(all, n, tagsAnonIds, tagsToAnon)
  {
    if n > 0 {
      assert all[..n][..n - 1] == all[..n - 1];
      ScanPrefixIsFirstOccurrences(all, n - 1, tagsAnonIds, tagsToAnon);
      var x := all[n - 1];
      FirstOccurrencesHasId(all, n - 1, tagsAnonIds, tagsToAnon, x.tagId);
    }
  }

  /** Scanning two lists one after the other is scanning them joined. */
  lemma {:induction false} ScanTagsAppend(found: seq<DicomTag>, a: seq<DicomTag>, b: seq<DicomTag>,
                                          tagsAnonIds: seq<string>, tagsToAnon: seq<string>)
    ensures ScanTags(found, a + b, tagsAnonIds, tagsToAnon) ==
            ScanTags(ScanTags(found, a, tagsAnonIds, tagsToAnon), b, tagsAnonIds, tagsToAnon)
    decreases |b|
  {
    if b == [] {
      assert a + b == a;
    } else {
      var ab := a + b;
      assert ab[..|ab| - 1] == a + b[..|b| - 1];
      assert ab[|ab| - 1] == b[|b| - 1];
      ScanTagsAppend(found, a, b[..|b| - 1], tagsAnonIds, tagsToAnon);
    }
  }

  /** The scan over the files is one scan over their tags in file order. */
  lemma {:induction false} ScanFilesIsOneScan(dicomData: seq<Option<seq<DicomTag>>>, tagsAnonIds: seq<string>,
                                              tagsToAnon: seq<string>)
    requires ScanFiles(dicomData, tagsAnonIds, tagsToAnon).Some?
    ensures ScanFiles(dicomData, tagsAnonIds, tagsToAnon).value == ScanTags([], AllTags(dicomData), tagsAnonIds, tagsToAnon)
  {
    if dicomData != [] {
      var front := dicomData[..|dicomData| - 1];
      var last := dicomData[|dicomData| - 1];
      ScanFilesIsOneScan(front, tagsAnonIds, tagsToAnon);
      ScanTagsAppend([], AllTags(front), last.value, tagsAnonIds, tagsToAnon);
    }
  }

  /** The scan reports, in file order and then tag order, the first
   *  reportable tag of each id: a later tag with an id already reported is
   *  dropped, whatever its value. */
  lemma ScanFilesFirstOccurrences(dicomData: seq<Option<seq<DicomTag>>>, tagsAnonIds: seq<string>,
                                  tagsToAnon: seq<string>)
    requires ScanFiles(dicomData, tagsAnonIds, tagsToAnon).Some?
    ensures var all := AllTags(dicomData);
            ScanFiles(dicomData, tagsAnonIds, tagsToAnon).value == FirstOccurrences(all, |all|, tagsAnonIds, tagsToAnon)
  {
    var all := AllTags(dicomData);
    ScanFilesIsOneScan(dicomData, tagsAnonIds, tagsToAnon);
    ScanPrefixIsFirstOccurrences(all, |all|, tagsAnonIds, tagsToAnon);
    assert all[..|all|] == all;
  }

  /** t is a first occurrence among all[..n]. */
  predicate IsFirstOccurrenceIn(all: seq<DicomTag>, n: nat, t: DicomTag, tagsAnonIds: seq<string>, tagsToAnon: seq<string>)
    requires n <= |all|
  {
    exists k | 0 <= k < n :: all[k] == t && FirstOccurrence(all, k, tagsAnonIds, tagsToAnon)
  }

  /** The first occurrences are exactly the reportable tags with no
   *  reportable tag of their id before them. */
  lemma {:induction false} FirstOccurrencesExactly(all: seq<DicomTag>, n: nat, tagsAnonIds: seq<string>,
                                                   tagsToAnon: seq<string>)
    requires n <= |all|
    ensures forall t | t in FirstOccurrences(all, n, tagsAnonIds, tagsToAnon) ::
              IsFirstOccurrenceIn(all, n, t, tagsAnonIds, tagsToAnon)
    ensures forall k | 0 <= k < n && FirstOccurrence(all, k, tagsAnonIds, tagsToAnon) ::
              all[k] in FirstOccurrences(all, n, tagsAnonIds, tagsToAnon)
  {
    if n > 0 {
      FirstOccurrencesExactly(all, n - 1, tagsAnonIds, tagsToAnon);
      var prev := FirstOccurrences(all, n - 1, tagsAnonIds, tagsToAnon);
      var r := FirstOccurrences(all, n, tagsAnonIds, tagsToAnon);
      forall t | t in r ensures IsFirstOccurrenceIn(all, n, t, tagsAnonIds, tagsToAnon) {
        if t in prev {
          var k :| 0 <= k < n - 1 && all[k] == t && FirstOccurrence(all, k, tagsAnonIds, tagsToAnon);
        } else {
          assert t == all[n - 1];
        }
      }
      forall k | 0 <= k < n && FirstOccurrence(all, k, tagsAnonIds, tagsToAnon) ensures all[k] in r {
        if k < n - 1 {
          assert all[k] in prev;
        } else {
          assert r[|prev|] == all[k];
        }
      }
    }
  }

  // ---------------------------------------------------------------------
  // findPII

  datatype Alert = Alert(message: string, alertType: string)

  const NoPiiAlert: Alert := Alert("No potential PII found in file", "alert-success")
  const ErrorAlert: Alert := Alert("Error searching for PII", "alert-error")

  /** findPII: the reported tags, the found flag, and the alert shown. A
   *  file without a tags object ends the scan with the error alert and no
   *  result. */
  method FindPii(dicomData: seq<Option<seq<DicomTag>>>, tagsAnonIds: seq<string>, tagsToAnon: seq<string>)
    returns (pii: seq<DicomTag>, foundPii: bool, alert: Option<Alert>)
    ensures foundPii <==> |pii| > 0
    ensures ScanFiles(dicomData, tagsAnonIds, tagsToAnon).Some? ==>
              pii == ScanFiles(dicomData, tagsAnonIds, tagsToAnon).value &&
              alert == if |pii| == 0 then Some(NoPiiAlert) else None
    ensures ScanFiles(dicomData, tagsAnonIds, tagsToAnon).None? ==> pii == [] && alert == Some(ErrorAlert)
    ensures (forall i | 0 <= i < |dicomData| :: dicomData[i].Some?) ==>
              pii == FirstOccurrences(AllTags(dicomData), |AllTags(dicomData)|, tagsAnonIds, tagsToAnon)
  {
    var localPii: seq<DicomTag> := [];
    for i := 0 to |dicomData|
      invariant ScanFiles(dicomData[..i], tagsAnonIds, tagsToAnon) == Some(localPii)
    {
      if dicomData[i].None? {
        assert dicomData[i].None?;
        return [], false, Some(ErrorAlert);
      }
      var tags := dicomData[i].value;
      ghost var start := localPii;
      for j := 0 to |tags|
        invariant localPii == ScanTags(start, tags[..j], tagsAnonIds, tagsToAnon)
      {
        var tag := tags[j];
        assert tags[..j + 1][..j] == tags[..j];
        if !tag.value.Text? {
          continue;
        }
        if tag.tagId in tagsAnonIds {
          continue;
        }
        var value := tag.value.text;
        if PiiPattern(value) && |value| > 3 && ToUpper(value) !in NotPii && tag.tagId !in tagsToAnon &&
           |Split(value, ' ')| <= 2 && ToUpper(value) != value {
          if !HasId(localPii, tag.tagId) {
            localPii := localPii + [tag];
          }
        }
      }
      assert tags[..|tags|] == tags;
      assert dicomData[..i + 1][..i] == dicomData[..i];
    }
    assert dicomData[..|dicomData|] == dicomData;
    ScanFilesFirstOccurrences(dicomData, tagsAnonIds, tagsToAnon);
    pii, foundPii := localPii, |localPii| > 0;
    alert := if |localPii| == 0 then Some(NoPiiAlert) else None;
  }
}
