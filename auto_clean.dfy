/** Automatic anonymisation (src/Features/AutoAnonymize/Functions/AutoClean.ts and
 *  its two older copies src/components/Auto/AutoClean.ts and .tsx). FormatData
 *  turns the anonymisation list into edit records, keeping the entries whose
 *  tag the file holds; AutoAnon runs tagUpdater once per file and names each
 *  result with createFile. The zip and the download are left out. */
module AutoClean {
  import opened Wrappers
  import opened JsBytes
  import opened JsString
  import opened DicomTypes
  import opened TagsAnonList
  import opened DownloadFuncs
  import TU = TagUpdater
  import LTU = LegacyTagUpdater

  /** The VR a record falls back to when the element states none. */
  const NoVR: string := "NO"
  const UnknownVR: string := "UN"

  /** The record FormatData pushes for one list entry. `deleteTag` is not the
   *  `delete` key tagUpdater reads, so every record is an in-place edit. */
  datatype FormattedTag = FormattedTag(tagId: string, newValue: string, vr: string,
                                       dataOffSet: nat, length: nat, deleteTag: bool)

  /** `elements[tagId.toLowerCase()]` is defined. */
  predicate Present(elements: map<string, Element>, tagId: string)
  {
    ToLower(tagId) in elements
  }

  /** The record of an entry whose tag the file holds. */
  function FormattedRecord(elements: map<string, Element>, e: AnonEntry, defaultVR: string): (r: FormattedTag)
    requires Present(elements, e.tagId)
    ensures RecordOf(elements, r, defaultVR)
    ensures r.tagId == e.tagId && r.newValue == e.value
  {
    var el := elements[ToLower(e.tagId)];
    FormattedTag(e.tagId, e.value, if el.vr != "" then el.vr else defaultVR, el.dataOffset, |e.value|, false)
  }

  /** What a record says about the file it was formatted from. */
  predicate RecordOf(elements: map<string, Element>, rec: FormattedTag, defaultVR: string)
  {
    Present(elements, rec.tagId) && rec.length == |rec.newValue| && !rec.deleteTag &&
    rec.dataOffSet == elements[ToLower(rec.tagId)].dataOffset &&
    rec.vr == (if elements[ToLower(rec.tagId)].vr != "" then elements[ToLower(rec.tagId)].vr else defaultVR)
  }

  /** FormatData's result: one record per listed tag the file holds, in list order. */
  function FormattedData(elements: map<string, Element>, list: seq<AnonEntry>, defaultVR: string): (r: seq<FormattedTag>)
    ensures |r| <= |list|
  {
    if list == [] then []
    else
      var last := list[|list| - 1];
      FormattedData(elements, list[..|list| - 1], defaultVR) +
      (if Present(elements, last.tagId) then [FormattedRecord(elements, last, defaultVR)] else [])
  }

  /** Every record describes a listed entry, with that entry's value. */
  predicate FromList(r: seq<FormattedTag>, list: seq<AnonEntry>)
  {
    forall k | 0 <= k < |r| :: exists i | 0 <= i < |list| :: r[k].tagId == list[i].tagId && r[k].newValue == list[i].value
  }

  /** Every record describes a listed entry whose tag the file holds, and every
   *  such entry has its record. */
  lemma {:induction false} FormattedDataMembers(elements: map<string, Element>, list: seq<AnonEntry>, defaultVR: string)
    ensures forall k | 0 <= k < |FormattedData(elements, list, defaultVR)| ::
              RecordOf(elements, FormattedData(elements, list, defaultVR)[k], defaultVR)
    ensures FromList(FormattedData(elements, list, defaultVR), list)
    ensures forall i | 0 <= i < |list| && Present(elements, list[i].tagId) ::
              FormattedRecord(elements, list[i], defaultVR) in FormattedData(elements, list, defaultVR)
  {
    if list != [] {
      var prefix := list[..|list| - 1];
      FormattedDataMembers(elements, prefix, defaultVR);
      assert forall i | 0 <= i < |prefix| :: prefix[i] == list[i];
      var front := FormattedData(elements, prefix, defaultVR);
      var r := FormattedData(elements, list, defaultVR);
      var last := list[|list| - 1];
      var tail := if Present(elements, last.tagId) then [FormattedRecord(elements, last, defaultVR)] else [];
      assert r == front + tail;
      hide FormattedData;
      forall k | 0 <= k < |r|
        ensures RecordOf(elements, r[k], defaultVR)
        ensures exists i | 0 <= i < |list| :: r[k].tagId == list[i].tagId && r[k].newValue == list[i].value
      {
        if k < |front| {
          assert r[k] == front[k];
          assert RecordOf(elements, front[k], defaultVR);
          var i :| 0 <= i < |prefix| && front[k].tagId == prefix[i].tagId && front[k].newValue == prefix[i].value;
          assert list[i] == prefix[i];
        } else {
          assert r[k] == tail[0] == FormattedRecord(elements, last, defaultVR);
          assert r[k].tagId == list[|list| - 1].tagId;
        }
      }
    }
  }

  /** The records of a list are those of its parts, in order. */
  lemma {:induction false} FormattedDataAppend(elements: map<string, Element>, a: seq<AnonEntry>,
                                               b: seq<AnonEntry>, defaultVR: string)
    ensures FormattedData(elements, a + b, defaultVR) ==
            FormattedData(elements, a, defaultVR) + FormattedData(elements, b, defaultVR)
    decreases |b|
  {
    if b == [] {
      assert a + b == a;
    } else {
      var b' := b[..|b| - 1];
      assert (a + b)[..|a + b| - 1] == a + b';
      FormattedDataAppend(elements, a, b', defaultVR);
    }
  }

  /** One entry gives one record when its tag is present and none otherwise. */
  lemma FormattedDataOne(elements: map<string, Element>, e: AnonEntry, defaultVR: string)
    ensures FormattedData(elements, [e], defaultVR) ==
            if Present(elements, e.tagId) then [FormattedRecord(elements, e, defaultVR)] else []
  {
    assert [e][..0] == [];
  }

  /** A file holding none of the listed tags gets no record. */
  lemma NoneListedNoRecords(elements: map<string, Element>, list: seq<AnonEntry>, defaultVR: string)
    requires forall i | 0 <= i < |list| :: !Present(elements, list[i].tagId)
    ensures FormattedData(elements, list, defaultVR) == []
  {
    FormattedDataMembers(elements, list, defaultVR);
  }

  /** FormatData: the forEach over the list, pushing one record per present tag. */
  method FormatData(elements: map<string, Element>, list: seq<AnonEntry>, defaultVR: string)
    returns (newDicomData: seq<FormattedTag>)
    ensures newDicomData == FormattedData(elements, list, defaultVR)
  {
    newDicomData := [];
    for i := 0 to |list|
      invariant newDicomData == FormattedData(elements, list[..i], defaultVR)
    {
      assert list[..i + 1][..i] == list[..i];
      var tag := list[i];
      if Present(elements, tag.tagId) {
        newDicomData := newDicomData + [FormattedRecord(elements, tag, defaultVR)];
      }
    }
    assert list[..|list|] == list;
  }

  /** The duplicated telephone-number entry yields two records for a file that
   *  holds that tag. */
  lemma TelephoneFormattedTwice(elements: map<string, Element>)
    requires Present(elements, "X00102154")
    ensures var r := FormattedData(elements, TagsAnon, NoVR);
            exists i, j | 0 <= i < j < |r| :: r[i].tagId == "X00102154" && r[j].tagId == "X00102154"
  {
    TelephoneListedTwice();
    hide FormattedData;
    var a, x, b, y, c := TagsAnon[..16], TagsAnon[16], TagsAnon[17..22], TagsAnon[22], TagsAnon[23..];
    assert TagsAnon == a + [x] + b + [y] + c;
    var F := (l: seq<AnonEntry>) => FormattedData(elements, l, NoVR);
    FormattedDataAppend(elements, a + [x] + b + [y], c, NoVR);
    FormattedDataAppend(elements, a + [x] + b, [y], NoVR);
    FormattedDataAppend(elements, a + [x], b, NoVR);
    FormattedDataAppend(elements, a, [x], NoVR);
    FormattedDataOne(elements, x, NoVR);
    FormattedDataOne(elements, y, NoVR);
    var r := F(TagsAnon);
    assert r == F(a) + [FormattedRecord(elements, x, NoVR)] + F(b) + [FormattedRecord(elements, y, NoVR)] + F(c);
    var i, j := |F(a)|, |F(a)| + 1 + |F(b)|;
    assert r[i].tagId == "X00102154" && r[j].tagId == "X00102154";
  }

  // ---------------------------------------------------------------------
  // The newValue override of the current AutoAnon

  /** `formatedData.findIndex(tag => tag.tagId === tagId)`, or None for -1. */
  function FindRecord(formatted: seq<FormattedTag>, tagId: string): (r: Option<nat>)
    ensures r.Some? ==> FirstWithId(formatted, r.value, tagId)
    ensures r.None? ==> forall k | 0 <= k < |formatted| :: formatted[k].tagId != tagId
  {
    if formatted == [] then None
    else if formatted[0].tagId == tagId then Some(0)
    else
      match FindRecord(formatted[1..], tagId)
      case None => None
      case Some(k) => Some(k + 1)
  }

  /** Position k holds the first record with this id. */
  predicate FirstWithId(formatted: seq<FormattedTag>, k: int, tagId: string)
  {
    0 <= k < |formatted| && formatted[k].tagId == tagId &&
    forall j | 0 <= j < k :: formatted[j].tagId != tagId
  }

  /** Only a record's value may differ between the two lists. */
  predicate SameButValues(a: seq<FormattedTag>, b: seq<FormattedTag>)
  {
    |a| == |b| && forall k | 0 <= k < |a| :: b[k] == a[k].(newValue := b[k].newValue)
  }

  /** One anonTag: the first record with its id takes its value; nothing else
   *  changes, and an id without a record changes nothing. */
  function OverrideOne(formatted: seq<FormattedTag>, anonTag: AnonTag): (r: seq<FormattedTag>)
    ensures SameButValues(formatted, r)
    ensures forall k | 0 <= k < |r| ::
              r[k].newValue == if FirstWithId(formatted, k, anonTag.tagId) then anonTag.newValue
                               else formatted[k].newValue
  {
    match FindRecord(formatted, anonTag.tagId)
    case None => formatted
    case Some(k) => formatted[k := formatted[k].(newValue := anonTag.newValue)]
  }

  /** Every anonTag in turn. */
  function Overridden(formatted: seq<FormattedTag>, anonTags: seq<AnonTag>): seq<FormattedTag>
  {
    if anonTags == [] then formatted
    else OverrideOne(Overridden(formatted, anonTags[..|anonTags| - 1]), anonTags[|anonTags| - 1])
  }

  /** The value of the last anonTag with this id, if any. */
  function LastValueFor(anonTags: seq<AnonTag>, tagId: string): (v: Option<string>)
    ensures v.None? <==> forall i | 0 <= i < |anonTags| :: anonTags[i].tagId != tagId
  {
    if anonTags == [] then None
    else if anonTags[|anonTags| - 1].tagId == tagId then Some(anonTags[|anonTags| - 1].newValue)
    else LastValueFor(anonTags[..|anonTags| - 1], tagId)
  }

  /** After the override the records are the same but for their values; the
   *  first record with an id holds the value of the last anonTag with that
   *  id, and every other record keeps its value (and its stale length). */
  lemma {:induction false} OverriddenValues(formatted: seq<FormattedTag>, anonTags: seq<AnonTag>)
    ensures SameButValues(formatted, Overridden(formatted, anonTags))
    ensures var r := Overridden(formatted, anonTags);
            forall k | 0 <= k < |r| ::
              r[k].newValue == if FirstWithId(formatted, k, formatted[k].tagId) &&
                                  LastValueFor(anonTags, formatted[k].tagId).Some?
                               then LastValueFor(anonTags, formatted[k].tagId).value
                               else formatted[k].newValue
  {
    if anonTags != [] {
      var prefix := anonTags[..|anonTags| - 1];
      var last := anonTags[|anonTags| - 1];
      OverriddenValues(formatted, prefix);
      var mid := Overridden(formatted, prefix);
      var r := OverrideOne(mid, last);
      forall k | 0 <= k < |r|
        ensures r[k].newValue == if FirstWithId(formatted, k, formatted[k].tagId) &&
                                    LastValueFor(anonTags, formatted[k].tagId).Some?
                                 then LastValueFor(anonTags, formatted[k].tagId).value
                                 else formatted[k].newValue
      {
        assert FirstWithId(mid, k, last.tagId) <==> FirstWithId(formatted, k, last.tagId);
      }
    }
  }

  /** An anonTag whose id no record has changes nothing. */
  lemma UnmatchedOverrideChangesNothing(formatted: seq<FormattedTag>, anonTag: AnonTag)
    requires forall k | 0 <= k < |formatted| :: formatted[k].tagId != anonTag.tagId
    ensures OverrideOne(formatted, anonTag) == formatted
  {
  }

  /** The override loop of the current AutoAnon, writing into the records. */
  method OverrideValues(formatted: seq<FormattedTag>, anonTags: seq<AnonTag>) returns (r: seq<FormattedTag>)
    ensures r == Overridden(formatted, anonTags)
  {
    r := formatted;
    for i := 0 to |anonTags|
      invariant r == Overridden(formatted, anonTags[..i])
    {
      assert anonTags[..i + 1][..i] == anonTags[..i];
      var tagIndex := FindRecord(r, anonTags[i].tagId);
      if tagIndex.Some? {
        r := r[tagIndex.value := r[tagIndex.value].(newValue := anonTags[i].newValue)];
      }
    }
    assert anonTags[..|anonTags|] == anonTags;
  }

  // ---------------------------------------------------------------------
  // Collecting per-file results

  /** The files of a forEach whose body may throw: all of them, or the error
   *  of the first file that throws. */
  function Collected<T, E>(rs: seq<Result<T, E>>): (r: Result<seq<T>, E>)
    ensures r.Ok? ==> |r.value| == |rs|
  {
    if rs == [] then Ok([])
    else
      match Collected(rs[..|rs| - 1])
      case Err(e) => Err(e)
      case Ok(v) =>
        match rs[|rs| - 1]
        case Err(e) => Err(e)
        case Ok(x) => Ok(v + [x])
  }

  /** All files succeed exactly when every iteration does, and then the
   *  results are theirs, in order; otherwise the error is that of the first
   *  iteration that throws. */
  lemma {:induction false} CollectedFacts<T, E>(rs: seq<Result<T, E>>)
    ensures Collected(rs).Ok? <==> forall i | 0 <= i < |rs| :: rs[i].Ok?
    ensures Collected(rs).Ok? ==> forall i | 0 <= i < |rs| :: Collected(rs).value[i] == rs[i].value
    ensures Collected(rs).Err? ==>
              exists i | 0 <= i < |rs| :: rs[i] == Err(Collected(rs).error) && forall j | 0 <= j < i :: rs[j].Ok?
  {
    if rs != [] {
      var prefix := rs[..|rs| - 1];
      CollectedFacts(prefix);
      assert forall i | 0 <= i < |prefix| :: prefix[i] == rs[i];
    }
  }

  /** Once a file has thrown, the later files do not change the outcome. */
  lemma {:induction false} CollectedStopsAtError<T, E>(rs: seq<Result<T, E>>, n: nat)
    requires n <= |rs| && Collected(rs[..n]).Err?
    ensures Collected(rs) == Collected(rs[..n])
    decreases |rs|
  {
    if n < |rs| {
      var prefix := rs[..|rs| - 1];
      assert prefix[..n] == rs[..n];
      CollectedStopsAtError(prefix, n);
    } else {
      assert rs[..n] == rs;
    }
  }

  /** The edits tagUpdater receives for a list of records: each names its tag
   *  and value and carries no delete or add flag; tagUpdater looks the VR and
   *  the offset up again, and ignores the file name. */
  function AsEdits(formatted: seq<FormattedTag>): (edits: seq<TableUpdateData>)
    ensures |edits| == |formatted|
    ensures forall k | 0 <= k < |edits| ::
              edits[k].tagId == formatted[k].tagId && edits[k].newValue == formatted[k].newValue &&
              !edits[k].delete && !edits[k].add
  {
    seq(|formatted|, k requires 0 <= k < |formatted| => TableUpdateData("", formatted[k].tagId, formatted[k].newValue, false, false))
  }

  // ---------------------------------------------------------------------
  // AutoAnon of src/Features/AutoAnonymize/Functions/AutoClean.ts

  /** A tagUpdater: the bytes of a data set after a list of edits, or why it threw. */
  type Updater = (DataSet, seq<TableUpdateData>) -> Result<seq<byte>, TU.UpdateError>

  /** The tagUpdater of src/DataFunctions/DicomData/TagUpdater.ts. */
  function CurrentUpdater(parse: TU.Parser, floats: TU.FloatEncoder): Updater
  {
    (ds: DataSet, edits: seq<TableUpdateData>) => TU.TagUpdaterResult(ds, edits, parse, floats)
  }

  /** The edits of one file: its records from the list, then the caller's values. */
  function FeatureEdits(source: DataSet, list: seq<AnonEntry>, anonTags: seq<AnonTag>): seq<TableUpdateData>
  {
    AsEdits(Overridden(FormattedData(source.elements, list, NoVR), anonTags))
  }

  /** The file of one iteration: the edits of `source` applied to `target`,
   *  named after `files[index]`; an index past the file names is a TypeError. */
  function EditedFile(target: DataSet, source: DataSet, files: seq<string>, index: nat, list: seq<AnonEntry>,
                      anonTags: seq<AnonTag>, update: Updater): Result<NamedFile, TU.UpdateError>
  {
    match update(target, FeatureEdits(source, list, anonTags))
    case Err(e) => Err(e)
    case Ok(bytes) => if index < |files| then Ok(CreateFile(files[index], bytes)) else Err(TU.TypeError)
  }

  /** AutoAnon as written: every file's edits go to the first file's data set. */
  function AutoAnonFiles(dicomData: seq<DataSet>, files: seq<string>, list: seq<AnonEntry>, anonTags: seq<AnonTag>,
                         update: Updater): Result<seq<NamedFile>, TU.UpdateError>
  {
    Collected(seq(|dicomData|, i requires 0 <= i < |dicomData| =>
                    EditedFile(dicomData[0], dicomData[i], files, i, list, anonTags, update)))
  }

  /** AutoAnon with each file's edits applied to that file. */
  function AutoAnonOwnFiles(dicomData: seq<DataSet>, files: seq<string>, list: seq<AnonEntry>, anonTags: seq<AnonTag>,
                            update: Updater): Result<seq<NamedFile>, TU.UpdateError>
  {
    Collected(seq(|dicomData|, i requires 0 <= i < |dicomData| =>
                    EditedFile(dicomData[i], dicomData[i], files, i, list, anonTags, update)))
  }

  /** One file out per file in, named after the file at the same position. */
  lemma AutoAnonOneFilePerFile(dicomData: seq<DataSet>, files: seq<string>, list: seq<AnonEntry>,
                               anonTags: seq<AnonTag>, update: Updater)
    ensures var r := AutoAnonFiles(dicomData, files, list, anonTags, update);
            r.Ok? ==> |r.value| == |dicomData| <= |files| &&
                      forall i | 0 <= i < |dicomData| :: r.value[i].name == EditedName(files[i])
  {
    CollectedFacts(seq(|dicomData|, i requires 0 <= i < |dicomData| =>
                         EditedFile(dicomData[0], dicomData[i], files, i, list, anonTags, update)));
  }

  /** A file holding none of the listed tags gets no edit. */
  lemma NoneListedNoEdits(source: DataSet, list: seq<AnonEntry>, anonTags: seq<AnonTag>)
    requires forall t | 0 <= t < |list| :: !Present(source.elements, list[t].tagId)
    ensures FeatureEdits(source, list, anonTags) == []
  {
    NoneListedNoRecords(source.elements, list, NoVR);
    OverriddenValues([], anonTags);
  }

  /** As written, a file holding none of the listed tags comes out as a copy
   *  of the first file, whatever its own bytes. */
  lemma AutoAnonCopiesFirstFile(dicomData: seq<DataSet>, files: seq<string>, list: seq<AnonEntry>,
                                anonTags: seq<AnonTag>, parse: TU.Parser, floats: TU.FloatEncoder, i: nat)
    requires i < |dicomData|
    requires forall t | 0 <= t < |list| :: !Present(dicomData[i].elements, list[t].tagId)
    ensures var r := AutoAnonFiles(dicomData, files, list, anonTags, CurrentUpdater(parse, floats));
            r.Ok? ==> r.value[i].content == dicomData[0].byteArray
  {
    NoneListedNoEdits(dicomData[i], list, anonTags);
    TU.TagUpdaterNoEdits(dicomData[0], parse, floats);
    CollectedFacts(seq(|dicomData|, i requires 0 <= i < |dicomData| =>
                         EditedFile(dicomData[0], dicomData[i], files, i, list, anonTags, CurrentUpdater(parse, floats))));
  }

  /** With each file's edits applied to that file, such a file comes out
   *  unchanged. */
  lemma AutoAnonOwnFilesKeepsFile(dicomData: seq<DataSet>, files: seq<string>, list: seq<AnonEntry>,
                                  anonTags: seq<AnonTag>, parse: TU.Parser, floats: TU.FloatEncoder, i: nat)
    requires i < |dicomData|
    requires forall t | 0 <= t < |list| :: !Present(dicomData[i].elements, list[t].tagId)
    ensures var r := AutoAnonOwnFiles(dicomData, files, list, anonTags, CurrentUpdater(parse, floats));
            r.Ok? ==> r.value[i].content == dicomData[i].byteArray
  {
    NoneListedNoEdits(dicomData[i], list, anonTags);
    TU.TagUpdaterNoEdits(dicomData[i], parse, floats);
    CollectedFacts(seq(|dicomData|, i requires 0 <= i < |dicomData| =>
                         EditedFile(dicomData[i], dicomData[i], files, i, list, anonTags, CurrentUpdater(parse, floats))));
  }

  /** One iteration of AutoAnon's forEach. */
  method EditFile(target: DataSet, source: DataSet, files: seq<string>, index: nat, list: seq<AnonEntry>,
                  anonTags: seq<AnonTag>, parse: TU.Parser, floats: TU.FloatEncoder)
    returns (r: Result<NamedFile, TU.UpdateError>)
    ensures r == EditedFile(target, source, files, index, list, anonTags, CurrentUpdater(parse, floats))
  {
    var formatedData := FormatData(source.elements, list, NoVR);
    formatedData := OverrideValues(formatedData, anonTags);
    var updatedFile := TU.TagUpdaterResult(target, AsEdits(formatedData), parse, floats);
    if updatedFile.Err? {
      return Err(updatedFile.error);
    }
    if index >= |files| {
      return Err(TU.TypeError);
    }
    r := Ok(CreateFile(files[index], updatedFile.value));
  }

  /** AutoAnon: format each file from the full list, apply the caller's
   *  values, run tagUpdater on the first file's data set and name the result. */
  method AutoAnon(dicomData: seq<DataSet>, files: seq<string>, anonTags: seq<AnonTag>,
                  parse: TU.Parser, floats: TU.FloatEncoder) returns (r: Result<seq<NamedFile>, TU.UpdateError>)
    ensures r == AutoAnonFiles(dicomData, files, TagsAnon, anonTags, CurrentUpdater(parse, floats))
  {
    r := AutoAnonWith(dicomData, files, TagsAnon, anonTags, parse, floats);
  }

  /** The loop of AutoAnon, for a given list. */
  method AutoAnonWith(dicomData: seq<DataSet>, files: seq<string>, list: seq<AnonEntry>, anonTags: seq<AnonTag>,
                      parse: TU.Parser, floats: TU.FloatEncoder) returns (r: Result<seq<NamedFile>, TU.UpdateError>)
    ensures r == AutoAnonFiles(dicomData, files, list, anonTags, CurrentUpdater(parse, floats))
  {
    hide TU.TagUpdaterResult, CurrentUpdater, EditedFile, FeatureEdits, FormattedData, Overridden, AsEdits;
    ghost var rs := seq(|dicomData|, i requires 0 <= i < |dicomData| =>
                          EditedFile(dicomData[0], dicomData[i], files, i, list, anonTags, CurrentUpdater(parse, floats)));
    var newFiles: seq<NamedFile> := [];
    for index := 0 to |dicomData|
      invariant Collected(rs[..index]) == Ok(newFiles)
    {
      assert rs[..index + 1][..index] == rs[..index];
      var file := EditFile(dicomData[0], dicomData[index], files, index, list, anonTags, parse, floats);
      if file.Err? {
        CollectedStopsAtError(rs, index + 1);
        return Err(file.error);
      }
      newFiles := newFiles + [file.value];
    }
    assert rs[..|dicomData|] == rs;
    r := Ok(newFiles);
  }

  // ---------------------------------------------------------------------
  // The older copies, src/components/Auto/AutoClean.ts and AutoClean.tsx, whose
  // tagUpdater (src/components/DicomData/TagUpdater.ts) writes every new parse
  // into the caller's parsed file.

  /** That tagUpdater: the caller's data set afterwards, and the bytes or why it threw. */
  type LegacyUpdater = (DataSet, seq<TableUpdateData>) -> LTU.Outcome

  function OlderUpdater(parse: TU.Parser, floats: TU.FloatEncoder): LegacyUpdater
  {
    (ds: DataSet, edits: seq<TableUpdateData>) => LTU.LegacyTagUpdaterOutcome(ds, edits, parse, floats)
  }

  /** Why the older AutoAnon throws: no file name at an index, no first file
   *  to format from, or a throwing tagUpdater. */
  datatype AnonError = NoSuchFile | NoData | EditFailed(error: LTU.LegacyError)

  /** The parsed files, each read as a value. */
  function Snapshots(dicomData: seq<LTU.ParsedFile>): (snapshots: seq<DataSet>)
    reads dicomData
    ensures |snapshots| == |dicomData|
  {
    seq(|dicomData|, i reads dicomData requires 0 <= i < |dicomData| => dicomData[i].Snapshot())
  }

  /** Each file was parsed into an object of its own. */
  predicate Distinct(dicomData: seq<LTU.ParsedFile>)
  {
    forall i, j | 0 <= i < j < |dicomData| :: dicomData[i] != dicomData[j]
  }

  /** Parsed files whose data sets are the given ones, position by position. */
  lemma SnapshotsAre(dicomData: seq<LTU.ParsedFile>, states: seq<DataSet>)
    requires |dicomData| == |states|
    requires forall i | 0 <= i < |dicomData| :: dicomData[i].Snapshot() == states[i]
    ensures Snapshots(dicomData) == states
  {
  }

  /** The file createFile makes of tagUpdater's result, or why the iteration threw. */
  function Named(result: Result<seq<byte>, LTU.LegacyError>, files: seq<string>, index: nat): Result<NamedFile, AnonError>
  {
    match result
    case Err(e) => Err(EditFailed(e))
    case Ok(bytes) => if index < |files| then Ok(CreateFile(files[index], bytes)) else Err(NoSuchFile)
  }

  /** The edits src/components/Auto/AutoClean.ts makes for one file. */
  function ListEdits(source: DataSet, list: seq<AnonEntry>): seq<TableUpdateData>
  {
    AsEdits(FormattedData(source.elements, list, NoVR))
  }

  /** The state after some iterations: the first file's data set and the files so far. */
  datatype Run = Run(first: DataSet, result: Result<seq<NamedFile>, AnonError>)

  /** The first n iterations of src/components/Auto/AutoClean.ts: each file's
   *  edits come from its own data and are applied to the first file, which
   *  keeps every edit made so far. */
  function FirstFileRun(first: DataSet, sources: seq<DataSet>, files: seq<string>, list: seq<AnonEntry>,
                        update: LegacyUpdater, n: nat): (run: Run)
    requires n <= |sources|
    ensures run.result.Ok? ==> |run.result.value| == n
  {
    if n == 0 then Run(first, Ok([]))
    else FirstFileStep(FirstFileRun(first, sources, files, list, update, n - 1),
                       ListEdits(sources[n - 1], list), files, n - 1, update)
  }

  /** One iteration: tagUpdater on the first file, then createFile; a run
   *  that has thrown stays as it is. */
  function FirstFileStep(run: Run, edits: seq<TableUpdateData>, files: seq<string>, index: nat,
                         update: LegacyUpdater): (next: Run)
    ensures run.result.Err? ==> next == run
    ensures next.result.Ok? ==> run.result.Ok? && index < |files| &&
                                exists f: NamedFile :: f.name == EditedName(files[index]) &&
                                                       next.result.value == run.result.value + [f]
  {
    if run.result.Err? then run
    else
      var o := update(run.first, edits);
      match Named(o.result, files, index)
      case Err(e) => Run(o.file, Err(e))
      case Ok(file) => Run(o.file, Ok(run.result.value + [file]))
  }

  /** A run that has not thrown holds one file per iteration, named after
   *  the file name at the same position. */
  lemma {:induction false} FirstFileRunNames(first: DataSet, sources: seq<DataSet>, files: seq<string>,
                                             list: seq<AnonEntry>, update: LegacyUpdater, n: nat)
    requires n <= |sources|
    ensures var r := FirstFileRun(first, sources, files, list, update, n).result;
            r.Ok? ==> n <= |files| && forall i | 0 <= i < n :: r.value[i].name == EditedName(files[i])
  {
    if n > 0 {
      FirstFileRunNames(first, sources, files, list, update, n - 1);
    }
  }

  /** Once an iteration has thrown, later ones change nothing. */
  lemma {:induction false} FirstFileRunStops(first: DataSet, sources: seq<DataSet>, files: seq<string>,
                                             list: seq<AnonEntry>, update: LegacyUpdater, n: nat, m: nat)
    requires n <= m <= |sources|
    requires FirstFileRun(first, sources, files, list, update, n).result.Err?
    ensures FirstFileRun(first, sources, files, list, update, m) == FirstFileRun(first, sources, files, list, update, n)
    decreases m
  {
    if n < m {
      FirstFileRunStops(first, sources, files, list, update, n, m - 1);
    }
  }

  /** With nothing to anonymise, every file comes out as a copy of the first. */
  lemma {:induction false} FirstFileRunCopies(first: DataSet, sources: seq<DataSet>, files: seq<string>,
                                              parse: TU.Parser, floats: TU.FloatEncoder, n: nat)
    requires n <= |sources|
    ensures FirstFileRun(first, sources, files, [], OlderUpdater(parse, floats), n).first == first
    ensures var r := FirstFileRun(first, sources, files, [], OlderUpdater(parse, floats), n).result;
            r.Ok? ==> forall i | 0 <= i < n :: r.value[i].content == first.byteArray
  {
    if n > 0 {
      FirstFileRunCopies(first, sources, files, parse, floats, n - 1);
      LTU.LegacyNoEdits(first, parse, floats);
      assert ListEdits(sources[n - 1], []) == [];
    }
  }

  /** AutoAnon of src/components/Auto/AutoClean.ts: every file's edits go to
   *  the first file's object, which tagUpdater updates in place. */
  method AutoAnonFirstFile(dicomData: seq<LTU.ParsedFile>, files: seq<string>, list: seq<AnonEntry>,
                           parse: TU.Parser, floats: TU.FloatEncoder) returns (r: Result<seq<NamedFile>, AnonError>)
    requires Distinct(dicomData)
    modifies if |dicomData| == 0 then {} else {dicomData[0]}
    ensures |dicomData| == 0 ==> r == Ok([])
    ensures |dicomData| > 0 ==>
              var run := FirstFileRun(old(dicomData[0].Snapshot()), old(Snapshots(dicomData)), files, list,
                                      OlderUpdater(parse, floats), |dicomData|);
              r == run.result && dicomData[0].Snapshot() == run.first
  {
    if |dicomData| == 0 {
      return Ok([]);
    }
    ghost var sources := Snapshots(dicomData);
    ghost var first := dicomData[0].Snapshot();
    ghost var update := OlderUpdater(parse, floats);
    SnapshotAt(dicomData, 0);
    hide LTU.LegacyTagUpdaterOutcome, OlderUpdater, FirstFileStep, Snapshots;
    var newFiles: seq<NamedFile> := [];
    for index := 0 to |dicomData|
      invariant FirstFileRun(first, sources, files, list, update, index) == Run(Snapshots(dicomData)[0], Ok(newFiles))
      invariant Snapshots(dicomData)[1..] == sources[1..]
    {
      assert index > 0 ==> Snapshots(dicomData)[1..][index - 1] == sources[1..][index - 1];
      ghost var snapshots := Snapshots(dicomData);
      var file := FirstFileIteration(dicomData, index, list, files, parse, floats, newFiles);
      assert Snapshots(dicomData)[1..] == snapshots[1..];
      if file.Err? {
        FirstFileRunStops(first, sources, files, list, update, index + 1, |dicomData|);
        SnapshotAt(dicomData, 0);
        return Err(file.error);
      }
      newFiles := newFiles + [file.value];
    }
    SnapshotAt(dicomData, 0);
    r := Ok(newFiles);
  }

  /** One iteration of that loop: the file at `index` formatted, its edits
   *  applied to the first file. */
  method FirstFileIteration(dicomData: seq<LTU.ParsedFile>, index: nat, list: seq<AnonEntry>, files: seq<string>,
                            parse: TU.Parser, floats: TU.FloatEncoder, ghost done: seq<NamedFile>)
    returns (file: Result<NamedFile, AnonError>)
    requires Distinct(dicomData) && index < |dicomData|
    modifies dicomData[0]
    ensures var next := FirstFileStep(Run(old(Snapshots(dicomData))[0], Ok(done)), ListEdits(old(Snapshots(dicomData))[index], list),
                                      files, index, OlderUpdater(parse, floats));
            Snapshots(dicomData) == old(Snapshots(dicomData))[0 := next.first] &&
            next.result == (if file.Ok? then Ok(done + [file.value]) else Err(file.error))
  {
    SnapshotAt(dicomData, index);
    var formatedData := FormatData(dicomData[index].elements, list, NoVR);
    file := EditInPlace(dicomData, 0, AsEdits(formatedData), files, index, parse, floats);
  }

  /** A parsed file's data set is its snapshot. */
  lemma SnapshotAt(dicomData: seq<LTU.ParsedFile>, i: nat)
    requires i < |dicomData|
    ensures Snapshots(dicomData)[i] == dicomData[i].Snapshot()
  {
  }

  /** The single edit list of src/components/Auto/AutoClean.tsx, formatted
   *  from the first file. */
  function SharedEdits(first: DataSet, list: seq<AnonEntry>): seq<TableUpdateData>
  {
    AsEdits(FormattedData(first.elements, list, UnknownVR))
  }

  /** What tagUpdater does to each file with the shared edits, in order. */
  function Outcomes(sources: seq<DataSet>, edits: seq<TableUpdateData>, update: LegacyUpdater): (outs: seq<LTU.Outcome>)
    ensures |outs| == |sources|
  {
    if sources == [] then []
    else Outcomes(sources[..|sources| - 1], edits, update) + [update(sources[|sources| - 1], edits)]
  }

  /** The outcome at each position is that file's. */
  lemma {:induction false} OutcomesAt(sources: seq<DataSet>, edits: seq<TableUpdateData>, update: LegacyUpdater, i: nat)
    requires i < |sources|
    ensures Outcomes(sources, edits, update)[i] == update(sources[i], edits)
    decreases |sources|
  {
    if i < |sources| - 1 {
      OutcomesAt(sources[..|sources| - 1], edits, update, i);
    }
  }

  /** The results of the iterations: each file named after its file name. */
  function NamedResults(outs: seq<LTU.Outcome>, files: seq<string>): (rs: seq<Result<NamedFile, AnonError>>)
    ensures |rs| == |outs|
  {
    seq(|outs|, i requires 0 <= i < |outs| => Named(outs[i].result, files, i))
  }

  /** The result at each position is that outcome's, named. */
  lemma NamedResultsAt(outs: seq<LTU.Outcome>, files: seq<string>, i: nat)
    requires i < |outs|
    ensures NamedResults(outs, files)[i] == Named(outs[i].result, files, i)
  {
  }

  /** AutoAnon of src/components/Auto/AutoClean.tsx: a TypeError without a
   *  first file; otherwise every file, or the first error. */
  function SingleFormatResult(sources: seq<DataSet>, files: seq<string>, list: seq<AnonEntry>,
                              update: LegacyUpdater): Result<seq<NamedFile>, AnonError>
  {
    if sources == [] then Err(NoData)
    else Collected(NamedResults(Outcomes(sources, SharedEdits(sources[0], list), update), files))
  }

  /** The loop reaches the file at index i: no earlier file threw. */
  predicate Reached<T, E>(rs: seq<Result<T, E>>, i: nat)
    requires i <= |rs|
  {
    forall j | 0 <= j < i :: rs[j].Ok?
  }

  /** The files' data sets after the forEach: a file the loop reached holds
   *  what its tagUpdater left in it; the files after a throwing one are
   *  untouched. */
  function EachStates(sources: seq<DataSet>, outs: seq<LTU.Outcome>, files: seq<string>): (states: seq<DataSet>)
    requires |outs| == |sources|
    ensures |states| == |sources|
  {
    var rs := NamedResults(outs, files);
    seq(|sources|, i requires 0 <= i < |sources| => if Reached(rs, i) then outs[i].file else sources[i])
  }

  /** The files' data sets after AutoAnon. */
  function SingleFormatStates(sources: seq<DataSet>, files: seq<string>, list: seq<AnonEntry>,
                              update: LegacyUpdater): seq<DataSet>
    requires sources != []
  {
    EachStates(sources, Outcomes(sources, SharedEdits(sources[0], list), update), files)
  }

  /** The data sets once the loop has run on the first n files. */
  function UpdatedUpTo(sources: seq<DataSet>, outs: seq<LTU.Outcome>, n: nat): (states: seq<DataSet>)
    requires |outs| == |sources|
    ensures |states| == |sources|
  {
    seq(|sources|, i requires 0 <= i < |sources| => if i < n then outs[i].file else sources[i])
  }

  /** Before the loop every file is as it was. */
  lemma UpdatedUpToNone(sources: seq<DataSet>, outs: seq<LTU.Outcome>)
    requires |outs| == |sources|
    ensures UpdatedUpTo(sources, outs, 0) == sources
  {
  }

  /** Running the loop on one more file updates that file only. */
  lemma UpdatedUpToStep(sources: seq<DataSet>, outs: seq<LTU.Outcome>, n: nat)
    requires |outs| == |sources| && n < |sources|
    ensures UpdatedUpTo(sources, outs, n)[n] == sources[n]
    ensures UpdatedUpTo(sources, outs, n + 1) == UpdatedUpTo(sources, outs, n)[n := outs[n].file]
  {
  }

  /** The loop stops after file n - 1, either at the end or because that file
   *  threw: the files up to it are updated, the rest untouched. */
  lemma EachStatesStop(sources: seq<DataSet>, outs: seq<LTU.Outcome>, files: seq<string>, n: nat)
    requires |outs| == |sources| && 0 < n <= |sources|
    requires Reached(NamedResults(outs, files), n - 1)
    requires n < |sources| ==> NamedResults(outs, files)[n - 1].Err?
    ensures EachStates(sources, outs, files) == UpdatedUpTo(sources, outs, n)
  {
    var rs := NamedResults(outs, files);
    forall i | 0 <= i < |sources|
      ensures EachStates(sources, outs, files)[i] == UpdatedUpTo(sources, outs, n)[i]
    {
      assert EachStates(sources, outs, files)[i] == if Reached(rs, i) then outs[i].file else sources[i];
      if n <= i {
        assert !rs[n - 1].Ok?;
        assert !Reached(rs, i);
      }
    }
  }

  /** Every file receives the edits formatted from the first one. */
  lemma SingleFormatSharedEdits(sources: seq<DataSet>, files: seq<string>, list: seq<AnonEntry>, update: LegacyUpdater)
    ensures var r := SingleFormatResult(sources, files, list, update);
            r.Ok? ==> |r.value| == |sources| <= |files| &&
                      forall i | 0 <= i < |sources| ::
                        r.value[i].name == EditedName(files[i]) &&
                        update(sources[i], SharedEdits(sources[0], list)).result == Ok(r.value[i].content)
  {
    if sources != [] {
      var edits := SharedEdits(sources[0], list);
      var outs := Outcomes(sources, edits, update);
      var rs := NamedResults(outs, files);
      CollectedFacts(rs);
      if Collected(rs).Ok? {
        assert rs[|sources| - 1].Ok?;
        forall i | 0 <= i < |sources|
          ensures i < |files| && Collected(rs).value[i].name == EditedName(files[i])
          ensures update(sources[i], edits).result == Ok(Collected(rs).value[i].content)
        {
          OutcomesAt(sources, edits, update, i);
          assert rs[i] == Named(outs[i].result, files, i);
        }
      }
    }
  }

  /** When the first file holds none of the listed tags, no file is edited:
   *  every file comes out with its own bytes. */
  lemma SingleFormatFirstFileDecides(sources: seq<DataSet>, files: seq<string>, list: seq<AnonEntry>,
                                     parse: TU.Parser, floats: TU.FloatEncoder)
    requires sources != []
    requires forall t | 0 <= t < |list| :: !Present(sources[0].elements, list[t].tagId)
    ensures var r := SingleFormatResult(sources, files, list, OlderUpdater(parse, floats));
            (r.Ok? <==> |sources| <= |files|) &&
            (r.Ok? ==> forall i | 0 <= i < |sources| :: r.value[i].content == sources[i].byteArray) &&
            (r.Err? ==> r.error == NoSuchFile)
  {
    NoneListedNoRecords(sources[0].elements, list, UnknownVR);
    assert SharedEdits(sources[0], list) == [];
    var outs := Outcomes(sources, [], OlderUpdater(parse, floats));
    var rs := NamedResults(outs, files);
    forall i | 0 <= i < |sources|
      ensures rs[i] == if i < |files| then Ok(CreateFile(files[i], sources[i].byteArray)) else Err(NoSuchFile)
    {
      LTU.LegacyNoEdits(sources[i], parse, floats);
      OutcomesAt(sources, [], OlderUpdater(parse, floats), i);
    }
    CollectedFacts(rs);
    if |files| < |sources| {
      assert !rs[|files|].Ok?;
    }
  }

  /** One iteration of the older loops: tagUpdater on the parsed file at
   *  position `at`, then createFile with the name at `index`. That file takes
   *  what tagUpdater leaves in it; the other files keep theirs. */
  method EditInPlace(dicomData: seq<LTU.ParsedFile>, at: nat, edits: seq<TableUpdateData>, files: seq<string>,
                     index: nat, parse: TU.Parser, floats: TU.FloatEncoder) returns (r: Result<NamedFile, AnonError>)
    requires Distinct(dicomData) && at < |dicomData|
    modifies dicomData[at]
    ensures var o := OlderUpdater(parse, floats)(old(Snapshots(dicomData))[at], edits);
            r == Named(o.result, files, index) && Snapshots(dicomData) == old(Snapshots(dicomData))[at := o.file]
  {
    ghost var before := Snapshots(dicomData);
    var updatedFile := LTU.LegacyTagUpdater(dicomData[at], edits, parse, floats);
    r := Named(updatedFile, files, index);
    ghost var after := before[at := dicomData[at].Snapshot()];
    forall i | 0 <= i < |dicomData|
      ensures dicomData[i].Snapshot() == after[i]
    {
      if i != at {
        assert dicomData[i] != dicomData[at];
      }
    }
    SnapshotsAre(dicomData, after);
  }

  /** AutoAnon of src/components/Auto/AutoClean.tsx: format once from the
   *  first file, then run tagUpdater on every file's own object. */
  method AutoAnonSingleFormat(dicomData: seq<LTU.ParsedFile>, files: seq<string>, list: seq<AnonEntry>,
                              parse: TU.Parser, floats: TU.FloatEncoder) returns (r: Result<seq<NamedFile>, AnonError>)
    requires Distinct(dicomData)
    modifies dicomData
    ensures r == SingleFormatResult(old(Snapshots(dicomData)), files, list, OlderUpdater(parse, floats))
    ensures |dicomData| > 0 ==>
              Snapshots(dicomData) == SingleFormatStates(old(Snapshots(dicomData)), files, list, OlderUpdater(parse, floats))
  {
    if |dicomData| == 0 {
      return Err(NoData);
    }
    var formatedData := FormatData(dicomData[0].elements, list, UnknownVR);
    r := UpdateEach(dicomData, AsEdits(formatedData), files, parse, floats);
  }

  /** The forEach of that AutoAnon: tagUpdater with the shared edits on each
   *  file in turn, until one throws. */
  method UpdateEach(dicomData: seq<LTU.ParsedFile>, edits: seq<TableUpdateData>, files: seq<string>,
                    parse: TU.Parser, floats: TU.FloatEncoder) returns (r: Result<seq<NamedFile>, AnonError>)
    requires Distinct(dicomData)
    modifies dicomData
    ensures var outs := Outcomes(old(Snapshots(dicomData)), edits, OlderUpdater(parse, floats));
            r == Collected(NamedResults(outs, files)) && Snapshots(dicomData) == EachStates(old(Snapshots(dicomData)), outs, files)
  {
    hide LTU.LegacyTagUpdaterOutcome, OlderUpdater, Outcomes, Snapshots, UpdatedUpTo, EachStates, NamedResults, Named;
    ghost var sources := Snapshots(dicomData);
    ghost var outs := Outcomes(sources, edits, OlderUpdater(parse, floats));
    ghost var rs := NamedResults(outs, files);
    UpdatedUpToNone(sources, outs);
    var newFiles: seq<NamedFile> := [];
    for index := 0 to |dicomData|
      invariant Collected(rs[..index]) == Ok(newFiles)
      invariant Reached(rs, index)
      invariant Snapshots(dicomData) == UpdatedUpTo(sources, outs, index)
    {
      assert rs[..index + 1][..index] == rs[..index];
      UpdatedUpToStep(sources, outs, index);
      OutcomesAt(sources, edits, OlderUpdater(parse, floats), index);
      NamedResultsAt(outs, files, index);
      var file := EditInPlace(dicomData, index, edits, files, index, parse, floats);
      if file.Err? {
        CollectedStopsAtError(rs, index + 1);
        EachStatesStop(sources, outs, files, index + 1);
        return Err(file.error);
      }
      newFiles := newFiles + [file.value];
    }
    assert rs[..|dicomData|] == rs;
    if |dicomData| > 0 {
      EachStatesStop(sources, outs, files, |dicomData|);
    }
    r := Ok(newFiles);
  }
}
