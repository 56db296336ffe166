/** The older splice-based tag editor (src/components/DicomData/TagUpdater.ts).
 *  It shares the splice helpers of the current editor but differs in three
 *  ways: its records carry `value` where getValueLength and createTag read
 *  `tagVR` and `tagValue`, its "uint32" writer calls setUint16, and it has no
 *  try block, no add path and no final check. After every edit it stores the
 *  new parse into the caller's object. */
module LegacyTagUpdater {
  import opened Wrappers
  import opened JsNumber
  import opened JsBytes
  import opened JsString
  import opened DicomTypes
  import opened TagUpdater

  /** What a property the record does not have reads as once it is converted
   *  to a string: `undefined in NUMBERS` looks up the key "undefined", and
   *  `parseInt(undefined, 10)` parses "undefined". */
  const MissingProperty: string := "undefined"

  /** getValueLength on a record without `tagVR`. */
  function LegacyValueLength(value: string): (n: nat)
  {
    ValueLength(MissingProperty, value)
  }

  /** Since the record has no `tagVR`, getValueLength always returns the
   *  value's length. */
  lemma LegacyValueLengthIsLength(value: string)
    ensures LegacyValueLength(value) == |value|
  {
    InEnumOfName(MissingProperty, Numbers);
    assert MissingProperty !in Numbers by {
      forall k | 0 <= k < |Numbers| ensures MissingProperty != Numbers[k] {
        assert |Numbers[k]| == 2;
      }
    }
  }

  /** The number createTag writes for a numeric VR: `parseInt(tag.tagValue, 10)`
   *  on a record without `tagValue`. */
  lemma MissingValueParsesToNaN()
    ensures ParseInt(MissingProperty, Decimal) == NaN
  {
    assert TrimStart(MissingProperty) == MissingProperty;
    assert DigitPrefix(MissingProperty, 10) == "";
  }

  /** The DataView call each writer name makes here: "uint32" calls setUint16. */
  function LegacyWriter(t: NumberType): (w: NumberType)
    ensures t == Uint32 ==> w == Uint16
    ensures t != Uint32 ==> w == t
  {
    if t == Uint32 then Uint16 else t
  }

  /** The "uint32" writer stores the number modulo 2^16 in the first two bytes
   *  and leaves the rest of the buffer zero; a buffer shorter than two bytes
   *  is a RangeError. */
  lemma LegacyUint32WritesSixteenBits(num: Num, arrayLength: nat, littleEndian: bool, floats: FloatEncoder)
    ensures var r := WriteTypedNumber(num, LegacyWriter(Uint32), arrayLength, littleEndian, floats);
            (r.Some? <==> 2 <= arrayLength) &&
            (r.Some? ==> UnsignedValue(r.value[..2], littleEndian) == IntegerOrZero(num) % 65536 &&
                         forall i | 2 <= i < arrayLength :: r.value[i] == 0)
  {
    assert Pow256(2) == 65536;
  }

  /** The writer the switch of createTag picks, after the renaming above. */
  function LegacyNumberType(vr: string): (t: Option<NumberType>)
    ensures t.Some? <==> NumberTypeOfVR(vr).Some?
    ensures t.Some? ==> t.value == LegacyWriter(NumberTypeOfVR(vr).value)
  {
    match NumberTypeOfVR(vr)
    case Some(t) => Some(LegacyWriter(t))
    case None => None
  }

  /** The length field: under a 12-byte header the "uint32" writer fills only
   *  the first two of its four bytes. */
  function LegacyLengthField(valueLength: nat, long: bool, littleEndian: bool, floats: FloatEncoder): (r: seq<byte>)
    ensures |r| == if long then LongHeaderLengthLen else LengthLen
  {
    if long then WriteTypedNumber(Int(valueLength), LegacyWriter(Uint32), LongHeaderLengthLen, littleEndian, floats).value
    else WriteTypedNumber(Int(valueLength), Uint16, LengthLen, littleEndian, floats).value
  }

  /** createTag of this version. The value length is the value's length, so a
   *  numeric VR whose value is shorter than its writer's width makes DataView
   *  throw a RangeError (None); otherwise the value written is NaN's. */
  function LegacyTagBytes(tagId: seq<byte>, vr: string, value: string, littleEndian: bool,
                          floats: FloatEncoder): (r: Option<seq<byte>>)
    requires |tagId| == GroupLen + ElementLen
    ensures r.None? <==> LegacyNumberType(vr).Some? && |value| < Width(LegacyNumberType(vr).value)
    ensures r.Some? ==> |r.value| == |value| + ValueOffset(vr) && r.value[..4] == tagId &&
                        r.value[VrOffset..VrOffset + VrLen] == VRBytes(vr)
  {
    var valueOffset := ValueOffset(vr);
    var valueLength := LegacyValueLength(value);
    LegacyValueLengthIsLength(value);
    var writer := LegacyNumberType(vr);
    if writer.Some? && valueLength < Width(writer.value) then None
    else
      var field := LegacyLengthField(valueLength, valueOffset == LongHeaderLen, littleEndian, floats);
      var header := TagHeader(tagId, vr, valueLength, valueOffset, field);
      var r := WriteValue(header, writer, ParseInt(MissingProperty, Decimal), value, valueOffset, valueLength,
                          littleEndian, floats);
      PrefixesAgree(r, header, HeaderLen, 0, 4);
      PrefixesAgree(r, header, HeaderLen, VrOffset, VrOffset + VrLen);
      Some(r)
  }

  /** When an integer VR's value is long enough, the value field encodes 0,
   *  whatever the value says. */
  lemma LegacyNumberWritesZero(tagId: seq<byte>, vr: string, value: string, littleEndian: bool,
                               floats: FloatEncoder)
    requires |tagId| == GroupLen + ElementLen
    requires NumberTypeOfVR(vr).Some? && NumberTypeOfVR(vr).value.IsInteger()
    requires Width(LegacyNumberType(vr).value) <= |value|
    ensures var w := Width(LegacyNumberType(vr).value);
            var r := LegacyTagBytes(tagId, vr, value, littleEndian, floats).value;
            UnsignedValue(r[HeaderLen..HeaderLen + w], littleEndian) == 0 &&
            forall i | HeaderLen + w <= i < |r| :: r[i] == 0
  {
    NumbersHaveShortHeader(vr);
    var header := LegacyTagBytesIsWriteValue(tagId, vr, value, littleEndian, floats);
    MissingValueParsesToNaN();
    ZeroWritten(header, LegacyNumberType(vr), ParseInt(MissingProperty, Decimal), value, littleEndian, floats);
  }

  lemma ZeroWritten(header: seq<byte>, numberType: Option<NumberType>, num: Num, value: string,
                    littleEndian: bool, floats: FloatEncoder)
    requires HeaderLen + |value| == |header| && num == NaN
    requires numberType.Some? && numberType.value.IsInteger() && Width(numberType.value) <= |value|
    ensures var w := Width(numberType.value);
            var r := WriteValue(header, numberType, num, value, HeaderLen, |value|, littleEndian, floats);
            UnsignedValue(r[HeaderLen..HeaderLen + w], littleEndian) == 0 &&
            forall i | HeaderLen + w <= i < |r| :: r[i] == 0
  {
    WriteValueNumber(header, numberType, num, value, |value|, littleEndian, floats);
    ZeroModulo(Pow256(Width(numberType.value)));
  }

  lemma ZeroModulo(p: nat)
    requires p >= 1
    ensures 0 % p == 0
  {
  }

  /** LegacyTagBytes, when it succeeds, is the value written over its header. */
  lemma LegacyTagBytesIsWriteValue(tagId: seq<byte>, vr: string, value: string, littleEndian: bool,
                                   floats: FloatEncoder) returns (header: seq<byte>)
    requires |tagId| == GroupLen + ElementLen
    requires ValueOffset(vr) == HeaderLen
    requires LegacyNumberType(vr).Some? ==> Width(LegacyNumberType(vr).value) <= |value|
    ensures |header| == HeaderLen + |value|
    ensures LegacyTagBytes(tagId, vr, value, littleEndian, floats) ==
            Some(WriteValue(header, LegacyNumberType(vr), ParseInt(MissingProperty, Decimal), value, HeaderLen,
                            |value|, littleEndian, floats))
  {
    LegacyValueLengthIsLength(value);
    var field := LegacyLengthField(|value|, false, littleEndian, floats);
    header := TagHeader(tagId, vr, |value|, HeaderLen, field);
  }

  // ---------------------------------------------------------------------
  // The edit loop

  /** The caller's parsed file, whose byteArray and elements the loop overwrites. */
  class ParsedFile {
    var byteArray: seq<byte>
    var elements: map<string, Element>

    constructor (ds: DataSet)
      ensures byteArray == ds.byteArray && elements == ds.elements
    {
      byteArray := ds.byteArray;
      elements := ds.elements;
    }

    function Snapshot(): DataSet
      reads this
    {
      DataSet(byteArray, elements)
    }
  }

  /** An edit's record; the element is read without `?.`, so a tag missing
   *  from the table is a TypeError (None). The VR falls back to "NO". The
   *  value goes in the `newValue` slot and `add` is false. */
  function LegacyRecord(ds: DataSet, edit: TableUpdateData): (r: Option<InsertRecord>)
    ensures r.Some? <==> ToLower(edit.tagId) in ds.elements
    ensures r.Some? ==> r.value.tagId == edit.tagId && r.value.newValue == edit.newValue &&
                        r.value.delete == edit.delete && !r.value.add &&
                        r.value.dataOffSet == ds.elements[ToLower(edit.tagId)].dataOffset
  {
    var key := ToLower(edit.tagId);
    if key !in ds.elements then None
    else
      var el := ds.elements[key];
      Some(InsertRecord(edit.tagId, edit.newValue, if el.vr != "" then el.vr else "NO",
                        el.dataOffset, |edit.newValue|, edit.delete, false))
  }

  /** The first loop: every record, or a TypeError for the first edit whose
   *  tag is missing. */
  function LegacyRecords(ds: DataSet, edits: seq<TableUpdateData>): (r: Option<seq<InsertRecord>>)
    ensures r.Some? <==> forall i | 0 <= i < |edits| :: ToLower(edits[i].tagId) in ds.elements
    ensures r.Some? ==> |r.value| == |edits| &&
                        forall i | 0 <= i < |edits| :: Some(r.value[i]) == LegacyRecord(ds, edits[i])
  {
    if exists i | 0 <= i < |edits| :: ToLower(edits[i].tagId) !in ds.elements then None
    else Some(seq(|edits|, i requires 0 <= i < |edits| => LegacyRecord(ds, edits[i]).value))
  }

  /** One iteration: cut out or replace the element, then parse the result.
   *  A tag missing from the current table is a TypeError, the too-short
   *  numeric value a RangeError. */
  function LegacyStep(ds: DataSet, rec: InsertRecord, parse: Parser, floats: FloatEncoder): (r: Result<DataSet, LegacyError>)
    ensures r.Err? && r.error == ParseFailed ==> ToLower(rec.tagId) in ds.elements
    ensures r.Ok? ==> parse(r.value.byteArray) == Some(r.value.elements)
  {
    var key := ToLower(rec.tagId);
    if key !in ds.elements then Err(MissingTag)
    else
      var data :=
        if rec.delete then RemoveTag(ds, rec)
        else
          var located := rec.(dataOffSet := ds.elements[key].dataOffset);
          match LegacyTagBytes(TagIdBytes(rec.tagId), rec.vr, rec.newValue, true, floats)
          case None => None
          case Some(newTag) => InsertTag(ds, located, newTag);
      match data
      case None => Err(ValueTooShort)
      case Some(d) =>
        match parse(d)
        case None => Err(ParseFailed)
        case Some(elements) => Ok(DataSet(d, elements))
  }

  /** Why this tagUpdater throws. */
  datatype LegacyError = MissingTag | ValueTooShort | ParseFailed

  /** The caller's object after the call, and what the call returns. */
  datatype Outcome = Outcome(file: DataSet, result: Result<seq<byte>, LegacyError>)

  /** The records applied in order; the object keeps the last parse that
   *  succeeded, and an error ends the loop. */
  function RunLegacy(recs: seq<InsertRecord>, ds: DataSet, parse: Parser, floats: FloatEncoder): (o: Outcome)
    ensures o.result.Ok? ==> o.result.value == o.file.byteArray
    ensures recs != [] && o.result.Ok? ==> parse(o.file.byteArray) == Some(o.file.elements)
  {
    if recs == [] then Outcome(ds, Ok(ds.byteArray))
    else
      var o := RunLegacy(recs[..|recs| - 1], ds, parse, floats);
      if o.result.Err? then o
      else
        match LegacyStep(o.file, recs[|recs| - 1], parse, floats)
        case Err(e) => Outcome(o.file, Err(e))
        case Ok(next) => Outcome(next, Ok(next.byteArray))
  }

  /** tagUpdater of this version. */
  function LegacyTagUpdaterOutcome(ds: DataSet, edits: seq<TableUpdateData>, parse: Parser,
                                   floats: FloatEncoder): (o: Outcome)
  {
    if edits == [] then Outcome(ds, Ok(ds.byteArray))
    else
      match LegacyRecords(ds, edits)
      case None => Outcome(ds, Err(MissingTag))
      case Some(recs) => RunLegacy(recs, ds, parse, floats)
  }

  /** No edits: the bytes come back and the object is untouched. */
  lemma LegacyNoEdits(ds: DataSet, parse: Parser, floats: FloatEncoder)
    ensures LegacyTagUpdaterOutcome(ds, [], parse, floats) == Outcome(ds, Ok(ds.byteArray))
  {
  }

  /** On success the object holds the returned bytes and their parse. */
  lemma LegacyFileHoldsParse(ds: DataSet, edits: seq<TableUpdateData>, parse: Parser, floats: FloatEncoder)
    requires edits != []
    ensures var o := LegacyTagUpdaterOutcome(ds, edits, parse, floats);
            o.result.Ok? ==> o.file.byteArray == o.result.value && parse(o.result.value) == Some(o.file.elements)
  {
  }

  /** An edit of a tag missing from the file throws before any byte changes. */
  lemma LegacyMissingTag(ds: DataSet, edits: seq<TableUpdateData>, k: nat, parse: Parser, floats: FloatEncoder)
    requires k < |edits| && ToLower(edits[k].tagId) !in ds.elements
    ensures LegacyTagUpdaterOutcome(ds, edits, parse, floats) == Outcome(ds, Err(MissingTag))
  {
  }

  /** A single delete cuts the element out and stores the new parse in the object. */
  lemma LegacySingleDelete(ds: DataSet, edit: TableUpdateData, parse: Parser, floats: FloatEncoder)
    requires edit.delete && ToLower(edit.tagId) in ds.elements
    ensures var o := LegacyTagUpdaterOutcome(ds, [edit], parse, floats);
            var cut := RemoveTag(ds, LegacyRecord(ds, edit).value).value;
            o == if parse(cut).Some? then Outcome(DataSet(cut, parse(cut).value), Ok(cut))
                 else Outcome(ds, Err(ParseFailed))
  {
    var recs := LegacyRecords(ds, [edit]).value;
    assert recs[..0] == [];
    assert recs[0] == LegacyRecord(ds, edit).value;
    assert RunLegacy(recs, ds, parse, floats) == 
           match LegacyStep(ds, recs[0], parse, floats)
           case Err(e) => Outcome(ds, Err(e))
           case Ok(next) => Outcome(next, Ok(next.byteArray));
  }

  /** Once an edit has thrown, the later records change nothing. */
  lemma {:induction false} RunLegacyErrorPersists(recs: seq<InsertRecord>, n: nat, ds: DataSet,
                                                  parse: Parser, floats: FloatEncoder)
    requires n <= |recs| && RunLegacy(recs[..n], ds, parse, floats).result.Err?
    ensures RunLegacy(recs, ds, parse, floats) == RunLegacy(recs[..n], ds, parse, floats)
    decreases |recs|
  {
    if n < |recs| {
      var prefix := recs[..|recs| - 1];
      assert prefix[..n] == recs[..n];
      RunLegacyErrorPersists(prefix, n, ds, parse, floats);
    } else {
      assert recs[..n] == recs;
    }
  }

  /** tagUpdater: builds the records, then applies each one and writes the new
   *  parse into the caller's object. */
  method LegacyTagUpdater(file: ParsedFile, edits: seq<TableUpdateData>, parse: Parser, floats: FloatEncoder)
    returns (r: Result<seq<byte>, LegacyError>)
    modifies file
    ensures var o := LegacyTagUpdaterOutcome(old(file.Snapshot()), edits, parse, floats);
            r == o.result && file.Snapshot() == o.file
  {
    if |edits| == 0 {
      return Ok(file.byteArray);
    }
    var recs := CollectLegacyRecords(file.Snapshot(), edits);
    if recs.None? {
      return Err(MissingTag);
    }
    ghost var ds := file.Snapshot();
    var newTags := recs.value;
    var data := file.byteArray;
    for i := 0 to |newTags|
      invariant RunLegacy(newTags[..i], ds, parse, floats) == Outcome(file.Snapshot(), Ok(data))
    {
      assert newTags[..i + 1][..i] == newTags[..i];
      var next := LegacyStep(file.Snapshot(), newTags[i], parse, floats);
      if next.Err? {
        RunLegacyErrorPersists(newTags, i + 1, ds, parse, floats);
        return Err(next.error);
      }
      data := next.value.byteArray;
      file.byteArray := next.value.byteArray;
      file.elements := next.value.elements;
    }
    assert newTags[..|newTags|] == newTags;
    r := Ok(data);
  }

  /** The first loop of tagUpdater, stopping at the first missing tag. */
  method CollectLegacyRecords(ds: DataSet, edits: seq<TableUpdateData>) returns (r: Option<seq<InsertRecord>>)
    ensures r == LegacyRecords(ds, edits)
  {
    var newTags: seq<InsertRecord> := [];
    for i := 0 to |edits|
      invariant |newTags| == i
      invariant forall k | 0 <= k < i :: Some(newTags[k]) == LegacyRecord(ds, edits[k])
    {
      var rec := LegacyRecord(ds, edits[i]);
      if rec.None? {
        assert ToLower(edits[i].tagId) !in ds.elements;
        return None;
      }
      newTags := newTags + [rec.value];
    }
    assert forall k | 0 <= k < |edits| :: ToLower(edits[k].tagId) in ds.elements;
    assert newTags == LegacyRecords(ds, edits).value;
    r := Some(newTags);
  }
}
