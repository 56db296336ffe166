/** The oldest tag editor (src/components/DicomData/TagUpdater.tsx). It never
 *  moves a byte: each edit overwrites the value field of its element in the
 *  caller's own array with the new value's character codes, padded with
 *  spaces and cut to the field's width. */
module TagOverwrite {
  import opened Wrappers
  import opened JsNumber
  import opened JsBytes
  import opened JsString
  import opened DicomTypes

  /** The record built for each edit: its VR falls back to "UN" and its offset
   *  to 0; the loop that writes does not use the VR. */
  datatype OverwriteRecord = OverwriteRecord(tagId: string, value: string, vr: string, dataOffSet: nat, length: nat)

  const Space: byte := 0x20

  /** An edit's record; a tag missing from the element table is a TypeError (None). */
  function OverwriteRecordOf(elements: map<string, Element>, edit: TableUpdateData): (r: Option<OverwriteRecord>)
    ensures r.Some? <==> ToLower(edit.tagId) in elements
    ensures r.Some? ==> var el := elements[ToLower(edit.tagId)];
                        r.value.tagId == edit.tagId && r.value.value == edit.newValue &&
                        r.value.vr == (if el.vr == "" then "UN" else el.vr) &&
                        r.value.dataOffSet == el.dataOffset && r.value.length == |edit.newValue|
  {
    var key := ToLower(edit.tagId);
    if key !in elements then None
    else
      var el := elements[key];
      Some(OverwriteRecord(edit.tagId, edit.newValue, if el.vr != "" then el.vr else "UN",
                           el.dataOffset, |edit.newValue|))
  }

  /** Every record, or None when some edit names a tag missing from the table. */
  function OverwriteRecords(elements: map<string, Element>, edits: seq<TableUpdateData>): (r: Option<seq<OverwriteRecord>>)
    ensures r.Some? <==> forall i | 0 <= i < |edits| :: ToLower(edits[i].tagId) in elements
    ensures r.Some? ==> |r.value| == |edits| &&
                        forall i | 0 <= i < |edits| :: Some(r.value[i]) == OverwriteRecordOf(elements, edits[i])
  {
    if exists i | 0 <= i < |edits| :: ToLower(edits[i].tagId) !in elements then None
    else Some(seq(|edits|, i requires 0 <= i < |edits| => OverwriteRecordOf(elements, edits[i]).value))
  }

  /** The byte written at index i of a field that starts at start: the value's
   *  character code, or a space past the value's end. */
  function FieldByte(value: string, start: nat, i: nat): (b: byte)
    requires start <= i
    ensures i - start < |value| ==> b as int == value[i - start] as int % 256
    ensures i - start >= |value| ==> b == Space
  {
    if i < |value| + start then ToUint8(CharCodeAt(value, i - start)) else Space
  }

  /** One edit: indices start..start+width-1 receive the field bytes; a store
   *  past the end of the array does nothing. */
  function Overwrite(bytes: seq<byte>, start: nat, width: nat, value: string): (r: seq<byte>)
    ensures |r| == |bytes|
    ensures forall i | 0 <= i < |bytes| ::
              r[i] == if start <= i < start + width then FieldByte(value, start, i) else bytes[i]
  {
    seq(|bytes|, i requires 0 <= i < |bytes| =>
      if start <= i < start + width then FieldByte(value, start, i) else bytes[i])
  }

  /** Only the first width characters of a value reach the file. */
  lemma OverwriteTruncates(bytes: seq<byte>, start: nat, width: nat, value: string)
    requires width <= |value|
    ensures Overwrite(bytes, start, width, value) == Overwrite(bytes, start, width, value[..width])
  {
    var a, b := Overwrite(bytes, start, width, value), Overwrite(bytes, start, width, value[..width]);
    forall i | 0 <= i < |bytes| ensures a[i] == b[i] {
      if start <= i < start + width {
        assert value[..width][i - start] == value[i - start];
      }
    }
  }

  /** The width of a record's field: the element's length in the table. */
  function FieldWidth(elements: map<string, Element>, rec: OverwriteRecord): (w: nat)
  {
    var key := ToLower(rec.tagId);
    if key in elements then elements[key].length else 0
  }

  /** The records applied in list order. */
  function OverwriteAll(bytes: seq<byte>, recs: seq<OverwriteRecord>, elements: map<string, Element>): (r: seq<byte>)
    ensures |r| == |bytes|
  {
    if recs == [] then bytes
    else
      var last := recs[|recs| - 1];
      Overwrite(OverwriteAll(bytes, recs[..|recs| - 1], elements), last.dataOffSet,
                FieldWidth(elements, last), last.value)
  }

  predicate InField(elements: map<string, Element>, rec: OverwriteRecord, i: int)
  {
    rec.dataOffSet <= i < rec.dataOffSet + FieldWidth(elements, rec)
  }

  /** A byte outside every edited field keeps its value. */
  lemma {:induction false} OverwriteAllOutside(bytes: seq<byte>, recs: seq<OverwriteRecord>,
                                              elements: map<string, Element>, i: nat)
    requires i < |bytes|
    requires forall k | 0 <= k < |recs| :: !InField(elements, recs[k], i)
    ensures OverwriteAll(bytes, recs, elements)[i] == bytes[i]
  {
    if recs != [] {
      var prefix := recs[..|recs| - 1];
      assert !InField(elements, recs[|recs| - 1], i);
      forall k | 0 <= k < |prefix| ensures !InField(elements, prefix[k], i) {
        assert prefix[k] == recs[k];
      }
      OverwriteAllOutside(bytes, prefix, elements, i);
    }
  }

  /** The last edit whose field holds a byte decides it: a later edit wins
   *  over an earlier one on overlapping bytes. */
  lemma {:induction false} OverwriteAllLastWins(bytes: seq<byte>, recs: seq<OverwriteRecord>,
                                               elements: map<string, Element>, k: nat, i: nat)
    requires k < |recs| && i < |bytes| && InField(elements, recs[k], i)
    requires forall j | k < j < |recs| :: !InField(elements, recs[j], i)
    ensures OverwriteAll(bytes, recs, elements)[i] == FieldByte(recs[k].value, recs[k].dataOffSet, i)
  {
    var prefix := recs[..|recs| - 1];
    if k < |recs| - 1 {
      assert !InField(elements, recs[|recs| - 1], i);
      forall j | k < j < |prefix| ensures !InField(elements, prefix[j], i) {
        assert prefix[j] == recs[j];
      }
      OverwriteAllLastWins(bytes, prefix, elements, k, i);
    }
  }

  /** tagUpdater of this version: builds every record, then overwrites each
   *  field in the caller's array and returns that same array. */
  method TagUpdater(byteArray: array<byte>, elements: map<string, Element>, edits: seq<TableUpdateData>)
    returns (r: Option<array<byte>>)
    modifies byteArray
    ensures r.None? <==> OverwriteRecords(elements, edits).None?
    ensures r.None? ==> byteArray[..] == old(byteArray[..])
    ensures r.Some? ==> r.value == byteArray &&
                        byteArray[..] == OverwriteAll(old(byteArray[..]), OverwriteRecords(elements, edits).value, elements)
  {
    var newTags: seq<OverwriteRecord> := [];
    for i := 0 to |edits|
      invariant |newTags| == i
      invariant forall k | 0 <= k < i :: Some(newTags[k]) == OverwriteRecordOf(elements, edits[k])
    {
      var rec := OverwriteRecordOf(elements, edits[i]);
      if rec.None? {
        assert ToLower(edits[i].tagId) !in elements;
        return None;
      }
      newTags := newTags + [rec.value];
    }
    assert forall k | 0 <= k < |edits| :: ToLower(edits[k].tagId) in elements;
    assert newTags == OverwriteRecords(elements, edits).value;
    ghost var original := byteArray[..];
    for t := 0 to |newTags|
      invariant byteArray[..] == OverwriteAll(original, newTags[..t], elements)
    {
      assert newTags[..t + 1][..t] == newTags[..t];
      var tag := newTags[t];
      WriteField(byteArray, tag.dataOffSet, elements[ToLower(tag.tagId)].length, tag.value);
    }
    assert newTags[..|newTags|] == newTags;
    r := Some(byteArray);
  }

  /** The inner loop: `newDicomData[i]` for every index of the field. */
  method WriteField(a: array<byte>, start: nat, width: nat, value: string)
    modifies a
    ensures a[..] == Overwrite(old(a[..]), start, width, value)
  {
    ghost var before := a[..];
    for i := start to start + width
      invariant forall k | 0 <= k < a.Length ::
                  a[k] == if start <= k < i then FieldByte(value, start, k) else before[k]
    {
      if i < a.Length {
        if i < |value| + start {
          a[i] := ToUint8(CharCodeAt(value, i - start));
        } else {
          a[i] := Space;
        }
      }
    }
  }
}
