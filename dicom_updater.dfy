/** The sequence-aware editor class DicomUpdater
 *  (src/components/DicomData/DicomUpdater.tsx). Its pending changes name
 *  whole parsed entries; it keeps a list of the file's sequences and their
 *  items with their lengths, cuts, inserts and replaces elements, and after
 *  each change adds the change in length to every sequence that ends past
 *  the changed entry's offset and rewrites the length field of the sequences whose length moved. */
module DicomUpdater {
  import opened Wrappers
  import opened JsNumber
  import opened JsBytes
  import opened JsString
  import opened StableSort
  import TU = TagUpdater
  import Legacy = LegacyTagUpdater

  const LongHeaderLengthOffset: nat := 8
  const ItemLengthOffset: nat := 4

  /** The transfer syntax UID of Explicit VR Big Endian. */
  const BigEndianTransferSyntax: string := "1.2.840.10008.1.2.2"

  /** A parsed entry: its id, the offset of its first header byte, its length
   *  in bytes (header included; NaN for an item whose length could not be
   *  read), group and element as hexadecimal strings, its value as a string,
   *  its VR ("item" for a sequence item) and the entries nested in it. */
  datatype Entry = Entry(id: int, offset: int, byteLength: Num, tagGroup: string, tagElement: string,
                         tagValue: string, tagVR: string, sequence: seq<Entry>)

  /** A sequence or item being tracked, with its length as it changes. */
  datatype Sequence = Sequence(entry: Entry, length: Num)

  /** The change kinds ADD, EDIT and REMOVE; `Other` is any other value of
   *  the `type` field, which applyAllChanges ignores. */
  datatype ChangeType = Added | Edited | Removed | Other

  datatype Change = Change(entry: Entry, changeType: ChangeType)

  // ---------------------------------------------------------------------
  // Splicing

  /** `tag.offset + tag.byteLength` used as a slice bound: NaN reads as 0. */
  function EndOffset(e: Entry): (r: int)
    ensures e.byteLength.Int? ==> r == e.offset + e.byteLength.i
    ensures e.byteLength.NaN? ==> r == 0
  {
    IntegerOrZero(Add(Int(e.offset), e.byteLength))
  }

  /** insertTag: the bytes before offset, the tag, then the rest. */
  function InsertTag(buffer: seq<byte>, tag: seq<byte>, offset: int): (r: seq<byte>)
    ensures |r| == |buffer| + |tag|
    ensures 0 <= offset <= |buffer| ==> r == buffer[..offset] + tag + buffer[offset..]
  {
    SliceSplit(buffer, offset);
    TU.ConcatBuffers(TU.ConcatBuffers(Slice(buffer, 0, offset), tag), SliceFrom(buffer, offset))
  }

  /** removeTag: the bytes before the entry and the bytes after its end. */
  function RemoveTag(buffer: seq<byte>, tag: Entry): (r: seq<byte>)
    ensures 0 <= tag.offset <= EndOffset(tag) <= |buffer| ==>
              r == buffer[..tag.offset] + buffer[EndOffset(tag)..] &&
              |r| == |buffer| - (EndOffset(tag) - tag.offset)
  {
    TU.ConcatBuffers(Slice(buffer, 0, tag.offset), SliceFrom(buffer, EndOffset(tag)))
  }

  /** replaceTag: a fresh array holding the bytes before the entry, the new
   *  tag and the bytes after the entry's end. */
  function ReplaceTag(buffer: seq<byte>, tag: Entry, newTag: seq<byte>): (r: seq<byte>)
    ensures 0 <= tag.offset <= EndOffset(tag) <= |buffer| ==>
              r == buffer[..tag.offset] + newTag + buffer[EndOffset(tag)..] &&
              |r| == |buffer| - (EndOffset(tag) - tag.offset) + |newTag|
  {
    var beginning := Slice(buffer, 0, tag.offset);
    var end := SliceFrom(buffer, EndOffset(tag));
    var updated := Zeros(|beginning| + |newTag| + |end|);
    var r := Overlay(Overlay(Overlay(updated, 0, beginning), |beginning|, newTag), |beginning| + |newTag|, end);
    assert r == beginning + newTag + end;
    r
  }

  /** Replacing is removing and then inserting at the same offset. */
  lemma ReplaceIsRemoveThenInsert(buffer: seq<byte>, tag: Entry, newTag: seq<byte>)
    requires 0 <= tag.offset <= EndOffset(tag) <= |buffer|
    ensures ReplaceTag(buffer, tag, newTag) == InsertTag(RemoveTag(buffer, tag), newTag, tag.offset)
  {
    var cut := RemoveTag(buffer, tag);
    assert cut[..tag.offset] == buffer[..tag.offset];
    assert cut[tag.offset..] == buffer[EndOffset(tag)..];
  }

  /** Removing the bytes just inserted gives the buffer back. */
  lemma RemoveUndoesInsert(buffer: seq<byte>, tag: seq<byte>, e: Entry)
    requires 0 <= e.offset <= |buffer| && e.byteLength == Int(|tag|)
    ensures RemoveTag(InsertTag(buffer, tag, e.offset), e) == buffer
  {
    var grown := InsertTag(buffer, tag, e.offset);
    assert grown[..e.offset] == buffer[..e.offset];
    assert grown[e.offset + |tag|..] == buffer[e.offset..];
  }

  // ---------------------------------------------------------------------
  // Byte order

  /** An entry that declares the Explicit VR Big Endian transfer syntax. */
  predicate DeclaresBigEndian(e: Entry)
  {
    e.tagGroup == "0002" && e.tagElement == "0010" && e.tagValue == BigEndianTransferSyntax
  }

  /** getEndian: little-endian unless some entry declares big endian. */
  method GetEndian(entries: seq<Entry>) returns (littleEndian: bool)
    ensures !littleEndian <==> exists i | 0 <= i < |entries| :: DeclaresBigEndian(entries[i])
  {
    littleEndian := true;
    for i := 0 to |entries|
      invariant !littleEndian <==> exists k | 0 <= k < i :: DeclaresBigEndian(entries[k])
    {
      if DeclaresBigEndian(entries[i]) {
        littleEndian := false;
      }
    }
  }

  /** The byte order getEndian settles on. */
  function Endian(entries: seq<Entry>): (littleEndian: bool)
  {
    !exists i | 0 <= i < |entries| :: DeclaresBigEndian(entries[i])
  }

  // ---------------------------------------------------------------------
  // Sequence lengths

  /** A tracked sequence a change affects: it ends past the change's offset
   *  (false when its length is NaN) and is not the changed entry itself. */
  predicate Encloses(s: Sequence, change: Change)
  {
    Less(Int(change.entry.offset), Add(Int(s.entry.offset), s.length)) && s.entry != change.entry
  }

  /** One sequence after checkSequences. */
  function Adjusted(s: Sequence, change: Change, newLength: int): (r: Sequence)
  {
    if Encloses(s, change) then s.(length := Add(s.length, Sub(Int(newLength), change.entry.byteLength)))
    else s
  }

  /** checkSequences as a function of the list's contents. */
  function CheckedSequences(sequences: seq<Sequence>, change: Change, newLength: int): (r: seq<Sequence>)
    ensures |r| == |sequences|
    ensures forall i | 0 <= i < |r| :: r[i].entry == sequences[i].entry
    ensures forall i | 0 <= i < |r| && sequences[i].length.Int? && change.entry.byteLength.Int? ::
              var s := sequences[i];
              r[i].length == Int(if s.entry.offset + s.length.i > change.entry.offset && s.entry != change.entry
                                 then s.length.i + newLength - change.entry.byteLength.i
                                 else s.length.i)
  {
    seq(|sequences|, i requires 0 <= i < |sequences| => Adjusted(sequences[i], change, newLength))
  }

  /** checkSequences: each tracked sequence that ends past the changed
   *  entry's offset, other than the entry itself, grows by the difference
   *  between the new and the old length of the changed entry; the sequences
   *  are updated in place. */
  method CheckSequences(sequences: array<Sequence>, change: Change, newLength: int)
    modifies sequences
    ensures sequences[..] == CheckedSequences(old(sequences[..]), change, newLength)
  {
    for i := 0 to sequences.Length
      invariant forall k | 0 <= k < sequences.Length ::
                  sequences[k] == if k < i then Adjusted(old(sequences[k]), change, newLength) else old(sequences[k])
    {
      var s := sequences[i];
      if Less(Int(change.entry.offset), Add(Int(s.entry.offset), s.length)) && s.entry != change.entry {
        var difference := Sub(Int(newLength), change.entry.byteLength);
        sequences[i] := s.(length := Add(s.length, difference));
      }
    }
  }

  /** The header length of a sequence (12) or item (8), and where its length
   *  field starts. */
  function SequenceHeaderLength(e: Entry): (n: nat)
  {
    if e.tagVR == "SQ" then TU.LongHeaderLen else TU.HeaderLen
  }

  function SequenceLengthOffset(e: Entry): (n: nat)
  {
    if e.tagVR == "SQ" then LongHeaderLengthOffset else ItemLengthOffset
  }

  /** The four bytes the "uint32" writer produces: setUint16 fills the first
   *  two with the number modulo 2^16 and the other two stay zero. */
  function SQLengthField(length: Num, littleEndian: bool, floats: TU.FloatEncoder): (f: seq<byte>)
    ensures |f| == 4
    ensures UnsignedValue(f[..2], littleEndian) == IntegerOrZero(length) % 65536
    ensures f[2] == 0 && f[3] == 0
  {
    assert Pow256(2) == 65536;
    TU.WriteTypedNumber(length, Legacy.LegacyWriter(TU.Uint32), 4, littleEndian, floats).value
  }

  /** rewriteSQlength: a fresh array of the buffer's length holding the bytes
   *  before the length field, the new length (tracked length less the header)
   *  as the "uint32" writer writes it, and the bytes after the header. Typed
   *  array `set` throws a RangeError (None) when the pieces do not fit. */
  function RewriteSQLength(buffer: seq<byte>, sequence: Sequence, littleEndian: bool,
                           floats: TU.FloatEncoder): (r: Option<seq<byte>>)
    ensures var e := sequence.entry;
            0 <= e.offset && e.offset + SequenceHeaderLength(e) <= |buffer| ==>
              r.Some? &&
              FieldRewritten(buffer, e.offset + SequenceLengthOffset(e), r.value, NewLengthField(sequence, littleEndian, floats))
  {
    RewriteInBounds(buffer, sequence.entry, NewLengthField(sequence, littleEndian, floats));
    Respliced(buffer, sequence.entry, NewLengthField(sequence, littleEndian, floats))
  }

  /** The length field rewriteSQlength writes: the tracked length less the
   *  header length. */
  function NewLengthField(sequence: Sequence, littleEndian: bool, floats: TU.FloatEncoder): (f: seq<byte>)
    ensures |f| == 4
    ensures UnsignedValue(f[..2], littleEndian) == IntegerOrZero(Sub(sequence.length, Int(SequenceHeaderLength(sequence.entry)))) % 65536
  {
    SQLengthField(Sub(sequence.length, Int(SequenceHeaderLength(sequence.entry))), littleEndian, floats)
  }

  /** updated is buffer with the four bytes at pos replaced by field. */
  predicate FieldRewritten(buffer: seq<byte>, pos: int, updated: seq<byte>, field: seq<byte>)
  {
    |updated| == |buffer| && 0 <= pos && pos + 4 <= |buffer| &&
    (forall i | 0 <= i < |buffer| && !(pos <= i < pos + 4) :: updated[i] == buffer[i]) &&
    updated[pos..pos + 4] == field
  }

  /** The three pieces of rewriteSQlength around a new length field, or None
   *  when they do not fit in an array of the buffer's length. */
  function Respliced(buffer: seq<byte>, e: Entry, field: seq<byte>): (r: Option<seq<byte>>)
  {
    var beginning := Slice(buffer, 0, e.offset + SequenceLengthOffset(e));
    var end := SliceFrom(buffer, e.offset + SequenceHeaderLength(e));
    if |beginning| + |field| + |end| > |buffer| then None
    else Some(Spliced(buffer, beginning, field, end))
  }

  /** Within the buffer, the pieces fit and only the field's four bytes change. */
  lemma RewriteInBounds(buffer: seq<byte>, e: Entry, field: seq<byte>)
    requires |field| == 4
    ensures var r := Respliced(buffer, e, field);
            0 <= e.offset && e.offset + SequenceHeaderLength(e) <= |buffer| ==>
              r.Some? && FieldRewritten(buffer, e.offset + SequenceLengthOffset(e), r.value, field)
  {
    if 0 <= e.offset && e.offset + SequenceHeaderLength(e) <= |buffer| {
      var pos := e.offset + SequenceLengthOffset(e);
      assert pos + 4 == e.offset + SequenceHeaderLength(e);
      var beginning := Slice(buffer, 0, pos);
      var end := SliceFrom(buffer, pos + 4);
      assert beginning == buffer[..pos];
      assert end == buffer[pos + 4..];
      RewriteFacts(buffer, pos, field, beginning, end, Spliced(buffer, beginning, field, end));
      assert Respliced(buffer, e, field) == Some(Spliced(buffer, beginning, field, end));
    }
  }

  /** The three `set` calls of rewriteSQlength on a zeroed array of the
   *  buffer's length. */
  function Spliced(buffer: seq<byte>, beginning: seq<byte>, field: seq<byte>, end: seq<byte>): (r: seq<byte>)
    requires |beginning| + |field| + |end| <= |buffer|
    ensures r == beginning + field + end + Zeros(|buffer| - |beginning| - |field| - |end|)
  {
    var r := Overlay(Overlay(Overlay(Zeros(|buffer|), 0, beginning), |beginning|, field), |beginning| + |field|, end);
    SplicedIsConcatenation(buffer, beginning, field, end, r);
    r
  }

  /** Three `set` calls laid end to end from index 0 leave the three pieces
   *  followed by the zeros of the fresh array. */
  lemma SplicedIsConcatenation(buffer: seq<byte>, beginning: seq<byte>, field: seq<byte>, end: seq<byte>,
                               r: seq<byte>)
    requires |beginning| + |field| + |end| <= |buffer|
    requires r == Overlay(Overlay(Overlay(Zeros(|buffer|), 0, beginning), |beginning|, field), |beginning| + |field|, end)
    ensures r == beginning + field + end + Zeros(|buffer| - |beginning| - |field| - |end|)
  {
    var z := Zeros(|buffer|);
    var a := Overlay(z, 0, beginning);
    var b := Overlay(a, |beginning|, field);
    var c := beginning + field + end + Zeros(|buffer| - |beginning| - |field| - |end|);
    assert |r| == |c|;
    forall i | 0 <= i < |r|
      ensures r[i] == c[i]
    {
      if i < |beginning| {
        assert r[i] == b[i] == a[i] == beginning[i];
      } else if i < |beginning| + |field| {
        assert r[i] == b[i] == field[i - |beginning|];
      } else if i < |beginning| + |field| + |end| {
        assert r[i] == end[i - |beginning| - |field|];
      } else {
        assert r[i] == b[i] == a[i] == z[i] == 0;
      }
    }
  }

  /** The length field written over the four bytes at pos, with everything
   *  else copied. */
  lemma RewriteFacts(buffer: seq<byte>, pos: nat, field: seq<byte>, beginning: seq<byte>, end: seq<byte>,
                     updated: seq<byte>)
    requires |field| == 4 && pos + 4 <= |buffer|
    requires beginning == buffer[..pos] && end == buffer[pos + 4..]
    requires updated == Spliced(buffer, beginning, field, end)
    ensures FieldRewritten(buffer, pos, updated, field)
  {
  }

  // ---------------------------------------------------------------------
  // Items of a sequence

  /** The partial sum readUint32's loop reaches: the first n bytes, byte i
   *  weighted by 256^i. */
  function WeightedSum(bs: seq<byte>, n: nat): (r: nat)
    requires n <= |bs|
  {
    if n == 0 then 0 else WeightedSum(bs, n - 1) + bs[n - 1] as nat * Pow256(n - 1)
  }

  /** The weighted sum of all bytes is the little-endian value. */
  lemma {:induction false} WeightedSumIsValue(bs: seq<byte>)
    ensures WeightedSum(bs, |bs|) == LittleEndianValue(bs)
    decreases |bs|
  {
    if bs != [] {
      WeightedSumIsValue(bs[1..]);
      WeightedSumShift(bs, |bs|);
    }
  }

  /** Dropping the first byte divides the weights by 256. */
  lemma {:induction false} WeightedSumShift(bs: seq<byte>, n: nat)
    requires 1 <= n <= |bs|
    ensures WeightedSum(bs, n) == bs[0] as nat + 256 * WeightedSum(bs[1..], n - 1)
  {
    if n > 1 {
      WeightedSumShift(bs, n - 1);
      assert bs[1..][n - 2] == bs[n - 1];
      assert Pow256(n - 1) == 256 * Pow256(n - 2);
    }
  }

  /** Four bytes weighted 1, 256, 65536 and 16777216. */
  function Word32(b0: byte, b1: byte, b2: byte, b3: byte): (v: int)
  {
    b0 as int + 256 * b1 as int + 65536 * b2 as int + 16777216 * b3 as int
  }

  /** readUint32: the four bytes read in the given byte order; a slice shorter
   *  than four bytes reads an undefined element, which makes the sum NaN. */
  function Uint32Value(bytes: seq<byte>, littleEndian: bool): (r: Num)
    ensures r.Int? <==> |bytes| >= 4
    ensures r.Int? ==> 0 <= r.i < Two32
  {
    if |bytes| < 4 then NaN
    else if littleEndian then Int(Word32(bytes[0], bytes[1], bytes[2], bytes[3]))
    else Int(Word32(bytes[3], bytes[2], bytes[1], bytes[0]))
  }

  /** The first four weights of readUint32's loop. */
  lemma WeightedSumFour(bs: seq<byte>)
    requires |bs| >= 4
    ensures WeightedSum(bs, 4) == Word32(bs[0], bs[1], bs[2], bs[3])
  {
    assert Pow256(1) == 256;
    assert Pow256(2) == 65536;
    assert Pow256(3) == 16777216;
    assert WeightedSum(bs, 1) == bs[0] as int;
    assert WeightedSum(bs, 2) == bs[0] as int + 256 * bs[1] as int;
    assert WeightedSum(bs, 3) == bs[0] as int + 256 * bs[1] as int + 65536 * bs[2] as int;
  }

  /** readUint32, with its two loops. */
  method ReadUint32(bytes: seq<byte>, littleEndian: bool) returns (result: Num)
    ensures result == Uint32Value(bytes, littleEndian)
  {
    result := Int(0);
    if littleEndian {
      for i := 0 to 4
        invariant result == if i <= |bytes| then Int(WeightedSum(bytes, i)) else NaN
      {
        if i < |bytes| {
          result := Add(result, Int(bytes[i] as int * Pow256(i)));
        } else {
          result := NaN;
        }
      }
      if |bytes| >= 4 {
        WeightedSumFour(bytes);
      }
    } else {
      var i := 3;
      while i >= 0
        invariant -1 <= i <= 3
        invariant |bytes| >= 4 ==> result == Int(WeightedSum(Reverse(bytes[..4]), 3 - i))
        invariant |bytes| < 4 && i < |bytes| ==> result == NaN
      {
        if i < |bytes| && result.Int? {
          if |bytes| >= 4 {
            assert Reverse(bytes[..4])[3 - i] == bytes[i];
          }
          result := Add(result, Int(bytes[i] as int * Pow256(3 - i)));
        } else {
          result := NaN;
        }
        i := i - 1;
      }
      if |bytes| >= 4 {
        var r := Reverse(bytes[..4]);
        WeightedSumFour(r);
        assert r[0] == bytes[3] && r[1] == bytes[2] && r[2] == bytes[1] && r[3] == bytes[0];
      }
    }
  }

  /** The value read is the unsigned value of the first four bytes in the
   *  chosen byte order. */
  lemma Uint32ValueIsUnsigned(bytes: seq<byte>, littleEndian: bool)
    requires |bytes| >= 4
    ensures Uint32Value(bytes, littleEndian) == Int(UnsignedValue(bytes[..4], littleEndian))
  {
    var b := bytes[..4];
    var w := if littleEndian then b else [bytes[3], bytes[2], bytes[1], bytes[0]];
    if !littleEndian {
      assert Reverse(b) == w;
    }
    assert UnsignedValue(b, littleEndian) == LittleEndianValue(w);
    FourBytesValue(w);
  }

  lemma FourBytesValue(w: seq<byte>)
    requires |w| == 4
    ensures LittleEndianValue(w) == Word32(w[0], w[1], w[2], w[3])
  {
    assert w[1..][1..][1..][1..] == [];
    assert LittleEndianValue(w[1..][1..][1..]) == w[3] as int;
    assert LittleEndianValue(w[1..][1..]) == w[2] as int + 256 * w[3] as int;
    assert LittleEndianValue(w[1..]) == w[1] as int + 256 * (w[2] as int + 256 * w[3] as int);
  }

  /** readUint32 of the four bytes at index at: slice(at, at + 4) counts a
   *  negative index back from the end of the buffer. */
  function Uint32At(buffer: seq<byte>, at: int, littleEndian: bool): (r: Num)
    ensures r.Int? ==> 0 <= r.i
  {
    var from := if at < 0 then |buffer| + at else at;
    if (at < 0 && at + 4 >= 0) || from < 0 || from + 4 > |buffer| then NaN
    else if littleEndian then Int(Word32(buffer[from], buffer[from + 1], buffer[from + 2], buffer[from + 3]))
    else Int(Word32(buffer[from + 3], buffer[from + 2], buffer[from + 1], buffer[from]))
  }

  lemma Uint32AtIsSliceRead(buffer: seq<byte>, at: int, littleEndian: bool)
    ensures Uint32At(buffer, at, littleEndian) == Uint32Value(Slice(buffer, at, at + 4), littleEndian)
  {
  }

  /** The item record getItemsFromSequenceAsSequences makes for the item
   *  header at offset, whose length is bytelength. */
  function ItemSequence(offset: int, bytelength: Num): (s: Sequence)
  {
    Sequence(Entry(-1, offset, bytelength, "FFFE", "E000", "", "item", []), bytelength)
  }

  /** The length of the item whose header starts at offset: its 4-byte length
   *  field plus the 8 header bytes. */
  function ItemLength(buffer: seq<byte>, offset: int, littleEndian: bool): (n: Num)
    ensures n.Int? ==> n.i >= TU.HeaderLen
  {
    Add(Uint32At(buffer, offset + ItemLengthOffset, littleEndian), Int(TU.HeaderLen))
  }

  /** The item records from offset up to the end of the sequence, one after
   *  another; an item whose length is NaN is recorded and ends the walk. */
  function ItemsIn(buffer: seq<byte>, littleEndian: bool, offset: int, end: Num): seq<Sequence>
    decreases if end.Int? && offset < end.i then end.i - offset else 0, 1
  {
    if !Less(Int(offset), end) then []
    else ItemsAt(buffer, littleEndian, offset, ItemLength(buffer, offset, littleEndian), end)
  }

  /** The item at offset, whose length is bytelength, and the items after it. */
  function ItemsAt(buffer: seq<byte>, littleEndian: bool, offset: int, bytelength: Num, end: Num): seq<Sequence>
    requires Less(Int(offset), end)
    requires bytelength.Int? ==> bytelength.i >= TU.HeaderLen
    decreases end.i - offset, 0
  {
    [ItemSequence(offset, bytelength)] +
      (if bytelength.NaN? then [] else ItemsIn(buffer, littleEndian, offset + bytelength.i, end))
  }

  /** One step of the item walk. */
  lemma ItemsInStep(buffer: seq<byte>, littleEndian: bool, offset: int, end: Num, bytelength: Num)
    requires Less(Int(offset), end)
    requires bytelength == ItemLength(buffer, offset, littleEndian)
    ensures bytelength.NaN? ==> ItemsIn(buffer, littleEndian, offset, end) == [ItemSequence(offset, bytelength)]
    ensures bytelength.Int? ==>
              ItemsIn(buffer, littleEndian, offset, end) ==
              [ItemSequence(offset, bytelength)] + ItemsIn(buffer, littleEndian, offset + bytelength.i, end)
  {
    assert ItemsIn(buffer, littleEndian, offset, end) == ItemsAt(buffer, littleEndian, offset, bytelength, end);
  }

  /** A well-formed item record: an (FFFE,E000) item inside [from, end). */
  predicate ItemWithin(s: Sequence, from: int, end: Num)
  {
    s.entry.tagGroup == "FFFE" && s.entry.tagElement == "E000" && s.entry.tagVR == "item" &&
    s.length == s.entry.byteLength && from <= s.entry.offset && end.Int? && s.entry.offset < end.i
  }

  /** The first item record starts at the offset the walk starts from. */
  lemma ItemsInFirst(buffer: seq<byte>, littleEndian: bool, offset: int, end: Num)
    requires ItemsIn(buffer, littleEndian, offset, end) != []
    ensures ItemsIn(buffer, littleEndian, offset, end)[0].entry.offset == offset
  {
    ItemsInStep(buffer, littleEndian, offset, end, ItemLength(buffer, offset, littleEndian));
  }

  /** Every item record is an (FFFE,E000) item that starts inside the
   *  sequence. */
  lemma {:induction false} ItemsInWithin(buffer: seq<byte>, littleEndian: bool, offset: int, end: Num, k: nat)
    requires k < |ItemsIn(buffer, littleEndian, offset, end)|
    ensures ItemWithin(ItemsIn(buffer, littleEndian, offset, end)[k], offset, end)
    decreases k, 1
  {
    ItemsAtWithin(buffer, littleEndian, offset, ItemLength(buffer, offset, littleEndian), end, k);
  }

  lemma {:induction false} ItemsAtWithin(buffer: seq<byte>, littleEndian: bool, offset: int, bytelength: Num,
                                         end: Num, k: nat)
    requires Less(Int(offset), end)
    requires bytelength.Int? ==> bytelength.i >= TU.HeaderLen
    requires k < |ItemsAt(buffer, littleEndian, offset, bytelength, end)|
    ensures ItemWithin(ItemsAt(buffer, littleEndian, offset, bytelength, end)[k], offset, end)
    decreases k, 0
  {
    if k > 0 {
      ItemsInWithin(buffer, littleEndian, offset + bytelength.i, end, k - 1);
    }
  }

  /** Each item record with a successor has a known length of at least the 8
   *  header bytes, and its successor starts where it ends. */
  lemma {:induction false} ItemsInChained(buffer: seq<byte>, littleEndian: bool, offset: int, end: Num, k: nat)
    requires k + 1 < |ItemsIn(buffer, littleEndian, offset, end)|
    ensures var items := ItemsIn(buffer, littleEndian, offset, end);
            items[k].length.Int? && items[k].length.i >= TU.HeaderLen &&
            items[k + 1].entry.offset == items[k].entry.offset + items[k].length.i
    decreases k, 1
  {
    ItemsAtChained(buffer, littleEndian, offset, ItemLength(buffer, offset, littleEndian), end, k);
  }

  lemma {:induction false} ItemsAtChained(buffer: seq<byte>, littleEndian: bool, offset: int, bytelength: Num,
                                          end: Num, k: nat)
    requires Less(Int(offset), end)
    requires bytelength.Int? ==> bytelength.i >= TU.HeaderLen
    requires k + 1 < |ItemsAt(buffer, littleEndian, offset, bytelength, end)|
    ensures var items := ItemsAt(buffer, littleEndian, offset, bytelength, end);
            items[k].length.Int? && items[k].length.i >= TU.HeaderLen &&
            items[k + 1].entry.offset == items[k].entry.offset + items[k].length.i
    decreases k, 0
  {
    if k == 0 {
      ItemsInFirst(buffer, littleEndian, offset + bytelength.i, end);
    } else {
      ItemsInChained(buffer, littleEndian, offset + bytelength.i, end, k - 1);
    }
  }

  /** getItemsFromSequenceAsSequences as a function: the items from just
   *  after the 12-byte sequence header to the sequence's end. */
  function ItemsOf(e: Entry, buffer: seq<byte>, littleEndian: bool): (items: seq<Sequence>)
  {
    ItemsIn(buffer, littleEndian, e.offset + TU.LongHeaderLen, Add(Int(e.offset), e.byteLength))
  }

  /** The body of getItemsFromSequenceAsSequences' loop that reads an item's
   *  length: readUint32 of the four bytes after the item tag, plus the 8
   *  header bytes. */
  method ReadItemLength(buffer: seq<byte>, offset: int, littleEndian: bool) returns (bytelength: Num)
    ensures bytelength == ItemLength(buffer, offset, littleEndian)
  {
    var itemLengthArray := Slice(buffer, offset + ItemLengthOffset, offset + TU.HeaderLen);
    var read := ReadUint32(itemLengthArray, littleEndian);
    bytelength := Add(read, Int(TU.HeaderLen));
    Uint32AtIsSliceRead(buffer, offset + ItemLengthOffset, littleEndian);
  }

  /** getItemsFromSequenceAsSequences: walks the item headers that follow the
   *  sequence header, reading each item's length field. */
  method GetItemsFromSequenceAsSequences(e: Entry, buffer: seq<byte>, littleEndian: bool)
    returns (items: seq<Sequence>)
    ensures items == ItemsOf(e, buffer, littleEndian)
  {
    items := [];
    var end := Add(Int(e.offset), e.byteLength);
    var currentItemOffset := Int(e.offset + TU.LongHeaderLen);
    while Less(currentItemOffset, end)
      invariant items + ItemsFrom(buffer, littleEndian, currentItemOffset, end) == ItemsOf(e, buffer, littleEndian)
      decreases ItemsLeft(currentItemOffset, end)
    {
      var bytelength := ReadItemLength(buffer, currentItemOffset.i, littleEndian);
      ItemsFromStep(buffer, littleEndian, currentItemOffset, end, items);
      items := items + [ItemSequence(currentItemOffset.i, bytelength)];
      currentItemOffset := Add(currentItemOffset, bytelength);
    }
    assert ItemsFrom(buffer, littleEndian, currentItemOffset, end) == [];
  }

  /** The item records still to come when the walk is at offset. */
  ghost function ItemsFrom(buffer: seq<byte>, littleEndian: bool, offset: Num, end: Num): seq<Sequence>
  {
    if offset.Int? then ItemsIn(buffer, littleEndian, offset.i, end) else []
  }

  /** How far the walk is from the end of the sequence. */
  ghost function ItemsLeft(offset: Num, end: Num): nat
  {
    if Less(offset, end) then end.i - offset.i else 0
  }

  /** One step of the walk: the item at offset is recorded and the walk moves
   *  on by its length, closer to the end. */
  lemma ItemsFromStep(buffer: seq<byte>, littleEndian: bool, offset: Num, end: Num, items: seq<Sequence>)
    requires Less(offset, end)
    ensures var bytelength := ItemLength(buffer, offset.i, littleEndian);
            var next := Add(offset, bytelength);
            items + ItemsFrom(buffer, littleEndian, offset, end) ==
              (items + [ItemSequence(offset.i, bytelength)]) + ItemsFrom(buffer, littleEndian, next, end) &&
            ItemsLeft(next, end) < ItemsLeft(offset, end)
  {
    var bytelength := ItemLength(buffer, offset.i, littleEndian);
    ItemsInStep(buffer, littleEndian, offset.i, end, bytelength);
  }

  // ---------------------------------------------------------------------
  // Where a new element goes

  /** The string findOffsetForNewTag orders tags by: group then element. */
  function Attribute(e: Entry): string
  {
    e.tagGroup + e.tagElement
  }

  /** `tagAttribute > newTagAttribute || tagAttribute === newTagAttribute`. */
  predicate AtOrAbove(tagAttribute: string, newTagAttribute: string)
  {
    StrLess(newTagAttribute, tagAttribute) || tagAttribute == newTagAttribute
  }

  lemma AtOrAboveIsNotBelow(tagAttribute: string, newTagAttribute: string)
    ensures AtOrAbove(tagAttribute, newTagAttribute) <==> !StrLess(tagAttribute, newTagAttribute)
  {
    StrLessTrichotomy(tagAttribute, newTagAttribute);
  }

  /** The comparator `element1.offset - element2.offset` sorts into ascending
   *  offset order: the descending sort on the negated offset. */
  function AscendingOffset(e: Entry): int
  {
    -e.offset
  }

  /** The index of the first entry whose attribute is at or above the new
   *  tag's, |entries| when there is none. */
  function FirstAtOrAbove(entries: seq<Entry>, newTagAttribute: string): (k: nat)
    ensures k <= |entries|
    ensures forall j | 0 <= j < k :: !AtOrAbove(Attribute(entries[j]), newTagAttribute)
    ensures k < |entries| ==> AtOrAbove(Attribute(entries[k]), newTagAttribute)
    decreases |entries|
  {
    if |entries| == 0 || AtOrAbove(Attribute(entries[0]), newTagAttribute) then 0
    else 1 + FirstAtOrAbove(entries[1..], newTagAttribute)
  }

  lemma FirstAtOrAboveIs(entries: seq<Entry>, newTagAttribute: string, i: nat)
    requires i <= |entries|
    requires forall j | 0 <= j < i :: !AtOrAbove(Attribute(entries[j]), newTagAttribute)
    requires i < |entries| ==> AtOrAbove(Attribute(entries[i]), newTagAttribute)
    ensures FirstAtOrAbove(entries, newTagAttribute) == i
  {
  }

  /** findOffsetForNewTag after its sort: the offset of the first entry whose
   *  attribute is at or above the new tag's, else the end of the last entry.
   *  With no entries `entries[i - 1]` is undefined and reading its offset is
   *  a TypeError (None). */
  function NewTagOffset(sorted: seq<Entry>, newTag: Entry): (r: Option<Num>)
    ensures r.None? <==> |sorted| == 0
  {
    var k := FirstAtOrAbove(sorted, Attribute(newTag));
    if k < |sorted| then Some(Int(sorted[k].offset))
    else if |sorted| == 0 then None
    else Some(Add(Int(sorted[|sorted| - 1].offset), sorted[|sorted| - 1].byteLength))
  }

  /** The new tag goes at the first entry, in ascending offset order, whose
   *  attribute is not below its own. */
  lemma NewTagOffsetIsFirstNotBelow(sorted: seq<Entry>, newTag: Entry, k: nat)
    requires k < |sorted| && !StrLess(Attribute(sorted[k]), Attribute(newTag))
    requires forall j | 0 <= j < k :: StrLess(Attribute(sorted[j]), Attribute(newTag))
    ensures NewTagOffset(sorted, newTag) == Some(Int(sorted[k].offset))
  {
    AtOrAboveIsNotBelow(Attribute(sorted[k]), Attribute(newTag));
    forall j | 0 <= j < k ensures !AtOrAbove(Attribute(sorted[j]), Attribute(newTag)) {
      AtOrAboveIsNotBelow(Attribute(sorted[j]), Attribute(newTag));
    }
    FirstAtOrAboveIs(sorted, Attribute(newTag), k);
  }

  /** A tag above every entry goes at the end of the last one. */
  lemma NewTagOffsetAfterAll(sorted: seq<Entry>, newTag: Entry)
    requires |sorted| > 0
    requires forall j | 0 <= j < |sorted| :: StrLess(Attribute(sorted[j]), Attribute(newTag))
    ensures NewTagOffset(sorted, newTag) ==
              Some(Add(Int(sorted[|sorted| - 1].offset), sorted[|sorted| - 1].byteLength))
  {
    forall j | 0 <= j < |sorted| ensures !AtOrAbove(Attribute(sorted[j]), Attribute(newTag)) {
      AtOrAboveIsNotBelow(Attribute(sorted[j]), Attribute(newTag));
    }
    FirstAtOrAboveIs(sorted, Attribute(newTag), |sorted|);
  }

  /** findOffsetForNewTag: sorts the caller's entries by ascending offset in
   *  place, then scans them for the first one at or above the new tag. */
  method FindOffsetForNewTag(entries: array<Entry>, newTag: Entry) returns (r: Option<Num>)
    modifies entries
    ensures entries[..] == SortDesc(old(entries[..]), AscendingOffset)
    ensures r == NewTagOffset(entries[..], newTag)
  {
    var newTagAttribute := newTag.tagGroup + newTag.tagElement;
    InsertionSort(entries, AscendingOffset);
    var i := 0;
    while i < entries.Length
      invariant 0 <= i <= entries.Length
      invariant forall j | 0 <= j < i :: !AtOrAbove(Attribute(entries[j]), newTagAttribute)
    {
      var tagAttribute := entries[i].tagGroup + entries[i].tagElement;
      if StrLess(newTagAttribute, tagAttribute) || tagAttribute == newTagAttribute {
        FirstAtOrAboveIs(entries[..], newTagAttribute, i);
        return Some(Int(entries[i].offset));
      }
      i := i + 1;
    }
    FirstAtOrAboveIs(entries[..], newTagAttribute, i);
    if i == 0 {
      return None;
    }
    r := Some(Add(Int(entries[i - 1].offset), entries[i - 1].byteLength));
  }

  // ---------------------------------------------------------------------
  // Encoding one element

  /** The two bytes the "uint16" writer stores for a number. */
  function Uint16Bytes(n: Num, littleEndian: bool, floats: TU.FloatEncoder): (r: seq<byte>)
    ensures |r| == 2
    ensures UnsignedValue(r, littleEndian) == IntegerOrZero(n) % 65536
  {
    var r := TU.WriteTypedNumber(n, TU.Uint16, 2, littleEndian, floats).value;
    assert r[..2] == r;
    assert Pow256(2) == 65536;
    r
  }

  /** Two numbers, each stored by the "uint16" writer in two bytes of the
   *  given byte order, one after the other, as two `set` calls place them. */
  function Uint16Pair(first: Num, second: Num, littleEndian: bool, floats: TU.FloatEncoder): (r: seq<byte>)
    ensures |r| == 4
    ensures UnsignedValue(r[..2], littleEndian) == IntegerOrZero(first) % 65536
    ensures UnsignedValue(r[2..], littleEndian) == IntegerOrZero(second) % 65536
  {
    var a := Uint16Bytes(first, littleEndian, floats);
    var b := Uint16Bytes(second, littleEndian, floats);
    assert (a + b)[..2] == a && (a + b)[2..] == b;
    a + b
  }

  /** writeTagName: group and element read as hexadecimal, each stored by the
   *  "uint16" writer in two bytes of the file's byte order. */
  function TagName(tagGroup: string, tagElement: string, littleEndian: bool,
                   floats: TU.FloatEncoder): (r: seq<byte>)
    ensures |r| == TU.GroupLen + TU.ElementLen
  {
    Uint16Pair(ParseInt(tagGroup, Hexadecimal), ParseInt(tagElement, Hexadecimal), littleEndian, floats)
  }

  /** For four-digit hexadecimal group and element the two halves read back
   *  as their values. */
  lemma TagNameOfHexDigits(tagGroup: string, tagElement: string, littleEndian: bool, floats: TU.FloatEncoder)
    requires |tagGroup| == 4 && AllDigits(tagGroup, 16)
    requires |tagElement| == 4 && AllDigits(tagElement, 16)
    ensures var r := TagName(tagGroup, tagElement, littleEndian, floats);
            UnsignedValue(r[..2], littleEndian) == DigitsValue(tagGroup, 16) &&
            UnsignedValue(r[2..], littleEndian) == DigitsValue(tagElement, 16)
  {
    HexWord(tagGroup);
    HexWord(tagElement);
  }

  /** Four hexadecimal digits parse to their value, which is below 2^16. */
  lemma HexWord(s: string)
    requires |s| == 4 && AllDigits(s, 16)
    ensures ParseInt(s, Hexadecimal) == Int(DigitsValue(s, 16))
    ensures IntegerOrZero(ParseInt(s, Hexadecimal)) % 65536 == DigitsValue(s, 16)
  {
    ParseIntDigits(s, Hexadecimal);
    HexDigitsBound(s);
    assert Pow16(4) == 65536;
    BelowModulus(DigitsValue(s, 16), 65536);
  }

  lemma BelowModulus(v: nat, m: nat)
    requires v < m
    ensures v % m == v
  {
  }

  /** The AT case of createTag: the first four characters and the rest of the
   *  value, read as hexadecimal, each stored by the "uint16" writer in two of
   *  the four value bytes. */
  function WriteAttributeTag(header: seq<byte>, atGroup: Num, atElement: Num, littleEndian: bool,
                             floats: TU.FloatEncoder): (r: seq<byte>)
    requires |header| == TU.HeaderLen + 4
    ensures |r| == |header| && r[..TU.HeaderLen] == header[..TU.HeaderLen]
    ensures r[TU.HeaderLen..] == Uint16Pair(atGroup, atElement, littleEndian, floats)
  {
    var pair := Uint16Pair(atGroup, atElement, littleEndian, floats);
    assert (header[..TU.HeaderLen] + pair)[TU.HeaderLen..] == pair;
    header[..TU.HeaderLen] + pair
  }

  /** The header createTag writes for an entry: the group and element, the
   *  VR and the length field, in a zeroed array as long as the element. */
  function CreatedHeader(tagName: seq<byte>, tag: Entry, littleEndian: bool, floats: TU.FloatEncoder): (r: seq<byte>)
    requires |tagName| <= TU.GroupLen + TU.ElementLen
    ensures |r| == TU.ValueLength(tag.tagVR, tag.tagValue) + TU.ValueOffset(tag.tagVR)
    ensures r[..4] == TU.Fit(tagName, 4)
    ensures r[TU.VrOffset..TU.VrOffset + TU.VrLen] == TU.VRBytes(tag.tagVR)
  {
    var vr := tag.tagVR;
    var valueOffset := TU.ValueOffset(vr);
    var valueLength := TU.ValueLength(vr, tag.tagValue);
    TU.TagHeader(TU.Fit(tagName, 4), vr, valueLength, valueOffset,
                 Legacy.LegacyLengthField(valueLength, valueOffset == TU.LongHeaderLen, littleEndian, floats))
  }

  /** What the switch of createTag writes after the header: for AT the two
   *  halves of the value read as hexadecimal, otherwise the legacy writers'
   *  number or the characters. */
  function CreatedValue(header: seq<byte>, tag: Entry, littleEndian: bool, floats: TU.FloatEncoder): (r: seq<byte>)
    requires |header| == TU.ValueLength(tag.tagVR, tag.tagValue) + TU.ValueOffset(tag.tagVR)
    ensures |r| == |header| && r[..TU.HeaderLen] == header[..TU.HeaderLen]
  {
    var vr := tag.tagVR;
    if vr == "AT" then
      AttributeTagLengths(tag.tagValue);
      WriteAttributeTag(header, ParseInt(Slice(tag.tagValue, 0, 4), Hexadecimal),
                        ParseInt(SliceFrom(tag.tagValue, 4), Hexadecimal), littleEndian, floats)
    else
      TU.NumberFits(vr, tag.tagValue);
      TU.WriteValue(header, Legacy.LegacyNumberType(vr), ParseInt(tag.tagValue, Decimal), tag.tagValue,
                    TU.ValueOffset(vr), TU.ValueLength(vr, tag.tagValue), littleEndian, floats)
  }

  /** The bytes createTag builds for an entry under a given group and element
   *  (tagName, up to four bytes; `set` of a shorter array leaves the rest 0).
   *  The value length and header length are those of the current editor; the
   *  writers are this class's, whose "uint32" calls setUint16. */
  function NewTagBytes(tagName: seq<byte>, tag: Entry, littleEndian: bool, floats: TU.FloatEncoder): (r: seq<byte>)
    requires |tagName| <= TU.GroupLen + TU.ElementLen
    ensures |r| == TU.ValueLength(tag.tagVR, tag.tagValue) + TU.ValueOffset(tag.tagVR)
    ensures r[..4] == TU.Fit(tagName, 4)
    ensures r[TU.VrOffset..TU.VrOffset + TU.VrLen] == TU.VRBytes(tag.tagVR)
  {
    var header := CreatedHeader(tagName, tag, littleEndian, floats);
    var r := CreatedValue(header, tag, littleEndian, floats);
    TU.PrefixesAgree(r, header, TU.HeaderLen, 0, 4);
    TU.PrefixesAgree(r, header, TU.HeaderLen, TU.VrOffset, TU.VrOffset + TU.VrLen);
    r
  }

  /** An AT element has a four-byte value under an 8-byte header. */
  lemma AttributeTagLengths(value: string)
    ensures TU.ValueLength("AT", value) == 4 && TU.ValueOffset("AT") == TU.HeaderLen
  {
    TU.ValueLengthText("AT", value);
    TU.InEnumOfName("AT", TU.LongHeaderVRs);
  }

  /** Outside UL, AT and the 12-byte-header VRs this createTag builds the
   *  same bytes as the current editor's createTag. */
  lemma NewTagBytesMatchesCurrent(tagName: seq<byte>, tag: Entry, littleEndian: bool, floats: TU.FloatEncoder)
    requires |tagName| == TU.GroupLen + TU.ElementLen
    requires tag.tagVR != "UL" && tag.tagVR != "AT" && TU.ValueOffset(tag.tagVR) == TU.HeaderLen
    ensures NewTagBytes(tagName, tag, littleEndian, floats) ==
              TU.TagBytes(tagName, tag.tagVR, tag.tagValue, littleEndian, floats)
  {
    assert TU.Fit(tagName, 4) == tagName;
  }

  /** UL: the "uint32" writer stores only the low 16 bits of the parsed
   *  decimal value; the rest of the value field stays zero. */
  lemma NewTagBytesUnsignedLong(tagName: seq<byte>, tag: Entry, littleEndian: bool, floats: TU.FloatEncoder)
    requires |tagName| <= TU.GroupLen + TU.ElementLen && tag.tagVR == "UL"
    ensures var r := NewTagBytes(tagName, tag, littleEndian, floats);
            TU.HeaderLen + 2 <= |r| &&
            UnsignedValue(r[8..10], littleEndian) == IntegerOrZero(ParseInt(tag.tagValue, Decimal)) % 65536 &&
            forall i | 10 <= i < |r| :: r[i] == 0
  {
    TU.NumberFits("UL", tag.tagValue);
    var valueLength := TU.ValueLength("UL", tag.tagValue);
    var header := TU.TagHeader(TU.Fit(tagName, 4), "UL", valueLength, TU.HeaderLen,
                               Legacy.LegacyLengthField(valueLength, false, littleEndian, floats));
    TU.WriteValueNumber(header, Legacy.LegacyNumberType("UL"), ParseInt(tag.tagValue, Decimal), tag.tagValue,
                        valueLength, littleEndian, floats);
    assert Pow256(2) == 65536;
  }

  /** AT: a 4-byte value under an 8-byte header, holding the first four
   *  characters and the rest of the value read as hexadecimal. */
  lemma NewTagBytesAttributePair(tagName: seq<byte>, tag: Entry, littleEndian: bool, floats: TU.FloatEncoder)
    requires |tagName| <= TU.GroupLen + TU.ElementLen && tag.tagVR == "AT"
    ensures var r := NewTagBytes(tagName, tag, littleEndian, floats);
            |r| == 12 &&
            r[8..] == Uint16Pair(ParseInt(Slice(tag.tagValue, 0, 4), Hexadecimal),
                                 ParseInt(SliceFrom(tag.tagValue, 4), Hexadecimal), littleEndian, floats)
  {
    AttributeTagLengths(tag.tagValue);
  }

  /** AT with eight hexadecimal digits: the value field holds the first four
   *  and the last four digits' values, each in two bytes. */
  lemma NewTagBytesAttributeTag(tagName: seq<byte>, tag: Entry, littleEndian: bool, floats: TU.FloatEncoder)
    requires |tagName| <= TU.GroupLen + TU.ElementLen && tag.tagVR == "AT"
    requires |tag.tagValue| == 8 && AllDigits(tag.tagValue[..4], 16) && AllDigits(tag.tagValue[4..], 16)
    ensures var r := NewTagBytes(tagName, tag, littleEndian, floats);
            |r| == 12 &&
            UnsignedValue(r[8..10], littleEndian) == DigitsValue(tag.tagValue[..4], 16) &&
            UnsignedValue(r[10..12], littleEndian) == DigitsValue(tag.tagValue[4..], 16)
  {
    NewTagBytesAttributePair(tagName, tag, littleEndian, floats);
    var v := tag.tagValue;
    var pair := Uint16Pair(ParseInt(Slice(v, 0, 4), Hexadecimal), ParseInt(SliceFrom(v, 4), Hexadecimal),
                           littleEndian, floats);
    HexValuePair(v, littleEndian, floats);
    PairHalves(NewTagBytes(tagName, tag, littleEndian, floats), pair, littleEndian,
               DigitsValue(v[..4], 16), DigitsValue(v[4..], 16));
  }

  lemma PairHalves(r: seq<byte>, pair: seq<byte>, littleEndian: bool, first: nat, second: nat)
    requires |r| == 12 && |pair| == 4 && r[8..] == pair
    requires UnsignedValue(pair[..2], littleEndian) == first && UnsignedValue(pair[2..], littleEndian) == second
    ensures UnsignedValue(r[8..10], littleEndian) == first && UnsignedValue(r[10..12], littleEndian) == second
  {
    assert r[8..10] == pair[..2] && r[10..12] == pair[2..];
  }

  /** An eight-digit hexadecimal AT value: its two halves as the AT case reads them. */
  lemma HexValuePair(v: string, littleEndian: bool, floats: TU.FloatEncoder)
    requires |v| == 8 && AllDigits(v[..4], 16) && AllDigits(v[4..], 16)
    ensures var p := Uint16Pair(ParseInt(Slice(v, 0, 4), Hexadecimal), ParseInt(SliceFrom(v, 4), Hexadecimal),
                                littleEndian, floats);
            UnsignedValue(p[..2], littleEndian) == DigitsValue(v[..4], 16) &&
            UnsignedValue(p[2..], littleEndian) == DigitsValue(v[4..], 16)
  {
    var g, e := v[..4], v[4..];
    assert Slice(v, 0, 4) == g;
    assert SliceFrom(v, 4) == e;
    HexPair(g, e, littleEndian, floats);
  }

  lemma HexPair(g: string, e: string, littleEndian: bool, floats: TU.FloatEncoder)
    requires |g| == 4 && AllDigits(g, 16) && |e| == 4 && AllDigits(e, 16)
    ensures var p := Uint16Pair(ParseInt(g, Hexadecimal), ParseInt(e, Hexadecimal), littleEndian, floats);
            UnsignedValue(p[..2], littleEndian) == DigitsValue(g, 16) &&
            UnsignedValue(p[2..], littleEndian) == DigitsValue(e, 16)
  {
    HexWord(g);
    HexWord(e);
  }

  /** The length field at offset 6 holds the value length modulo 2^16 under
   *  either header. */
  lemma NewTagBytesLengthField(tagName: seq<byte>, tag: Entry, littleEndian: bool, floats: TU.FloatEncoder)
    requires |tagName| <= TU.GroupLen + TU.ElementLen
    ensures UnsignedValue(NewTagBytes(tagName, tag, littleEndian, floats)[TU.LengthOffset..TU.HeaderLen], littleEndian) ==
              TU.ValueLength(tag.tagVR, tag.tagValue) % 65536
  {
    var vr := tag.tagVR;
    var valueOffset := TU.ValueOffset(vr);
    var valueLength := TU.ValueLength(vr, tag.tagValue);
    var long := valueOffset == TU.LongHeaderLen;
    var field := Legacy.LegacyLengthField(valueLength, long, littleEndian, floats);
    var header := TU.TagHeader(TU.Fit(tagName, 4), vr, valueLength, valueOffset, field);
    var r := NewTagBytes(tagName, tag, littleEndian, floats);
    assert r[..TU.HeaderLen] == header[..TU.HeaderLen];
    TU.PrefixesAgree(r, header, TU.HeaderLen, TU.LengthOffset, TU.HeaderLen);
    assert Pow256(2) == 65536;
    if long {
      Legacy.LegacyUint32WritesSixteenBits(Int(valueLength), 4, littleEndian, floats);
    } else {
      assert field[..2] == field;
    }
  }

  /** A VR with no number writer, other than AT, has its characters stored
   *  from offset 8, as many as fit. */
  lemma NewTagBytesText(tagName: seq<byte>, tag: Entry, littleEndian: bool, floats: TU.FloatEncoder)
    requires |tagName| <= TU.GroupLen + TU.ElementLen
    requires TU.NumberTypeOfVR(tag.tagVR).None? && tag.tagVR != "AT"
    ensures var r := NewTagBytes(tagName, tag, littleEndian, floats);
            forall i | TU.HeaderLen <= i < |r| && i < TU.HeaderLen + |tag.tagValue| ::
              r[i] as int == tag.tagValue[i - TU.HeaderLen] as int % 256
  {
    var vr := tag.tagVR;
    var valueOffset := TU.ValueOffset(vr);
    var valueLength := TU.ValueLength(vr, tag.tagValue);
    var field := Legacy.LegacyLengthField(valueLength, valueOffset == TU.LongHeaderLen, littleEndian, floats);
    var header := TU.TagHeader(TU.Fit(tagName, 4), vr, valueLength, valueOffset, field);
    TU.WriteCharsCodes(header, tag.tagValue);
  }

  /** createTag: a zeroed array holding the group and element, the VR and the
   *  length field, then what the VR's case of the switch writes. */
  method CreateTag(tagName: seq<byte>, tag: Entry, littleEndian: bool, floats: TU.FloatEncoder)
    returns (r: seq<byte>)
    requires |tagName| <= TU.GroupLen + TU.ElementLen
    ensures r == NewTagBytes(tagName, tag, littleEndian, floats)
  {
    var newTag := CreateHeader(tagName, tag, littleEndian, floats);
    WriteCreatedValue(newTag, tag, littleEndian, floats);
    r := newTag[..];
  }

  /** The first half of createTag: the header laid out in a fresh array of
   *  the whole tag's length. */
  method CreateHeader(tagName: seq<byte>, tag: Entry, littleEndian: bool, floats: TU.FloatEncoder)
    returns (newTag: array<byte>)
    requires |tagName| <= TU.GroupLen + TU.ElementLen
    ensures fresh(newTag)
    ensures newTag[..] == CreatedHeader(tagName, tag, littleEndian, floats)
  {
    var vr := tag.tagVR;
    var valueOffset := if TU.InEnum(vr, TU.LongHeaderVRs) then TU.LongHeaderLen else TU.HeaderLen;
    var valueLength := TU.GetValueLength(vr, tag.tagValue);
    var tagLength := if valueOffset == TU.LongHeaderLen
                     then TU.WriteTypedNumber(Int(valueLength), Legacy.LegacyWriter(TU.Uint32), TU.LongHeaderLengthLen,
                                              littleEndian, floats).value
                     else TU.WriteTypedNumber(Int(valueLength), TU.Uint16, TU.LengthLen, littleEndian, floats).value;
    newTag := TU.NewTagHeader(TU.Fit(tagName, 4), vr, valueLength, valueOffset, tagLength);
  }

  /** The second half of createTag: the value written after the header. */
  method WriteCreatedValue(newTag: array<byte>, tag: Entry, littleEndian: bool, floats: TU.FloatEncoder)
    requires newTag.Length == TU.ValueLength(tag.tagVR, tag.tagValue) + TU.ValueOffset(tag.tagVR)
    modifies newTag
    ensures newTag[..] == CreatedValue(old(newTag[..]), tag, littleEndian, floats)
  {
    var vr := tag.tagVR;
    var valueOffset := TU.ValueOffset(vr);
    var valueLength := TU.ValueLength(vr, tag.tagValue);
    TU.NumberFits(vr, tag.tagValue);
    if vr == "AT" {
      AttributeTagLengths(tag.tagValue);
      WriteAttributeTagAt(newTag, tag.tagValue, littleEndian, floats);
    } else {
      match Legacy.LegacyNumberType(vr) {
        case Some(t) =>
          var bytes := TU.WriteTypedNumber(ParseInt(tag.tagValue, Decimal), t, valueLength, littleEndian, floats).value;
          TU.SetAt(newTag, bytes, valueOffset);
        case None =>
          TU.WriteCharsFrom8(newTag, tag.tagValue);
      }
    }
  }

  /** The AT case of createTag: two "uint16" writes at offsets 8 and 10. */
  method WriteAttributeTagAt(newTag: array<byte>, value: string, littleEndian: bool, floats: TU.FloatEncoder)
    requires newTag.Length == TU.HeaderLen + 4
    modifies newTag
    ensures newTag[..] == WriteAttributeTag(old(newTag[..]), ParseInt(Slice(value, 0, 4), Hexadecimal),
                                            ParseInt(SliceFrom(value, 4), Hexadecimal), littleEndian, floats)
  {
    ghost var header := newTag[..];
    var atGroup := ParseInt(Slice(value, 0, 4), Hexadecimal);
    var atElement := ParseInt(SliceFrom(value, 4), Hexadecimal);
    var group := TU.WriteTypedNumber(atGroup, TU.Uint16, 2, littleEndian, floats).value;
    var element := TU.WriteTypedNumber(atElement, TU.Uint16, 2, littleEndian, floats).value;
    TU.SetAt(newTag, group, TU.HeaderLen);
    TU.SetAt(newTag, element, TU.HeaderLen + 2);
    AttributeTagSets(header, atGroup, atElement, newTag[..], littleEndian, floats);
  }

  /** The two `set` calls of the AT case build WriteAttributeTag's bytes. */
  lemma AttributeTagSets(header: seq<byte>, atGroup: Num, atElement: Num, r: seq<byte>, littleEndian: bool,
                         floats: TU.FloatEncoder)
    requires |header| == TU.HeaderLen + 4
    requires r == Overlay(Overlay(header, 8, TU.WriteTypedNumber(atGroup, TU.Uint16, 2, littleEndian, floats).value),
                          10, TU.WriteTypedNumber(atElement, TU.Uint16, 2, littleEndian, floats).value)
    ensures r == WriteAttributeTag(header, atGroup, atElement, littleEndian, floats)
  {
    var a := Uint16Bytes(atGroup, littleEndian, floats);
    var b := Uint16Bytes(atElement, littleEndian, floats);
    var first := Overlay(header, 8, a);
    assert first == header[..8] + a + header[10..];
    assert r == first[..10] + b;
    assert first[..10] == header[..8] + a;
  }

  // ---------------------------------------------------------------------
  // Ordering

  function SequenceOffset(s: Sequence): int
  {
    s.entry.offset
  }

  function ChangeOffset(c: Change): int
  {
    c.entry.offset
  }

  /** orderByOffset: the array sorted in place with the comparator
   *  `element2.entry.offset - element1.entry.offset`, a stable sort into
   *  non-increasing offset order; the caller goes on with the sorted
   *  contents. */
  method OrderByOffset<T>(elements: seq<T>, offset: T -> int) returns (r: seq<T>)
    ensures r == SortDesc(elements, offset)
    ensures NonIncreasing(r, offset) && multiset(r) == multiset(elements)
  {
    var a := new T[|elements|](i requires 0 <= i < |elements| => elements[i]);
    assert a[..] == elements;
    InsertionSort(a, offset);
    r := a[..];
    SortDescSorted(elements, offset);
    SortDescPermutes(elements, offset);
  }

  // ---------------------------------------------------------------------
  // Collecting the sequences

  /** The record getSequences pushes for a sequence: its entry, with the
   *  entry's length as the length to track. */
  function Tracked(e: Entry): (s: Sequence)
    ensures Untouched(s)
  {
    Sequence(e, e.byteLength)
  }

  /** A record whose tracked length is still the entry's own. */
  predicate Untouched(s: Sequence)
  {
    s.length == s.entry.byteLength
  }

  /** One getSequences call part-way through its entries: the contents of the
   *  array its caller passed in, the contents of the array its parameter
   *  now names, and whether these are still one and the same array. */
  datatype Gathering = Gathering(passed: seq<Sequence>, local: seq<Sequence>, aliased: bool)

  /** The forEach of getSequences from entry k on. An SQ entry is pushed onto
   *  the array the parameter names (the caller's array while the two are
   *  one); the parameter is then rebound to a new array with the sequence's
   *  items appended; the recursive call over the nested entries pushes into
   *  that new array and its return value is dropped. */
  function GatherFrom(g: Gathering, entries: seq<Entry>, k: nat, buffer: seq<byte>, littleEndian: bool): (r: Gathering)
    requires k <= |entries|
    decreases entries, |entries| - k
  {
    if k == |entries| then g
    else if entries[k].tagVR != "SQ" then GatherFrom(g, entries, k + 1, buffer, littleEndian)
    else
      var e := entries[k];
      var pushed := g.local + [Tracked(e)];
      var concatenated := pushed + ItemsOf(e, buffer, littleEndian);
      var nested := SequencesSeen(concatenated, e.sequence, buffer, littleEndian).passed;
      GatherFrom(Gathering(if g.aliased then pushed else g.passed, nested, false), entries, k + 1, buffer, littleEndian)
  }

  /** What a getSequences call leaves in the array it was given, and the
   *  sorted array it returns. */
  datatype Seen = Seen(passed: seq<Sequence>, returned: seq<Sequence>)

  /** getSequences: after the forEach the array the parameter names is sorted
   *  in place and returned; the caller's array holds the sorted contents too
   *  when no rebinding happened. */
  function SequencesSeen(sequences: seq<Sequence>, entries: seq<Entry>, buffer: seq<byte>,
                         littleEndian: bool): (r: Seen)
    decreases entries, |entries| + 1
  {
    var g := GatherFrom(Gathering(sequences, sequences, true), entries, 0, buffer, littleEndian);
    var sorted := SortDesc(g.local, SequenceOffset);
    Seen(if g.aliased then sorted else g.passed, sorted)
  }

  /** getSequences, recursive as in the class. */
  method GetSequences(sequences: seq<Sequence>, entries: seq<Entry>, buffer: seq<byte>, littleEndian: bool)
    returns (passed: seq<Sequence>, returned: seq<Sequence>)
    ensures Seen(passed, returned) == SequencesSeen(sequences, entries, buffer, littleEndian)
    decreases entries
  {
    passed := sequences;
    var local := sequences;
    var aliased := true;
    for k := 0 to |entries|
      invariant GatherFrom(Gathering(passed, local, aliased), entries, k, buffer, littleEndian) ==
                GatherFrom(Gathering(sequences, sequences, true), entries, 0, buffer, littleEndian)
    {
      var entry := entries[k];
      if entry.tagVR == "SQ" {
        local := local + [Sequence(entry, entry.byteLength)];
        if aliased {
          passed := local;
        }
        var items := GetItemsFromSequenceAsSequences(entry, buffer, littleEndian);
        local := local + items;
        aliased := false;
        var nestedPassed, _ := GetSequences(local, entry.sequence, buffer, littleEndian);
        local := nestedPassed;
      }
    }
    returned := OrderByOffset(local, SequenceOffset);
    if aliased {
      passed := returned;
    }
  }

  /** The index of the first SQ entry from k on, |entries| when there is none. */
  function FirstSequenceFrom(entries: seq<Entry>, k: nat): (j: nat)
    requires k <= |entries|
    ensures k <= j <= |entries|
    ensures j < |entries| ==> entries[j].tagVR == "SQ"
    ensures forall i | k <= i < j :: entries[i].tagVR != "SQ"
    decreases |entries| - k
  {
    if k == |entries| || entries[k].tagVR == "SQ" then k else FirstSequenceFrom(entries, k + 1)
  }

  /** The caller's array changes at the first SQ entry only: it gains that
   *  sequence's record if the two arrays were still one, and is left alone
   *  from then on. */
  lemma {:induction false} GatherPassed(g: Gathering, entries: seq<Entry>, k: nat, buffer: seq<byte>,
                                        littleEndian: bool)
    requires k <= |entries|
    ensures var r := GatherFrom(g, entries, k, buffer, littleEndian);
            var j := FirstSequenceFrom(entries, k);
            (j == |entries| ==> r == g) &&
            (j < |entries| ==> !r.aliased &&
                               r.passed == if g.aliased then g.local + [Tracked(entries[j])] else g.passed)
    decreases |entries| - k
  {
    if k < |entries| {
      if entries[k].tagVR != "SQ" {
        GatherPassed(g, entries, k + 1, buffer, littleEndian);
      } else {
        var e := entries[k];
        var pushed := g.local + [Tracked(e)];
        var nested := SequencesSeen(pushed + ItemsOf(e, buffer, littleEndian), e.sequence, buffer, littleEndian).passed;
        GatherPassed(Gathering(if g.aliased then pushed else g.passed, nested, false), entries, k + 1, buffer,
                     littleEndian);
      }
    }
  }

  /** What a recursive call leaves in its caller's array: the record of the
   *  first sequence among the entries appended, and nothing of its items or
   *  of any later sequence; with no sequence among the entries, the caller's
   *  array sorted. */
  lemma SequencesSeenPassed(sequences: seq<Sequence>, entries: seq<Entry>, buffer: seq<byte>, littleEndian: bool)
    ensures var j := FirstSequenceFrom(entries, 0);
            SequencesSeen(sequences, entries, buffer, littleEndian).passed ==
              if j == |entries| then SortDesc(sequences, SequenceOffset)
              else sequences + [Tracked(entries[j])]
  {
    GatherPassed(Gathering(sequences, sequences, true), entries, 0, buffer, littleEndian);
  }

  /** The caller's array only gains records. */
  lemma SequencesSeenKeeps(sequences: seq<Sequence>, entries: seq<Entry>, buffer: seq<byte>, littleEndian: bool)
    ensures multiset(sequences) <= multiset(SequencesSeen(sequences, entries, buffer, littleEndian).passed)
  {
    SequencesSeenPassed(sequences, entries, buffer, littleEndian);
    SortDescPermutes(sequences, SequenceOffset);
  }

  lemma {:induction false} GatherLocalGrows(g: Gathering, entries: seq<Entry>, k: nat, buffer: seq<byte>,
                                            littleEndian: bool)
    requires k <= |entries|
    ensures multiset(g.local) <= multiset(GatherFrom(g, entries, k, buffer, littleEndian).local)
    decreases |entries| - k
  {
    if k < |entries| {
      if entries[k].tagVR != "SQ" {
        GatherLocalGrows(g, entries, k + 1, buffer, littleEndian);
      } else {
        var e := entries[k];
        var pushed := g.local + [Tracked(e)];
        var concatenated := pushed + ItemsOf(e, buffer, littleEndian);
        var nested := SequencesSeen(concatenated, e.sequence, buffer, littleEndian).passed;
        SequencesSeenKeeps(concatenated, e.sequence, buffer, littleEndian);
        GatherLocalGrows(Gathering(if g.aliased then pushed else g.passed, nested, false), entries, k + 1, buffer,
                         littleEndian);
      }
    }
  }

  /** Each SQ entry from k on contributes its record and its items to the
   *  array the parameter ends up naming. */
  lemma {:induction false} GatherKeeps(g: Gathering, entries: seq<Entry>, k: nat, j: nat, buffer: seq<byte>,
                                       littleEndian: bool)
    requires k <= j < |entries| && entries[j].tagVR == "SQ"
    ensures multiset([Tracked(entries[j])] + ItemsOf(entries[j], buffer, littleEndian)) <=
              multiset(GatherFrom(g, entries, k, buffer, littleEndian).local)
    decreases j - k
  {
    var e := entries[k];
    if e.tagVR != "SQ" {
      GatherKeeps(g, entries, k + 1, j, buffer, littleEndian);
    } else {
      var pushed := g.local + [Tracked(e)];
      var concatenated := pushed + ItemsOf(e, buffer, littleEndian);
      var nested := SequencesSeen(concatenated, e.sequence, buffer, littleEndian).passed;
      var next := Gathering(if g.aliased then pushed else g.passed, nested, false);
      if k == j {
        SequencesSeenKeeps(concatenated, e.sequence, buffer, littleEndian);
        GatherLocalGrows(next, entries, k + 1, buffer, littleEndian);
        assert concatenated == g.local + ([Tracked(e)] + ItemsOf(e, buffer, littleEndian));
      } else {
        GatherKeeps(next, entries, k + 1, j, buffer, littleEndian);
      }
    }
  }

  /** The returned list holds every top-level sequence among the entries
   *  passed in, with all of its items, in non-increasing offset order. */
  lemma GetSequencesTracks(sequences: seq<Sequence>, entries: seq<Entry>, buffer: seq<byte>, littleEndian: bool,
                           j: nat)
    requires j < |entries| && entries[j].tagVR == "SQ"
    ensures var r := SequencesSeen(sequences, entries, buffer, littleEndian).returned;
            NonIncreasing(r, SequenceOffset) &&
            Tracked(entries[j]) in r &&
            forall item | item in ItemsOf(entries[j], buffer, littleEndian) :: item in r
  {
    var g := GatherFrom(Gathering(sequences, sequences, true), entries, 0, buffer, littleEndian);
    GatherKeeps(Gathering(sequences, sequences, true), entries, 0, j, buffer, littleEndian);
    SortDescPermutes(g.local, SequenceOffset);
    SortDescSorted(g.local, SequenceOffset);
    var r := SequencesSeen(sequences, entries, buffer, littleEndian).returned;
    var mine := [Tracked(entries[j])] + ItemsOf(entries[j], buffer, littleEndian);
    forall x | x in mine ensures x in r {
      assert x in multiset(mine);
    }
    assert Tracked(entries[j]) in mine;
  }

  // ---------------------------------------------------------------------
  // Changes inside changed sequences

  /** The backward loop of handleSequenceChanges from index i down, on the
   *  changes sorted by non-increasing offset. */
  function PruneFrom(changes: seq<Change>, i: int): (r: seq<Change>)
    requires -2 <= i < |changes|
    decreases i + 3, 1
  {
    if i < 0 then changes
    else if changes[i].entry.tagVR == "SQ" then
      SkipNested(changes, i, Add(Int(changes[i].entry.offset), changes[i].entry.byteLength))
    else PruneFrom(changes, i - 1)
  }

  /** The inner while with i at the sequence change: the condition
   *  `i - 1 >= 0 && changes[--i].entry.offset < sqOffset + sqLength` moves i
   *  down whenever i - 1 >= 0; a change that starts before the sequence's end
   *  is spliced out and i moves down once more, so the change after it is
   *  never compared; the loop's own `i--` follows the while. */
  function SkipNested(changes: seq<Change>, i: int, end: Num): (r: seq<Change>)
    requires -1 <= i < |changes|
    decreases i + 3, 0
  {
    if i - 1 < 0 then PruneFrom(changes, i - 1)
    else if Less(Int(changes[i - 1].entry.offset), end) then
      SkipNested(changes[..i - 1] + changes[i..], i - 2, end)
    else PruneFrom(changes, i - 2)
  }

  /** Pruning only drops changes. */
  lemma {:induction false} PruneFromDrops(changes: seq<Change>, i: int)
    requires -2 <= i < |changes|
    ensures multiset(PruneFrom(changes, i)) <= multiset(changes)
    decreases i + 3, 1
  {
    if i >= 0 {
      if changes[i].entry.tagVR == "SQ" {
        SkipNestedDrops(changes, i, Add(Int(changes[i].entry.offset), changes[i].entry.byteLength));
      } else {
        PruneFromDrops(changes, i - 1);
      }
    }
  }

  lemma {:induction false} SkipNestedDrops(changes: seq<Change>, i: int, end: Num)
    requires -1 <= i < |changes|
    ensures multiset(SkipNested(changes, i, end)) <= multiset(changes)
    decreases i + 3, 0
  {
    if i - 1 < 0 {
      PruneFromDrops(changes, i - 1);
    } else if Less(Int(changes[i - 1].entry.offset), end) {
      var spliced := changes[..i - 1] + changes[i..];
      SkipNestedDrops(spliced, i - 2, end);
      assert changes == changes[..i - 1] + [changes[i - 1]] + changes[i..];
    } else {
      PruneFromDrops(changes, i - 2);
    }
  }

  /** Without a sequence change nothing is dropped. */
  lemma {:induction false} PruneWithoutSequences(changes: seq<Change>, i: int)
    requires -2 <= i < |changes|
    requires forall k | 0 <= k < |changes| :: changes[k].entry.tagVR != "SQ"
    ensures PruneFrom(changes, i) == changes
    decreases i + 3
  {
    if i >= 0 {
      PruneWithoutSequences(changes, i - 1);
    }
  }

  /** A sequence change a followed, in decreasing offset order, by two changes
   *  inside it: the nearer one is dropped, the one after it is never compared
   *  and stays. */
  lemma PruneSkipsEveryOther(sq: Change, inner: Change, outer: Change)
    requires sq.entry.tagVR == "SQ" && inner.entry.tagVR != "SQ" && outer.entry.tagVR != "SQ"
    requires sq.entry.byteLength.Int?
    requires sq.entry.offset <= inner.entry.offset <= outer.entry.offset < sq.entry.offset + sq.entry.byteLength.i
    ensures PruneFrom([outer, inner, sq], 2) == [outer, sq]
  {
    var end := Add(Int(sq.entry.offset), sq.entry.byteLength);
    assert PruneFrom([outer, inner, sq], 2) == SkipNested([outer, inner, sq], 2, end);
    assert [outer, inner, sq][..1] + [outer, inner, sq][2..] == [outer, sq];
  }

  /** addSequences: one EDIT change for each tracked sequence. */
  function SequenceEdits(sequences: seq<Sequence>): seq<Change>
  {
    seq(|sequences|, k requires 0 <= k < |sequences| => Change(sequences[k].entry, Edited))
  }

  /** handleSequenceChanges: the changes sorted, those inside a changed
   *  sequence pruned as the loop does, an EDIT for every tracked sequence
   *  appended, and the list sorted twice more. */
  function HandledChanges(changes: seq<Change>, sequences: seq<Sequence>): seq<Change>
  {
    var sorted := SortDesc(changes, ChangeOffset);
    var pruned := PruneFrom(sorted, |sorted| - 1);
    SortDesc(SortDesc(pruned + SequenceEdits(sequences), ChangeOffset), ChangeOffset)
  }

  /** The handled list is in non-increasing offset order and is a permutation
   *  of the surviving changes plus one EDIT per tracked sequence; the
   *  survivors are among the original changes, and all of them survive when
   *  none is a sequence change. */
  lemma HandledChangesFacts(changes: seq<Change>, sequences: seq<Sequence>)
    ensures var sorted := SortDesc(changes, ChangeOffset);
            var pruned := PruneFrom(sorted, |sorted| - 1);
            var r := HandledChanges(changes, sequences);
            NonIncreasing(r, ChangeOffset) &&
            multiset(r) == multiset(pruned) + multiset(SequenceEdits(sequences)) &&
            multiset(pruned) <= multiset(changes) &&
            ((forall k | 0 <= k < |changes| :: changes[k].entry.tagVR != "SQ") ==> multiset(pruned) == multiset(changes)) &&
            forall k | 0 <= k < |sequences| :: Change(sequences[k].entry, Edited) in r
  {
    var sorted := SortDesc(changes, ChangeOffset);
    var pruned := PruneFrom(sorted, |sorted| - 1);
    var added := pruned + SequenceEdits(sequences);
    SortDescIdempotent(added, ChangeOffset);
    SortDescSorted(added, ChangeOffset);
    SortDescPermutes(added, ChangeOffset);
    SortDescPermutes(changes, ChangeOffset);
    PruneFromDrops(sorted, |sorted| - 1);
    if forall k | 0 <= k < |changes| :: changes[k].entry.tagVR != "SQ" {
      forall k | 0 <= k < |sorted| ensures sorted[k].entry.tagVR != "SQ" {
        assert sorted[k] in multiset(changes);
      }
      PruneWithoutSequences(sorted, |sorted| - 1);
    }
    var r := HandledChanges(changes, sequences);
    forall k | 0 <= k < |sequences| ensures Change(sequences[k].entry, Edited) in r {
      assert SequenceEdits(sequences)[k] in multiset(added);
    }
  }

  /** handleSequenceChanges, splicing the sorted array as it walks it
   *  backwards. */
  method HandleSequenceChanges(changes: seq<Change>, sequences: seq<Sequence>) returns (r: seq<Change>)
    ensures r == HandledChanges(changes, sequences)
  {
    var arr := OrderByOffset(changes, ChangeOffset);
    ghost var target := PruneFrom(arr, |arr| - 1);
    var i := |arr| - 1;
    while i >= 0
      invariant -2 <= i < |arr|
      invariant PruneFrom(arr, i) == target
      decreases i + 2
    {
      if arr[i].entry.tagVR == "SQ" {
        var sqOffset := arr[i].entry.offset;
        var sqLength := arr[i].entry.byteLength;
        var end := Add(Int(sqOffset), sqLength);
        var inside := false;
        if i - 1 >= 0 {
          i := i - 1;
          inside := Less(Int(arr[i].entry.offset), end);
        }
        while inside
          invariant -1 <= i < |arr|
          invariant inside ==> 0 <= i && target == SkipNested(arr[..i] + arr[i + 1..], i - 1, end)
          invariant !inside ==> target == PruneFrom(arr, i - 1)
          decreases i + 1
        {
          arr := arr[..i] + arr[i + 1..];
          i := i - 1;
          inside := false;
          if i - 1 >= 0 {
            i := i - 1;
            inside := Less(Int(arr[i].entry.offset), end);
          }
        }
      }
      i := i - 1;
    }
    r := AddSequences(arr, sequences);
    r := OrderByOffset(r, ChangeOffset);
  }

  /** addSequences: pushes an EDIT change for each tracked sequence, then
   *  orders the list. */
  method AddSequences(changes: seq<Change>, sequences: seq<Sequence>) returns (r: seq<Change>)
    ensures r == SortDesc(changes + SequenceEdits(sequences), ChangeOffset)
  {
    r := changes;
    for k := 0 to |sequences|
      invariant r == changes + SequenceEdits(sequences[..k])
    {
      assert SequenceEdits(sequences[..k + 1]) == SequenceEdits(sequences[..k]) + [Change(sequences[k].entry, Edited)];
      r := r + [Change(sequences[k].entry, Edited)];
    }
    assert sequences[..|sequences|] == sequences;
    r := OrderByOffset(r, ChangeOffset);
  }

  // ---------------------------------------------------------------------
  // Applying the changes

  /** getElementAndGroup: the four bytes at offset, as `slice` cuts them. */
  function ElementAndGroup(buffer: seq<byte>, offset: int): (r: seq<byte>)
    ensures |r| <= TU.GroupLen + TU.ElementLen
    ensures 0 <= offset && offset + 4 <= |buffer| ==> r == buffer[offset..offset + 4]
  {
    Slice(buffer, offset, offset + TU.GroupLen + TU.ElementLen)
  }

  /** The index of the first tracked sequence with the given id, |sequences|
   *  when there is none. */
  function FirstWithId(sequences: seq<Sequence>, id: int): (k: nat)
    ensures k <= |sequences|
    ensures k < |sequences| ==> sequences[k].entry.id == id
    ensures forall j | 0 <= j < k :: sequences[j].entry.id != id
    decreases |sequences|
  {
    if |sequences| == 0 || sequences[0].entry.id == id then 0
    else 1 + FirstWithId(sequences[1..], id)
  }

  /** `sequences.shift()` repeated until the record of the given id comes
   *  out: that record, if any, and what is left behind it. */
  method ShiftUntil(sequences: seq<Sequence>, id: int) returns (current: Option<Sequence>, rest: seq<Sequence>)
    ensures var k := FirstWithId(sequences, id);
            (k < |sequences| ==> current == Some(sequences[k]) && rest == sequences[k + 1..]) &&
            (k == |sequences| ==> current == None && rest == [])
  {
    rest := sequences;
    ghost var n := 0;
    current := None;
    if rest != [] {
      current := Some(rest[0]);
      rest := rest[1..];
      n := 1;
    }
    while current.Some? && current.value.entry.id != id
      invariant 0 <= n <= |sequences| && rest == sequences[n..]
      invariant current.Some? ==> n >= 1 && current.value == sequences[n - 1]
      invariant current.None? ==> n == |sequences|
      invariant forall j | 0 <= j < n - 1 :: sequences[j].entry.id != id
      invariant current.None? ==> forall j | 0 <= j < n :: sequences[j].entry.id != id
      decreases |rest|, current.Some?
    {
      current := None;
      if rest != [] {
        current := Some(rest[0]);
        rest := rest[1..];
        n := n + 1;
      }
    }
    if current.Some? {
      FirstWithIdIs(sequences, id, n - 1);
    } else {
      FirstWithIdIs(sequences, id, |sequences|);
    }
  }

  lemma FirstWithIdIs(sequences: seq<Sequence>, id: int, k: nat)
    requires k <= |sequences| && (k < |sequences| ==> sequences[k].entry.id == id)
    requires forall j | 0 <= j < k :: sequences[j].entry.id != id
    ensures FirstWithId(sequences, id) == k
  {
  }

  /** What stops applyAllChanges: the TypeError findOffsetForNewTag raises on
   *  a file without entries, and the RangeError of rewriteSQlength. */
  datatype ApplyError = NoEntries | LengthFieldOutOfRange

  /** The buffer and the tracked sequences between two changes. */
  datatype Progress = Progress(buffer: seq<byte>, sequences: seq<Sequence>)

  /** One pass of the forEach of applyAllChanges; every splice of the buffer
   *  also updates the tracked lengths. */
  function ApplyChange(p: Progress, change: Change, sortedEntries: seq<Entry>, littleEndian: bool,
                       floats: TU.FloatEncoder): (r: Result<Progress, ApplyError>)
  {
    var e := change.entry;
    match change.changeType
    case Added => ApplyAdd(p, change, sortedEntries, littleEndian, floats)
    case Edited =>
      if e.tagVR == "SQ" || e.tagVR == "item" then ApplySequenceEdit(p, e, littleEndian, floats)
      else Ok(ApplyEdit(p, change, littleEndian, floats))
    case Removed => Ok(Progress(RemoveTag(p.buffer, e), CheckedSequences(p.sequences, change, 0)))
    case Other => Ok(p)
  }

  /** An ADD: the element built from the entry's group and element, inserted
   *  where findOffsetForNewTag says (entries in ascending offset order). */
  function ApplyAdd(p: Progress, change: Change, sortedEntries: seq<Entry>, littleEndian: bool,
                    floats: TU.FloatEncoder): (r: Result<Progress, ApplyError>)
    ensures r.Err? <==> |sortedEntries| == 0
  {
    var e := change.entry;
    var newTag := NewTagBytes(TagName(e.tagGroup, e.tagElement, littleEndian, floats), e, littleEndian, floats);
    match NewTagOffset(sortedEntries, e)
    case None => Err(NoEntries)
    case Some(offset) =>
      Ok(Progress(InsertTag(p.buffer, newTag, IntegerOrZero(offset)), CheckedSequences(p.sequences, change, |newTag|)))
  }

  /** An EDIT of a sequence or item: tracked records are shifted off the list
   *  until its own, whose length field is rewritten when the tracked length
   *  moved. */
  function ApplySequenceEdit(p: Progress, e: Entry, littleEndian: bool, floats: TU.FloatEncoder)
    : (r: Result<Progress, ApplyError>)
    ensures r.Ok? ==> r.value.sequences == if FirstWithId(p.sequences, e.id) < |p.sequences|
                                           then p.sequences[FirstWithId(p.sequences, e.id) + 1..] else []
  {
    var k := FirstWithId(p.sequences, e.id);
    if k == |p.sequences| then Ok(Progress(p.buffer, []))
    else
      var current := p.sequences[k];
      var rest := p.sequences[k + 1..];
      if !StrictNotEqual(current.entry.byteLength, current.length) then Ok(Progress(p.buffer, rest))
      else
        match RewriteSQLength(p.buffer, current, littleEndian, floats)
        case None => Err(LengthFieldOutOfRange)
        case Some(b) => Ok(Progress(b, rest))
  }

  /** Any other EDIT: the element rebuilt under the group and element bytes
   *  found at its offset replaces the old one. */
  function ApplyEdit(p: Progress, change: Change, littleEndian: bool, floats: TU.FloatEncoder): (r: Progress)
  {
    var e := change.entry;
    var newTag := NewTagBytes(ElementAndGroup(p.buffer, e.offset), e, littleEndian, floats);
    Progress(ReplaceTag(p.buffer, e, newTag), CheckedSequences(p.sequences, change, |newTag|))
  }

  /** The forEach from change k on; the first exception ends it. */
  function ApplyFrom(p: Progress, changes: seq<Change>, k: nat, sortedEntries: seq<Entry>, littleEndian: bool,
                     floats: TU.FloatEncoder): (r: Result<seq<byte>, ApplyError>)
    requires k <= |changes|
    decreases |changes| - k
  {
    if k == |changes| then Ok(p.buffer)
    else
      match ApplyChange(p, changes[k], sortedEntries, littleEndian, floats)
      case Err(error) => Err(error)
      case Ok(q) => ApplyFrom(q, changes, k + 1, sortedEntries, littleEndian, floats)
  }

  /** applyAllChanges: the byte order from the entries, the sequences the
   *  entries hold, the pending changes handled against them, then each
   *  change in turn. */
  function AppliedChanges(bufferedData: seq<byte>, unsavedChanges: seq<Change>, entries: seq<Entry>,
                          floats: TU.FloatEncoder): (r: Result<seq<byte>, ApplyError>)
  {
    var littleEndian := Endian(entries);
    var sequences := SequencesSeen([], entries, bufferedData, littleEndian).returned;
    ApplyFrom(Progress(bufferedData, sequences), HandledChanges(unsavedChanges, sequences), 0,
              SortDesc(entries, AscendingOffset), littleEndian, floats)
  }

  /** The file applyAllChanges works on: its bytes, its pending changes, and
   *  its parsed entries, which findOffsetForNewTag sorts in place. */
  class DicomFile {
    var bufferedData: seq<byte>
    var unsavedChanges: seq<Change>
    const entries: array<Entry>

    constructor(bufferedData: seq<byte>, unsavedChanges: seq<Change>, entries: seq<Entry>)
      ensures this.bufferedData == bufferedData && this.unsavedChanges == unsavedChanges
      ensures this.entries[..] == entries && fresh(this.entries)
    {
      this.bufferedData := bufferedData;
      this.unsavedChanges := unsavedChanges;
      this.entries := new Entry[|entries|](i requires 0 <= i < |entries| => entries[i]);
    }
  }

  /** One change, as the body of the forEach does it. */
  method ApplyOneChange(entries: array<Entry>, p: Progress, change: Change, littleEndian: bool,
                        floats: TU.FloatEncoder) returns (r: Result<Progress, ApplyError>)
    modifies entries
    ensures r == ApplyChange(p, change, SortDesc(old(entries[..]), AscendingOffset), littleEndian, floats)
    ensures entries[..] == old(entries[..]) || entries[..] == SortDesc(old(entries[..]), AscendingOffset)
  {
    var e := change.entry;
    match change.changeType {
      case Added =>
        r := AddTag(entries, p, change, littleEndian, floats);
      case Edited =>
        if e.tagVR == "SQ" || e.tagVR == "item" {
          r := EditSequence(p, e, littleEndian, floats);
        } else {
          var tagName := ElementAndGroup(p.buffer, e.offset);
          var newTag := CreateTag(tagName, e, littleEndian, floats);
          r := Ok(Progress(ReplaceTag(p.buffer, e, newTag), CheckedSequences(p.sequences, change, |newTag|)));
        }
      case Removed =>
        r := Ok(Progress(RemoveTag(p.buffer, e), CheckedSequences(p.sequences, change, 0)));
      case Other =>
        r := Ok(p);
    }
  }

  /** The ADD branch: createTag, then findOffsetForNewTag, which sorts the
   *  entries in place. */
  method AddTag(entries: array<Entry>, p: Progress, change: Change, littleEndian: bool, floats: TU.FloatEncoder)
    returns (r: Result<Progress, ApplyError>)
    modifies entries
    ensures r == ApplyAdd(p, change, SortDesc(old(entries[..]), AscendingOffset), littleEndian, floats)
    ensures entries[..] == SortDesc(old(entries[..]), AscendingOffset)
  {
    var e := change.entry;
    var newTagName := TagName(e.tagGroup, e.tagElement, littleEndian, floats);
    var newTag := CreateTag(newTagName, e, littleEndian, floats);
    var offset := FindOffsetForNewTag(entries, e);
    if offset.None? {
      return Err(NoEntries);
    }
    r := Ok(Progress(InsertTag(p.buffer, newTag, IntegerOrZero(offset.value)),
                     CheckedSequences(p.sequences, change, |newTag|)));
  }

  /** The EDIT branch for a sequence or an item. */
  method EditSequence(p: Progress, e: Entry, littleEndian: bool, floats: TU.FloatEncoder)
    returns (r: Result<Progress, ApplyError>)
    ensures r == ApplySequenceEdit(p, e, littleEndian, floats)
  {
    var currentSequence, rest := ShiftUntil(p.sequences, e.id);
    var buffer := p.buffer;
    if currentSequence.Some? && StrictNotEqual(currentSequence.value.entry.byteLength, currentSequence.value.length) {
      var rewritten := RewriteSQLength(buffer, currentSequence.value, littleEndian, floats);
      if rewritten.None? {
        return Err(LengthFieldOutOfRange);
      }
      buffer := rewritten.value;
    }
    r := Ok(Progress(buffer, rest));
  }

  /** applyAllChanges: returns the new bytes, or the exception that stopped
   *  it. The file's pending changes end up as the handled list, since the
   *  sorting, splicing and pushing happen on that very array, and its entries
   *  are left sorted by ascending offset once an ADD has been reached. */
  method ApplyAllChanges(file: DicomFile, floats: TU.FloatEncoder) returns (r: Result<seq<byte>, ApplyError>)
    modifies file, file.entries
    ensures r == AppliedChanges(old(file.bufferedData), old(file.unsavedChanges), old(file.entries[..]), floats)
    ensures file.bufferedData == old(file.bufferedData)
    ensures file.unsavedChanges ==
              HandledChanges(old(file.unsavedChanges),
                             SequencesSeen([], old(file.entries[..]), old(file.bufferedData),
                                           Endian(old(file.entries[..]))).returned)
    ensures file.entries[..] == old(file.entries[..]) ||
            file.entries[..] == SortDesc(old(file.entries[..]), AscendingOffset)
  {
    var littleEndian := GetEndian(file.entries[..]);
    var _, sequences := GetSequences([], file.entries[..], file.bufferedData, littleEndian);
    var changes := HandleSequenceChanges(file.unsavedChanges, sequences);
    file.unsavedChanges := changes;
    r := ApplyEach(file.entries, Progress(file.bufferedData, sequences), changes, littleEndian, floats);
  }

  /** The loop of applyAllChanges: each change in turn, the first error
   *  ending it; the first ADD sorts the entries in place. */
  method ApplyEach(entries: array<Entry>, p: Progress, changes: seq<Change>, littleEndian: bool,
                   floats: TU.FloatEncoder) returns (r: Result<seq<byte>, ApplyError>)
    modifies entries
    ensures r == ApplyFrom(p, changes, 0, SortDesc(old(entries[..]), AscendingOffset), littleEndian, floats)
    ensures entries[..] == old(entries[..]) || entries[..] == SortDesc(old(entries[..]), AscendingOffset)
  {
    ghost var entries0 := entries[..];
    ghost var sorted := SortDesc(entries0, AscendingOffset);
    var buffer := p.buffer;
    var sequences := p.sequences;
    SortDescIdempotent(entries0, AscendingOffset);
    for k := 0 to |changes|
      invariant entries[..] == entries0 || entries[..] == sorted
      invariant ApplyFrom(Progress(buffer, sequences), changes, k, sorted, littleEndian, floats) ==
                ApplyFrom(p, changes, 0, sorted, littleEndian, floats)
    {
      var step := ApplyOneChange(entries, Progress(buffer, sequences), changes[k], littleEndian, floats);
      if step.Err? {
        return Err(step.error);
      }
      buffer := step.value.buffer;
      sequences := step.value.sequences;
    }
    r := Ok(buffer);
  }

  // ---------------------------------------------------------------------
  // What applying the changes does

  /** A tracked record as getSequences makes them: a sequence or an item
   *  whose tracked length is still the parsed one. */
  predicate Record(s: Sequence)
  {
    Untouched(s) && (s.entry.tagVR == "SQ" || s.entry.tagVR == "item")
  }

  /** The caller's array holds records only, if it did before. */
  lemma SequencesSeenPassedRecords(sequences: seq<Sequence>, entries: seq<Entry>, buffer: seq<byte>,
                                   littleEndian: bool)
    requires forall s | s in sequences :: Record(s)
    ensures forall s | s in SequencesSeen(sequences, entries, buffer, littleEndian).passed :: Record(s)
  {
    SequencesSeenPassed(sequences, entries, buffer, littleEndian);
    SortDescPermutes(sequences, SequenceOffset);
    var passed := SequencesSeen(sequences, entries, buffer, littleEndian).passed;
    forall s | s in passed ensures Record(s) {
      if FirstSequenceFrom(entries, 0) == |entries| {
        assert s in multiset(sequences);
      }
    }
  }

  lemma {:induction false} GatherRecords(g: Gathering, entries: seq<Entry>, k: nat, buffer: seq<byte>,
                                         littleEndian: bool)
    requires k <= |entries|
    requires forall s | s in g.passed :: Record(s)
    requires forall s | s in g.local :: Record(s)
    ensures var r := GatherFrom(g, entries, k, buffer, littleEndian);
            (forall s | s in r.passed :: Record(s)) && (forall s | s in r.local :: Record(s))
    decreases |entries| - k
  {
    if k < |entries| {
      if entries[k].tagVR != "SQ" {
        GatherRecords(g, entries, k + 1, buffer, littleEndian);
      } else {
        var e := entries[k];
        var pushed := g.local + [Tracked(e)];
        var items := ItemsOf(e, buffer, littleEndian);
        forall s | s in items ensures Record(s) {
          var i :| 0 <= i < |items| && items[i] == s;
          ItemsInWithin(buffer, littleEndian, e.offset + TU.LongHeaderLen, Add(Int(e.offset), e.byteLength), i);
        }
        var concatenated := pushed + items;
        SequencesSeenPassedRecords(concatenated, e.sequence, buffer, littleEndian);
        var nested := SequencesSeen(concatenated, e.sequence, buffer, littleEndian).passed;
        GatherRecords(Gathering(if g.aliased then pushed else g.passed, nested, false), entries, k + 1, buffer,
                      littleEndian);
      }
    }
  }

  /** Every record getSequences returns is a sequence or an item whose
   *  tracked length equals its parsed length. */
  lemma SeenRecords(entries: seq<Entry>, buffer: seq<byte>, littleEndian: bool)
    ensures forall s | s in SequencesSeen([], entries, buffer, littleEndian).returned :: Record(s)
  {
    var g := GatherFrom(Gathering([], [], true), entries, 0, buffer, littleEndian);
    GatherRecords(Gathering([], [], true), entries, 0, buffer, littleEndian);
    SortDescPermutes(g.local, SequenceOffset);
    forall s | s in SortDesc(g.local, SequenceOffset) ensures Record(s) {
      assert s in multiset(g.local);
    }
  }

  /** EDITs of sequences and items leave the bytes alone while every record
   *  still left on the list has a known, unchanged length. */
  lemma {:induction false} ApplyFromUnchanged(p: Progress, changes: seq<Change>, k: nat, sortedEntries: seq<Entry>,
                                              littleEndian: bool, floats: TU.FloatEncoder)
    requires k <= |changes|
    requires forall s | s in p.sequences :: Record(s) && s.length.Int?
    requires forall j | k <= j < |changes| :: changes[j].changeType == Edited &&
                                              (changes[j].entry.tagVR == "SQ" || changes[j].entry.tagVR == "item")
    ensures ApplyFrom(p, changes, k, sortedEntries, littleEndian, floats) == Ok(p.buffer)
    decreases |changes| - k
  {
    if k < |changes| {
      var i := FirstWithId(p.sequences, changes[k].entry.id);
      var rest := if i < |p.sequences| then p.sequences[i + 1..] else [];
      if i < |p.sequences| {
        assert p.sequences[i] in p.sequences;
      }
      forall s | s in rest ensures Record(s) && s.length.Int? {
        var t :| 0 <= t < |rest| && rest[t] == s;
        assert s == p.sequences[i + 1 + t];
      }
      var q := Progress(p.buffer, rest);
      assert ApplyChange(p, changes[k], sortedEntries, littleEndian, floats) == Ok(q);
      ApplyFromUnchanged(q, changes, k + 1, sortedEntries, littleEndian, floats);
    }
  }

  /** With nothing to save, applyAllChanges gives back the file's own bytes,
   *  provided every tracked record has a known length (a NaN length is never
   *  strictly equal to itself and would be rewritten). */
  lemma AppliedNoChanges(buffer: seq<byte>, entries: seq<Entry>, floats: TU.FloatEncoder)
    requires forall s | s in SequencesSeen([], entries, buffer, Endian(entries)).returned :: s.length.Int?
    ensures AppliedChanges(buffer, [], entries, floats) == Ok(buffer)
  {
    var littleEndian := Endian(entries);
    var sequences := SequencesSeen([], entries, buffer, littleEndian).returned;
    SeenRecords(entries, buffer, littleEndian);
    HandledRecordEdits(sequences);
    ApplyFromUnchanged(Progress(buffer, sequences), HandledChanges([], sequences), 0,
                       SortDesc(entries, AscendingOffset), littleEndian, floats);
  }

  /** With no pending changes, the handled list holds only the EDITs of the
   *  tracked sequences and items. */
  lemma HandledRecordEdits(sequences: seq<Sequence>)
    requires forall s | s in sequences :: Record(s)
    ensures var handled := HandledChanges([], sequences);
            forall j | 0 <= j < |handled| ::
              handled[j].changeType == Edited && (handled[j].entry.tagVR == "SQ" || handled[j].entry.tagVR == "item")
  {
    var handled := HandledChanges([], sequences);
    var edits := SequenceEdits(sequences);
    HandledChangesFacts([], sequences);
    var pruned := PruneFrom(SortDesc([], ChangeOffset), -1);
    assert multiset(pruned) == multiset{};
    assert multiset(handled) == multiset(edits);
    forall j | 0 <= j < |handled|
      ensures handled[j].changeType == Edited && (handled[j].entry.tagVR == "SQ" || handled[j].entry.tagVR == "item")
    {
      assert handled[j] in multiset(handled);
      var i :| 0 <= i < |edits| && edits[i] == handled[j];
      assert sequences[i] in sequences;
    }
  }

  /** getSequences finds nothing to track among entries without a
   *  sequence. */
  lemma NothingTracked(entries: seq<Entry>, buffer: seq<byte>, littleEndian: bool)
    requires forall k | 0 <= k < |entries| :: entries[k].tagVR != "SQ"
    ensures SequencesSeen([], entries, buffer, littleEndian).returned == []
  {
    GatherPassed(Gathering([], [], true), entries, 0, buffer, littleEndian);
  }

  /** Without sequence changes and tracked sequences, handleSequenceChanges
   *  only sorts the changes. */
  lemma HandledWithoutSequences(changes: seq<Change>)
    requires forall k | 0 <= k < |changes| :: changes[k].entry.tagVR != "SQ"
    ensures HandledChanges(changes, []) == SortDesc(changes, ChangeOffset)
  {
    var sorted := SortDesc(changes, ChangeOffset);
    SortDescPermutes(changes, ChangeOffset);
    forall k | 0 <= k < |sorted| ensures sorted[k].entry.tagVR != "SQ" {
      assert sorted[k] in multiset(changes);
    }
    PruneWithoutSequences(sorted, |sorted| - 1);
    assert sorted + SequenceEdits([]) == sorted;
    SortDescIdempotent(changes, ChangeOffset);
    SortDescIdempotent(sorted, ChangeOffset);
  }

  /** A file without sequences tracks nothing, and its changes, none of which
   *  is a sequence change, are applied one by one from the highest offset
   *  down. */
  lemma AppliedWithoutSequences(buffer: seq<byte>, changes: seq<Change>, entries: seq<Entry>, floats: TU.FloatEncoder)
    requires forall k | 0 <= k < |entries| :: entries[k].tagVR != "SQ"
    requires forall k | 0 <= k < |changes| :: changes[k].entry.tagVR != "SQ"
    ensures AppliedChanges(buffer, changes, entries, floats) ==
            ApplyFrom(Progress(buffer, []), SortDesc(changes, ChangeOffset), 0, SortDesc(entries, AscendingOffset),
                      Endian(entries), floats)
  {
    NothingTracked(entries, buffer, Endian(entries));
    HandledWithoutSequences(changes);
  }

  /** A single change is applied and its buffer returned. */
  lemma ApplyOne(p: Progress, changes: seq<Change>, sortedEntries: seq<Entry>, littleEndian: bool,
                 floats: TU.FloatEncoder)
    requires |changes| == 1
    ensures var r := ApplyChange(p, changes[0], sortedEntries, littleEndian, floats);
            ApplyFrom(p, changes, 0, sortedEntries, littleEndian, floats) ==
            if r.Err? then Err(r.error) else Ok(r.value.buffer)
  {
  }

  /** A single change that is no sequence change is left as it is. */
  lemma HandledSingle(changes: seq<Change>)
    requires |changes| == 1 && changes[0].entry.tagVR != "SQ"
    ensures HandledChanges(changes, []) == changes
  {
    HandledWithoutSequences(changes);
    SortDescOfSorted(changes, ChangeOffset);
  }

  /** A single change to a file without sequences is that change applied to
   *  the file's bytes, with the entries in ascending offset order. */
  lemma AppliedSingle(buffer: seq<byte>, changes: seq<Change>, entries: seq<Entry>, floats: TU.FloatEncoder)
    requires forall k | 0 <= k < |entries| :: entries[k].tagVR != "SQ"
    requires |changes| == 1 && changes[0].entry.tagVR != "SQ"
    ensures AppliedChanges(buffer, changes, entries, floats) ==
            ApplyFrom(Progress(buffer, []), changes, 0, SortDesc(entries, AscendingOffset), Endian(entries), floats)
  {
    NothingTracked(entries, buffer, Endian(entries));
    HandledSingle(changes);
  }

  /** Removing one element from a file without sequences cuts exactly that
   *  element out. */
  lemma AppliedRemoval(buffer: seq<byte>, tag: Entry, entries: seq<Entry>, floats: TU.FloatEncoder)
    requires forall k | 0 <= k < |entries| :: entries[k].tagVR != "SQ"
    requires tag.tagVR != "SQ"
    ensures AppliedChanges(buffer, [Change(tag, Removed)], entries, floats) == Ok(RemoveTag(buffer, tag))
  {
    AppliedSingle(buffer, [Change(tag, Removed)], entries, floats);
    ApplyOne(Progress(buffer, []), [Change(tag, Removed)], SortDesc(entries, AscendingOffset), Endian(entries), floats);
  }

  /** Editing one element of a file without sequences replaces it by the
   *  element rebuilt under the group and element bytes at its offset. */
  lemma AppliedEdit(buffer: seq<byte>, tag: Entry, entries: seq<Entry>, floats: TU.FloatEncoder)
    requires forall k | 0 <= k < |entries| :: entries[k].tagVR != "SQ"
    requires tag.tagVR != "SQ" && tag.tagVR != "item"
    ensures AppliedChanges(buffer, [Change(tag, Edited)], entries, floats) ==
            Ok(ReplaceTag(buffer, tag, NewTagBytes(ElementAndGroup(buffer, tag.offset), tag, Endian(entries), floats)))
  {
    AppliedSingle(buffer, [Change(tag, Edited)], entries, floats);
    ApplyOne(Progress(buffer, []), [Change(tag, Edited)], SortDesc(entries, AscendingOffset), Endian(entries), floats);
  }

  /** Adding an element to a file with no parsed entries stops with the
   *  TypeError of findOffsetForNewTag. */
  lemma AppliedAdditionWithoutEntries(buffer: seq<byte>, tag: Entry, floats: TU.FloatEncoder)
    requires tag.tagVR != "SQ"
    ensures AppliedChanges(buffer, [Change(tag, Added)], [], floats) == Err(NoEntries)
  {
    AppliedSingle(buffer, [Change(tag, Added)], [], floats);
    ApplyOne(Progress(buffer, []), [Change(tag, Added)], SortDesc([], AscendingOffset), Endian([]), floats);
  }

  /** Adding one element to a file without sequences inserts the element built
   *  from its group and element at the offset findOffsetForNewTag picks. */
  lemma {:induction false} AppliedAddition(buffer: seq<byte>, tag: Entry, entries: seq<Entry>, floats: TU.FloatEncoder,
                                           newTag: seq<byte>, offset: Num)
    requires forall k | 0 <= k < |entries| :: entries[k].tagVR != "SQ"
    requires tag.tagVR != "SQ"
    requires newTag == NewTagBytes(TagName(tag.tagGroup, tag.tagElement, Endian(entries), floats), tag,
                                   Endian(entries), floats)
    requires NewTagOffset(SortDesc(entries, AscendingOffset), tag) == Some(offset)
    ensures AppliedChanges(buffer, [Change(tag, Added)], entries, floats) == Ok(InsertTag(buffer, newTag, IntegerOrZero(offset)))
  {
    AppliedSingle(buffer, [Change(tag, Added)], entries, floats);
    AddOnlyInserts(Progress(buffer, []), [Change(tag, Added)], SortDesc(entries, AscendingOffset), Endian(entries), floats,
                   newTag, offset);
  }

  /** A lone ADD whose insertion point is found inserts the created tag there. */
  lemma AddOnlyInserts(p: Progress, changes: seq<Change>, sortedEntries: seq<Entry>, littleEndian: bool,
                       floats: TU.FloatEncoder, newTag: seq<byte>, offset: Num)
    requires |changes| == 1 && changes[0].changeType == Added
    requires newTag == NewTagBytes(TagName(changes[0].entry.tagGroup, changes[0].entry.tagElement, littleEndian, floats),
                                   changes[0].entry, littleEndian, floats)
    requires NewTagOffset(sortedEntries, changes[0].entry) == Some(offset)
    ensures ApplyFrom(p, changes, 0, sortedEntries, littleEndian, floats) == Ok(InsertTag(p.buffer, newTag, IntegerOrZero(offset)))
  {
    ApplyOne(p, changes, sortedEntries, littleEndian, floats);
    AddInserts(p, changes[0], sortedEntries, littleEndian, floats, newTag, offset);
  }

  /** An ADD whose insertion point is found inserts the created tag there. */
  lemma AddInserts(p: Progress, change: Change, sortedEntries: seq<Entry>, littleEndian: bool,
                   floats: TU.FloatEncoder, newTag: seq<byte>, offset: Num)
    requires change.changeType == Added
    requires newTag == NewTagBytes(TagName(change.entry.tagGroup, change.entry.tagElement, littleEndian, floats),
                                   change.entry, littleEndian, floats)
    requires NewTagOffset(sortedEntries, change.entry) == Some(offset)
    ensures ApplyChange(p, change, sortedEntries, littleEndian, floats).Ok?
    ensures ApplyChange(p, change, sortedEntries, littleEndian, floats).value.buffer ==
            InsertTag(p.buffer, newTag, IntegerOrZero(offset))
  {
  }
}
