/** The current splice-based tag editor (src/DataFunctions/DicomData/TagUpdater.ts).
 *  Each pending edit either cuts a data element out of the file's bytes,
 *  appends a newly encoded element, or replaces an element in place; after
 *  every edit the bytes are parsed again and the next edit works on the new
 *  element table. The DICOM parser is a parameter. */
module TagUpdater {
  import opened Wrappers
  import opened JsNumber
  import opened JsBytes
  import opened JsString
  import opened DicomTypes

  /** The value representations held as numbers, in declaration order. */
  const Numbers: seq<string> := ["FD", "FL", "UL", "US", "SL", "SS"]

  /** The value representations given a 12-byte header, in declaration order. */
  const LongHeaderVRs: seq<string> := ["VR", "OB", "OD", "OF", "OL", "OW", "SQ", "UC", "UR", "UT", "UN"]

  const GroupLen: nat := 2
  const ElementLen: nat := 2
  const VrLen: nat := 2
  const LengthLen: nat := 2
  const LongHeaderLengthLen: nat := 4
  const HeaderLen: nat := 8
  const LongHeaderLen: nat := 12
  const VrOffset: nat := 4
  const LengthOffset: nat := 6

  /** `key in E` for a numeric TypeScript enum E declared with the given member
   *  names: the enum object holds each name and, for the reverse mapping, the
   *  decimal spelling of each member's index. */
  predicate InEnum(key: string, names: seq<string>)
  {
    key in names || exists k | 0 <= k < |names| :: key == NatToString(k)
  }

  /** A key that does not start with a digit is an enum key exactly when it is
   *  one of the member names. */
  lemma InEnumOfName(key: string, names: seq<string>)
    requires key != [] && !('0' <= key[0] <= '9')
    ensures InEnum(key, names) <==> key in names
  {
    forall k | 0 <= k < |names| ensures key != NatToString(k) {
      var s := NatToString(k);
      assert '0' <= s[0] <= '9';
    }
  }

  /** The record each pending edit is turned into before any byte is touched. */
  datatype InsertRecord = InsertRecord(
    tagId: string, newValue: string, vr: string, dataOffSet: nat, length: nat,
    delete: bool, add: bool)

  /** An edit's record: the VR and value offset come from the element table of
   *  the file as it was before any edit, with "ST" and 0 when the tag is absent
   *  or its VR is empty. */
  function BuildRecord(ds: DataSet, edit: TableUpdateData): (rec: InsertRecord)
  {
    var key := ToLower(edit.tagId);
    InsertRecord(
      edit.tagId, edit.newValue,
      if key in ds.elements && ds.elements[key].vr != "" then ds.elements[key].vr else "ST",
      if key in ds.elements then ds.elements[key].dataOffset else 0,
      |edit.newValue|, edit.delete, edit.add)
  }

  /** The group and element bytes of a tag id "xGGGGEEEE": group and element
   *  are read as hexadecimal. */
  function TagIdBytes(tagId: string): (r: seq<byte>)
    ensures |r| == GroupLen + ElementLen
  {
    var group := ParseInt(Slice(tagId, 1, 5), Hexadecimal);
    var element := ParseInt(SliceFrom(tagId, 5), Hexadecimal);
    WordBytes(group) + WordBytes(element)
  }

  /** `[n, n >> 8]` stored into a Uint8Array. */
  function WordBytes(n: Num): (r: seq<byte>)
    ensures |r| == 2
  {
    [ToUint8(n), ToUint8(Int(ShiftRight8(n)))]
  }

  /** For a well-formed id the bytes are the little-endian group followed by the
   *  little-endian element. */
  lemma TagIdBytesOfHexId(tagId: string)
    requires |tagId| == 9 && AllDigits(tagId[1..5], 16) && AllDigits(tagId[5..], 16)
    ensures var g := DigitsValue(tagId[1..5], 16);
            var e := DigitsValue(tagId[5..], 16);
            var r := TagIdBytes(tagId);
            r[0] as int == g % 256 && r[1] as int == g / 256 &&
            r[2] as int == e % 256 && r[3] as int == e / 256
  {
    var gs, es := tagId[1..5], tagId[5..];
    assert Slice(tagId, 1, 5) == gs;
    assert SliceFrom(tagId, 5) == es;
    var gw, ew := WordBytes(ParseInt(gs, Hexadecimal)), WordBytes(ParseInt(es, Hexadecimal));
    assert TagIdBytes(tagId) == gw + ew;
    HexWordBytes(gs);
    HexWordBytes(es);
  }

  /** Four hexadecimal digits parse to a 16-bit value whose two bytes are its
   *  low byte and its high byte. */
  lemma HexWordBytes(s: string)
    requires |s| == 4 && AllDigits(s, 16)
    ensures var v := DigitsValue(s, 16);
            var w := WordBytes(ParseInt(s, Hexadecimal));
            w[0] as int == v % 256 && w[1] as int == v / 256
  {
    ParseIntDigits(s, Hexadecimal);
    HexDigitsBound(s);
    assert Pow16(4) == 65536;
  }

  // ---------------------------------------------------------------------
  // Value lengths

  /** The number of right shifts by 8, each applied with `>>`, that leave a
   *  positive value, starting from v. */
  function Shifts(v: int): (k: nat)
    decreases if v > 0 then v else 0
  {
    if v > 0 then 1 + Shifts(ShiftRight8(Int(v))) else 0
  }

  /** The byte count the shifting loop of getValueLength reaches for a parsed
   *  value: one byte, plus one for every shift by 8 that leaves a positive
   *  value. */
  function MinimalByteLength(n: Num): (b: nat)
    ensures b >= 1
  {
    1 + Shifts(ShiftRight8(n))
  }

  /** For a non-negative 32-bit value the count is the fewest bytes that hold
   *  it; NaN and negative 32-bit values count one byte. */
  lemma MinimalByteLengthBounds(n: Num)
    ensures n.Int? && 0 <= n.i < Two31 ==>
              n.i < Pow256(MinimalByteLength(n)) &&
              (MinimalByteLength(n) == 1 || Pow256(MinimalByteLength(n) - 1) <= n.i)
    ensures n.NaN? || -Two31 <= n.i < 0 ==> MinimalByteLength(n) == 1
  {
    if n.Int? && 0 <= n.i < Two31 {
      ShiftsBounds(n.i / 256);
    }
    if n.Int? && -Two31 <= n.i < 0 {
      assert ShiftRight8(n) < 0;
    }
  }

  lemma {:induction false} ShiftsBounds(v: int)
    requires 0 <= v < Two31
    ensures v < Pow256(Shifts(v))
    ensures Shifts(v) > 0 ==> Pow256(Shifts(v) - 1) <= v
    decreases v
  {
    if v > 0 {
      assert ShiftRight8(Int(v)) == v / 256;
      ShiftsBounds(v / 256);
    }
  }

  /** The word size the padding step uses, chosen by the VR's second letter. */
  function WordSize(vr: string): (w: nat)
  {
    if |vr| < 2 then 1
    else if vr[1] == 'S' then 2
    else if vr[1] == 'L' then 4
    else if vr[1] == 'D' then 8
    else 1
  }

  /** The padding step: a whole word is added even to an aligned count. */
  function PadToWord(b: nat, vr: string): (r: nat)
  {
    var w := WordSize(vr);
    if w == 1 then b else b + (w - b % w)
  }

  /** getValueLength: the padded byte count for a numeric VR, 4 for AT, and
   *  the value's length otherwise. */
  function ValueLength(vr: string, newValue: string): (n: nat)
  {
    if InEnum(vr, Numbers) then PadToWord(MinimalByteLength(ParseInt(newValue, Decimal)), vr)
    else if vr == "AT" then 4
    else |newValue|
  }

  /** A numeric VR's length is a multiple of its word size, strictly above the
   *  minimal byte count and at most one word above it. */
  lemma ValueLengthNumeric(vr: string, newValue: string)
    requires vr in Numbers
    ensures var b := MinimalByteLength(ParseInt(newValue, Decimal));
            var n := ValueLength(vr, newValue);
            WordSize(vr) > 1 && n % WordSize(vr) == 0 && b < n <= b + WordSize(vr) && WordSize(vr) <= n
  {
    PadToWordNumeric(MinimalByteLength(ParseInt(newValue, Decimal)), vr);
  }

  lemma PadToWordNumeric(b: nat, vr: string)
    requires vr in Numbers
    ensures var n := PadToWord(b, vr);
            WordSize(vr) > 1 && n % WordSize(vr) == 0 && b < n <= b + WordSize(vr) && WordSize(vr) <= n
  {
    var w := WordSize(vr);
    assert w == 2 || w == 4 || w == 8;
    PadFacts(b, w);
  }

  lemma PadFacts(b: nat, w: nat)
    requires w > 1
    ensures var n := b + (w - b % w); n % w == 0 && b < n <= b + w && w <= n
  {
    DivModUnique(b + (w - b % w), w, b / w + 1, 0);
  }

  /** For any other two-letter VR the length is 4 for AT and the value's length
   *  otherwise. */
  lemma ValueLengthText(vr: string, newValue: string)
    requires |vr| == 2 && 'A' <= vr[0] <= 'Z' && vr !in Numbers
    ensures ValueLength(vr, newValue) == if vr == "AT" then 4 else |newValue|
  {
    InEnumOfName(vr, Numbers);
  }

  /** getValueLength, with its shifting loop. */
  method GetValueLength(vr: string, newValue: string) returns (n: nat)
    ensures n == ValueLength(vr, newValue)
  {
    if InEnum(vr, Numbers) {
      var parsed := ParseInt(newValue, Decimal);
      var byteLength: nat := 1;
      var value := Int(ShiftRight8(parsed));
      while value.i > 0
        invariant value.Int? && byteLength + Shifts(value.i) == MinimalByteLength(parsed)
        decreases if value.i > 0 then value.i else 0
      {
        byteLength := byteLength + 1;
        value := Int(ShiftRight8(value));
      }
      if |vr| >= 2 && vr[1] == 'S' {
        byteLength := byteLength + (2 - byteLength % 2);
      } else if |vr| >= 2 && vr[1] == 'L' {
        byteLength := byteLength + (4 - byteLength % 4);
      } else if |vr| >= 2 && vr[1] == 'D' {
        byteLength := byteLength + (8 - byteLength % 8);
      }
      n := byteLength;
    } else if vr == "AT" {
      n := 4;
    } else {
      n := |newValue|;
    }
  }

  // ---------------------------------------------------------------------
  // Number and VR encodings

  /** The DataView writer writeTypedNumber selects by its type argument;
   *  `Unnamed` is any other type string, which writes nothing. */
  datatype NumberType = Uint16 | Uint32 | Int8 | Int16 | Int32 | Float32 | Float64 | Unnamed
  {
    predicate IsInteger() { this != Float32 && this != Float64 }
  }

  /** The number of bytes a writer stores. */
  function Width(t: NumberType): (w: nat)
  {
    match t
    case Uint16 => 2
    case Uint32 => 4
    case Int8 => 1
    case Int16 => 2
    case Int32 => 4
    case Float32 => 4
    case Float64 => 8
    case Unnamed => 0
  }

  /** The IEEE 754 encoding of a number in 4 or 8 bytes in the given byte order. */
  type FloatEncoder = (Num, nat, bool) -> seq<byte>

  /** bs cut or zero-padded to exactly width bytes. */
  function Fit(bs: seq<byte>, width: nat): (r: seq<byte>)
    ensures |r| == width
  {
    seq(width, i requires 0 <= i < width => if i < |bs| then bs[i] else 0 as byte)
  }

  /** writeTypedNumber: a zeroed buffer of arrayLength bytes with the number
   *  stored at offset 0. DataView throws a RangeError (None) when the buffer
   *  is too short for the type. An integer type stores the number modulo
   *  256^width; NaN stores 0. */
  function WriteTypedNumber(num: Num, t: NumberType, arrayLength: nat, littleEndian: bool,
                            floats: FloatEncoder): (r: Option<seq<byte>>)
    ensures r.Some? <==> Width(t) <= arrayLength
    ensures r.Some? ==> |r.value| == arrayLength
    ensures r.Some? ==> forall i | Width(t) <= i < arrayLength :: r.value[i] == 0
    ensures r.Some? && t.IsInteger() ==>
              UnsignedValue(r.value[..Width(t)], littleEndian) == IntegerOrZero(num) % Pow256(Width(t))
  {
    if arrayLength < Width(t) then None
    else
      var bytes := if t.IsInteger() then IntBytes(num, Width(t), littleEndian)
                   else Fit(floats(num, Width(t), littleEndian), Width(t));
      var r := Overlay(Zeros(arrayLength), 0, bytes);
      assert r[..Width(t)] == bytes;
      Some(r)
  }

  /** writeVRArray: the two VR characters as bytes, 0 for a missing character. */
  function VRBytes(vr: string): (r: seq<byte>)
    ensures |r| == VrLen
    ensures forall i | 0 <= i < VrLen ::
              r[i] as int == if i < |vr| then vr[i] as int % 256 else 0
  {
    [ToUint8(CharCodeAt(vr, 0)), ToUint8(CharCodeAt(vr, 1))]
  }

  /** writeVRArray, with its loop over the two characters. */
  method WriteVRArray(vr: string) returns (r: seq<byte>)
    ensures r == VRBytes(vr)
  {
    var vrArray := new byte[VrLen](_ => 0);
    for i := 0 to 2
      invariant forall k | 0 <= k < i :: vrArray[k] == ToUint8(CharCodeAt(vr, k))
    {
      vrArray[i] := ToUint8(CharCodeAt(vr, i));
    }
    r := vrArray[..];
  }

  /** `a.set(source, offset)` on a Uint8Array, when source fits. */
  method SetAt(a: array<byte>, source: seq<byte>, offset: nat)
    requires offset + |source| <= a.Length
    modifies a
    ensures a[..] == Overlay(old(a[..]), offset, source)
  {
    forall i | 0 <= i < |source| {
      a[offset + i] := source[i];
    }
  }

  // ---------------------------------------------------------------------
  // Encoding one element

  /** The value offset: 12 for a VR of the long-header enum, 8 otherwise. */
  function ValueOffset(vr: string): (off: nat)
  {
    if InEnum(vr, LongHeaderVRs) then LongHeaderLen else HeaderLen
  }

  /** The length field createTag writes: four bytes under a long header, two otherwise. */
  function LengthField(valueLength: nat, long: bool, littleEndian: bool, floats: FloatEncoder): (r: seq<byte>)
    ensures |r| == if long then LongHeaderLengthLen else LengthLen
  {
    if long then WriteTypedNumber(Int(valueLength), Uint32, LongHeaderLengthLen, littleEndian, floats).value
    else WriteTypedNumber(Int(valueLength), Uint16, LengthLen, littleEndian, floats).value
  }

  /** The writer the switch in createTag picks for a numeric VR. */
  function NumberTypeOfVR(vr: string): (t: Option<NumberType>)
  {
    if vr == "FD" then Some(Float64)
    else if vr == "FL" then Some(Float32)
    else if vr == "UL" then Some(Uint32)
    else if vr == "US" then Some(Uint16)
    else if vr == "SL" then Some(Int32)
    else if vr == "SS" then Some(Int16)
    else None
  }

  /** A VR the switch writes as a number has a short header and a value length
   *  at least as wide as its writer. */
  lemma NumberFits(vr: string, newValue: string)
    ensures NumberTypeOfVR(vr).Some? ==>
              Width(NumberTypeOfVR(vr).value) <= ValueLength(vr, newValue) &&
              ValueOffset(vr) == HeaderLen
  {
    if NumberTypeOfVR(vr).Some? {
      WidthIsWordSize(vr);
      ValueLengthNumeric(vr, newValue);
      NumbersHaveShortHeader(vr);
    }
  }

  lemma WidthIsWordSize(vr: string)
    requires NumberTypeOfVR(vr).Some?
    ensures vr in Numbers && Width(NumberTypeOfVR(vr).value) == WordSize(vr)
  {
  }

  lemma NumbersHaveShortHeader(vr: string)
    requires vr in Numbers
    ensures ValueOffset(vr) == HeaderLen
  {
    forall k | 0 <= k < |LongHeaderVRs| ensures vr != LongHeaderVRs[k] {
      assert vr[0] != LongHeaderVRs[k][0] || vr[1] != LongHeaderVRs[k][1];
    }
    InEnumOfName(vr, LongHeaderVRs);
  }

  /** The character codes of s, each stored modulo 256. */
  function CharBytes(s: string): (r: seq<byte>)
    ensures |r| == |s|
    ensures forall i | 0 <= i < |s| :: r[i] as int == s[i] as int % 256
  {
    seq(|s|, i requires 0 <= i < |s| => ToUint8(CharCodeAt(s, i)))
  }

  /** The default branch of createTag: character i lands at index at+i, and a
   *  store past the end of the array is ignored. */
  function WriteChars(target: seq<byte>, at: nat, s: string): (r: seq<byte>)
  {
    seq(|target|, i requires 0 <= i < |target| =>
      if at <= i < at + |s| then ToUint8(CharCodeAt(s, i - at)) else target[i])
  }

  /** The bytes createTag builds for a tag id, a VR and a value. */
  function TagBytes(tagId: seq<byte>, vr: string, newValue: string, littleEndian: bool,
                    floats: FloatEncoder): (r: seq<byte>)
    requires |tagId| == GroupLen + ElementLen
    ensures |r| == ValueLength(vr, newValue) + ValueOffset(vr)
    ensures r[..4] == tagId
    ensures r[VrOffset..VrOffset + VrLen] == VRBytes(vr)
  {
    var valueOffset := ValueOffset(vr);
    var valueLength := ValueLength(vr, newValue);
    var header := TagHeader(tagId, vr, valueLength, valueOffset,
                            LengthField(valueLength, valueOffset == LongHeaderLen, littleEndian, floats));
    NumberFits(vr, newValue);
    var r := WriteValue(header, NumberTypeOfVR(vr), ParseInt(newValue, Decimal), newValue,
                        valueOffset, valueLength, littleEndian, floats);
    PrefixesAgree(r, header, HeaderLen, 0, 4);
    PrefixesAgree(r, header, HeaderLen, VrOffset, VrOffset + VrLen);
    r
  }

  lemma PrefixesAgree<T>(a: seq<T>, b: seq<T>, n: nat, lo: nat, hi: nat)
    requires n <= |a| && n <= |b| && a[..n] == b[..n] && lo <= hi <= n
    ensures a[lo..hi] == b[lo..hi]
  {
    assert forall i | lo <= i < hi :: a[i] == a[..n][i] && b[i] == b[..n][i];
  }

  /** The switch of createTag: a VR with a number writer stores the parsed
   *  decimal value num at the value offset; any other VR stores its characters
   *  from index 8. */
  function WriteValue(header: seq<byte>, numberType: Option<NumberType>, num: Num, newValue: string,
                      valueOffset: nat, valueLength: nat, littleEndian: bool,
                      floats: FloatEncoder): (r: seq<byte>)
    requires HeaderLen <= valueOffset && valueOffset + valueLength <= |header|
    requires numberType.Some? ==> Width(numberType.value) <= valueLength
    ensures |r| == |header|
    ensures r[..HeaderLen] == header[..HeaderLen]
  {
    match numberType
    case Some(t) => Overlay(header, valueOffset, WriteTypedNumber(num, t, valueLength, littleEndian, floats).value)
    case None => WriteChars(header, HeaderLen, newValue)
  }

  /** The new element before its value is written: id, VR and length field
   *  over zeros. */
  function TagHeader(tagId: seq<byte>, vr: string, valueLength: nat, valueOffset: nat,
                     field: seq<byte>): (r: seq<byte>)
    requires |tagId| == GroupLen + ElementLen
    requires valueOffset == HeaderLen || valueOffset == LongHeaderLen
    requires |field| == if valueOffset == LongHeaderLen then LongHeaderLengthLen else LengthLen
    ensures |r| == valueLength + valueOffset
    ensures r[..4] == tagId
    ensures r[VrOffset..VrOffset + VrLen] == VRBytes(vr)
    ensures r[LengthOffset..LengthOffset + LengthLen] == field[..LengthLen]
  {
    var blank := Zeros(valueLength + valueOffset);
    var withId := Overlay(blank, 0, tagId);
    var withVR := Overlay(withId, VrOffset, VRBytes(vr));
    var r := Overlay(withVR, LengthOffset, field);
    assert r[..4] == tagId;
    r
  }

  /** A VR written as text places the value's character codes from index 8 on,
   *  even under a 12-byte header, and keeps only those that fit; for a
   *  short-header VR other than AT the value bytes are exactly the codes. */
  lemma TagBytesText(tagId: seq<byte>, vr: string, newValue: string, littleEndian: bool,
                     floats: FloatEncoder)
    requires |tagId| == GroupLen + ElementLen
    requires NumberTypeOfVR(vr).None?
    ensures var r := TagBytes(tagId, vr, newValue, littleEndian, floats);
            forall i | HeaderLen <= i < |r| && i < HeaderLen + |newValue| ::
              r[i] as int == newValue[i - HeaderLen] as int % 256
    ensures !InEnum(vr, Numbers) && vr != "AT" && ValueOffset(vr) == HeaderLen ==>
              TagBytes(tagId, vr, newValue, littleEndian, floats)[HeaderLen..] == CharBytes(newValue)
  {
    var valueOffset := ValueOffset(vr);
    var valueLength := ValueLength(vr, newValue);
    var header := TagHeader(tagId, vr, valueLength, valueOffset,
                            LengthField(valueLength, valueOffset == LongHeaderLen, littleEndian, floats));
    var r := TagBytes(tagId, vr, newValue, littleEndian, floats);
    WriteCharsCodes(header, newValue);
  }

  lemma WriteCharsCodes(target: seq<byte>, s: string)
    requires HeaderLen <= |target|
    ensures var r := WriteChars(target, HeaderLen, s);
            (forall i | HeaderLen <= i < |r| && i < HeaderLen + |s| :: r[i] as int == s[i - HeaderLen] as int % 256) &&
            (|target| == HeaderLen + |s| ==> r[HeaderLen..] == CharBytes(s))
  {
    var r := WriteChars(target, HeaderLen, s);
    if |target| == HeaderLen + |s| {
      assert forall i | 0 <= i < |s| :: r[HeaderLen..][i] == r[HeaderLen + i];
    }
  }

  /** Under an 8-byte header the length field at offset 6 holds the value
   *  length modulo 2^16. */
  lemma TagBytesLengthField(tagId: seq<byte>, vr: string, newValue: string, littleEndian: bool,
                            floats: FloatEncoder)
    requires |tagId| == GroupLen + ElementLen
    requires ValueOffset(vr) == HeaderLen
    ensures UnsignedValue(TagBytes(tagId, vr, newValue, littleEndian, floats)[LengthOffset..HeaderLen],
                          littleEndian) == ValueLength(vr, newValue) % Pow256(2)
  {
    var valueLength := ValueLength(vr, newValue);
    var header := TagHeader(tagId, vr, valueLength, HeaderLen, LengthField(valueLength, false, littleEndian, floats));
    var r := TagBytes(tagId, vr, newValue, littleEndian, floats);
    NumberFits(vr, newValue);
    PrefixesAgree(r, header, HeaderLen, LengthOffset, HeaderLen);
    var field := LengthField(valueLength, false, littleEndian, floats);
    assert field[..LengthLen] == field;
  }

  /** A VR written as an integer stores the parsed decimal value modulo
   *  256^width at offset 8, followed by zeros. */
  lemma TagBytesNumber(tagId: seq<byte>, vr: string, newValue: string, littleEndian: bool,
                       floats: FloatEncoder)
    requires |tagId| == GroupLen + ElementLen
    requires NumberTypeOfVR(vr).Some? && NumberTypeOfVR(vr).value.IsInteger()
    ensures var t := NumberTypeOfVR(vr).value;
            var r := TagBytes(tagId, vr, newValue, littleEndian, floats);
            HeaderLen + Width(t) <= |r| &&
            UnsignedValue(r[HeaderLen..HeaderLen + Width(t)], littleEndian) ==
              IntegerOrZero(ParseInt(newValue, Decimal)) % Pow256(Width(t)) &&
            forall i | HeaderLen + Width(t) <= i < |r| :: r[i] == 0
  {
    NumberFits(vr, newValue);
    var valueLength := ValueLength(vr, newValue);
    var header := TagHeader(tagId, vr, valueLength, HeaderLen, LengthField(valueLength, false, littleEndian, floats));
    WriteValueNumber(header, NumberTypeOfVR(vr), ParseInt(newValue, Decimal), newValue, valueLength,
                     littleEndian, floats);
  }

  lemma WriteValueNumber(header: seq<byte>, numberType: Option<NumberType>, num: Num, newValue: string,
                         valueLength: nat, littleEndian: bool, floats: FloatEncoder)
    requires HeaderLen + valueLength == |header|
    requires numberType.Some? && numberType.value.IsInteger() && Width(numberType.value) <= valueLength
    ensures var t := numberType.value;
            var r := WriteValue(header, numberType, num, newValue, HeaderLen, valueLength, littleEndian, floats);
            UnsignedValue(r[HeaderLen..HeaderLen + Width(t)], littleEndian) == IntegerOrZero(num) % Pow256(Width(t)) &&
            forall i | HeaderLen + Width(t) <= i < |r| :: r[i] == 0
  {
    OverlayNumber(header, HeaderLen, num, numberType.value, valueLength, littleEndian, floats);
  }

  lemma OverlayNumber(header: seq<byte>, offset: nat, num: Num, t: NumberType, valueLength: nat,
                      littleEndian: bool, floats: FloatEncoder)
    requires offset + valueLength == |header| && t.IsInteger() && Width(t) <= valueLength
    ensures var r := Overlay(header, offset, WriteTypedNumber(num, t, valueLength, littleEndian, floats).value);
            UnsignedValue(r[offset..offset + Width(t)], littleEndian) == IntegerOrZero(num) % Pow256(Width(t)) &&
            forall i | offset + Width(t) <= i < |r| :: r[i] == 0
  {
    var bytes := WriteTypedNumber(num, t, valueLength, littleEndian, floats).value;
    var r := Overlay(header, offset, bytes);
    assert r[offset..offset + Width(t)] == bytes[..Width(t)];
  }

  /** createTag: fills a fresh array with the id, the VR, the length field and
   *  the value. */
  method CreateTag(tagId: seq<byte>, vr: string, newValue: string, littleEndian: bool,
                   floats: FloatEncoder) returns (r: seq<byte>)
    requires |tagId| == GroupLen + ElementLen
    ensures r == TagBytes(tagId, vr, newValue, littleEndian, floats)
  {
    var valueOffset := if InEnum(vr, LongHeaderVRs) then LongHeaderLen else HeaderLen;
    var valueLength := GetValueLength(vr, newValue);
    var tagLength := LengthField(valueLength, valueOffset == LongHeaderLen, littleEndian, floats);
    var newTag := NewTagHeader(tagId, vr, valueLength, valueOffset, tagLength);
    NumberFits(vr, newValue);
    match NumberTypeOfVR(vr) {
      case Some(t) =>
        var bytes := WriteTypedNumber(ParseInt(newValue, Decimal), t, valueLength, littleEndian, floats).value;
        SetAt(newTag, bytes, valueOffset);
      case None =>
        WriteCharsFrom8(newTag, newValue);
    }
    r := newTag[..];
  }

  /** The first part of createTag: a zeroed array of valueLength + valueOffset
   *  bytes holding the id, the VR and the length field. */
  method NewTagHeader(tagId: seq<byte>, vr: string, valueLength: nat, valueOffset: nat,
                      tagLength: seq<byte>) returns (newTag: array<byte>)
    requires |tagId| == GroupLen + ElementLen
    requires valueOffset == HeaderLen || valueOffset == LongHeaderLen
    requires |tagLength| == if valueOffset == LongHeaderLen then LongHeaderLengthLen else LengthLen
    ensures fresh(newTag)
    ensures newTag[..] == TagHeader(tagId, vr, valueLength, valueOffset, tagLength)
  {
    var tagVR := WriteVRArray(vr);
    newTag := new byte[valueLength + valueOffset](_ => 0);
    assert newTag[..] == Zeros(valueLength + valueOffset);
    SetAt(newTag, tagId, 0);
    SetAt(newTag, tagVR, VrOffset);
    SetAt(newTag, tagLength, LengthOffset);
  }

  /** The default branch of createTag: `newTag[i + 8] = charCodeAt(i)` for each
   *  character; a store past the end of a typed array does nothing. */
  method WriteCharsFrom8(newTag: array<byte>, s: string)
    modifies newTag
    ensures newTag[..] == WriteChars(old(newTag[..]), HeaderLen, s)
  {
    ghost var before := newTag[..];
    for i := 0 to |s|
      invariant forall k | 0 <= k < newTag.Length ::
                  newTag[k] == if HeaderLen <= k < HeaderLen + i
                               then ToUint8(CharCodeAt(s, k - HeaderLen)) else before[k]
    {
      if i + HeaderLen < newTag.Length {
        newTag[i + HeaderLen] := ToUint8(CharCodeAt(s, i));
      }
    }
  }

  // ---------------------------------------------------------------------
  // Splicing elements

  /** concatBuffers: a fresh array of both lengths, the first buffer set at 0
   *  and the second right after it. */
  function ConcatBuffers(a: seq<byte>, b: seq<byte>): (r: seq<byte>)
    ensures r == a + b
  {
    var buffer := Overlay(Zeros(|a| + |b|), 0, a);
    var r := Overlay(buffer, |a|, b);
    assert forall i | 0 <= i < |r| :: r[i] == (a + b)[i];
    r
  }

  /** removeTag: the bytes before dataOffSet - 8 followed by the bytes after
   *  the element's value, whose length the current element table gives. A tag
   *  missing from the table is a TypeError (None). */
  function RemoveTag(ds: DataSet, rec: InsertRecord): (r: Option<seq<byte>>)
    ensures r.Some? <==> ToLower(rec.tagId) in ds.elements
  {
    var key := ToLower(rec.tagId);
    if key !in ds.elements then None
    else
      var first := Slice(ds.byteArray, 0, rec.dataOffSet - HeaderLen);
      var last := SliceFrom(ds.byteArray, rec.dataOffSet + ds.elements[key].length);
      Some(ConcatBuffers(first, last))
  }

  /** insertTag: the bytes before dataOffSet - 8, the new element, then the
   *  bytes after the old value. */
  function InsertTag(ds: DataSet, rec: InsertRecord, newTag: seq<byte>): (r: Option<seq<byte>>)
    ensures r.Some? <==> ToLower(rec.tagId) in ds.elements
  {
    var key := ToLower(rec.tagId);
    if key !in ds.elements then None
    else
      var first := Slice(ds.byteArray, 0, rec.dataOffSet - HeaderLen);
      var last := SliceFrom(ds.byteArray, rec.dataOffSet + ds.elements[key].length);
      Some(ConcatBuffers(ConcatBuffers(first, newTag), last))
  }

  /** addTag: the file's bytes followed by the new element, little-endian. */
  function AddTag(ds: DataSet, rec: InsertRecord, floats: FloatEncoder): (r: seq<byte>)
    ensures |r| == |ds.byteArray| + ValueLength(rec.vr, rec.newValue) + ValueOffset(rec.vr)
    ensures r[..|ds.byteArray|] == ds.byteArray
    ensures r[|ds.byteArray|..] == TagBytes(TagIdBytes(rec.tagId), rec.vr, rec.newValue, true, floats)
  {
    ConcatBuffers(ds.byteArray, TagBytes(TagIdBytes(rec.tagId), rec.vr, rec.newValue, true, floats))
  }

  /** With the 8 header bytes and the value inside the file, removal cuts out
   *  exactly those 8 + length bytes and keeps the rest in order. */
  lemma RemoveTagSplice(ds: DataSet, rec: InsertRecord)
    requires ToLower(rec.tagId) in ds.elements
    requires HeaderLen <= rec.dataOffSet
    requires rec.dataOffSet + ds.elements[ToLower(rec.tagId)].length <= |ds.byteArray|
    ensures var b, end := ds.byteArray, rec.dataOffSet + ds.elements[ToLower(rec.tagId)].length;
            var r := RemoveTag(ds, rec).value;
            r == b[..rec.dataOffSet - HeaderLen] + b[end..] &&
            |r| == |b| - HeaderLen - ds.elements[ToLower(rec.tagId)].length
  {
  }

  /** With the 8 header bytes and the value inside the file, the new element
   *  takes their place between the untouched prefix and suffix. */
  lemma InsertTagSplice(ds: DataSet, rec: InsertRecord, newTag: seq<byte>)
    requires ToLower(rec.tagId) in ds.elements
    requires HeaderLen <= rec.dataOffSet
    requires rec.dataOffSet + ds.elements[ToLower(rec.tagId)].length <= |ds.byteArray|
    ensures var b, end := ds.byteArray, rec.dataOffSet + ds.elements[ToLower(rec.tagId)].length;
            var r := InsertTag(ds, rec, newTag).value;
            r == b[..rec.dataOffSet - HeaderLen] + newTag + b[end..] &&
            |r| == |b| - HeaderLen - ds.elements[ToLower(rec.tagId)].length + |newTag|
  {
  }

  /** getSingleFileTagEdits: the edits of one file, in their order. */
  function GetSingleFileTagEdits(edits: seq<TableUpdateData>, fileName: string): (r: seq<TableUpdateData>)
    ensures |r| <= |edits|
    ensures forall e :: e in r <==> e in edits && e.fileName == fileName
  {
    if edits == [] then []
    else
      var rest := GetSingleFileTagEdits(edits[1..], fileName);
      assert forall e | e in edits :: e == edits[0] || e in edits[1..];
      if edits[0].fileName == fileName then [edits[0]] + rest else rest
  }

  /** Filtering commutes with concatenation, so the kept edits keep their order. */
  lemma {:induction false} GetSingleFileTagEditsAppend(a: seq<TableUpdateData>, b: seq<TableUpdateData>,
                                                       fileName: string)
    ensures GetSingleFileTagEdits(a + b, fileName) ==
            GetSingleFileTagEdits(a, fileName) + GetSingleFileTagEdits(b, fileName)
  {
    if a != [] {
      assert (a + b)[1..] == a[1..] + b;
      GetSingleFileTagEditsAppend(a[1..], b, fileName);
    } else {
      assert a + b == b;
    }
  }

  /** An edit of the file is kept, one of another file dropped. */
  lemma GetSingleFileTagEditsOne(e: TableUpdateData, fileName: string)
    ensures GetSingleFileTagEdits([e], fileName) == if e.fileName == fileName then [e] else []
  {
    assert [e][1..] == [];
  }

  // ---------------------------------------------------------------------
  // The edit loop

  /** Why tagUpdater throws: a TypeError from a tag missing in the element
   *  table, a parse failure (the parser also throws on `undefined` data), or
   *  "File Update Failed" from the final validity check. */
  datatype UpdateError = TypeError | ParseError | UpdateFailed

  /** dicomParser.parseDicom: the element table of a byte array, or None when
   *  the parser throws. */
  type Parser = seq<byte> -> Option<map<string, Element>>

  /** The loop's variables: `data` (None while still undefined) and the
   *  current parse of it. */
  datatype EditState = EditState(data: Option<seq<byte>>, dataSet: DataSet)

  /** The new value of `data` after one edit. An in-place edit of a tag missing
   *  from the current table throws inside the try block; the error is logged
   *  and `data` keeps its value. */
  function EditedData(st: EditState, rec: InsertRecord, floats: FloatEncoder): (r: Result<Option<seq<byte>>, UpdateError>)
    ensures r.Err? <==> rec.delete && ToLower(rec.tagId) !in st.dataSet.elements
    ensures r.Ok? && (rec.delete || rec.add) ==> r.value.Some?
  {
    var ds := st.dataSet;
    var key := ToLower(rec.tagId);
    if rec.delete then
      match RemoveTag(ds, rec)
      case None => Err(TypeError)
      case Some(d) => Ok(Some(d))
    else if rec.add then Ok(Some(AddTag(ds, rec, floats)))
    else if key !in ds.elements then Ok(st.data)
    else
      var located := rec.(dataOffSet := ds.elements[key].dataOffset);
      var newTag := TagBytes(TagIdBytes(rec.tagId), rec.vr, rec.newValue, true, floats);
      Ok(InsertTag(ds, located, newTag))
  }

  /** The parse that ends every iteration. */
  function Reparse(data: Option<seq<byte>>, parse: Parser): (r: Result<EditState, UpdateError>)
    ensures r.Ok? <==> data.Some? && parse(data.value).Some?
    ensures r.Ok? ==> r.value == EditState(data, DataSet(data.value, parse(data.value).value))
  {
    match data
    case None => Err(ParseError)
    case Some(d) =>
      match parse(d)
      case None => Err(ParseError)
      case Some(elements) => Ok(EditState(data, DataSet(d, elements)))
  }

  /** One iteration: the edit, then the parse; the errors it throws are
   *  TypeError and ParseError. */
  function Step(st: EditState, rec: InsertRecord, parse: Parser, floats: FloatEncoder): (r: Result<EditState, UpdateError>)
    ensures r.Err? ==> r.error != UpdateFailed
    ensures r.Ok? ==> r.value.data.Some? && r.value.dataSet.byteArray == r.value.data.value &&
                      parse(r.value.data.value) == Some(r.value.dataSet.elements)
  {
    match EditedData(st, rec, floats)
    case Err(e) => Err(e)
    case Ok(data) => Reparse(data, parse)
  }

  /** The records applied in order from the initial state; the first error
   *  ends the loop. */
  function RunEdits(recs: seq<InsertRecord>, init: EditState, parse: Parser, floats: FloatEncoder): (r: Result<EditState, UpdateError>)
    ensures r.Err? ==> r.error != UpdateFailed
  {
    if recs == [] then Ok(init)
    else
      match RunEdits(recs[..|recs| - 1], init, parse, floats)
      case Err(e) => Err(e)
      case Ok(st) => Step(st, recs[|recs| - 1], parse, floats)
  }

  /** The records of the first loop, all built against the file as it was. */
  function BuildRecords(ds: DataSet, edits: seq<TableUpdateData>): (recs: seq<InsertRecord>)
    ensures |recs| == |edits|
    ensures forall i | 0 <= i < |edits| :: recs[i] == BuildRecord(ds, edits[i])
  {
    seq(|edits|, i requires 0 <= i < |edits| => BuildRecord(ds, edits[i]))
  }

  /** tagUpdater: the original bytes for no edits; otherwise the bytes after
   *  the last edit, provided they parse. */
  function TagUpdaterResult(ds: DataSet, edits: seq<TableUpdateData>, parse: Parser,
                            floats: FloatEncoder): (r: Result<seq<byte>, UpdateError>)
  {
    if edits == [] then Ok(ds.byteArray)
    else
      match RunEdits(BuildRecords(ds, edits), EditState(None, ds), parse, floats)
      case Err(e) => Err(e)
      case Ok(st) =>
        if st.data.Some? && parse(st.data.value).Some? then Ok(st.data.value) else Err(UpdateFailed)
  }

  /** After at least one edit, the state holds the bytes last written and their parse. */
  lemma {:induction false} RunEditsParsed(recs: seq<InsertRecord>, init: EditState, parse: Parser,
                                          floats: FloatEncoder)
    requires recs != []
    ensures var r := RunEdits(recs, init, parse, floats);
            r.Ok? ==> r.value.data.Some? && parse(r.value.data.value) == Some(r.value.dataSet.elements) &&
                      r.value.dataSet.byteArray == r.value.data.value
  {
    var prefix := recs[..|recs| - 1];
    var r := RunEdits(recs, init, parse, floats);
    match RunEdits(prefix, init, parse, floats)
    case Err(_) =>
    case Ok(st) =>
      assert r == Step(st, recs[|recs| - 1], parse, floats);
  }

  /** The final validity check never fails: the last iteration has already
   *  parsed the same bytes. */
  lemma TagUpdaterNeverFailsCheck(ds: DataSet, edits: seq<TableUpdateData>, parse: Parser,
                                  floats: FloatEncoder)
    ensures TagUpdaterResult(ds, edits, parse, floats) != Err(UpdateFailed)
    ensures var r := TagUpdaterResult(ds, edits, parse, floats);
            r.Ok? && edits != [] ==> parse(r.value).Some?
  {
    if edits != [] {
      var recs := BuildRecords(ds, edits);
      RunEditsParsed(recs, EditState(None, ds), parse, floats);
      match RunEdits(recs, EditState(None, ds), parse, floats)
      case Err(_) =>
      case Ok(st) =>
        assert parse(st.data.value).Some?;
    }
  }

  /** No edits: the byte array comes back as it is. */
  lemma TagUpdaterNoEdits(ds: DataSet, parse: Parser, floats: FloatEncoder)
    ensures TagUpdaterResult(ds, [], parse, floats) == Ok(ds.byteArray)
  {
  }

  /** A single delete of a tag in the table yields the file with the element
   *  cut out, when that parses; a delete of a missing tag is a TypeError. */
  lemma TagUpdaterSingleDelete(ds: DataSet, edit: TableUpdateData, parse: Parser, floats: FloatEncoder)
    requires edit.delete
    ensures var r := TagUpdaterResult(ds, [edit], parse, floats);
            var rec := BuildRecord(ds, edit);
            (ToLower(edit.tagId) !in ds.elements ==> r == Err(TypeError)) &&
            (ToLower(edit.tagId) in ds.elements ==>
               var cut := RemoveTag(ds, rec).value;
               r == if parse(cut).Some? then Ok(cut) else Err(ParseError))
  {
    SingleRun(ds, edit, parse, floats);
  }

  /** A single add appends the encoded element to the file, when that parses. */
  lemma TagUpdaterSingleAdd(ds: DataSet, edit: TableUpdateData, parse: Parser, floats: FloatEncoder)
    requires !edit.delete && edit.add
    ensures var r := TagUpdaterResult(ds, [edit], parse, floats);
            var grown := AddTag(ds, BuildRecord(ds, edit), floats);
            r == if parse(grown).Some? then Ok(grown) else Err(ParseError)
  {
    SingleRun(ds, edit, parse, floats);
  }

  /** A single in-place edit of a tag missing from the table leaves `data`
   *  undefined, and parsing it throws. */
  lemma TagUpdaterSingleMissing(ds: DataSet, edit: TableUpdateData, parse: Parser, floats: FloatEncoder)
    requires !edit.delete && !edit.add && ToLower(edit.tagId) !in ds.elements
    ensures TagUpdaterResult(ds, [edit], parse, floats) == Err(ParseError)
  {
    SingleRun(ds, edit, parse, floats);
  }

  /** A single in-place edit of a tag in the table replaces its header and
   *  value with the encoding of the new value, when that parses. */
  lemma TagUpdaterSingleReplace(ds: DataSet, edit: TableUpdateData, parse: Parser, floats: FloatEncoder)
    requires !edit.delete && !edit.add && ToLower(edit.tagId) in ds.elements
    ensures var el := ds.elements[ToLower(edit.tagId)];
            var rec := BuildRecord(ds, edit);
            var replaced := InsertTag(ds, rec, TagBytes(TagIdBytes(edit.tagId), rec.vr, edit.newValue, true, floats)).value;
            TagUpdaterResult(ds, [edit], parse, floats) ==
              if parse(replaced).Some? then Ok(replaced) else Err(ParseError)
  {
    SingleRun(ds, edit, parse, floats);
  }

  /** One edit is one step from the initial state. */
  lemma SingleRun(ds: DataSet, edit: TableUpdateData, parse: Parser, floats: FloatEncoder)
    ensures var init := EditState(None, ds);
            RunEdits(BuildRecords(ds, [edit]), init, parse, floats) ==
              Step(init, BuildRecord(ds, edit), parse, floats)
  {
    var recs := BuildRecords(ds, [edit]);
    assert recs[..0] == [];
  }

  /** Once an edit has thrown, the later records change nothing. */
  lemma {:induction false} RunEditsErrorPersists(recs: seq<InsertRecord>, n: nat, init: EditState,
                                                 parse: Parser, floats: FloatEncoder)
    requires n <= |recs| && RunEdits(recs[..n], init, parse, floats).Err?
    ensures RunEdits(recs, init, parse, floats) == RunEdits(recs[..n], init, parse, floats)
    decreases |recs|
  {
    if n < |recs| {
      var prefix := recs[..|recs| - 1];
      assert prefix[..n] == recs[..n];
      RunEditsErrorPersists(prefix, n, init, parse, floats);
    } else {
      assert recs[..n] == recs;
    }
  }

  /** tagUpdater: builds every record first, then applies them one by one,
   *  parsing the bytes after each, and checks the final bytes once more. */
  method TagUpdater(ds: DataSet, edits: seq<TableUpdateData>, parse: Parser, floats: FloatEncoder)
    returns (r: Result<seq<byte>, UpdateError>)
    ensures r == TagUpdaterResult(ds, edits, parse, floats)
  {
    if |edits| == 0 {
      return Ok(ds.byteArray);
    }
    var newTags := CollectRecords(ds, edits);
    var run := ApplyEdits(newTags, EditState(None, ds), parse, floats);
    if run.Err? {
      return Err(run.error);
    }
    var st := run.value;
    if st.data.Some? && parse(st.data.value).Some? {
      r := Ok(st.data.value);
    } else {
      r := Err(UpdateFailed);
    }
  }

  /** The first loop of tagUpdater, pushing one record per edit. */
  method CollectRecords(ds: DataSet, edits: seq<TableUpdateData>) returns (newTags: seq<InsertRecord>)
    ensures newTags == BuildRecords(ds, edits)
  {
    newTags := [];
    for i := 0 to |edits|
      invariant |newTags| == i
      invariant forall k | 0 <= k < i :: newTags[k] == BuildRecord(ds, edits[k])
    {
      newTags := newTags + [BuildRecord(ds, edits[i])];
    }
  }

  /** The second loop of tagUpdater: each record is applied to the current
   *  parse and the result parsed again; the first throw ends the loop. */
  method ApplyEdits(newTags: seq<InsertRecord>, init: EditState, parse: Parser, floats: FloatEncoder)
    returns (res: Result<EditState, UpdateError>)
    ensures res == RunEdits(newTags, init, parse, floats)
  {
    var st := init;
    for i := 0 to |newTags|
      invariant RunEdits(newTags[..i], init, parse, floats) == Ok(st)
    {
      assert newTags[..i + 1][..i] == newTags[..i];
      var data := ApplyEdit(st, newTags[i], floats);
      if data.Err? {
        RunEditsErrorPersists(newTags, i + 1, init, parse, floats);
        return Err(data.error);
      }
      if data.value.None? {
        RunEditsErrorPersists(newTags, i + 1, init, parse, floats);
        return Err(ParseError);
      }
      var parsed := parse(data.value.value);
      if parsed.None? {
        RunEditsErrorPersists(newTags, i + 1, init, parse, floats);
        return Err(ParseError);
      }
      st := EditState(data.value, DataSet(data.value.value, parsed.value));
    }
    assert newTags[..|newTags|] == newTags;
    res := Ok(st);
  }

  /** The body of the edit loop up to the parse: remove, append, or replace in
   *  place inside a try block. */
  method ApplyEdit(st: EditState, rec: InsertRecord, floats: FloatEncoder)
    returns (data: Result<Option<seq<byte>>, UpdateError>)
    ensures data == EditedData(st, rec, floats)
  {
    var ds := st.dataSet;
    if rec.delete {
      var cut := RemoveTag(ds, rec);
      if cut.None? {
        return Err(TypeError);
      }
      return Ok(cut);
    } else if rec.add {
      var newTag := CreateTag(TagIdBytes(rec.tagId), rec.vr, rec.newValue, true, floats);
      return Ok(Some(ConcatBuffers(ds.byteArray, newTag)));
    }
    var key := ToLower(rec.tagId);
    if key !in ds.elements {
      return Ok(st.data);
    }
    var located := rec.(dataOffSet := ds.elements[key].dataOffset);
    var newTag := CreateTag(TagIdBytes(rec.tagId), rec.vr, rec.newValue, true, floats);
    data := Ok(InsertTag(ds, located, newTag));
  }
}
