/** The records the editors pass around: the element table of a parsed file,
 *  pending tag edits, the tag rows shown in the table, and anonymisation
 *  entries. */
module DicomTypes {
  import opened JsBytes

  /** One entry of a parsed file's element table: its value representation
   *  ("" when the file does not state one), the offset of its value bytes and
   *  the length of its value. */
  datatype Element = Element(vr: string, dataOffset: nat, length: nat)

  /** A parsed file: its bytes and its element table, keyed by the lower-case
   *  tag id ("x00100010"). */
  datatype DataSet = DataSet(byteArray: seq<byte>, elements: map<string, Element>)

  /** A pending edit of one tag of one file; `delete` and `add` are false when
   *  the record does not carry them. */
  datatype TableUpdateData = TableUpdateData(
    fileName: string, tagId: string, newValue: string, delete: bool, add: bool)

  /** A tag row as the table shows it: a text value, or the rows of a sequence. */
  datatype DicomTag = DicomTag(tagId: string, tagName: string, value: TagValue, hidden: bool)

  datatype TagValue = Text(text: string) | Nested(rows: seq<DicomTag>)

  /** A tag to anonymise and the value it is to receive. */
  datatype AnonTag = AnonTag(tagId: string, tagName: string, newValue: string)
}
