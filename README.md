# DICOM tag editor: a Dafny model

This project models the logic core of a browser DICOM tag editor and the Python harnesses that check it. The editor is a TypeScript/React application. A user loads DICOM files, sees each file's data elements in a table, edits, adds or deletes values, anonymises personal data and downloads the rewritten files. The model sets the rendering and the browser aside. What remains is this:

- **Byte-level element editing.** There are four generations of one splice-based editor. Each one encodes a data element as group/element bytes, two VR characters, a length field and a value. It then splices the element into a file's bytes, or cuts it out, at offsets taken from the parsed element table.
  - `TagUpdater` models src/DataFunctions/DicomData/TagUpdater.ts, the current version.
  - `LegacyTagUpdater` models src/components/DicomData/TagUpdater.ts.
  - `TagOverwrite` models src/components/DicomData/TagUpdater.tsx, which overwrites fixed-width fields in place.
  - `DicomUpdater` models the sequence-aware class of src/components/DicomData/DicomUpdater.tsx. That class shifts sequence lengths, orders changes by offset and places new tags. `TagEditor` models the guards of the twin file tagEditor/tagEditor.js, whose helpers are the same code as the class's.
- **State.** `StateStore` and `ComponentStore` model the two zustand stores. Their central operation is the keyed upsert of pending edits. `TagDictionaryStore` models the IndexedDB dictionary service as an optional keyed map. `DictTagsEdit`, `AutoConfirmPanel`, `PiiResultsTable` and `App` model components that change state step by step.
- **Classifiers and list builders.**
  - `PiiDetection`: the PII test and scan.
  - `AutoClean`: the three anonymisation-list builders and their AutoAnon loops.
  - `TagsAnonList`: the anonymisation tables.
  - `FilteredRows`: the row search.
  - `TagDictionaryTable`: the dictionary search and its "load more" paging.
  - `TagDictionary`: the dictionary lookups.
  - `FileProcessor`: the grouping of uploads by folder.
  - `DownloadFuncs`: the "_edited.dcm" naming.
- **The harnesses.** `TestFixtures`, `PlaywrightTests` and `SeleniumTests` model system_test/playwright_tests.py and system_test/selenium_tests.py. They cover the sidecar naming, the row comparison, failure counting in the first harness and abort-on-first-failure in the second.

Support modules state the JavaScript semantics the code relies on:
- `JsNumber`: numbers that may be NaN, ToInt32 and `>>`.
- `JsBytes`: Uint8Array stores modulo 256, `slice` with negative and clamped bounds, `set` and DataView integer writes.
- `JsString`: ASCII case mapping, `includes`, `trim`, `split`, `parseInt` and string order.
- `StableSort`: the stable `Array.prototype.sort`.

`DicomTypes` holds the shared data types and `Wrappers` holds Option and Result. Code that throws returns an `Err` in the model. Callbacks into code outside the model are function-typed parameters: the dicom-parser, the float encoder, the IndexedDB outcome, and the page the harnesses read.

The element layout follows the explicit-VR data element structure of DICOM PS3.5 section 7.1.2. Item headers follow PS3.5 section 7.5. Where the code departs from the standard, the model follows the code:
- The length field of a 12-byte header is written at offset 6.
- String values always start at offset 8.
- Numeric lengths add a whole word even when already aligned.
- The "uint32" writer calls `setUint16`.

Each of these is stated in a contract below.

## Model

| member | source | states |
|---|---|---|
| `TagUpdater.InEnumOfName` | src/DataFunctions/DicomData/TagUpdater.ts:29-36 | for a key that does not start with a digit, `in` on the NUMBERS enum is membership in its names |
| `TagUpdater.TagIdBytes` | src/DataFunctions/DicomData/TagUpdater.ts:173-177 | the tag id bytes are four: group and element read as hexadecimal, low byte first |
| `TagUpdater.TagIdBytesOfHexId` | src/DataFunctions/DicomData/TagUpdater.ts:173-177 | for an id "(gggg" + "eeee" of hexadecimal digits the bytes are the group's and the element's low and high bytes |
| `TagUpdater.HexWordBytes` | src/DataFunctions/DicomData/TagUpdater.ts:174-177 | four hexadecimal digits stored as `[v, v >> 8]` in a Uint8Array give the value's low and high byte |
| `TagUpdater.MinimalByteLength` | src/DataFunctions/DicomData/TagUpdater.ts:456-462 | the `>>= 8` loop counts at least one byte |
| `TagUpdater.MinimalByteLengthBounds` | src/DataFunctions/DicomData/TagUpdater.ts:456-462 | for a value in [0, 2^31) the count is the fewest bytes that hold it; NaN and negative values count one |
| `TagUpdater.ValueLengthNumeric` | src/DataFunctions/DicomData/TagUpdater.ts:454-476 | for a numeric VR the length is the byte count padded to a multiple of the word size, strictly above it and at most one word more |
| `TagUpdater.PadToWordNumeric` | src/DataFunctions/DicomData/TagUpdater.ts:463-475 | the padding switch on the VR's second letter always adds between 1 and a whole word |
| `TagUpdater.ValueLengthText` | src/DataFunctions/DicomData/TagUpdater.ts:477-483 | an AT value is 4 bytes; any other non-numeric VR takes the string's length |
| `TagUpdater.GetValueLength` | src/DataFunctions/DicomData/TagUpdater.ts:454-484 | the method with its shift loop computes the value length function |
| `TagUpdater.Fit` | src/DataFunctions/DicomData/TagUpdater.ts:395-422 | a written number fills exactly the requested array length |
| `TagUpdater.WriteTypedNumber` | src/DataFunctions/DicomData/TagUpdater.ts:389-423 | the writer succeeds exactly when the type's width fits; the integer types store the value modulo 2^(8·width) in the chosen byte order and leave the rest zero |
| `TagUpdater.VRBytes` | src/DataFunctions/DicomData/TagUpdater.ts:433-441 | two bytes, each the character code of the VR modulo 256, zero past its end |
| `TagUpdater.WriteVRArray` | src/DataFunctions/DicomData/TagUpdater.ts:433-441 | the loop builds the VR bytes |
| `TagUpdater.SetAt` | src/DataFunctions/DicomData/TagUpdater.ts:289-292 | `set` at an offset overlays the source on the array |
| `TagUpdater.LengthField` | src/DataFunctions/DicomData/TagUpdater.ts:279-287 | the length field has 4 bytes under a 12-byte header and 2 otherwise |
| `TagUpdater.NumberFits` | src/DataFunctions/DicomData/TagUpdater.ts:296-362 | every number writer's width fits in the value length, and numbers have the 8-byte header |
| `TagUpdater.WidthIsWordSize` | src/DataFunctions/DicomData/TagUpdater.ts:463-475 | the writer's width for a numeric VR is the word its length is padded to |
| `TagUpdater.NumbersHaveShortHeader` | src/DataFunctions/DicomData/TagUpdater.ts:274-275 | no numeric VR has a 12-byte header |
| `TagUpdater.CharBytes` | src/DataFunctions/DicomData/TagUpdater.ts:369-373 | the default case stores each character code modulo 256 |
| `TagUpdater.TagBytes` | src/DataFunctions/DicomData/TagUpdater.ts:273-376 | the new element has header plus value length bytes, starts with the tag id and holds the VR at offset 4 |
| `TagUpdater.WriteValue` | src/DataFunctions/DicomData/TagUpdater.ts:296-374 | the switch keeps the header and the array's length |
| `TagUpdater.TagHeader` | src/DataFunctions/DicomData/TagUpdater.ts:289-292 | the header array has the element's length and holds the tag id, VR and length field |
| `TagUpdater.TagBytesText` | src/DataFunctions/DicomData/TagUpdater.ts:369-373 | a VR without a number writer stores the value's character codes from offset 8, as many as fit |
| `TagUpdater.TagBytesLengthField` | src/DataFunctions/DicomData/TagUpdater.ts:279-292 | under the 8-byte header the length field holds the value length modulo 2^16 |
| `TagUpdater.TagBytesNumber` | src/DataFunctions/DicomData/TagUpdater.ts:319-362 | for UL, US, SL and SS the value field holds the parsed decimal value modulo 2^(8·width) |
| `TagUpdater.WriteValueNumber` | src/DataFunctions/DicomData/TagUpdater.ts:319-362 | an integer writer's bytes land at offset 8 and the rest stays zero |
| `TagUpdater.CreateTag` | src/DataFunctions/DicomData/TagUpdater.ts:273-376 | the method builds exactly the element's bytes |
| `TagUpdater.NewTagHeader` | src/DataFunctions/DicomData/TagUpdater.ts:289-292 | the fresh array holds the header |
| `TagUpdater.WriteCharsFrom8` | src/DataFunctions/DicomData/TagUpdater.ts:369-373 | the default case's loop writes the characters from offset 8 |
| `TagUpdater.ConcatBuffers` | src/DataFunctions/DicomData/TagUpdater.ts:254-259 | the result is the first buffer followed by the second |
| `TagUpdater.RemoveTag` | src/DataFunctions/DicomData/TagUpdater.ts:229-243 | the cut succeeds exactly when the tag is among the parsed elements (else TypeError) |
| `TagUpdater.InsertTag` | src/DataFunctions/DicomData/TagUpdater.ts:201-216 | the splice succeeds exactly when the tag is among the parsed elements (else TypeError) |
| `TagUpdater.AddTag` | src/DataFunctions/DicomData/TagUpdater.ts:172-187 | the file's bytes are kept and the new element is appended at the end |
| `TagUpdater.RemoveTagSplice` | src/DataFunctions/DicomData/TagUpdater.ts:229-243 | the element, from 8 bytes before its value offset to its value's end, is cut out |
| `TagUpdater.InsertTagSplice` | src/DataFunctions/DicomData/TagUpdater.ts:201-216 | the element is replaced by the new bytes |
| `TagUpdater.GetSingleFileTagEdits` | src/DataFunctions/DicomData/TagUpdater.ts:498-500 | the result holds exactly the edits of the given file, and no more than there were |
| `TagUpdater.GetSingleFileTagEditsAppend` | src/DataFunctions/DicomData/TagUpdater.ts:498-500 | the filter distributes over concatenation, so the order of the edits is kept |
| `TagUpdater.GetSingleFileTagEditsOne` | src/DataFunctions/DicomData/TagUpdater.ts:498-500 | a single edit is kept exactly when it is the file's |
| `TagUpdater.EditedData` | src/DataFunctions/DicomData/TagUpdater.ts:119-145 | one edit fails only when deleting a tag that is not there; deletions and additions always give bytes |
| `TagUpdater.Reparse` | src/DataFunctions/DicomData/TagUpdater.ts:147-148 | re-parsing succeeds exactly when there are bytes the parser accepts, and then the data set is those bytes parsed |
| `TagUpdater.Step` | src/DataFunctions/DicomData/TagUpdater.ts:119-149 | a step that succeeds leaves bytes whose parse is the new data set, and never fails with "File Update Failed" |
| `TagUpdater.RunEdits` | src/DataFunctions/DicomData/TagUpdater.ts:119-149 | the edit loop never fails with "File Update Failed" |
| `TagUpdater.BuildRecords` | src/DataFunctions/DicomData/TagUpdater.ts:104-117 | one record per edit, built from the data set, in order |
| `TagUpdater.RunEditsParsed` | src/DataFunctions/DicomData/TagUpdater.ts:119-149 | after a non-empty successful run the bytes parse to the final data set |
| `TagUpdater.TagUpdaterNeverFailsCheck` | src/DataFunctions/DicomData/TagUpdater.ts:151-157 | the final validity check never fails: a successful run's bytes always parse |
| `TagUpdater.TagUpdaterNoEdits` | src/DataFunctions/DicomData/TagUpdater.ts:98-100 | with no edits the file's bytes come back unchanged |
| `TagUpdater.TagUpdaterSingleDelete` | src/DataFunctions/DicomData/TagUpdater.ts:120-121 | a single deletion cuts the element out, fails with a TypeError when it is missing, and with a parse error when the result does not parse |
| `TagUpdater.TagUpdaterSingleAdd` | src/DataFunctions/DicomData/TagUpdater.ts:122-123 | a single addition appends the new element, or fails with a parse error |
| `TagUpdater.TagUpdaterSingleMissing` | src/DataFunctions/DicomData/TagUpdater.ts:125-148 | an edit of a missing tag is swallowed by the catch and the parse of undefined fails |
| `TagUpdater.TagUpdaterSingleReplace` | src/DataFunctions/DicomData/TagUpdater.ts:125-137 | an edit of a present tag replaces it by the element rebuilt with the new value |
| `TagUpdater.SingleRun` | src/DataFunctions/DicomData/TagUpdater.ts:104-149 | a single edit runs exactly one step |
| `TagUpdater.RunEditsErrorPersists` | src/DataFunctions/DicomData/TagUpdater.ts:119-149 | the first error ends the run: later edits do not change the result |
| `TagUpdater.TagUpdater` | src/DataFunctions/DicomData/TagUpdater.ts:92-158 | the method with its two forEach loops computes the updater's result |
| `TagUpdater.CollectRecords` | src/DataFunctions/DicomData/TagUpdater.ts:104-117 | the first loop builds the records |
| `TagUpdater.ApplyEdits` | src/DataFunctions/DicomData/TagUpdater.ts:119-149 | the second loop runs the edits |
| `TagUpdater.ApplyEdit` | src/DataFunctions/DicomData/TagUpdater.ts:120-145 | the branch on delete, add and edit computes one edit's bytes |
| `LegacyTagUpdater.LegacyValueLengthIsLength` | src/components/DicomData/TagUpdater.ts:328-356 | getValueLength reads the absent `tagVR` property, so every value's length is its string length |
| `LegacyTagUpdater.MissingValueParsesToNaN` | src/components/DicomData/TagUpdater.ts:330 | `parseInt` of the absent `tagValue` property is NaN |
| `LegacyTagUpdater.LegacyWriter` | src/components/DicomData/TagUpdater.ts:286-288 | the "uint32" writer calls setUint16; every other type is written as named |
| `LegacyTagUpdater.LegacyUint32WritesSixteenBits` | src/components/DicomData/TagUpdater.ts:286-288 | a "uint32" write fits from two bytes on and stores the number modulo 2^16, zero after it |
| `LegacyTagUpdater.LegacyNumberType` | src/components/DicomData/TagUpdater.ts:163-260 | a VR has a legacy writer exactly when it has a current one, with uint32 replaced by the 16-bit write |
| `LegacyTagUpdater.LegacyLengthField` | src/components/DicomData/TagUpdater.ts:169-180 | the length field has 4 bytes under a 12-byte header and 2 otherwise |
| `LegacyTagUpdater.LegacyTagBytes` | src/components/DicomData/TagUpdater.ts:163-260 | the element fails (RangeError) exactly when a numeric VR's value string is shorter than its writer; otherwise it has the string's length plus the header and starts with the tag id and VR |
| `LegacyTagUpdater.LegacyNumberWritesZero` | src/components/DicomData/TagUpdater.ts:163-260 | a numeric VR writes the NaN of the absent property: zero bytes where the number goes |
| `LegacyTagUpdater.LegacyTagBytesIsWriteValue` | src/components/DicomData/TagUpdater.ts:163-260 | under the 8-byte header the legacy element is the shared header and value writer applied to the legacy inputs |
| `LegacyTagUpdater.ParsedFile.constructor` | src/components/DicomData/TagUpdater.ts:52-54 | the parsed file object holds the data set's bytes and elements |
| `LegacyTagUpdater.LegacyRecord` | src/components/DicomData/TagUpdater.ts:62-73 | a record exists exactly when the tag is parsed (else the TypeError of reading its `vr`), and copies id, value, delete flag and data offset |
| `LegacyTagUpdater.LegacyRecords` | src/components/DicomData/TagUpdater.ts:62-73 | all records exist exactly when every edited tag is parsed, one per edit, in order |
| `LegacyTagUpdater.LegacyStep` | src/components/DicomData/TagUpdater.ts:75-94 | a step that succeeds leaves bytes whose parse is the new data set; a parse failure happens only for a parsed tag |
| `LegacyTagUpdater.RunLegacy` | src/components/DicomData/TagUpdater.ts:75-96 | a successful run returns the file's new bytes, which parse to its new elements |
| `LegacyTagUpdater.LegacyNoEdits` | src/components/DicomData/TagUpdater.ts:58-60 | with no edits the file is untouched and its bytes come back |
| `LegacyTagUpdater.LegacyFileHoldsParse` | src/components/DicomData/TagUpdater.ts:91-96 | after a successful run the caller's object holds the returned bytes and their parse |
| `LegacyTagUpdater.LegacyMissingTag` | src/components/DicomData/TagUpdater.ts:62-73 | any edit of an unparsed tag throws before a single byte changes |
| `LegacyTagUpdater.LegacySingleDelete` | src/components/DicomData/TagUpdater.ts:76-77 | a single deletion cuts the element out and stores the re-parse in the caller's object, or throws with the object unchanged |
| `LegacyTagUpdater.RunLegacyErrorPersists` | src/components/DicomData/TagUpdater.ts:75-94 | the first error ends the run |
| `LegacyTagUpdater.LegacyTagUpdater` | src/components/DicomData/TagUpdater.ts:52-97 | the method returns the updater's result and overwrites the caller's parsed file with the outcome's data set |
| `LegacyTagUpdater.CollectLegacyRecords` | src/components/DicomData/TagUpdater.ts:62-73 | the first loop builds the records or stops at the first unparsed tag |
| `TagOverwrite.OverwriteRecordOf` | src/components/DicomData/TagUpdater.tsx:13-22 | a record exists exactly when the tag is parsed; it holds the new value, the VR or "UN", the data offset and the value length |
| `TagOverwrite.OverwriteRecords` | src/components/DicomData/TagUpdater.tsx:13-22 | all records exist exactly when every edited tag is parsed, one per edit |
| `TagOverwrite.FieldByte` | src/components/DicomData/TagUpdater.tsx:26-30 | inside the value the character code modulo 256, past it a space |
| `TagOverwrite.Overwrite` | src/components/DicomData/TagUpdater.tsx:25-31 | the field's bytes are rewritten with the value padded with spaces; every other byte is kept, and the length is kept |
| `TagOverwrite.OverwriteTruncates` | src/components/DicomData/TagUpdater.tsx:25-27 | a value longer than the field is cut to the field's width |
| `TagOverwrite.OverwriteAll` | src/components/DicomData/TagUpdater.tsx:24-32 | the byte array keeps its length whatever is written |
| `TagOverwrite.OverwriteAllOutside` | src/components/DicomData/TagUpdater.tsx:24-32 | a byte outside every edited field is unchanged |
| `TagOverwrite.OverwriteAllLastWins` | src/components/DicomData/TagUpdater.tsx:24-32 | where fields overlap, the last edit's value is what remains |
| `TagOverwrite.TagUpdater` | src/components/DicomData/TagUpdater.tsx:8-36 | the caller's byte array is overwritten in place and returned, or left alone when a tag is not parsed (the TypeError) |
| `TagOverwrite.WriteField` | src/components/DicomData/TagUpdater.tsx:25-31 | the inner loop writes one field |
| `TagEditor.DownloadModifiedDicom` | tagEditor/tagEditor.js:26-44 | no data set stops first; then a non-Map or empty Map stops; otherwise an editor is created |
| `DicomUpdater.EndOffset` | src/components/DicomData/DicomUpdater.tsx:70-74 | the end bound `offset + byteLength` of an entry, 0 when the length is NaN |
| `DicomUpdater.InsertTag` | src/components/DicomData/DicomUpdater.tsx:57-62 | the result is the bytes before the offset, the new tag, then the rest; its length is the sum (same code: tagEditor/tagEditor.js:55) |
| `DicomUpdater.RemoveTag` | src/components/DicomData/DicomUpdater.tsx:70-74 | for an entry inside the buffer, the result is the buffer with exactly the entry's bytes cut out (tagEditor/tagEditor.js:68 is the same code) |
| `DicomUpdater.ReplaceTag` | src/components/DicomData/DicomUpdater.tsx:83-93 | for an entry inside the buffer, its bytes are replaced by the new tag and the length changes by the difference (tagEditor/tagEditor.js:81 likewise) |
| `DicomUpdater.ReplaceIsRemoveThenInsert` | src/components/DicomData/DicomUpdater.tsx:83-93 | replacing an entry equals removing it and inserting the new tag at its offset |
| `DicomUpdater.RemoveUndoesInsert` | src/components/DicomData/DicomUpdater.tsx:57-74 | removing the entry just inserted gives the original buffer back |
| `DicomUpdater.GetEndian` | src/components/DicomData/DicomUpdater.tsx:187-199 | the loop answers big endian exactly when some entry declares the big-endian transfer syntax (tagEditor/tagEditor.js:142-152 likewise) |
| `DicomUpdater.CheckedSequences` | src/components/DicomData/DicomUpdater.tsx:208-223 | every tracked sequence that ends past the changed entry's offset (it may also start after it), other than the entry itself, grows by new length minus old length; the others and every entry are kept |
| `DicomUpdater.CheckSequences` | src/components/DicomData/DicomUpdater.tsx:208-223 | the in-place loop over the array leaves exactly the checked list (tagEditor/tagEditor.js:161-170 likewise) |
| `DicomUpdater.SQLengthField` | src/components/DicomData/DicomUpdater.tsx:657-691 | the "uint32" writer calls setUint16: the four bytes hold the length modulo 2^16 in the first two and zero in the last two |
| `DicomUpdater.RewriteSQLength` | src/components/DicomData/DicomUpdater.tsx:231-255 | for a sequence header inside the buffer the result is the buffer with only the four length-field bytes replaced by the new length field |
| `DicomUpdater.NewLengthField` | src/components/DicomData/DicomUpdater.tsx:242-247 | the length written is the tracked length less the header length, as the uint32 writer stores it (low 16 bits) |
| `DicomUpdater.RewriteInBounds` | src/components/DicomData/DicomUpdater.tsx:231-255 | the three `set` calls on a zeroed array fit and change only the field's four bytes |
| `DicomUpdater.SplicedIsConcatenation` | src/components/DicomData/DicomUpdater.tsx:248-251 | three `set` calls laid end to end from index 0 yield the three pieces followed by zeros |
| `DicomUpdater.WeightedSumIsValue` | src/components/DicomData/DicomUpdater.tsx:476-488 | the weighted sum readUint32's loop forms is the little-endian value of the bytes |
| `DicomUpdater.Uint32Value` | src/components/DicomData/DicomUpdater.tsx:476-488 | the value is a number exactly when four bytes are there, and then lies in [0, 2^32) |
| `DicomUpdater.ReadUint32` | src/components/DicomData/DicomUpdater.tsx:476-488 | the method with its reverse and sum loops computes the unsigned 32-bit value (tagEditor/tagEditor.js:323-335 likewise) |
| `DicomUpdater.Uint32ValueIsUnsigned` | src/components/DicomData/DicomUpdater.tsx:476-488 | the value read is the unsigned value of the first four bytes in the chosen byte order |
| `DicomUpdater.Uint32At` | src/components/DicomData/DicomUpdater.tsx:444-449 | a value read at an index is never negative |
| `DicomUpdater.Uint32AtIsSliceRead` | src/components/DicomData/DicomUpdater.tsx:444-449 | reading at an index is readUint32 of `slice(at, at + 4)`, negative indices counting from the end |
| `DicomUpdater.ItemLength` | src/components/DicomData/DicomUpdater.tsx:444-449 | an item's length is its length field plus the 8 header bytes, so at least 8 |
| `DicomUpdater.ItemsInStep` | src/components/DicomData/DicomUpdater.tsx:443-467 | one step of the item walk records the item and moves on by its length; a NaN length stops the walk |
| `DicomUpdater.ItemsInFirst` | src/components/DicomData/DicomUpdater.tsx:440-441 | the first item record starts where the walk starts |
| `DicomUpdater.ItemsInWithin` | src/components/DicomData/DicomUpdater.tsx:434-469 | every item record starts inside the sequence's value |
| `DicomUpdater.ItemsInChained` | src/components/DicomData/DicomUpdater.tsx:434-469 | each item with a successor has a known length of at least 8, and the successor starts where it ends |
| `DicomUpdater.ReadItemLength` | src/components/DicomData/DicomUpdater.tsx:444-449 | the loop body's length read equals the item length function |
| `DicomUpdater.GetItemsFromSequenceAsSequences` | src/components/DicomData/DicomUpdater.tsx:434-469 | the walk's result is the item list of the sequence |
| `DicomUpdater.ItemsFromStep` | src/components/DicomData/DicomUpdater.tsx:443-467 | each loop step appends one item and strictly shrinks the distance to the sequence's end |
| `DicomUpdater.AtOrAboveIsNotBelow` | src/components/DicomData/DicomUpdater.tsx:592-610 | the `>=` on the attribute strings is the negation of JavaScript's string `<` |
| `DicomUpdater.FirstAtOrAbove` | src/components/DicomData/DicomUpdater.tsx:598-608 | the index found is the first entry at or above the new tag; every entry before it is below |
| `DicomUpdater.NewTagOffset` | src/components/DicomData/DicomUpdater.tsx:592-610 | no offset (the TypeError of `entries[-1]`) exactly when there are no entries |
| `DicomUpdater.NewTagOffsetIsFirstNotBelow` | src/components/DicomData/DicomUpdater.tsx:598-608 | the new tag goes at the offset of the first entry, in ascending offset order, that is not below it |
| `DicomUpdater.NewTagOffsetAfterAll` | src/components/DicomData/DicomUpdater.tsx:609 | a tag above every entry goes at the end of the last entry |
| `DicomUpdater.FindOffsetForNewTag` | src/components/DicomData/DicomUpdater.tsx:592-610 | the method sorts the caller's array by ascending offset in place and returns the offset function's answer (tagEditor/tagEditor.js:434-452 likewise) |
| `DicomUpdater.Uint16Bytes` | src/components/DicomData/DicomUpdater.tsx:657-691 | the "uint16" writer yields two bytes holding the number modulo 2^16 |
| `DicomUpdater.Uint16Pair` | src/components/DicomData/DicomUpdater.tsx:621-637 | two numbers written one after the other, each modulo 2^16 in two bytes |
| `DicomUpdater.TagName` | src/components/DicomData/DicomUpdater.tsx:617-638 | writeTagName yields the four group and element bytes |
| `DicomUpdater.TagNameOfHexDigits` | src/components/DicomData/DicomUpdater.tsx:617-638 | four-digit hexadecimal group and element read back as their values from the two halves |
| `DicomUpdater.HexWord` | src/components/DicomData/DicomUpdater.tsx:621-632 | four hexadecimal digits parse to their value, below 2^16 |
| `DicomUpdater.WriteAttributeTag` | src/components/DicomData/DicomUpdater.tsx:356-377 | the AT case keeps the header and writes the two halves of the value as two 16-bit numbers |
| `DicomUpdater.CreatedHeader` | src/components/DicomData/DicomUpdater.tsx:263-287 | the header holds the tag name, the VR bytes and the length field, in an array of the element's whole length |
| `DicomUpdater.CreatedValue` | src/components/DicomData/DicomUpdater.tsx:289-383 | the switch keeps the header and the array's length |
| `DicomUpdater.NewTagBytes` | src/components/DicomData/DicomUpdater.tsx:263-385 | the built element has the element's length and starts with the tag name and the VR |
| `DicomUpdater.AttributeTagLengths` | src/components/DicomData/DicomUpdater.tsx:556-584 | an AT element has a four-byte value under an 8-byte header |
| `DicomUpdater.NewTagBytesMatchesCurrent` | src/components/DicomData/DicomUpdater.tsx:263-385 | outside UL, AT and the 12-byte-header VRs this createTag builds the same bytes as the current editor's |
| `DicomUpdater.NewTagBytesUnsignedLong` | src/components/DicomData/DicomUpdater.tsx:669-671 | UL stores only the low 16 bits of the parsed value and leaves the rest zero |
| `DicomUpdater.NewTagBytesAttributePair` | src/components/DicomData/DicomUpdater.tsx:356-377 | AT: a 12-byte element whose value is the first four characters and the rest read as hexadecimal |
| `DicomUpdater.NewTagBytesAttributeTag` | src/components/DicomData/DicomUpdater.tsx:356-377 | AT with eight hexadecimal digits stores the values of both halves |
| `DicomUpdater.HexValuePair` | src/components/DicomData/DicomUpdater.tsx:357-358 | the two halves of an eight-digit AT value read as their hexadecimal values |
| `DicomUpdater.NewTagBytesLengthField` | src/components/DicomData/DicomUpdater.tsx:269-285 | the length field holds the value length modulo 2^16 under either header |
| `DicomUpdater.NewTagBytesText` | src/components/DicomData/DicomUpdater.tsx:378-382 | a VR without a number writer stores the value's character codes from offset 8, as many as fit |
| `DicomUpdater.CreateTag` | src/components/DicomData/DicomUpdater.tsx:263-385 | the method builds exactly the created element's bytes |
| `DicomUpdater.CreateHeader` | src/components/DicomData/DicomUpdater.tsx:263-287 | the fresh array holds the header |
| `DicomUpdater.WriteCreatedValue` | src/components/DicomData/DicomUpdater.tsx:289-383 | the switch's writes turn the header array into the created value |
| `DicomUpdater.WriteAttributeTagAt` | src/components/DicomData/DicomUpdater.tsx:356-377 | the two uint16 writes at offsets 8 and 10 give the AT value |
| `DicomUpdater.AttributeTagSets` | src/components/DicomData/DicomUpdater.tsx:356-377 | the two `set` calls build the AT bytes |
| `DicomUpdater.OrderByOffset` | src/components/DicomData/DicomUpdater.tsx:506-514 | the result is in non-increasing offset order and a permutation of the input, the stable sort (tagEditor/tagEditor.js:353-360 likewise) |
| `DicomUpdater.Tracked` | src/components/DicomData/DicomUpdater.tsx:400-425 | the record pushed for a sequence tracks the sequence's own length |
| `DicomUpdater.GetSequences` | src/components/DicomData/DicomUpdater.tsx:400-425 | the recursive method leaves in the caller's array and returns what the aliasing function says |
| `DicomUpdater.FirstSequenceFrom` | src/components/DicomData/DicomUpdater.tsx:406-407 | the first SQ entry from k on, none before it |
| `DicomUpdater.GatherPassed` | src/components/DicomData/DicomUpdater.tsx:406-421 | the caller's array changes at the first SQ entry only, gaining that sequence's record |
| `DicomUpdater.SequencesSeenPassed` | src/components/DicomData/DicomUpdater.tsx:400-425 | after the call the caller's array holds its records plus the first sequence's, or is sorted in place when there is none |
| `DicomUpdater.SequencesSeenKeeps` | src/components/DicomData/DicomUpdater.tsx:400-425 | the caller's array only gains records |
| `DicomUpdater.GatherKeeps` | src/components/DicomData/DicomUpdater.tsx:406-421 | each SQ entry contributes its record and its items to the local list |
| `DicomUpdater.GetSequencesTracks` | src/components/DicomData/DicomUpdater.tsx:400-425 | the returned list holds every top-level sequence among the entries passed in and all of its items, in non-increasing offset order |
| `DicomUpdater.PruneFromDrops` | src/components/DicomData/DicomUpdater.tsx:522-539 | the pruning of handleSequenceChanges only drops changes |
| `DicomUpdater.SkipNestedDrops` | src/components/DicomData/DicomUpdater.tsx:527-535 | the inner loop only drops changes |
| `DicomUpdater.PruneWithoutSequences` | src/components/DicomData/DicomUpdater.tsx:522-539 | without a sequence change nothing is dropped |
| `DicomUpdater.PruneSkipsEveryOther` | src/components/DicomData/DicomUpdater.tsx:527-535 | of two changes nested in a sequence change, the nearer one is dropped and the next one is skipped, never compared |
| `DicomUpdater.HandledChangesFacts` | src/components/DicomData/DicomUpdater.tsx:522-539 | the handled list is offset-ordered, a permutation of the surviving changes plus an EDIT per tracked sequence, and the survivors are drawn from the changes |
| `DicomUpdater.HandleSequenceChanges` | src/components/DicomData/DicomUpdater.tsx:522-539 | the splicing loop leaves exactly the handled list |
| `DicomUpdater.AddSequences` | src/components/DicomData/DicomUpdater.tsx:495-500 | the changes plus an EDIT per tracked sequence, sorted by offset |
| `DicomUpdater.ElementAndGroup` | src/components/DicomData/DicomUpdater.tsx:546-550 | the four bytes at the offset when they are inside the buffer, at most four in any case |
| `DicomUpdater.FirstWithId` | src/components/DicomData/DicomUpdater.tsx:142-149 | the first tracked record with the entry's id, none before it |
| `DicomUpdater.ShiftUntil` | src/components/DicomData/DicomUpdater.tsx:142-149 | repeated `shift()` yields that record and what follows it, or nothing and an empty list |
| `DicomUpdater.ApplyAdd` | src/components/DicomData/DicomUpdater.tsx:116-136 | an ADD fails exactly when there are no entries |
| `DicomUpdater.ApplySequenceEdit` | src/components/DicomData/DicomUpdater.tsx:138-160 | an EDIT of a sequence or item leaves the records after its own on the list |
| `DicomUpdater.DicomFile.constructor` | src/components/DicomData/DicomUpdater.tsx:100-104 | the file holds the given bytes, pending changes and a fresh entries array |
| `DicomUpdater.ApplyOneChange` | src/components/DicomData/DicomUpdater.tsx:112-183 | one change as the forEach body does it; the entries are either untouched or sorted by offset |
| `DicomUpdater.AddTag` | src/components/DicomData/DicomUpdater.tsx:116-136 | the ADD branch's result, with the caller's entries sorted by ascending offset |
| `DicomUpdater.EditSequence` | src/components/DicomData/DicomUpdater.tsx:138-160 | the EDIT branch for a sequence or item |
| `DicomUpdater.ApplyAllChanges` | src/components/DicomData/DicomUpdater.tsx:100-185 | the new bytes or the exception that stopped it; the file's pending changes become the handled list and its entries are left alone or sorted |
| `DicomUpdater.ApplyEach` | src/components/DicomData/DicomUpdater.tsx:112-183 | the loop applies each change in turn, the first error ending it |
| `DicomUpdater.SequencesSeenPassedRecords` | src/components/DicomData/DicomUpdater.tsx:400-425 | the caller's array holds only sequence or item records |
| `DicomUpdater.GatherRecords` | src/components/DicomData/DicomUpdater.tsx:406-421 | the walk adds only records |
| `DicomUpdater.SeenRecords` | src/components/DicomData/DicomUpdater.tsx:400-425 | every returned record is a sequence or an item whose tracked length is its parsed length |
| `DicomUpdater.ApplyFromUnchanged` | src/components/DicomData/DicomUpdater.tsx:138-160 | EDITs of sequences and items leave the bytes alone while their tracked lengths are unchanged |
| `DicomUpdater.AppliedNoChanges` | src/components/DicomData/DicomUpdater.tsx:100-185 | with nothing to save the file's own bytes come back |
| `DicomUpdater.HandledRecordEdits` | src/components/DicomData/DicomUpdater.tsx:495-500 | with no pending changes the handled list holds only EDITs of sequences and items |
| `DicomUpdater.NothingTracked` | src/components/DicomData/DicomUpdater.tsx:400-425 | entries without a sequence track nothing |
| `DicomUpdater.HandledWithoutSequences` | src/components/DicomData/DicomUpdater.tsx:522-539 | with no sequences the handling only sorts the changes |
| `DicomUpdater.AppliedWithoutSequences` | src/components/DicomData/DicomUpdater.tsx:100-185 | a file without sequences has its changes applied one by one from the highest offset down |
| `DicomUpdater.ApplyOne` | src/components/DicomData/DicomUpdater.tsx:112-183 | a single change is applied and its buffer returned |
| `DicomUpdater.HandledSingle` | src/components/DicomData/DicomUpdater.tsx:522-539 | a single change that is no sequence change is left as it is |
| `DicomUpdater.AppliedSingle` | src/components/DicomData/DicomUpdater.tsx:100-185 | a single change to a file without sequences is that change applied to the file's bytes |
| `DicomUpdater.AppliedRemoval` | src/components/DicomData/DicomUpdater.tsx:178-181 | removing one element cuts exactly that element out |
| `DicomUpdater.AppliedEdit` | src/components/DicomData/DicomUpdater.tsx:161-177 | editing one element replaces it by the element rebuilt under its own group and element bytes |
| `DicomUpdater.AppliedAdditionWithoutEntries` | src/components/DicomData/DicomUpdater.tsx:592-610 | adding to a file with no entries stops with findOffsetForNewTag's TypeError |
| `DicomUpdater.AppliedAddition` | src/components/DicomData/DicomUpdater.tsx:116-136 | adding one element inserts the created element at the offset findOffsetForNewTag picks |
| `DicomUpdater.AddOnlyInserts` | src/components/DicomData/DicomUpdater.tsx:116-136 | a lone ADD with an insertion point inserts the created tag there |
| `DicomUpdater.AddInserts` | src/components/DicomData/DicomUpdater.tsx:116-136 | an ADD with an insertion point succeeds and inserts the created tag there |
| `StateStore.FindIndex` | src/State/Store.tsx:130-133 | -1 exactly when no pending edit has the same file name and tag id; otherwise the first index that has them |
| `StateStore.Upserted` | src/State/Store.tsx:135-144 | the edit is among the pending edits afterwards, and the list grows by at most one |
| `StateStore.UpsertedReplacesOrAppends` | src/State/Store.tsx:135-144 | an edit with a matching key replaces the first match in place; one without is appended |
| `StateStore.UpsertedFinds` | src/State/Store.tsx:128-145 | after the upsert the edit is found under its key |
| `StateStore.UpsertedKeepsOthers` | src/State/Store.tsx:128-145 | the list grows by one only for a new key, and every edit under another key keeps its place and value |
| `StateStore.UpsertedKeepsUnique` | src/State/Store.tsx:128-145 | a list with one edit per (file, tag) keeps that property |
| `StateStore.UpsertedIdempotent` | src/State/Store.tsx:128-145 | upserting the same edit twice is upserting it once |
| `StateStore.ToggledThemeAlternates` | src/State/Store.tsx:120-125 | the toggle gives "night" exactly from "corporate", always yields one of the two, and undoes itself on them |
| `StateStore.ClearedResetsDataOnly` | src/State/Store.tsx:156-164 | clearing empties the edits, data and files, resets the index, loading, sidebar and series, and keeps every other field |
| `StateStore.SeriesToggledInvolution` | src/State/Store.tsx:104 | the toggle flips the series flag and toggling twice restores the state |
| `StateStore.Store.constructor` | src/State/Store.tsx:73-168 | the initial state: empty lists, index 0, flags off, download option "zip" on Safari else the stored one or "single", theme the stored one or "corporate" |
| `StateStore.Store.SetNewTagValues` | src/State/Store.tsx:128-145 | only the pending edits change, to the upsert, and one edit per (file, tag) is preserved |
| `StateStore.Store.EmptyNewTagValues` | src/State/Store.tsx:146 | only the pending edits change, to none |
| `StateStore.Store.SetLoading` | src/State/Store.tsx:84 | only the loading flag changes |
| `StateStore.Store.SetSidePanelVisible` | src/State/Store.tsx:94 | only the side panel flag changes |
| `StateStore.Store.SetTags` | src/State/Store.tsx:154 | only the anonymisation tags change |
| `StateStore.Store.SetCurrentFileIndex` | src/State/Store.tsx:81 | only the index changes, to the value given, without a bounds check |
| `StateStore.Store.ToggleSeries` | src/State/Store.tsx:104 | only the series flag changes, to its negation |
| `StateStore.Store.ToggleTheme` | src/State/Store.tsx:120-125 | only the theme changes, between "corporate" and "night" |
| `StateStore.ToggledTheme` | src/State/Store.tsx:120-125 | the toggled theme always differs from the current one |
| `StateStore.SeriesToggled` | src/State/Store.tsx:104 | the series flag is negated and every other field is kept |
| `StateStore.Cleared` | src/State/Store.tsx:156-164 | the files, data and pending edits are emptied, the theme and tag list kept |
| `StateStore.Store.ClearData` | src/State/Store.tsx:156-164 | the state becomes the cleared state |
| `ComponentStore.ComponentClearedResetsSevenFields` | src/components/State/Store.tsx:139-147 | clearing resets the same seven fields and keeps the theme, tags, popup flag and the rest |
| `ComponentStore.ComponentCleared` | src/components/State/Store.tsx:139-147 | the files, data and pending edits are emptied, the theme and popup flag kept |
| `ComponentStore.Store.constructor` | src/components/State/Store.tsx:59-148 | the initial state of the older store, with the popup hidden |
| `ComponentStore.Store.SetNewTagValues` | src/components/State/Store.tsx:108-125 | the same upsert as the current store, keeping one edit per (file, tag) |
| `ComponentStore.Store.EmptyNewTagValues` | src/components/State/Store.tsx:126 | only the pending edits change, to none |
| `ComponentStore.Store.ToggleSeries` | src/components/State/Store.tsx:84 | only the series flag changes |
| `ComponentStore.Store.ToggleTheme` | src/components/State/Store.tsx:100-105 | only the theme changes, between "corporate" and "night" |
| `ComponentStore.Store.SetShowPopup` | src/components/State/Store.tsx:137 | only the popup flag changes |
| `ComponentStore.Store.ClearData` | src/components/State/Store.tsx:139-147 | the state becomes the cleared state |
| `AutoClean.FormattedData` | src/Features/AutoAnonymize/Functions/AutoClean.ts:16-40 | at most one record per entry of the list |
| `AutoClean.FormattedDataMembers` | src/Features/AutoAnonymize/Functions/AutoClean.ts:19-37 | every record is built from a listed tag present in the file, with its value, VR or "NO", and data offset; every present listed tag yields a record |
| `AutoClean.FormattedDataAppend` | src/Features/AutoAnonymize/Functions/AutoClean.ts:19-37 | formatting distributes over the list, so records come in the list's order |
| `AutoClean.FormattedDataOne` | src/Features/AutoAnonymize/Functions/AutoClean.ts:20-36 | one entry yields its record exactly when its tag is present |
| `AutoClean.FormattedRecord` | src/Features/AutoAnonymize/Functions/AutoClean.ts:23-35 | the record carries the listed tag id and value, the element's VR or "NO", its data offset, the value's length and no delete flag |
| `AutoClean.NoneListedNoRecords` | src/Features/AutoAnonymize/Functions/AutoClean.ts:20-22 | a file with none of the listed tags gets no record |
| `AutoClean.FormatData` | src/Features/AutoAnonymize/Functions/AutoClean.ts:16-40 | the forEach with its early return builds the formatted records (src/components/Auto/AutoClean.ts:15-39 is the same code) |
| `AutoClean.TelephoneFormattedTwice` | src/Features/AutoAnonymize/Functions/AutoClean.ts:19-37 | a tag listed twice in the anonymisation list (X00102154) is formatted twice |
| `AutoClean.FindRecord` | src/Features/AutoAnonymize/Functions/AutoClean.ts:61-63 | `findIndex` finds the first record with the id, or none has it |
| `AutoClean.OverrideOne` | src/Features/AutoAnonymize/Functions/AutoClean.ts:60-67 | one anonTag sets the value of the first record with its id; nothing else changes |
| `AutoClean.LastValueFor` | src/Features/AutoAnonymize/Functions/AutoClean.ts:60-67 | no value exactly when no anonTag has the id |
| `AutoClean.OverriddenValues` | src/Features/AutoAnonymize/Functions/AutoClean.ts:60-67 | after all anonTags, the first record with each id carries the last anonTag value for it; the rest keep their values and every other field |
| `AutoClean.UnmatchedOverrideChangesNothing` | src/Features/AutoAnonymize/Functions/AutoClean.ts:64-66 | an anonTag whose id is not formatted changes nothing |
| `AutoClean.OverrideValues` | src/Features/AutoAnonymize/Functions/AutoClean.ts:60-67 | the override loop computes the overridden records |
| `AutoClean.Collected` | src/Features/AutoAnonymize/Functions/AutoClean.ts:56-72 | the collected files are one per result |
| `AutoClean.CollectedFacts` | src/Features/AutoAnonymize/Functions/AutoClean.ts:56-72 | collecting succeeds exactly when every iteration does, keeps each result, and otherwise reports an iteration's error |
| `AutoClean.CollectedStopsAtError` | src/Features/AutoAnonymize/Functions/AutoClean.ts:56-72 | the first thrown error ends the forEach |
| `AutoClean.AsEdits` | src/Features/AutoAnonymize/Functions/AutoClean.ts:69 | the records become edits with the same ids and values, neither deletions nor additions |
| `AutoClean.AutoAnonOneFilePerFile` | src/Features/AutoAnonymize/Functions/AutoClean.ts:56-72 | a successful run yields one file per input, named after the file at the same index |
| `AutoClean.NoneListedNoEdits` | src/Features/AutoAnonymize/Functions/AutoClean.ts:57-67 | a file holding none of the listed tags gets no edit |
| `AutoClean.AutoAnonCopiesFirstFile` | src/Features/AutoAnonymize/Functions/AutoClean.ts:69 | as written, a file holding none of the listed tags comes out as the first file's bytes |
| `AutoClean.AutoAnonOwnFilesKeepsFile` | src/Features/AutoAnonymize/Functions/AutoClean.ts:56-72 | with each file's edits applied to that file, such a file comes out unchanged |
| `AutoClean.EditFile` | src/Features/AutoAnonymize/Functions/AutoClean.ts:57-71 | one iteration: format, override, tagUpdater on the first file's data set, createFile; an index past the files is a TypeError |
| `AutoClean.AutoAnon` | src/Features/AutoAnonymize/Functions/AutoClean.ts:49-76 | the result is the as-written run over the anonymisation list |
| `AutoClean.AutoAnonWith` | src/Features/AutoAnonymize/Functions/AutoClean.ts:56-72 | the forEach collects the iterations' files, stopping at the first error |
| `AutoClean.Snapshots` | src/components/Auto/AutoClean.ts:52-57 | one data set per parsed file |
| `AutoClean.SnapshotsAre` | src/components/Auto/AutoClean.ts:52-57 | the snapshots are the files' current data sets |
| `AutoClean.FirstFileRun` | src/components/Auto/AutoClean.ts:52-57 | after n iterations there are n files |
| `AutoClean.FirstFileStep` | src/components/Auto/AutoClean.ts:53-56 | an error stays; a successful step appends a file named after files[index] |
| `AutoClean.FirstFileRunNames` | src/components/Auto/AutoClean.ts:52-57 | the i-th file is named after files[i] |
| `AutoClean.FirstFileRunStops` | src/components/Auto/AutoClean.ts:52-57 | the first error ends the run |
| `AutoClean.FirstFileRunCopies` | src/components/Auto/AutoClean.ts:52-57 | with nothing to anonymise the first file is untouched and every file comes out as its bytes |
| `AutoClean.AutoAnonFirstFile` | src/components/Auto/AutoClean.ts:48-61 | the method leaves the first file's object updated in place, every file's edits applied to it, and returns the run's files |
| `AutoClean.FirstFileIteration` | src/components/Auto/AutoClean.ts:53-56 | one iteration on the first file's object |
| `AutoClean.SnapshotAt` | src/components/Auto/AutoClean.ts:52-57 | the i-th snapshot is the i-th file's data set |
| `AutoClean.Outcomes` | src/components/Auto/AutoClean.tsx:52-56 | one updater outcome per file |
| `AutoClean.OutcomesAt` | src/components/Auto/AutoClean.tsx:53 | each outcome is the updater on that file with the shared edits |
| `AutoClean.NamedResults` | src/components/Auto/AutoClean.tsx:55 | one named result per outcome |
| `AutoClean.NamedResultsAt` | src/components/Auto/AutoClean.tsx:55 | each named result is its outcome named after files[i] |
| `AutoClean.EachStates` | src/components/Auto/AutoClean.tsx:52-56 | one data set per file after the loop |
| `AutoClean.UpdatedUpTo` | src/components/Auto/AutoClean.tsx:52-56 | one data set per file after n iterations |
| `AutoClean.UpdatedUpToNone` | src/components/Auto/AutoClean.tsx:52-56 | before the loop every file holds its own data set |
| `AutoClean.UpdatedUpToStep` | src/components/Auto/AutoClean.tsx:53 | an iteration replaces exactly the n-th file's data set by its outcome |
| `AutoClean.EachStatesStop` | src/components/Auto/AutoClean.tsx:52-56 | the files after the first error keep their data sets |
| `AutoClean.SingleFormatSharedEdits` | src/components/Auto/AutoClean.tsx:50-56 | every file receives the edits formatted from the first file, and is named after its own file name |
| `AutoClean.SingleFormatFirstFileDecides` | src/components/Auto/AutoClean.tsx:50 | when the first file holds none of the listed tags, every file comes out unchanged |
| `AutoClean.EditInPlace` | src/components/Auto/AutoClean.tsx:53-55 | one iteration updates that file's object in place and names its bytes |
| `AutoClean.AutoAnonSingleFormat` | src/components/Auto/AutoClean.tsx:48-60 | the result is the single-format run, a TypeError without a first file |
| `AutoClean.UpdateEach` | src/components/Auto/AutoClean.tsx:52-56 | the forEach collects the named outcomes and leaves each file's object updated up to the first error |
| `AutoConfirmPanel.WithoutTag` | src/Features/AutoAnonymize/Components/AutoConfirmPanel.tsx:53 | the filtered list is no longer than the list and holds no tag with the deleted id |
| `AutoConfirmPanel.WithoutTagKeepsOthers` | src/Features/AutoAnonymize/Components/AutoConfirmPanel.tsx:53 | a tag survives the filter exactly when it was listed and has another id |
| `AutoConfirmPanel.WithoutTagAppend` | src/Features/AutoAnonymize/Components/AutoConfirmPanel.tsx:53 | filtering a concatenation filters each part |
| `AutoConfirmPanel.AllKeptWithout` | src/Features/AutoAnonymize/Components/AutoConfirmPanel.tsx:53 | deleting an id no tag has leaves the list as it was |
| `AutoConfirmPanel.WithoutTagSubsequence` | src/Features/AutoAnonymize/Components/AutoConfirmPanel.tsx:53 | filtering a list with distinct ids keeps the ids distinct |
| `AutoConfirmPanel.WithValue` | src/Features/AutoAnonymize/Components/AutoConfirmPanel.tsx:57-62 | the map keeps the length of the tag list |
| `AutoConfirmPanel.UpdatedTags` | src/Features/AutoAnonymize/Components/AutoConfirmPanel.tsx:45-66 | after a delete no tag has the id; otherwise some tag has the id and the new value, and the list grows by one exactly when the id was not listed |
| `AutoConfirmPanel.UpdatedTagsSetsMatching` | src/Features/AutoAnonymize/Components/AutoConfirmPanel.tsx:56-62 | for a listed id, every tag with it takes the new value, keeping id and name, and every other tag is unchanged |
| `AutoConfirmPanel.UpdatedTagsAppendsUnknown` | src/Features/AutoAnonymize/Components/AutoConfirmPanel.tsx:63 | an unlisted id is appended with an empty name and the new value |
| `AutoConfirmPanel.UpdatedTagsIdempotent` | src/Features/AutoAnonymize/Components/AutoConfirmPanel.tsx:45-66 | repeating the same update changes nothing more |
| `AutoConfirmPanel.UpdatedTagsKeepsIdsUnique` | src/Features/AutoAnonymize/Components/AutoConfirmPanel.tsx:45-66 | a list with distinct ids keeps them distinct through any update or delete |
| `AutoConfirmPanel.FileUpdates` | src/Features/AutoAnonymize/Components/AutoConfirmPanel.tsx:111-122 | a file gets at most one pending edit per listed tag |
| `AutoConfirmPanel.FileUpdatesStep` | src/Features/AutoAnonymize/Components/AutoConfirmPanel.tsx:111-122 | one more listed tag adds its edit, not added nor deleted, exactly when the file holds the tag |
| `AutoConfirmPanel.FileUpdatesExactly` | src/Features/AutoAnonymize/Components/AutoConfirmPanel.tsx:111-122 | an edit is emitted for a file exactly when it carries a listed tag the file holds, with that tag's new value |
| `AutoConfirmPanel.ShownFiles` | src/Features/AutoAnonymize/Components/AutoConfirmPanel.tsx:110-112 | the files visited are those with parsed data: all files, or as many as there are parsed files |
| `AutoConfirmPanel.EmittedExactly` | src/Features/AutoAnonymize/Components/AutoConfirmPanel.tsx:110-123 | the edits of the first n files are exactly the union of each file's own edits |
| `AutoConfirmPanel.EmittedNone` | src/Features/AutoAnonymize/Components/AutoConfirmPanel.tsx:110 | no file visited, no edit emitted |
| `AutoConfirmPanel.EmittedStep` | src/Features/AutoAnonymize/Components/AutoConfirmPanel.tsx:110-123 | visiting one more file appends that file's edits |
| `AutoConfirmPanel.UpsertedAll` | src/Features/AutoAnonymize/Components/AutoConfirmPanel.tsx:120 | upserting a run of edits adds at most one entry per edit |
| `AutoConfirmPanel.UpsertedAllNone` | src/Features/AutoAnonymize/Components/AutoConfirmPanel.tsx:120 | upserting no edit leaves the pending list unchanged |
| `AutoConfirmPanel.UpsertedAllStep` | src/Features/AutoAnonymize/Components/AutoConfirmPanel.tsx:120 | one more edit is one more upsert on the result |
| `AutoConfirmPanel.UpsertedAllAppend` | src/Features/AutoAnonymize/Components/AutoConfirmPanel.tsx:120 | upserting two runs is upserting the first, then the second |
| `AutoConfirmPanel.UpsertedAllKeepsUnique` | src/Features/AutoAnonymize/Components/AutoConfirmPanel.tsx:120 | a pending list with unique file/tag keys keeps them unique |
| `AutoConfirmPanel.UpsertedAllHoldsKeys` | src/Features/AutoAnonymize/Components/AutoConfirmPanel.tsx:120 | after the run, every emitted edit's key is found in the pending list |
| `AutoConfirmPanel.UpsertedKeepsKey` | src/Features/AutoAnonymize/Components/AutoConfirmPanel.tsx:120 | an upsert never loses a key already pending |
| `AutoConfirmPanel.SidePanel.constructor` | src/Features/AutoAnonymize/Components/AutoConfirmPanel.tsx:30-32 | the panel starts with no PII, not found, reset 0, on the given store |
| `AutoConfirmPanel.SidePanel.HandleUpdateValue` | src/Features/AutoAnonymize/Components/AutoConfirmPanel.tsx:45-66 | the store's tag list becomes the updated list and nothing else in the store changes |
| `AutoConfirmPanel.SidePanel.ShowUpdates` | src/Features/AutoAnonymize/Components/AutoConfirmPanel.tsx:102-129 | the pending edits become the upsert of every visited file's edits; on success loading and the panel go off and the PII is cleared; a file without parsed data throws with loading still on |
| `AutoConfirmPanel.SidePanel.EmitUpdates` | src/Features/AutoAnonymize/Components/AutoConfirmPanel.tsx:110-123 | only the pending edits change, to the upsert of the visited files' edits; it fails exactly when a file lacks parsed data and tags are listed |
| `AutoConfirmPanel.SidePanel.EmitFile` | src/Features/AutoAnonymize/Components/AutoConfirmPanel.tsx:111-122 | one file's pass extends the pending edits by that file's edits |
| `AutoConfirmPanel.SidePanel.EmitFileUpdates` | src/Features/AutoAnonymize/Components/AutoConfirmPanel.tsx:111-122 | the inner forEach upserts exactly the file's edits, in tag-list order |
| `AutoConfirmPanel.SidePanel.FinishAutoAnon` | src/Features/AutoAnonymize/Components/AutoConfirmPanel.tsx:86-91 | the store is cleared, the panel closed, the tag list and PII emptied, and `prev++` leaves reset as it was |
| `AutoConfirmPanel.SidePanel.Cancel` | src/Features/AutoAnonymize/Components/AutoConfirmPanel.tsx:167-174 | the panel closes and the tag list and PII are emptied; nothing else in the store changes and reset keeps its value |
| `DictTagsEdit.FindTag` | src/Features/TagDictEditor/DictTagsEdit.tsx:73-75 | an entry is found exactly when some dictionary entry has the id, and the entry found is one of them |
| `DictTagsEdit.ChangesAddedFacts` | src/Features/TagDictEditor/DictTagsEdit.tsx:63-84 | a delete records a removal under the id; an edit of a known id records that entry renamed, keeping id and VR; an edit of an unknown id changes nothing; other ids keep their changes, and every change stays keyed by its own id |
| `DictTagsEdit.AddTagError` | src/Features/TagDictEditor/DictTagsEdit.tsx:90-102 | the id error exactly when the id is not 8 characters or parseInt reads no number; the name error exactly when the id passes and the name is empty; no error otherwise |
| `DictTagsEdit.DecimalTagIdAccepted` | src/Features/TagDictEditor/DictTagsEdit.tsx:90 | eight decimal digits and a name pass |
| `DictTagsEdit.DigitLedTagIdAccepted` | src/Features/TagDictEditor/DictTagsEdit.tsx:90 | any eight characters led by a digit not followed by an x pass, since parseInt reads the leading digits |
| `DictTagsEdit.LetterLedTagIdRejected` | src/Features/TagDictEditor/DictTagsEdit.tsx:90-95 | an id led by a letter beyond F is refused with the id message |
| `DictTagsEdit.DictTagsEditor.constructor` | src/Features/TagDictEditor/DictTagsEdit.tsx:55-85 | the form starts empty and hidden with no pending change |
| `DictTagsEdit.DictTagsEditor.AddChanges` | src/Features/TagDictEditor/DictTagsEdit.tsx:55-85 | the pending map becomes the map with the change added, and the form is untouched |
| `DictTagsEdit.DictTagsEditor.AddTag` | src/Features/TagDictEditor/DictTagsEdit.tsx:87-116 | rejected input changes nothing and raises the check's message; accepted input submits the id, the typed name and the VR, and clears and hides the form only when the store accepted it |
| `DictTagsEdit.DictTagsEditor.HandleUpdateValue` | src/Features/TagDictEditor/DictTagsEdit.tsx:118-151 | successes and failures add up to the pending changes, successes are the changes the store accepted, the pending map is emptied and the message reports both counts |
| `DictTagsEdit.CountOutcomes` | src/Features/TagDictEditor/DictTagsEdit.tsx:126-136 | every pending change counts once, as a success exactly when the store accepted it |
| `DictTagsEdit.SucceedingStep` | src/Features/TagDictEditor/DictTagsEdit.tsx:126-136 | one more change visited adds one success exactly when it succeeded |
| `DictTagsEdit.SaveMessageFullyIffNoFailure` | src/Features/TagDictEditor/DictTagsEdit.tsx:141-149 | the message says the updates were saved exactly when nothing failed |
| `PiiDetection.PiiPatternIsOneOrTwoWords` | src/Features/AutoAnonymize/Functions/PIIDetection.ts:23 | the pattern matches exactly the values that split on spaces into one or two non-empty runs of ASCII letters |
| `PiiDetection.ReportedValueShape` | src/Features/AutoAnonymize/Functions/PIIDetection.ts:91-98 | a value that passes the test is letters and spaces only and holds at least one lower-case letter |
| `PiiDetection.FirstAndLastNameLooksLikePii` | src/Features/AutoAnonymize/Functions/PIIDetection.ts:91-98 | a mixed-case first and last name passes the test |
| `PiiDetection.CapitalsNotPii` | src/Features/AutoAnonymize/Functions/PIIDetection.ts:97 | a value without lower-case letters never passes, whatever else it is |
| `PiiDetection.PlaceholderNotPii` | src/Features/AutoAnonymize/Functions/PIIDetection.ts:24-34 | a listed placeholder, in any case, never passes |
| `PiiDetection.NotedAppendsReportable` | src/Features/AutoAnonymize/Functions/PIIDetection.ts:83-101 | one tag either leaves the found list alone or is appended, and then it is reportable |
| `PiiDetection.ScanTags` | src/Features/AutoAnonymize/Functions/PIIDetection.ts:82-117 | scanning a file's tags only ever extends the found list |
| `PiiDetection.ScanTagsDistinct` | src/Features/AutoAnonymize/Functions/PIIDetection.ts:99-100 | a tag id is reported at most once |
| `PiiDetection.ScanTagsSound` | src/Features/AutoAnonymize/Functions/PIIDetection.ts:82-117 | every tag the scan adds is one of the file's tags and reportable |
| `PiiDetection.ScanTagsComplete` | src/Features/AutoAnonymize/Functions/PIIDetection.ts:82-117 | every reportable tag of the file has its id in the result |
| `PiiDetection.ScanFiles` | src/Features/AutoAnonymize/Functions/PIIDetection.ts:74-118 | the scan fails exactly when some file has no tags object |
| `PiiDetection.ScanFilesDistinct` | src/Features/AutoAnonymize/Functions/PIIDetection.ts:74-118 | the ids reported over all files are distinct |
| `PiiDetection.ScanFilesSound` | src/Features/AutoAnonymize/Functions/PIIDetection.ts:74-118 | every reported tag is reportable and comes from some file |
| `PiiDetection.ScanFilesComplete` | src/Features/AutoAnonymize/Functions/PIIDetection.ts:74-118 | every reportable tag of every file has its id reported |
| `PiiDetection.ScanTagsAppend` | src/Features/AutoAnonymize/Functions/PIIDetection.ts:82-117 | scanning two tag lists in turn is scanning them joined |
| `PiiDetection.ScanFilesIsOneScan` | src/Features/AutoAnonymize/Functions/PIIDetection.ts:74-118 | the scan over the files is one scan over all their tags, files in order |
| `PiiDetection.FirstOccurrencesHasId` | src/Features/AutoAnonymize/Functions/PIIDetection.ts:99 | an id is among the first occurrences exactly when some reportable tag carries it |
| `PiiDetection.ScanPrefixIsFirstOccurrences` | src/Features/AutoAnonymize/Functions/PIIDetection.ts:82-117 | scanning any prefix of the tags keeps exactly its first occurrences, in order |
| `PiiDetection.ScanFilesFirstOccurrences` | src/Features/AutoAnonymize/Functions/PIIDetection.ts:74-118 | the reported list is the reportable tags, in file order then tag order, that have no reportable tag of the same id before them |
| `PiiDetection.FirstOccurrencesExactly` | src/Features/AutoAnonymize/Functions/PIIDetection.ts:91-101 | every reported tag is the first reportable tag of its id, and every such first tag is reported |
| `PiiDetection.FindPii` | src/Features/AutoAnonymize/Functions/PIIDetection.ts:47-140 | the found flag is set exactly when something was reported; on success the result is the scan's, i.e. the first reportable tag of each id in file order, with the no-PII alert exactly when it is empty; a file without tags gives no result and the error alert |
| `TagDictionaryStore.AddedThenLookup` | src/Services/TagDictionaryDB.ts:117-135 | adding a new id makes it found with the added entry; adding a known id changes nothing; other ids are unaffected; every entry stays under its own id |
| `TagDictionaryStore.UpdatedThenLookup` | src/Services/TagDictionaryDB.ts:182-197 | updating a known id makes it found with the new entry; updating an unknown id changes nothing; other ids are unaffected; entries stay under their ids |
| `TagDictionaryStore.RemovedThenLookup` | src/Services/TagDictionaryDB.ts:240-245 | after a delete the id is not found, other ids are unaffected, entries stay under their ids |
| `TagDictionaryStore.FirstWithId` | src/Services/TagDictionaryDB.ts:289-300 | the position of the first default with the id, or the length when none has it |
| `TagDictionaryStore.LoadedKeepsFirst` | src/Services/TagDictionaryDB.ts:289-300 | adding the defaults one by one stores exactly the ids some default has, each with its first default, since a later add of the same id is refused |
| `TagDictionaryStore.FirstWithIdPrefix` | src/Services/TagDictionaryDB.ts:289-300 | the first position in a longer list is the one in its front, or the last position when only that one has the id |
| `TagDictionaryStore.LoadedDistinct` | src/Services/TagDictionaryDB.ts:289-300 | with distinct ids every default is found as it is, and every stored id comes from a default |
| `TagDictionaryStore.DistinctStep` | src/Services/TagDictionaryDB.ts:289-300 | the defaults stay distinct with one more exactly when its id first occurs there |
| `TagDictionaryStore.TagDictionaryDB.constructor` | src/Services/TagDictionaryDB.ts:18-20 | a new service has no connection |
| `TagDictionaryStore.TagDictionaryDB.InitDB` | src/Services/TagDictionaryDB.ts:25-63 | it succeeds exactly when the database opens, and then holds its store; a failure keeps the field as it was |
| `TagDictionaryStore.TagDictionaryDB.Connect` | src/Services/TagDictionaryDB.ts:70-76 | an open connection is kept; otherwise one is opened, and the operation may go on exactly when a store is there |
| `TagDictionaryStore.TagDictionaryDB.GetAllTags` | src/Services/TagDictionaryDB.ts:69-95 | without a database the list is empty; with one it holds every stored entry once, under its own id, in ascending key order |
| `TagDictionaryStore.TagDictionaryDB.AddTag` | src/Services/TagDictionaryDB.ts:102-158 | without a database nothing is added; otherwise the result is true exactly when the id was new, and the store becomes the store with the entry added |
| `TagDictionaryStore.TagDictionaryDB.UpdateTag` | src/Services/TagDictionaryDB.ts:165-220 | without a database nothing is updated; otherwise the result is true exactly when the id was stored, and the store becomes the store with the entry overwritten |
| `TagDictionaryStore.TagDictionaryDB.RemoveTag` | src/Services/TagDictionaryDB.ts:227-259 | without a database the result is false; otherwise the id is deleted and the result is true whether or not it was stored |
| `TagDictionaryStore.TagDictionaryDB.GetTag` | src/Services/TagDictionaryDB.ts:327-358 | without a database the result is null; otherwise it is the entry stored under the id, or null |
| `TagDictionaryStore.TagDictionaryDB.ResetToDefaults` | src/Services/TagDictionaryDB.ts:265-320 | without a database the result is false; otherwise the store becomes the defaults added one by one, and the result is true exactly when no default's id repeats an earlier one |
| `TagDictionaryTable.MatchingTags` | src/Features/TagDictEditor/TagDictionaryTable.tsx:50-56 | the kept entries are exactly the listed entries whose id or name holds the query, compared in lower case |
| `TagDictionaryTable.FilteredTags` | src/Features/TagDictEditor/TagDictionaryTable.tsx:45-57 | only listed entries are kept, and a blank query keeps the whole list |
| `TagDictionaryTable.FilteredTagsMembership` | src/Features/TagDictEditor/TagDictionaryTable.tsx:50-56 | with a non-blank query an entry is shown exactly when it is listed and matches |
| `TagDictionaryTable.MatchingTagsAppend` | src/Features/TagDictEditor/TagDictionaryTable.tsx:51-56 | filtering keeps the list's order: filtering a concatenation filters each part |
| `TagDictionaryTable.MatchesIgnoresQueryCase` | src/Features/TagDictEditor/TagDictionaryTable.tsx:50 | upper- or lower-casing the query does not change which entries match |
| `TagDictionaryTable.OccursAtLower` | src/Features/TagDictEditor/TagDictionaryTable.tsx:53-54 | an occurrence survives lower-casing both strings |
| `TagDictionaryTable.ContainedQueryMatches` | src/Features/TagDictEditor/TagDictionaryTable.tsx:53-54 | a query found verbatim in the id or name matches |
| `TagDictionaryTable.VisibleTags` | src/Features/TagDictEditor/TagDictionaryTable.tsx:130 | the rows shown are the first displayCount filtered entries, or all of them |
| `TagDictionaryTable.LoadMoreButton` | src/Features/TagDictEditor/TagDictionaryTable.tsx:154-167 | the button is there exactly when entries are hidden, and it counts the hidden entries |
| `TagDictionaryTable.LoadMoreButtonIffRowsHidden` | src/Features/TagDictEditor/TagDictionaryTable.tsx:130-167 | the button shows exactly when fewer rows are shown than match, and its count is the difference |
| `TagDictionaryTable.LoadedMoreProgress` | src/Features/TagDictEditor/TagDictionaryTable.tsx:59-63 | a press shows 50 more rows, or the rest, and never more than match |
| `TagDictionaryTable.PressedReachesAll` | src/Features/TagDictEditor/TagDictionaryTable.tsx:59-63 | enough presses show every matching row and the button goes away |
| `TagDictionaryTable.TablePage.constructor` | src/Features/TagDictEditor/TagDictionaryTable.tsx:42 | 50 rows are shown at first |
| `TagDictionaryTable.TablePage.LoadMoreRows` | src/Features/TagDictEditor/TagDictionaryTable.tsx:59-63 | the count becomes the clamped count after one press |
| `TagDictionaryTable.EmptyMessage` | src/Features/TagDictEditor/TagDictionaryTable.tsx:169-180 | a message shows exactly when nothing is listed; it is the no-match message exactly when a query was typed |
| `TagDictionaryTable.EmptyMessageWhenNothingListed` | src/Features/TagDictEditor/TagDictionaryTable.tsx:45-180 | with a blank query the message shows exactly when the dictionary is empty; otherwise exactly when no entry matches |
| `TagDictionaryTable.PendingValue` | src/Features/TagDictEditor/TagDictionaryTable.tsx:145-149 | a row gets a pending value exactly when its change is a revision, and the value is the revised entry's VR, never with a pending delete |
| `TagDictionaryTable.PendingValueAfterChange` | src/Features/TagDictEditor/TagDictionaryTable.tsx:145-149 | after a rename of a known entry its row shows that entry's VR as the pending value; after a delete it shows a pending delete |
| `TagDictionaryTable.PendingValueShowsVR` | src/Features/TagDictEditor/TagDictionaryTable.tsx:147 | renaming PatientName shows "PN", its VR, not the new name |
| `TagDictionaryTable.Rows` | src/Features/TagDictEditor/TagDictionaryTable.tsx:130-152 | one row per visible entry, with its position, id, name and VR, and its pending delete and pending value |
| `TagDictionaryTable.RowsPendingExclusive` | src/Features/TagDictEditor/TagDictionaryTable.tsx:133-149 | no row is both pending delete and carries a pending value |
| `FilteredRows.FilteredRows` | src/Hooks/useFilteredRows.ts:12-34 | the kept rows are exactly the given rows that match, and no more than were given |
| `FilteredRows.EmptyTermKeepsAll` | src/Hooks/useFilteredRows.ts:12-34 | an empty search keeps every row in order |
| `FilteredRows.FilteredRowsAppend` | src/Hooks/useFilteredRows.ts:12-34 | filtering keeps row order: filtering a concatenation filters each part |
| `FilteredRows.AllMatchingKept` | src/Hooks/useFilteredRows.ts:12-34 | when every row matches the list is unchanged |
| `FilteredRows.FilteredRowsIdempotent` | src/Hooks/useFilteredRows.ts:12-34 | filtering twice with the same term filters once |
| `FilteredRows.FirstCharAbsent` | src/Hooks/useFilteredRows.ts:14-16 | a term whose first character the text lacks does not occur in it |
| `FilteredRows.GrandchildNotSearched` | src/Hooks/useFilteredRows.ts:20-29 | a sequence row is kept for its direct children only: a term held only by a grandchild does not keep it |
| `DownloadFuncs.EditedName` | src/DataFunctions/DicomData/DownloadFuncs.ts:62-66 | the name always ends in "_edited.dcm"; a name holding ".dcm" anywhere loses its last four characters first, any other keeps its whole text |
| `DownloadFuncs.DcmNameKeepsStem` | src/DataFunctions/DicomData/DownloadFuncs.ts:62-66 | a name ending in ".dcm" keeps its stem |
| `DownloadFuncs.CreateFile` | src/DataFunctions/DicomData/DownloadFuncs.ts:57-67 | the file keeps the given bytes and its name ends in "_edited.dcm" |
| `DownloadFuncs.EditedTwice` | src/DataFunctions/DicomData/DownloadFuncs.ts:62-66 | an edited file edited again gains a second suffix |
| `DownloadFuncs.InnerDcmDropsLastFour` | src/DataFunctions/DicomData/DownloadFuncs.ts:62-66 | ".dcm" inside the name drops the last four characters whatever they are |
| `TagsAnonList.Ids` | src/Features/AutoAnonymize/Functions/PIIDetection.ts:87 | the ids of the anonymisation table, in its order, one per entry |
| `TagsAnonList.TelephoneListedTwice` | src/Features/AutoAnonymize/Functions/TagsAnon.ts:30-151 | the table has 36 entries and lists the telephone-number tag twice |
| `TagDictionary.KeyOf` | src/DataFunctions/TagDictionary/dictionary.ts:27 | the key is the tag without its first character, and empty for an empty tag |
| `TagDictionary.LookupTagName` | src/DataFunctions/TagDictionary/dictionary.ts:24-34 | a tag whose key is in the dictionary gets that entry's name, any other tag gets "Unknown" |
| `TagDictionary.LookupTagVR` | src/DataFunctions/TagDictionary/dictionary.ts:41-51 | a tag whose key is in the dictionary gets that entry's VR, any other tag gets "Unknown" |
| `TagDictionary.Lookup` | tagDictionary/dictionary.js:66-75 | the result is "Unknown" or the name of some entry |
| `TagDictionary.LookupIsLookupTagName` | tagDictionary/dictionary.js:66-75 | the older lookup and lookupTagName agree on every tag |
| `TagDictionary.LookupFindsKey` | src/DataFunctions/TagDictionary/dictionary.ts:24-51 | any one-character prefix before a known key finds that key's name and VR |
| `TagDictionary.UnknownIffMissing` | src/DataFunctions/TagDictionary/dictionary.ts:24-34 | when no entry is itself named "Unknown", the answer is "Unknown" exactly when the key is missing |
| `TagDictionary.CommaTagUnknown` | src/DataFunctions/TagDictionary/dictionary.ts:24-51 | a tag written with a comma after its first character is never found in a dictionary whose keys have no comma |
| `FileProcessor.ParentPathBeforeLastSlash` | src/DataFunctions/DicomData/FileProcessor.ts:78 | the parent path is everything before the last '/', and empty without a '/' |
| `FileProcessor.DirectoryOf` | src/DataFunctions/DicomData/FileProcessor.ts:77-78 | a file's directory is never empty |
| `FileProcessor.TopLevelGoesToRoot` | src/DataFunctions/DicomData/FileProcessor.ts:77-78 | a file with no '/' in its relative path, or none at all, is filed under "root" |
| `FileProcessor.NestedFileGoesToFolder` | src/DataFunctions/DicomData/FileProcessor.ts:77-78 | a file at "folder/name" is filed under "folder" |
| `FileProcessor.Grouped` | src/DataFunctions/DicomData/FileProcessor.ts:73-88 | no group is keyed by the empty string |
| `FileProcessor.FilesIn` | src/DataFunctions/DicomData/FileProcessor.ts:80-84 | the files of a directory are among the uploaded files and all filed there |
| `FileProcessor.GroupedKeys` | src/DataFunctions/DicomData/FileProcessor.ts:73-88 | the groups are exactly the directories of the uploaded files |
| `FileProcessor.GroupedByDirectory` | src/DataFunctions/DicomData/FileProcessor.ts:73-88 | each group holds exactly the uploaded files of its directory, in upload order |
| `FileProcessor.FilesInNone` | src/DataFunctions/DicomData/FileProcessor.ts:80-84 | a directory no file is in gets no files |
| `FileProcessor.EveryFileInOneGroup` | src/DataFunctions/DicomData/FileProcessor.ts:76-85 | every uploaded file is in its directory's group and in no other |
| `FileProcessor.FileInItsGroup` | src/DataFunctions/DicomData/FileProcessor.ts:76-85 | every uploaded file is among its directory's files |
| `FileProcessor.TotalSizeAt` | src/DataFunctions/DicomData/FileProcessor.ts:73-88 | the total size of the groups splits into one group plus the rest |
| `FileProcessor.GroupSizesSum` | src/DataFunctions/DicomData/FileProcessor.ts:73-88 | the group sizes add up to the number of uploaded files, so no file is lost or doubled |
| `FileProcessor.BuildFileStructure` | src/DataFunctions/DicomData/FileProcessor.ts:73-88 | the loop builds exactly the grouping of the files by directory |
| `StableSort.Insert` | src/components/DicomData/DicomUpdater.tsx:507-512 | inserting one element lengthens the list by one |
| `StableSort.InsertSorted` | src/components/DicomData/DicomUpdater.tsx:507-512 | inserting into a list in non-increasing key order keeps that order |
| `StableSort.InsertKeysAbove` | src/components/DicomData/DicomUpdater.tsx:507-512 | a lower bound on every key survives the insertion |
| `StableSort.InsertStops` | src/components/DicomData/DicomUpdater.tsx:507-512 | an element whose key is at most the last key is appended, so equal keys keep their order |
| `StableSort.InsertPermutes` | src/components/DicomData/DicomUpdater.tsx:507-512 | inserting adds the element and drops none |
| `StableSort.InsertPlace` | src/components/DicomData/DicomUpdater.tsx:507-512 | the element lands right after the last element whose key is at least its own |
| `StableSort.SortDesc` | src/components/DicomData/DicomUpdater.tsx:507-512 | the stable sort keeps the length |
| `StableSort.SortDescSorted` | src/components/DicomData/DicomUpdater.tsx:507-512 | the result is in non-increasing key order |
| `StableSort.SortDescPermutes` | src/components/DicomData/DicomUpdater.tsx:507-512 | the result is a permutation of the input |
| `StableSort.InsertWithKey` | src/components/DicomData/DicomUpdater.tsx:507-512 | an inserted element lands after every element of its key already present |
| `StableSort.SortDescStable` | src/components/DicomData/DicomUpdater.tsx:507-512 | the sort is stable: the elements of any one key keep their input order |
| `StableSort.SortDescOfSorted` | src/components/DicomData/DicomUpdater.tsx:595-597 | a list already in order is left unchanged |
| `StableSort.NonIncreasingPrefix` | src/components/DicomData/DicomUpdater.tsx:507-512 | a prefix of an ordered list is ordered |
| `StableSort.SortDescIdempotent` | src/components/DicomData/DicomUpdater.tsx:507-512 | sorting twice is sorting once |
| `StableSort.SortDescSnoc` | src/components/DicomData/DicomUpdater.tsx:507-512 | sorting one more element is inserting it into the sorted front |
| `StableSort.InsertionSort` | src/components/DicomData/DicomUpdater.tsx:506-514 | the array ends up holding the stable sort of its old contents |
| `StableSort.InsertAt` | src/components/DicomData/DicomUpdater.tsx:507-512 | one pass inserts the element into the sorted prefix and leaves the rest of the array alone |
| `JsNumber.ToInt32` | src/DataFunctions/DicomData/TagUpdater.ts:134 | the result is a signed 32-bit integer congruent to the input modulo 2^32, the input itself when it fits, and 0 for NaN |
| `JsNumber.ShiftRight8` | src/DataFunctions/DicomData/TagUpdater.ts:134 | `n >> 8` is floor division by 256 for non-negative 32-bit inputs, stays in the shifted 32-bit range, and is 0 for NaN |
| `JsNumber.IntegerOrZero` | src/DataFunctions/DicomData/TagUpdater.ts:134 | a store sees the integer itself, or 0 for NaN |
| `JsNumber.Add` | src/components/DicomData/DicomUpdater.tsx:242-243 | the sum is a number exactly when both operands are, and then their sum |
| `JsNumber.Sub` | src/components/DicomData/DicomUpdater.tsx:595-597 | the difference is a number exactly when both operands are, and then their difference |
| `JsBytes.ToUint8` | src/DataFunctions/DicomData/TagUpdater.ts:134 | a byte store keeps the value modulo 256, and a value in 0..255 as it is |
| `JsBytes.Zeros` | src/components/DicomData/DicomUpdater.tsx:86-88 | a new buffer of length n holds n zeros |
| `JsBytes.Overlay` | src/components/DicomData/DicomUpdater.tsx:89-91 | `set` writes the source at the offset and keeps every other byte of the target |
| `JsBytes.SliceIndex` | src/components/DicomData/DicomUpdater.tsx:58-59 | a negative bound counts back from the end and both ends are clamped into the sequence |
| `JsBytes.Slice` | src/components/DicomData/DicomUpdater.tsx:58 | an in-range slice is the subsequence, and never longer than the sequence |
| `JsBytes.SliceFrom` | src/components/DicomData/DicomUpdater.tsx:59 | an in-range slice from a start is the suffix |
| `JsBytes.SliceSplit` | src/components/DicomData/DicomUpdater.tsx:58-59 | the slice before any index joined with the slice from it gives the buffer back |
| `JsBytes.Reverse` | src/components/DicomData/DicomUpdater.tsx:667-670 | reversing keeps the length and mirrors the positions |
| `JsBytes.ReverseInvolutive` | src/components/DicomData/DicomUpdater.tsx:667-670 | reversing twice gives the bytes back |
| `JsBytes.LittleEndianBytes` | src/components/DicomData/DicomUpdater.tsx:667-670 | the encoding has exactly the requested width |
| `JsBytes.LittleEndianValue` | src/components/DicomData/DicomUpdater.tsx:667-670 | the value of w bytes is below 256^w |
| `JsBytes.UnsignedValue` | src/components/DicomData/DicomUpdater.tsx:667-670 | the value of w bytes in either order is below 256^w |
| `JsBytes.IntBytes` | src/components/DicomData/DicomUpdater.tsx:657-690 | a DataView store writes exactly the width's bytes, which read back as the number modulo 256^width |
| `JsBytes.LittleEndianRoundTrip` | src/components/DicomData/DicomUpdater.tsx:667-670 | decoding the little-endian bytes of a value gives the value modulo 256^width |
| `JsString.CharCodeAt` | src/components/DicomData/DicomUpdater.tsx:380 | a code inside the string is the character's code, and NaN outside it |
| `JsString.ToLower` | src/Hooks/useFilteredRows.ts:15-16 | lower-casing keeps the length and lowers each ASCII capital alone |
| `JsString.ToUpper` | src/Features/AutoAnonymize/Functions/PIIDetection.ts:94 | upper-casing keeps the length and raises each ASCII small letter alone |
| `JsString.TrimEmptyIffBlank` | src/Features/TagDictEditor/TagDictionaryTable.tsx:46 | a query trims to nothing exactly when it is all white space |
| `JsString.Split` | src/DataFunctions/DicomData/FileProcessor.ts:78 | a split gives at least one part and no part holds the separator |
| `JsString.JoinSplit` | src/DataFunctions/DicomData/FileProcessor.ts:78 | joining the parts of a split with the separator gives the string back |
| `JsString.NatToString` | src/Features/TagDictEditor/DictTagsEdit.tsx:142 | a count is spelled with at least one decimal digit and nothing else |
| `JsString.ParseIntDigits` | src/components/DicomData/DicomUpdater.tsx:293 | parseInt with a radix reads a string of that radix's digits as their value |
| `JsString.HexDigitsBound` | src/components/DicomData/DicomUpdater.tsx:623-629 | four hexadecimal digits, and in general n of them, read as a number below 16^n |
| `JsString.StrLessTrichotomy` | src/components/DicomData/DicomUpdater.tsx:602-604 | of a < b, a === b and b < a exactly one holds |
| `JsString.StrLessTransitive` | src/components/DicomData/DicomUpdater.tsx:602-604 | string order is transitive |
| `PiiResultsTable.TotalPages` | src/Features/AutoAnonymize/Components/PIIResultsTable.tsx:29 | enough pages of four hold every item and the last page is not empty; no items, no pages |
| `PiiResultsTable.PageItems` | src/Features/AutoAnonymize/Components/PIIResultsTable.tsx:35-37 | a page holds at most four items; an existing page is the slice of the items from its first index; a page past the end is empty |
| `PiiResultsTable.Render` | src/Features/AutoAnonymize/Components/PIIResultsTable.tsx:27-75 | nothing is rendered exactly when the list is empty; otherwise the page's items, the pager exactly when there are more than four, Previous disabled exactly on page 1 and Next exactly on the last page |
| `PiiResultsTable.RowIndexIsItemIndex` | src/Features/AutoAnonymize/Components/PIIResultsTable.tsx:92-100 | the row at position i of a page, keyed and indexed with startIndex + i, is the PII item at that index |
| `PiiResultsTable.PagesCoverPrefix` | src/Features/AutoAnonymize/Components/PIIResultsTable.tsx:35-37 | leafing through the first pages shows the first items once each, in order |
| `PiiResultsTable.PagesShowEverything` | src/Features/AutoAnonymize/Components/PIIResultsTable.tsx:29-37 | leafing through all pages shows every item once, in order |
| `PiiResultsTable.PrevPage` | src/Features/AutoAnonymize/Components/PIIResultsTable.tsx:39-41 | Previous goes back one page and never below page 1 |
| `PiiResultsTable.NextPage` | src/Features/AutoAnonymize/Components/PIIResultsTable.tsx:43-45 | Next goes on one page and never past the last |
| `PiiResultsTable.PagerKeepsRange` | src/Features/AutoAnonymize/Components/PIIResultsTable.tsx:39-45 | from an existing page both buttons lead to an existing page, and Next then Previous never ends past the start page |
| `PiiResultsTable.Pager.constructor` | src/Features/AutoAnonymize/Components/PIIResultsTable.tsx:27 | the table starts on page 1, which exists when there is PII |
| `PiiResultsTable.Pager.HandlePrevPage` | src/Features/AutoAnonymize/Components/PIIResultsTable.tsx:39-41 | the page becomes the clamped previous page and stays in range |
| `PiiResultsTable.Pager.HandleNextPage` | src/Features/AutoAnonymize/Components/PIIResultsTable.tsx:43-45 | the page becomes the clamped next page and stays in range |
| `PiiResultsTable.Pager.Rerender` | src/Features/AutoAnonymize/Components/PIIResultsTable.tsx:22-29 | new props keep the page number |
| `PiiResultsTable.ShrunkListShowsNothing` | src/Features/AutoAnonymize/Components/PIIResultsTable.tsx:27-37 | when the list shrinks under the current page, the table renders with no rows |
| `App.NextIndex` | src/App.tsx:35-39 | Next moves one file on, except from the last file |
| `App.PrevIndex` | src/App.tsx:41-45 | Previous moves one file back, except from the first |
| `App.NavigationKeepsIndexValid` | src/App.tsx:35-45 | both buttons keep a valid index valid |
| `App.PrevUndoesNext` | src/App.tsx:35-45 | Previous undoes a Next that moved |
| `App.NextTimes` | src/App.tsx:35-39 | repeated Next presses never move back and keep a valid index valid |
| `App.NextTimesReachesLast` | src/App.tsx:35-39 | k presses of Next from the first file reach file k, or the last file |
| `App.CurrentlyViewing` | src/App.tsx:56-60 | a valid index shows the file at it; nothing shows while files or data are missing; with files and data loaded, an index outside the files throws |
| `App.AppState.constructor` | src/App.tsx:17-21 | the app starts with the sidebar hidden, no files or data, and index 0 |
| `App.AppState.ToggleSidebar` | src/App.tsx:23-25 | only the sidebar flag flips |
| `App.AppState.HandleFileUpload` | src/App.tsx:27-33 | the new files and data replace the old and the first file is shown |
| `App.AppState.NextFile` | src/App.tsx:35-39 | the index moves as Next says, nothing else changes, and a valid index stays valid |
| `App.AppState.PrevFile` | src/App.tsx:41-45 | the index moves as Previous says, nothing else changes, and a valid index stays valid |
| `App.AppState.HandleFileSelect` | src/App.tsx:47-49 | the index becomes the one given, unchecked, and nothing else changes |
| `App.SelectPastFilesThrows` | src/App.tsx:47-60 | selecting one past the last file makes the heading throw, since the index is not checked |
| `TestFixtures.WithSuffix` | system_test/playwright_tests.py:37-38 | the listing keeps exactly the files that end with the suffix |
| `TestFixtures.SidecarNameUsesFirstDot` | system_test/playwright_tests.py:44 | the sidecar is named after the sample's name up to its first dot, or the whole name without a dot |
| `TestFixtures.SidecarOfStem` | system_test/selenium_tests.py:36 | a sample "stem.ext" with a dot-free stem looks for "tags_stem.json" |
| `TestFixtures.AtSkipsValue` | system_test/playwright_tests.py:97-106 | when the observed value holds '@' the expected value does not affect the verdict |
| `TestFixtures.ExactRowPasses` | system_test/playwright_tests.py:80-106 | cells that repeat the expected text pass every check |
| `PlaywrightTests.RowsFailures` | system_test/playwright_tests.py:73-106 | each failing row counts once, and there is no failure exactly when every row passes |
| `PlaywrightTests.SampleFailures` | system_test/playwright_tests.py:66-106 | a sample with the wrong row count counts exactly one failure and its rows are not compared |
| `PlaywrightTests.SamplesFailuresAppend` | system_test/playwright_tests.py:40-106 | the failure count of a listing is the sum over any split of it |
| `PlaywrightTests.NoFailuresIffAllPass` | system_test/playwright_tests.py:40-106 | a run counts no failure exactly when every sample with a sidecar shows the right number of rows and every row passes |
| `PlaywrightTests.RunTest` | system_test/playwright_tests.py:29-108 | runTest returns the count it was given plus this browser's failures, samples without a sidecar skipped |
| `PlaywrightTests.CompareRows` | system_test/playwright_tests.py:73-106 | the row loop adds one failure per failing row |
| `PlaywrightTests.RunAllTests` | system_test/playwright_tests.py:15-26 | the result is the sum of the three browsers' failure counts |
| `SeleniumTests.RowFailure` | system_test/selenium_tests.py:63-70 | a row raises exactly when it fails the shared row check, and the failure names that row |
| `SeleniumTests.RowsFailure` | system_test/selenium_tests.py:59-70 | a sample's rows raise nothing exactly when every row passes |
| `SeleniumTests.FailureAbortsRest` | system_test/selenium_tests.py:32-70 | a failure in the first samples is the run's failure, whatever the later samples hold |
| `SeleniumTests.PassesIffNoCountedFailure` | system_test/selenium_tests.py:32-70 | the Selenium run passes exactly when the Playwright harness would count no failure on the same pages |
| `SeleniumTests.Driver.constructor` | system_test/selenium_tests.py:107-109 | a new remote driver shows its page title and is not quit |
| `SeleniumTests.Driver.Quit` | system_test/selenium_tests.py:74 | the driver is quit |
| `SeleniumTests.RunTest` | system_test/selenium_tests.py:17-74 | the result is the title check and then the samples' first failure, and the driver is quit either way |
| `SeleniumTests.RunChecks` | system_test/selenium_tests.py:21-70 | the checks stop at the first failed assert, and the result is that failure or success |
| `SeleniumTests.CheckRows` | system_test/selenium_tests.py:59-70 | the row loop stops at the first failing row and reports its first failing field |
| `SeleniumTests.RowsFailureAbortsRest` | system_test/selenium_tests.py:59-70 | the first failing row decides the sample whatever the later rows show |
| `SeleniumTests.RunAllTestsAllBrowsers` | system_test/selenium_tests.py:95-114 | Firefox, Chrome and Edge run in order; the run passes exactly when every browser passes; a failure stops the run at that browser, and every browser before it passed |

## Left out

- Parsing: the dicom-parser library is a parameter (`TagUpdater.Parser`, a function from bytes to an optional data set). The re-parse inside the edit loops and the validity check are calls to it, and its own behaviour is not modelled.
- Floating point: the FD and FL writers (`setFloat32`/`setFloat64`) go through an encoder parameter (`TagUpdater.FloatEncoder`). IEEE 754 rounding is not modelled.
- JavaScript numbers: they are integers or NaN. Precision loss beyond 2^53 and fractional values are not modelled.
- Strings: `toLowerCase`/`toUpperCase` are modelled for ASCII letters only. No other Unicode case mapping is modelled. A Dafny `char` stands for one UTF-16 code unit: string lengths, `charCodeAt`, slicing and `<` work on code units, and surrogate pairs are not told apart from other units.
- Regular expressions: PII_REGEX is written out as a letters-and-one-space predicate, not as a regex engine.
- Object keys: lookups keyed by Object.prototype names are not modelled. These include "constructor" as a folder name in buildFileStructure and as a dictionary key. Record and Map iteration order is taken as the model's own order, and a map's key order is left open.
- Asynchrony: Promises, `setTimeout` yields and the IndexedDB request callbacks are not modelled. Each database operation is atomic, and whether the database opens is an input. localStorage persistence of the stores is not modelled.
- Browser and file I/O: FileReader, Blob, JSZip (createZipFromFiles), anchor downloads (downloadDicomFile), UpdateAllFiles in both copies, remote logging, the loading messages and the alerts' timing are not modelled. A downloaded file is its name and bytes.
- FileProcessor: formatFileSize (floating-point logarithms) and parseDicomFiles (async parsing) are not modelled. An uploaded file is reduced to its name and relative path.
- Rendering: React rendering, CSS, tooltips, modals, DicomTableRow, DownloadOption, FileNavigation, ThemeSelector and Sidebar are not modelled. PiiResultsTable, TagDictionaryTable and App keep only what decides the rows shown and the buttons' state.
- tagEditor/tagEditor.js: the members that use undeclared constants (applyAllChanges, createTag, rewriteSQlength, writeVRArray, getElementAndGroup, addSequences and the rest) throw a ReferenceError when run and are not modelled. updateTagValue scrapes the DOM and is not modelled. The helpers that are the same code as DicomUpdater's are covered by the DicomUpdater members.
- Missing sources: standardDataElements, src/components/Auto/TagsAnon and src/components/DicomData/DownloadFuncs are not part of this model. The standard dictionary is a parameter, and the other two are taken to behave like their src/Features and src/DataFunctions counterparts.
- The harnesses: browser launch, navigation, waits, DOM reads, `os.listdir` and `json.load` are inputs. A sidecar record missing a key (a KeyError) and an input element without a value (`get_attribute` returning None) are not modelled. The harnesses' `print` output is not modelled.
- Fixture generators and the jest tests are not modelled. Where a test expects behaviour the code does not have, the model follows the code: TagDictionaryTable passes the pending entry's VR, not its name, as the pending value; the store tests exercise setters the store lacks; the dictionary tests exercise an export and an import the service lacks.
- `DicomUpdater.GetSequencesTracks`: states only that the top-level sequences among the entries passed in, with their items, are in the returned list. After the first sequence, the nested call works on a concatenated copy, so sequences nested inside items may be lost. `DicomUpdater.SequencesSeen` computes exactly which survive, but no lemma says which nested sequences are dropped.
- `AutoClean.AutoAnon`: models the code as written, with every file's edits applied to the first file. The behaviour that was evidently intended is `AutoClean.AutoAnonOwnFiles` (see Findings). The zip and download that follow the loop are not modelled.

## Findings

| source | as written | input that shows it | evidently intended | confidence | as-written member | corrected member |
|---|---|---|---|---|---|---|
| src/Features/AutoAnonymize/Functions/AutoClean.ts:69 | every file's edits are applied to `dicomData[0].DicomDataSet`, so every output file is rewritten from the first file's bytes | two loaded files where the second holds none of the listed tags: the second output file is the first file's bytes, not its own | each file's edits applied to that file's own data set, so such a file comes out unchanged | not executed | `AutoClean.AutoAnonCopiesFirstFile` | `AutoClean.AutoAnonOwnFilesKeepsFile` |
