/** The anonymisation lists (src/Features/AutoAnonymize/Functions/TagsAnon.ts):
 *  the tags auto-anonymisation overwrites and the value each receives. */
module TagsAnonList {
  /** One entry: the tag id as the table writes it ("X00100010"), a
   *  descriptive name, and the replacement value. */
  datatype AnonEntry = AnonEntry(tagId: string, name: string, value: string)

  /** The one-entry list used by the test build. */
  const TestTagsAnon: seq<AnonEntry> := [AnonEntry("X00100010", "PatientName", "ANONYMOUS")]

  /** The full list, in declaration order; "X00102154" is listed twice. */
  const TagsAnon: seq<AnonEntry> := [
    AnonEntry("X00080050", "Accession Number", "AC0000"),
    AnonEntry("X00080080", "Institution Name", "ANONYMOUS"),
    AnonEntry("X00080081", "Institution Address", "ANONYMOUS"),
    AnonEntry("X00080090", "Referring Physician Name", "ANONYMOUS"),
    AnonEntry("X00080092", "Referring Physician's Address", "ANONYMOUS"),
    AnonEntry("X00080094", "Referring Physician's Telephone Numbers", "ANONYMOUS"),
    AnonEntry("X0008009C", "Consulting Physician's Name", "ANONYMOUS"),
    AnonEntry("X00081050", "Performing Physician Name", "ANONYMOUS"),
    AnonEntry("X00081060", "Name Of Physicians Reading Study", "ANONYMOUS"),
    AnonEntry("X00081070", "Operators Name", "ANONYMOUS"),
    AnonEntry("X00100010", "Patient Name", "ANONYMOUS"),
    AnonEntry("X00100020", "Patient ID", "MR0000"),
    AnonEntry("X00100030", "Patient Birth Date", "19000101"),
    AnonEntry("X00100033", "Patient's Birth Date in Alternative Calendar", "ANONYMOUS"),
    AnonEntry("X00100034", "Patient's Death Date in Alternative Calendar", "ANONYMOUS"),
    AnonEntry("X001021B0", "Additional Patient History", "ANONYMOUS"),
    AnonEntry("X00102154", "Patient's Telephone Numbers", "ANONYMOUS"),
    AnonEntry("X00101000", "Other Patient IDs", "ANONYMOUS"),
    AnonEntry("X00101001", "Other Patient Names", "ANONYMOUS"),
    AnonEntry("X00101005", "Patient's Birth Name", "ANONYMOUS"),
    AnonEntry("X00101040", "Patient's Address", "ANONYMOUS"),
    AnonEntry("X00101060", "Patient's Mother's Birth Name", "ANONYMOUS"),
    AnonEntry("X00102154", "Patient's Telephone Numbers", "ANONYMOUS"),
    AnonEntry("X00120010", "Clinical Trial Sponsor Name", "ANONYMOUS"),
    AnonEntry("X00120031", "Clinical Trial Site Name", "ANONYMOUS"),
    AnonEntry("X00120060", "Clinical Trial Coordinating Center Name", "ANONYMOUS"),
    AnonEntry("X00120081", "Clinical Trial Protocol Ethics Committee Name", "ANONYMOUS"),
    AnonEntry("X00120082", "Clinical Trial Protocol Ethics Committee Approval Number", "ANONYMOUS"),
    AnonEntry("X00140104", "Secondary Reviewer Name", "ANONYMOUS"),
    AnonEntry("X00142006", "Evaluator Name", "ANONYMOUS"),
    AnonEntry("X00321032", "Requesting Physician", "ANONYMOUS"),
    AnonEntry("X00400006", "Scheduled Performing Physician's Name", "ANONYMOUS"),
    AnonEntry("X00401010", "Names of Intended Recipients of Results", "ANONYMOUS"),
    AnonEntry("X00401103", "Person's Telephone Numbers", "ANONYMOUS"),
    AnonEntry("X00402010", "Order Callback Phone Number", "ANONYMOUS"),
    AnonEntry("X00700084", "Content Creator's Name", "ANONYMOUS")
  ]

  /** The ids of a list, in order. */
  function Ids(list: seq<AnonEntry>): (ids: seq<string>)
    ensures |ids| == |list|
    ensures forall i | 0 <= i < |list| :: ids[i] == list[i].tagId
  {
    seq(|list|, i requires 0 <= i < |list| => list[i].tagId)
  }

  /** The telephone-number tag sits at positions 16 and 22. */
  lemma TelephoneListedTwice()
    ensures |TagsAnon| == 36
    ensures TagsAnon[16].tagId == TagsAnon[22].tagId == "X00102154"
  {
  }
}
