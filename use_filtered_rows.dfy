/** The DICOM table's search: a row is kept when the search term, compared in
 *  lower case, occurs in its tag id, its tag name, or its value; for a
 *  sequence the value is searched through the ids and names of its direct
 *  children only. */
module FilteredRows {
  import opened JsString
  import opened DicomTypes

  /** `s.toLowerCase().includes(term.toLowerCase())`. */
  predicate ContainsIgnoringCase(s: string, term: string)
  {
    Includes(ToLower(s), ToLower(term))
  }

  /** The test a direct child of a sequence row passes. */
  predicate ChildMatches(child: DicomTag, term: string)
  {
    ContainsIgnoringCase(child.tagId, term) || ContainsIgnoringCase(child.tagName, term)
  }

  /** The test a row passes. */
  predicate RowMatches(row: DicomTag, term: string)
  {
    ContainsIgnoringCase(row.tagId, term) || ContainsIgnoringCase(row.tagName, term) ||
    match row.value
    case Nested(children) => exists i | 0 <= i < |children| :: ChildMatches(children[i], term)
    case Text(text) => ContainsIgnoringCase(text, term)
  }

  /** useFilteredRows: the matching rows, in their order. */
  function FilteredRows(rows: seq<DicomTag>, term: string): (r: seq<DicomTag>)
    ensures |r| <= |rows|
    ensures forall row | row in r :: row in rows && RowMatches(row, term)
    ensures forall row | row in rows && RowMatches(row, term) :: row in r
  {
    if rows == [] then []
    else (if RowMatches(rows[0], term) then [rows[0]] else []) + FilteredRows(rows[1..], term)
  }

  /** An empty search term keeps every row. */
  lemma {:induction false} EmptyTermKeepsAll(rows: seq<DicomTag>)
    ensures FilteredRows(rows, "") == rows
  {
    if rows != [] {
      IncludesEmpty(ToLower(rows[0].tagId));
      assert ToLower("") == "";
      EmptyTermKeepsAll(rows[1..]);
    }
  }

  /** The filter keeps the rows in their order. */
  lemma {:induction false} FilteredRowsAppend(a: seq<DicomTag>, b: seq<DicomTag>, term: string)
    ensures FilteredRows(a + b, term) == FilteredRows(a, term) + FilteredRows(b, term)
  {
    if a == [] {
      assert a + b == b;
    } else {
      assert (a + b)[1..] == a[1..] + b;
      FilteredRowsAppend(a[1..], b, term);
    }
  }

  /** Rows that all match are all kept. */
  lemma {:induction false} AllMatchingKept(rows: seq<DicomTag>, term: string)
    requires forall i | 0 <= i < |rows| :: RowMatches(rows[i], term)
    ensures FilteredRows(rows, term) == rows
  {
    if rows != [] {
      AllMatchingKept(rows[1..], term);
    }
  }

  /** Filtering twice with the same term is filtering once. */
  lemma FilteredRowsIdempotent(rows: seq<DicomTag>, term: string)
    ensures FilteredRows(FilteredRows(rows, term), term) == FilteredRows(rows, term)
  {
    var r := FilteredRows(rows, term);
    assert forall i | 0 <= i < |r| :: r[i] in r;
    AllMatchingKept(r, term);
  }

  /** A string none of whose characters starts the term does not contain it. */
  lemma FirstCharAbsent(s: string, sub: string)
    requires |sub| > 0 && forall k | 0 <= k < |s| :: s[k] != sub[0]
    ensures !Includes(s, sub)
  {
    forall k | 0 <= k <= |s| - |sub|
      ensures !OccursAt(s, sub, k)
    {
      assert s[k..k + |sub|][0] == s[k] != sub[0];
    }
  }

  /** The search looks one level into a sequence: a grandchild that alone
   *  holds the term does not keep the row. */
  lemma GrandchildNotSearched()
    ensures var grandchild := DicomTag("X00100010", "PatientName", Text("Smith"), false);
            var child := DicomTag("X00081110", "Item", Nested([grandchild]), false);
            var row := DicomTag("X00081115", "Series", Nested([child]), false);
            RowMatches(grandchild, "smith") && !RowMatches(row, "smith")
  {
    var grandchild := DicomTag("X00100010", "PatientName", Text("Smith"), false);
    assert OccursAt(ToLower("Smith"), ToLower("smith"), 0);
    FirstCharAbsent(ToLower("X00081115"), ToLower("smith"));
    assert !ContainsIgnoringCase("Series", "smith") by {
      assert ToLower("Series")[0] == 's' && ToLower("Series")[1] != 'm';
    }
    FirstCharAbsent(ToLower("X00081110"), ToLower("smith"));
    assert !ContainsIgnoringCase("Item", "smith");
  }
}
