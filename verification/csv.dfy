/** The export text built by both download buttons: a header row and one row
    per record, each row's fields joined by `,` and the rows joined by `\n`.
    Nothing is quoted or escaped. */
module Csv {
  import opened Text
  import opened Seqs

  /** `row.join(',')`. */
  function Line(fields: seq<string>): string
  {
    Join(fields, ',')
  }

  /** `[headers, ...rows].map(row => row.join(',')).join('\n')`. */
  function Document(header: seq<string>, rows: seq<seq<string>>): string
  {
    Join(Map([header] + rows, Line), '\n')
  }

  /** No field of the row contains `c`. */
  predicate FieldsAvoid(fields: seq<string>, c: char)
  {
    forall i :: 0 <= i < |fields| ==> c !in fields[i]
  }

  /** When no field contains a newline, the document has one line for the
      header and one per row, in order. */
  lemma DocumentLines(header: seq<string>, rows: seq<seq<string>>)
    requires FieldsAvoid(header, '\n')
    requires forall j :: 0 <= j < |rows| ==> FieldsAvoid(rows[j], '\n')
    ensures |Split(Document(header, rows), '\n')| == |rows| + 1
    ensures Split(Document(header, rows), '\n')[0] == Line(header)
    ensures forall j :: 0 <= j < |rows| ==> Split(Document(header, rows), '\n')[j + 1] == Line(rows[j])
  {
    var all := [header] + rows;
    var lines := Map(all, Line);
    forall i | 0 <= i < |lines| ensures '\n' !in lines[i] {
      assert FieldsAvoid(all[i], '\n') by {
        if i > 0 {
          assert all[i] == rows[i - 1];
        }
      }
      JoinAvoids(all[i], ',', '\n');
    }
    SplitJoin(lines, '\n');
    assert forall j :: 0 <= j < |rows| ==> lines[j + 1] == Line(rows[j]) by {
      forall j | 0 <= j < |rows| ensures lines[j + 1] == Line(rows[j]) {
        assert all[j + 1] == rows[j];
      }
    }
  }

  /** The same, for a document whose rows are computed from records. */
  lemma RecordLines<R>(header: seq<string>, records: seq<R>, row: R -> seq<string>)
    requires FieldsAvoid(header, '\n')
    requires forall j :: 0 <= j < |records| ==> FieldsAvoid(row(records[j]), '\n')
    ensures var lines := Split(Document(header, Map(records, row)), '\n');
      && |lines| == |records| + 1
      && lines[0] == Line(header)
      && forall j :: 0 <= j < |records| ==> lines[j + 1] == Line(row(records[j]))
  {
    DocumentLines(header, Map(records, row));
  }

  /** When no field contains a comma, splitting a line on commas gives back
      exactly its fields. */
  lemma LineFields(fields: seq<string>)
    requires |fields| >= 1 && FieldsAvoid(fields, ',')
    ensures Split(Line(fields), ',') == fields
  {
    SplitJoin(fields, ',');
  }

  /** A field that contains a comma makes its line read back as more fields
      than it was written with. */
  lemma LineOverflow(fields: seq<string>, k: int)
    requires 0 <= k < |fields| && ',' in fields[k]
    ensures |Split(Line(fields), ',')| > |fields|
  {
    SplitJoinOverflow(fields, ',', k);
  }
}
