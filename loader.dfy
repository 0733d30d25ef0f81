/**
 * Flattening of the dataset's records into documents (`load_json_as_docs`).
 * A record is a JSON object read from the dataset; its fields are kept in the
 * order the object lists them, and each value is the text Python's `str`
 * would render for it.
 */
module Loader {
  import opened Text

  /** One `"key: value"` pair of a record, in the record's field order. */
  datatype Field = Field(key: string, value: string)

  type Record = seq<Field>

  /** The text the vector store indexes and search returns. */
  datatype Document = Document(content: string)

  /** The f-string `f"{k}: {v}"`. */
  function FieldLine(f: Field): string {
    f.key + ": " + f.value
  }

  /** The lines of a flattened record, one per field, in field order. */
  function FieldLines(r: Record): (lines: seq<string>)
    ensures |lines| == |r|
    ensures forall i :: 0 <= i < |r| ==> lines[i] == FieldLine(r[i])
  {
    seq(|r|, i requires 0 <= i < |r| => FieldLine(r[i]))
  }

  /** The text of one record's document: its field lines joined by newlines. */
  function Flatten(r: Record): (text: string)
    ensures r == [] ==> text == ""
    ensures |r| == 1 ==> text == FieldLine(r[0])
  {
    JoinLines(FieldLines(r))
  }

  /**
   * The loop of `load_json_as_docs`: one document per record, in input order,
   * each holding that record's flattened text.
   */
  method LoadDocs(records: seq<Record>) returns (docs: seq<Document>)
    ensures |docs| == |records|
    ensures forall i :: 0 <= i < |records| ==> docs[i].content == Flatten(records[i])
  {
    docs := [];
    for i := 0 to |records|
      invariant |docs| == i
      invariant forall j :: 0 <= j < i ==> docs[j].content == Flatten(records[j])
    {
      docs := docs + [Document(Flatten(records[i]))];
    }
  }

  /** A field's key and value hold no newline. */
  predicate SingleLineField(f: Field) {
    Newline !in f.key && Newline !in f.value
  }

  /**
   * Splitting a flattened record at its newlines gives back its field lines,
   * in field order, provided no key or value holds a newline itself and the
   * record has a field (the empty record splits into one empty line).
   */
  lemma FlattenSplit(r: Record)
    requires |r| >= 1
    requires forall i :: 0 <= i < |r| ==> SingleLineField(r[i])
    ensures SplitLines(Flatten(r)) == FieldLines(r)
  {
    var lines := FieldLines(r);
    assert SingleLines(lines);
    SplitJoin(lines);
  }

  /** Each field shows up as a `"key: value"` line of its record's text. */
  lemma FlattenHasField(r: Record, i: nat)
    requires i < |r|
    ensures Contains(Flatten(r), FieldLine(r[i]))
  {
    JoinContainsLine(FieldLines(r), i);
  }
}
