/** datasets/combine_csvs.py: merges the one-column CSV files of the three
    classes into one labelled table. Opening and parsing the files is not
    modelled: each readable file is given as the list of records the CSV
    reader yields, and a file that does not exist is absent from the map. */
module CombineCsvs {
  import TextToCsv

  const Header: seq<string> := ["text"]
  const OutputHeader: seq<string> := ["text", "label"]

  /** The input files and their labels, in the dictionary's order. */
  const InputFiles: seq<(string, string)> :=
    [("negative.csv", "negative"), ("positive.csv", "positive"), ("neutral.csv", "neutral")]

  /** The records of each readable input file, by path. */
  type Files = map<string, seq<seq<string>>>

  /** The records with exactly one field, each paired with the label, in order. */
  function Labelled(records: seq<seq<string>>, className: string): (rows: seq<seq<string>>)
    ensures |rows| <= |records|
    ensures forall k :: 0 <= k < |rows| ==> |rows[k]| == 2 && rows[k][1] == className
  {
    if records == [] then []
    else
      var last := records[|records| - 1];
      Labelled(records[..|records| - 1], className) + (if |last| == 1 then [[last[0], className]] else [])
  }

  /** A labelled row is exactly a one-field record's text with the label:
      empty and multi-field records are skipped. */
  lemma {:induction false} LabelledSpec(records: seq<seq<string>>, className: string)
    ensures forall row :: row in Labelled(records, className) <==>
      |row| == 2 && row[1] == className && [row[0]] in records
  {
    if records != [] {
      var init, last := records[..|records| - 1], records[|records| - 1];
      LabelledSpec(init, className);
      assert records == init + [last];
      forall row | row in Labelled(records, className)
        ensures |row| == 2 && row[1] == className && [row[0]] in records
      {
        if row !in Labelled(init, className) {
          assert |last| == 1 && row == [last[0], className];
          assert [row[0]] == last;
        }
      }
      forall row | |row| == 2 && row[1] == className && [row[0]] in records
        ensures row in Labelled(records, className)
      {
        if [row[0]] !in init {
          assert last == [row[0]];
          assert row == [last[0], className];
        }
      }
    }
  }

  /** When every record has one field, each becomes a row, in order. */
  lemma {:induction false} LabelledAll(records: seq<seq<string>>, className: string)
    requires forall k :: 0 <= k < |records| ==> |records[k]| == 1
    ensures Labelled(records, className) == seq(|records|, k requires 0 <= k < |records| => [records[k][0], className])
  {
    if records != [] {
      LabelledAll(records[..|records| - 1], className);
    }
  }

  /** Labelling distributes over concatenation: the rows of a run of
      records are those of its first part followed by those of the rest,
      so every one-field record gives one row, in file order. */
  lemma {:induction false} LabelledAppend(a: seq<seq<string>>, b: seq<seq<string>>, className: string)
    ensures Labelled(a + b, className) == Labelled(a, className) + Labelled(b, className)
    decreases |b|
  {
    if b == [] {
      assert a + b == a;
    } else {
      var init := b[..|b| - 1];
      LabelledAppend(a, init, className);
      assert (a + b)[..|a + b| - 1] == a + init;
      assert (a + b)[|a + b| - 1] == b[|b| - 1];
    }
  }

  /** A single record gives its text with the label when it has exactly
      one field, and nothing otherwise. */
  lemma LabelledOne(record: seq<string>, className: string)
    ensures Labelled([record], className) == if |record| == 1 then [[record[0], className]] else []
  {
    assert [record][..0] == [];
  }

  /** The rows a readable file contributes: none when its first record is
      not exactly the header `text` (an empty file has none). */
  function FileRows(records: seq<seq<string>>, className: string): (rows: seq<seq<string>>)
    ensures records == [] || records[0] != Header ==> rows == []
  {
    if records == [] || records[0] != Header then [] else Labelled(records[1..], className)
  }

  /** What one input file contributes; a missing file contributes nothing. */
  function Contribution(files: Files, input: (string, string)): (rows: seq<seq<string>>)
    ensures input.0 !in files ==> rows == []
    ensures input.0 in files ==> rows == FileRows(files[input.0], input.1)
    ensures forall k :: 0 <= k < |rows| ==> |rows[k]| == 2 && rows[k][1] == input.1
  {
    if input.0 in files then FileRows(files[input.0], input.1) else []
  }

  /** The rows of the given inputs, file after file. */
  function Collected(files: Files, inputs: seq<(string, string)>): (rows: seq<seq<string>>)
    ensures forall k :: 0 <= k < |rows| ==> |rows[k]| == 2
  {
    if inputs == [] then []
    else Collected(files, inputs[..|inputs| - 1]) + Contribution(files, inputs[|inputs| - 1])
  }

  /** The three files are read in the mapping's order, negative, positive
      then neutral; each contributes its own rows, or none, and the others
      are read regardless. Every row is a text with its file's label. */
  lemma CollectedInOrder(files: Files)
    ensures Collected(files, InputFiles) ==
      Contribution(files, InputFiles[0]) + Contribution(files, InputFiles[1]) + Contribution(files, InputFiles[2])
    ensures forall row :: row in Collected(files, InputFiles) ==>
      |row| == 2 && row[1] in {"negative", "positive", "neutral"}
  {
    var i := InputFiles;
    assert i[..1][..0] == [];
    assert Collected(files, i[..1]) == Contribution(files, i[0]);
    assert i[..2][..1] == i[..1];
    assert Collected(files, i[..2]) == Contribution(files, i[0]) + Contribution(files, i[1]);
    assert i[..2] == i[..|i| - 1];
  }

  /** The body of the `with open(...)` block: no rows after a wrong header,
      otherwise each one-field row paired with the label. */
  method ReadFile(records: seq<seq<string>>, className: string) returns (rows: seq<seq<string>>)
    ensures rows == FileRows(records, className)
  {
    rows := [];
    if records == [] || records[0] != Header {
      return;
    }
    var r := 1;
    while r < |records|
      invariant 1 <= r <= |records|
      invariant rows == Labelled(records[1..r], className)
    {
      assert records[1..r + 1][..r - 1] == records[1..r];
      var row := records[r];
      if |row| == 1 {
        rows := rows + [[row[0], className]];
      }
      r := r + 1;
    }
    assert records[1..r] == records[1..];
  }

  /** The script: each readable file's one-field rows with their label,
      files in the mapping's order, after the output header. */
  method Combine(files: Files) returns (out: seq<seq<string>>)
    ensures out == [OutputHeader] + Collected(files, InputFiles)
  {
    var allRows: seq<seq<string>> := [];
    var f := 0;
    while f < |InputFiles|
      invariant f <= |InputFiles|
      invariant allRows == Collected(files, InputFiles[..f])
    {
      assert InputFiles[..f + 1][..f] == InputFiles[..f];
      var (filePath, className) := InputFiles[f];
      if filePath in files {
        var fileRows := ReadFile(files[filePath], className);
        allRows := allRows + fileRows;
      }
      f := f + 1;
    }
    assert InputFiles[..f] == InputFiles;
    out := [OutputHeader] + allRows;
  }

  /** A one-column file body: each field becomes a row with the label. */
  lemma LabelledColumn(fields: seq<string>, className: string)
    ensures Labelled(seq(|fields|, k requires 0 <= k < |fields| => [fields[k]]), className) ==
      seq(|fields|, k requires 0 <= k < |fields| => [fields[k], className])
  {
    LabelledAll(seq(|fields|, k requires 0 <= k < |fields| => [fields[k]]), className);
  }

  /** The two scripts in sequence: a class file written by text_to_csv
      from `posts` and read back unchanged contributes one row per post,
      in order, each the escaped post with the file's label. */
  lemma PipelineRows(posts: seq<string>, className: string)
    ensures FileRows(TextToCsv.Rows(posts), className) ==
      seq(|posts|, k requires 0 <= k < |posts| => [TextToCsv.Escape(posts[k]), className])
  {
    var fields := seq(|posts|, k requires 0 <= k < |posts| => TextToCsv.Escape(posts[k]));
    var column := seq(|fields|, k requires 0 <= k < |fields| => [fields[k]]);
    assert TextToCsv.Rows(posts) == [TextToCsv.Header] + column;
    assert (TextToCsv.Rows(posts))[1..] == column;
    LabelledColumn(fields, className);
  }
}
