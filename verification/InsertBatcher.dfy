/**
  mysqldump --extended-insert: rows are put into one INSERT as long as the statement stays
  below the network buffer length. A row is its text with its parentheses.
 */
module InsertBatcher {
  import opened Shared

  type Batch = b: seq<string> | b != [] witness [""]

  /** One INSERT without its closing semicolon. */
  function Text(pattern: string, b: Batch): string
    decreases |b|
  {
    var last := |b| - 1;
    if last == 0 then pattern + b[0] else Text(pattern, b[..last]) + (",\n" + b[last])
  }

  /** The statements written so far, the last one still open. */
  function Open(pattern: string, batches: seq<Batch>): string {
    if batches == [] then []
    else
      var last := |batches| - 1;
      if last == 0 then Text(pattern, batches[0])
      else Open(pattern, batches[..last]) + (";\n" + Text(pattern, batches[last]))
  }

  /** Put a row into the last INSERT if that stays below the limit, or else into a new one. */
  function AddRow(pattern: string, limit: nat, batches: seq<Batch>, row: string): seq<Batch> {
    var n := |batches|;
    if n > 0 && |Text(pattern, batches[n - 1])| + 2 + |row| + 6 < limit
    then batches[..n - 1] + [batches[n - 1] + [row]]
    else batches + [[row]]
  }

  function Batches(pattern: string, limit: nat, rows: seq<string>): seq<Batch> {
    if rows == [] then []
    else AddRow(pattern, limit, Batches(pattern, limit, rows[..|rows| - 1]), rows[|rows| - 1])
  }

  /** The row loop of dump_table with extended inserts. */
  method DumpRows(pattern: string, limit: nat, rows: seq<string>) returns (out: string)
    ensures out == if rows == [] then "" else Open(pattern, Batches(pattern, limit, rows)) + ";\n"
  {
    out := "";
    var totalLength, rowBreak, initLength := limit, false, |pattern| + 4;
    ghost var batches: seq<Batch> := [];
    var i := 0;
    while i < |rows|
      invariant 0 <= i <= |rows| && batches == Batches(pattern, limit, rows[..i]) && (batches == [] <==> i == 0)
      invariant out == Open(pattern, batches) && rowBreak == (batches != [])
      invariant totalLength == if batches == [] then limit else |Text(pattern, batches[|batches| - 1])| + 6
    {
      var rowLength := 2 + |rows[i]|;
      AddOne(pattern, limit, rows, i, batches);
      if totalLength + rowLength < limit {
        totalLength := totalLength + rowLength;
        out := out + (",\n" + rows[i]);
      } else {
        if rowBreak { out := out + ";\n"; }
        rowBreak := true;
        out := out + (pattern + rows[i]);
        totalLength := rowLength + initLength;
      }
      batches := AddRow(pattern, limit, batches, rows[i]);
      i := i + 1;
    }
    assert rows[..i] == rows;
    if rowBreak { out := out + ";\n"; }
  }

  /** What adding row i does to the grouping and to the text. */
  lemma AddOne(pattern: string, limit: nat, rows: seq<string>, i: nat, batches: seq<Batch>)
    requires i < |rows| && batches == Batches(pattern, limit, rows[..i])
    ensures Batches(pattern, limit, rows[..i + 1]) == AddRow(pattern, limit, batches, rows[i])
    ensures AddRow(pattern, limit, batches, rows[i]) != []
    ensures var n, grown := |batches|, AddRow(pattern, limit, batches, rows[i]);
      if n > 0 && |Text(pattern, batches[n - 1])| + 2 + |rows[i]| + 6 < limit
      then
        && Text(pattern, grown[|grown| - 1]) == Text(pattern, batches[n - 1]) + (",\n" + rows[i])
        && Open(pattern, grown) == Open(pattern, batches) + (",\n" + rows[i])
      else
        && Text(pattern, grown[|grown| - 1]) == pattern + rows[i]
        && Open(pattern, grown) == (if n > 0 then Open(pattern, batches) + ";\n" else "") + (pattern + rows[i])
  {
    assert rows[..i + 1][..i] == rows[..i];
    OpenNew(pattern, batches, rows[i]);
    if batches != [] {
      var n := |batches|;
      assert batches == batches[..n - 1] + [batches[n - 1]];
      TextMore(pattern, batches[n - 1], rows[i]);
      OpenMore(pattern, batches[..n - 1], batches[n - 1], rows[i]);
    }
  }

  lemma TextMore(pattern: string, b: Batch, row: string)
    ensures Text(pattern, b + [row]) == Text(pattern, b) + (",\n" + row)
  {
    assert (b + [row])[..|b|] == b;
  }

  lemma OpenLast(pattern: string, front: seq<Batch>, last: Batch)
    ensures Open(pattern, front + [last])
         == if front == [] then Text(pattern, last) else Open(pattern, front) + (";\n" + Text(pattern, last))
  {
    assert (front + [last])[..|front|] == front;
  }

  /** A row added to the last INSERT is added to the end of the text. */
  lemma OpenMore(pattern: string, front: seq<Batch>, last: Batch, row: string)
    ensures Open(pattern, front + [last + [row]]) == Open(pattern, front + [last]) + (",\n" + row)
  {
    OpenLast(pattern, front, last);
    OpenLast(pattern, front, last + [row]);
    TextMore(pattern, last, row);
    if front != [] {
      Regroup(Open(pattern, front), ";\n", Text(pattern, last), ",\n" + row);
    }
  }

  /** A row in a new INSERT is added after the end of the last one. */
  lemma OpenNew(pattern: string, batches: seq<Batch>, row: string)
    ensures Open(pattern, batches + [[row]]) ==
        (if batches != [] then Open(pattern, batches) + ";\n" else "") + (pattern + row)
  {
    OpenLast(pattern, batches, [row]);
    Associate(if batches != [] then Open(pattern, batches) else "", ";\n", pattern + row);
    assert "" + (pattern + row) == pattern + row;
  }

  // --- what it means

  function Rows(batches: seq<Batch>): seq<string> {
    if batches == [] then [] else Rows(batches[..|batches| - 1]) + batches[|batches| - 1]
  }

  /** An INSERT of two or more rows stays below the limit. */
  predicate Fits(pattern: string, limit: nat, b: Batch) {
    |b| >= 2 ==> |Text(pattern, b)| + 6 < limit
  }

  /** One more row would take the INSERT to the limit. */
  predicate Full(pattern: string, limit: nat, b: Batch, row: string) {
    |Text(pattern, b) + (",\n" + row)| + 6 >= limit
  }

  /** Every INSERT fits, and a new one starts only for the first row or when the last one is full. */
  ghost predicate Greedy(pattern: string, limit: nat, batches: seq<Batch>) {
    && (forall k :: 0 <= k < |batches| ==> Fits(pattern, limit, batches[k]))
    && (forall k :: 0 <= k < |batches| - 1 ==> Full(pattern, limit, batches[k], batches[k + 1][0]))
  }

  lemma RowsLast(front: seq<Batch>, last: Batch)
    ensures Rows(front + [last]) == Rows(front) + last
  {
    assert (front + [last])[..|front|] == front;
  }

  /** A row that fits keeps the grouping greedy, and so does a new INSERT after a full one. */
  lemma AddKeepsGreedy(pattern: string, limit: nat, batches: seq<Batch>, row: string)
    requires Greedy(pattern, limit, batches)
    ensures Greedy(pattern, limit, AddRow(pattern, limit, batches, row))
    ensures Rows(AddRow(pattern, limit, batches, row)) == Rows(batches) + [row]
  {
    var n := |batches|;
    if n > 0 && |Text(pattern, batches[n - 1])| + 2 + |row| + 6 < limit {
      var front, last := batches[..n - 1], batches[n - 1];
      assert batches == front + [last];
      TextMore(pattern, last, row);
      RowsLast(front, last);
      RowsLast(front, last + [row]);
      assert (Rows(front) + last) + [row] == Rows(front) + (last + [row]);
    } else {
      RowsLast(batches, [row]);
    }
  }

  /** All rows are written once and in order, in such INSERTs. */
  lemma {:induction false} BatchesAreGreedy(pattern: string, limit: nat, rows: seq<string>)
    ensures Rows(Batches(pattern, limit, rows)) == rows
    ensures Greedy(pattern, limit, Batches(pattern, limit, rows))
  {
    if rows != [] {
      var front, row := rows[..|rows| - 1], rows[|rows| - 1];
      assert rows == front + [row];
      BatchesMore(pattern, limit, front, row);
      BatchesAreGreedy(pattern, limit, front);
      AddKeepsGreedy(pattern, limit, Batches(pattern, limit, front), row);
    }
  }

  lemma BatchesMore(pattern: string, limit: nat, rows: seq<string>, row: string)
    ensures Batches(pattern, limit, rows + [row]) == AddRow(pattern, limit, Batches(pattern, limit, rows), row)
  {
    assert (rows + [row])[..|rows|] == rows;
  }

  /** A greedy grouping without its last row is greedy. */
  lemma ShorterIsGreedy(pattern: string, limit: nat, front: seq<Batch>, last: Batch, row: string)
    requires Greedy(pattern, limit, front + [last + [row]])
    ensures Greedy(pattern, limit, front + [last])
  {
    var more, less := front + [last + [row]], front + [last];
    TextMore(pattern, last, row);
    forall k | 0 <= k < |less|
      ensures Fits(pattern, limit, less[k])
    {
      assert Fits(pattern, limit, more[k]);
    }
    forall k | 0 <= k < |less| - 1
      ensures Full(pattern, limit, less[k], less[k + 1][0])
    {
      assert Full(pattern, limit, more[k], more[k + 1][0]);
    }
  }

  /** That is the only such grouping of the rows. */
  lemma {:induction false} GreedyIsUnique(pattern: string, limit: nat, batches: seq<Batch>)
    requires Greedy(pattern, limit, batches)
    ensures Batches(pattern, limit, Rows(batches)) == batches
    decreases |Rows(batches)|
  {
    if batches != [] {
      var n := |batches| - 1;
      var front, last := batches[..n], batches[n];
      var m := |last| - 1;
      var row := last[m];
      assert batches == front + [last];
      RowsLast(front, last);
      if m == 0 {
        assert last == [row];
        GreedyIsUnique(pattern, limit, front);
        BatchesMore(pattern, limit, Rows(front), row);
        assert n > 0 ==> Full(pattern, limit, batches[n - 1], batches[n - 1 + 1][0]);
      } else {
        var less: Batch := last[..m];
        assert last == less + [row];
        ShorterIsGreedy(pattern, limit, front, less, row);
        RowsLast(front, less);
        assert (Rows(front) + less) + [row] == Rows(front) + last;
        GreedyIsUnique(pattern, limit, front + [less]);
        BatchesMore(pattern, limit, Rows(front + [less]), row);
        TextMore(pattern, less, row);
        assert Fits(pattern, limit, batches[n]);
      }
    }
  }
}
