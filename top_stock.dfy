/** The row-validation step of the "Top Stock" scraper: every body row of the
    scraped table becomes the list of its trimmed cell texts, and only rows of
    exactly six cells are kept, in table order, under a fixed six-column
    header. Rows of any other width are skipped and reported, never fatal. */
module TopStock {

  /** One table row: the trimmed texts of its cells, in cell order. */
  type Row = seq<string>

  /** The fixed header of the exported table. */
  const Columns: seq<string> := ["Buy", "N.Val", "N.Lot", "N.Freq", "Avg", "N.Foreign"]

  /** A row is well formed when it has exactly six cells, one per column of
      the header. */
  predicate IsStockRow(r: Row): (b: bool)
    ensures b <==> |r| == |Columns|
  {
    assert |Columns| == 6;
    |r| == 6
  }

  /** The cells of one scraped row: each cell's inner text, trimmed by `trim`,
      in cell order. */
  function CellTexts(trim: string -> string, cells: seq<string>): (r: Row)
    ensures |r| == |cells|
    ensures forall i :: 0 <= i < |cells| ==> r[i] == trim(cells[i])
  {
    if cells == [] then []
    else CellTexts(trim, cells[..|cells| - 1]) + [trim(cells[|cells| - 1])]
  }

  /** Every scraped row turned into its trimmed cell texts, in table order;
      a row counts as a stock row exactly when the table row had six cells. */
  function Rows(trim: string -> string, table: seq<seq<string>>): (r: seq<Row>)
    ensures |r| == |table|
    ensures forall i :: 0 <= i < |table| ==> r[i] == CellTexts(trim, table[i])
    ensures forall i :: 0 <= i < |table| ==> (IsStockRow(r[i]) <==> |table[i]| == 6)
  {
    if table == [] then []
    else Rows(trim, table[..|table| - 1]) + [CellTexts(trim, table[|table| - 1])]
  }

  /** The rows that enter the result: the six-cell rows, in their original order. */
  function Accepted(rows: seq<Row>): (r: seq<Row>)
    ensures |r| <= |rows|
    ensures forall k :: 0 <= k < |r| ==> IsStockRow(r[k])
  {
    if rows == [] then []
    else
      var last := rows[|rows| - 1];
      Accepted(rows[..|rows| - 1]) + (if IsStockRow(last) then [last] else [])
  }

  /** The rows that are skipped (and reported): all the others, in order. */
  function Rejected(rows: seq<Row>): (r: seq<Row>)
    ensures |r| <= |rows|
    ensures forall k :: 0 <= k < |r| ==> !IsStockRow(r[k])
  {
    if rows == [] then []
    else
      var last := rows[|rows| - 1];
      Rejected(rows[..|rows| - 1]) + (if IsStockRow(last) then [] else [last])
  }

  /** Positions of the six-cell rows, in increasing order: an independent
      description of which rows `Accepted` selects. */
  function AcceptedPositions(rows: seq<Row>): (ix: seq<nat>)
    ensures forall k :: 0 <= k < |ix| ==> ix[k] < |rows| && IsStockRow(rows[ix[k]])
    ensures forall k, l :: 0 <= k < l < |ix| ==> ix[k] < ix[l]
  {
    if rows == [] then []
    else
      var n := |rows| - 1;
      AcceptedPositions(rows[..n]) + (if IsStockRow(rows[n]) then [n] else [])
  }

  /** The accepted rows are exactly the rows at `AcceptedPositions`, and every
      six-cell row's position is among them: `Accepted` is the order-preserving
      subsequence of six-cell rows, each copied verbatim. */
  lemma {:induction false} AcceptedIsSubsequence(rows: seq<Row>)
    ensures |Accepted(rows)| == |AcceptedPositions(rows)|
    ensures forall k :: 0 <= k < |Accepted(rows)| ==>
              Accepted(rows)[k] == rows[AcceptedPositions(rows)[k]]
    ensures forall i :: 0 <= i < |rows| && IsStockRow(rows[i]) ==> i in AcceptedPositions(rows)
  {
    if rows != [] {
      var n := |rows| - 1;
      AcceptedIsSubsequence(rows[..n]);
      assert forall i :: 0 <= i < n ==> rows[..n][i] == rows[i];
    }
  }

  /** A row is in the result exactly when it is a six-cell row of the input. */
  lemma {:induction false} AcceptedMembership(rows: seq<Row>, r: Row)
    ensures r in Accepted(rows) <==> r in rows && IsStockRow(r)
  {
    if rows != [] {
      var n := |rows| - 1;
      AcceptedMembership(rows[..n], r);
      assert rows == rows[..n] + [rows[n]];
    }
  }

  /** Skipped rows are exactly the input rows whose width is not six. */
  lemma {:induction false} RejectedMembership(rows: seq<Row>, r: Row)
    ensures r in Rejected(rows) <==> r in rows && !IsStockRow(r)
  {
    if rows != [] {
      var n := |rows| - 1;
      RejectedMembership(rows[..n], r);
      assert rows == rows[..n] + [rows[n]];
    }
  }

  /** Every input row is either kept or skipped, never both and never lost. */
  lemma {:induction false} AcceptedRejectedPartition(rows: seq<Row>)
    ensures multiset(Accepted(rows)) + multiset(Rejected(rows)) == multiset(rows)
    ensures |Accepted(rows)| + |Rejected(rows)| == |rows|
  {
    if rows != [] {
      var n := |rows| - 1;
      var init, last := rows[..n], rows[n];
      AcceptedRejectedPartition(init);
      assert rows == init + [last];
      assert multiset(rows) == multiset(init) + multiset{last};
      if IsStockRow(last) {
        assert Accepted(rows) == Accepted(init) + [last];
        assert Rejected(rows) == Rejected(init);
        assert multiset(Accepted(rows)) == multiset(Accepted(init)) + multiset{last};
      } else {
        assert Accepted(rows) == Accepted(init);
        assert Rejected(rows) == Rejected(init) + [last];
        assert multiset(Rejected(rows)) == multiset(Rejected(init)) + multiset{last};
      }
    }
  }

  /** A table with no six-cell row (in particular an empty table) yields an
      empty result, and only such a table does. */
  lemma {:induction false} AcceptedEmpty(rows: seq<Row>)
    ensures Accepted(rows) == [] <==> forall i :: 0 <= i < |rows| ==> !IsStockRow(rows[i])
  {
    if rows != [] {
      var n := |rows| - 1;
      AcceptedEmpty(rows[..n]);
      assert forall i :: 0 <= i < n ==> rows[..n][i] == rows[i];
    }
  }

  /** Filtering works row by row: the result for a concatenation of tables is
      the concatenation of the results. */
  lemma {:induction false} AcceptedAppend(xs: seq<Row>, ys: seq<Row>)
    ensures Accepted(xs + ys) == Accepted(xs) + Accepted(ys)
  {
    if ys == [] {
      assert xs + ys == xs;
    } else {
      var n := |ys| - 1;
      AcceptedAppend(xs, ys[..n]);
      assert (xs + ys)[..|xs + ys| - 1] == xs + ys[..n];
      assert (xs + ys)[|xs + ys| - 1] == ys[n];
    }
  }

  /** Filtering an already filtered table changes nothing. */
  lemma {:induction false} AcceptedIdempotent(rows: seq<Row>)
    ensures Accepted(Accepted(rows)) == Accepted(rows)
  {
    if rows != [] {
      var n := |rows| - 1;
      var last := rows[n];
      var tail := if IsStockRow(last) then [last] else [];
      AcceptedIdempotent(rows[..n]);
      AcceptedAppend(Accepted(rows[..n]), tail);
    }
  }

  /** The row loop of the scraper: walks the table's rows in order, keeps each
      six-cell row in `data` and reports every other row in `skipped`. */
  method CollectRows(trim: string -> string, table: seq<seq<string>>)
    returns (data: seq<Row>, skipped: seq<Row>)
    ensures data == Accepted(Rows(trim, table))
    ensures skipped == Rejected(Rows(trim, table))
  {
    data, skipped := [], [];
    for i := 0 to |table|
      invariant data == Accepted(Rows(trim, table[..i]))
      invariant skipped == Rejected(Rows(trim, table[..i]))
    {
      var cols := CellTexts(trim, table[i]);
      if |cols| == 6 {
        data := data + [cols];
      } else {
        skipped := skipped + [cols];
      }
      assert table[..i + 1][..i] == table[..i];
    }
    assert table[..|table|] == table;
  }

  /** A data frame: a header and its rows. */
  datatype Frame = Frame(columns: seq<string>, rows: seq<Row>)

  /** Builds the exported table from the accepted rows under the fixed header;
      every row then has one cell per column. */
  function ToFrame(data: seq<Row>): (f: Frame)
    requires forall k :: 0 <= k < |data| ==> IsStockRow(data[k])
    ensures f.columns == ["Buy", "N.Val", "N.Lot", "N.Freq", "Avg", "N.Foreign"]
    ensures f.rows == data
    ensures forall k :: 0 <= k < |f.rows| ==> |f.rows[k]| == |f.columns|
  {
    assert |Columns| == 6;
    assert forall k :: 0 <= k < |data| ==> IsStockRow(data[k]) && |data[k]| == 6;
    Frame(Columns, data)
  }
}
