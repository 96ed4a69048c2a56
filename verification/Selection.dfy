// from_inner_to_column (src/build_table.cpp): the rows that a filter's bitmap takes, written
// to pages by a ColumnInserter.
module Selection {
  import opened Options
  import opened Bags
  import opened PageFormat
  import opened FixedPages
  import opened Bitmaps
  import opened Values
  import opened InnerColumns
  import opened Statements
  import opened VarcharPages
  import ColumnStore
  import ColumnInserter
  import StringInserter

  // The cells of the first n rows that the bitmap takes, in order.
  function Taken(cells: seq<Cell>, results: seq<Byte>, n: nat): seq<Cell>
    requires n <= |cells|
  {
    if n == 0 then [] else Taken(cells, results, n - 1) + if Bit(results, n - 1) then [cells[n - 1]] else []
  }

  function IntCell(v: Option<I32>): Cell {
    if v.Some? then Some(ColumnStore.Int32Bytes(v.value)) else None
  }

  lemma {:induction false} TakenIsOk(cells: seq<Cell>, results: seq<Byte>, n: nat)
    requires n <= |cells| && CellsOk(4, cells)
    ensures CellsOk(4, Taken(cells, results, n))
  {
    if n > 0 {
      TakenIsOk(cells, results, n - 1);
    }
  }

  // INT32: the pages hold exactly the taken values, in order, as to_columnar lays them out.
  method IntsToColumn(c: NumberColumn<I32>, results: seq<Byte>, rows: nat) returns (pages: seq<Page>, ret: nat)
    requires c.Valid() && rows == |c.data| && |results| == BitmapBytes(rows)
    ensures var taken := Taken(Map(c.Cells(), IntCell), results, rows);
            CellsOk(4, taken) && PagesHold(pages, 4, Closed(Greedy(4, taken))) && ret == |taken|
  {
    hide BitOf, Greedy, PagesHold, Closed, ColumnInserter.Inserter.Valid;
    var inserter := new ColumnInserter.Inserter();
    ret := 0;
    ghost var cells := Map(c.Cells(), IntCell);
    for i := 0 to rows
      invariant fresh(inserter) && inserter.Valid() && inserter.values == Taken(cells, results, i)
                && ret == |inserter.values|
    {
      if BitAt(results, i) {
        if BitAt(c.bitmap, i) {
          inserter.Insert(ColumnStore.Int32Bytes(c.data[i]));
        } else {
          inserter.InsertNull();
        }
        ret := ret + 1;
      }
    }
    TakenIsOk(cells, results, rows);
    inserter.Finalize();
    pages := inserter.pages[..inserter.lastPageIdx];
  }

  // VARCHAR: likewise.
  method TextsToColumn(c: StringColumn, results: seq<Byte>, rows: nat)
    returns (pages: seq<Page>, ret: nat, ghost runs: seq<seq<Page>>)
    requires c.Valid() && rows == c.row && |results| == BitmapBytes(rows)
    ensures ret == |Taken(c.Cells(), results, rows)|
    ensures Says(pages, Close(Segments(Taken(c.Cells(), results, rows))))
    ensures VarcharPages.Holds(runs, Close(Segments(Taken(c.Cells(), results, rows)))) && Concat(runs) == pages
  {
    hide BitOf, Concat, Segments, VarcharPages.Holds, Close, StringInserter.Inserter.Valid;
    var inserter := new StringInserter.Inserter();
    ret := 0;
    ghost var cells := c.Cells();
    for i := 0 to rows
      invariant fresh(inserter) && inserter.Valid() && inserter.values == Taken(cells, results, i)
                && ret == |inserter.values|
    {
      assert cells[i] == c.CellAt(i);
      if BitAt(results, i) {
        if BitAt(c.bitmap, i) {
          inserter.Insert(c.Get(i));
        } else {
          inserter.InsertNull();
        }
        ret := ret + 1;
      }
    }
    inserter.Finalize();
    pages, runs := inserter.pages, inserter.runs;
  }

  // The cells of the rows that meet the statement.
  ghost function Chosen(cells: seq<Cell>, s: Statement, records: seq<seq<Data>>, env: Env,
                        n: nat): seq<Cell>
    requires n <= |cells| <= |records|
  {
    if n == 0 then []
    else Chosen(cells, s, records, env, n - 1) + if EvalRow(s, records[n - 1], env) then [cells[n - 1]] else []
  }

  // The rows before n that meet the statement.
  ghost function Met(s: Statement, records: seq<seq<Data>>, env: Env, n: nat): set<int>
    requires n <= |records|
  {
    set k | 0 <= k < n && EvalRow(s, records[k], env)
  }

  lemma OneMoreMet(s: Statement, records: seq<seq<Data>>, env: Env, n: nat)
    requires n < |records|
    ensures |Met(s, records, env, n + 1)| == |Met(s, records, env, n)| + if EvalRow(s, records[n], env) then 1 else 0
  {
    hide EvalRow;
    assert Met(s, records, env, n + 1) == Met(s, records, env, n) + if EvalRow(s, records[n], env) then {n} else {};
  }

  lemma NothingMet(s: Statement, records: seq<seq<Data>>, env: Env)
    ensures |Met(s, records, env, 0)| == 0
  {
    assert Met(s, records, env, 0) == {};
  }

  // A row that meets the statement is chosen, behind as many others as meet it before.
  lemma ChosenRows(cells: seq<Cell>, s: Statement, records: seq<seq<Data>>, env: Env, n: nat, i: nat)
    requires i < n <= |cells| <= |records|
    ensures |Chosen(cells, s, records, env, n)| == |set k | 0 <= k < n && EvalRow(s, records[k], env)|
    ensures EvalRow(s, records[i], env) ==>
              var at := |set k | 0 <= k < i && EvalRow(s, records[k], env)|;
              at < |Chosen(cells, s, records, env, n)| && Chosen(cells, s, records, env, n)[at] == cells[i]
  {
    hide Chosen;
    ChosenCount(cells, s, records, env, n);
    assert (set k | 0 <= k < n && EvalRow(s, records[k], env)) == Met(s, records, env, n);
    assert (set k | 0 <= k < i && EvalRow(s, records[k], env)) == Met(s, records, env, i);
    if EvalRow(s, records[i], env) {
      ChosenAt(cells, s, records, env, n, i);
    }
  }

  lemma {:induction false} ChosenAt(cells: seq<Cell>, s: Statement, records: seq<seq<Data>>, env: Env, n: nat, i: nat)
    requires i < n <= |cells| <= |records| && EvalRow(s, records[i], env)
    ensures |Met(s, records, env, i)| < |Chosen(cells, s, records, env, n)|
    ensures Chosen(cells, s, records, env, n)[|Met(s, records, env, i)|] == cells[i]
    decreases n
  {
    hide EvalRow, Met;
    ChosenCount(cells, s, records, env, n - 1);
    if i < n - 1 {
      ChosenAt(cells, s, records, env, n - 1, i);
    }
  }

  lemma {:induction false} ChosenCount(cells: seq<Cell>, s: Statement, records: seq<seq<Data>>, env: Env, n: nat)
    requires n <= |cells| <= |records|
    ensures |Chosen(cells, s, records, env, n)| == |Met(s, records, env, n)|
    decreases n
  {
    hide EvalRow, Met;
    if n == 0 {
      NothingMet(s, records, env);
    } else {
      ChosenCount(cells, s, records, env, n - 1);
      OneMoreMet(s, records, env, n - 1);
    }
  }

  lemma {:induction false} TakenIsChosen(cells: seq<Cell>, results: seq<Byte>, s: Statement, records: seq<seq<Data>>,
                                         env: Env, n: nat)
    requires n <= |cells| <= |records| && forall i :: 0 <= i < n ==> Bit(results, i) == EvalRow(s, records[i], env)
    ensures Taken(cells, results, n) == Chosen(cells, s, records, env, n)
  {
    if n > 0 {
      TakenIsChosen(cells, results, s, records, env, n - 1);
    }
  }

  // Filtering, writing and reading back an INT32 column leaves the values of the rows that meet
  // the statement, in order.
  method FilterInts(s: Statement, table: seq<ColumnRef>, env: Env, ghost records: seq<seq<Data>>,
                    rows: nat, c: NumberColumn<I32>)
    returns (ret: nat, back: seq<Cell>)
    requires rows == |records| && Statements.Holds(table, records) && WellTyped(s, table) && Exact(s, table, env)
    requires Rounding(env.toDouble)
    requires c.Valid() && |c.data| == rows
    ensures back == Chosen(Map(c.Cells(), IntCell), s, records, env, rows) && ret == |back|
  {
    hide Bit, EvalRow, Concat, Greedy, PagesHold, Closed, Statements.Holds, WellTyped, Exact, Rounding, ChunksOk, CellsOk;
    ghost var cells := Map(c.Cells(), IntCell);
    var results := Eval(s, table, env, records, rows);
    TakenIsChosen(cells, results, s, records, env, rows);
    var pages;
    pages, ret := IntsToColumn(c, results, rows);
    ghost var taken := Taken(cells, results, rows);
    ClosedKeepsRows(4, taken);
    ClosedCellsOk(4, taken);
    var ok;
    ok, back := FixedPages.FromColumnar(pages, 4, ret, Closed(Greedy(4, taken)));
  }

  method FilterTexts(s: Statement, table: seq<ColumnRef>, env: Env,
                     ghost records: seq<seq<Data>>, rows: nat, c: StringColumn)
    returns (ret: nat, back: seq<Cell>)
    requires rows == |records| && Statements.Holds(table, records) && WellTyped(s, table) && Exact(s, table, env)
    requires Rounding(env.toDouble)
    requires c.Valid() && c.row == rows
    ensures back == Chosen(c.Cells(), s, records, env, rows) && ret == |back|
  {
    hide Bit, EvalRow, Concat, Segments, Close, VarcharPages.Holds, Statements.Holds, WellTyped, Exact, Rounding, Map;
    ghost var cells := c.Cells();
    var results := Eval(s, table, env, records, rows);
    TakenIsChosen(cells, results, s, records, env, rows);
    var pages;
    ghost var runs;
    pages, ret, runs := TextsToColumn(c, results, rows);
    ghost var taken := Taken(cells, results, rows);
    ClosedSegmentsKeepRows(taken);
    var ok;
    ok, back := VarcharPages.FromColumnar(pages, ret, runs, Close(Segments(taken)));
  }
}
