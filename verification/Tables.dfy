/** The table of two nested loops, written out row by row. */
module Tables {

  function Row<T>(f: (nat, nat) --> T, i: nat, columns: nat): seq<T>
    requires forall j: nat :: j < columns ==> f.requires(i, j)
  {
    if columns == 0 then [] else Row(f, i, columns - 1) + [f(i, columns - 1)]
  }

  function Table<T>(f: (nat, nat) --> T, rows: nat, columns: nat): seq<T>
    requires forall i: nat, j: nat :: i < rows && j < columns ==> f.requires(i, j)
  {
    if rows == 0 then [] else Table(f, rows - 1, columns) + Row(f, rows - 1, columns)
  }

  lemma {:induction false} RowAt<T>(f: (nat, nat) --> T, i: nat, columns: nat)
    requires forall j: nat :: j < columns ==> f.requires(i, j)
    ensures |Row(f, i, columns)| == columns
    ensures forall j: nat :: j < columns ==> Row(f, i, columns)[j] == f(i, j)
  {
    if columns > 0 {
      RowAt(f, i, columns - 1);
    }
  }

  lemma {:induction false} TableSize<T>(f: (nat, nat) --> T, rows: nat, columns: nat)
    requires forall i: nat, j: nat :: i < rows && j < columns ==> f.requires(i, j)
    ensures |Table(f, rows, columns)| == rows * columns
  {
    if rows > 0 {
      TableSize(f, rows - 1, columns);
      RowAt(f, rows - 1, columns);
      assert rows * columns == (rows - 1) * columns + columns;
    }
  }

  /** Each pair once, in lexicographic order. */
  lemma {:induction false} TableAt<T>(f: (nat, nat) --> T, rows: nat, columns: nat, i: nat, j: nat)
    requires forall i: nat, j: nat :: i < rows && j < columns ==> f.requires(i, j)
    requires i < rows && j < columns
    ensures 0 <= i * columns + j < |Table(f, rows, columns)|
    ensures Table(f, rows, columns)[i * columns + j] == f(i, j)
  {
    TableSize(f, rows - 1, columns);
    RowAt(f, rows - 1, columns);
    if i < rows - 1 {
      TableAt(f, rows - 1, columns, i, j);
    } else {
      assert (rows - 1) * columns == i * columns;
    }
  }

  lemma {:induction false} TableMember<T>(f: (nat, nat) --> T, rows: nat, columns: nat, x: T) returns (i: nat, j: nat)
    requires forall i: nat, j: nat :: i < rows && j < columns ==> f.requires(i, j)
    requires x in Table(f, rows, columns)
    ensures i < rows && j < columns && x == f(i, j)
  {
    RowAt(f, rows - 1, columns);
    if x in Row(f, rows - 1, columns) {
      i := rows - 1;
      j :| 0 <= j < |Row(f, rows - 1, columns)| && Row(f, rows - 1, columns)[j] == x;
    } else {
      i, j := TableMember(f, rows - 1, columns, x);
    }
  }
}
