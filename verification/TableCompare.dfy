/**
 Order-independent comparison of database snapshots (crates/synddb-fuzzer/src/replay.rs).  Rows are
 sorted by their Debug text, an arbitrary function `debug` here, and then compared one by one.
 */
module TableCompare {

  datatype Value = Null | Integer(i: int) | Text(text: string) | Blob(bytes: seq<bv8>)
  type Row = seq<Value>
  type Debug = Row -> string
  datatype Table = Table(columns: seq<string>, rows: seq<Row>)
  type Snapshot = map<string, Table>

  // ---------------------------------------------------------------- string order

  /** Lexicographic order of strings. */
  predicate Leq(a: string, b: string) {
    a == "" || (b != "" && (a[0] < b[0] || (a[0] == b[0] && Leq(a[1..], b[1..]))))
  }

  lemma {:induction false} LeqTotal(a: string, b: string)
    ensures Leq(a, b) || Leq(b, a)
  {
    if a != "" && b != "" && a[0] == b[0] {
      LeqTotal(a[1..], b[1..]);
    }
  }

  lemma {:induction false} LeqAntisymmetric(a: string, b: string)
    requires Leq(a, b) && Leq(b, a)
    ensures a == b
  {
    if a != "" && b != "" {
      LeqAntisymmetric(a[1..], b[1..]);
      assert a == [a[0]] + a[1..] && b == [b[0]] + b[1..];
    }
  }

  lemma {:induction false} LeqTransitive(a: string, b: string, c: string)
    requires Leq(a, b) && Leq(b, c)
    ensures Leq(a, c)
  {
    if a != "" && b != "" && c != "" && a[0] == b[0] == c[0] {
      LeqTransitive(a[1..], b[1..], c[1..]);
    }
  }

  // ---------------------------------------------------------------- sorting

  ghost predicate Sorted(debug: Debug, rows: seq<Row>) {
    forall i, j :: 0 <= i < j < |rows| ==> Leq(debug(rows[i]), debug(rows[j]))
  }

  function InsertRow(debug: Debug, row: Row, rows: seq<Row>): (r: seq<Row>)
    ensures multiset(r) == multiset{row} + multiset(rows)
  {
    if rows == [] then [row]
    else if Leq(debug(row), debug(rows[0])) then [row] + rows
    else
      assert rows == [rows[0]] + rows[1..];
      [rows[0]] + InsertRow(debug, row, rows[1..])
  }

  /** A stable sort by the Debug text. */
  function Sort(debug: Debug, rows: seq<Row>): (r: seq<Row>)
    ensures multiset(r) == multiset(rows)
  {
    if rows == [] then []
    else
      assert rows == [rows[0]] + rows[1..];
      InsertRow(debug, rows[0], Sort(debug, rows[1..]))
  }

  lemma {:induction false} InsertSorted(debug: Debug, row: Row, rows: seq<Row>)
    requires Sorted(debug, rows)
    ensures Sorted(debug, InsertRow(debug, row, rows))
  {
    if rows != [] {
      var head, tail := rows[0], rows[1..];
      if Leq(debug(row), debug(head)) {
        forall j | 0 <= j < |rows| ensures Leq(debug(row), debug(rows[j])) {
          if j > 0 {
            LeqTransitive(debug(row), debug(head), debug(rows[j]));
          }
        }
      } else {
        LeqTotal(debug(row), debug(head));
        InsertSorted(debug, row, tail);
        var r := InsertRow(debug, row, tail);
        forall j | 0 <= j < |r| ensures Leq(debug(head), debug(r[j])) {
          assert r[j] in multiset(r);
          if r[j] != row {
            assert r[j] in multiset(tail);
            var i :| 0 <= i < |tail| && tail[i] == r[j];
            assert rows[i + 1] == r[j];
          }
        }
      }
    }
  }

  lemma {:induction false} SortSorted(debug: Debug, rows: seq<Row>)
    ensures Sorted(debug, Sort(debug, rows))
  {
    if rows != [] {
      SortSorted(debug, rows[1..]);
      InsertSorted(debug, rows[0], Sort(debug, rows[1..]));
    }
  }

  ghost predicate Injective(debug: Debug) {
    forall a, b :: debug(a) == debug(b) ==> a == b
  }

  lemma TailMultiset(a: seq<Row>)
    requires a != []
    ensures multiset(a[1..]) == multiset(a) - multiset{a[0]}
  {
    assert a == [a[0]] + a[1..];
  }

  lemma SameHead(debug: Debug, a: seq<Row>, b: seq<Row>)
    requires Injective(debug) && Sorted(debug, a) && Sorted(debug, b) && multiset(a) == multiset(b) && a != []
    ensures b != [] && a[0] == b[0]
  {
    assert a[0] in multiset(a);
    assert b != [] && b[0] in multiset(b);
    LeastFirst(debug, a, b[0]);
    LeastFirst(debug, b, a[0]);
    LeqAntisymmetric(debug(a[0]), debug(b[0]));
  }

  /** With distinct texts for distinct rows there is only one sorted arrangement. */
  lemma {:induction false} SortedUnique(debug: Debug, a: seq<Row>, b: seq<Row>)
    requires Injective(debug) && Sorted(debug, a) && Sorted(debug, b) && multiset(a) == multiset(b)
    ensures a == b
  {
    if a == [] {
      assert |multiset(b)| == |b|;
    } else {
      SameHead(debug, a, b);
      TailMultiset(a);
      TailMultiset(b);
      hide Injective;
      SortedUnique(debug, a[1..], b[1..]);
      assert a == [a[0]] + a[1..] && b == [b[0]] + b[1..];
    }
  }

  lemma LeastFirst(debug: Debug, a: seq<Row>, row: Row)
    requires a != [] && Sorted(debug, a) && row in multiset(a)
    ensures Leq(debug(a[0]), debug(row))
  {
    var i :| 0 <= i < |a| && a[i] == row;
    LeqTotal(debug(row), debug(row));
  }

  // ---------------------------------------------------------------- equality

  /** `PartialEq for TableSnapshot`. */
  predicate SameTable(debug: Debug, a: Table, b: Table) {
    a.columns == b.columns && |a.rows| == |b.rows| && Sort(debug, a.rows) == Sort(debug, b.rows)
  }

  /** Tables compare equal exactly when the columns match and the rows form the same multiset. */
  lemma SameTableExact(debug: Debug, a: Table, b: Table)
    ensures SameTable(debug, a, b) ==> a.columns == b.columns && multiset(a.rows) == multiset(b.rows)
    ensures Injective(debug) ==>
              (SameTable(debug, a, b) <==> a.columns == b.columns && multiset(a.rows) == multiset(b.rows))
  {
    if Injective(debug) && multiset(a.rows) == multiset(b.rows) {
      SortSorted(debug, a.rows);
      SortSorted(debug, b.rows);
      SortedUnique(debug, Sort(debug, a.rows), Sort(debug, b.rows));
      assert |multiset(a.rows)| == |a.rows|;
      assert |multiset(b.rows)| == |b.rows|;
    }
  }

  lemma SortedPair(debug: Debug, x: Row, y: Row)
    requires debug(x) == debug(y)
    ensures Sort(debug, [x, y]) == [x, y]
  {
    LeqTotal(debug(x), debug(y));
    assert [x, y][1..] == [y] && [y][1..] == [];
    assert Sort(debug, [y]) == InsertRow(debug, y, []) == [y];
    assert InsertRow(debug, x, [y]) == [x] + [y];
  }

  /** Comparing tables with this Debug text is comparing columns and multisets of rows. */
  ghost predicate ComparesMultisets(debug: Debug) {
    forall a, b :: SameTable(debug, a, b) <==> a.columns == b.columns && multiset(a.rows) == multiset(b.rows)
  }

  /**
   What the comparison asks of the Debug text: it ignores the order of rows in all tables if and only
   if different rows never print the same.  Two rows that do keep their order in a stable sort.
   */
  lemma DebugExact(debug: Debug)
    ensures ComparesMultisets(debug) <==> Injective(debug)
  {
    if Injective(debug) {
      forall a, b ensures SameTable(debug, a, b) <==> a.columns == b.columns && multiset(a.rows) == multiset(b.rows) {
        SameTableExact(debug, a, b);
      }
    } else {
      var x, y :| debug(x) == debug(y) && x != y;
      SortedPair(debug, x, y);
      SortedPair(debug, y, x);
      var a, b := Table([], [x, y]), Table([], [y, x]);
      assert [x, y][0] != [y, x][0];
      assert multiset(a.rows) == multiset(b.rows) && !SameTable(debug, a, b);
    }
  }

  /** `DatabaseSnapshot::is_equivalent`. */
  predicate Equivalent(debug: Debug, a: Snapshot, b: Snapshot) {
    a.Keys == b.Keys && forall t | t in a :: SameTable(debug, a[t], b[t])
  }

  /** The same tables, each with the same columns and the same rows, counted and in any order. */
  ghost predicate SameContent(a: Snapshot, b: Snapshot) {
    && (forall t :: t in a <==> t in b)
    && forall t | t in a && t in b :: a[t].columns == b[t].columns && multiset(a[t].rows) == multiset(b[t].rows)
  }

  /** Equivalent snapshots have the same content; with an injective Debug text exactly those are equivalent. */
  lemma EquivalentExact(debug: Debug, a: Snapshot, b: Snapshot)
    ensures Equivalent(debug, a, b) ==> SameContent(a, b)
    ensures Injective(debug) ==> (Equivalent(debug, a, b) <==> SameContent(a, b))
  {
    forall t | t in a && t in b
      ensures SameTable(debug, a[t], b[t]) ==>
                a[t].columns == b[t].columns && multiset(a[t].rows) == multiset(b[t].rows)
      ensures Injective(debug) && a[t].columns == b[t].columns && multiset(a[t].rows) == multiset(b[t].rows) ==>
                SameTable(debug, a[t], b[t])
    {
      SameTableExact(debug, a[t], b[t]);
    }
    hide SameTable, Injective;
    if Equivalent(debug, a, b) {
      forall t ensures t in a <==> t in b {
        assert t in a.Keys <==> t in b.Keys;
      }
    }
    if SameContent(a, b) {
      assert a.Keys == b.Keys;
    }
  }

  // ---------------------------------------------------------------- differences

  datatype Difference =
    | MissingInOther(table: string)
    | MissingInSelf(table: string)
    | ColumnsDiffer(table: string)
    | CountDiffers(table: string)
    | RowDiffers(table: string, index: nat)

  /** Which differences there are between two snapshots, rows taken in their given order. */
  predicate Differs(a: Snapshot, b: Snapshot, d: Difference) {
    match d
    case MissingInOther(t) => t in a && t !in b
    case MissingInSelf(t) => t in b && t !in a
    case ColumnsDiffer(t) => t in a && t in b && a[t].columns != b[t].columns
    case CountDiffers(t) => t in a && t in b && |a[t].rows| != |b[t].rows|
    case RowDiffers(t, i) =>
      t in a && t in b && i < |a[t].rows| && i < |b[t].rows| && a[t].rows[i] != b[t].rows[i]
  }

  /** The differences inside one table present on both sides. */
  method DiffTable(name: string, a: Table, b: Table) returns (diffs: seq<Difference>)
    ensures forall d :: d in diffs <==>
              !d.MissingInOther? && !d.MissingInSelf? && d.table == name
              && Differs(map[name := a], map[name := b], d)
  {
    diffs := [];
    if a.columns != b.columns {
      diffs := diffs + [ColumnsDiffer(name)];
    }
    if |a.rows| != |b.rows| {
      diffs := diffs + [CountDiffers(name)];
    }
    var n := if |a.rows| <= |b.rows| then |a.rows| else |b.rows|;
    for i := 0 to n
      invariant forall d :: d in diffs <==>
                  || (d == ColumnsDiffer(name) && a.columns != b.columns)
                  || (d == CountDiffers(name) && |a.rows| != |b.rows|)
                  || (d.RowDiffers? && d.table == name && d.index < i && a.rows[d.index] != b.rows[d.index])
    {
      if a.rows[i] != b.rows[i] {
        diffs := diffs + [RowDiffers(name, i)];
      }
    }
  }

  /** `diff`: every difference is reported and nothing else is, in whatever order tables come up. */
  method Diff(a: Snapshot, b: Snapshot) returns (diffs: seq<Difference>)
    ensures forall d :: d in diffs <==> Differs(a, b, d)
  {
    diffs := [];
    var names := a.Keys;
    while names != {}
      invariant names <= a.Keys
      invariant forall d :: d in diffs <==> d.MissingInOther? && Differs(a, b, d) && d.table !in names
      decreases names
    {
      var t :| t in names;
      if t !in b {
        diffs := diffs + [MissingInOther(t)];
      }
      names := names - {t};
    }
    names := b.Keys;
    while names != {}
      invariant names <= b.Keys
      invariant forall d :: d in diffs <==>
                  || (d.MissingInOther? && Differs(a, b, d))
                  || (d.MissingInSelf? && Differs(a, b, d) && d.table !in names)
      decreases names
    {
      var t :| t in names;
      if t !in a {
        diffs := diffs + [MissingInSelf(t)];
      }
      names := names - {t};
    }
    names := a.Keys;
    while names != {}
      invariant names <= a.Keys
      invariant forall d :: d in diffs <==>
                  Differs(a, b, d) && (d.MissingInOther? || d.MissingInSelf? || d.table !in names)
      decreases names
    {
      var t :| t in names;
      if t in b {
        var more := DiffTable(t, a[t], b[t]);
        diffs := diffs + more;
      }
      names := names - {t};
    }
  }

  /** Without differences the snapshots are the same, row for row, so they are equivalent. */
  lemma NoDifferenceIsIdentity(debug: Debug, a: Snapshot, b: Snapshot)
    ensures (forall d :: !Differs(a, b, d)) <==> a == b
    ensures (forall d :: !Differs(a, b, d)) ==> Equivalent(debug, a, b)
  {
    if forall d :: !Differs(a, b, d) {
      forall t ensures t in a <==> t in b {
        assert !Differs(a, b, MissingInOther(t)) && !Differs(a, b, MissingInSelf(t));
      }
      forall t | t in a ensures a[t] == b[t] {
        assert !Differs(a, b, ColumnsDiffer(t)) && !Differs(a, b, CountDiffers(t));
        forall i: nat | i < |a[t].rows| ensures a[t].rows[i] == b[t].rows[i] {
          assert !Differs(a, b, RowDiffers(t, i));
        }
        assert a[t].rows == b[t].rows;
      }
      assert a == b;
    }
  }

  /** Equivalent snapshots may still be reported as different: the comparison sorts, the report does not. */
  lemma EquivalentYetReported(debug: Debug)
    requires Injective(debug)
    ensures var a, b := map["t" := Table([], [[Null], []])], map["t" := Table([], [[], [Null]])];
            Equivalent(debug, a, b) && Differs(a, b, RowDiffers("t", 0))
  {
    var x: Row, y: Row := [Null], [];
    assert multiset([x, y]) == multiset{x, y} == multiset([y, x]);
    SameTableExact(debug, Table([], [x, y]), Table([], [y, x]));
    hide SameTable, Injective;
    assert [x, y][0] != [y, x][0];
  }
}
