// Tables as join_prof handles them: named columns over rows of cells, selected by column name.
module Tables {
  import opened Wrappers
  import opened Strings

  /** A cell as read from a pass's CSV file: text or an integer. */
  datatype Value = Text(s: string) | Int(n: int)

  /** A cell of the joined table: a value carried over, or the row mean of several timestamp
      columns (kept symbolic: the floating-point average is not modelled). */
  datatype Cell = Raw(v: Value) | Mean(parts: seq<Value>)

  /** A data frame: column names, and rows holding one cell per column. */
  datatype Table<T> = Table(cols: seq<string>, rows: seq<seq<T>>)

  ghost predicate Rect<T>(t: Table<T>) {
    forall i :: 0 <= i < |t.rows| ==> |t.rows[i]| == |t.cols|
  }

  /** Position of the first column named name. */
  function IndexOf(cols: seq<string>, name: string): (r: Option<nat>)
    ensures r.None? <==> name !in cols
    ensures r.Some? ==> r.value < |cols| && cols[r.value] == name && name !in cols[..r.value]
  {
    if cols == [] then None
    else if cols[0] == name then Some(0)
    else
      match IndexOf(cols[1..], name)
      case None => None
      case Some(j) =>
        assert cols[..j + 1] == [cols[0]] + cols[1..][..j];
        Some(j + 1)
  }

  /** The first column of a name is found before anything appended on the right. */
  lemma {:induction false} IndexOfPrefix(a: seq<string>, b: seq<string>, name: string)
    requires name in a
    ensures IndexOf(a + b, name) == IndexOf(a, name)
  {
    if a[0] != name {
      assert (a + b)[1..] == a[1..] + b;
      IndexOfPrefix(a[1..], b, name);
    }
  }

  /** The cells of column j, top to bottom. */
  function ColumnAt<T>(t: Table<T>, j: nat): (c: seq<T>)
    requires Rect(t) && j < |t.cols|
    ensures |c| == |t.rows| && forall i :: 0 <= i < |t.rows| ==> c[i] == t.rows[i][j]
  {
    seq(|t.rows|, i requires 0 <= i < |t.rows| => t.rows[i][j])
  }

  /** `df[name] = cells`: overwrite the first column of that name, or add it at the right. */
  function SetColumn<T>(t: Table<T>, name: string, cells: seq<T>): (r: Table<T>)
    requires Rect(t) && |cells| == |t.rows|
    ensures Rect(r) && |r.rows| == |t.rows|
    ensures name in r.cols
    ensures forall i :: 0 <= i < |r.rows| ==> r.rows[i][IndexOf(r.cols, name).value] == cells[i]
    ensures name in t.cols ==> r.cols == t.cols
    ensures name !in t.cols ==> r.cols == t.cols + [name]
  {
    match IndexOf(t.cols, name)
    case Some(j) => Table(t.cols, seq(|t.rows|, i requires 0 <= i < |t.rows| => t.rows[i][j := cells[i]]))
    case None =>
      assert IndexOf(t.cols + [name], name) == Some(|t.cols|) by {
        assert (t.cols + [name])[..|t.cols|] == t.cols;
      }
      Table(t.cols + [name], seq(|t.rows|, i requires 0 <= i < |t.rows| => t.rows[i] + [cells[i]]))
  }

  /** Setting a column adds at most its own name. */
  lemma SetColumnCols<T>(t: Table<T>, name: string, cells: seq<T>)
    requires Rect(t) && |cells| == |t.rows|
    ensures forall c :: c in SetColumn(t, name, cells).cols <==> c in t.cols || c == name
  { }

  /** Setting a column leaves every other column where it was, with its cells. */
  lemma SetColumnOther<T>(t: Table<T>, name: string, cells: seq<T>, other: string)
    requires Rect(t) && |cells| == |t.rows| && other in t.cols && other != name
    ensures IndexOf(SetColumn(t, name, cells).cols, other) == IndexOf(t.cols, other)
    ensures forall i :: 0 <= i < |t.rows| ==>
      SetColumn(t, name, cells).rows[i][IndexOf(t.cols, other).value] == t.rows[i][IndexOf(t.cols, other).value]
  {
    if name !in t.cols {
      IndexOfPrefix(t.cols, [name], other);
    }
  }

  /** The positions, in order, of the columns whose name satisfies keep. */
  function Positions(cols: seq<string>, keep: string -> bool): (ps: seq<nat>)
    ensures forall k :: 0 <= k < |ps| ==> ps[k] < |cols| && keep(cols[ps[k]])
    ensures forall k, m :: 0 <= k < m < |ps| ==> ps[k] < ps[m]
    ensures forall j :: 0 <= j < |cols| && keep(cols[j]) ==> j in ps
  {
    if cols == [] then []
    else
      var init := Positions(cols[..|cols| - 1], keep);
      if keep(cols[|cols| - 1]) then init + [|cols| - 1] else init
  }

  /** Column selection by a name predicate: the columns whose name satisfies keep, in their
      order, with their cells. */
  function SelectColumns<T>(t: Table<T>, keep: string -> bool): (r: Table<T>)
    requires Rect(t)
    ensures Rect(r) && |r.rows| == |t.rows|
  {
    var ps := Positions(t.cols, keep);
    Table(seq(|ps|, k requires 0 <= k < |ps| => t.cols[ps[k]]),
          seq(|t.rows|, i requires 0 <= i < |t.rows| => seq(|ps|, k requires 0 <= k < |ps| => t.rows[i][ps[k]])))
  }

  /** A column survives a selection exactly when its name satisfies keep; the survivors are
      the columns at increasing positions ps of the original, each with its own cells. */
  lemma SelectColumnsRules<T>(t: Table<T>, keep: string -> bool) returns (ps: seq<nat>)
    requires Rect(t)
    ensures forall c :: c in SelectColumns(t, keep).cols <==> c in t.cols && keep(c)
    ensures |ps| == |SelectColumns(t, keep).cols|
    ensures forall k, m :: 0 <= k < m < |ps| ==> ps[k] < ps[m]
    ensures forall k :: 0 <= k < |ps| ==> ps[k] < |t.cols| && SelectColumns(t, keep).cols[k] == t.cols[ps[k]]
    ensures forall i, k :: 0 <= i < |t.rows| && 0 <= k < |ps| ==> SelectColumns(t, keep).rows[i][k] == t.rows[i][ps[k]]
  {
    ps := Positions(t.cols, keep);
    var r := SelectColumns(t, keep);
    forall c | c in t.cols && keep(c) ensures c in r.cols {
      var j :| 0 <= j < |t.cols| && t.cols[j] == c;
      var k :| 0 <= k < |ps| && ps[k] == j;
      assert r.cols[k] == c;
    }
  }

  /** The first listed name that is not a column. */
  function Missing(cols: seq<string>, names: seq<string>): (r: Option<string>)
    ensures r.None? <==> forall n :: n in names ==> n in cols
    ensures r.Some? ==> r.value in names && r.value !in cols
  {
    if names == [] then None
    else if names[0] !in cols then Some(names[0])
    else
      var r := Missing(cols, names[1..]);
      assert forall n :: n in names ==> n == names[0] || n in names[1..];
      r
  }

  /** `df.drop(columns=names)`: remove every column whose name is listed; a listed name that is
      not a column is a KeyError. */
  function DropColumns<T>(t: Table<T>, names: seq<string>): (r: Result<Table<T>, string>)
    requires Rect(t)
    ensures r.Failure? <==> exists n :: n in names && n !in t.cols
    ensures r.Success? ==> Rect(r.value) && |r.value.rows| == |t.rows|
  {
    match Missing(t.cols, names)
    case Some(n) => Failure(n)
    case None => Success(SelectColumns(t, c => c !in names))
  }

  /** The columns left after a drop are the others. */
  lemma DropColumnsRules<T>(t: Table<T>, names: seq<string>)
    requires Rect(t) && DropColumns(t, names).Success?
    ensures forall c :: c in DropColumns(t, names).value.cols <==> c in t.cols && c !in names
  {
    var _ := SelectColumnsRules(t, c => c !in names);
  }
}
