// The merge loop of join_prof: a join key per pass, then an inner join of the passes on it.
module Joiner {
  import opened Wrappers
  import opened Strings
  import opened Tables

  datatype JoinError =
    | UnknownJoinType(joinType: string)   // "Unrecognized --join-type", then exit
    | MissingColumn(name: string)         // the pass has no such column
    | NotText(name: string)               // a name cell that is not text cannot take `+ " - "`
    | NoPasses                            // no pass at all: df stays None

  // ---------------------------------------------------------------- the join key

  /** groupby(group).cumcount(): for each row, how many earlier rows are in its group. */
  function CumCount<G(==)>(g: seq<G>): (r: seq<nat>)
    ensures |r| == |g|
  {
    seq(|g|, i requires 0 <= i < |g| => multiset(g[..i])[g[i]])
  }

  /** Two rows of the same group never get the same ordinal. */
  lemma CumCountDistinct<G>(g: seq<G>, i: nat, j: nat)
    requires i < j < |g| && g[i] == g[j]
    ensures CumCount(g)[i] < CumCount(g)[j]
  {
    assert g[..j] == g[..i] + [g[i]] + g[i + 1..j];
  }

  /** `text + " - " + str(n)`, the shape of every join key. */
  function Tagged(text: string, n: string): string {
    text + " - " + n
  }

  /** The text after the last " - " of a key has no space, so a key splits back uniquely into
      what came before and the tag. */
  lemma {:induction false} TaggedInjective(a: string, u: string, b: string, v: string)
    requires Tagged(a, u) == Tagged(b, v)
    requires ' ' !in u && ' ' !in v
    ensures a == b && u == v
  {
    var x := Tagged(a, u);
    if |u| < |v| {
      TagSpace(a, u);
      assert false;
    } else if |v| < |u| {
      TagSpace(b, v);
      assert false;
    } else {
      assert u == x[|x| - |u|..] == v;
      assert a == x[..|x| - |u| - 3] == b;
    }
  }

  lemma TagSpace(a: string, u: string)
    ensures Tagged(a, u)[|a| + 2] == ' '
  {
  }

  lemma DecimalNoSpace(n: nat)
    ensures ' ' !in Decimal(n)
  {
  }

  lemma IntTextNoSpace(g: int)
    ensures ' ' !in IntText(g)
  {
    DecimalNoSpace(if g < 0 then -g else g);
  }

  lemma IntTextInjective(a: int, b: int)
    requires IntText(a) == IntText(b)
    ensures a == b
  {
    var da := Decimal(if a < 0 then -a else a);
    var db := Decimal(if b < 0 then -b else b);
    assert IsDigit(da[0]) && IsDigit(db[0]);
    if a < 0 && b < 0 {
      assert da == IntText(a)[1..] == db;
      DecimalInjective(-a, -b);
    } else if a >= 0 && b >= 0 {
      DecimalInjective(a, b);
    }
  }

  /** `.astype(str)` of a cell. */
  function ValueText(v: Value): string {
    match v
    case Text(s) => s
    case Int(n) => IntText(n)
  }

  predicate AllText(cells: seq<Value>) {
    forall i :: 0 <= i < |cells| ==> cells[i].Text?
  }

  /** `Kernel_Name + " - " + cumcount` per row, grouping by name. */
  function KernelKeys(names: seq<Value>): (keys: seq<Value>)
    requires AllText(names)
    ensures |keys| == |names|
  {
    var n := CumCount(names);
    seq(|names|, i requires 0 <= i < |names| => Text(Tagged(names[i].s, Decimal(n[i]))))
  }

  /** `Kernel_Name + " - " + str(GRD) + " - " + cumcount` per row, grouping by (name, GRD). */
  function GridKeys(names: seq<Value>, grids: seq<Value>): (keys: seq<Value>)
    requires AllText(names) && |grids| == |names|
    ensures |keys| == |names|
  {
    var n := CumCount(seq(|names|, i requires 0 <= i < |names| => (names[i], grids[i])));
    seq(|names|, i requires 0 <= i < |names| => Text(Tagged(Tagged(names[i].s, ValueText(grids[i])), Decimal(n[i]))))
  }

  /** In kernel mode no two rows of a pass share a key: same name means another ordinal. */
  lemma KernelKeysUnique(names: seq<Value>)
    requires AllText(names)
    ensures NoDup(KernelKeys(names))
  {
    var keys := KernelKeys(names);
    var n := CumCount(names);
    forall i, j | 0 <= i < j < |keys| ensures keys[i] != keys[j] {
      DecimalNoSpace(n[i]);
      DecimalNoSpace(n[j]);
      if keys[i] == keys[j] {
        TaggedInjective(names[i].s, Decimal(n[i]), names[j].s, Decimal(n[j]));
        DecimalInjective(n[i], n[j]);
        CumCountDistinct(names, i, j);
      }
    }
  }

  /** In grid mode the keys of a pass are unique when its GRD cells are integers, as rocprof
      writes them: the grid text then holds no space and the key splits back uniquely. */
  lemma GridKeysUnique(names: seq<Value>, grids: seq<Value>)
    requires AllText(names) && |grids| == |names|
    requires forall i :: 0 <= i < |grids| ==> grids[i].Int?
    ensures NoDup(GridKeys(names, grids))
  {
    var keys := GridKeys(names, grids);
    var g := seq(|names|, i requires 0 <= i < |names| => (names[i], grids[i]));
    var n := CumCount(g);
    forall i, j | 0 <= i < j < |keys| ensures keys[i] != keys[j] {
      if keys[i] == keys[j] {
        DecimalNoSpace(n[i]);
        DecimalNoSpace(n[j]);
        TaggedInjective(Tagged(names[i].s, ValueText(grids[i])), Decimal(n[i]),
                        Tagged(names[j].s, ValueText(grids[j])), Decimal(n[j]));
        IntTextNoSpace(grids[i].n);
        IntTextNoSpace(grids[j].n);
        TaggedInjective(names[i].s, ValueText(grids[i]), names[j].s, ValueText(grids[j]));
        IntTextInjective(grids[i].n, grids[j].n);
        DecimalInjective(n[i], n[j]);
        assert g[i] == g[j];
        CumCountDistinct(g, i, j);
      }
    }
  }

  /** The named column of a pass, or the error pandas raises when it is missing. */
  function Column(t: Table<Value>, name: string): (r: Result<seq<Value>, JoinError>)
    requires Rect(t)
    ensures r.Failure? <==> name !in t.cols
    ensures r.Success? ==> |r.value| == |t.rows|
  {
    match IndexOf(t.cols, name)
    case None => Failure(MissingColumn(name))
    case Some(j) => Success(ColumnAt(t, j))
  }

  /** The key column of one pass (`_df["key"] = ...`), or why the pass cannot be keyed. The
      join type is looked at first. */
  function PassKeys(t: Table<Value>, joinType: string): (r: Result<seq<Value>, JoinError>)
    requires Rect(t)
    ensures r.Success? ==> |r.value| == |t.rows|
  {
    if joinType != "kernel" && joinType != "grid" then Failure(UnknownJoinType(joinType))
    else
      match Column(t, "Kernel_Name")
      case Failure(e) => Failure(e)
      case Success(names) =>
        if joinType == "kernel" then
          if AllText(names) then Success(KernelKeys(names)) else Failure(NotText("Kernel_Name"))
        else
          match Column(t, "GRD")
          case Failure(e) => Failure(e)
          case Success(grids) =>
            if AllText(names) then Success(GridKeys(names, grids)) else Failure(NotText("Kernel_Name"))
  }

  /** The keys of a pass are unique in kernel mode, and in grid mode when GRD holds integers. */
  lemma PassKeysUnique(t: Table<Value>, joinType: string)
    requires Rect(t) && PassKeys(t, joinType).Success?
    requires joinType == "grid" ==> forall i :: 0 <= i < |t.rows| ==> t.rows[i][IndexOf(t.cols, "GRD").value].Int?
    ensures NoDup(PassKeys(t, joinType).value)
  {
    var names := Column(t, "Kernel_Name").value;
    if joinType == "kernel" {
      KernelKeysUnique(names);
    } else {
      GridKeysUnique(names, Column(t, "GRD").value);
    }
  }

  /** The key column of a table that has one. */
  function KeyCol(t: Table<Value>): (keys: seq<Value>)
    requires Rect(t) && "key" in t.cols
    ensures |keys| == |t.rows|
  {
    ColumnAt(t, IndexOf(t.cols, "key").value)
  }

  /** The pass with its key column set. */
  function AddKey(t: Table<Value>, joinType: string): (r: Result<Table<Value>, JoinError>)
    requires Rect(t)
    ensures r.Success? <==> PassKeys(t, joinType).Success?
    ensures r.Success? ==> Rect(r.value) && "key" in r.value.cols && KeyCol(r.value) == PassKeys(t, joinType).value
  {
    match PassKeys(t, joinType)
    case Failure(e) => Failure(e)
    case Success(keys) =>
      var r := SetColumn(t, "key", keys);
      assert KeyCol(r) == keys;
      Success(r)
  }

  // ---------------------------------------------------------------- the inner join

  function Without<T>(s: seq<T>, k: nat): (r: seq<T>)
    requires k < |s|
    ensures |r| == |s| - 1
  {
    s[..k] + s[k + 1..]
  }

  /** The suffix rule of pd.merge(..., suffixes=("", f"_{i}")): a right column whose name the
      left table also has gets `_i`; the left names stay as they are. */
  function Rename(c: string, left: seq<string>, i: nat): string {
    if c in left then c + "_" + Decimal(i) else c
  }

  function MergeCols(left: seq<string>, right: seq<string>, kr: nat, i: nat): seq<string>
    requires kr < |right|
  {
    var rest := Without(right, kr);
    left + seq(|rest|, m requires 0 <= m < |rest| => Rename(rest[m], left, i))
  }

  function RowKeys(rows: seq<seq<Value>>, k: nat): (keys: seq<Value>)
    requires forall i :: 0 <= i < |rows| ==> k < |rows[i]|
    ensures |keys| == |rows|
  {
    seq(|rows|, i requires 0 <= i < |rows| => rows[i][k])
  }

  /** The joined rows of left row lr: one per right row with the same key, in right order,
      each the left row followed by the right row without its key. */
  function Matches(lr: seq<Value>, kl: nat, rrows: seq<seq<Value>>, kr: nat, rw: nat): (out: seq<seq<Value>>)
    requires kl < |lr| && kr < rw
    requires forall i :: 0 <= i < |rrows| ==> |rrows[i]| == rw
    ensures forall i :: 0 <= i < |out| ==> |out[i]| == |lr| + rw - 1 && out[i][kl] == lr[kl]
  {
    if rrows == [] then []
    else
      var rr := rrows[|rrows| - 1];
      Matches(lr, kl, rrows[..|rrows| - 1], kr, rw) + (if rr[kr] == lr[kl] then [lr + Without(rr, kr)] else [])
  }

  /** The rows of the inner join: the matches of each left row, in left order. */
  function MergeRows(lrows: seq<seq<Value>>, lw: nat, kl: nat, rrows: seq<seq<Value>>, kr: nat, rw: nat): (out: seq<seq<Value>>)
    requires kl < lw && kr < rw
    requires forall i :: 0 <= i < |lrows| ==> |lrows[i]| == lw
    requires forall i :: 0 <= i < |rrows| ==> |rrows[i]| == rw
    ensures forall i :: 0 <= i < |out| ==> |out[i]| == lw + rw - 1
  {
    if lrows == [] then []
    else
      MergeRows(lrows[..|lrows| - 1], lw, kl, rrows, kr, rw) + Matches(lrows[|lrows| - 1], kl, rrows, kr, rw)
  }

  /** The inner join of two tables on their key column; right names that clash get the suffix `_i`. */
  function Merge(left: Table<Value>, right: Table<Value>, i: nat): (m: Table<Value>)
    requires Rect(left) && Rect(right) && "key" in left.cols && "key" in right.cols
    ensures Rect(m) && "key" in m.cols
  {
    var kl := IndexOf(left.cols, "key").value;
    var kr := IndexOf(right.cols, "key").value;
    var m := Table(MergeCols(left.cols, right.cols, kr, i),
                   MergeRows(left.rows, |left.cols|, kl, right.rows, kr, |right.cols|));
    assert m.cols[kl] == "key";
    m
  }

  /** A key occurs in a left row's matches as often as the right table holds it. */
  lemma {:induction false} MatchesCount(lr: seq<Value>, kl: nat, rrows: seq<seq<Value>>, kr: nat, rw: nat, v: Value)
    requires kl < |lr| && kr < rw
    requires forall i :: 0 <= i < |rrows| ==> |rrows[i]| == rw
    ensures multiset(RowKeys(Matches(lr, kl, rrows, kr, rw), kl))[v] ==
      if lr[kl] == v then multiset(RowKeys(rrows, kr))[v] else 0
  {
    if rrows != [] {
      var init := rrows[..|rrows| - 1];
      var rr := rrows[|rrows| - 1];
      var pre := Matches(lr, kl, init, kr, rw);
      var tail := if rr[kr] == lr[kl] then [lr + Without(rr, kr)] else [];
      MatchesCount(lr, kl, init, kr, rw, v);
      RowKeysAppend(pre, tail, kl);
      assert rrows == init + [rr];
      RowKeysAppend(init, [rr], kr);
      MatchTail(lr, kl, rr, kr, v);
    }
  }

  lemma MatchTail(lr: seq<Value>, kl: nat, rr: seq<Value>, kr: nat, v: Value)
    requires kl < |lr| && kr < |rr|
    ensures var tail := if rr[kr] == lr[kl] then [lr + Without(rr, kr)] else [];
      multiset(RowKeys(tail, kl))[v] == if lr[kl] == v then multiset(RowKeys([rr], kr))[v] else 0
  {
    assert RowKeys([rr], kr) == [rr[kr]];
  }

  /** Inner-join multiplicity: a key occurs in the joined rows as often as it occurs on the
      left times as often as it occurs on the right. */
  lemma {:induction false} MergeRowsCount(lrows: seq<seq<Value>>, lw: nat, kl: nat, rrows: seq<seq<Value>>, kr: nat, rw: nat, v: Value)
    requires kl < lw && kr < rw
    requires forall i :: 0 <= i < |lrows| ==> |lrows[i]| == lw
    requires forall i :: 0 <= i < |rrows| ==> |rrows[i]| == rw
    ensures multiset(RowKeys(MergeRows(lrows, lw, kl, rrows, kr, rw), kl))[v] ==
      multiset(RowKeys(lrows, kl))[v] * multiset(RowKeys(rrows, kr))[v]
  {
    if lrows != [] {
      var init := lrows[..|lrows| - 1];
      var lr := lrows[|lrows| - 1];
      var pre := MergeRows(init, lw, kl, rrows, kr, rw);
      var ms := Matches(lr, kl, rrows, kr, rw);
      MergeRowsCount(init, lw, kl, rrows, kr, rw, v);
      MatchesCount(lr, kl, rrows, kr, rw, v);
      RowKeysAppend(pre, ms, kl);
      assert lrows == init + [lr];
      RowKeysAppend(init, [lr], kl);
      var e := if lr[kl] == v then 1 else 0;
      assert multiset(RowKeys(lrows, kl))[v] == multiset(RowKeys(init, kl))[v] + e;
      Distribute(multiset(RowKeys(init, kl))[v], e, multiset(RowKeys(rrows, kr))[v]);
    }
  }

  lemma RowKeysAppend(a: seq<seq<Value>>, b: seq<seq<Value>>, k: nat)
    requires forall i :: 0 <= i < |a| ==> k < |a[i]|
    requires forall i :: 0 <= i < |b| ==> k < |b[i]|
    ensures RowKeys(a + b, k) == RowKeys(a, k) + RowKeys(b, k)
  {
  }

  lemma Distribute(x: nat, e: nat, y: nat)
    ensures (x + e) * y == x * y + e * y
  {
  }

  /** The key column of a merge counts each key left count times right count. */
  lemma MergeCount(left: Table<Value>, right: Table<Value>, i: nat, v: Value)
    requires Rect(left) && Rect(right) && "key" in left.cols && "key" in right.cols
    ensures multiset(KeyCol(Merge(left, right, i)))[v] == multiset(KeyCol(left))[v] * multiset(KeyCol(right))[v]
  {
    var kl := IndexOf(left.cols, "key").value;
    var kr := IndexOf(right.cols, "key").value;
    var m := Merge(left, right, i);
    IndexOfPrefix(left.cols, m.cols[|left.cols|..], "key");
    assert m.cols == left.cols + m.cols[|left.cols|..];
    assert KeyCol(m) == RowKeys(m.rows, kl);
    assert KeyCol(left) == RowKeys(left.rows, kl);
    assert KeyCol(right) == RowKeys(right.rows, kr);
    MergeRowsCount(left.rows, |left.cols|, kl, right.rows, kr, |right.cols|, v);
  }

  // ---------------------------------------------------------------- the fold over the passes

  ghost predicate AllRect(passes: seq<Table<Value>>) {
    forall p :: 0 <= p < |passes| ==> Rect(passes[p])
  }

  /** What the merge loop of join_prof leaves in df: the first pass keyed, then each later pass
      i keyed and inner-joined onto it with suffix `_i`; the first pass that cannot be keyed
      stops the run, and no pass at all leaves nothing to join. */
  function JoinAll(passes: seq<Table<Value>>, joinType: string): (r: Result<Table<Value>, JoinError>)
    requires AllRect(passes)
    ensures r.Success? ==> Rect(r.value) && "key" in r.value.cols
    decreases |passes|
  {
    if |passes| == 0 then Failure(NoPasses)
    else if |passes| == 1 then AddKey(passes[0], joinType)
    else
      var n := |passes| - 1;
      match JoinAll(passes[..n], joinType)
      case Failure(e) => Failure(e)
      case Success(df) =>
        match AddKey(passes[n], joinType)
        case Failure(e) => Failure(e)
        case Success(t) => Success(Merge(df, t, n))
  }

  /** A key occurs in the joined table once for every way of picking a row with that key from
      each pass: a key that some pass lacks is gone. */
  lemma {:induction false} JoinAllCount(passes: seq<Table<Value>>, joinType: string, v: Value) returns (counts: seq<nat>)
    requires AllRect(passes) && JoinAll(passes, joinType).Success?
    ensures |counts| == |passes|
    ensures forall p :: 0 <= p < |passes| ==>
      PassKeys(passes[p], joinType).Success? && counts[p] == multiset(PassKeys(passes[p], joinType).value)[v]
    ensures multiset(KeyCol(JoinAll(passes, joinType).value))[v] == Product(counts)
    decreases |passes|
  {
    if |passes| == 1 {
      counts := [multiset(PassKeys(passes[0], joinType).value)[v]];
    } else {
      var n := |passes| - 1;
      JoinAllStep(passes, joinType);
      var pre := JoinAllCount(passes[..n], joinType, v);
      var t := AddKey(passes[n], joinType).value;
      MergeCount(JoinAll(passes[..n], joinType).value, t, n, v);
      counts := pre + [multiset(KeyCol(t))[v]];
      ProductSnoc(pre, multiset(KeyCol(t))[v]);
    }
  }

  /** A join of two or more passes is the join of all but the last, merged with the last. */
  lemma JoinAllStep(passes: seq<Table<Value>>, joinType: string)
    requires AllRect(passes) && |passes| >= 2 && JoinAll(passes, joinType).Success?
    ensures AllRect(passes[..|passes| - 1]) && JoinAll(passes[..|passes| - 1], joinType).Success?
    ensures AddKey(passes[|passes| - 1], joinType).Success?
    ensures JoinAll(passes, joinType).value ==
      Merge(JoinAll(passes[..|passes| - 1], joinType).value, AddKey(passes[|passes| - 1], joinType).value, |passes| - 1)
    ensures forall p :: 0 <= p < |passes| - 1 ==> passes[..|passes| - 1][p] == passes[p]
  {
  }

  function Product(s: seq<nat>): nat {
    if s == [] then 1 else Product(s[..|s| - 1]) * s[|s| - 1]
  }

  lemma ProductSnoc(s: seq<nat>, x: nat)
    ensures Product(s + [x]) == Product(s) * x
  {
    assert (s + [x])[..|s|] == s;
  }

  lemma {:induction false} ProductZero(s: seq<nat>)
    ensures Product(s) == 0 <==> exists p :: 0 <= p < |s| && s[p] == 0
  {
    if s != [] {
      ProductZero(s[..|s| - 1]);
      var init := s[..|s| - 1];
      if Product(init) == 0 {
        var p :| 0 <= p < |init| && init[p] == 0;
        assert s[p] == 0;
      }
      if exists p :: 0 <= p < |s| && s[p] == 0 {
        var p :| 0 <= p < |s| && s[p] == 0;
        if p < |init| {
          assert init[p] == 0;
        }
      }
    }
  }

  lemma {:induction false} ProductAtMostOne(s: seq<nat>)
    requires forall p :: 0 <= p < |s| ==> s[p] <= 1
    ensures Product(s) <= 1
  {
    if s != [] {
      ProductAtMostOne(s[..|s| - 1]);
    }
  }

  /** A row survives the joins exactly when its key is present in every pass. */
  lemma JoinKeys(passes: seq<Table<Value>>, joinType: string, v: Value)
    requires AllRect(passes) && JoinAll(passes, joinType).Success?
    ensures forall p :: 0 <= p < |passes| ==> PassKeys(passes[p], joinType).Success?
    ensures v in KeyCol(JoinAll(passes, joinType).value) <==>
      forall p :: 0 <= p < |passes| ==> v in PassKeys(passes[p], joinType).value
  {
    var counts := JoinAllCount(passes, joinType, v);
    ProductZero(counts);
  }

  /** With unique keys in every pass, the joined table has unique keys too. */
  lemma JoinKeysUnique(passes: seq<Table<Value>>, joinType: string)
    requires AllRect(passes) && JoinAll(passes, joinType).Success?
    requires forall p :: 0 <= p < |passes| ==>
      PassKeys(passes[p], joinType).Success? ==> NoDup(PassKeys(passes[p], joinType).value)
    ensures NoDup(KeyCol(JoinAll(passes, joinType).value))
  {
    var keys := KeyCol(JoinAll(passes, joinType).value);
    forall v ensures multiset(keys)[v] <= 1 {
      var counts := JoinAllCount(passes, joinType, v);
      forall p | 0 <= p < |passes| ensures counts[p] <= 1 {
        NoDupCounts(PassKeys(passes[p], joinType).value);
      }
      ProductAtMostOne(counts);
    }
    NoDupCounts(keys);
  }

  /** The merge loop of join_prof over the passes, in order. */
  method JoinPasses(passes: seq<Table<Value>>, joinType: string) returns (r: Result<Table<Value>, JoinError>)
    requires AllRect(passes)
    ensures r == JoinAll(passes, joinType)
  {
    var df: Option<Table<Value>> := None;
    for i := 0 to |passes|
      invariant i == 0 ==> df.None?
      invariant i > 0 ==> df.Some? && JoinAll(passes[..i], joinType) == Success(df.value)
    {
      assert passes[..i + 1][..i] == passes[..i];
      var keyed := AddKey(passes[i], joinType);
      if keyed.Failure? {
        JoinAllFailureStays(passes, joinType, i + 1);
        return Failure(keyed.error);
      }
      if df.None? {
        df := Some(keyed.value);
      } else {
        df := Some(Merge(df.value, keyed.value, i));
      }
    }
    if df.None? {
      return Failure(NoPasses);
    }
    assert passes[..|passes|] == passes;
    r := Success(df.value);
  }

  /** Once the passes up to n fail to join, the whole run fails with the same error. */
  lemma {:induction false} JoinAllFailureStays(passes: seq<Table<Value>>, joinType: string, n: nat)
    requires AllRect(passes) && 0 < n <= |passes| && JoinAll(passes[..n], joinType).Failure?
    ensures JoinAll(passes, joinType) == JoinAll(passes[..n], joinType)
    decreases |passes|
  {
    if n < |passes| {
      var init := passes[..|passes| - 1];
      assert init[..n] == passes[..n];
      JoinAllFailureStays(init, joinType, n);
    } else {
      assert passes[..n] == passes;
    }
  }
}
