// What join_prof does to the joined table: agreement checks on the duplicated dispatch
// columns, dropping the merged copies, the Kernel_Name check, the timestamp means, and
// dropping the join key.
module PostJoin {
  import opened Wrappers
  import opened Strings
  import opened Tables
  import opened Joiner

  datatype PostError =
    | EmptyGroup(tag: string)     // no column carries the tag: iloc[:, 0] raises IndexError
    | NoKernelName                // `assert len(namekeys)` fails
    | KernelNameMismatch          // a Kernel_Name copy differs from the first one
    | DropMissing(name: string)   // drop(columns=...) of a name that is not a column

  datatype ProfError = JoinFailed(join: JoinError) | PostFailed(post: PostError)

  /** What the check of one duplicated group writes to the log file. */
  datatype LogLine = Agreed(tag: string) | Differed(tag: string)
  {
    function Text(): string {
      match this
      case Agreed(tag) => "Successfully joined " + tag + " in pmc_perf.csv"
      case Differed(tag) => "WARNING: Detected differing " + tag + " values while joining pmc_perf.csv"
    }
  }

  /** The outcome of join_prof on in-memory passes: the log lines and the final table. */
  datatype Joined = Joined(log: seq<LogLine>, table: Table<Cell>)

  // ---------------------------------------------------------------- test_df_column_equality

  function RowAgrees<T(==)>(row: seq<T>, ps: seq<nat>, first: nat): bool
    requires first < |row| && forall k :: 0 <= k < |ps| ==> ps[k] < |row|
  {
    if ps == [] then true
    else RowAgrees(row, ps[..|ps| - 1], first) && row[ps[|ps| - 1]] == row[first]
  }

  function RowsAgree<T(==)>(rows: seq<seq<T>>, ps: seq<nat>, first: nat): bool
    requires forall i :: 0 <= i < |rows| ==> first < |rows[i]| && forall k :: 0 <= k < |ps| ==> ps[k] < |rows[i]|
  {
    if rows == [] then true
    else RowsAgree(rows[..|rows| - 1], ps, first) && RowAgrees(rows[|rows| - 1], ps, first)
  }

  lemma {:induction false} RowAgreesIff<T>(row: seq<T>, ps: seq<nat>, first: nat)
    requires first < |row| && forall k :: 0 <= k < |ps| ==> ps[k] < |row|
    ensures RowAgrees(row, ps, first) <==> forall k :: 0 <= k < |ps| ==> row[ps[k]] == row[first]
  {
    if ps != [] {
      RowAgreesIff(row, ps[..|ps| - 1], first);
    }
  }

  lemma {:induction false} RowsAgreeIff<T>(rows: seq<seq<T>>, ps: seq<nat>, first: nat)
    requires forall i :: 0 <= i < |rows| ==> first < |rows[i]| && forall k :: 0 <= k < |ps| ==> ps[k] < |rows[i]|
    ensures RowsAgree(rows, ps, first) <==>
      forall i, k :: 0 <= i < |rows| && 0 <= k < |ps| ==> rows[i][ps[k]] == rows[i][first]
  {
    if rows != [] {
      var n := |rows| - 1;
      RowsAgreeIff(rows[..n], ps, first);
      RowAgreesIff(rows[n], ps, first);
      if !RowsAgree(rows[..n], ps, first) {
        var i, k :| 0 <= i < n && 0 <= k < |ps| && rows[..n][i][ps[k]] != rows[..n][i][first];
        assert rows[i][ps[k]] != rows[i][first];
      }
    }
  }

  /** The column equality test on the columns at ps: every column of the group equals the
      first one in every row; with no column at all there is no first column (IndexError). */
  function ColumnEquality(t: Table<Value>, ps: seq<nat>): Result<bool, PostError>
    requires Rect(t) && forall k :: 0 <= k < |ps| ==> ps[k] < |t.cols|
  {
    if ps == [] then Failure(EmptyGroup(""))
    else Success(RowsAgree(t.rows, ps, ps[0]))
  }

  lemma ColumnEqualityIff(t: Table<Value>, ps: seq<nat>)
    requires Rect(t) && forall k :: 0 <= k < |ps| ==> ps[k] < |t.cols|
    ensures ColumnEquality(t, ps).Failure? <==> ps == []
    ensures ColumnEquality(t, ps).Success? ==>
      (ColumnEquality(t, ps).value <==>
        forall i, k :: 0 <= i < |t.rows| && 0 <= k < |ps| ==> t.rows[i][ps[k]] == t.rows[i][ps[0]])
  {
    if ps != [] {
      RowsAgreeIff(t.rows, ps, ps[0]);
    }
  }

  // ---------------------------------------------------------------- the duplicate groups

  /** The groups compared after the joins: vgpr for ROCm before 5.3, Arch_VGPR and ACCUM_VGPR
      after it. */
  function GroupTags(cols: seq<string>): (tags: seq<string>)
    ensures |tags| == if "vgpr" in cols then 7 else 8
    ensures "vgpr" in tags <==> "vgpr" in cols
    ensures "Arch_VGPR" in tags && "ACCUM_VGPR" in tags <==> "vgpr" !in cols
  {
    ["GPU_ID", "GRD", "WGR", "LDS", "SCR", "SGPR"] +
      (if "vgpr" in cols then ["vgpr"] else ["Arch_VGPR", "ACCUM_VGPR"])
  }

  /** The positions of the columns whose name contains tag. */
  function Group(t: Table<Value>, tag: string): seq<nat> {
    Positions(t.cols, c => Contains(c, tag))
  }

  function GroupMessage(tag: string, same: bool): LogLine {
    if same then Agreed(tag) else Differed(tag)
  }

  /** Every copy of the tagged columns agrees with the first copy in every row. */
  function Agrees(t: Table<Value>, tag: string): bool
    requires Rect(t)
  {
    var ps := Group(t, tag);
    ps == [] || RowsAgree(t.rows, ps, ps[0])
  }

  lemma AgreesIff(t: Table<Value>, tag: string)
    requires Rect(t) && Group(t, tag) != []
    ensures Agrees(t, tag) <==> var ps := Group(t, tag);
      forall i, k :: 0 <= i < |t.rows| && 0 <= k < |ps| ==> t.rows[i][ps[k]] == t.rows[i][ps[0]]
  {
    var ps := Group(t, tag);
    RowsAgreeIff(t.rows, ps, ps[0]);
  }

  /** The check of one group. */
  function GroupLine(t: Table<Value>, tag: string): Result<LogLine, PostError>
    requires Rect(t)
  {
    match ColumnEquality(t, Group(t, tag))
    case Failure(_) => Failure(EmptyGroup(tag))
    case Success(same) => Success(GroupMessage(tag, same))
  }

  /** The check of one group fails only when no column carries the tag, and otherwise logs the
      success line exactly when the group agrees (AgreesIff), the warning otherwise. */
  lemma GroupLineMeaning(t: Table<Value>)
    requires Rect(t)
    ensures forall tag :: GroupLine(t, tag).Failure? <==> Group(t, tag) == []
    ensures forall tag :: GroupLine(t, tag).Success? ==> GroupLine(t, tag).value == GroupMessage(tag, Agrees(t, tag))
  { }

  /** A check of one tag. */
  type LineCheck = string --> Result<LogLine, PostError>

  /** The log lines of the checks, tag by tag; the first failing check stops the run. */
  function CheckAll(check: LineCheck, tags: seq<string>): Result<seq<LogLine>, PostError>
    requires forall tag :: check.requires(tag)
  {
    if tags == [] then Success([])
    else
      match CheckAll(check, tags[..|tags| - 1])
      case Failure(e) => Failure(e)
      case Success(log) =>
        match check(tags[|tags| - 1])
        case Failure(e) => Failure(e)
        case Success(line) => Success(log + [line])
  }

  lemma {:induction false} CheckAllByLine(check: LineCheck, tags: seq<string>)
    requires forall tag :: check.requires(tag)
    ensures CheckAll(check, tags).Success? <==> forall k :: 0 <= k < |tags| ==> check(tags[k]).Success?
    ensures CheckAll(check, tags).Success? ==> (|CheckAll(check, tags).value| == |tags| &&
      forall k :: 0 <= k < |tags| ==> CheckAll(check, tags).value[k] == check(tags[k]).value)
  {
    if tags != [] {
      var n := |tags| - 1;
      CheckAllByLine(check, tags[..n]);
      forall k | 0 <= k < n ensures tags[..n][k] == tags[k] { }
    }
  }

  lemma {:induction false} CheckAllFailureStays(check: LineCheck, tags: seq<string>, n: nat)
    requires forall tag :: check.requires(tag)
    requires n <= |tags| && CheckAll(check, tags[..n]).Failure?
    ensures CheckAll(check, tags) == CheckAll(check, tags[..n])
    decreases |tags|
  {
    if n < |tags| {
      var init := tags[..|tags| - 1];
      assert init[..n] == tags[..n];
      CheckAllFailureStays(check, init, n);
    } else {
      assert tags[..n] == tags;
    }
  }

  function GroupCheck(t: Table<Value>): (check: LineCheck)
    requires Rect(t)
    ensures forall tag :: check.requires(tag) && check(tag) == GroupLine(t, tag)
  {
    tag requires Rect(t) => GroupLine(t, tag)
  }

  /** The checks of join_prof over the duplicate groups. */
  function GroupLog(t: Table<Value>, tags: seq<string>): Result<seq<LogLine>, PostError>
    requires Rect(t)
  {
    CheckAll(GroupCheck(t), tags)
  }

  /** The checks fail only on a tag that no column carries. */
  lemma GroupLogSucceeds(t: Table<Value>, tags: seq<string>)
    requires Rect(t)
    ensures GroupLog(t, tags).Success? <==> forall k :: 0 <= k < |tags| ==> Group(t, tags[k]) != []
  {
    CheckAllByLine(GroupCheck(t), tags);
    GroupLineMeaning(t);
  }

  /** The checks only log: one line per tag, the success line exactly when the group agrees
      and the warning otherwise. */
  lemma GroupLogLines(t: Table<Value>, tags: seq<string>)
    requires Rect(t) && GroupLog(t, tags).Success?
    ensures |GroupLog(t, tags).value| == |tags|
    ensures forall k :: 0 <= k < |tags| ==> GroupLog(t, tags).value[k] == GroupMessage(tags[k], Agrees(t, tags[k]))
  {
    CheckAllByLine(GroupCheck(t), tags);
    GroupLineMeaning(t);
  }

  /** The loop of join_prof over the duplicate groups, collecting what it writes to the log. */
  method LogGroups(t: Table<Value>, tags: seq<string>) returns (r: Result<seq<LogLine>, PostError>)
    requires Rect(t)
    ensures r == GroupLog(t, tags)
  {
    ghost var check := GroupCheck(t);
    var log: seq<LogLine> := [];
    for k := 0 to |tags|
      invariant CheckAll(check, tags[..k]) == Success(log)
    {
      assert tags[..k + 1][..k] == tags[..k];
      var line := GroupLine(t, tags[k]);
      if line.Failure? {
        CheckAllFailureStays(check, tags, k + 1);
        return Failure(line.error);
      }
      log := log + [line.value];
    }
    assert tags[..|tags|] == tags;
    r := Success(log);
  }

  /** The checks join_prof runs on the joined table. */
  method CheckGroups(t: Table<Value>) returns (r: Result<seq<LogLine>, PostError>)
    requires Rect(t)
    ensures r == GroupLog(t, GroupTags(t.cols))
  {
    r := LogGroups(t, GroupTags(t.cols));
  }

  // ---------------------------------------------------------------- dropping columns

  /** Merged copies (kept: the original) and columns that cannot be merged (all dropped). */
  const MergedMarkers: seq<string> := ["GPU_ID_", "GRD_", "WGR_", "LDS_", "SCR_", "vgpr_", "Arch_VGPR_",
    "ACCUM_VGPR", "SGPR_", "Dispatch_ID_", "Queue_ID", "Queue_Index", "PID", "TID", "SIG", "OBJ", "dispatch_"]

  /** Timestamps other than the duration. */
  const TimeMarkers: seq<string> := ["DispatchNs", "CompleteNs", "HostDuration"]

  predicate NoMarker(c: string, markers: seq<string>) {
    forall m :: m in markers ==> !Contains(c, m)
  }

  /** Steps A and B of join_prof: drop the merged copies, then the unwanted timestamps. */
  function DropMarked(t: Table<Value>): (r: Table<Value>)
    requires Rect(t)
    ensures Rect(r) && |r.rows| == |t.rows|
  {
    SelectColumns(SelectColumns(t, c => NoMarker(c, MergedMarkers)), c => NoMarker(c, TimeMarkers))
  }

  /** A column survives exactly when no marker of either list occurs in its name. */
  lemma DropMarkedRules(t: Table<Value>, c: string)
    requires Rect(t)
    ensures c in DropMarked(t).cols <==> c in t.cols && NoMarker(c, MergedMarkers) && NoMarker(c, TimeMarkers)
  {
    var _ := SelectColumnsRules(t, c => NoMarker(c, MergedMarkers));
    var _ := SelectColumnsRules(SelectColumns(t, c => NoMarker(c, MergedMarkers)), c => NoMarker(c, TimeMarkers));
  }

  /** Every merged copy Arch_VGPR_<n> is dropped, and so is every column whose name starts with
      ACCUM_VGPR, the original included: that marker has no trailing `_`. */
  lemma VgprCopiesDropped(c: string)
    requires StartsWith(c, "Arch_VGPR_") || StartsWith(c, "ACCUM_VGPR")
    ensures !NoMarker(c, MergedMarkers)
  {
    if StartsWith(c, "Arch_VGPR_") {
      assert "Arch_VGPR_" in MergedMarkers && Contains(c, "Arch_VGPR_");
    } else {
      assert "ACCUM_VGPR" in MergedMarkers && Contains(c, "ACCUM_VGPR");
    }
  }

  // ---------------------------------------------------------------- the Kernel_Name check

  function NameColumns(t: Table<Value>): seq<nat> {
    Positions(t.cols, c => Contains(c, "Kernel_Name"))
  }

  function NamesAt(cols: seq<string>, ps: seq<nat>): (names: seq<string>)
    requires forall k :: 0 <= k < |ps| ==> ps[k] < |cols|
    ensures |names| == |ps|
  {
    seq(|ps|, k requires 0 <= k < |ps| => cols[ps[k]])
  }

  /** Step C: there must be a Kernel_Name column, every later copy must equal the first in
      every row, and the later copies are dropped. */
  function CheckNames(t: Table<Value>): (r: Result<Table<Value>, PostError>)
    requires Rect(t)
    ensures r.Success? ==> Rect(r.value) && |r.value.rows| == |t.rows|
  {
    var ps := NameColumns(t);
    if ps == [] then Failure(NoKernelName)
    else if !RowsAgree(t.rows, ps, ps[0]) then Failure(KernelNameMismatch)
    else
      var later := NamesAt(t.cols, ps[1..]);
      Success(SelectColumns(t, c => c !in later))
  }

  /** The check fails exactly when there is no Kernel_Name column or a copy differs from the
      first in some row. */
  lemma CheckNamesFails(t: Table<Value>)
    requires Rect(t)
    ensures CheckNames(t).Failure? <==> (NameColumns(t) == [] ||
      exists i, k :: 0 <= i < |t.rows| && 0 <= k < |NameColumns(t)| &&
        t.rows[i][NameColumns(t)[k]] != t.rows[i][NameColumns(t)[0]])
  {
    var ps := NameColumns(t);
    assert CheckNames(t).Failure? <==> ps == [] || !RowsAgree(t.rows, ps, ps[0]);
    if ps != [] {
      RowsAgreeIff(t.rows, ps, ps[0]);
    }
  }

  /** With distinct names, the names of the later matching columns are every matching name
      except the first one's. */
  lemma LaterNames(cols: seq<string>, keep: string -> bool)
    requires NoDup(cols) && Positions(cols, keep) != []
    ensures var ps := Positions(cols, keep);
      forall c :: c in NamesAt(cols, ps[1..]) <==> c in cols && keep(c) && c != cols[ps[0]]
  {
    LaterAreOthers(cols, keep);
    OthersAreLater(cols, keep);
  }

  lemma LaterAreOthers(cols: seq<string>, keep: string -> bool)
    requires NoDup(cols) && Positions(cols, keep) != []
    ensures var ps := Positions(cols, keep);
      forall k :: 0 <= k < |ps| - 1 ==> (NamesAt(cols, ps[1..])[k] in cols &&
        keep(NamesAt(cols, ps[1..])[k]) && NamesAt(cols, ps[1..])[k] != cols[ps[0]])
  {
    var ps := Positions(cols, keep);
    var later := NamesAt(cols, ps[1..]);
    forall k | 0 <= k < |later| ensures later[k] in cols && keep(later[k]) && later[k] != cols[ps[0]] {
      assert later[k] == cols[ps[k + 1]];
      assert ps[0] < ps[k + 1];
    }
  }

  lemma OthersAreLater(cols: seq<string>, keep: string -> bool)
    requires Positions(cols, keep) != []
    ensures var ps := Positions(cols, keep);
      forall c :: c in cols && keep(c) && c != cols[ps[0]] ==> c in NamesAt(cols, ps[1..])
  {
    var ps := Positions(cols, keep);
    var later := NamesAt(cols, ps[1..]);
    forall c | c in cols && keep(c) && c != cols[ps[0]] ensures c in later {
      var j :| 0 <= j < |cols| && cols[j] == c;
      var k :| 0 <= k < |ps| && ps[k] == j;
      assert later[k - 1] == cols[ps[k]];
    }
  }

  /** After the check, with distinct column names, the first Kernel_Name copy is the only
      column whose name contains Kernel_Name. */
  lemma CheckNamesKeepsFirst(t: Table<Value>)
    requires Rect(t) && NoDup(t.cols) && CheckNames(t).Success?
    ensures forall c :: c in CheckNames(t).value.cols && Contains(c, "Kernel_Name") <==> c == t.cols[NameColumns(t)[0]]
  {
    var ps := NameColumns(t);
    var later := NamesAt(t.cols, ps[1..]);
    assert CheckNames(t).value == SelectColumns(t, c => c !in later);
    var _ := SelectColumnsRules(t, c => c !in later);
    LaterNames(t.cols, c => Contains(c, "Kernel_Name"));
  }

  // ---------------------------------------------------------------- timestamps and the key

  function ToCells(t: Table<Value>): (r: Table<Cell>)
    requires Rect(t)
    ensures Rect(r) && r.cols == t.cols && |r.rows| == |t.rows|
  {
    Table(t.cols, seq(|t.rows|, i requires 0 <= i < |t.rows| =>
      seq(|t.rows[i]|, j requires 0 <= j < |t.rows[i]| => Raw(t.rows[i][j]))))
  }

  /** `df[keys].mean(axis=1)`, kept symbolic: each row's cells in the listed columns. */
  function RowMeans(t: Table<Value>, ps: seq<nat>): (cells: seq<Cell>)
    requires Rect(t) && forall k :: 0 <= k < |ps| ==> ps[k] < |t.cols|
    ensures |cells| == |t.rows|
  {
    seq(|t.rows|, i requires 0 <= i < |t.rows| => Mean(seq(|ps|, k requires 0 <= k < |ps| => t.rows[i][ps[k]])))
  }

  function StartColumns(t: Table<Value>): seq<nat> {
    Positions(t.cols, c => Contains(c, "Start_Timestamp"))
  }

  function EndColumns(t: Table<Value>): seq<nat> {
    Positions(t.cols, c => Contains(c, "End_Timestamp"))
  }

  /** Replace the start and end timestamp columns by their row means BeginNs and EndNs. */
  function Timestamps(t: Table<Value>): (r: Result<Table<Cell>, PostError>)
    requires Rect(t)
    ensures r.Success? ==> Rect(r.value) && |r.value.rows| == |t.rows|
  {
    var bps := StartColumns(t);
    var eps := EndColumns(t);
    var endNs := RowMeans(t, eps);
    var beginNs := RowMeans(t, bps);
    match DropColumns(ToCells(t), NamesAt(t.cols, bps))
    case Failure(n) => Failure(DropMissing(n))
    case Success(t1) =>
      match DropColumns(t1, NamesAt(t.cols, eps))
      case Failure(n) => Failure(DropMissing(n))
      case Success(t2) => Success(SetColumn(SetColumn(t2, "BeginNs", beginNs), "EndNs", endNs))
  }

  /** The table Timestamps works on once both groups of columns are dropped. */
  function Untimed(t: Table<Value>): Result<Table<Cell>, string>
    requires Rect(t)
  {
    match DropColumns(ToCells(t), NamesAt(t.cols, StartColumns(t)))
    case Failure(n) => Failure(n)
    case Success(t1) => DropColumns(t1, NamesAt(t.cols, EndColumns(t)))
  }

  lemma TimestampsUntimed(t: Table<Value>)
    requires Rect(t) && Timestamps(t).Success?
    ensures Untimed(t).Success? && Rect(Untimed(t).value) && |Untimed(t).value.rows| == |t.rows|
    ensures Timestamps(t).value ==
      SetColumn(SetColumn(Untimed(t).value, "BeginNs", RowMeans(t, StartColumns(t))), "EndNs", RowMeans(t, EndColumns(t)))
  { }

  /** After the replacement, BeginNs and EndNs hold the row means of the start and of the end
      timestamp columns. */
  lemma TimestampsMeans(t: Table<Value>)
    requires Rect(t) && Timestamps(t).Success?
    ensures "BeginNs" in Timestamps(t).value.cols && "EndNs" in Timestamps(t).value.cols
    ensures forall i :: 0 <= i < |t.rows| ==>
      Timestamps(t).value.rows[i][IndexOf(Timestamps(t).value.cols, "BeginNs").value] == RowMeans(t, StartColumns(t))[i]
    ensures forall i :: 0 <= i < |t.rows| ==>
      Timestamps(t).value.rows[i][IndexOf(Timestamps(t).value.cols, "EndNs").value] == RowMeans(t, EndColumns(t))[i]
  {
    TimestampsUntimed(t);
    var u := Untimed(t).value;
    var b := SetColumn(u, "BeginNs", RowMeans(t, StartColumns(t)));
    assert "BeginNs" in b.cols;
    SetColumnOther(b, "EndNs", RowMeans(t, EndColumns(t)), "BeginNs");
  }

  /** Every column whose name satisfies keep is among the names listed for it. */
  lemma NamesAtCover(cols: seq<string>, keep: string -> bool)
    ensures forall c :: c in cols && keep(c) ==> c in NamesAt(cols, Positions(cols, keep))
  {
    var ps := Positions(cols, keep);
    forall c | c in cols && keep(c) ensures c in NamesAt(cols, ps) {
      var j :| 0 <= j < |cols| && cols[j] == c;
      var k :| 0 <= k < |ps| && ps[k] == j;
      assert NamesAt(cols, ps)[k] == c;
    }
  }

  /** No column but BeginNs and EndNs names a start or an end timestamp afterwards. */
  lemma TimestampsGone(t: Table<Value>)
    requires Rect(t) && Timestamps(t).Success?
    ensures forall c :: c in Timestamps(t).value.cols && c != "BeginNs" && c != "EndNs" ==>
      !Contains(c, "Start_Timestamp") && !Contains(c, "End_Timestamp")
  {
    TimestampsUntimed(t);
    var bn := NamesAt(t.cols, StartColumns(t));
    var en := NamesAt(t.cols, EndColumns(t));
    var t1 := DropColumns(ToCells(t), bn).value;
    DropColumnsRules(ToCells(t), bn);
    DropColumnsRules(t1, en);
    NamesAtCover(t.cols, c => Contains(c, "Start_Timestamp"));
    NamesAtCover(t.cols, c => Contains(c, "End_Timestamp"));
    var u := Untimed(t).value;
    assert forall c :: c in u.cols ==> c in t.cols && c !in bn && c !in en;
    var b := SetColumn(u, "BeginNs", RowMeans(t, StartColumns(t)));
    SetColumnCols(u, "BeginNs", RowMeans(t, StartColumns(t)));
    SetColumnCols(b, "EndNs", RowMeans(t, EndColumns(t)));
  }

  /** Everything join_prof does after the joins, on in-memory passes. */
  function Finish(df: Table<Value>): (r: Result<Joined, PostError>)
    requires Rect(df)
  {
    match GroupLog(df, GroupTags(df.cols))
    case Failure(e) => Failure(e)
    case Success(log) =>
      match CheckNames(DropMarked(df))
      case Failure(e) => Failure(e)
      case Success(named) =>
        match Timestamps(named)
        case Failure(e) => Failure(e)
        case Success(timed) =>
          match DropColumns(timed, ["key"])
          case Failure(n) => Failure(DropMissing(n))
          case Success(out) => Success(Joined(log, out))
  }

  /** The table join_prof returns has lost its join key. */
  lemma FinishDropsKey(df: Table<Value>)
    requires Rect(df) && Finish(df).Success?
    ensures "key" !in Finish(df).value.table.cols
  {
    var named := CheckNames(DropMarked(df)).value;
    var timed := Timestamps(named).value;
    var _ := SelectColumnsRules(timed, c => c !in ["key"]);
  }

  /** What join_prof returns for in-memory passes. */
  function JoinProfSpec(passes: seq<Table<Value>>, joinType: string): Result<Joined, ProfError>
    requires AllRect(passes)
  {
    match JoinAll(passes, joinType)
    case Failure(e) => Failure(JoinFailed(e))
    case Success(df) =>
      match Finish(df)
      case Failure(e) => Failure(PostFailed(e))
      case Success(j) => Success(j)
  }

  /** join_prof with a list of data frames: join them, check and clean the result. */
  method JoinProf(passes: seq<Table<Value>>, joinType: string) returns (r: Result<Joined, ProfError>)
    requires AllRect(passes)
    ensures r == JoinProfSpec(passes, joinType)
  {
    var joined := JoinPasses(passes, joinType);
    if joined.Failure? {
      return Failure(JoinFailed(joined.error));
    }
    var df := joined.value;
    var log := CheckGroups(df);
    if log.Failure? {
      return Failure(PostFailed(log.error));
    }
    var named := CheckNames(DropMarked(df));
    if named.Failure? {
      return Failure(PostFailed(named.error));
    }
    var timed := Timestamps(named.value);
    if timed.Failure? {
      return Failure(PostFailed(timed.error));
    }
    var out := DropColumns(timed.value, ["key"]);
    if out.Failure? {
      return Failure(PostFailed(DropMissing(out.error)));
    }
    r := Success(Joined(log.value, out.value));
  }
}
