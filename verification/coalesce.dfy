/** perfmon_coalesce: read every `pmc:` line of the input definition files into one bucket
    table, write a level file for each level line, add the timestamps file, then sort the
    TCC channel lists. Files arrive as lists of lines (reading and splitlines() are not
    part of this model); written files are returned as PlanFile values. */
module Coalesce {
  import opened Wrappers
  import opened Strings
  import opened Capacity
  import opened Buckets

  /** The line with its `#` comment cut off and its surrounding blanks trimmed. */
  function LineText(line: string): string {
    Strip(Before(line, '#'))
  }

  /** A `pmc:` line after the comment cut: its tokens and its stripped text. */
  datatype PmcLine = PmcLine(counters: seq<string>, stext: string)

  /** The whitespace-separated tokens after the `pmc:` prefix of a line, or None
      when the line is skipped: empty after the comment cut, or not starting with `pmc:`. */
  function ParseLine(line: string): Option<PmcLine> {
    var stext := LineText(line);
    if stext == [] || !StartsWith(stext, "pmc:") then None
    else Some(PmcLine(Words(Before(stext[4..], '\n')), stext))
  }

  /** A line is kept exactly when its text before any `#`, stripped, is non-empty and starts
      with `pmc:`; it keeps that text for the level file, and its tokens are whitespace-free words. */
  lemma ParseLineRules(line: string)
    ensures ParseLine(line).Some? <==> LineText(line) != [] && StartsWith(LineText(line), "pmc:")
    ensures ParseLine(line).Some? ==> ParseLine(line).value.stext == LineText(line)
    ensures ParseLine(line).Some? ==>
      forall i :: 0 <= i < |ParseLine(line).value.counters| ==> IsWord(ParseLine(line).value.counters[i])
  {
    var stext := LineText(line);
    if stext != [] && StartsWith(stext, "pmc:") {
      WordsAreWords(Before(stext[4..], '\n'));
    }
  }

  /** The tokens of a `pmc:` line are exactly its non-blank text after the prefix, in order,
      and no token comes from a comment. */
  lemma CountersOfLine(line: string)
    requires ParseLine(line).Some?
    ensures Concat(ParseLine(line).value.counters) == NonSpace(Before(LineText(line)[4..], '\n'))
    ensures forall i :: 0 <= i < |ParseLine(line).value.counters| ==> '#' !in ParseLine(line).value.counters[i]
  {
    var stext := LineText(line);
    var body := Before(stext[4..], '\n');
    var cs := ParseLine(line).value.counters;
    WordsKeepNonSpace(body);
    forall i | 0 <= i < |cs|
      ensures '#' !in cs[i]
    {
      if '#' in cs[i] {
        WordInConcat(cs, i);
        assert '#' in NonSpace(body);
        NonSpaceSubset(body, '#');
        StripInside(Before(line, '#'), '#');
      }
    }
  }

  /** Every character of a token is a character of the concatenation. */
  lemma {:induction false} WordInConcat(ws: seq<string>, i: nat)
    requires i < |ws|
    ensures forall c :: c in ws[i] ==> c in Concat(ws)
  {
    if i > 0 { WordInConcat(ws[1..], i - 1); }
  }

  lemma {:induction false} NonSpaceSubset(s: string, c: char)
    requires c in NonSpace(s)
    ensures c in s
  {
    if s != [] && !(!IsSpace(s[0]) && s[0] == c) { NonSpaceSubset(s[1..], c); }
  }

  /** Characters of a stripped string come from the string. */
  lemma StripInside(s: string, c: char)
    requires c !in s
    ensures c !in Strip(s)
  {
    var t := TrimStart(s);
    TrimStartRules(s);
    assert forall k :: 0 <= k < |t| ==> t[k] == s[|s| - |t| + k];
    assert forall k :: 0 <= k < |TrimEnd(t)| ==> TrimEnd(t)[k] == t[k];
  }

  /** Blank lines, comment-only lines and lines that do not start with `pmc:` are skipped. */
  lemma SkippedLines(line: string)
    ensures (forall i :: 0 <= i < |Before(line, '#')| ==> IsSpace(line[i])) ==> ParseLine(line).None?
    ensures !StartsWith(LineText(line), "pmc:") ==> ParseLine(line).None?
  {
    StripRules(Before(line, '#'));
  }

  /** The parsed lines of one file, in order. */
  function Parsed(lines: seq<string>): seq<Option<PmcLine>> {
    if lines == [] then [] else Parsed(lines[..|lines| - 1]) + [ParseLine(lines[|lines| - 1])]
  }

  /** The parsed lines of all files, file after file. */
  function ParsedFiles(files: seq<seq<string>>): seq<Option<PmcLine>> {
    if files == [] then [] else ParsedFiles(files[..|files| - 1]) + Parsed(files[|files| - 1])
  }

  lemma {:induction false} ParsedHas(lines: seq<string>, j: nat)
    requires j < |lines|
    ensures ParseLine(lines[j]) in Parsed(lines)
    decreases |lines|
  {
    if j < |lines| - 1 {
      ParsedHas(lines[..|lines| - 1], j);
    }
  }

  lemma {:induction false} ParsedFilesHas(files: seq<seq<string>>, i: nat, j: nat)
    requires i < |files| && j < |files[i]|
    ensures ParseLine(files[i][j]) in ParsedFiles(files)
    decreases |files|
  {
    if i < |files| - 1 {
      ParsedFilesHas(files[..|files| - 1], i, j);
    } else {
      ParsedHas(files[i], j);
    }
  }

  // ---------------------------------------------------------------- the line fold

  /** State of the coalescing loop: the table, the files written so far, and the error that
      stopped it, if any. */
  datatype Scan = Scan(bk: PmcTable, written: seq<PlanFile>, failed: Option<ClassifyError>)

  /** The level file update_pmc_bucket writes for a level line. */
  function LevelFile(dir: string, counters: seq<string>, stext: string): PlanFile
    requires Sentinel in counters
  {
    PlanFile(dir + "/" + LevelCounter(counters) + ".txt", stext)
  }

  /** The file perfmon_coalesce always adds at the end. */
  function TimestampsFile(dir: string): PlanFile {
    PlanFile(dir + "/timestamps.txt", "pmc:")
  }

  /** One line of one input file: skipped, a level line (a level file, the table unchanged),
      or an ordinary line (its tokens classified). */
  function StepLine(s: Scan, pl: Option<PmcLine>, dir: string): Scan {
    match pl
    case None => s
    case Some(PmcLine(cs, stext)) =>
      if Sentinel in cs then Scan(s.bk, s.written + [LevelFile(dir, cs, stext)], None)
      else
        var f := AddAll(s.bk, cs);
        Scan(f.bk, s.written, f.failed)
  }

  /** All lines in order, stopping at the first line that raises. */
  function ScanLines(s: Scan, pls: seq<Option<PmcLine>>, dir: string): Scan
    decreases |pls|
  {
    if pls == [] then s
    else
      var p := ScanLines(s, pls[..|pls| - 1], dir);
      if p.failed.Some? then p else StepLine(p, pls[|pls| - 1], dir)
  }

  function Start(soc: Soc): Scan {
    Scan(Empty(soc), [], None)
  }

  /** One more line after a scan of xs. */
  lemma ScanSnoc(s: Scan, xs: seq<Option<PmcLine>>, x: Option<PmcLine>, dir: string)
    ensures ScanLines(s, xs + [x], dir) ==
      var p := ScanLines(s, xs, dir);
      if p.failed.Some? then p else StepLine(p, x, dir)
  {
    assert (xs + [x])[..|xs|] == xs;
  }

  /** Once a line has raised, the lines after it are never looked at. */
  lemma {:induction false} ScanStops(s: Scan, pls: seq<Option<PmcLine>>, pre: seq<Option<PmcLine>>, dir: string)
    requires |pre| <= |pls| && pls[..|pre|] == pre && ScanLines(s, pre, dir).failed.Some?
    ensures ScanLines(s, pls, dir) == ScanLines(s, pre, dir)
    decreases |pls| - |pre|
  {
    if |pre| < |pls| {
      var next := pls[..|pre| + 1];
      assert next[..|pre|] == pre;
      ScanStops(s, pls, next, dir);
    } else {
      assert pls == pre;
    }
  }

  /** Coalescing keeps the table well formed. */
  lemma {:induction false} ScanWellFormed(s: Scan, pls: seq<Option<PmcLine>>, dir: string, soc: Soc)
    requires WellFormed(s.bk, soc)
    ensures WellFormed(ScanLines(s, pls, dir).bk, soc)
    decreases |pls|
  {
    if pls != [] {
      var p := ScanLines(s, pls[..|pls| - 1], dir);
      ScanWellFormed(s, pls[..|pls| - 1], dir, soc);
      match pls[|pls| - 1]
      case None =>
      case Some(pl) => AddAllWellFormed(p.bk, soc, pl.counters);
    }
  }

  /** c is a token of an ordinary (non-level) `pmc:` line. */
  predicate OrdinaryToken(pl: Option<PmcLine>, c: string) {
    pl.Some? && Sentinel !in pl.value.counters && c in pl.value.counters
  }

  /** Nothing already in the table is ever lost, even when a line raises. */
  lemma {:induction false} ScanKeeps(s: Scan, pls: seq<Option<PmcLine>>, dir: string)
    ensures forall d, c :: c in ListAt(s.bk, d) ==> c in ListAt(ScanLines(s, pls, dir).bk, d)
    decreases |pls|
  {
    if pls != [] {
      var p := ScanLines(s, pls[..|pls| - 1], dir);
      ScanKeeps(s, pls[..|pls| - 1], dir);
      if p.failed.None? && pls[|pls| - 1].Some? {
        AddAllKeeps(p.bk, pls[|pls| - 1].value.counters);
      }
    }
  }

  /** When no line raises, every token of every ordinary `pmc:` line ends up in the list its
      name selects. */
  lemma {:induction false} ScanCovers(s: Scan, pls: seq<Option<PmcLine>>, dir: string)
    requires ScanLines(s, pls, dir).failed.None?
    ensures forall pl, c :: pl in pls && OrdinaryToken(pl, c) ==>
      Destination(c).Success? && c in ListAt(ScanLines(s, pls, dir).bk, Destination(c).value)
    decreases |pls|
  {
    if pls != [] {
      var init := pls[..|pls| - 1];
      var last := pls[|pls| - 1];
      var p := ScanLines(s, init, dir);
      if p.failed.Some? {
        assert false;
      }
      ScanCovers(s, init, dir);
      var q := ScanLines(s, pls, dir);
      if last.Some? {
        AddAllKeeps(p.bk, last.value.counters);
        if Sentinel !in last.value.counters {
          AddAllCovers(p.bk, last.value.counters);
        }
      }
      forall pl, c | pl in pls && OrdinaryToken(pl, c)
        ensures Destination(c).Success? && c in ListAt(q.bk, Destination(c).value)
      {
        assert pls == init + [last];
        if pl != last {
          assert pl in init;
        } else {
          var cs := last.value.counters;
          var k :| 0 <= k < |cs| && cs[k] == c;
        }
      }
    }
  }

  /** Everything in the table afterwards was there before or is a token of one of the lines. */
  lemma {:induction false} ScanOnly(s: Scan, pls: seq<Option<PmcLine>>, dir: string)
    ensures forall d, c :: c in ListAt(ScanLines(s, pls, dir).bk, d) ==>
      c in ListAt(s.bk, d) || exists pl :: pl in pls && OrdinaryToken(pl, c)
    decreases |pls|
  {
    if pls != [] {
      var init := pls[..|pls| - 1];
      var last := pls[|pls| - 1];
      assert pls == init + [last];
      var p := ScanLines(s, init, dir);
      var q := ScanLines(s, pls, dir);
      ScanOnly(s, init, dir);
      if p.failed.None? && last.Some? && Sentinel !in last.value.counters {
        AddAllOnly(p.bk, last.value.counters);
        forall d, c | c in ListAt(q.bk, d)
          ensures c in ListAt(s.bk, d) || exists pl :: pl in pls && OrdinaryToken(pl, c)
        {
          if c !in ListAt(p.bk, d) {
            assert OrdinaryToken(last, c);
          } else if c !in ListAt(s.bk, d) {
            var pl :| pl in init && OrdinaryToken(pl, c);
            assert pl in pls;
          }
        }
      } else {
        forall d, c | c in ListAt(q.bk, d)
          ensures c in ListAt(s.bk, d) || exists pl :: pl in pls && OrdinaryToken(pl, c)
        {
          if c !in ListAt(s.bk, d) {
            var pl :| pl in init && OrdinaryToken(pl, c);
            assert pl in pls;
          }
        }
      }
    }
  }

  /** The result of perfmon_coalesce on files that all classify: the coalesced table with
      channels 0 .. TCC_channels-1 sorted. */
  function Coalesced(files: seq<seq<string>>, soc: Soc, workloadDir: string): PmcTable {
    SortChannels(ScanLines(Start(soc), ParsedFiles(files), workloadDir + "/perfmon").bk, Channels(soc))
  }

  /** The coalesced table is well formed and its channels are sorted. */
  lemma CoalescedSorted(files: seq<seq<string>>, soc: Soc, workloadDir: string)
    ensures WellFormed(Coalesced(files, soc, workloadDir), soc)
    ensures forall ch: nat :: ch < Channels(soc) ==>
      Sorted(ListAt(Coalesced(files, soc, workloadDir), Channel(ChannelKey(ch))))
  {
    var s := ScanLines(Start(soc), ParsedFiles(files), workloadDir + "/perfmon");
    var c := Coalesced(files, soc, workloadDir);
    assert c == SortChannels(s.bk, Channels(soc));
    ScanWellFormed(Start(soc), ParsedFiles(files), workloadDir + "/perfmon", soc);
    SortChannelsWellFormed(s.bk, soc, Channels(soc));
    SortChannelsEffect(s.bk, Channels(soc));
    forall ch: nat | ch < Channels(soc)
      ensures Sorted(ListAt(c, Channel(ChannelKey(ch))))
    {
      var l := ListAt(s.bk, Channel(ChannelKey(ch)));
      assert ListAt(c, Channel(ChannelKey(ch))) == Sort(l);
      SortSpec(l);
    }
  }

  /** When no line raises, the coalesced table holds exactly the tokens of the ordinary `pmc:`
      lines of the input files, each in the list its name selects. */
  lemma CoalescedContents(files: seq<seq<string>>, soc: Soc, workloadDir: string)
    requires ScanLines(Start(soc), ParsedFiles(files), workloadDir + "/perfmon").failed.None?
    ensures forall pl, c :: pl in ParsedFiles(files) && OrdinaryToken(pl, c) ==>
      Destination(c).Success? && c in ListAt(Coalesced(files, soc, workloadDir), Destination(c).value)
    ensures forall d, c :: c in ListAt(Coalesced(files, soc, workloadDir), d) ==>
      exists pl :: pl in ParsedFiles(files) && OrdinaryToken(pl, c)
  {
    var dir := workloadDir + "/perfmon";
    var s := ScanLines(Start(soc), ParsedFiles(files), dir);
    ScanCovers(Start(soc), ParsedFiles(files), dir);
    ScanOnly(Start(soc), ParsedFiles(files), dir);
    SortChannelsMembers(s.bk, Channels(soc));
  }

  lemma {:induction false} ParsedFrom(lines: seq<string>, pl: Option<PmcLine>)
    requires pl in Parsed(lines)
    ensures exists j :: 0 <= j < |lines| && pl == ParseLine(lines[j])
    decreases |lines|
  {
    var init := lines[..|lines| - 1];
    if pl == ParseLine(lines[|lines| - 1]) {
    } else {
      ParsedFrom(init, pl);
      var j :| 0 <= j < |init| && pl == ParseLine(init[j]);
      assert init[j] == lines[j];
    }
  }

  lemma {:induction false} ParsedFilesFrom(files: seq<seq<string>>, pl: Option<PmcLine>)
    requires pl in ParsedFiles(files)
    ensures exists line :: pl == ParseLine(line)
    decreases |files|
  {
    if pl in Parsed(files[|files| - 1]) {
      ParsedFrom(files[|files| - 1], pl);
    } else {
      ParsedFilesFrom(files[..|files| - 1], pl);
    }
  }

  /** A token of a parsed line is a non-empty, whitespace-free word. */
  lemma TokenIsWord(files: seq<seq<string>>, pl: Option<PmcLine>, c: string)
    requires pl in ParsedFiles(files) && OrdinaryToken(pl, c)
    ensures IsWord(c)
  {
    ParsedFilesFrom(files, pl);
    var line :| pl == ParseLine(line);
    ParseLineRules(line);
    var cs := pl.value.counters;
    var k :| 0 <= k < |cs| && cs[k] == c;
  }

  /** Every counter of the coalesced table is a non-empty token free of whitespace, whether or
      not a line raised. */
  lemma CoalescedWords(files: seq<seq<string>>, soc: Soc, workloadDir: string)
    ensures forall d, c :: c in ListAt(Coalesced(files, soc, workloadDir), d) ==> IsWord(c)
  {
    forall d, c | c in ListAt(Coalesced(files, soc, workloadDir), d) ensures IsWord(c) {
      CoalescedWord(files, soc, workloadDir, d, c);
    }
  }

  lemma CoalescedWord(files: seq<seq<string>>, soc: Soc, workloadDir: string, d: Dest, c: string)
    requires c in ListAt(Coalesced(files, soc, workloadDir), d)
    ensures IsWord(c)
  {
    var dir := workloadDir + "/perfmon";
    var s := ScanLines(Start(soc), ParsedFiles(files), dir);
    SortChannelsMembers(s.bk, Channels(soc));
    ScanOnly(Start(soc), ParsedFiles(files), dir);
    var pl :| pl in ParsedFiles(files) && OrdinaryToken(pl, c);
    TokenIsWord(files, pl, c);
  }

  // ---------------------------------------------------------------- the loop itself

  /** The body of the inner loop of perfmon_coalesce, on a line already cut and matched. */
  method CoalesceLine(table: PmcList, pl: Option<PmcLine>, dir: string, writtenBefore: seq<PlanFile>)
    returns (failed: Option<ClassifyError>, written: seq<PlanFile>)
    requires table.Valid()
    modifies table
    ensures table.Valid()
    ensures StepLine(Scan(old(table.Value()), writtenBefore, None), pl, dir) == Scan(table.Value(), written, failed)
  {
    written := writtenBefore;
    failed := None;
    if pl.Some? {
      var err, level := table.UpdateBucket(pl.value.counters, true, Some(pl.value.stext), Some(dir));
      if err.Some? {
        failed := Some(err.value.cause);
      }
      if level.Some? {
        written := written + [level.value];
      }
    }
  }

  /** The inner loop of perfmon_coalesce: the lines of one file, continuing the scan that
      has already consumed `done`. */
  method CoalesceLines(table: PmcList, lines: seq<string>, dir: string, ghost start: Scan,
                       ghost done: seq<Option<PmcLine>>, writtenBefore: seq<PlanFile>)
    returns (failed: Option<ClassifyError>, written: seq<PlanFile>)
    requires table.Valid()
    requires ScanLines(start, done, dir) == Scan(table.Value(), writtenBefore, None)
    modifies table
    ensures table.Valid()
    ensures ScanLines(start, done + Parsed(lines), dir) == Scan(table.Value(), written, failed)
  {
    written := writtenBefore;
    failed := None;
    assert done + Parsed(lines[..0]) == done;
    for j := 0 to |lines|
      invariant table.Valid()
      invariant failed.None?
      invariant ScanLines(start, done + Parsed(lines[..j]), dir) == Scan(table.Value(), written, None)
    {
      var pl := ParseLine(lines[j]);
      ScanNextLine(start, done, lines, j, dir);
      failed, written := CoalesceLine(table, pl, dir, written);
      if failed.Some? {
        ScanLineStops(start, done, lines, j + 1, dir);
        return;
      }
    }
    assert lines[..|lines|] == lines;
  }

  /** Scanning one more line of the current file. */
  lemma ScanNextLine(start: Scan, done: seq<Option<PmcLine>>, lines: seq<string>, j: nat, dir: string)
    requires j < |lines|
    ensures ScanLines(start, done + Parsed(lines[..j + 1]), dir) ==
      var p := ScanLines(start, done + Parsed(lines[..j]), dir);
      if p.failed.Some? then p else StepLine(p, ParseLine(lines[j]), dir)
  {
    assert lines[..j + 1][..j] == lines[..j];
    assert done + Parsed(lines[..j + 1]) == (done + Parsed(lines[..j])) + [ParseLine(lines[j])];
    ScanSnoc(start, done + Parsed(lines[..j]), ParseLine(lines[j]), dir);
  }

  /** A line that raises ends the scan of its file and of everything after it. */
  lemma ScanLineStops(start: Scan, done: seq<Option<PmcLine>>, lines: seq<string>, k: nat, dir: string)
    requires k <= |lines| && ScanLines(start, done + Parsed(lines[..k]), dir).failed.Some?
    ensures ScanLines(start, done + Parsed(lines), dir) == ScanLines(start, done + Parsed(lines[..k]), dir)
  {
    PrefixParsed(lines, k);
    AppendPrefix(done, Parsed(lines), k);
    ScanStops(start, done + Parsed(lines), done + Parsed(lines[..k]), dir);
  }

  lemma AppendPrefix<T>(a: seq<T>, b: seq<T>, k: nat)
    requires k <= |b|
    ensures (a + b)[..|a| + k] == a + b[..k]
  {
  }

  /** Parsing a prefix of the lines gives a prefix of the parse. */
  lemma {:induction false} PrefixParsed(lines: seq<string>, k: nat)
    requires k <= |lines|
    ensures |Parsed(lines[..k])| == k <= |Parsed(lines)|
    ensures Parsed(lines)[..k] == Parsed(lines[..k])
    decreases |lines|
  {
    assert lines[..|lines|] == lines;
    ParsedLength(lines);
    ParsedLength(lines[..k]);
    if k < |lines| {
      var init := lines[..|lines| - 1];
      assert init[..k] == lines[..k];
      PrefixParsed(init, k);
    }
  }

  lemma {:induction false} ParsedLength(lines: seq<string>)
    ensures |Parsed(lines)| == |lines|
    decreases |lines|
  {
    if lines != [] { ParsedLength(lines[..|lines| - 1]); }
  }

  /** perfmon_coalesce: every line of every file through update_pmc_bucket on one shared table;
      a token that raises ends the run, with the files written so far left behind. */
  method Coalesce(files: seq<seq<string>>, soc: Soc, workloadDir: string)
    returns (r: Result<PmcList, BucketError>, written: seq<PlanFile>)
    ensures var dir := workloadDir + "/perfmon";
      var s := ScanLines(Start(soc), ParsedFiles(files), dir);
      && (s.failed.Some? ==> r == Failure(Unclassified(s.failed.value)) && written == s.written)
      && (s.failed.None? ==>
            && r.Success? && fresh(r.value) && r.value.soc == soc && r.value.Valid()
            && r.value.Value() == Coalesced(files, soc, workloadDir)
            && WellFormed(r.value.Value(), soc)
            && written == s.written + [TimestampsFile(dir)])
  {
    var dir := workloadDir + "/perfmon";
    var table := new PmcList(soc);
    var failed;
    failed, written := CoalesceFiles(table, files, soc, dir);
    if failed.Some? {
      return Failure(Unclassified(failed.value)), written;
    }
    written := written + [TimestampsFile(dir)];
    table.SortChannelLists();
    CoalescedSorted(files, soc, workloadDir);
    return Success(table), written;
  }

  /** The outer loop of perfmon_coalesce: the files one after another on a fresh table. */
  method CoalesceFiles(table: PmcList, files: seq<seq<string>>, soc: Soc, dir: string)
    returns (failed: Option<ClassifyError>, written: seq<PlanFile>)
    requires table.Valid() && table.Value() == Empty(soc)
    modifies table
    ensures table.Valid()
    ensures ScanLines(Start(soc), ParsedFiles(files), dir) == Scan(table.Value(), written, failed)
  {
    written := [];
    failed := None;
    for i := 0 to |files|
      invariant table.Valid() && failed.None?
      invariant ScanLines(Start(soc), ParsedFiles(files[..i]), dir) == Scan(table.Value(), written, None)
    {
      assert files[..i + 1][..i] == files[..i];
      failed, written := CoalesceLines(table, files[i], dir, Start(soc), ParsedFiles(files[..i]), written);
      if failed.Some? {
        PrefixParsedFiles(files, i + 1);
        ScanStops(Start(soc), ParsedFiles(files), ParsedFiles(files[..i + 1]), dir);
        return;
      }
    }
    assert files[..|files|] == files;
  }

  /** The lines of the first k files come first. */
  lemma {:induction false} PrefixParsedFiles(files: seq<seq<string>>, k: nat)
    requires k <= |files|
    ensures |ParsedFiles(files[..k])| <= |ParsedFiles(files)|
    ensures ParsedFiles(files)[..|ParsedFiles(files[..k])|] == ParsedFiles(files[..k])
    decreases |files|
  {
    assert files[..|files|] == files;
    if k < |files| {
      var init := files[..|files| - 1];
      assert init[..k] == files[..k];
      PrefixParsedFiles(init, k);
    }
  }
}
