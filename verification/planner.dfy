/** The pass planner (`perfmon_emit`, the branch that returns the batches instead of writing
    pmc_perf.txt): how many profiling passes the coalesced counters need, and which counters
    each pass samples. */
module Planner {
  import opened Strings
  import opened Capacity
  import opened Buckets

  /** math.ceil(a / n) for a positive divisor. */
  function CeilDiv(a: nat, n: nat): nat
    requires n >= 1
  {
    (a + n - 1) / n
  }

  /** p full passes of n counters leave some of a counters over exactly when p is below
      ceil(a / n). */
  lemma CeilDivBound(a: nat, n: nat, p: nat)
    requires n >= 1
    ensures p < CeilDiv(a, n) <==> p * n < a
  {
    var q := CeilDiv(a, n);
    var r := (a + n - 1) % n;
    assert a + n - 1 == q * n + r && 0 <= r < n;
    if p < q {
      assert (p + 1) * n <= q * n by { MulLe(p + 1, q, n); }
    } else {
      assert q * n <= p * n by { MulLe(q, p, n); }
    }
  }

  lemma MulLe(x: nat, y: nat, n: nat)
    requires x <= y
    ensures x * n <= y * n
  {
    assert y * n == x * n + (y - x) * n;
  }

  function Max(a: nat, b: nat): nat {
    if a >= b then a else b
  }

  /** l[p * n : p * n + n]: Python clamps both ends of the slice to the length of l. */
  function Window(l: seq<string>, p: nat, n: nat): seq<string> {
    var lo := p * n;
    if lo >= |l| then [] else l[lo..if lo + n <= |l| then lo + n else |l|]
  }

  /** A window holds at most n counters, it is empty exactly when it starts past the end,
      and it is the stretch of l that starts at p * n. */
  lemma WindowRules(l: seq<string>, p: nat, n: nat)
    requires n >= 1
    ensures |Window(l, p, n)| <= n
    ensures Window(l, p, n) == [] <==> p >= CeilDiv(|l|, n)
    ensures forall i :: 0 <= i < |Window(l, p, n)| ==> p * n + i < |l| && Window(l, p, n)[i] == l[p * n + i]
  {
    CeilDivBound(|l|, n, p);
  }

  function BlockList(bk: PmcTable, b: Block): seq<string> {
    ListAt(bk, Bucket(b))
  }

  function ChannelList(bk: PmcTable, ch: nat): seq<string> {
    ListAt(bk, Channel(ChannelKey(ch)))
  }

  /** The largest ceil(len / cap) over the first k blocks of the plan order (pmc_cnt). */
  function BlockPasses(bk: PmcTable, soc: Soc, k: nat): nat
    requires k <= |PlanOrder|
  {
    if k == 0 then 0
    else Max(BlockPasses(bk, soc, k - 1), CeilDiv(|BlockList(bk, PlanOrder[k - 1])|, Cap(soc, PlanOrder[k - 1])))
  }

  /** The largest ceil(len / cap_TCC) over channels 0 .. k-1 (tcc2_cnt). */
  function ChannelPasses(bk: PmcTable, soc: Soc, k: nat): nat {
    if k == 0 then 0
    else Max(ChannelPasses(bk, soc, k - 1), CeilDiv(|ChannelList(bk, k - 1)|, Cap(soc, TCC)))
  }

  /** ceil(len(TCC) / cap_TCC) (tcc_cnt): the passes that sample the aggregate TCC bucket. */
  function AggregatePasses(bk: PmcTable, soc: Soc): nat {
    CeilDiv(|BlockList(bk, TCC)|, Cap(soc, TCC))
  }

  /** niter: enough passes for every ordinary block, and for the aggregate TCC passes followed
      by the per-channel passes. */
  function NumPasses(bk: PmcTable, soc: Soc): nat {
    Max(BlockPasses(bk, soc, |PlanOrder|), AggregatePasses(bk, soc) + ChannelPasses(bk, soc, Channels(soc)))
  }

  /** The windows of pass p of the first k blocks of the plan order, in that order. */
  function BlockSlices(bk: PmcTable, soc: Soc, p: nat, k: nat): seq<string>
    requires k <= |PlanOrder|
  {
    if k == 0 then []
    else BlockSlices(bk, soc, p, k - 1) + Window(BlockList(bk, PlanOrder[k - 1]), p, Cap(soc, PlanOrder[k - 1]))
  }

  /** The windows of channel pass j of channels 0 .. k-1, in channel order. */
  function ChannelSlices(bk: PmcTable, soc: Soc, j: nat, k: nat): seq<string> {
    if k == 0 then []
    else ChannelSlices(bk, soc, j, k - 1) + Window(ChannelList(bk, k - 1), j, Cap(soc, TCC))
  }

  /** The TCC part of pass p: the aggregate window while the aggregate bucket lasts, then the
      channel windows, the channel pass index counting the passes whose aggregate window was empty. */
  function TccPart(bk: PmcTable, soc: Soc, p: nat): seq<string> {
    var t := AggregatePasses(bk, soc);
    if p < t then Window(BlockList(bk, TCC), p, Cap(soc, TCC))
    else ChannelSlices(bk, soc, p - t, Channels(soc))
  }

  /** The counters written on the `pmc:` line of pass p. */
  function PassCounters(bk: PmcTable, soc: Soc, p: nat): seq<string> {
    BlockSlices(bk, soc, p, |PlanOrder|) + TccPart(bk, soc, p)
  }

  /** The `pmc:` line of pass p up to the first k blocks: " " + " ".join(window) for each
      block whose window is not empty. */
  function BlockLine(bk: PmcTable, soc: Soc, p: nat, k: nat): string
    requires k <= |PlanOrder|
  {
    if k == 0 then "pmc: "
    else
      var w := Window(BlockList(bk, PlanOrder[k - 1]), p, Cap(soc, PlanOrder[k - 1]));
      BlockLine(bk, soc, p, k - 1) + (if w == [] then [] else " " + JoinSpace(w))
  }

  /** The `pmc:` line of pass p as perfmon_emit writes it (the TCC part is appended even
      when empty). */
  function PassLine(bk: PmcTable, soc: Soc, p: nat): string {
    BlockLine(bk, soc, p, |PlanOrder|) + (" " + JoinSpace(TccPart(bk, soc, p)))
  }

  /** The batch of pass p: the tokens of its counters once joined into the line and split again. */
  function Batch(bk: PmcTable, soc: Soc, p: nat): seq<string> {
    Words(JoinSpace(PassCounters(bk, soc, p)))
  }

  /** Splitting the first k blocks' part of the line gives the prefix token, then the tokens
      of those blocks' windows. */
  lemma {:induction false} BlockLineTokens(bk: PmcTable, soc: Soc, p: nat, k: nat)
    requires k <= |PlanOrder|
    ensures Words(BlockLine(bk, soc, p, k)) == ["pmc:"] + Words(JoinSpace(BlockSlices(bk, soc, p, k)))
  {
    if k == 0 {
      PrefixWords();
    } else {
      BlockLineTokens(bk, soc, p, k - 1);
      var w := Window(BlockList(bk, PlanOrder[k - 1]), p, Cap(soc, PlanOrder[k - 1]));
      var pre := BlockSlices(bk, soc, p, k - 1);
      assert BlockSlices(bk, soc, p, k) == pre + w;
      var line := BlockLine(bk, soc, p, k - 1);
      if w == [] {
        assert BlockLine(bk, soc, p, k) == line + [];
        ConcatUnit(line);
        ConcatUnit(pre);
      } else {
        assert BlockLine(bk, soc, p, k) == line + (" " + JoinSpace(w));
        LineAppend(line, pre, w);
      }
    }
  }

  /** The batch of a pass is its `pmc:` line split on whitespace without the prefix token. */
  lemma PassLineTokens(bk: PmcTable, soc: Soc, p: nat)
    ensures Words(PassLine(bk, soc, p)) == ["pmc:"] + Batch(bk, soc, p)
  {
    BlockLineTokens(bk, soc, p, |PlanOrder|);
    LineAppend(BlockLine(bk, soc, p, |PlanOrder|), BlockSlices(bk, soc, p, |PlanOrder|), TccPart(bk, soc, p));
  }

  /** The batches of all passes, pass by pass. */
  function Plan(bk: PmcTable, soc: Soc): seq<seq<string>> {
    seq(NumPasses(bk, soc), p requires 0 <= p => Batch(bk, soc, p))
  }

  // ---------------------------------------------------------------- the emit loop

  /** perfmon_emit(pmc_list, soc) without a workload directory: one batch per pass, built by
      appending each block's window to a `pmc:` line and splitting the line again. The table is
      only read. */
  method Emit(table: PmcList) returns (batches: seq<seq<string>>)
    requires table.Valid()
    ensures batches == Plan(table.Value(), table.soc)
    ensures |batches| == NumPasses(table.Value(), table.soc)
  {
    ghost var bk := table.Value();
    var niter := NumPasses(table.Value(), table.soc);
    var tcc2Index := 0;
    batches := [];
    for iter := 0 to niter
      invariant batches == Plan(bk, table.soc)[..iter]
      invariant tcc2Index == ChannelPassIndex(bk, table.soc, iter)
    {
      var b;
      b, tcc2Index := EmitPass(table, iter, tcc2Index);
      assert b == Plan(bk, table.soc)[iter];
      SliceStep(Plan(bk, table.soc), iter);
      batches := batches + [b];
    }
    assert Plan(bk, table.soc)[..niter] == Plan(bk, table.soc);
  }

  lemma SliceStep<T>(s: seq<T>, p: nat)
    requires p < |s|
    ensures s[..p + 1] == s[..p] + [s[p]]
  {
  }


  /** How many of the passes before p found the aggregate TCC window empty: the value of
      tcc2_index when pass p starts. */
  function ChannelPassIndex(bk: PmcTable, soc: Soc, p: nat): nat {
    var t := AggregatePasses(bk, soc);
    if p <= t then 0 else p - t
  }

  /** One iteration of the pass loop: the batch of pass iter, and the channel pass index
      for the next pass. */
  method EmitPass(table: PmcList, iter: nat, tcc2Index: nat) returns (b: seq<string>, next: nat)
    requires table.Valid()
    requires tcc2Index == ChannelPassIndex(table.Value(), table.soc, iter)
    ensures b == Batch(table.Value(), table.soc, iter)
    ensures next == ChannelPassIndex(table.Value(), table.soc, iter + 1)
  {
    var soc := table.soc;
    ghost var bk := table.Value();
    var line := EmitBlocks(table, iter);
    var n := Cap(soc, TCC);
    var tccCounters := Window(table.blocks[TCC], iter, n);
    next := tcc2Index;
    WindowRules(BlockList(bk, TCC), iter, n);
    if tccCounters == [] {
      tccCounters := EmitChannels(table, tcc2Index);
      next := tcc2Index + 1;
    }
    assert tccCounters == TccPart(bk, soc, iter);
    line := line + (" " + JoinSpace(tccCounters));
    PassLineTokens(bk, soc, iter);
    b := Words(line);
    b := b[1..];  // b.remove("pmc:"): the first occurrence is the prefix token
  }

  /** The `pmc:` line of pass iter with the ordinary blocks' windows appended. */
  method EmitBlocks(table: PmcList, iter: nat) returns (line: string)
    requires table.Valid()
    ensures line == BlockLine(table.Value(), table.soc, iter, |PlanOrder|)
  {
    var soc := table.soc;
    line := "pmc: ";
    for k := 0 to |PlanOrder|
      invariant line == BlockLine(table.Value(), soc, iter, k)
    {
      var b := PlanOrder[k];
      var ipCounters := Window(table.blocks[b], iter, Cap(soc, b));
      assert ipCounters == Window(BlockList(table.Value(), b), iter, Cap(soc, b));
      if ipCounters != [] {
        line := line + (" " + JoinSpace(ipCounters));
      } else {
        ConcatUnit(line);
      }
    }
  }

  /** The per-channel TCC counters of channel pass j: window j of every channel, in channel order. */
  method EmitChannels(table: PmcList, j: nat) returns (tccCounters: seq<string>)
    requires table.Valid()
    ensures tccCounters == ChannelSlices(table.Value(), table.soc, j, Channels(table.soc))
  {
    var soc := table.soc;
    var n := Cap(soc, TCC);
    tccCounters := [];
    for ch := 0 to Channels(soc)
      invariant tccCounters == ChannelSlices(table.Value(), soc, j, ch)
    {
      tccCounters := tccCounters + Window(table.channels[ChannelKey(ch)], j, n);
    }
  }

  /** Appending " " + " ".join(ip) to a line adds the tokens of ip after those already there. */
  lemma LineAppend(line: string, pre: seq<string>, ip: seq<string>)
    requires Words(line) == ["pmc:"] + Words(JoinSpace(pre))
    ensures Words(line + (" " + JoinSpace(ip))) == ["pmc:"] + Words(JoinSpace(pre + ip))
  {
    BlankIsSpace();
    WordsAppend(line, " " + JoinSpace(ip));
    LeadingBlank(JoinSpace(ip));
    WordsJoinAppend(pre, ip);
    ConcatAssoc(["pmc:"], Words(JoinSpace(pre)), Words(JoinSpace(ip)));
  }

  /** The line prefix "pmc: " splits to the single token "pmc:". */
  lemma PrefixWords()
    ensures Words("pmc: ") == ["pmc:"]
  {
    var w := "pmc:";
    PrintableNotSpace('p');
    PrintableNotSpace('m');
    PrintableNotSpace('c');
    PrintableNotSpace(':');
    assert IsWord(w);
    WordsOfWord(w);
    BlankIsSpace();
    assert "pmc: " == w + " ";
    WordsAppend(w, " ");
    assert TrimStart(" ") == [];
    ConcatUnit([w]);
  }
}
