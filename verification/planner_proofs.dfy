/** What the pass plan of perfmon_emit guarantees about a coalesced table: what each pass takes
    from each list, the capacity bounds, the separation of aggregate and per-channel TCC counters,
    coverage exactly once, the block order inside a pass, and the pass count. */
module PlannerProofs {
  import opened Wrappers
  import opened Strings
  import opened Capacity
  import opened Buckets
  import opened Planner

  // ---------------------------------------------------------------- selecting by destination

  /** A classification of counter names into destinations. The planner never classifies: the
      facts below hold for any classifier that places the table, and Destination, the one
      update_pmc_bucket applies, places every well-placed table (WellPlacedIsPlaced). */
  type Classifier = string -> Result<Dest, ClassifyError>

  /** Every counter sits in the list that dest selects for it. */
  ghost predicate Placed(bk: PmcTable, dest: Classifier) {
    forall d, c :: c in ListAt(bk, d) ==> dest(c) == Success(d)
  }

  lemma WellPlacedIsPlaced(bk: PmcTable)
    requires WellPlaced(bk)
    ensures Placed(bk, Destination)
  {
  }

  /** The counters of s that dest sends to d, in order. */
  function Select(s: seq<string>, d: Dest, dest: Classifier): seq<string> {
    if s == [] then []
    else Select(s[..|s| - 1], d, dest) + (if dest(s[|s| - 1]) == Success(d) then [s[|s| - 1]] else [])
  }

  lemma {:induction false} SelectAppend(a: seq<string>, b: seq<string>, d: Dest, dest: Classifier)
    ensures Select(a + b, d, dest) == Select(a, d, dest) + Select(b, d, dest)
    decreases |b|
  {
    if b == [] {
      assert a + b == a;
      ConcatUnit(Select(a, d, dest));
    } else {
      var init, last := b[..|b| - 1], b[|b| - 1];
      assert (a + b)[..|a + b| - 1] == a + init && (a + b)[|a + b| - 1] == last;
      SelectAppend(a, init, d, dest);
      ConcatAssoc(Select(a, d, dest), Select(init, d, dest), if dest(last) == Success(d) then [last] else []);
    }
  }

  /** A list whose counters all go to e: selecting d keeps all of it or nothing. */
  lemma {:induction false} SelectPlaced(l: seq<string>, e: Dest, d: Dest, dest: Classifier)
    requires forall c :: c in l ==> dest(c) == Success(e)
    ensures Select(l, d, dest) == if d == e then l else []
    decreases |l|
  {
    if l != [] {
      var init, last := l[..|l| - 1], l[|l| - 1];
      assert l == init + [last];
      assert forall c :: c in init ==> c in l;
      SelectPlaced(init, e, d, dest);
      assert dest(last) == Success(e);
    }
  }

  /** A counter that dest sends to d is selected exactly when it is there. */
  lemma {:induction false} SelectHas(s: seq<string>, c: string, d: Dest, dest: Classifier)
    requires dest(c) == Success(d)
    ensures c in Select(s, d, dest) <==> c in s
    decreases |s|
  {
    if s != [] {
      var init := s[..|s| - 1];
      SelectHas(init, c, d, dest);
      assert s == init + [s[|s| - 1]];
    }
  }

  lemma WindowWithin(l: seq<string>, p: nat, n: nat)
    requires n >= 1
    ensures forall c :: c in Window(l, p, n) ==> c in l
  {
    WindowRules(l, p, n);
    forall c | c in Window(l, p, n) ensures c in l {
      var i :| 0 <= i < |Window(l, p, n)| && Window(l, p, n)[i] == c;
      assert l[p * n + i] == c;
    }
  }

  /** In a list without repeats, the counter at index i lies in window j exactly when j is i / n. */
  lemma WindowMember(l: seq<string>, j: nat, n: nat, i: nat)
    requires n >= 1 && NoDup(l) && i < |l|
    ensures l[i] in Window(l, j, n) <==> j == i / n
  {
    WindowRules(l, j, n);
    var w := Window(l, j, n);
    DivSplit(i, n);
    if l[i] in w {
      var m :| 0 <= m < |w| && w[m] == l[i];
      assert l[j * n + m] == l[i];
      assert j * n + m == i;
      DivUnique(i, n, j, m);
    }
    if j == i / n {
      var m := i - j * n;
      assert j * n <= i < |l|;
      assert m < |w|;
      assert w[m] == l[i];
    }
  }

  lemma DivSplit(i: nat, n: nat)
    requires n >= 1
    ensures (i / n) * n <= i < (i / n) * n + n
  {
  }

  lemma DivUnique(i: nat, n: nat, j: nat, m: nat)
    requires n >= 1 && i == j * n + m && m < n
    ensures j == i / n
  {
    var q, r := i / n, i % n;
    assert i == q * n + r && r < n;
    assert (q + 1) * n == q * n + n && (j + 1) * n == j * n + n;
    if j > q {
      MulLe(q + 1, j, n);
    } else if j < q {
      MulLe(j + 1, q, n);
    }
  }

  /** Index i of a list of length a falls in one of its first ceil(a / n) windows. */
  lemma IndexBelowCeil(i: nat, a: nat, n: nat)
    requires n >= 1 && i < a
    ensures i / n < CeilDiv(a, n)
  {
    DivSplit(i, n);
    CeilDivBound(a, n, i / n);
  }

  // ---------------------------------------------------------------- the share of each list in a pass

  /** Channel key k is one of the channels the planner visits ("0" .. str(TCC_channels - 1)). */
  ghost predicate PlannedKey(k: string, soc: Soc) {
    KeyBelow(k, Channels(soc))
  }

  /** The lists the planner reads: every bucket, and the visited channels. */
  ghost predicate Planned(d: Dest, soc: Soc) {
    d.Bucket? || PlannedKey(d.key, soc)
  }

  /** What pass p takes from the list of destination d: window p of an ordinary block; window p
      of the aggregate TCC bucket during the aggregate passes; window p - T of a visited channel
      afterwards, T being the number of aggregate passes. */
  ghost function Share(bk: PmcTable, soc: Soc, p: nat, d: Dest): seq<string> {
    var t := AggregatePasses(bk, soc);
    match d
    case Bucket(b) =>
      if b != TCC then Window(ListAt(bk, d), p, Cap(soc, b))
      else if p < t then Window(ListAt(bk, d), p, Cap(soc, TCC))
      else []
    case Channel(k) =>
      if t <= p && PlannedKey(k, soc) then Window(ListAt(bk, d), p - t, Cap(soc, TCC)) else []
  }

  lemma PlacedWindow(bk: PmcTable, d: Dest, p: nat, n: nat, dest: Classifier)
    requires Placed(bk, dest) && n >= 1
    ensures forall c :: c in Window(ListAt(bk, d), p, n) ==> dest(c) == Success(d)
  {
    WindowWithin(ListAt(bk, d), p, n);
  }

  /** Selecting d from a window of e's list keeps the whole window or nothing. */
  lemma SelectWindow(bk: PmcTable, e: Dest, p: nat, n: nat, d: Dest, dest: Classifier)
    requires Placed(bk, dest) && n >= 1
    ensures Select(Window(ListAt(bk, e), p, n), d, dest) == if d == e then Window(ListAt(bk, e), p, n) else []
  {
    PlacedWindow(bk, e, p, n, dest);
    SelectPlaced(Window(ListAt(bk, e), p, n), e, d, dest);
  }

  /** The plan order lists every ordinary block once, at the index of its rank. */
  lemma RankOfPlanOrder(i: nat)
    requires i < |PlanOrder|
    ensures PlanOrder[i] != TCC && Rank(PlanOrder[i]) == i
  {
    assert PlanOrder == [SQ, GRBM, TCP, TA, TD, SPI, CPC, CPF, GDS];
    if i == 0 {} else if i == 1 {} else if i == 2 {} else if i == 3 {} else if i == 4 {}
    else if i == 5 {} else if i == 6 {} else if i == 7 {} else {}
  }

  /** The share of pass p among the first k blocks of the plan order. */
  ghost function BlockShare(bk: PmcTable, soc: Soc, p: nat, k: nat, d: Dest): seq<string> {
    if d.Bucket? && d.block != TCC && Rank(d.block) < k then Window(ListAt(bk, d), p, Cap(soc, d.block)) else []
  }

  lemma BlockShareStep(bk: PmcTable, soc: Soc, p: nat, k: nat, d: Dest)
    requires 0 < k <= |PlanOrder|
    ensures BlockShare(bk, soc, p, k, d) == BlockShare(bk, soc, p, k - 1, d) +
      (if d == Bucket(PlanOrder[k - 1]) then Window(ListAt(bk, d), p, Cap(soc, PlanOrder[k - 1])) else [])
  {
    var b := PlanOrder[k - 1];
    RankOfPlanOrder(k - 1);
    if d == Bucket(b) {
      assert BlockShare(bk, soc, p, k - 1, d) == [];
    } else {
      if d.Bucket? && d.block != TCC {
        assert PlanOrder[Rank(d.block)] == d.block;
      }
      ConcatUnit(BlockShare(bk, soc, p, k - 1, d));
    }
  }

  /** Appending counters that all go to e adds them to e's selection and to no other. */
  lemma SelectStep(pre: seq<string>, w: seq<string>, e: Dest, d: Dest, dest: Classifier)
    requires forall c :: c in w ==> dest(c) == Success(e)
    ensures Select(pre + w, d, dest) == Select(pre, d, dest) + (if d == e then w else [])
  {
    SelectAppend(pre, w, d, dest);
    SelectPlaced(w, e, d, dest);
  }

  lemma {:induction false} SelectBlockSlices(bk: PmcTable, soc: Soc, p: nat, k: nat, d: Dest, dest: Classifier)
    requires Placed(bk, dest) && k <= |PlanOrder|
    ensures Select(BlockSlices(bk, soc, p, k), d, dest) == BlockShare(bk, soc, p, k, d)
  {
    if k > 0 {
      var b := PlanOrder[k - 1];
      SelectBlockSlices(bk, soc, p, k - 1, d, dest);
      PlacedWindow(bk, Bucket(b), p, Cap(soc, b), dest);
      SelectStep(BlockSlices(bk, soc, p, k - 1), Window(ListAt(bk, Bucket(b)), p, Cap(soc, b)), Bucket(b), d, dest);
      BlockShareStep(bk, soc, p, k, d);
    }
  }

  /** Channel key k is the key of one of channels 0 .. n-1. */
  ghost predicate KeyBelow(k: string, n: nat) {
    exists ch: nat :: ch < n && k == ChannelKey(ch)
  }

  lemma KeyBelowStep(k: string, n: nat)
    requires n > 0
    ensures KeyBelow(k, n) <==> KeyBelow(k, n - 1) || k == ChannelKey(n - 1)
  {
    if KeyBelow(k, n) && k != ChannelKey(n - 1) {
      var ch: nat :| ch < n && k == ChannelKey(ch);
      assert ch < n - 1;
    }
  }

  /** The share of channel pass j among channels 0 .. k-1. */
  ghost function ChannelShare(bk: PmcTable, soc: Soc, j: nat, k: nat, d: Dest): seq<string> {
    if d.Channel? && KeyBelow(d.key, k) then Window(ListAt(bk, d), j, Cap(soc, TCC)) else []
  }

  lemma ChannelShareStep(bk: PmcTable, soc: Soc, j: nat, k: nat, d: Dest)
    requires k > 0
    ensures ChannelShare(bk, soc, j, k, d) == ChannelShare(bk, soc, j, k - 1, d) +
      (if d == Channel(ChannelKey(k - 1)) then Window(ListAt(bk, d), j, Cap(soc, TCC)) else [])
  {
    if d.Channel? {
      KeyBelowStep(d.key, k);
    }
    if d == Channel(ChannelKey(k - 1)) {
      if KeyBelow(d.key, k - 1) {
        var ch: nat :| ch < k - 1 && d.key == ChannelKey(ch);
        ChannelKeyInjective(ch, k - 1);
      }
      assert ChannelShare(bk, soc, j, k - 1, d) == [];
    } else {
      ConcatUnit(ChannelShare(bk, soc, j, k - 1, d));
    }
  }

  lemma {:induction false} SelectChannelSlices(bk: PmcTable, soc: Soc, j: nat, k: nat, d: Dest, dest: Classifier)
    requires Placed(bk, dest)
    ensures Select(ChannelSlices(bk, soc, j, k), d, dest) == ChannelShare(bk, soc, j, k, d)
  {
    if k > 0 {
      var e := Channel(ChannelKey(k - 1));
      SelectChannelSlices(bk, soc, j, k - 1, d, dest);
      PlacedWindow(bk, e, j, Cap(soc, TCC), dest);
      SelectStep(ChannelSlices(bk, soc, j, k - 1), Window(ListAt(bk, e), j, Cap(soc, TCC)), e, d, dest);
      ChannelShareStep(bk, soc, j, k, d);
    }
  }

  /** The share of pass p in its TCC part: the aggregate window during the aggregate passes,
      the channel windows afterwards. */
  ghost function TccShare(bk: PmcTable, soc: Soc, p: nat, d: Dest): seq<string> {
    var t := AggregatePasses(bk, soc);
    if p < t then (if d == Bucket(TCC) then Window(ListAt(bk, d), p, Cap(soc, TCC)) else [])
    else ChannelShare(bk, soc, p - t, Channels(soc), d)
  }

  lemma SelectTccPart(bk: PmcTable, soc: Soc, p: nat, d: Dest, dest: Classifier)
    requires Placed(bk, dest)
    ensures Select(TccPart(bk, soc, p), d, dest) == TccShare(bk, soc, p, d)
  {
    var t := AggregatePasses(bk, soc);
    if p < t {
      SelectWindow(bk, Bucket(TCC), p, Cap(soc, TCC), d, dest);
    } else {
      SelectChannelSlices(bk, soc, p - t, Channels(soc), d, dest);
    }
  }

  /** A destination's share is its block share followed by its TCC share, one of them empty. */
  lemma ShareSplit(bk: PmcTable, soc: Soc, p: nat, d: Dest)
    ensures Share(bk, soc, p, d) == BlockShare(bk, soc, p, |PlanOrder|, d) + TccShare(bk, soc, p, d)
  {
    var bs := BlockShare(bk, soc, p, |PlanOrder|, d);
    var ts := TccShare(bk, soc, p, d);
    if d.Bucket? && d.block != TCC {
      assert ts == [];
      ConcatUnit(bs);
    } else {
      assert bs == [];
      if d.Channel? {
        assert PlannedKey(d.key, soc) == KeyBelow(d.key, Channels(soc));
      }
    }
  }

  /** Pass p restricted to destination d is exactly d's share: the pass is the blocks' windows
      in plan order followed by the TCC part, and nothing else. */
  lemma PassSelect(bk: PmcTable, soc: Soc, p: nat, d: Dest, dest: Classifier)
    requires Placed(bk, dest)
    ensures Select(PassCounters(bk, soc, p), d, dest) == Share(bk, soc, p, d)
  {
    SelectAppend(BlockSlices(bk, soc, p, |PlanOrder|), TccPart(bk, soc, p), d, dest);
    SelectBlockSlices(bk, soc, p, |PlanOrder|, d, dest);
    SelectTccPart(bk, soc, p, d, dest);
    ShareSplit(bk, soc, p, d);
  }

  // ---------------------------------------------------------------- capacity and separation

  /** Pass p takes at most cap counters of each ordinary block, at most cap_TCC aggregate TCC
      counters and at most cap_TCC counters of each channel: every pass fits the hardware. */
  lemma PassCapacity(bk: PmcTable, soc: Soc, p: nat, d: Dest, dest: Classifier)
    requires Placed(bk, dest)
    ensures |Select(PassCounters(bk, soc, p), d, dest)| <= Cap(soc, if d.Bucket? then d.block else TCC)
  {
    PassSelect(bk, soc, p, d, dest);
    var t := AggregatePasses(bk, soc);
    if d.Channel? && t <= p {
      WindowRules(ListAt(bk, d), p - t, Cap(soc, TCC));
    } else {
      WindowRules(ListAt(bk, d), p, Cap(soc, if d.Bucket? then d.block else TCC));
    }
  }

  /** A pass that samples an aggregate TCC counter samples no per-channel counter. */
  lemma AggregateApart(bk: PmcTable, soc: Soc, p: nat, c1: string, c2: string, dest: Classifier)
    requires Placed(bk, dest)
    requires c1 in PassCounters(bk, soc, p) && dest(c1) == Success(Bucket(TCC))
    requires c2 in PassCounters(bk, soc, p)
    ensures !(dest(c2).Success? && dest(c2).value.Channel?)
  {
    SelectHas(PassCounters(bk, soc, p), c1, Bucket(TCC), dest);
    PassSelect(bk, soc, p, Bucket(TCC), dest);
    if dest(c2).Success? && dest(c2).value.Channel? {
      var d := dest(c2).value;
      SelectHas(PassCounters(bk, soc, p), c2, d, dest);
      PassSelect(bk, soc, p, d, dest);
    }
  }

  /** The aggregate window of pass p is empty exactly from pass T on, so the channel pass index
      (tcc2_index) stays 0 through the aggregate passes and then advances by one per pass. */
  lemma ChannelIndexAdvances(bk: PmcTable, soc: Soc, p: nat)
    ensures Window(BlockList(bk, TCC), p, Cap(soc, TCC)) == [] <==> p >= AggregatePasses(bk, soc)
    ensures ChannelPassIndex(bk, soc, p + 1) ==
      ChannelPassIndex(bk, soc, p) + (if Window(BlockList(bk, TCC), p, Cap(soc, TCC)) == [] then 1 else 0)
  {
    WindowRules(BlockList(bk, TCC), p, Cap(soc, TCC));
  }

  // ---------------------------------------------------------------- where each pass comes from

  lemma {:induction false} BlockSlicesFrom(bk: PmcTable, soc: Soc, p: nat, k: nat, c: string) returns (r: nat)
    requires k <= |PlanOrder| && c in BlockSlices(bk, soc, p, k)
    ensures r < k && c in BlockList(bk, PlanOrder[r])
  {
    var w := Window(BlockList(bk, PlanOrder[k - 1]), p, Cap(soc, PlanOrder[k - 1]));
    assert BlockSlices(bk, soc, p, k) == BlockSlices(bk, soc, p, k - 1) + w;
    if c in w {
      WindowWithin(BlockList(bk, PlanOrder[k - 1]), p, Cap(soc, PlanOrder[k - 1]));
      r := k - 1;
    } else {
      r := BlockSlicesFrom(bk, soc, p, k - 1, c);
    }
  }

  lemma {:induction false} ChannelSlicesFrom(bk: PmcTable, soc: Soc, j: nat, k: nat, c: string) returns (ch: nat)
    requires c in ChannelSlices(bk, soc, j, k)
    ensures ch < k && c in ChannelList(bk, ch)
  {
    var w := Window(ChannelList(bk, k - 1), j, Cap(soc, TCC));
    assert ChannelSlices(bk, soc, j, k) == ChannelSlices(bk, soc, j, k - 1) + w;
    if c in w {
      WindowWithin(ChannelList(bk, k - 1), j, Cap(soc, TCC));
      ch := k - 1;
    } else {
      ch := ChannelSlicesFrom(bk, soc, j, k - 1, c);
    }
  }

  /** Every counter of a pass comes from a list the planner reads and sits there under the
      destination dest gives it. */
  lemma PassOnly(bk: PmcTable, soc: Soc, p: nat, c: string, dest: Classifier)
    requires Placed(bk, dest)
    requires c in PassCounters(bk, soc, p)
    ensures dest(c).Success? && Planned(dest(c).value, soc) && c in ListAt(bk, dest(c).value)
  {
    var t := AggregatePasses(bk, soc);
    var blocks := BlockSlices(bk, soc, p, |PlanOrder|);
    assert c in blocks || c in TccPart(bk, soc, p);
    var d: Dest;
    if c in blocks {
      var r := BlockSlicesFrom(bk, soc, p, |PlanOrder|, c);
      d := Bucket(PlanOrder[r]);
    } else if p < t {
      WindowWithin(BlockList(bk, TCC), p, Cap(soc, TCC));
      d := Bucket(TCC);
    } else {
      var ch := ChannelSlicesFrom(bk, soc, p - t, Channels(soc), c);
      d := Channel(ChannelKey(ch));
      assert PlannedKey(d.key, soc);
    }
    assert c in ListAt(bk, d);
    assert dest(c) == Success(d);
  }

  /** Channels the planner does not visit (keys such as "05", or channel numbers at or past
      TCC_channels) are bucketed but never sampled. */
  lemma UnvisitedChannelDropped(bk: PmcTable, soc: Soc, k: string, c: string, p: nat, dest: Classifier)
    requires Placed(bk, dest)
    requires !PlannedKey(k, soc) && c in ListAt(bk, Channel(k))
    ensures c !in PassCounters(bk, soc, p)
  {
    if c in PassCounters(bk, soc, p) {
      PassOnly(bk, soc, p, c, dest);
    }
  }

  // ---------------------------------------------------------------- coverage exactly once

  /** The pass in which the planner samples the counter at index i of d's list. */
  function PassOf(bk: PmcTable, soc: Soc, d: Dest, i: nat): nat {
    match d
    case Bucket(b) => i / Cap(soc, b)
    case Channel(_) => AggregatePasses(bk, soc) + i / Cap(soc, TCC)
  }

  lemma {:induction false} BlockPassesCover(bk: PmcTable, soc: Soc, k: nat, r: nat)
    requires r < k <= |PlanOrder|
    ensures CeilDiv(|BlockList(bk, PlanOrder[r])|, Cap(soc, PlanOrder[r])) <= BlockPasses(bk, soc, k)
  {
    if r < k - 1 {
      BlockPassesCover(bk, soc, k - 1, r);
    }
  }

  lemma {:induction false} ChannelPassesCover(bk: PmcTable, soc: Soc, k: nat, ch: nat)
    requires ch < k
    ensures CeilDiv(|ChannelList(bk, ch)|, Cap(soc, TCC)) <= ChannelPasses(bk, soc, k)
  {
    if ch < k - 1 {
      ChannelPassesCover(bk, soc, k - 1, ch);
    }
  }

  /** Every counter of every list the planner reads is sampled in exactly one pass, and that
      pass is one of the NumPasses passes. */
  lemma ExactlyOnce(bk: PmcTable, soc: Soc, d: Dest, i: nat, p: nat, dest: Classifier)
    requires Placed(bk, dest) && Distinct(bk)
    requires Planned(d, soc) && i < |ListAt(bk, d)|
    ensures PassOf(bk, soc, d, i) < NumPasses(bk, soc)
    ensures ListAt(bk, d)[i] in PassCounters(bk, soc, p) <==> p == PassOf(bk, soc, d, i)
  {
    var l := ListAt(bk, d);
    assert l[i] in l;
    SelectHas(PassCounters(bk, soc, p), l[i], d, dest);
    PassSelect(bk, soc, p, d, dest);
    assert NoDup(l);
    if d.Bucket? {
      BucketOnce(bk, soc, d.block, i, p);
    } else {
      ChannelOnce(bk, soc, d.key, i, p);
    }
  }

  lemma BucketOnce(bk: PmcTable, soc: Soc, b: Block, i: nat, p: nat)
    requires NoDup(BlockList(bk, b)) && i < |BlockList(bk, b)|
    ensures PassOf(bk, soc, Bucket(b), i) < NumPasses(bk, soc)
    ensures BlockList(bk, b)[i] in Share(bk, soc, p, Bucket(b)) <==> p == PassOf(bk, soc, Bucket(b), i)
  {
    var l := BlockList(bk, b);
    var n := Cap(soc, b);
    WindowMember(l, p, n, i);
    IndexBelowCeil(i, |l|, n);
    if b != TCC {
      BlockPassesCover(bk, soc, |PlanOrder|, Rank(b));
    }
  }

  lemma ChannelOnce(bk: PmcTable, soc: Soc, k: string, i: nat, p: nat)
    requires PlannedKey(k, soc)
    requires NoDup(ListAt(bk, Channel(k))) && i < |ListAt(bk, Channel(k))|
    ensures PassOf(bk, soc, Channel(k), i) < NumPasses(bk, soc)
    ensures ListAt(bk, Channel(k))[i] in Share(bk, soc, p, Channel(k)) <==> p == PassOf(bk, soc, Channel(k), i)
  {
    ChannelPassBound(bk, soc, k, i);
    OffsetMember(ListAt(bk, Channel(k)), AggregatePasses(bk, soc), p, Cap(soc, TCC), i);
  }

  /** Counting windows from pass t on, the counter at index i lies in the window of pass p
      exactly when p is t + i / n. */
  lemma OffsetMember(l: seq<string>, t: nat, p: nat, n: nat, i: nat)
    requires n >= 1 && NoDup(l) && i < |l|
    ensures l[i] in (if t <= p then Window(l, p - t, n) else []) <==> p == t + i / n
  {
    if t <= p {
      WindowMember(l, p - t, n, i);
    }
  }

  lemma ChannelPassBound(bk: PmcTable, soc: Soc, k: string, i: nat)
    requires PlannedKey(k, soc) && i < |ListAt(bk, Channel(k))|
    ensures PassOf(bk, soc, Channel(k), i) < NumPasses(bk, soc)
  {
    var ch: nat :| ch < Channels(soc) && k == ChannelKey(ch);
    var l := ChannelList(bk, ch);
    IndexBelowCeil(i, |l|, Cap(soc, TCC));
    ChannelPassesCover(bk, soc, Channels(soc), ch);
  }

  // ---------------------------------------------------------------- order and duplicates

  /** Position of a destination in a pass: the ordinary blocks in plan order, then TCC and
      its channels. */
  function DestRank(d: Dest): nat {
    match d
    case Bucket(b) => Rank(b)
    case Channel(_) => |PlanOrder|
  }

  function CounterRank(c: string, dest: Classifier): nat {
    match dest(c)
    case Success(d) => DestRank(d)
    case Failure(_) => |PlanOrder| + 1
  }

  ghost predicate Ordered(s: seq<string>, dest: Classifier) {
    forall i, j :: 0 <= i < j < |s| ==> CounterRank(s[i], dest) <= CounterRank(s[j], dest)
  }

  lemma OrderedAppend(a: seq<string>, b: seq<string>, dest: Classifier)
    requires Ordered(a, dest) && Ordered(b, dest)
    requires forall x, y :: x in a && y in b ==> CounterRank(x, dest) <= CounterRank(y, dest)
    ensures Ordered(a + b, dest)
  {
    forall i, j | 0 <= i < j < |a + b| ensures CounterRank((a + b)[i], dest) <= CounterRank((a + b)[j], dest) {
      if i < |a| && j >= |a| {
        assert (a + b)[i] in a && (a + b)[j] in b;
      } else if i >= |a| {
        assert (a + b)[i] == b[i - |a|] && (a + b)[j] == b[j - |a|];
      }
    }
  }

  lemma NoDupAppend(a: seq<string>, b: seq<string>)
    requires NoDup(a) && NoDup(b)
    requires forall x :: x in a ==> x !in b
    ensures NoDup(a + b)
  {
    forall i, j | 0 <= i < j < |a + b| ensures (a + b)[i] != (a + b)[j] {
      if i < |a| && j >= |a| {
        assert (a + b)[i] in a && (a + b)[j] in b;
      } else if i >= |a| {
        assert (a + b)[i] == b[i - |a|] && (a + b)[j] == b[j - |a|];
      }
    }
  }

  lemma WindowNoDup(l: seq<string>, p: nat, n: nat)
    requires n >= 1 && NoDup(l)
    ensures NoDup(Window(l, p, n))
  {
    var w, lo := Window(l, p, n), p * n;
    WindowRules(l, p, n);
    forall i, j | 0 <= i < j < |w| ensures w[i] != w[j] {
      assert w[i] == l[lo + i] && w[j] == l[lo + j];
    }
  }

  /** The window of the block at index r of the plan order holds counters of rank r only. */
  lemma BlockWindowRank(bk: PmcTable, soc: Soc, p: nat, r: nat, dest: Classifier)
    requires Placed(bk, dest) && r < |PlanOrder|
    ensures forall c :: c in Window(BlockList(bk, PlanOrder[r]), p, Cap(soc, PlanOrder[r])) ==> CounterRank(c, dest) == r
  {
    var b := PlanOrder[r];
    RankOfPlanOrder(r);
    PlacedWindow(bk, Bucket(b), p, Cap(soc, b), dest);
  }

  lemma UniformOrdered(w: seq<string>, r: nat, dest: Classifier)
    requires forall c :: c in w ==> CounterRank(c, dest) == r
    ensures Ordered(w, dest)
  {
    forall i, j | 0 <= i < j < |w| ensures CounterRank(w[i], dest) <= CounterRank(w[j], dest) {
      assert w[i] in w && w[j] in w;
    }
  }

  /** Appending counters of rank r to an ordered run of lower ranks keeps it ordered. */
  lemma RankedAppend(pre: seq<string>, w: seq<string>, r: nat, dest: Classifier)
    requires Ordered(pre, dest) && forall c :: c in pre ==> CounterRank(c, dest) < r
    requires forall c :: c in w ==> CounterRank(c, dest) == r
    ensures forall c :: c in pre + w ==> CounterRank(c, dest) < r + 1
    ensures Ordered(pre + w, dest)
  {
    UniformOrdered(w, r, dest);
    OrderedAppend(pre, w, dest);
  }

  /** Appending distinct counters of rank r to distinct counters of lower ranks keeps them distinct. */
  lemma RankedNoDupAppend(pre: seq<string>, w: seq<string>, r: nat, dest: Classifier)
    requires NoDup(pre) && forall c :: c in pre ==> CounterRank(c, dest) < r
    requires NoDup(w) && forall c :: c in w ==> CounterRank(c, dest) == r
    ensures NoDup(pre + w)
  {
    NoDupAppend(pre, w);
  }

  lemma BlockWindowNoDup(bk: PmcTable, soc: Soc, p: nat, r: nat)
    requires Distinct(bk) && r < |PlanOrder|
    ensures NoDup(Window(BlockList(bk, PlanOrder[r]), p, Cap(soc, PlanOrder[r])))
  {
    var b := PlanOrder[r];
    assert NoDup(ListAt(bk, Bucket(b)));
    WindowNoDup(BlockList(bk, b), p, Cap(soc, b));
  }

  lemma {:induction false} BlockSlicesRanked(bk: PmcTable, soc: Soc, p: nat, k: nat, dest: Classifier)
    requires Placed(bk, dest) && k <= |PlanOrder|
    ensures forall c :: c in BlockSlices(bk, soc, p, k) ==> CounterRank(c, dest) < k
    ensures Ordered(BlockSlices(bk, soc, p, k), dest)
  {
    if k > 0 {
      BlockSlicesRanked(bk, soc, p, k - 1, dest);
      BlockWindowRank(bk, soc, p, k - 1, dest);
      RankedAppend(BlockSlices(bk, soc, p, k - 1),
        Window(BlockList(bk, PlanOrder[k - 1]), p, Cap(soc, PlanOrder[k - 1])), k - 1, dest);
    }
  }

  lemma {:induction false} BlockSlicesNoDup(bk: PmcTable, soc: Soc, p: nat, k: nat, dest: Classifier)
    requires Placed(bk, dest) && Distinct(bk) && k <= |PlanOrder|
    ensures NoDup(BlockSlices(bk, soc, p, k))
  {
    if k > 0 {
      BlockSlicesNoDup(bk, soc, p, k - 1, dest);
      BlockSlicesRanked(bk, soc, p, k - 1, dest);
      BlockWindowRank(bk, soc, p, k - 1, dest);
      BlockWindowNoDup(bk, soc, p, k - 1);
      RankedNoDupAppend(BlockSlices(bk, soc, p, k - 1),
        Window(BlockList(bk, PlanOrder[k - 1]), p, Cap(soc, PlanOrder[k - 1])), k - 1, dest);
    }
  }

  lemma {:induction false} ChannelSlicesShape(bk: PmcTable, soc: Soc, j: nat, k: nat, dest: Classifier)
    requires Placed(bk, dest) && Distinct(bk)
    ensures forall c :: c in ChannelSlices(bk, soc, j, k) ==>
      exists ch: nat :: ch < k && dest(c) == Success(Channel(ChannelKey(ch)))
    ensures NoDup(ChannelSlices(bk, soc, j, k))
  {
    if k > 0 {
      var e := Channel(ChannelKey(k - 1));
      var pre := ChannelSlices(bk, soc, j, k - 1);
      var w := Window(ListAt(bk, e), j, Cap(soc, TCC));
      assert ChannelSlices(bk, soc, j, k) == pre + w;
      ChannelSlicesShape(bk, soc, j, k - 1, dest);
      PlacedWindow(bk, e, j, Cap(soc, TCC), dest);
      assert NoDup(ListAt(bk, e));
      WindowNoDup(ListAt(bk, e), j, Cap(soc, TCC));
      forall x | x in pre ensures x !in w {
        var ch: nat :| ch < k - 1 && dest(x) == Success(Channel(ChannelKey(ch)));
        ChannelKeyInjective(ch, k - 1);
      }
      NoDupAppend(pre, w);
    }
  }

  /** Inside a pass the counters come in block order SQ, GRBM, TCP, TA, TD, SPI, CPC, CPF, GDS,
      then TCC or its channels, and no counter comes twice. */
  lemma PassOrderedDistinct(bk: PmcTable, soc: Soc, p: nat, dest: Classifier)
    requires Placed(bk, dest) && Distinct(bk)
    ensures Ordered(PassCounters(bk, soc, p), dest)
    ensures NoDup(PassCounters(bk, soc, p))
  {
    var t := AggregatePasses(bk, soc);
    var blocks := BlockSlices(bk, soc, p, |PlanOrder|);
    var tcc := TccPart(bk, soc, p);
    BlockSlicesRanked(bk, soc, p, |PlanOrder|, dest);
    BlockSlicesNoDup(bk, soc, p, |PlanOrder|, dest);
    if p < t {
      PlacedWindow(bk, Bucket(TCC), p, Cap(soc, TCC), dest);
      assert NoDup(BlockList(bk, TCC));
      WindowNoDup(BlockList(bk, TCC), p, Cap(soc, TCC));
    } else {
      ChannelSlicesShape(bk, soc, p - t, Channels(soc), dest);
    }
    assert forall c :: c in tcc ==> CounterRank(c, dest) == |PlanOrder|;
    OrderedAppend(blocks, tcc, dest);
    NoDupAppend(blocks, tcc);
  }

  // ---------------------------------------------------------------- the pass count

  lemma CeilDivZero(a: nat, n: nat)
    requires n >= 1
    ensures CeilDiv(a, n) == 0 <==> a == 0
  {
    CeilDivBound(a, n, 0);
  }

  lemma {:induction false} BlockPassesZero(bk: PmcTable, soc: Soc, k: nat)
    requires k <= |PlanOrder|
    ensures BlockPasses(bk, soc, k) == 0 <==> forall r :: 0 <= r < k ==> BlockList(bk, PlanOrder[r]) == []
  {
    if k > 0 {
      BlockPassesZero(bk, soc, k - 1);
      var last := BlockList(bk, PlanOrder[k - 1]);
      CeilDivZero(|last|, Cap(soc, PlanOrder[k - 1]));
      assert BlockPasses(bk, soc, k) == 0 <==> BlockPasses(bk, soc, k - 1) == 0 && last == [];
      if BlockPasses(bk, soc, k) == 0 {
        forall r | 0 <= r < k ensures BlockList(bk, PlanOrder[r]) == [] {
          if r < k - 1 {
            assert BlockList(bk, PlanOrder[r]) == [];
          }
        }
      }
    }
  }

  lemma {:induction false} ChannelPassesZero(bk: PmcTable, soc: Soc, k: nat)
    ensures ChannelPasses(bk, soc, k) == 0 <==> forall ch: nat :: ch < k ==> ChannelList(bk, ch) == []
  {
    if k > 0 {
      ChannelPassesZero(bk, soc, k - 1);
      CeilDivZero(|ChannelList(bk, k - 1)|, Cap(soc, TCC));
    }
  }

  /** No pass at all, and an empty batch list, exactly when every bucket and every visited
      channel is empty. */
  lemma NoPassesIffEmpty(bk: PmcTable, soc: Soc)
    ensures NumPasses(bk, soc) == 0 <==>
      (forall b :: ListAt(bk, Bucket(b)) == []) &&
      (forall ch: nat :: ch < Channels(soc) ==> ListAt(bk, Channel(ChannelKey(ch))) == [])
    ensures Plan(bk, soc) == [] <==> NumPasses(bk, soc) == 0
  {
    BlockPassesZero(bk, soc, |PlanOrder|);
    ChannelPassesZero(bk, soc, Channels(soc));
    CeilDivZero(|BlockList(bk, TCC)|, Cap(soc, TCC));
    if NumPasses(bk, soc) == 0 {
      forall b ensures ListAt(bk, Bucket(b)) == [] {
        if b != TCC {
          RankOfPlanOrder(Rank(b));
          assert BlockList(bk, PlanOrder[Rank(b)]) == [];
        } else {
          assert BlockList(bk, TCC) == [];
        }
      }
      forall ch: nat | ch < Channels(soc) ensures ListAt(bk, Channel(ChannelKey(ch))) == [] {
        assert ChannelList(bk, ch) == [];
      }
    } else if forall b :: ListAt(bk, Bucket(b)) == [] {
      forall r | 0 <= r < |PlanOrder| ensures BlockList(bk, PlanOrder[r]) == [] {
        assert ListAt(bk, Bucket(PlanOrder[r])) == [];
      }
      assert BlockList(bk, TCC) == [];
    }
  }

  lemma MaxBelow(a: nat, b: nat, p: nat)
    requires p < Max(a, b) && a <= p
    ensures p < b
  {
  }

  lemma {:induction false} BlockPassesWitness(bk: PmcTable, soc: Soc, k: nat, p: nat) returns (r: nat)
    requires k <= |PlanOrder| && p < BlockPasses(bk, soc, k)
    ensures r < k && p < CeilDiv(|BlockList(bk, PlanOrder[r])|, Cap(soc, PlanOrder[r]))
  {
    if p < BlockPasses(bk, soc, k - 1) {
      r := BlockPassesWitness(bk, soc, k - 1, p);
    } else {
      r := k - 1;
      MaxBelow(BlockPasses(bk, soc, k - 1), CeilDiv(|BlockList(bk, PlanOrder[r])|, Cap(soc, PlanOrder[r])), p);
    }
  }

  lemma {:induction false} ChannelPassesWitness(bk: PmcTable, soc: Soc, k: nat, p: nat) returns (ch: nat)
    requires p < ChannelPasses(bk, soc, k)
    ensures ch < k && p < CeilDiv(|ChannelList(bk, ch)|, Cap(soc, TCC))
  {
    if p < ChannelPasses(bk, soc, k - 1) {
      ch := ChannelPassesWitness(bk, soc, k - 1, p);
    } else {
      ch := k - 1;
    }
  }

  lemma {:induction false} BlockSlicesNonEmpty(bk: PmcTable, soc: Soc, p: nat, k: nat, r: nat)
    requires r < k <= |PlanOrder|
    requires Window(BlockList(bk, PlanOrder[r]), p, Cap(soc, PlanOrder[r])) != []
    ensures BlockSlices(bk, soc, p, k) != []
  {
    if r < k - 1 {
      BlockSlicesNonEmpty(bk, soc, p, k - 1, r);
    }
  }

  lemma {:induction false} ChannelSlicesNonEmpty(bk: PmcTable, soc: Soc, j: nat, k: nat, ch: nat)
    requires ch < k
    requires Window(ChannelList(bk, ch), j, Cap(soc, TCC)) != []
    ensures ChannelSlices(bk, soc, j, k) != []
  {
    if ch < k - 1 {
      ChannelSlicesNonEmpty(bk, soc, j, k - 1, ch);
    }
  }

  lemma BlockPartNonEmpty(bk: PmcTable, soc: Soc, p: nat)
    requires p < BlockPasses(bk, soc, |PlanOrder|)
    ensures BlockSlices(bk, soc, p, |PlanOrder|) != []
  {
    var r := BlockPassesWitness(bk, soc, |PlanOrder|, p);
    WindowRules(BlockList(bk, PlanOrder[r]), p, Cap(soc, PlanOrder[r]));
    BlockSlicesNonEmpty(bk, soc, p, |PlanOrder|, r);
  }

  lemma TccPartNonEmpty(bk: PmcTable, soc: Soc, p: nat)
    requires p < AggregatePasses(bk, soc) + ChannelPasses(bk, soc, Channels(soc))
    ensures TccPart(bk, soc, p) != []
  {
    var t := AggregatePasses(bk, soc);
    if p < t {
      WindowRules(BlockList(bk, TCC), p, Cap(soc, TCC));
    } else {
      var ch := ChannelPassesWitness(bk, soc, Channels(soc), p - t);
      WindowRules(ChannelList(bk, ch), p - t, Cap(soc, TCC));
      ChannelSlicesNonEmpty(bk, soc, p - t, Channels(soc), ch);
    }
  }

  /** No pass is wasted: each of the NumPasses passes samples at least one counter. */
  lemma PassNonEmpty(bk: PmcTable, soc: Soc, p: nat)
    requires p < NumPasses(bk, soc)
    ensures PassCounters(bk, soc, p) != []
  {
    if p < BlockPasses(bk, soc, |PlanOrder|) {
      BlockPartNonEmpty(bk, soc, p);
    } else {
      TccPartNonEmpty(bk, soc, p);
    }
  }

  // ---------------------------------------------------------------- the batches themselves

  /** Every counter in the table is a single token: what coalescing produces (CoalescedWords). */
  ghost predicate Tokens(bk: PmcTable) {
    forall d, c :: c in ListAt(bk, d) ==> IsWord(c)
  }

  /** For a table of single tokens, splitting the `pmc:` line of each pass gives back exactly the
      counters of that pass: the batches perfmon_emit returns are the passes, one per pass. */
  lemma PlanIsPasses(bk: PmcTable, soc: Soc, dest: Classifier)
    requires Placed(bk, dest) && Tokens(bk)
    ensures |Plan(bk, soc)| == NumPasses(bk, soc)
    ensures forall p :: 0 <= p < NumPasses(bk, soc) ==> Plan(bk, soc)[p] == PassCounters(bk, soc, p)
  {
    forall p | 0 <= p < NumPasses(bk, soc) ensures Plan(bk, soc)[p] == PassCounters(bk, soc, p) {
      var pc := PassCounters(bk, soc, p);
      forall i | 0 <= i < |pc| ensures IsWord(pc[i]) {
        PassOnly(bk, soc, p, pc[i], dest);
      }
      SplitJoin(pc);
    }
  }

  /** In the batches returned for a table of single tokens, every counter of every list the
      planner reads lies in exactly one batch. */
  lemma PlanExactlyOnce(bk: PmcTable, soc: Soc, d: Dest, i: nat, dest: Classifier)
    requires Placed(bk, dest) && Distinct(bk) && Tokens(bk)
    requires Planned(d, soc) && i < |ListAt(bk, d)|
    ensures PassOf(bk, soc, d, i) < |Plan(bk, soc)|
    ensures forall p :: 0 <= p < |Plan(bk, soc)| ==>
      (ListAt(bk, d)[i] in Plan(bk, soc)[p] <==> p == PassOf(bk, soc, d, i))
  {
    PlanIsPasses(bk, soc, dest);
    forall p | 0 <= p < |Plan(bk, soc)|
      ensures ListAt(bk, d)[i] in Plan(bk, soc)[p] <==> p == PassOf(bk, soc, d, i)
    {
      ExactlyOnce(bk, soc, d, i, p, dest);
    }
    ExactlyOnce(bk, soc, d, i, 0, dest);
  }

  // ---------------------------------------------------------------- no schedule needs fewer passes

  /** Every counter of every list the planner reads is in some pass of plan. */
  ghost predicate Covers(bk: PmcTable, soc: Soc, plan: seq<seq<string>>) {
    forall d, c :: Planned(d, soc) && c in ListAt(bk, d) ==> exists p :: 0 <= p < |plan| && c in plan[p]
  }

  /** No pass of plan holds more than n counters that dest sends to d. */
  ghost predicate Fits(plan: seq<seq<string>>, d: Dest, dest: Classifier, n: nat) {
    forall p :: 0 <= p < |plan| ==> |Select(plan[p], d, dest)| <= n
  }

  /** No pass of plan samples an aggregate TCC counter together with a per-channel one. */
  ghost predicate Apart(plan: seq<seq<string>>, dest: Classifier) {
    forall p, c1, c2 :: 0 <= p < |plan| && c1 in plan[p] && c2 in plan[p] && dest(c1) == Success(Bucket(TCC)) ==>
      !(dest(c2).Success? && dest(c2).value.Channel?)
  }

  /** A schedule that would serve as well as the planner's: it covers the lists the planner
      reads, every pass fits the capacities PassCapacity states, and it keeps aggregate and
      per-channel TCC counters apart as AggregateApart states. */
  ghost predicate Feasible(bk: PmcTable, soc: Soc, plan: seq<seq<string>>, dest: Classifier) {
    Covers(bk, soc, plan) &&
    (forall d: Dest :: Fits(plan, d, dest, Cap(soc, if d.Bucket? then d.block else TCC))) &&
    Apart(plan, dest)
  }

  /** The counters of the passes of plan, pass after pass. */
  function Flatten(plan: seq<seq<string>>): seq<string> {
    if plan == [] then [] else Flatten(plan[..|plan| - 1]) + plan[|plan| - 1]
  }

  /** How many passes of plan sample at least one counter of destination d. */
  ghost function Touching(plan: seq<seq<string>>, d: Dest, dest: Classifier): nat {
    if plan == [] then 0
    else Touching(plan[..|plan| - 1], d, dest) + (if Select(plan[|plan| - 1], d, dest) == [] then 0 else 1)
  }

  /** Select keeps only counters of s that dest sends to d, and nothing when there are none. */
  lemma {:induction false} SelectFrom(s: seq<string>, d: Dest, dest: Classifier)
    ensures forall c :: c in Select(s, d, dest) ==> c in s && dest(c) == Success(d)
    ensures (forall c :: c in s ==> dest(c) != Success(d)) ==> Select(s, d, dest) == []
    decreases |s|
  {
    if s != [] {
      var init := s[..|s| - 1];
      SelectFrom(init, d, dest);
      assert s == init + [s[|s| - 1]];
    }
  }

  lemma {:induction false} InFlatten(plan: seq<seq<string>>, p: nat, c: string)
    requires p < |plan| && c in plan[p]
    ensures c in Flatten(plan)
    decreases |plan|
  {
    if p < |plan| - 1 {
      InFlatten(plan[..|plan| - 1], p, c);
    }
  }

  /** Passes of at most n counters of d each hold at most n counters of d per pass that
      touches d. */
  lemma {:induction false} FlattenBound(plan: seq<seq<string>>, d: Dest, dest: Classifier, n: nat)
    requires Fits(plan, d, dest, n)
    ensures |Select(Flatten(plan), d, dest)| <= Touching(plan, d, dest) * n
    ensures Touching(plan, d, dest) <= |plan|
    decreases |plan|
  {
    if plan != [] {
      var init, last := plan[..|plan| - 1], plan[|plan| - 1];
      FlattenBound(init, d, dest, n);
      SelectAppend(Flatten(init), last, d, dest);
      assert (Touching(init, d, dest) + 1) * n == Touching(init, d, dest) * n + n;
    }
  }

  /** When no pass mixes them, the passes touching the aggregate TCC bucket and those touching a
      channel are different passes. */
  lemma {:induction false} TouchingApart(plan: seq<seq<string>>, key: string, dest: Classifier)
    requires Apart(plan, dest)
    ensures Touching(plan, Bucket(TCC), dest) + Touching(plan, Channel(key), dest) <= |plan|
    decreases |plan|
  {
    if plan != [] {
      var init, last := plan[..|plan| - 1], plan[|plan| - 1];
      TouchingApart(init, key, dest);
      if Select(last, Bucket(TCC), dest) != [] {
        var c1 := Select(last, Bucket(TCC), dest)[0];
        SelectFrom(last, Bucket(TCC), dest);
        assert c1 in plan[|plan| - 1];
        SelectFrom(last, Channel(key), dest);
      }
    }
  }

  lemma {:induction false} NoDupCard(l: seq<string>)
    requires NoDup(l)
    ensures |set c | c in l| == |l|
    decreases |l|
  {
    if l != [] {
      var init := l[..|l| - 1];
      NoDupCard(init);
      assert l == init + [l[|l| - 1]];
      assert (set c | c in l) == (set c | c in init) + {l[|l| - 1]};
    }
  }

  lemma {:induction false} SeqSetCard(m: seq<string>)
    ensures |set c | c in m| <= |m|
    decreases |m|
  {
    if m != [] {
      var init := m[..|m| - 1];
      SeqSetCard(init);
      assert m == init + [m[|m| - 1]];
      assert (set c | c in m) == (set c | c in init) + {m[|m| - 1]};
    }
  }

  lemma SubsetCard(a: set<string>, b: set<string>)
    requires a <= b
    ensures |a| <= |b|
  {
    assert b == a + (b - a);
    assert a * (b - a) == {};
  }

  /** A list without repetition all of whose elements occur in m is no longer than m. */
  lemma NoDupWithin(l: seq<string>, m: seq<string>)
    requires NoDup(l) && forall c :: c in l ==> c in m
    ensures |l| <= |m|
  {
    NoDupCard(l);
    SeqSetCard(m);
    SubsetCard(set c | c in l, set c | c in m);
  }

  /** A feasible schedule holds every counter of a list the planner reads. */
  lemma ListWithin(bk: PmcTable, soc: Soc, plan: seq<seq<string>>, d: Dest, dest: Classifier)
    requires Placed(bk, dest) && Distinct(bk) && Covers(bk, soc, plan) && Planned(d, soc)
    ensures |ListAt(bk, d)| <= |Select(Flatten(plan), d, dest)|
  {
    var l := ListAt(bk, d);
    forall c | c in l ensures c in Select(Flatten(plan), d, dest) {
      var p :| 0 <= p < |plan| && c in plan[p];
      InFlatten(plan, p, c);
      SelectHas(Flatten(plan), c, d, dest);
    }
    assert NoDup(l);
    NoDupWithin(l, Select(Flatten(plan), d, dest));
  }

  lemma CeilDivAtMost(a: nat, n: nat, k: nat)
    requires n >= 1 && a <= k * n
    ensures CeilDiv(a, n) <= k
  {
    CeilDivBound(a, n, k);
  }

  lemma {:induction false} BlockPassesAtMost(bk: PmcTable, soc: Soc, n: nat, k: nat)
    requires n <= |PlanOrder|
    requires forall r :: 0 <= r < n ==> CeilDiv(|BlockList(bk, PlanOrder[r])|, Cap(soc, PlanOrder[r])) <= k
    ensures BlockPasses(bk, soc, n) <= k
  {
    if n > 0 {
      BlockPassesAtMost(bk, soc, n - 1, k);
    }
  }

  lemma {:induction false} ChannelPassesAtMost(bk: PmcTable, soc: Soc, n: nat, k: nat)
    requires forall ch: nat :: ch < n ==> CeilDiv(|ChannelList(bk, ch)|, Cap(soc, TCC)) <= k
    ensures ChannelPasses(bk, soc, n) <= k
  {
    if n > 0 {
      ChannelPassesAtMost(bk, soc, n - 1, k);
    }
  }

  /** In a feasible schedule, a list the planner reads needs at most cap of its counters in each
      pass that touches it. */
  lemma ListBound(bk: PmcTable, soc: Soc, plan: seq<seq<string>>, d: Dest, dest: Classifier)
    requires Placed(bk, dest) && Distinct(bk) && Feasible(bk, soc, plan, dest) && Planned(d, soc)
    ensures |ListAt(bk, d)| <= Touching(plan, d, dest) * Cap(soc, if d.Bucket? then d.block else TCC)
    ensures Touching(plan, d, dest) <= |plan|
  {
    ListWithin(bk, soc, plan, d, dest);
    var n := Cap(soc, if d.Bucket? then d.block else TCC);
    assert Fits(plan, d, dest, n);
    FlattenBound(plan, d, dest, n);
  }

  /** A feasible schedule has at least ceil(len / cap) passes for the list of each block. */
  lemma BlockAtMost(bk: PmcTable, soc: Soc, plan: seq<seq<string>>, b: Block, dest: Classifier)
    requires Placed(bk, dest) && Distinct(bk) && Feasible(bk, soc, plan, dest)
    ensures CeilDiv(|BlockList(bk, b)|, Cap(soc, b)) <= Touching(plan, Bucket(b), dest) <= |plan|
  {
    ListBound(bk, soc, plan, Bucket(b), dest);
    CeilDivAtMost(|BlockList(bk, b)|, Cap(soc, b), Touching(plan, Bucket(b), dest));
  }

  /** A feasible schedule has, besides the passes touching the aggregate TCC bucket, at least
      ceil(len / cap_TCC) passes for the list of each visited channel. */
  lemma ChannelAtMost(bk: PmcTable, soc: Soc, plan: seq<seq<string>>, ch: nat, dest: Classifier)
    requires Placed(bk, dest) && Distinct(bk) && Feasible(bk, soc, plan, dest) && ch < Channels(soc)
    ensures CeilDiv(|ChannelList(bk, ch)|, Cap(soc, TCC)) <= |plan| - Touching(plan, Bucket(TCC), dest)
  {
    var d := Channel(ChannelKey(ch));
    assert PlannedKey(ChannelKey(ch), soc);
    ListBound(bk, soc, plan, d, dest);
    TouchingApart(plan, ChannelKey(ch), dest);
    var t := |plan| - Touching(plan, Bucket(TCC), dest);
    MulLe(Touching(plan, d, dest), t, Cap(soc, TCC));
    CeilDivAtMost(|ChannelList(bk, ch)|, Cap(soc, TCC), t);
  }

  /** The pass count is the least possible: every schedule that samples each counter the
      planner reads, fits every pass into the hardware and keeps aggregate and per-channel TCC
      counters in different passes has at least NumPasses passes. */
  lemma NoFewerPasses(bk: PmcTable, soc: Soc, plan: seq<seq<string>>, dest: Classifier)
    requires Placed(bk, dest) && Distinct(bk) && Feasible(bk, soc, plan, dest)
    ensures NumPasses(bk, soc) <= |plan|
  {
    var k := |plan|;
    forall r | 0 <= r < |PlanOrder|
      ensures CeilDiv(|BlockList(bk, PlanOrder[r])|, Cap(soc, PlanOrder[r])) <= k
    {
      BlockAtMost(bk, soc, plan, PlanOrder[r], dest);
    }
    BlockPassesAtMost(bk, soc, |PlanOrder|, k);
    BlockAtMost(bk, soc, plan, TCC, dest);
    var a := Touching(plan, Bucket(TCC), dest);
    forall ch: nat | ch < Channels(soc) ensures CeilDiv(|ChannelList(bk, ch)|, Cap(soc, TCC)) <= k - a {
      ChannelAtMost(bk, soc, plan, ch, dest);
    }
    ChannelPassesAtMost(bk, soc, Channels(soc), k - a);
  }

  /** The batches returned for a table of single tokens form a feasible schedule of NumPasses
      passes, so with NoFewerPasses the pass count is exactly the least one. */
  lemma PlanFeasible(bk: PmcTable, soc: Soc, dest: Classifier)
    requires Placed(bk, dest) && Distinct(bk) && Tokens(bk)
    ensures Feasible(bk, soc, Plan(bk, soc), dest) && |Plan(bk, soc)| == NumPasses(bk, soc)
  {
    var plan := Plan(bk, soc);
    PlanIsPasses(bk, soc, dest);
    forall d, c | Planned(d, soc) && c in ListAt(bk, d) ensures exists p :: 0 <= p < |plan| && c in plan[p] {
      var i :| 0 <= i < |ListAt(bk, d)| && ListAt(bk, d)[i] == c;
      PlanExactlyOnce(bk, soc, d, i, dest);
      assert c in plan[PassOf(bk, soc, d, i)];
    }
    forall d: Dest ensures Fits(plan, d, dest, Cap(soc, if d.Bucket? then d.block else TCC)) {
      forall p | 0 <= p < |plan| ensures |Select(plan[p], d, dest)| <= Cap(soc, if d.Bucket? then d.block else TCC) {
        PassCapacity(bk, soc, p, d, dest);
      }
    }
    forall p, c1, c2 | 0 <= p < |plan| && c1 in plan[p] && c2 in plan[p] && dest(c1) == Success(Bucket(TCC))
      ensures !(dest(c2).Success? && dest(c2).value.Channel?)
    {
      AggregateApart(bk, soc, p, c1, c2, dest);
    }
  }
}
