/** The counter bucket table (`pmc_list`) and the classifier that fills it
    (`update_pmc_bucket`). */
module Buckets {
  import opened Wrappers
  import opened Strings
  import opened Capacity

  /** The counter that marks a line as a "level" line. */
  const Sentinel: string := "SQ_ACCUM_PREV_HIRES"

  datatype ClassifyError =
    | UnknownBlock(counter: string)      // pmc_list[IP_block] raises KeyError
    | ChannelTableBlock(counter: string) // IP_block "TCC2" names the channel dict: .append fails

  datatype BucketError =
    | MissingContext                     // ValueError: save_file without stext / workload_perfmon_dir
    | Unclassified(cause: ClassifyError)

  /** Where a counter goes: an ordinary bucket (TCC being the aggregate one) or a TCC channel,
      keyed by the digits of its `[n]` suffix exactly as written. */
  datatype Dest = Bucket(block: Block) | Channel(key: string)

  /** A definition file written to the perfmon directory: its path and its `pmc:` line
      (the fixed `gpu:` / `range:` / `kernel:` trailer is implied). */
  datatype PlanFile = PlanFile(path: string, pmcLine: string)

  // ---------------------------------------------------------------- classification

  /** The upper-cased text of a counter before its first `_`, with SQC folded into SQ. */
  function BlockPrefix(c: string): string {
    var p := Upper(Before(c, '_'));
    if p == "SQC" then "SQ" else p
  }

  /** End of the run of decimal digits that starts at i. */
  function DigitRunEnd(c: string, i: nat): (j: nat)
    requires i <= |c|
    ensures i <= j <= |c|
    ensures forall k :: i <= k < j ==> IsDigit(c[k])
    ensures j < |c| ==> !IsDigit(c[j])
    decreases |c| - i
  {
    if i < |c| && IsDigit(c[i]) then DigitRunEnd(c, i + 1) else i
  }

  /** At position p (not the first character) stands `[`, one or more digits and `]`. */
  predicate BracketAt(c: string, p: nat) {
    1 <= p < |c| && c[p] == '[' &&
    var j := DigitRunEnd(c, p + 1); p + 1 < j < |c| && c[j] == ']'
  }

  /** The last position below hi where a bracket group stands. */
  function LastBracket(c: string, hi: nat): (r: Option<nat>)
    requires hi <= |c|
    ensures r.Some? ==> r.value < hi && BracketAt(c, r.value)
    ensures r.Some? ==> forall q: nat :: r.value < q < hi ==> !BracketAt(c, q)
    ensures r.None? ==> forall q: nat :: q < hi ==> !BracketAt(c, q)
  {
    if hi == 0 then None
    else if BracketAt(c, hi - 1) then Some(hi - 1)
    else LastBracket(c, hi - 1)
  }

  /** The channel digits of a TCC counter: one or more characters, then `[digits]`. The greedy
      prefix makes the match settle on the LAST bracket group that has at least one character before it; no anchoring at the end. */
  function ChannelOf(c: string): (r: Option<string>)
    ensures r.Some? ==> r.value != [] && forall i :: 0 <= i < |r.value| ==> IsDigit(r.value[i])
    ensures r.Some? ==> exists p: nat :: BracketAt(c, p) && c[p + 1..DigitRunEnd(c, p + 1)] == r.value
                                         && forall q: nat :: p < q < |c| ==> !BracketAt(c, q)
    ensures r.None? <==> forall p: nat :: !BracketAt(c, p)
  {
    match LastBracket(c, |c|)
    case None => None
    case Some(p) => Some(c[p + 1..DigitRunEnd(c, p + 1)])
  }

  /** The bucket update_pmc_bucket sends a counter to, or the error it raises. */
  function Destination(c: string): Result<Dest, ClassifyError> {
    var name := BlockPrefix(c);
    if name == "TCC2" then Failure(ChannelTableBlock(c))
    else
      match BlockNamed(name)
      case None => Failure(UnknownBlock(c))
      case Some(b) =>
        if b != TCC then Success(Bucket(b))
        else
          match ChannelOf(c)
          case None => Success(Bucket(TCC))
          case Some(k) => Success(Channel(k))
  }

  /** The classification rules, stated on the raw upper-cased prefix: an ordinary block by its
      name (SQC counting as SQ), TCC split by the presence of a `[n]` suffix, anything else an error. */
  lemma ClassifyCounter(c: string)
    ensures var p := Upper(Before(c, '_'));
      forall b :: b != TCC ==>
        (Destination(c) == Success(Bucket(b)) <==> p == BlockName(b) || (b == SQ && p == "SQC"))
    ensures var p := Upper(Before(c, '_'));
      Destination(c) == Success(Bucket(TCC)) <==> p == "TCC" && ChannelOf(c).None?
    ensures var p := Upper(Before(c, '_'));
      forall k :: Destination(c) == Success(Channel(k)) <==> p == "TCC" && ChannelOf(c) == Some(k)
    ensures var p := Upper(Before(c, '_'));
      Destination(c).Failure? <==>
        p !in {"SQ", "SQC", "GRBM", "TCP", "TA", "TD", "TCC", "SPI", "CPC", "CPF", "GDS"}
  {
    var p := Upper(Before(c, '_'));
    if p == "SQC" {
      assert BlockPrefix(c) == "SQ" && BlockNamed("SQ") == Some(SQ);
      assert Destination(c) == Success(Bucket(SQ));
    } else {
      assert BlockPrefix(c) == p;
      if p == "TCC2" {
        assert BlockNamed(p).None?;
      }
    }
  }

  // ---------------------------------------------------------------- the table as a value

  datatype PmcTable = PmcTable(blocks: map<Block, seq<string>>, channels: map<string, seq<string>>)

  /** The list a destination names (a channel that does not exist yet reads as empty). */
  function ListAt(bk: PmcTable, d: Dest): seq<string> {
    match d
    case Bucket(b) => if b in bk.blocks then bk.blocks[b] else []
    case Channel(k) => if k in bk.channels then bk.channels[k] else []
  }

  /** Replace (or create) the list a destination names. */
  function Put(bk: PmcTable, d: Dest, l: seq<string>): (r: PmcTable)
    ensures ListAt(r, d) == l
    ensures forall e :: e != d ==> ListAt(r, e) == ListAt(bk, e)
    ensures r.blocks.Keys == bk.blocks.Keys + (if d.Bucket? then {d.block} else {})
    ensures r.channels.Keys == bk.channels.Keys + (if d.Channel? then {d.key} else {})
  {
    match d
    case Bucket(b) => bk.(blocks := bk.blocks[b := l])
    case Channel(k) => bk.(channels := bk.channels[k := l])
  }

  /** str(ch): the key of TCC channel ch in the channel table. */
  function ChannelKey(ch: nat): string {
    Decimal(ch)
  }

  lemma ChannelKeyInjective(a: nat, b: nat)
    ensures ChannelKey(a) == ChannelKey(b) ==> a == b
  {
    if ChannelKey(a) == ChannelKey(b) { DecimalInjective(a, b); }
  }

  ghost predicate Complete(bk: PmcTable) {
    forall b: Block :: b in bk.blocks
  }

  /** Channels 0 .. n-1 exist, keyed str(ch). */
  ghost predicate HasChannels(bk: PmcTable, n: nat) {
    forall ch: nat :: ch < n ==> ChannelKey(ch) in bk.channels
  }

  /** Every counter sits in the list its own name selects. */
  ghost predicate WellPlaced(bk: PmcTable) {
    forall d, c :: c in ListAt(bk, d) ==> Destination(c) == Success(d)
  }

  /** No list holds a counter twice. */
  ghost predicate Distinct(bk: PmcTable) {
    forall d :: NoDup(ListAt(bk, d))
  }

  /** Every bucket and channels 0 .. TCC_channels-1 exist: no lookup the code does can fail. */
  ghost predicate Shaped(bk: PmcTable, soc: Soc) {
    Complete(bk) && HasChannels(bk, Channels(soc))
  }

  ghost predicate WellFormed(bk: PmcTable, soc: Soc) {
    Shaped(bk, soc) && WellPlaced(bk) && Distinct(bk)
  }

  /** The ten ordinary buckets, every one empty. */
  function EmptyBuckets(): (m: map<Block, seq<string>>)
    ensures forall b: Block :: b in m && m[b] == []
  {
    assert forall b: Block :: b in AllBlocks by { forall b: Block { EveryBlock(b); } }
    map b: Block | b in AllBlocks :: []
  }

  /** The channel table "0" .. str(n - 1), every channel empty. */
  function EmptyChannels(n: nat): (m: map<string, seq<string>>)
    ensures forall ch: nat :: ch < n ==> ChannelKey(ch) in m
    ensures forall k :: k in m ==> m[k] == []
  {
    if n == 0 then map[] else EmptyChannels(n - 1)[ChannelKey(n - 1) := []]
  }

  /** The table update_pmc_bucket / perfmon_coalesce start from: ten empty buckets and the
      SoC's channels "0" .. str(TCC_channels - 1), all empty. */
  function Empty(soc: Soc): (bk: PmcTable)
    ensures forall d :: ListAt(bk, d) == []
    ensures WellFormed(bk, soc)
  {
    PmcTable(EmptyBuckets(), EmptyChannels(Channels(soc)))
  }

  /** One iteration of the classification loop: put c in its list unless it is already there
      (a channel seen for the first time gets the list [c]). */
  function Add(bk: PmcTable, c: string): Result<PmcTable, ClassifyError> {
    match Destination(c)
    case Failure(e) => Failure(e)
    case Success(d) => Success(if c in ListAt(bk, d) then bk else Put(bk, d, ListAt(bk, d) + [c]))
  }

  /** Classifying a counter fails exactly when its name selects no bucket; otherwise only its
      destination list can change, it grows by c only if c was absent, and a channel key is created
      only for c's own channel. Classifying a counter already present changes nothing. */
  lemma AddEffect(bk: PmcTable, c: string)
    ensures Add(bk, c).Failure? <==> Destination(c).Failure?
    ensures Add(bk, c).Success? ==>
      var bk' := Add(bk, c).value;
      var d := Destination(c).value;
      && ListAt(bk', d) == (if c in ListAt(bk, d) then ListAt(bk, d) else ListAt(bk, d) + [c])
      && (forall e :: e != d ==> ListAt(bk', e) == ListAt(bk, e))
      && bk.blocks.Keys <= bk'.blocks.Keys
      && (forall k :: k in bk'.channels <==> k in bk.channels || d == Channel(k))
      && (c in ListAt(bk, d) ==> bk' == bk)
  {
  }

  /** Classification keeps the table well formed: no duplicates, every counter in its own list,
      every bucket and channel still present. */
  lemma AddWellFormed(bk: PmcTable, soc: Soc, c: string)
    requires WellFormed(bk, soc) && Add(bk, c).Success?
    ensures WellFormed(Add(bk, c).value, soc)
  {
    var bk' := Add(bk, c).value;
    var d := Destination(c).value;
    AddEffect(bk, c);
    forall e, x | x in ListAt(bk', e) ensures Destination(x) == Success(e) {
      if e != d || x != c {
        assert x in ListAt(bk, e);
      }
    }
    forall e ensures NoDup(ListAt(bk', e)) {
      if e == d && c !in ListAt(bk, d) {
        assert NoDup(ListAt(bk, d));
      } else {
        assert ListAt(bk', e) == ListAt(bk, e);
      }
    }
  }

  /** Folding classification over a token list, stopping at the first counter that raises. */
  datatype Fold = Fold(bk: PmcTable, failed: Option<ClassifyError>)

  function AddAll(bk: PmcTable, cs: seq<string>): Fold
    decreases |cs|
  {
    if cs == [] then Fold(bk, None)
    else
      var f := AddAll(bk, cs[..|cs| - 1]);
      if f.failed.Some? then f
      else
        match Add(f.bk, cs[|cs| - 1])
        case Failure(e) => Fold(f.bk, Some(e))
        case Success(bk') => Fold(bk', None)
  }

  /** Once a token has raised, the rest of the line is never looked at. */
  lemma {:induction false} AddAllStops(bk: PmcTable, cs: seq<string>, k: nat)
    requires k <= |cs| && AddAll(bk, cs[..k]).failed.Some?
    ensures AddAll(bk, cs) == AddAll(bk, cs[..k])
    decreases |cs| - k
  {
    if k < |cs| {
      var pre := cs[..k + 1];
      assert pre[..|pre| - 1] == cs[..k];
      assert AddAll(bk, pre) == AddAll(bk, cs[..k]);
      AddAllStops(bk, cs, k + 1);
    } else {
      assert cs[..k] == cs;
    }
  }

  lemma {:induction false} AddAllWellFormed(bk: PmcTable, soc: Soc, cs: seq<string>)
    requires WellFormed(bk, soc)
    ensures WellFormed(AddAll(bk, cs).bk, soc)
    decreases |cs|
  {
    if cs != [] {
      AddAllWellFormed(bk, soc, cs[..|cs| - 1]);
      var f := AddAll(bk, cs[..|cs| - 1]);
      if f.failed.None? && Add(f.bk, cs[|cs| - 1]).Success? {
        AddWellFormed(f.bk, soc, cs[|cs| - 1]);
      }
    }
  }

  /** Nothing already in the table is lost, even when a token raises. */
  lemma {:induction false} AddAllKeeps(bk: PmcTable, cs: seq<string>)
    ensures forall d, c :: c in ListAt(bk, d) ==> c in ListAt(AddAll(bk, cs).bk, d)
    decreases |cs|
  {
    if cs != [] {
      var f := AddAll(bk, cs[..|cs| - 1]);
      AddAllKeeps(bk, cs[..|cs| - 1]);
      AddEffect(f.bk, cs[|cs| - 1]);
    }
  }

  /** Every token that was classified without error is afterwards in its destination list,
      and nothing that was already in the table is lost. */
  lemma {:induction false} AddAllCovers(bk: PmcTable, cs: seq<string>)
    requires AddAll(bk, cs).failed.None?
    ensures forall i :: 0 <= i < |cs| ==>
      Destination(cs[i]).Success? && cs[i] in ListAt(AddAll(bk, cs).bk, Destination(cs[i]).value)
    ensures forall d, c :: c in ListAt(bk, d) ==> c in ListAt(AddAll(bk, cs).bk, d)
    decreases |cs|
  {
    if cs != [] {
      var init := cs[..|cs| - 1];
      AddAllCovers(bk, init);
      var f := AddAll(bk, init);
      var c := cs[|cs| - 1];
      AddEffect(f.bk, c);
      var bk' := AddAll(bk, cs).bk;
      forall d, x | x in ListAt(f.bk, d) ensures x in ListAt(bk', d) {
        if d == Destination(c).value && x !in ListAt(f.bk, d) { }
      }
      forall i | 0 <= i < |cs|
        ensures Destination(cs[i]).Success? && cs[i] in ListAt(bk', Destination(cs[i]).value)
      {
        if i < |cs| - 1 { assert cs[i] == init[i]; }
      }
    }
  }

  /** When the whole line classifies, the table afterwards holds exactly what it held before
      plus the line's tokens: nothing else enters any list. */
  lemma {:induction false} AddAllOnly(bk: PmcTable, cs: seq<string>)
    ensures forall d, c :: c in ListAt(AddAll(bk, cs).bk, d) ==> c in ListAt(bk, d) || c in cs
    decreases |cs|
  {
    if cs != [] {
      var init := cs[..|cs| - 1];
      AddAllOnly(bk, init);
      var f := AddAll(bk, init);
      var last := cs[|cs| - 1];
      assert cs == init + [last];
      if f.failed.None? {
        AddEffect(f.bk, last);
      }
    }
  }

  // ---------------------------------------------------------------- channel sort

  /** Sort channels 0 .. n-1 in place, as the closing loop of update_pmc_bucket /
      perfmon_coalesce does. */
  function SortChannels(bk: PmcTable, n: nat): (r: PmcTable)
    ensures r.blocks == bk.blocks && bk.channels.Keys <= r.channels.Keys
    ensures HasChannels(bk, n) ==> r.channels.Keys == bk.channels.Keys
    decreases n
  {
    if n == 0 then bk
    else
      var r := SortChannels(bk, n - 1);
      var d := Channel(ChannelKey(n - 1));
      Put(r, d, Sort(ListAt(r, d)))
  }

  /** The sort touches nothing but channels 0 .. n-1. */
  lemma {:induction false} SortChannelsFrameAt(bk: PmcTable, n: nat, d: Dest)
    requires forall ch: nat :: ch < n ==> d != Channel(ChannelKey(ch))
    ensures ListAt(SortChannels(bk, n), d) == ListAt(bk, d)
    decreases n
  {
    if n > 0 {
      SortChannelsFrameAt(bk, n - 1, d);
    }
  }

  lemma SortChannelsFrame(bk: PmcTable, n: nat)
    ensures forall d :: (forall ch: nat :: ch < n ==> d != Channel(ChannelKey(ch))) ==>
      ListAt(SortChannels(bk, n), d) == ListAt(bk, d)
  {
    forall d | forall ch: nat :: ch < n ==> d != Channel(ChannelKey(ch)) {
      SortChannelsFrameAt(bk, n, d);
    }
  }

  /** After the sort, each of channels 0 .. n-1 holds the sorted version of its old list. */
  lemma {:induction false} SortChannelsEffect(bk: PmcTable, n: nat)
    ensures forall ch: nat :: ch < n ==>
      ListAt(SortChannels(bk, n), Channel(ChannelKey(ch))) == Sort(ListAt(bk, Channel(ChannelKey(ch))))
    decreases n
  {
    if n > 0 {
      SortChannelsEffect(bk, n - 1);
      var r := SortChannels(bk, n - 1);
      var last := Channel(ChannelKey(n - 1));
      forall ch: nat | ch < n - 1 ensures last != Channel(ChannelKey(ch)) {
        ChannelKeyInjective(ch, n - 1);
      }
      SortChannelsFrameAt(bk, n - 1, last);
      assert SortChannels(bk, n) == Put(r, last, Sort(ListAt(bk, last)));
      forall ch: nat | ch < n
        ensures ListAt(SortChannels(bk, n), Channel(ChannelKey(ch))) == Sort(ListAt(bk, Channel(ChannelKey(ch))))
      {
        if ch < n - 1 {
          assert Channel(ChannelKey(ch)) != last;
        }
      }
    }
  }

  /** Sorting moves counters within their list and nowhere else. */
  lemma SortChannelsMembers(bk: PmcTable, n: nat)
    ensures forall d, c :: c in ListAt(SortChannels(bk, n), d) <==> c in ListAt(bk, d)
  {
    SortChannelsEffect(bk, n);
    SortChannelsFrame(bk, n);
    var r := SortChannels(bk, n);
    forall d, c ensures c in ListAt(r, d) <==> c in ListAt(bk, d) {
      if ListAt(r, d) != ListAt(bk, d) {
        var ch: nat :| ch < n && d == Channel(ChannelKey(ch));
        SortSpec(ListAt(bk, d));
        assert multiset(ListAt(r, d)) == multiset(ListAt(bk, d));
        assert c in ListAt(r, d) <==> c in multiset(ListAt(r, d));
      }
    }
  }

  /** Sorting keeps the table well formed. */
  lemma SortChannelsWellFormed(bk: PmcTable, soc: Soc, n: nat)
    requires WellFormed(bk, soc)
    ensures WellFormed(SortChannels(bk, n), soc)
  {
    SortChannelsEffect(bk, n);
    SortChannelsFrame(bk, n);
    var r := SortChannels(bk, n);
    forall d ensures NoDup(ListAt(r, d)) && forall c :: c in ListAt(r, d) ==> c in ListAt(bk, d) {
      if ListAt(r, d) != ListAt(bk, d) {
        var ch: nat :| ch < n && d == Channel(ChannelKey(ch));
        assert ListAt(r, d) == Sort(ListAt(bk, d));
        SortSpec(ListAt(bk, d));
        PermutationNoDup(ListAt(bk, d), ListAt(r, d));
        forall c | c in ListAt(r, d) ensures c in ListAt(bk, d) {
          assert c in multiset(ListAt(r, d));
        }
      }
    }
    assert WellPlaced(r);
    assert Distinct(r);
  }

  /** The level counter of a level line: the token just before the sentinel (Python's
      counters[nindex - 1], which is the LAST token when the sentinel comes first). */
  function LevelCounter(cs: seq<string>): (r: string)
    requires Sentinel in cs
    ensures forall i :: 0 <= i < |cs| && cs[i] == Sentinel && (forall j :: 0 <= j < i ==> cs[j] != Sentinel) ==>
      r == (if i == 0 then cs[|cs| - 1] else cs[i - 1])
  {
    FirstIndexOf(cs, Sentinel);
    var i := FirstIndex(cs, Sentinel);
    if i == 0 then cs[|cs| - 1] else cs[i - 1]
  }

  /** counters.index(x) */
  function FirstIndex(cs: seq<string>, x: string): nat
    requires x in cs
  {
    if cs[0] == x then 0 else 1 + FirstIndex(cs[1..], x)
  }

  lemma {:induction false} FirstIndexOf(cs: seq<string>, x: string)
    requires x in cs
    ensures FirstIndex(cs, x) < |cs| && cs[FirstIndex(cs, x)] == x
    ensures forall j :: 0 <= j < FirstIndex(cs, x) ==> cs[j] != x
  {
    if cs[0] != x {
      FirstIndexOf(cs[1..], x);
    }
  }

  // ---------------------------------------------------------------- the table as mutable state

  /** The `pmc_list` dict: ten ordinary buckets and the per-channel "TCC2" table, updated in place. */
  class PmcList {
    const soc: Soc
    var blocks: map<Block, seq<string>>
    var channels: map<string, seq<string>>

    function Value(): PmcTable
      reads this
    {
      PmcTable(blocks, channels)
    }

    /** The lookups of update_pmc_bucket cannot fail. That the lists are also duplicate-free
        and well placed follows from the specification functions (AddAllWellFormed,
        SortChannelsWellFormed), which every method's result is tied to. */
    ghost predicate Valid()
      reads this
    {
      Shaped(Value(), soc)
    }

    /** The empty table for a SoC, as both entry points build it. */
    constructor (soc: Soc)
      ensures this.soc == soc && Valid() && Value() == Empty(soc)
    {
      this.soc := soc;
      blocks := EmptyBuckets();
      var tcc2: map<string, seq<string>> := map[];
      for ch := 0 to Channels(soc)
        invariant tcc2 == EmptyChannels(ch)
      {
        tcc2 := tcc2[ChannelKey(ch) := []];
      }
      channels := tcc2;
    }

    /** update_pmc_bucket on an existing table (the internal call from perfmon_coalesce):
        the argument check, the level-line early exit, then one classification per token. */
    method UpdateBucket(counters: seq<string>, saveFile: bool, stext: Option<string>, perfmonDir: Option<string>)
      returns (err: Option<BucketError>, level: Option<PlanFile>)
      requires Valid()
      modifies this
      ensures Valid()
      ensures saveFile && (stext.None? || perfmonDir.None?) ==>
        err == Some(MissingContext) && level.None? && Value() == old(Value())
      ensures !(saveFile && (stext.None? || perfmonDir.None?)) && Sentinel in counters ==>
        && err.None? && Value() == old(Value())
        && level == (if saveFile then Some(PlanFile(perfmonDir.value + "/" + LevelCounter(counters) + ".txt", stext.value)) else None)
      ensures !(saveFile && (stext.None? || perfmonDir.None?)) && Sentinel !in counters ==>
        var f := AddAll(old(Value()), counters);
        && Value() == f.bk && level.None?
        && err == (if f.failed.Some? then Some(Unclassified(f.failed.value)) else None)
    {
      if saveFile && (stext.None? || perfmonDir.None?) {
        return Some(MissingContext), None;
      }
      if Sentinel in counters {
        level := if saveFile then Some(PlanFile(perfmonDir.value + "/" + LevelCounter(counters) + ".txt", stext.value)) else None;
        return None, level;
      }
      var failed := ClassifyAll(counters);
      err := if failed.Some? then Some(Unclassified(failed.value)) else None;
      level := None;
    }

    /** One pass of the classification loop: the token goes to its list unless it is already
        there; a token whose name selects no bucket raises and changes nothing. */
    method Classify(counter: string) returns (failed: Option<ClassifyError>)
      requires Valid()
      modifies this
      ensures Valid()
      ensures match Add(old(Value()), counter)
        case Failure(e) => failed == Some(e) && Value() == old(Value())
        case Success(bk) => failed.None? && Value() == bk
    {
      var dest := Destination(counter);
      if dest.Failure? {
        return Some(dest.error);
      }
      AddEffect(Value(), counter);
      var l := ListAt(Value(), dest.value);
      if counter !in l {
        match dest.value {
          case Bucket(b) => blocks := blocks[b := l + [counter]];
          case Channel(k) => channels := channels[k := l + [counter]];
        }
      }
      return None;
    }

    /** The classification loop: each token in turn; the first token that raises ends the
        loop, leaving earlier insertions in place. */
    method ClassifyAll(counters: seq<string>) returns (failed: Option<ClassifyError>)
      requires Valid()
      modifies this
      ensures Valid()
      ensures AddAll(old(Value()), counters) == Fold(Value(), failed)
    {
      ghost var start := Value();
      for i := 0 to |counters|
        invariant Valid()
        invariant AddAll(start, counters[..i]) == Fold(Value(), None)
      {
        assert counters[..i + 1][..i] == counters[..i];
        failed := Classify(counters[i]);
        if failed.Some? {
          AddAllStops(start, counters, i + 1);
          return;
        }
      }
      assert counters[..|counters|] == counters;
      return None;
    }

    /** The closing loop: sort channels 0 .. TCC_channels-1. */
    method SortChannelLists()
      requires Valid()
      modifies this
      ensures Valid() && Value() == SortChannels(old(Value()), Channels(soc))
    {
      ghost var start := Value();
      for ch := 0 to Channels(soc)
        invariant HasChannels(start, ch) && Value() == SortChannels(start, ch)
        invariant Valid()
      {
        channels := channels[ChannelKey(ch) := Sort(channels[ChannelKey(ch)])];
      }
    }
  }

  /** update_pmc_bucket without a table (the external, one-shot call): no level-line handling,
      a fresh table, every token classified, then channels 0 .. n-1 sorted. On an error the
      half-filled table is discarded with the exception. */
  method UpdateBucketExternal(counters: seq<string>, saveFile: bool, soc: Soc, stext: Option<string>, perfmonDir: Option<string>)
    returns (r: Result<PmcList, BucketError>)
    ensures saveFile && (stext.None? || perfmonDir.None?) ==> r == Failure(MissingContext)
    ensures !(saveFile && (stext.None? || perfmonDir.None?)) ==>
      var f := AddAll(Empty(soc), counters);
      && (f.failed.Some? ==> r == Failure(Unclassified(f.failed.value)))
      && (f.failed.None? ==> r.Success? && fresh(r.value) && r.value.Valid() && r.value.soc == soc
                             && r.value.Value() == SortChannels(f.bk, Channels(soc))
                             && WellFormed(r.value.Value(), soc))
  {
    if saveFile && (stext.None? || perfmonDir.None?) {
      return Failure(MissingContext);
    }
    var t := new PmcList(soc);
    var failed := t.ClassifyAll(counters);
    if failed.Some? {
      return Failure(Unclassified(failed.value));
    }
    t.SortChannelLists();
    AddAllWellFormed(Empty(soc), soc, counters);
    SortChannelsWellFormed(AddAll(Empty(soc), counters).bk, soc, Channels(soc));
    return Success(t);
  }
}
