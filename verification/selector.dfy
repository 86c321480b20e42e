// The allowlist part of perfmon_filter: which counter files a profiling run coalesces.
module Selector {
  import opened Wrappers
  import opened Strings

  // ---------------------------------------------------------------- file names

  /** os.path.basename: the text after the last '/'. */
  function Basename(path: string): (r: string)
    ensures '/' !in r
    ensures |r| <= |path| && r == path[|path| - |r|..]
    ensures |r| < |path| ==> path[|path| - |r| - 1] == '/'
  {
    if path == [] || path[|path| - 1] == '/' then []
    else Basename(path[..|path| - 1]) + [path[|path| - 1]]
  }

  /** Index of the last '.' of s, if any. */
  function LastDot(s: string): (r: Option<nat>)
    ensures r.None? <==> '.' !in s
    ensures r.Some? ==> r.value < |s| && s[r.value] == '.' && '.' !in s[r.value + 1..]
  {
    if s == [] then None
    else if s[|s| - 1] == '.' then Some(|s| - 1)
    else LastDot(s[..|s| - 1])
  }

  predicate AllDots(s: string) {
    forall i :: 0 <= i < |s| ==> s[i] == '.'
  }

  /** os.path.splitext(name)[0] for a name without '/': the name without its last extension,
      where leading dots do not start an extension. */
  function Stem(name: string): string {
    match LastDot(name)
    case None => name
    case Some(i) => if AllDots(name[..i]) then name else name[..i]
  }

  /** The stem is the whole name, or the name cut just before its last dot with something
      other than dots in front of that dot. */
  lemma StemRules(name: string)
    ensures |Stem(name)| <= |name| && Stem(name) == name[..|Stem(name)|]
    ensures Stem(name) == name <==> '.' !in name || AllDots(name[..LastDot(name).value])
    ensures Stem(name) != name ==>
      name[|Stem(name)|] == '.' && '.' !in name[|Stem(name)| + 1..] && !AllDots(Stem(name))
  {
    match LastDot(name)
    case None =>
    case Some(i) =>
      if !AllDots(name[..i]) {
        assert |name[..i]| < |name|;
      }
  }

  // ---------------------------------------------------------------- the pattern pmc_([a-zA-Z0-9_]+)_perf*

  predicate IsWordChar(c: char) {
    'a' <= c <= 'z' || 'A' <= c <= 'Z' || '0' <= c <= '9' || c == '_'
  }

  predicate AllWordChars(s: string) {
    forall i :: 0 <= i < |s| ==> IsWordChar(s[i])
  }

  /** The pattern matches at the start of s with its group ending at j: `pmc_`, one or more
      word characters s[4..j], then `_per` (the trailing `f*` matches anything). */
  predicate MatchesAt(s: string, j: nat) {
    StartsWith(s, "pmc_") && 4 < j <= |s| && AllWordChars(s[4..j]) && StartsWith(s[j..], "_per")
  }

  /** End of the run of word characters that starts at i. */
  function WordRunEnd(s: string, i: nat): (j: nat)
    requires i <= |s|
    ensures i <= j <= |s| && AllWordChars(s[i..j])
    ensures j < |s| ==> !IsWordChar(s[j])
    decreases |s| - i
  {
    if i < |s| && IsWordChar(s[i]) then
      var j := WordRunEnd(s, i + 1);
      assert s[i..j] == [s[i]] + s[i + 1..j];
      j
    else i
  }

  /** The last j in 5 .. hi where `_per` starts: the greedy group backs off from the end of the
      word run until the rest of the pattern fits. */
  function LastPer(s: string, hi: nat): (r: Option<nat>)
    requires hi <= |s|
    ensures r.Some? ==> 4 < r.value <= hi && StartsWith(s[r.value..], "_per")
    ensures forall j :: 4 < j <= hi && (r.None? || r.value < j) ==> !StartsWith(s[j..], "_per")
    decreases hi
  {
    if hi <= 4 then None
    else if StartsWith(s[hi..], "_per") then Some(hi)
    else LastPer(s, hi - 1)
  }

  /** The group of the file-name pattern matched at the start of the stem; None where it does
      not match. The group is the
      longest one the pattern admits, as Python's greedy `+` backtracks from the right. */
  function BlockOfStem(s: string): (r: Option<string>)
    ensures r.None? <==> forall j: nat :: !MatchesAt(s, j)
    ensures r.Some? ==> MatchesAt(s, 4 + |r.value|) && r.value == s[4..4 + |r.value|]
    ensures r.Some? ==> forall j: nat :: MatchesAt(s, j) ==> j <= 4 + |r.value|
  {
    if !StartsWith(s, "pmc_") then None
    else
      var e := WordRunEnd(s, 4);
      WithinRun(s, e);
      match LastPer(s, e)
      case None => None
      case Some(j) =>
        assert s[4..j] == s[4..e][..j - 4];
        assert MatchesAt(s, j);
        Some(s[4..j])
  }

  /** A match never reaches past the run of word characters after `pmc_`. */
  lemma WithinRun(s: string, e: nat)
    requires 4 <= e <= |s| && (e < |s| ==> !IsWordChar(s[e]))
    ensures forall j: nat :: MatchesAt(s, j) ==> j <= e
  {
    forall j: nat | MatchesAt(s, j) ensures j <= e {
    }
  }

  /** The block name a counter file stands for: the group of the pattern in its stem. */
  function FileBlock(path: string): Option<string> {
    BlockOfStem(Stem(Basename(path)))
  }

  // ---------------------------------------------------------------- the allowlist filter

  datatype SelectError = NoBlockName(path: string)

  /** How a file name yields its block name; FileBlock in perfmon_filter. */
  type Namer = string -> Option<string>

  function LowerAll(names: seq<string>): (r: seq<string>)
    ensures |r| == |names| && forall i :: 0 <= i < |names| ==> r[i] == Lower(names[i])
  {
    seq(|names|, i requires 0 <= i < |names| => Lower(names[i]))
  }

  /** The allowlist loop of perfmon_filter over files, against an already lower-cased list:
      a file whose stem does not match the pattern stops the run (re.match returns None and
      `.group` fails); the others are kept, in order, when their block name is allowed. */
  function Kept(files: seq<string>, allow: seq<string>, block: Namer): Result<seq<string>, SelectError> {
    if files == [] then Success([])
    else
      match Kept(files[..|files| - 1], allow, block)
      case Failure(e) => Failure(e)
      case Success(pre) =>
        var f := files[|files| - 1];
        match block(f)
        case None => Failure(NoBlockName(f))
        case Some(ip) => Success(if ip in allow then pre + [f] else pre)
  }

  predicate Allowed(f: string, allow: seq<string>, block: Namer) {
    block(f).Some? && block(f).value in allow
  }

  /** Lower-case every entry of the allowlist in place, as perfmon_filter does to args.ipblocks. */
  method LowerInPlace(a: array<string>)
    modifies a
    ensures a[..] == LowerAll(old(a[..]))
  {
    for i := 0 to a.Length
      invariant forall k :: 0 <= k < i ==> a[k] == Lower(old(a[k]))
      invariant forall k :: i <= k < a.Length ==> a[k] == old(a[k])
    {
      a[i] := Lower(a[i]);
    }
  }

  /** Once a prefix of the files fails, the whole run fails with the same error. */
  lemma {:induction false} KeptFailureStays(files: seq<string>, allow: seq<string>, block: Namer, n: nat)
    requires n <= |files| && Kept(files[..n], allow, block).Failure?
    ensures Kept(files, allow, block) == Kept(files[..n], allow, block)
    decreases |files|
  {
    if n < |files| {
      var init := files[..|files| - 1];
      assert init[..n] == files[..n];
      KeptFailureStays(init, allow, block, n);
    } else {
      assert files[..n] == files;
    }
  }

  /** The loop of perfmon_filter over the files, once the allowlist is lower-cased. */
  method KeepAllowed(files: seq<string>, allow: seq<string>) returns (r: Result<seq<string>, SelectError>)
    ensures r == Kept(files, allow, FileBlock)
  {
    var block: Namer := FileBlock;
    var kept: seq<string> := [];
    for i := 0 to |files|
      invariant Kept(files[..i], allow, block) == Success(kept)
    {
      assert files[..i + 1][..i] == files[..i];
      var f := files[i];
      var ip := block(f);
      if ip.None? {
        KeptFailureStays(files, allow, block, i + 1);
        return Failure(NoBlockName(f));
      }
      if ip.value in allow {
        kept := kept + [f];
      }
    }
    assert files[..|files|] == files;
    r := Success(kept);
  }

  /** perfmon_filter's file selection: with an allowlist, lower-case it in place and keep the
      files whose block name is in it; without one, keep every file. */
  method FilterFiles(files: seq<string>, ipblocks: Option<array<string>>) returns (r: Result<seq<string>, SelectError>)
    modifies if ipblocks.Some? then {ipblocks.value} else {}
    ensures ipblocks.None? ==> r == Success(files)
    ensures ipblocks.Some? ==> ipblocks.value[..] == LowerAll(old(ipblocks.value[..]))
    ensures ipblocks.Some? ==> r == Kept(files, ipblocks.value[..], FileBlock)
  {
    if ipblocks.None? {
      return Success(files);
    }
    LowerInPlace(ipblocks.value);
    r := KeepAllowed(files, ipblocks.value[..]);
  }

  /** The run fails exactly when some file has no block name, and then on the first such file. */
  lemma {:induction false} KeptFails(files: seq<string>, allow: seq<string>, block: Namer)
    ensures Kept(files, allow, block).Failure? <==> exists i :: 0 <= i < |files| && block(files[i]).None?
    ensures Kept(files, allow, block).Failure? ==>
      exists i :: 0 <= i < |files| && block(files[i]).None? &&
        Kept(files, allow, block).error == NoBlockName(files[i]) &&
        forall k :: 0 <= k < i ==> block(files[k]).Some?
    decreases |files|
  {
    if files != [] {
      var init := files[..|files| - 1];
      KeptFails(init, allow, block);
      forall i | 0 <= i < |init| ensures init[i] == files[i] { }
      if Kept(init, allow, block).Failure? {
        var i :| 0 <= i < |init| && block(init[i]).None? &&
          Kept(init, allow, block).error == NoBlockName(init[i]) && forall k :: 0 <= k < i ==> block(init[k]).Some?;
        assert block(files[i]).None?;
      } else if block(files[|files| - 1]).None? {
        assert forall k :: 0 <= k < |files| - 1 ==> block(files[k]).Some? by {
          forall k | 0 <= k < |files| - 1 ensures block(files[k]).Some? {
            assert files[k] == init[k];
          }
        }
      } else {
        forall i | 0 <= i < |files| ensures block(files[i]).Some? {
          if i < |init| {
            assert files[i] == init[i];
          }
        }
      }
    }
  }

  /** On success the kept files are the allowed files, in the order they were given: idx lists
      their positions, increasing, and a position is listed exactly when its file is allowed. */
  lemma {:induction false} KeptOrder(files: seq<string>, allow: seq<string>, block: Namer) returns (idx: seq<nat>)
    requires Kept(files, allow, block).Success?
    ensures |idx| == |Kept(files, allow, block).value|
    ensures forall k :: 0 <= k < |idx| ==> idx[k] < |files| && Kept(files, allow, block).value[k] == files[idx[k]]
    ensures forall k, m :: 0 <= k < m < |idx| ==> idx[k] < idx[m]
    ensures forall i :: 0 <= i < |files| ==> (i in idx <==> Allowed(files[i], allow, block))
    decreases |files|
  {
    if files == [] {
      idx := [];
    } else {
      var n := |files| - 1;
      var init := files[..n];
      var pre := Kept(init, allow, block).value;
      var pidx := KeptOrder(init, allow, block);
      if Allowed(files[n], allow, block) {
        idx := pidx + [n];
      } else {
        idx := pidx;
      }
      forall i | 0 <= i < n ensures files[i] == init[i] && (i in idx <==> i in pidx) { }
    }
  }

  /** Without a pattern failure, a file is kept exactly when its block name is allowed. */
  lemma KeptMembers(files: seq<string>, allow: seq<string>, block: Namer, f: string)
    requires Kept(files, allow, block).Success?
    ensures f in Kept(files, allow, block).value <==> f in files && Allowed(f, allow, block)
  {
    var idx := KeptOrder(files, allow, block);
    var r := Kept(files, allow, block).value;
    if f in r {
      var k :| 0 <= k < |r| && r[k] == f;
      assert files[idx[k]] == f;
    }
    if f in files && Allowed(f, allow, block) {
      var i :| 0 <= i < |files| && files[i] == f;
      assert i in idx;
      var k :| 0 <= k < |idx| && idx[k] == i;
      assert r[k] == f;
    }
  }
}
