// The kernel-name shortener: the depth walk over the tokens of a demangled name, the
// module-level cache of shortened names, the column it rewrites, and the level gate.
module Shortener {
  import opened Wrappers
  import opened Tables

  /** One match of the tokenizer: a name, the punctuation after it, and an optional `::`. */
  datatype Token = Token(name: string, punct: string, scope: string)

  /** What the walk has built so far and the template nesting depth it is at. */
  datatype WalkState = WalkState(out: string, depth: int)

  /** `s.count(c)`. */
  function Count(s: string, c: char): nat {
    if s == [] then 0 else (if s[0] == c then 1 else 0) + Count(s[1..], c)
  }

  /** A `clone` token or one followed by `::` contributes nothing. */
  predicate Skipped(tok: Token) {
    tok.name == "clone" || tok.scope == "::"
  }

  /** The scan of punctuation holding a `>`, from position i: above the cutoff every `>`
      closes one level; once below it, the rest is emitted and its `>`s all close. */
  function Closing(out: string, depth: int, p: string, i: nat, level: int): WalkState
    requires i <= |p|
    decreases |p| - i
  {
    if i == |p| then WalkState(out, depth)
    else if depth < level then WalkState(out + p[i..], depth - Count(p[i..], '>'))
    else Closing(out, if p[i] == '>' then depth - 1 else depth, p, i + 1, level)
  }

  /** The walk over one token. */
  function Step(st: WalkState, tok: Token, level: int): WalkState {
    if Skipped(tok) then st
    else
      var out := if st.depth < level then st.out + tok.name else st.out;
      var p := tok.punct;
      if Count(p, '>') == 0 then
        var emit := st.depth < level && !(st.depth == level - 1 && Count(p, '<') > 0);
        WalkState(if emit then out + p else out, st.depth + Count(p, '<'))
      else Closing(out, st.depth, p, 0, level)
  }

  /** The walk over a token list, from depth 0 and an empty name. */
  function Walk(tokens: seq<Token>, level: int): WalkState {
    if tokens == [] then WalkState("", 0)
    else Step(Walk(tokens[..|tokens| - 1], level), tokens[|tokens| - 1], level)
  }

  // ---------------------------------------------------------------- rules of the walk

  /** Scanning closing punctuation lowers the depth by exactly its number of `>`, whatever the
      cutoff, and emits a suffix of it: all of it when the walk starts below the cutoff. */
  lemma {:induction false} ClosingRules(out: string, depth: int, p: string, i: nat, level: int) returns (j: nat)
    requires i <= |p|
    ensures i <= j <= |p|
    ensures Closing(out, depth, p, i, level) == WalkState(out + p[j..], depth - Count(p[i..], '>'))
    ensures depth < level ==> j == i
    decreases |p| - i
  {
    if i == |p| {
      j := i;
    } else if depth < level {
      j := i;
    } else {
      j := ClosingRules(out, if p[i] == '>' then depth - 1 else depth, p, i + 1, level);
      assert p[i..][1..] == p[i + 1..];
    }
  }

  /** A skipped token leaves the name and the depth as they were. */
  lemma StepSkips(st: WalkState, tok: Token, level: int)
    requires Skipped(tok)
    ensures Step(st, tok, level) == st
  { }

  /** A token's name is emitted only while the depth is below the cutoff. Punctuation without
      `>` opens one level per `<` and is emitted below the cutoff unless it opens the level at
      the cutoff; punctuation with `>` never deepens the walk: it closes one level per `>` and
      emits a suffix of itself, all of it below the cutoff. */
  lemma StepRules(st: WalkState, tok: Token, level: int) returns (j: nat)
    requires !Skipped(tok)
    ensures var name := if st.depth < level then tok.name else "";
      var p := tok.punct;
      var r := Step(st, tok, level);
      && (Count(p, '>') == 0 ==>
            r.depth == st.depth + Count(p, '<') &&
            r.out == st.out + name +
              (if st.depth < level && !(st.depth == level - 1 && Count(p, '<') > 0) then p else ""))
      && (Count(p, '>') > 0 ==>
            r.depth == st.depth - Count(p, '>') && j <= |p| && r.out == st.out + name + p[j..] &&
            (st.depth < level ==> j == 0))
  {
    var name := if st.depth < level then tok.name else "";
    assert st.out + name == if st.depth < level then st.out + tok.name else st.out;
    if Count(tok.punct, '>') > 0 {
      assert tok.punct[0..] == tok.punct;
      j := ClosingRules(st.out + name, st.depth, tok.punct, 0, level);
    } else {
      j := 0;
    }
  }

  /** The change of depth one token causes, independent of the cutoff. */
  function Delta(tok: Token): int {
    if Skipped(tok) then 0
    else if Count(tok.punct, '>') == 0 then Count(tok.punct, '<')
    else -(Count(tok.punct, '>') as int)
  }

  function NetDepth(tokens: seq<Token>): int {
    if tokens == [] then 0 else NetDepth(tokens[..|tokens| - 1]) + Delta(tokens[|tokens| - 1])
  }

  /** The cutoff decides only what is emitted: the depth the walk ends at is the same for every
      level. */
  lemma {:induction false} WalkDepth(tokens: seq<Token>, level: int)
    ensures Walk(tokens, level).depth == NetDepth(tokens)
  {
    if tokens != [] {
      var n := |tokens| - 1;
      WalkDepth(tokens[..n], level);
      if !Skipped(tokens[n]) {
        var _ := StepRules(Walk(tokens[..n], level), tokens[n], level);
      }
    }
  }

  /** The walk only appends: what it has built after k tokens starts the final name. */
  lemma {:induction false} WalkGrows(tokens: seq<Token>, k: nat, level: int)
    requires k <= |tokens|
    ensures StartsWithSeq(Walk(tokens, level).out, Walk(tokens[..k], level).out)
    decreases |tokens|
  {
    if k < |tokens| {
      var n := |tokens| - 1;
      assert tokens[..n][..k] == tokens[..k];
      WalkGrows(tokens[..n], k, level);
      var st := Walk(tokens[..n], level);
      if !Skipped(tokens[n]) {
        var j := StepRules(st, tokens[n], level);
        var r := Step(st, tokens[n], level);
        assert r.out[..|st.out|] == st.out;
      }
    } else {
      assert tokens[..k] == tokens;
    }
  }

  predicate StartsWithSeq(s: string, p: string) {
    |p| <= |s| && s[..|p|] == p
  }

  /** The loops of shorten_file over the tokens of one demangled name. */
  method ShortenTokens(tokens: seq<Token>, level: int) returns (newName: string)
    ensures newName == Walk(tokens, level).out
  {
    newName := "";
    var depth := 0;
    for k := 0 to |tokens|
      invariant WalkState(newName, depth) == Walk(tokens[..k], level)
    {
      assert tokens[..k + 1][..k] == tokens[..k];
      var tok := tokens[k];
      if tok.name == "clone" {
        continue;
      }
      if tok.scope == "::" {
        continue;
      }
      ghost var before := WalkState(newName, depth);
      if depth < level {
        newName := newName + tok.name;
      }
      var p := tok.punct;
      if Count(p, '>') == 0 {
        if depth < level {
          if !(depth == level - 1 && Count(p, '<') > 0) {
            newName := newName + p;
          }
        }
        depth := depth + Count(p, '<');
      }
      ghost var target := if Count(p, '>') == 0 then WalkState(newName, depth) else Closing(newName, depth, p, 0, level);
      assert target == Step(before, tok, level);
      var i := 0;
      while Count(p, '>') > 0 && i < |p|
        invariant 0 <= i <= |p| + 1
        invariant Count(p, '>') > 0 && i <= |p| ==> Closing(newName, depth, p, i, level) == target
        invariant Count(p, '>') == 0 || i > |p| ==> WalkState(newName, depth) == target
        decreases |p| + 1 - i
      {
        if depth < level {
          newName := newName + p[i..];
          depth := depth - Count(p[i..], '>');
          i := |p|;
        } else if p[i] == '>' {
          depth := depth - 1;
        }
        i := i + 1;
      }
    }
    assert tokens[..|tokens|] == tokens;
  }

  /** The name the cache keeps for a demangled name: the walk's output, or the demangled name
      itself when the tokenizer finds nothing or the walk emits nothing. */
  function ShortName(demangled: string, tokens: seq<Token>, level: int): (r: string)
    ensures r == demangled || (tokens != [] && r == Walk(tokens, level).out)
    ensures r == "" ==> demangled == ""
  {
    if tokens == [] then demangled
    else
      var w := Walk(tokens, level);
      if w.out == "" then demangled else w.out
  }

  // ---------------------------------------------------------------- the cache and the files

  /** The column shorten_file rewrites: Name when there is one, otherwise KernelName. */
  function ColumnChoice(cols: seq<string>): (r: Option<string>)
    ensures r.Some? ==> r.value in cols && (r.value == "Name" || r.value == "KernelName")
    ensures r.None? <==> "Name" !in cols && "KernelName" !in cols
    ensures "Name" in cols ==> r == Some("Name")
  {
    if "Name" in cols then Some("Name")
    else if "KernelName" in cols then Some("KernelName")
    else None
  }

  /** n is an entry of the column shorten_file rewrites in t. */
  ghost predicate InChosenColumn(t: Table<string>, n: string)
    requires Rect(t)
  {
    ColumnChoice(t.cols).Some? && n in ColumnAt(t, IndexOf(t.cols, ColumnChoice(t.cols).value).value)
  }

  /** Every key of c is in d with the same value. */
  ghost predicate Extends(d: map<string, string>, c: map<string, string>) {
    forall n :: n in c ==> n in d && d[n] == c[n]
  }

  /** r is t with the chosen column's entries replaced by their values in the cache c. */
  ghost predicate ShortenedBy(t: Table<string>, r: Table<string>, c: map<string, string>)
    requires Rect(t)
  {
    match ColumnChoice(t.cols)
    case None => r == t
    case Some(col) =>
      var j := IndexOf(t.cols, col).value;
      (forall i :: 0 <= i < |t.rows| ==> t.rows[i][j] in c) &&
      r == SetColumn(t, col, seq(|t.rows|, i requires 0 <= i < |t.rows| => c[t.rows[i][j]]))
  }

  /** A rewritten file stays a rewrite by the cache as the cache grows. */
  lemma ShortenedByExtends(t: Table<string>, r: Table<string>, c: map<string, string>, d: map<string, string>)
    requires Rect(t) && ShortenedBy(t, r, c) && Extends(d, c)
    ensures ShortenedBy(t, r, d)
  {
    if ColumnChoice(t.cols).Some? {
      var col := ColumnChoice(t.cols).value;
      var j := IndexOf(t.cols, col).value;
      assert seq(|t.rows|, i requires 0 <= i < |t.rows| => c[t.rows[i][j]]) ==
             seq(|t.rows|, i requires 0 <= i < |t.rows| => d[t.rows[i][j]]);
    }
  }

  /** The module-level cache, with the demangler (llvm-cxxfilt, output stripped) and the
      tokenizer (the names_and_args findall) it is filled through. */
  class NameCache {
    var cache: map<string, string>
    const demangle: string -> string
    const tokenize: string -> seq<Token>

    constructor(demangle: string -> string, tokenize: string -> seq<Token>)
      ensures cache == map[] && this.demangle == demangle && this.tokenize == tokenize
    {
      cache := map[];
      this.demangle := demangle;
      this.tokenize := tokenize;
    }

    /** The value a cache miss stores for a mangled name. */
    function Shortened(mangled: string, level: int): string {
      ShortName(demangle(mangled), tokenize(demangle(mangled)), level)
    }

    /** The row loop of shorten_file and the `map(cache)` after it: every name not yet cached
        gets its shortened form, names already cached keep their value, and every entry is
        replaced by its cache value. */
    method ShortenColumn(names: seq<string>, level: int) returns (out: seq<string>)
      modifies this
      ensures forall n :: n in cache <==> n in old(cache) || n in names
      ensures Extends(cache, old(cache))
      ensures forall n :: n in cache && n !in old(cache) ==> cache[n] == Shortened(n, level)
      ensures |out| == |names| && forall i :: 0 <= i < |names| ==> out[i] == cache[names[i]]
    {
      for k := 0 to |names|
        invariant forall n :: n in cache <==> n in old(cache) || n in names[..k]
        invariant Extends(cache, old(cache))
        invariant forall n :: n in cache && n !in old(cache) ==> cache[n] == Shortened(n, level)
      {
        assert forall n :: n in names[..k + 1] <==> n in names[..k] || n == names[k];
        var original := names[k];
        if original in cache {
          continue;
        }
        var demangled := demangle(original);
        var matches := tokenize(demangled);
        if matches == [] {
          cache := cache[original := demangled];
          continue;
        }
        var newName := ShortenTokens(matches, level);
        cache := cache[original := newName];
        if newName == "" {
          cache := cache[original := demangled];
        }
      }
      assert names[..|names|] == names;
      out := seq(|names|, i requires 0 <= i < |names| && names[i] in cache reads this => cache[names[i]]);
    }

    /** shorten_file: rewrite the chosen name column of one table through the cache. */
    method ShortenFile(t: Table<string>, level: int) returns (r: Table<string>)
      requires Rect(t)
      modifies this
      ensures Rect(r) && ShortenedBy(t, r, cache)
      ensures Extends(cache, old(cache))
      ensures forall n :: n in cache && n !in old(cache) ==> cache[n] == Shortened(n, level)
      ensures ColumnChoice(t.cols).None? ==> cache == old(cache)
      ensures forall n :: n in cache <==> n in old(cache) || InChosenColumn(t, n)
    {
      var columnName := "";
      if "KernelName" in t.cols {
        columnName := "KernelName";
      }
      if "Name" in t.cols {
        columnName := "Name";
      }
      if columnName == "KernelName" || columnName == "Name" {
        var j := IndexOf(t.cols, columnName).value;
        var names := ColumnAt(t, j);
        var out := ShortenColumn(names, level);
        var c := cache;
        assert out == seq(|t.rows|, i requires 0 <= i < |t.rows| => c[t.rows[i][j]]);
        r := SetColumn(t, columnName, out);
      } else {
        r := t;
      }
    }

    /** kernel_name_shortener over the CSV files of a workload (None: an empty file, which is
        skipped): from level 5 on nothing is shortened and the cache is untouched; below it
        every file is rewritten through the cache as it stands at the end. */
    method KernelNameShortener(files: seq<Option<Table<string>>>, level: int)
      returns (r: seq<Option<Table<string>>>)
      requires forall i :: 0 <= i < |files| && files[i].Some? ==> Rect(files[i].value)
      modifies this
      ensures level >= 5 ==> r == files && cache == old(cache)
      ensures |r| == |files|
      ensures forall i :: 0 <= i < |files| ==> (r[i].None? <==> files[i].None?)
      ensures forall i :: 0 <= i < |files| && files[i].Some? && level < 5 ==>
        ShortenedBy(files[i].value, r[i].value, cache)
      ensures Extends(cache, old(cache))
      ensures forall n :: n in cache && n !in old(cache) ==> cache[n] == Shortened(n, level)
      ensures forall n :: n in cache <==>
        (n in old(cache) ||
         (level < 5 && exists i :: 0 <= i < |files| && files[i].Some? && InChosenColumn(files[i].value, n)))
    {
      if level >= 5 {
        return files;
      }
      r := [];
      for k := 0 to |files|
        invariant |r| == k
        invariant forall i :: 0 <= i < k ==> (r[i].None? <==> files[i].None?)
        invariant forall i :: 0 <= i < k && files[i].Some? ==> ShortenedBy(files[i].value, r[i].value, cache)
        invariant Extends(cache, old(cache))
        invariant forall n :: n in cache && n !in old(cache) ==> cache[n] == Shortened(n, level)
        invariant forall n :: n in cache <==>
          (n in old(cache) || exists i :: 0 <= i < k && files[i].Some? && InChosenColumn(files[i].value, n))
      {
        if files[k].None? {
          r := r + [None];
        } else {
          ghost var before := cache;
          var t := ShortenFile(files[k].value, level);
          forall i | 0 <= i < k && files[i].Some?
            ensures ShortenedBy(files[i].value, r[i].value, cache)
          {
            ShortenedByExtends(files[i].value, r[i].value, before, cache);
          }
          r := r + [Some(t)];
        }
      }
    }
  }
}
