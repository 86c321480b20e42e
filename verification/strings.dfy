/** Text helpers that stand for the Python string operations the core relies on:
    str.isspace, str.strip, str.split() / str.split(sep)[0], str.upper / str.lower,
    the `in` substring test, str(n) for natural numbers, and list.sort() on strings. */
module Strings {

  /** The code-point ranges Python's str.isspace() accepts (the Unicode White_Space characters
      plus the ASCII separators 0x1C-0x1F): the characters str.split() and str.strip() treat as blanks. */
  const SpaceRanges: seq<(int, int)> := [
    (0x09, 0x0D), (0x1C, 0x20), (0x85, 0x85), (0xA0, 0xA0), (0x1680, 0x1680),
    (0x2000, 0x200A), (0x2028, 0x2029), (0x202F, 0x202F), (0x205F, 0x205F), (0x3000, 0x3000)]

  predicate InRanges(k: int, rs: seq<(int, int)>) {
    rs != [] && ((rs[0].0 <= k <= rs[0].1) || InRanges(k, rs[1..]))
  }

  /** Python's str.isspace() on one character. */
  predicate IsSpace(c: char) {
    InRanges(c as int, SpaceRanges)
  }

  predicate IsDigit(c: char) { '0' <= c <= '9' }

  /** No element occurs twice. */
  ghost predicate NoDup<T>(s: seq<T>) {
    forall i, j :: 0 <= i < j < |s| ==> s[i] != s[j]
  }

  // ---------------------------------------------------------------- strip / split

  /** s.lstrip() */
  function TrimStart(s: string): (r: string)
    ensures |r| <= |s|
    ensures r == [] || !IsSpace(r[0])
  {
    if s != [] && IsSpace(s[0]) then TrimStart(s[1..]) else s
  }

  /** s.lstrip() is a suffix of s, and what it cuts off is all whitespace. */
  lemma {:induction false} TrimStartRules(s: string)
    ensures var r := TrimStart(s); r == s[|s| - |r|..]
    ensures forall i :: 0 <= i < |s| - |TrimStart(s)| ==> IsSpace(s[i])
  {
    if s != [] && IsSpace(s[0]) {
      TrimStartRules(s[1..]);
    }
  }

  /** s.rstrip() */
  function TrimEnd(s: string): (r: string)
    ensures |r| <= |s| && r == s[..|r|]
    ensures r == [] || !IsSpace(r[|r| - 1])
    ensures forall i :: |r| <= i < |s| ==> IsSpace(s[i])
  {
    if s != [] && IsSpace(s[|s| - 1]) then TrimEnd(s[..|s| - 1]) else s
  }

  /** s.strip(): s without its leading and trailing whitespace. */
  function Strip(s: string): string {
    TrimEnd(TrimStart(s))
  }

  /** A stripped string neither starts nor ends with whitespace, and it is empty exactly when
      the input was all whitespace. */
  lemma StripRules(s: string)
    ensures var r := Strip(s); r == [] || (!IsSpace(r[0]) && !IsSpace(r[|r| - 1]))
    ensures Strip(s) == [] <==> forall i :: 0 <= i < |s| ==> IsSpace(s[i])
  {
    StripEmpty(s, TrimStart(s));
  }

  lemma StripEmpty(s: string, t: string)
    requires t == TrimStart(s)
    ensures TrimEnd(t) == [] <==> forall i :: 0 <= i < |s| ==> IsSpace(s[i])
  {
    TrimStartRules(s);
    if t != [] {
      assert s[|s| - |t|] == t[0];
      assert !IsSpace(t[0]);
    }
  }

  /** Length of the leading run of non-whitespace characters. */
  function WordLength(s: string): (n: nat)
    ensures n <= |s|
    ensures forall i :: 0 <= i < n ==> !IsSpace(s[i])
    ensures n < |s| ==> IsSpace(s[n])
  {
    if s == [] || IsSpace(s[0]) then 0 else 1 + WordLength(s[1..])
  }

  /** A token produced by str.split(): non-empty, free of whitespace. */
  predicate IsWord(w: string) {
    w != [] && forall i :: 0 <= i < |w| ==> !IsSpace(w[i])
  }

  /** s.split() with no separator: the maximal runs of non-whitespace characters, in order. */
  function Words(s: string): seq<string>
    decreases |s|
  {
    var t := TrimStart(s);
    if t == [] then [] else
      var n := WordLength(t);
      [t[..n]] + Words(t[n..])
  }

  /** Every token str.split() yields is a non-empty run of non-blank characters. */
  lemma {:induction false} WordsAreWords(s: string)
    ensures forall i :: 0 <= i < |Words(s)| ==> IsWord(Words(s)[i])
    decreases |s|
  {
    var t := TrimStart(s);
    if t != [] {
      var n := WordLength(t);
      FirstWord(t);
      WordsAreWords(t[n..]);
      AllWordsCons(t[..n], Words(t[n..]));
    }
  }

  lemma FirstWord(t: string)
    requires t != [] && !IsSpace(t[0])
    ensures IsWord(t[..WordLength(t)])
  {
  }

  lemma AllWordsCons(w: string, rest: seq<string>)
    requires IsWord(w)
    requires forall i :: 0 <= i < |rest| ==> IsWord(rest[i])
    ensures forall i :: 0 <= i < |[w] + rest| ==> IsWord(([w] + rest)[i])
  {
  }

  /** Concatenation of a sequence of strings. */
  function Concat(ws: seq<string>): string {
    if ws == [] then [] else ws[0] + Concat(ws[1..])
  }

  /** The characters of s that are not whitespace, in order. */
  function NonSpace(s: string): string {
    if s == [] then [] else (if IsSpace(s[0]) then [] else [s[0]]) + NonSpace(s[1..])
  }

  lemma {:induction false} NonSpaceAppend(a: string, b: string)
    ensures NonSpace(a + b) == NonSpace(a) + NonSpace(b)
  {
    if a != [] {
      assert (a + b)[1..] == a[1..] + b;
      NonSpaceAppend(a[1..], b);
    } else {
      assert a + b == b;
    }
  }

  lemma {:induction false} NonSpaceAllSpace(s: string)
    requires forall i :: 0 <= i < |s| ==> IsSpace(s[i])
    ensures NonSpace(s) == []
  {
    if s != [] { NonSpaceAllSpace(s[1..]); }
  }

  lemma {:induction false} NonSpaceNoSpace(s: string)
    requires forall i :: 0 <= i < |s| ==> !IsSpace(s[i])
    ensures NonSpace(s) == s
  {
    if s != [] { NonSpaceNoSpace(s[1..]); }
  }

  /** str.split() loses exactly the whitespace: joining its tokens gives the non-blank characters back. */
  lemma {:induction false} WordsKeepNonSpace(s: string)
    ensures Concat(Words(s)) == NonSpace(s)
    decreases |s|
  {
    var t := TrimStart(s);
    NonSpaceSkipsLead(s);
    if t != [] {
      var n := WordLength(t);
      NonSpaceSkipsWord(t);
      WordsKeepNonSpace(t[n..]);
      assert Words(s) == [t[..n]] + Words(t[n..]);
    }
  }

  lemma NonSpaceSkipsLead(s: string)
    ensures NonSpace(s) == NonSpace(TrimStart(s))
  {
    var t := TrimStart(s);
    TrimStartRules(s);
    var lead := s[..|s| - |t|];
    assert s == lead + t;
    NonSpaceAllSpace(lead);
    NonSpaceAppend(lead, t);
  }

  lemma NonSpaceSkipsWord(t: string)
    ensures NonSpace(t) == t[..WordLength(t)] + NonSpace(t[WordLength(t)..])
  {
    var n := WordLength(t);
    assert t == t[..n] + t[n..];
    NonSpaceAppend(t[..n], t[n..]);
    NonSpaceNoSpace(t[..n]);
  }

  // ---------------------------------------------------------------- join then split

  lemma ConcatAssoc<T>(x: seq<T>, y: seq<T>, z: seq<T>)
    ensures x + (y + z) == (x + y) + z
  {
  }

  lemma ConcatUnit<T>(x: seq<T>)
    ensures [] + x == x && x + [] == x
  {
  }

  /** " ".join(ws) */
  function JoinSpace(ws: seq<string>): string {
    if ws == [] then [] else if |ws| == 1 then ws[0] else JoinSpace(ws[..|ws| - 1]) + (" " + ws[|ws| - 1])
  }

  lemma {:induction false} NotInRanges(k: int, rs: seq<(int, int)>)
    requires forall i :: 0 <= i < |rs| ==> !(rs[i].0 <= k <= rs[i].1)
    ensures !InRanges(k, rs)
    decreases |rs|
  {
    if rs != [] {
      NotInRanges(k, rs[1..]);
    }
  }

  /** No printable ASCII character other than the blank is whitespace. */
  lemma PrintableNotSpace(c: char)
    requires '!' <= c <= '~'
    ensures !IsSpace(c)
  {
    NotInRanges(c as int, SpaceRanges);
  }

  lemma BlankIsSpace()
    ensures IsSpace(' ')
  {
    assert SpaceRanges[1..][0] == (0x1C, 0x20);
  }

  lemma {:induction false} TrimStartAllSpace(a: string, b: string)
    requires forall i :: 0 <= i < |a| ==> IsSpace(a[i])
    ensures TrimStart(a + b) == TrimStart(b)
    decreases |a|
  {
    if a != [] {
      assert (a + b)[1..] == a[1..] + b;
      TrimStartAllSpace(a[1..], b);
    } else {
      assert a + b == b;
    }
  }

  lemma {:induction false} TrimStartAppend(a: string, b: string)
    requires TrimStart(a) != []
    ensures TrimStart(a + b) == TrimStart(a) + b
    decreases |a|
  {
    assert a != [] && (a + b)[0] == a[0];
    if IsSpace(a[0]) {
      assert TrimStart(a) == TrimStart(a[1..]);
      assert (a + b)[1..] == a[1..] + b;
      TrimStartAppend(a[1..], b);
      assert TrimStart(a + b) == TrimStart((a + b)[1..]);
    } else {
      assert TrimStart(a) == a && TrimStart(a + b) == a + b;
    }
  }

  lemma {:induction false} WordLengthAppend(t: string, b: string)
    requires WordLength(t) < |t| || b == [] || IsSpace(b[0])
    ensures WordLength(t + b) == WordLength(t)
    decreases |t|
  {
    if t == [] {
      assert t + b == b;
    } else {
      assert (t + b)[0] == t[0];
      if !IsSpace(t[0]) {
        assert (t + b)[1..] == t[1..] + b;
        WordLengthAppend(t[1..], b);
        assert WordLength(t + b) == 1 + WordLength((t + b)[1..]);
      }
    }
  }

  /** Splitting at a blank boundary: the tokens of a + b are those of a followed by those of b. */
  lemma {:induction false} WordsAppend(a: string, b: string)
    requires b == [] || IsSpace(b[0])
    ensures Words(a + b) == Words(a) + Words(b)
    decreases |a|
  {
    var t := TrimStart(a);
    if t == [] {
      WordsAppendBlank(a, b);
    } else {
      var n := WordLength(t);
      WordsAppendStep(a, b, t, n);
      WordsFirst(a, t, n);
      WordsAppend(t[n..], b);
      ConcatAssoc([t[..n]], Words(t[n..]), Words(b));
    }
  }

  lemma WordsAppendBlank(a: string, b: string)
    requires TrimStart(a) == []
    ensures Words(a + b) == Words(a) + Words(b)
  {
    TrimStartRules(a);
    TrimStartAllSpace(a, b);
    WordsTrimmed(a + b, b);
    assert Words(a) == [];
    ConcatUnit(Words(b));
  }

  lemma WordsAppendStep(a: string, b: string, t: string, n: nat)
    requires t == TrimStart(a) && t != [] && n == WordLength(t)
    requires b == [] || IsSpace(b[0])
    ensures 1 <= n <= |t| <= |a|
    ensures Words(a + b) == [t[..n]] + Words(t[n..] + b)
  {
    TrimStartAppend(a, b);
    WordLengthAppend(t, b);
    SliceAppend(t, b, n);
    WordsFirst(a + b, t + b, n);
  }

  lemma SliceAppend(t: string, b: string, n: nat)
    requires n <= |t|
    ensures (t + b)[..n] == t[..n] && (t + b)[n..] == t[n..] + b
  {
  }

  /** Only the text after the leading blanks matters. */
  lemma WordsTrimmed(s: string, u: string)
    requires TrimStart(s) == TrimStart(u)
    ensures Words(s) == Words(u)
  {
  }

  /** One unfolding of Words on a string that has a token. */
  lemma WordsFirst(s: string, t: string, n: nat)
    requires t == TrimStart(s) && t != [] && n == WordLength(t)
    ensures 1 <= n && Words(s) == [t[..n]] + Words(t[n..])
  {
  }

  /** Leading blanks do not change the tokens. */
  lemma LeadingBlank(s: string)
    ensures Words(" " + s) == Words(s)
  {
    BlankIsSpace();
    TrimStartAllSpace(" ", s);
  }

  lemma WordsOfWord(w: string)
    requires IsWord(w)
    ensures Words(w) == [w]
  {
    WordLengthAll(w);
    assert TrimStart(w) == w;
    WordsFirst(w, w, |w|);
    assert w[..|w|] == w && w[|w|..] == [];
    assert Words([]) == [];
    ConcatUnit([w]);
  }

  lemma {:induction false} WordLengthAll(w: string)
    requires forall i :: 0 <= i < |w| ==> !IsSpace(w[i])
    ensures WordLength(w) == |w|
    decreases |w|
  {
    if w != [] {
      WordLengthAll(w[1..]);
    }
  }

  /** Joining two lists and splitting again is splitting each and concatenating. */
  lemma {:induction false} WordsJoinAppend(a: seq<string>, b: seq<string>)
    ensures Words(JoinSpace(a + b)) == Words(JoinSpace(a)) + Words(JoinSpace(b))
    decreases |b|
  {
    if b == [] {
      assert a + b == a;
    } else if a == [] {
      assert a + b == b;
    } else {
      var init, w := b[..|b| - 1], b[|b| - 1];
      assert (a + b)[..|a + b| - 1] == a + init && (a + b)[|a + b| - 1] == w;
      WordsJoinAppend(a, init);
      assert JoinSpace(a + b) == JoinSpace(a + init) + (" " + w);
      BlankIsSpace();
      WordsAppend(JoinSpace(a + init), " " + w);
      LeadingBlank(w);
      var x, y, z := Words(JoinSpace(a)), Words(JoinSpace(init)), Words(w);
      assert Words(JoinSpace(a + b)) == (x + y) + z;
      if init == [] {
        assert JoinSpace(b) == w;
        assert y == [] by { assert JoinSpace(init) == []; }
        ConcatUnit(x);
      } else {
        assert b[..|b| - 1] == init;
        assert JoinSpace(b) == JoinSpace(init) + (" " + w);
        WordsAppend(JoinSpace(init), " " + w);
        assert Words(JoinSpace(b)) == y + z;
        ConcatAssoc(x, y, z);
      }
    }
  }

  /** str.split() undoes " ".join() on whitespace-free, non-empty tokens. */
  lemma {:induction false} SplitJoin(ws: seq<string>)
    requires forall i :: 0 <= i < |ws| ==> IsWord(ws[i])
    ensures Words(JoinSpace(ws)) == ws
    decreases |ws|
  {
    if ws != [] {
      var init, w := ws[..|ws| - 1], ws[|ws| - 1];
      assert ws == init + [w];
      SplitJoin(init);
      WordsJoinAppend(init, [w]);
      WordsOfWord(w);
    }
  }

  /** s.split(sep)[0]: the prefix of s before the first occurrence of sep. */
  function Before(s: string, sep: char): (r: string)
    ensures |r| <= |s| && r == s[..|r|]
    ensures sep !in r
    ensures |r| < |s| ==> s[|r|] == sep
  {
    if s == [] || s[0] == sep then [] else [s[0]] + Before(s[1..], sep)
  }

  // ---------------------------------------------------------------- case mapping

  function UpperChar(c: char): char {
    if 'a' <= c <= 'z' then (c as int - 32) as char else c
  }

  function LowerChar(c: char): char {
    if 'A' <= c <= 'Z' then (c as int + 32) as char else c
  }

  /** s.upper() on ASCII letters. */
  function Upper(s: string): (r: string)
    ensures |r| == |s| && forall i :: 0 <= i < |s| ==> r[i] == UpperChar(s[i])
  {
    seq(|s|, i requires 0 <= i < |s| => UpperChar(s[i]))
  }

  /** s.lower() on ASCII letters. */
  function Lower(s: string): (r: string)
    ensures |r| == |s| && forall i :: 0 <= i < |s| ==> r[i] == LowerChar(s[i])
  {
    seq(|s|, i requires 0 <= i < |s| => LowerChar(s[i]))
  }

  // ---------------------------------------------------------------- substring test

  predicate StartsWith(s: string, p: string) {
    |p| <= |s| && s[..|p|] == p
  }

  /** Python's `sub in s`. */
  predicate Contains(s: string, sub: string) {
    StartsWith(s, sub) || (s != [] && Contains(s[1..], sub))
  }

  /** The substring test agrees with the positional definition. */
  lemma {:induction false} ContainsAt(s: string, sub: string, k: nat)
    requires k + |sub| <= |s| && s[k..k + |sub|] == sub
    ensures Contains(s, sub)
  {
    if k > 0 {
      assert s[1..][k - 1..k - 1 + |sub|] == sub;
      ContainsAt(s[1..], sub, k - 1);
    }
  }

  /** A substring that holds a character the string lacks does not occur in it. */
  lemma {:induction false} AbsentChar(s: string, sub: string, ch: char)
    requires ch in sub && ch !in s
    ensures !Contains(s, sub)
  {
    var i :| 0 <= i < |sub| && sub[i] == ch;
    if |sub| <= |s| {
      assert s[..|sub|][i] != sub[i];
    }
    if s != [] {
      AbsentChar(s[1..], sub, ch);
    }
  }

  /** A substring longer than the string does not occur in it. */
  lemma {:induction false} TooLong(s: string, sub: string)
    requires |s| < |sub|
    ensures !Contains(s, sub)
  {
    if s != [] {
      TooLong(s[1..], sub);
    }
  }

  lemma {:induction false} ContainsWitness(s: string, sub: string) returns (k: nat)
    requires Contains(s, sub)
    ensures k + |sub| <= |s| && s[k..k + |sub|] == sub
  {
    if StartsWith(s, sub) {
      k := 0;
    } else {
      var k' := ContainsWitness(s[1..], sub);
      k := k' + 1;
      assert s[1..][k'..k' + |sub|] == s[k..k + |sub|];
    }
  }

  // ---------------------------------------------------------------- str(n)

  function DigitChar(d: nat): (c: char)
    requires d < 10
    ensures IsDigit(c)
  {
    ('0' as int + d) as char
  }

  /** str(n) for a natural number n: decimal digits, no leading zero. */
  function Decimal(n: nat): (r: string)
    ensures |r| >= 1 && forall i :: 0 <= i < |r| ==> IsDigit(r[i])
    ensures (|r| == 1) == (n < 10)
  {
    if n < 10 then [DigitChar(n)] else Decimal(n / 10) + [DigitChar(n % 10)]
  }

  /** The number a string of decimal digits denotes (int(s)). */
  function DigitsValue(s: string): nat
    requires forall i :: 0 <= i < |s| ==> IsDigit(s[i])
  {
    if s == [] then 0
    else
      assert IsDigit(s[|s| - 1]);
      10 * DigitsValue(s[..|s| - 1]) + (s[|s| - 1] as int - '0' as int)
  }

  /** Reading back the decimal text of n gives n. */
  lemma {:induction false} DecimalRoundTrip(n: nat)
    ensures DigitsValue(Decimal(n)) == n
  {
    if n >= 10 {
      var r := Decimal(n);
      assert r[..|r| - 1] == Decimal(n / 10);
      DecimalRoundTrip(n / 10);
    }
  }

  lemma DecimalInjective(a: nat, b: nat)
    requires Decimal(a) == Decimal(b)
    ensures a == b
  {
    DecimalRoundTrip(a);
    DecimalRoundTrip(b);
  }

  /** str(i) for an integer. */
  function IntText(i: int): string {
    if i < 0 then "-" + Decimal(-i) else Decimal(i)
  }

  // ---------------------------------------------------------------- string order and sort

  /** Python's a <= b on strings: lexicographic by code point, a proper prefix first. */
  predicate LexLe(a: string, b: string) {
    if a == [] then true
    else if b == [] then false
    else if a[0] != b[0] then a[0] < b[0]
    else LexLe(a[1..], b[1..])
  }

  lemma {:induction false} LexLeTotal(a: string, b: string)
    ensures LexLe(a, b) || LexLe(b, a)
  {
    if a != [] && b != [] && a[0] == b[0] { LexLeTotal(a[1..], b[1..]); }
  }

  lemma {:induction false} LexLeTransitive(a: string, b: string, c: string)
    requires LexLe(a, b) && LexLe(b, c)
    ensures LexLe(a, c)
  {
    if a != [] && b != [] && c != [] && a[0] == b[0] && b[0] == c[0] {
      LexLeTransitive(a[1..], b[1..], c[1..]);
    }
  }

  lemma {:induction false} LexLeAntisymmetric(a: string, b: string)
    requires LexLe(a, b) && LexLe(b, a)
    ensures a == b
  {
    if a != [] && b != [] {
      LexLeAntisymmetric(a[1..], b[1..]);
      assert a == [a[0]] + a[1..] && b == [b[0]] + b[1..];
    }
  }

  ghost predicate Sorted(s: seq<string>) {
    forall i, j :: 0 <= i < j < |s| ==> LexLe(s[i], s[j])
  }

  /** Insert x before the first element it does not exceed. */
  function Insert(x: string, s: seq<string>): (r: seq<string>)
    ensures multiset(r) == multiset(s) + multiset{x}
  {
    if s == [] then [x]
    else if LexLe(x, s[0]) then [x] + s
    else
      assert s == [s[0]] + s[1..];
      [s[0]] + Insert(x, s[1..])
  }

  lemma {:induction false} InsertSorted(x: string, s: seq<string>)
    requires Sorted(s)
    ensures Sorted(Insert(x, s))
  {
    if s != [] {
      if LexLe(x, s[0]) {
        InsertFront(x, s);
      } else {
        InsertSorted(x, s[1..]);
        InsertBehind(x, s, Insert(x, s[1..]));
      }
    }
  }

  lemma InsertFront(x: string, s: seq<string>)
    requires s != [] && Sorted(s) && LexLe(x, s[0])
    ensures Sorted([x] + s)
  {
    forall j | 0 <= j < |s| ensures LexLe(x, s[j]) {
      if j > 0 { LexLeTransitive(x, s[0], s[j]); }
    }
  }

  lemma InsertBehind(x: string, s: seq<string>, t: seq<string>)
    requires s != [] && Sorted(s) && !LexLe(x, s[0])
    requires multiset(t) == multiset(s[1..]) + multiset{x} && Sorted(t)
    ensures Sorted([s[0]] + t)
  {
    LexLeTotal(x, s[0]);
    forall j | 0 <= j < |t| ensures LexLe(s[0], t[j]) {
      assert t[j] in multiset(t);
      if t[j] != x {
        assert t[j] in multiset(s[1..]);
        var k :| 0 <= k < |s[1..]| && s[1..][k] == t[j];
        assert s[k + 1] == t[j];
      }
    }
  }

  /** list.sort() on strings (an insertion sort stands for Python's sort; only its result matters). */
  function Sort(s: seq<string>): seq<string> {
    if s == [] then [] else Insert(s[0], Sort(s[1..]))
  }

  /** The sort yields an ordered permutation of its input. */
  lemma {:induction false} SortSpec(s: seq<string>)
    ensures Sorted(Sort(s))
    ensures multiset(Sort(s)) == multiset(s)
  {
    if s != [] {
      SortSpec(s[1..]);
      InsertSorted(s[0], Sort(s[1..]));
      assert s == [s[0]] + s[1..];
    }
  }

  /** A permutation of a list without duplicates has no duplicates. */
  lemma PermutationNoDup(s: seq<string>, r: seq<string>)
    requires multiset(r) == multiset(s) && NoDup(s)
    ensures NoDup(r)
  {
    NoDupCounts(s);
    NoDupCounts(r);
  }

  /** A sequence has no duplicates exactly when no element occurs in it more than once. */
  lemma NoDupCounts<T>(s: seq<T>)
    ensures NoDup(s) <==> forall c :: multiset(s)[c] <= 1
  {
    if NoDup(s) {
      forall c ensures multiset(s)[c] <= 1 { CountAtMostOne(s, c); }
    } else {
      var i, j :| 0 <= i < j < |s| && s[i] == s[j];
      TwoOccurrences(s, i, j);
    }
  }

  lemma {:induction false} CountAtMostOne<T>(s: seq<T>, c: T)
    requires NoDup(s)
    ensures multiset(s)[c] <= 1
  {
    if s != [] {
      assert s == [s[0]] + s[1..];
      CountAtMostOne(s[1..], c);
      if s[0] == c { assert c !in s[1..]; }
    }
  }

  lemma TwoOccurrences<T>(r: seq<T>, i: nat, j: nat)
    requires i < j < |r| && r[i] == r[j]
    ensures multiset(r)[r[i]] >= 2
  {
    assert r == r[..i] + [r[i]] + r[i + 1..j] + [r[j]] + r[j + 1..];
  }
}
