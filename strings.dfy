/** The handful of Python `str` operations the parsers are built from, on `seq<char>`.
    Each follows CPython's definition: matching is left to right and never overlaps. */
module Strings {
  import opened Wrappers

  /** The characters for which `c.isspace()` holds: those `str.strip()` removes. */
  const SpaceChars: seq<char> := [
    ' ', '\t', '\n', '\r', '\U{0B}', '\U{0C}', '\U{1C}', '\U{1D}', '\U{1E}', '\U{1F}',
    '\U{85}', '\U{A0}', '\U{1680}', '\U{2000}', '\U{2001}', '\U{2002}', '\U{2003}',
    '\U{2004}', '\U{2005}', '\U{2006}', '\U{2007}', '\U{2008}', '\U{2009}', '\U{200A}',
    '\U{2028}', '\U{2029}', '\U{202F}', '\U{205F}', '\U{3000}']

  /** `c` is one of `SpaceChars[k..]`. */
  predicate SpaceFrom(c: char, k: nat)
    decreases |SpaceChars| - k
  {
    k < |SpaceChars| && (SpaceChars[k] == c || SpaceFrom(c, k + 1))
  }

  /** `c.isspace()` */
  predicate IsSpace(c: char) {
    SpaceFrom(c, 0)
  }

  /** `SpaceFrom(c, k)` holds exactly when `c` is one of `SpaceChars[k..]`. */
  lemma {:induction false} SpaceFromIn(c: char, k: nat)
    ensures SpaceFrom(c, k) <==> exists j :: k <= j < |SpaceChars| && SpaceChars[j] == c
    decreases |SpaceChars| - k
  {
    if k < |SpaceChars| {
      SpaceFromIn(c, k + 1);
    }
  }

  /** The whitespace characters are the control characters up to the space and a few
      beyond ASCII: no visible ASCII character is whitespace. */
  lemma NotSpace(c: char)
    requires ' ' < c < '\U{85}'
    ensures !IsSpace(c)
  {
    SpaceFromIn(c, 0);
  }

  /** A newline is whitespace. */
  lemma NewlineIsSpace()
    ensures IsSpace('\n')
  {
    assert SpaceChars[2] == '\n';
    SpaceFromIn('\n', 0);
  }

  predicate AllSpace(s: string) {
    forall i :: 0 <= i < |s| ==> IsSpace(s[i])
  }

  /** `s.startswith(p)` */
  predicate StartsWith(s: string, p: string) {
    |p| <= |s| && s[..|p|] == p
  }

  /** `p` occurs in `s` starting at index `i`. */
  predicate OccursAt(s: string, p: string, i: nat) {
    i + |p| <= |s| && s[i..i + |p|] == p
  }

  /** Occurrences in `s` past index 0 are the occurrences in `s[1..]`, shifted by one. */
  lemma ShiftOccurrences(s: string, p: string)
    requires |s| > 0
    ensures forall j: nat :: 1 <= j ==> (OccursAt(s, p, j) <==> OccursAt(s[1..], p, j - 1))
  {
    forall j: nat | 1 <= j ensures OccursAt(s, p, j) <==> OccursAt(s[1..], p, j - 1) {
      if j + |p| <= |s| {
        assert s[1..][j - 1..] == s[j..];
        assert s[j..j + |p|] == s[j..][..|p|];
        assert s[1..][j - 1..j - 1 + |p|] == s[1..][j - 1..][..|p|];
      }
    }
  }

  /** `s.find(p)`, with `None` for -1: an index at which `p` occurs, the first one
      (`IndexOfFirst`). */
  function IndexOf(s: string, p: string): (r: Option<nat>)
    ensures r.Some? ==> OccursAt(s, p, r.value)
    decreases |s|
  {
    if StartsWith(s, p) then Some(0)
    else if |s| == 0 then None
    else
      match IndexOf(s[1..], p)
      case Some(k) =>
        ShiftOccurrences(s, p);
        Some(k + 1)
      case None => None
  }

  /** No occurrence comes before the one `IndexOf` finds, and `None` means there is none. */
  lemma {:induction false} IndexOfFirst(s: string, p: string)
    ensures IndexOf(s, p).Some? ==> forall j :: 0 <= j < IndexOf(s, p).value ==> !OccursAt(s, p, j)
    ensures IndexOf(s, p).None? ==> forall j :: 0 <= j <= |s| ==> !OccursAt(s, p, j)
    decreases |s|
  {
    if !StartsWith(s, p) {
      assert !OccursAt(s, p, 0) by {
        if |p| <= |s| { assert s[0..|p|] == s[..|p|]; }
      }
      if |s| > 0 {
        IndexOfFirst(s[1..], p);
        ShiftOccurrences(s, p);
      }
    }
  }

  /** `p in s` */
  predicate Contains(s: string, p: string) {
    IndexOf(s, p).Some?
  }

  /** `p in s` exactly when `p` occurs somewhere in `s`. */
  lemma ContainsIff(s: string, p: string)
    ensures Contains(s, p) <==> exists j :: 0 <= j <= |s| && OccursAt(s, p, j)
  {
    IndexOfFirst(s, p);
  }

  /** The first occurrence is the one at `k` when nothing occurs before `k`. */
  lemma IndexOfAt(s: string, p: string, k: nat)
    requires OccursAt(s, p, k)
    requires forall j :: 0 <= j < k ==> !OccursAt(s, p, j)
    ensures IndexOf(s, p) == Some(k)
  {
    IndexOfFirst(s, p);
  }

  /** A pattern whose first character is absent from `s` does not occur in `s`. */
  lemma FirstCharAbsent(s: string, p: string)
    requires p != "" && p[0] !in s
    ensures !Contains(s, p)
  {
    forall j | 0 <= j <= |s| ensures !OccursAt(s, p, j) {
      if j + |p| <= |s| {
        assert s[j..j + |p|][0] == s[j];
      }
    }
    ContainsIff(s, p);
  }

  /** The first occurrence is the one at `k` when the pattern's first character does not
      appear before `k`. */
  lemma IndexAfterGap(s: string, p: string, k: nat)
    requires p != "" && OccursAt(s, p, k) && p[0] !in s[..k]
    ensures IndexOf(s, p) == Some(k)
  {
    forall j | 0 <= j < k ensures !OccursAt(s, p, j) {
      if j + |p| <= |s| {
        assert s[j..j + |p|][0] == s[j] == s[..k][j];
      }
    }
    IndexOfAt(s, p, k);
  }

  /** The text before the first `p` (all of `s` when `p` is absent): `s.split(p)[0]`. */
  function Before(s: string, p: string): string {
    match IndexOf(s, p)
    case None => s
    case Some(k) => s[..k]
  }

  /** The text after the first `p` (empty when `p` is absent). */
  function After(s: string, p: string): string {
    match IndexOf(s, p)
    case None => ""
    case Some(k) => s[k + |p|..]
  }

  /** An occurrence inside a prefix is an occurrence in the whole string. */
  lemma OccursInPrefix(s: string, p: string, k: nat, j: nat)
    requires k <= |s| && OccursAt(s[..k], p, j)
    ensures OccursAt(s, p, j) && j + |p| <= k
  {
    assert s[j..j + |p|] == s[..k][j..j + |p|];
  }

  /** The first occurrence splits `s` into the part before it, `p`, and the part after it,
      and the part before it holds no occurrence of `p`. */
  lemma BeforeAfter(s: string, p: string)
    requires p != ""
    ensures Contains(s, p) ==> s == Before(s, p) + p + After(s, p)
    ensures !Contains(s, p) ==> Before(s, p) == s && After(s, p) == ""
    ensures !Contains(Before(s, p), p)
  {
    IndexOfFirst(s, p);
    match IndexOf(s, p)
    case None =>
    case Some(k) =>
      assert s == s[..k] + s[k..k + |p|] + s[k + |p|..];
      if Contains(s[..k], p) {
        ContainsIff(s[..k], p);
        var j :| 0 <= j <= k && OccursAt(s[..k], p, j);
        OccursInPrefix(s, p, k, j);
      }
  }

  /** `sep.join(parts)` */
  function Join(sep: string, parts: seq<string>): string {
    if |parts| == 0 then ""
    else if |parts| == 1 then parts[0]
    else parts[0] + sep + Join(sep, parts[1..])
  }

  /** Joining a first part onto at least one more puts the separator between them. */
  lemma JoinCons(sep: string, p: string, rest: seq<string>)
    requires |rest| >= 1
    ensures Join(sep, [p] + rest) == p + sep + Join(sep, rest)
  {
    assert ([p] + rest)[1..] == rest;
  }

  /** `s.split(sep)`: cuts at every occurrence of `sep`, first to last (`SplitSpec`). */
  function Split(s: string, sep: string): (r: seq<string>)
    requires sep != ""
    ensures |r| >= 1
    decreases |s|
  {
    match IndexOf(s, sep)
    case None => [s]
    case Some(k) => [s[..k]] + Split(s[k + |sep|..], sep)
  }

  /** The first piece is the text before the first `sep`, and the rest is the split of the
      text after it; with no `sep` there is one piece, `s` itself. */
  lemma SplitFirst(s: string, sep: string)
    requires sep != ""
    ensures Split(s, sep)[0] == Before(s, sep)
    ensures |Split(s, sep)| >= 2 <==> Contains(s, sep)
    ensures Contains(s, sep) ==> Split(s, sep)[1..] == Split(After(s, sep), sep)
    ensures !Contains(s, sep) ==> Split(s, sep) == [s]
  {
    match IndexOf(s, sep)
    case None =>
    case Some(k) =>
      assert ([s[..k]] + Split(s[k + |sep|..], sep))[1..] == Split(s[k + |sep|..], sep);
  }

  /** Joining the pieces with `sep` gives `s` back, and no piece contains `sep`. */
  lemma {:induction false} SplitSpec(s: string, sep: string)
    requires sep != ""
    ensures Join(sep, Split(s, sep)) == s
    ensures forall i :: 0 <= i < |Split(s, sep)| ==> !Contains(Split(s, sep)[i], sep)
    decreases |s|
  {
    BeforeAfter(s, sep);
    SplitFirst(s, sep);
    if Contains(s, sep) {
      var r := Split(s, sep);
      var rest := Split(After(s, sep), sep);
      assert |After(s, sep)| < |s|;
      SplitSpec(After(s, sep), sep);
      assert r == [r[0]] + rest;
      forall i | 0 <= i < |r| ensures !Contains(r[i], sep) {
        if i > 0 { assert r[i] == rest[i - 1]; }
      }
    }
  }

  /** Text found inside a middle part is found in the whole. */
  lemma ContainsInfix(a: string, b: string, c: string, h: string)
    ensures Contains(b, h) ==> Contains(a + b + c, h)
  {
    if Contains(b, h) {
      ContainsIff(b, h);
      var j :| 0 <= j <= |b| && OccursAt(b, h, j);
      assert (a + b + c)[|a| + j..|a| + j + |h|] == b[j..j + |h|];
      assert OccursAt(a + b + c, h, |a| + j);
      ContainsIff(a + b + c, h);
    }
  }

  /** The text before the first `p` is a prefix of `s`. */
  lemma BeforePrefix(s: string, p: string)
    ensures |Before(s, p)| <= |s| && Before(s, p) == s[..|Before(s, p)|]
  {
    match IndexOf(s, p)
    case None =>
    case Some(k) =>
  }

  /** Text found in a prefix is found in the whole. */
  lemma PrefixContains(s: string, k: nat, h: string)
    requires k <= |s|
    ensures Contains(s[..k], h) ==> Contains(s, h)
  {
    assert "" + s[..k] + s[k..] == s;
    ContainsInfix("", s[..k], s[k..], h);
  }

  /** Cutting a string that lacks `h` at `p` and stripping it gives a stripped string that
      lacks both `h` and `p`. */
  lemma CutLacks(s: string, p: string, h: string)
    requires p != "" && !Contains(s, h)
    ensures var x := Strip(Before(s, p)); Stripped(x) && !Contains(x, h) && !Contains(x, p)
  {
    var cut := Before(s, p);
    BeforeAfter(s, p);
    BeforePrefix(s, p);
    PrefixContains(s, |cut|, h);
    StripSpec(cut);
    StripContains(cut, h);
    StripContains(cut, p);
  }

  /** A string that starts with `p` contains `p`. */
  lemma StartsContains(s: string, p: string)
    requires StartsWith(s, p)
    ensures Contains(s, p)
  {
    assert OccursAt(s, p, 0);
    ContainsIff(s, p);
  }

  /** Text found in the stripped string is found in the string. */
  lemma StripContains(s: string, h: string)
    ensures Contains(Strip(s), h) ==> Contains(s, h)
  {
    StripSpec(s);
    var l, r := LStrip(s), Strip(s);
    assert s == s[..|s| - |l|] + r + l[|r|..];
    ContainsInfix(s[..|s| - |l|], r, l[|r|..], h);
  }

  /** Text found in one of the joined parts is found in the joined string. */
  lemma {:induction false} JoinContainsPart(sep: string, parts: seq<string>, i: nat, h: string)
    requires i < |parts|
    ensures Contains(parts[i], h) ==> Contains(Join(sep, parts), h)
  {
    if |parts| == 1 {
    } else if i == 0 {
      ContainsInfix("", parts[0], sep + Join(sep, parts[1..]), h);
      assert "" + parts[0] + (sep + Join(sep, parts[1..])) == Join(sep, parts);
    } else {
      JoinContainsPart(sep, parts[1..], i - 1, h);
      ContainsInfix(parts[0] + sep, Join(sep, parts[1..]), "", h);
      assert parts[0] + sep + Join(sep, parts[1..]) + "" == Join(sep, parts);
    }
  }

  /** A piece of `s.split(sep)` is part of `s`, so what it contains `s` contains. */
  lemma PieceContains(s: string, sep: string, i: nat, h: string)
    requires sep != "" && i < |Split(s, sep)|
    ensures Contains(Split(s, sep)[i], h) ==> Contains(s, h)
  {
    SplitSpec(s, sep);
    JoinContainsPart(sep, Split(s, sep), i, h);
  }

  /** `s.split(sep, 1)`: at most one cut, at the first occurrence. */
  function SplitOnce(s: string, sep: string): (r: seq<string>)
    requires sep != ""
    ensures |r| == 1 || |r| == 2
    ensures |r| == 2 <==> Contains(s, sep)
    ensures Join(sep, r) == s
    ensures !Contains(r[0], sep)
  {
    BeforeAfter(s, sep);
    match IndexOf(s, sep)
    case None => [s]
    case Some(k) => [s[..k], s[k + |sep|..]]
  }

  /** The two pieces of a one-cut split are the text before and after the first `sep`. */
  lemma SplitOnceParts(s: string, sep: string)
    requires sep != ""
    ensures Contains(s, sep) ==> SplitOnce(s, sep) == [Before(s, sep), After(s, sep)]
    ensures !Contains(s, sep) ==> SplitOnce(s, sep) == [s]
  {
  }

  /** Cutting at the first `sep` keeps a prefix of `s` in which `sep`'s first character
      does not appear. */
  lemma BeforeKeepsPrefix(s: string, p: string, sep: string)
    requires sep != "" && StartsWith(s, p) && sep[0] !in p
    ensures StartsWith(Before(s, sep), p)
  {
    match IndexOf(s, sep)
    case None =>
    case Some(k) =>
      forall j | 0 <= j < |p| ensures !OccursAt(s, sep, j) {
        assert s[j] == s[..|p|][j] == p[j];
        if j + |sep| <= |s| {
          assert s[j..j + |sep|][0] == s[j];
        }
      }
      assert s[..k][..|p|] == s[..|p|];
  }

  /** Right-stripping stops at the last non-whitespace character. */
  lemma {:induction false} RStripKeeps(s: string, n: nat)
    requires n < |s| && !IsSpace(s[n])
    ensures |RStrip(s)| > n
    decreases |s|
  {
    if IsSpace(s[|s| - 1]) {
      assert s[..|s| - 1][n] == s[n];
      RStripKeeps(s[..|s| - 1], n);
    }
  }

  /** A prefix that neither starts nor ends with whitespace survives stripping. */
  lemma StripKeepsPrefix(s: string, q: string)
    requires StartsWith(s, q) && q != "" && !IsSpace(q[0]) && !IsSpace(q[|q| - 1])
    ensures StartsWith(Strip(s), q)
  {
    assert s[0] == q[0];
    assert LStrip(s) == s;
    assert s[|q| - 1] == s[..|q|][|q| - 1];
    RStripKeeps(s, |q| - 1);
    RStripSpec(s);
    assert RStrip(s)[..|q|] == s[..|q|];
  }

  /** `s.replace(pat, repl)`: every occurrence replaced, left to right (`ReplaceIsJoin`). */
  function Replace(s: string, pat: string, repl: string): (r: string)
    requires pat != ""
    ensures !Contains(s, pat) ==> r == s
    decreases |s|
  {
    match IndexOf(s, pat)
    case None => s
    case Some(k) => s[..k] + repl + Replace(s[k + |pat|..], pat, repl)
  }

  /** Replacing is joining the pieces of the split with the replacement. */
  lemma {:induction false} ReplaceIsJoin(s: string, pat: string, repl: string)
    requires pat != ""
    ensures Replace(s, pat, repl) == Join(repl, Split(s, pat))
    decreases |s|
  {
    var idx := IndexOf(s, pat);
    if idx.Some? {
      var k := idx.value;
      var tail := s[k + |pat|..];
      var rest := Split(tail, pat);
      assert Replace(s, pat, repl) == s[..k] + repl + Replace(tail, pat, repl);
      assert Split(s, pat) == [s[..k]] + rest;
      ReplaceIsJoin(tail, pat, repl);
      JoinCons(repl, s[..k], rest);
    }
  }

  /** `s.replace(pat, repl, 1)`: only the first occurrence replaced. */
  function ReplaceFirst(s: string, pat: string, repl: string): (r: string)
    ensures StartsWith(s, pat) ==> r == repl + s[|pat|..]
    ensures !Contains(s, pat) ==> r == s
    ensures Contains(s, pat) ==> r == Before(s, pat) + repl + After(s, pat)
  {
    match IndexOf(s, pat)
    case None => s
    case Some(k) => s[..k] + repl + s[k + |pat|..]
  }

  /** `s.lstrip()`: drops leading whitespace (`LStripSpec`). */
  function LStrip(s: string): (r: string)
    ensures |r| <= |s|
  {
    if |s| > 0 && IsSpace(s[0]) then LStrip(s[1..]) else s
  }

  /** `s.lstrip()` is a suffix of `s`, preceded only by whitespace, that does not start with it. */
  lemma {:induction false} LStripSpec(s: string)
    ensures var r := LStrip(s);
      r == s[|s| - |r|..] && AllSpace(s[..|s| - |r|]) && (r == "" || !IsSpace(r[0]))
  {
    if |s| > 0 && IsSpace(s[0]) {
      var r := LStrip(s[1..]);
      LStripSpec(s[1..]);
      assert s[..|s| - |r|] == [s[0]] + s[1..][..|s[1..]| - |r|];
    }
  }

  /** `s.rstrip()`: drops trailing whitespace (`RStripSpec`). */
  function RStrip(s: string): (r: string)
    ensures |r| <= |s|
  {
    if |s| > 0 && IsSpace(s[|s| - 1]) then RStrip(s[..|s| - 1]) else s
  }

  /** `s.rstrip()` is a prefix of `s`, followed only by whitespace, that does not end with it. */
  lemma {:induction false} RStripSpec(s: string)
    ensures var r := RStrip(s);
      r == s[..|r|] && AllSpace(s[|r|..]) && (r == "" || !IsSpace(r[|r| - 1]))
  {
    if |s| > 0 && IsSpace(s[|s| - 1]) {
      var r := RStrip(s[..|s| - 1]);
      RStripSpec(s[..|s| - 1]);
      assert s[|r|..] == s[..|s| - 1][|r|..] + [s[|s| - 1]];
    }
  }

  /** Neither starts nor ends with whitespace. */
  predicate Stripped(s: string) {
    s == "" || (!IsSpace(s[0]) && !IsSpace(s[|s| - 1]))
  }

  /** `s.strip()`: leading and trailing whitespace dropped (`StripSpec`). */
  function Strip(s: string): (r: string)
    ensures |r| <= |s|
  {
    RStrip(LStrip(s))
  }

  /** `s.strip()` starts and ends with no whitespace, and is what is left of `s` once
      whitespace is dropped from both ends. */
  lemma StripSpec(s: string)
    ensures Stripped(Strip(s))
    ensures var l := LStrip(s); var r := Strip(s);
      l == s[|s| - |l|..] && AllSpace(s[..|s| - |l|]) && r == l[..|r|] && AllSpace(l[|r|..])
  {
    var l := LStrip(s);
    var r := RStrip(l);
    LStripSpec(s);
    RStripSpec(l);
    if r != "" {
      assert r[0] == l[0];
    }
  }

  /** A string without surrounding whitespace is its own strip. */
  lemma StripUnchanged(s: string)
    requires Stripped(s)
    ensures Strip(s) == s
  {
    assert LStrip(s) == s;
    assert RStrip(s) == s;
  }

  /** Stripping twice is stripping once. */
  lemma StripIdempotent(s: string)
    ensures Strip(Strip(s)) == Strip(s)
  {
    StripSpec(s);
    StripUnchanged(Strip(s));
  }

  /** Stripping removes characters and adds none. */
  lemma StripKeepsChars(s: string, c: char)
    ensures c !in s ==> c !in Strip(s)
  {
    var l := LStrip(s);
    StripSpec(s);
    SuffixKeepsChars(s, |s| - |l|, c);
    PrefixKeepsChars(l, |RStrip(l)|, c);
  }

  lemma SuffixKeepsChars(s: string, i: nat, c: char)
    requires i <= |s|
    ensures c in s[i..] ==> c in s
  {
    if c in s[i..] {
      var k :| 0 <= k < |s| - i && s[i..][k] == c;
      assert s[i + k] == c;
    }
  }

  lemma PrefixKeepsChars(s: string, n: nat, c: char)
    requires n <= |s|
    ensures c in s[..n] ==> c in s
  {
    if c in s[..n] {
      var k :| 0 <= k < n && s[..n][k] == c;
      assert s[k] == c;
    }
  }

  /** For a one-character pattern, containment is character membership. */
  lemma ContainsChar(s: string, c: char)
    ensures Contains(s, [c]) <==> c in s
  {
    if c in s {
      var k :| 0 <= k < |s| && s[k] == c;
      assert OccursAt(s, [c], k);
    }
    ContainsIff(s, [c]);
    if Contains(s, [c]) {
      var j :| 0 <= j <= |s| && OccursAt(s, [c], j);
      assert s[j..j + 1][0] == s[j];
    }
  }

  /** No piece of `s.split(c)` holds the character `c`. */
  lemma SplitPiecesLack(s: string, c: char)
    ensures forall i :: 0 <= i < |Split(s, [c])| ==> c !in Split(s, [c])[i]
  {
    var pieces := Split(s, [c]);
    SplitSpec(s, [c]);
    forall i | 0 <= i < |pieces| ensures c !in pieces[i] {
      ContainsChar(pieces[i], c);
    }
  }

  /** `[l.strip() for l in lines]` */
  function StripAll(lines: seq<string>): (r: seq<string>)
    ensures |r| == |lines|
    ensures forall i :: 0 <= i < |r| ==> r[i] == Strip(lines[i])
  {
    seq(|lines|, i requires 0 <= i < |lines| => Strip(lines[i]))
  }

  /** `[l for l in lines if l]`: the non-empty strings, in order. */
  function NonEmpty(lines: seq<string>): (r: seq<string>)
    ensures |r| <= |lines|
    ensures forall i :: 0 <= i < |r| ==> r[i] != ""
  {
    if |lines| == 0 then []
    else if lines[0] != "" then [lines[0]] + NonEmpty(lines[1..])
    else NonEmpty(lines[1..])
  }

  /** Filtering distributes over concatenation. */
  lemma {:induction false} NonEmptyAppend(a: seq<string>, b: seq<string>)
    ensures NonEmpty(a + b) == NonEmpty(a) + NonEmpty(b)
  {
    if |a| > 0 {
      assert (a + b)[1..] == a[1..] + b;
      NonEmptyAppend(a[1..], b);
    } else {
      assert a + b == b;
    }
  }

  /** `[l.strip() for l in lines if l.strip()]` */
  function KeepStripped(lines: seq<string>): (r: seq<string>) {
    NonEmpty(StripAll(lines))
  }

  /** Filtering keeps only strings that were already there: a property of every string
      is a property of every string kept. */
  lemma {:induction false} NonEmptyStripped(lines: seq<string>)
    requires forall i :: 0 <= i < |lines| ==> Stripped(lines[i])
    ensures forall i :: 0 <= i < |NonEmpty(lines)| ==> Stripped(NonEmpty(lines)[i])
  {
    if |lines| > 0 {
      NonEmptyStripped(lines[1..]);
      var rest := NonEmpty(lines[1..]);
      if lines[0] != "" {
        forall i | 0 <= i < |rest| + 1 ensures Stripped(([lines[0]] + rest)[i]) {
          if i > 0 { assert ([lines[0]] + rest)[i] == rest[i - 1]; }
        }
      }
    }
  }

  lemma {:induction false} NonEmptyLacks(lines: seq<string>, c: char)
    requires forall i :: 0 <= i < |lines| ==> c !in lines[i]
    ensures forall i :: 0 <= i < |NonEmpty(lines)| ==> c !in NonEmpty(lines)[i]
  {
    if |lines| > 0 {
      NonEmptyLacks(lines[1..], c);
      var rest := NonEmpty(lines[1..]);
      if lines[0] != "" {
        forall i | 0 <= i < |rest| + 1 ensures c !in ([lines[0]] + rest)[i] {
          if i > 0 { assert ([lines[0]] + rest)[i] == rest[i - 1]; }
        }
      }
    }
  }

  /** Every kept line is non-empty and has no surrounding whitespace. */
  lemma KeepStrippedClean(lines: seq<string>)
    ensures forall i :: 0 <= i < |KeepStripped(lines)| ==>
      KeepStripped(lines)[i] != "" && Stripped(KeepStripped(lines)[i])
  {
    var t := StripAll(lines);
    forall i | 0 <= i < |t| ensures Stripped(t[i]) {
      StripSpec(lines[i]);
    }
    NonEmptyStripped(t);
  }

  /** A character absent from every line is absent from every kept line. */
  lemma KeepStrippedLacks(lines: seq<string>, c: char)
    requires forall i :: 0 <= i < |lines| ==> c !in lines[i]
    ensures forall i :: 0 <= i < |KeepStripped(lines)| ==> c !in KeepStripped(lines)[i]
  {
    var t := StripAll(lines);
    forall i | 0 <= i < |t| ensures c !in t[i] {
      StripKeepsChars(lines[i], c);
    }
    NonEmptyLacks(t, c);
  }

  /** `extend` of two line lists keeps the lines of each, in order. */
  lemma KeepStrippedAppend(a: seq<string>, b: seq<string>)
    ensures KeepStripped(a + b) == KeepStripped(a) + KeepStripped(b)
  {
    var l, r := StripAll(a + b), StripAll(a) + StripAll(b);
    forall i | 0 <= i < |l| ensures l[i] == r[i] {
      if i < |a| { assert (a + b)[i] == a[i]; } else { assert (a + b)[i] == b[i - |a|]; }
    }
    assert l == r;
    NonEmptyAppend(StripAll(a), StripAll(b));
  }

  /** `[line.strip() for line in s.split("\n") if line.strip()]` */
  function TrimmedLines(s: string): seq<string> {
    KeepStripped(Split(s, "\n"))
  }

  /** Each trimmed line is non-empty, has no surrounding whitespace and holds no newline. */
  lemma TrimmedLinesClean(s: string)
    ensures forall i :: 0 <= i < |TrimmedLines(s)| ==>
      TrimmedLines(s)[i] != "" && Stripped(TrimmedLines(s)[i]) && '\n' !in TrimmedLines(s)[i]
  {
    SplitPiecesLack(s, '\n');
    KeepStrippedClean(Split(s, "\n"));
    KeepStrippedLacks(Split(s, "\n"), '\n');
  }

  /** `["- " + x for x in items]` */
  function Bullets(items: seq<string>): (r: seq<string>)
    ensures |r| == |items|
    ensures forall i :: 0 <= i < |r| ==> r[i] == "- " + items[i]
  {
    seq(|items|, i requires 0 <= i < |items| => "- " + items[i])
  }

  /** `"\n".join([f"- {item}" for item in items])` */
  function FormatList(items: seq<string>): string {
    Join("\n", Bullets(items))
  }

  /** An empty list formats as the empty string. */
  lemma FormatListEmpty()
    ensures FormatList([]) == ""
  {
  }

  /** Splitting on a one-character separator undoes joining pieces that do not contain it. */
  lemma {:induction false} SplitJoin(sep: string, parts: seq<string>)
    requires |sep| == 1 && |parts| >= 1
    requires forall i :: 0 <= i < |parts| ==> sep[0] !in parts[i]
    ensures Split(Join(sep, parts), sep) == parts
  {
    if |parts| > 1 {
      var s := Join(sep, parts);
      var p0 := parts[0];
      assert s == p0 + sep + Join(sep, parts[1..]);
      assert OccursAt(s, sep, |p0|);
      forall j | 0 <= j < |p0| ensures !OccursAt(s, sep, j) {
        assert s[j] == p0[j];
      }
      IndexOfAt(s, sep, |p0|);
      assert s[..|p0|] == p0;
      assert s[|p0| + 1..] == Join(sep, parts[1..]);
      SplitJoin(sep, parts[1..]);
      assert Split(s, sep) == [p0] + Split(Join(sep, parts[1..]), sep);
      assert parts == [p0] + parts[1..];
    } else {
      ContainsChar(parts[0], sep[0]);
      assert [sep[0]] == sep;
    }
  }

  /** Reading a formatted list back line by line gives the bullets, one per item. */
  lemma FormatListLines(items: seq<string>)
    requires |items| >= 1
    requires forall i :: 0 <= i < |items| ==> '\n' !in items[i]
    ensures Split(FormatList(items), "\n") == Bullets(items)
  {
    var b := Bullets(items);
    forall i | 0 <= i < |b| ensures "\n"[0] !in b[i] {
      assert b[i] == "- " + items[i];
    }
    SplitJoin("\n", b);
  }

  /** The decimal digit of `d`. */
  function Digit(d: nat): char
    requires d < 10
  {
    ('0' as int + d) as char
  }

  /** The value of a digit character. */
  function DigitValue(c: char): nat {
    if '0' <= c <= '9' then (c as int - '0' as int) as nat else 0
  }

  /** `str(n)` for a non-negative integer. */
  function DecimalString(n: nat): (r: string)
    ensures |r| >= 1
    ensures forall i :: 0 <= i < |r| ==> '0' <= r[i] <= '9'
  {
    if n < 10 then [Digit(n)] else DecimalString(n / 10) + [Digit(n % 10)]
  }

  /** The number a string of decimal digits denotes: `int(s)`. */
  function DecimalValue(s: string): nat {
    if |s| == 0 then 0 else 10 * DecimalValue(s[..|s| - 1]) + DigitValue(s[|s| - 1])
  }

  /** `int(str(n)) == n` */
  lemma {:induction false} DecimalRoundTrip(n: nat)
    ensures DecimalValue(DecimalString(n)) == n
  {
    if n < 10 {
      assert DecimalString(n) == [Digit(n)];
      assert DecimalValue([Digit(n)]) == 10 * DecimalValue([]) + DigitValue(Digit(n));
    } else {
      var q, d := n / 10, n % 10;
      var s := DecimalString(q) + [Digit(d)];
      assert s == DecimalString(n);
      assert s[|s| - 1] == Digit(d);
      assert DigitValue(Digit(d)) == d;
      assert s[..|s| - 1] == DecimalString(q);
      DecimalRoundTrip(q);
      assert DecimalValue(s) == 10 * q + d;
    }
  }
}
