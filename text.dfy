/**
 * String primitives of JavaScript that the scraper relies on, stated over
 * `seq<char>`: `includes`, `startsWith`, `endsWith`, `trim`, `toLowerCase`
 * (ASCII letters only), `split` on a single character and `join`.
 */
module Text {

  /** `s.startsWith(p)` */
  predicate StartsWith(s: string, p: string) {
    |p| <= |s| && s[..|p|] == p
  }

  /** `s.endsWith(p)` */
  predicate EndsWith(s: string, p: string) {
    |p| <= |s| && s[|s| - |p|..] == p
  }

  /** `s.includes(w)`: `w` occurs in `s` at some position. */
  predicate Contains(s: string, w: string)
    decreases |s|
  {
    StartsWith(s, w) || (|s| > 0 && Contains(s[1..], w))
  }

  /** `w` occurs in `s` starting at index `i`. */
  predicate OccursAt(s: string, w: string, i: int) {
    0 <= i && i + |w| <= |s| && s[i..i + |w|] == w
  }

  /** A string that contains `w` has an occurrence of it at some index. */
  lemma {:induction false} OccurrenceOf(s: string, w: string) returns (i: nat)
    requires Contains(s, w)
    ensures OccursAt(s, w, i)
    decreases |s|
  {
    if StartsWith(s, w) {
      i := 0;
    } else {
      var j := OccurrenceOf(s[1..], w);
      i := j + 1;
      assert s[i..i + |w|] == s[1..][j..j + |w|];
    }
  }

  /** An occurrence at index `i` means that `s` contains `w`. */
  lemma {:induction false} ContainsOccurrence(s: string, w: string, i: int)
    requires OccursAt(s, w, i)
    ensures Contains(s, w)
    decreases i
  {
    if i > 0 {
      assert s[1..][i - 1..i - 1 + |w|] == s[i..i + |w|];
      ContainsOccurrence(s[1..], w, i - 1);
    }
  }

  /** The positional reading of `Contains`: an occurrence starts at some index. */
  lemma ContainsIff(s: string, w: string)
    ensures Contains(s, w) <==> exists i :: OccursAt(s, w, i)
  {
    if Contains(s, w) {
      var i := OccurrenceOf(s, w);
    }
    forall i | OccursAt(s, w, i) ensures Contains(s, w) {
      ContainsOccurrence(s, w, i);
    }
  }

  /** An occurrence in a suffix of `s` is an occurrence in `s`. */
  lemma {:induction false} ContainsInSuffix(s: string, k: nat, w: string)
    requires k <= |s|
    requires Contains(s[k..], w)
    ensures Contains(s, w)
  {
    if k > 0 {
      assert s[1..][k - 1..] == s[k..];
      ContainsInSuffix(s[1..], k - 1, w);
    }
  }

  /** An occurrence in `a` is an occurrence in `a + b`. */
  lemma {:induction false} ContainsInPrefix(a: string, b: string, w: string)
    requires Contains(a, w)
    ensures Contains(a + b, w)
  {
    if StartsWith(a, w) {
      assert (a + b)[..|w|] == a[..|w|];
    } else {
      assert (a + b)[1..] == a[1..] + b;
      ContainsInPrefix(a[1..], b, w);
    }
  }

  /** Where a word occurs, so does each of its prefixes. */
  lemma {:induction false} ContainsPrefixOf(s: string, w: string, p: string)
    requires StartsWith(w, p) && Contains(s, w)
    ensures Contains(s, p)
  {
    if StartsWith(s, w) {
      assert s[..|p|] == w[..|p|];
    } else {
      ContainsPrefixOf(s[1..], w, p);
    }
  }

  /** The empty string occurs in every string. */
  lemma ContainsEmpty(s: string)
    ensures Contains(s, "")
  {
    assert StartsWith(s, "");
  }

  /** The characters that `String.prototype.trim` removes: JavaScript's
      WhiteSpace and LineTerminator code points. */
  predicate IsSpace(c: char) {
    c == ' ' || c == '\t' || c == '\n' || c == '\r' || c == '\U{B}' || c == '\U{C}'
    || c == '\U{A0}' || c == '\U{1680}' || ('\U{2000}' <= c <= '\U{200A}')
    || c == '\U{2028}' || c == '\U{2029}' || c == '\U{202F}' || c == '\U{205F}'
    || c == '\U{3000}' || c == '\U{FEFF}'
  }

  /** `s.trimStart()`: the suffix left after dropping the leading white space. */
  function TrimStart(s: string): (r: string)
    ensures |r| <= |s| && r == s[|s| - |r|..]
    ensures r == [] || !IsSpace(r[0])
    ensures forall i :: 0 <= i < |s| - |r| ==> IsSpace(s[i])
    decreases |s|
  {
    if s != [] && IsSpace(s[0]) then TrimStart(s[1..]) else s
  }

  /** `s.trimEnd()`: the prefix left after dropping the trailing white space. */
  function TrimEnd(s: string): (r: string)
    ensures |r| <= |s| && r == s[..|r|]
    ensures r == [] || !IsSpace(r[|r| - 1])
    ensures forall i :: |r| <= i < |s| ==> IsSpace(s[i])
    decreases |s|
  {
    if s != [] && IsSpace(s[|s| - 1]) then TrimEnd(s[..|s| - 1]) else s
  }

  /** `s.trim()` */
  function Trim(s: string): string {
    TrimEnd(TrimStart(s))
  }

  /** `Trim` keeps a contiguous part of `s`, with no white space at either end,
      and drops only white space. */
  lemma TrimIsSlice(s: string)
    ensures exists a, b :: 0 <= a <= b <= |s| && Trim(s) == s[a..b]
                           && (forall i :: 0 <= i < a ==> IsSpace(s[i]))
                           && (forall i :: b <= i < |s| ==> IsSpace(s[i]))
    ensures Trim(s) == [] || (!IsSpace(Trim(s)[0]) && !IsSpace(Trim(s)[|Trim(s)| - 1]))
  {
    var a := |s| - |TrimStart(s)|;
    var b := a + |Trim(s)|;
    SliceOfSlice(s, a, |Trim(s)|);
    TrimDropsSpaceAtEnd(s, a, b);
    TrimEndsNonSpace(s);
  }

  /** What `Trim` drops after the kept part is white space. */
  lemma TrimDropsSpaceAtEnd(s: string, a: nat, b: nat)
    requires a == |s| - |TrimStart(s)| && b == a + |Trim(s)|
    ensures forall i :: b <= i < |s| ==> IsSpace(s[i])
  {
    var t := TrimStart(s);
    var u := TrimEnd(t);
    forall i | b <= i < |s| ensures IsSpace(s[i]) {
      SpaceAfterTrimEnd(t, i - a);
      assert t[i - a] == s[a..][i - a] == s[i];
    }
  }

  lemma SpaceAfterTrimEnd(t: string, j: int)
    requires |TrimEnd(t)| <= j < |t|
    ensures IsSpace(t[j])
  {
  }

  /** The kept part of `Trim` neither starts nor ends with white space. */
  lemma TrimEndsNonSpace(s: string)
    ensures Trim(s) == [] || (!IsSpace(Trim(s)[0]) && !IsSpace(Trim(s)[|Trim(s)| - 1]))
  {
    var t := TrimStart(s);
    if Trim(s) != [] {
      assert Trim(s)[0] == t[0];
    }
  }

  /** Trimming a string that has a non-space character keeps that character,
      so the trimmed string is not empty. */
  lemma {:induction false} TrimNonEmpty(s: string, k: nat)
    requires k < |s| && !IsSpace(s[k])
    ensures Trim(s) != []
  {
    var t := TrimStart(s);
    assert k >= |s| - |t|;
    assert t[k - (|s| - |t|)] == s[k];
    var u := TrimEnd(t);
    assert |u| > k - (|s| - |t|);
  }

  /** Leading white space does not depend on what follows a non-space character. */
  lemma {:induction false} TrimStartConcat(a: string, b: string, k: nat)
    requires k < |a| && !IsSpace(a[k])
    ensures TrimStart(a + b) == TrimStart(a) + b
    decreases |a|
  {
    if IsSpace(a[0]) {
      assert (a + b)[0] == a[0];
      assert (a + b)[1..] == a[1..] + b;
      assert a[1..][k - 1] == a[k];
      TrimStartConcat(a[1..], b, k - 1);
    }
  }

  /** Appending text cannot shorten the trimmed end of a string that ends in
      a non-space character. */
  lemma TrimEndKeeps(a: string, b: string)
    requires a != [] && !IsSpace(a[|a| - 1])
    ensures |TrimEnd(a + b)| >= |a|
  {
    assert (a + b)[|a| - 1] == a[|a| - 1];
  }

  /** Trimming `a + b` keeps at least as much as trimming `a` alone, when `a`
      has a non-space character. */
  lemma TrimConcatLonger(a: string, b: string, k: nat)
    requires k < |a| && !IsSpace(a[k])
    ensures |Trim(a + b)| >= |Trim(a)|
  {
    var t := TrimStart(a);
    TrimNonEmpty(a, k);
    TrimStartConcat(a, b, k);
    TrimEndLonger(t, b);
  }

  lemma TrimEndLonger(t: string, b: string)
    requires TrimEnd(t) != []
    ensures |TrimEnd(t + b)| >= |TrimEnd(t)|
  {
    var u := TrimEnd(t);
    var rest := t[|u|..] + b;
    assert t == u + t[|u|..];
    assert t + b == u + rest;
    TrimEndKeeps(u, rest);
  }

  /** A string that trims to something non-empty has a non-space character. */
  lemma NonSpaceOfTrim(s: string) returns (k: nat)
    requires Trim(s) != []
    ensures k < |s| && !IsSpace(s[k])
  {
    TrimIsSlice(s);
    var a, b :| 0 <= a <= b <= |s| && Trim(s) == s[a..b];
    assert Trim(s)[0] == s[a];
    k := a;
  }

  /** When `l` has a non-space character, trimming `p + l` ends inside `l`. */
  lemma TrimLastFromSuffix(p: string, l: string, j: nat)
    requires j < |l| && !IsSpace(l[j])
    ensures Trim(p + l) != []
    ensures Trim(p + l)[|Trim(p + l)| - 1] in l
  {
    var x := p + l;
    assert x[|p| + j] == l[j];
    NonSpaceInsideTrim(x, |p| + j);
    var a := |x| - |TrimStart(x)|;
    var tr := Trim(x);
    var last := a + |tr| - 1;
    assert tr[|tr| - 1] == x[last];
    assert x[last] == l[last - |p|];
  }

  /** A non-space character of `x` lies inside the part `Trim` keeps. */
  lemma NonSpaceInsideTrim(x: string, m: nat)
    requires m < |x| && !IsSpace(x[m])
    ensures var a := |x| - |TrimStart(x)|;
            a <= m < a + |Trim(x)| && Trim(x) == x[a..a + |Trim(x)|]
  {
    var t := TrimStart(x);
    var a := |x| - |t|;
    TrimStartStops(x, m);
    assert t[m - a] == x[m];
    TrimEndStops(t, m - a);
    SliceOfSlice(x, a, |Trim(x)|);
  }

  /** `TrimStart` drops no non-space character. */
  lemma TrimStartStops(x: string, m: nat)
    requires m < |x| && !IsSpace(x[m])
    ensures |x| - |TrimStart(x)| <= m
  {
  }

  /** `TrimEnd` drops no non-space character. */
  lemma TrimEndStops(t: string, k: nat)
    requires k < |t| && !IsSpace(t[k])
    ensures k < |TrimEnd(t)|
  {
  }

  /** The kept part of `Trim` is a slice of the string. */
  lemma SliceOfSlice(x: string, a: nat, n: nat)
    requires a == |x| - |TrimStart(x)| && n == |Trim(x)|
    ensures a + n <= |x| && Trim(x) == x[a..a + n]
  {
    var t := TrimStart(x);
    DropTake(x, a, n);
  }

  /** Taking `n` after dropping `a` is the slice from `a` to `a + n`. */
  lemma DropTake(x: string, a: nat, n: nat)
    requires a + n <= |x|
    ensures x[a..][..n] == x[a..a + n]
  {
  }

  /** ASCII letter lowering; every other character is kept. */
  function LowerChar(c: char): char {
    if 'A' <= c <= 'Z' then (c as int + 32) as char else c
  }

  /** `s.toLowerCase()` restricted to ASCII letters; also the case folding of a
      JavaScript regular expression with the `i` flag and an ASCII pattern. */
  function Lower(s: string): (r: string)
    ensures |r| == |s|
    ensures forall i :: 0 <= i < |s| ==> r[i] == LowerChar(s[i])
  {
    if s == [] then [] else [LowerChar(s[0])] + Lower(s[1..])
  }

  /** Lower-casing works character by character, so it distributes over concatenation. */
  lemma {:induction false} LowerConcat(a: string, b: string)
    ensures Lower(a + b) == Lower(a) + Lower(b)
  {
    if a == [] {
      assert a + b == b;
    } else {
      assert (a + b)[0] == a[0];
      assert (a + b)[1..] == a[1..] + b;
      LowerConcat(a[1..], b);
    }
  }

  /** Index of the first `c` in `s`, or `|s|` when there is none. */
  function IndexOf(s: string, c: char): (k: nat)
    ensures k <= |s|
    ensures k < |s| ==> s[k] == c
    ensures forall i :: 0 <= i < k ==> s[i] != c
    ensures (k == |s|) == (c !in s)
  {
    if s == [] then 0 else if s[0] == c then 0 else 1 + IndexOf(s[1..], c)
  }

  /** Number of occurrences of `c` in `s`. */
  function Count(s: string, c: char): nat {
    if s == [] then 0 else (if s[0] == c then 1 else 0) + Count(s[1..], c)
  }

  /** `s.split(c)` for a one-character separator: the pieces between the
      occurrences of `c`, including the empty pieces at the ends. */
  function Split(s: string, c: char): (parts: seq<string>)
    ensures |parts| >= 1
    ensures forall i :: 0 <= i < |parts| ==> c !in parts[i]
    ensures (|parts| >= 2) == (c in s)
    decreases |s|
  {
    var k := IndexOf(s, c);
    if k == |s| then [s] else [s[..k]] + Split(s[k + 1..], c)
  }

  /** `parts.join(sep)` */
  function Join(parts: seq<string>, sep: string): string {
    if |parts| == 0 then ""
    else if |parts| == 1 then parts[0]
    else parts[0] + sep + Join(parts[1..], sep)
  }

  /** Joining the pieces of a split with the separator gives back the string. */
  lemma {:induction false} JoinSplit(s: string, c: char)
    ensures Join(Split(s, c), [c]) == s
    decreases |s|
  {
    var k := IndexOf(s, c);
    if k < |s| {
      var rest := Split(s[k + 1..], c);
      var parts := Split(s, c);
      assert parts == [s[..k]] + rest;
      assert parts[1..] == rest;
      JoinSplit(s[k + 1..], c);
      assert Join(parts, [c]) == s[..k] + [c] + Join(rest, [c]);
      assert s == s[..k] + [c] + s[k + 1..];
    }
  }

  /** A separator-free first piece is split off whole. */
  lemma SplitFirst(a: string, c: char, rest: string)
    requires c !in a
    ensures Split(a + [c] + rest, c) == [a] + Split(rest, c)
  {
    var s := a + [c] + rest;
    var k := IndexOf(s, c);
    assert s[|a|] == c;
    assert forall i :: 0 <= i < |a| ==> s[i] == a[i];
    assert k == |a|;
    assert s[..k] == a;
    assert s[k + 1..] == rest;
  }

  /** Splitting a join of separator-free pieces gives back the pieces. */
  lemma {:induction false} SplitJoin(parts: seq<string>, c: char)
    requires |parts| >= 1
    requires forall i :: 0 <= i < |parts| ==> c !in parts[i]
    ensures Split(Join(parts, [c]), c) == parts
  {
    if |parts| > 1 {
      var tail := Join(parts[1..], [c]);
      assert Join(parts, [c]) == parts[0] + [c] + tail;
      SplitFirst(parts[0], c, tail);
      SplitJoin(parts[1..], c);
      assert parts == [parts[0]] + parts[1..];
    }
  }

  /** A split has one more piece than there are separators. */
  lemma {:induction false} SplitCount(s: string, c: char)
    ensures |Split(s, c)| == Count(s, c) + 1
    decreases |s|
  {
    var k := IndexOf(s, c);
    CountSeparatorFree(s[..k], c);
    CountConcat(s[..k], s[k..], c);
    assert s == s[..k] + s[k..];
    if k < |s| {
      assert s[k..] == [c] + s[k + 1..];
      CountConcat([c], s[k + 1..], c);
      SplitCount(s[k + 1..], c);
    }
  }

  lemma {:induction false} CountConcat(a: string, b: string, c: char)
    ensures Count(a + b, c) == Count(a, c) + Count(b, c)
  {
    if a != [] {
      assert a + b != [] && (a + b)[0] == a[0];
      assert (a + b)[1..] == a[1..] + b;
      CountConcat(a[1..], b, c);
    } else {
      assert a + b == b;
    }
  }

  lemma {:induction false} CountSeparatorFree(s: string, c: char)
    requires c !in s
    ensures Count(s, c) == 0
  {
    if s != [] {
      assert c !in s[1..];
      CountSeparatorFree(s[1..], c);
    }
  }
}
