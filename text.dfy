/**
 * The Python `str` operations the core relies on: `isspace`, `strip`/`rstrip`,
 * `splitlines`, `" ".join`, the `in` substring test and the `<` ordering used
 * by `sorted`.
 */
module Text {

  /** Python's `str.isspace` on one character. */
  predicate IsSpace(c: char)
  {
    c == ' ' || ('\t' <= c <= '\r') || ('\U{1c}' <= c <= '\U{1f}')
    || c == '\U{85}' || c == '\U{a0}' || c == '\U{1680}'
    || ('\U{2000}' <= c <= '\U{200a}') || c == '\U{2028}' || c == '\U{2029}'
    || c == '\U{202f}' || c == '\U{205f}' || c == '\U{3000}'
  }

  /** `s.rstrip()`: the longest prefix of `s` that does not end in whitespace. */
  function RStrip(s: string): (r: string)
    ensures r <= s
    ensures r == [] || !IsSpace(r[|r| - 1])
    ensures forall i :: |r| <= i < |s| ==> IsSpace(s[i])
  {
    if s == [] || !IsSpace(s[|s| - 1]) then s else RStrip(s[..|s| - 1])
  }

  /** `s.lstrip()`: the longest suffix of `s` that does not start with whitespace. */
  function LStrip(s: string): (r: string)
    ensures |r| <= |s| && r == s[|s| - |r|..]
    ensures r == [] || !IsSpace(r[0])
    ensures forall i :: 0 <= i < |s| - |r| ==> IsSpace(s[i])
  {
    if s == [] || !IsSpace(s[0]) then s else LStrip(s[1..])
  }

  /** `s.strip()`: whitespace removed from both ends. */
  function Strip(s: string): (r: string)
    ensures |r| <= |s|
    ensures r == [] || (!IsSpace(r[0]) && !IsSpace(r[|r| - 1]))
  {
    LStrip(RStrip(s))
  }

  /** The characters at which `str.splitlines` breaks a line. */
  predicate IsLineBoundary(c: char)
  {
    c == '\n' || c == '\r' || c == '\U{b}' || c == '\U{c}'
    || c == '\U{1c}' || c == '\U{1d}' || c == '\U{1e}'
    || c == '\U{85}' || c == '\U{2028}' || c == '\U{2029}'
  }

  predicate NoLineBoundary(s: string)
  {
    forall i :: 0 <= i < |s| ==> !IsLineBoundary(s[i])
  }

  /** The index of the first line boundary in `s`, or `|s|` when there is none. */
  function LineEnd(s: string): (i: nat)
    ensures i <= |s|
    ensures NoLineBoundary(s[..i])
    ensures forall j :: 0 <= j < i ==> !IsLineBoundary(s[j])
    ensures i < |s| ==> IsLineBoundary(s[i])
  {
    if s == [] || IsLineBoundary(s[0]) then 0 else 1 + LineEnd(s[1..])
  }

  /**
   * `s.splitlines()`: the lines of `s` without their terminators; "\r\n"
   * ends one line, and text after the last terminator, if any, is the last line.
   */
  function SplitLines(s: string): (lines: seq<string>)
    ensures forall k :: 0 <= k < |lines| ==> NoLineBoundary(lines[k])
    ensures s == [] <==> lines == []
    decreases |s|
  {
    if s == [] then []
    else
      var i := LineEnd(s);
      if i == |s| then [s]
      else
        [s[..i]] + SplitLines(s[AfterBoundary(s, i)..])
  }

  /** Where the next line starts after the boundary at `i`: "\r\n" counts as one boundary. */
  function AfterBoundary(s: string, i: nat): (next: nat)
    requires i < |s|
    ensures i < next <= |s|
  {
    if s[i] == '\r' && i + 1 < |s| && s[i + 1] == '\n' then i + 2 else i + 1
  }

  /** Every line followed by "\n": the text a program prints line by line. */
  function Terminated(lines: seq<string>): string
  {
    if lines == [] then "" else lines[0] + "\n" + Terminated(lines[1..])
  }

  lemma {:induction false} LineEndAt(l: string, t: string)
    requires NoLineBoundary(l)
    ensures LineEnd(l + t) == LineEnd(t) + |l|
  {
    if l != [] {
      assert (l + t)[0] == l[0] && !IsLineBoundary(l[0]);
      assert (l + t)[1..] == l[1..] + t;
      LineEndAt(l[1..], t);
    } else {
      assert l + t == t;
    }
  }

  /** Splitting printed lines gives the lines back: no empty line appears after the last "\n". */
  lemma {:induction false} SplitLinesTerminated(lines: seq<string>)
    requires forall k :: 0 <= k < |lines| ==> NoLineBoundary(lines[k])
    ensures SplitLines(Terminated(lines)) == lines
  {
    if lines != [] {
      var l, rest := lines[0], Terminated(lines[1..]);
      SplitLinesFirst(l, rest);
      SplitLinesTerminated(lines[1..]);
      assert lines == [l] + lines[1..];
    }
  }

  /** A line without boundaries followed by "\n" is the first line, and splitting goes on after it. */
  lemma SplitLinesFirst(l: string, rest: string)
    requires NoLineBoundary(l)
    ensures SplitLines(l + "\n" + rest) == [l] + SplitLines(rest)
  {
    var s := l + "\n" + rest;
    ConcatAssociative(l, "\n", rest);
    assert LineEnd("\n" + rest) == 0 by {
      assert ("\n" + rest)[0] == '\n';
    }
    LineEndAt(l, "\n" + rest);
    AroundNewline(l, rest);
    assert AfterBoundary(s, |l|) == |l| + 1;
  }

  /** The pieces of `l + "\n" + rest` around the newline after `l`. */
  lemma AroundNewline(l: string, rest: string)
    ensures (l + "\n" + rest)[..|l|] == l && (l + "\n" + rest)[|l|] == '\n' && (l + "\n" + rest)[|l| + 1..] == rest
  {
  }

  /** A single "\n" after text that does not end in a line boundary adds no line. */
  lemma {:induction false} SplitLinesFinalNewline(s: string)
    requires s != [] && !IsLineBoundary(s[|s| - 1])
    ensures SplitLines(s + "\n") == SplitLines(s)
    decreases |s|
  {
    var t := s + "\n";
    var i := LineEnd(s);
    if i == |s| {
      assert s[..i] == s;
      LineEndAt(s, "\n");
      assert LineEnd("\n") == 0;
      NewlineSlices(s, i, i + 1);
      assert SplitLines(t) == [s] + SplitLines([]);
    } else {
      LineEndPrefix(s, "\n");
      var next := AfterBoundary(s, i);
      assert next < |s|;
      assert AfterBoundary(t, i) == next;
      NewlineSlices(s, i, next);
      SplitLinesFinalNewline(s[next..]);
    }
  }

  /** The pieces of `s + "\n"` before `i` and from `next` on. */
  lemma NewlineSlices(s: string, i: nat, next: nat)
    requires i < next <= |s| + 1
    ensures (s + "\n")[..i] == s[..i]
    ensures next <= |s| ==> (s + "\n")[next..] == s[next..] + "\n"
    ensures next == |s| + 1 ==> (s + "\n")[next..] == []
  {
  }

  /** A line boundary inside `s` is still the first one once more text follows. */
  lemma {:induction false} LineEndPrefix(s: string, u: string)
    requires LineEnd(s) < |s|
    ensures LineEnd(s + u) == LineEnd(s)
    decreases |s|
  {
    if !IsLineBoundary(s[0]) {
      assert (s + u)[0] == s[0];
      assert (s + u)[1..] == s[1..] + u;
      LineEndPrefix(s[1..], u);
    } else {
      assert (s + u)[0] == s[0];
    }
  }

  lemma ConcatAssociative<T>(x: seq<T>, y: seq<T>, z: seq<T>)
    ensures x + (y + z) == x + y + z
  {
  }

  /** `sep.join(words)`. */
  function JoinWith(sep: string, words: seq<string>): string
  {
    if words == [] then ""
    else if |words| == 1 then words[0]
    else words[0] + sep + JoinWith(sep, words[1..])
  }

  /** `s.split(sep)` for a one-character separator: the pieces between occurrences of `sep`. */
  function SplitOn(sep: char, s: string): (pieces: seq<string>)
    ensures |pieces| >= 1
    decreases |s|
  {
    if sep !in s then [s]
    else
      var i := IndexOf(sep, s);
      [s[..i]] + SplitOn(sep, s[i + 1..])
  }

  function IndexOf(c: char, s: string): (i: nat)
    requires c in s
    ensures i < |s| && s[i] == c
    ensures forall j :: 0 <= j < i ==> s[j] != c
  {
    if s[0] == c then 0 else 1 + IndexOf(c, s[1..])
  }

  /** Joining words that do not contain the separator can be undone by splitting on it. */
  lemma {:induction false} SplitJoin(sep: char, words: seq<string>)
    requires words != []
    requires forall k :: 0 <= k < |words| ==> sep !in words[k]
    ensures SplitOn(sep, JoinWith([sep], words)) == words
  {
    if |words| > 1 {
      var w := words[0];
      var s := JoinWith([sep], words);
      var rest := JoinWith([sep], words[1..]);
      assert s == w + [sep] + rest;
      assert s[|w|] == sep;
      assert s[..|w|] == w;
      var i := IndexOf(sep, s);
      assert forall j :: 0 <= j < |w| ==> s[j] == w[j] && w[j] != sep;
      assert i == |w|;
      assert s[i + 1..] == rest;
      SplitJoin(sep, words[1..]);
    }
  }

  /** Joining is empty exactly when there is nothing to join or one empty word. */
  lemma JoinEmpty(sep: string, words: seq<string>)
    requires sep != ""
    ensures JoinWith(sep, words) == "" <==> words == [] || words == [""]
  {
    if |words| > 1 {
      assert |JoinWith(sep, words)| >= |sep|;
    }
  }

  /** Python's `needle in haystack` on strings. */
  predicate Contains(haystack: string, needle: string)
  {
    exists i | 0 <= i <= |haystack| :: needle <= haystack[i..]
  }

  /**
   * Removing trailing whitespace keeps every occurrence of a needle that ends in
   * a non-whitespace character.
   */
  lemma ContainsRStrip(s: string, needle: string)
    requires needle != [] && !IsSpace(needle[|needle| - 1])
    ensures Contains(RStrip(s), needle) <==> Contains(s, needle)
  {
    ContainsPrefix(RStrip(s), s, needle);
    if Contains(s, needle) {
      ContainsBeforeSpaces(s, needle);
    }
  }

  /** What a prefix contains, the whole text contains. */
  lemma ContainsPrefix(r: string, s: string, needle: string)
    requires r <= s
    ensures Contains(r, needle) ==> Contains(s, needle)
  {
    if Contains(r, needle) {
      var i :| 0 <= i <= |r| && needle <= r[i..];
      assert r[i..] <= s[i..];
    }
  }

  /** An occurrence of a needle that ends in a non-space character lies before the trailing whitespace. */
  lemma ContainsBeforeSpaces(s: string, needle: string)
    requires needle != [] && !IsSpace(needle[|needle| - 1])
    requires Contains(s, needle)
    ensures Contains(RStrip(s), needle)
  {
    var r := RStrip(s);
    var i :| 0 <= i <= |s| && needle <= s[i..];
    var last := i + |needle| - 1;
    assert s[last] == needle[|needle| - 1];
    assert last < |r|;
    assert r[i..][..|needle|] == s[i..][..|needle|];
    assert needle <= r[i..];
  }

  /** Python's `a < b` on strings: code point by code point, a proper prefix first. */
  predicate LexLess(a: string, b: string)
  {
    if b == [] then false
    else if a == [] then true
    else if a[0] != b[0] then a[0] < b[0]
    else LexLess(a[1..], b[1..])
  }

  lemma {:induction false} LexTotal(a: string, b: string)
    ensures a == b || LexLess(a, b) || LexLess(b, a)
    ensures !(LexLess(a, b) && LexLess(b, a))
    ensures !LexLess(a, a)
  {
    if a != [] && b != [] && a[0] == b[0] {
      LexTotal(a[1..], b[1..]);
      if a[1..] == b[1..] {
        assert a == [a[0]] + a[1..] && b == [b[0]] + b[1..];
      }
    } else if a != [] {
      LexTotal(a[1..], a[1..]);
    }
  }

  lemma {:induction false} LexTransitive(a: string, b: string, c: string)
    requires LexLess(a, b) && LexLess(b, c)
    ensures LexLess(a, c)
  {
    if a != [] && a[0] == b[0] && b[0] == c[0] {
      LexTransitive(a[1..], b[1..], c[1..]);
    }
  }

  /** No element is smaller than a later one. */
  predicate Descending(s: seq<string>)
  {
    forall i, j :: 0 <= i < j < |s| ==> !LexLess(s[i], s[j])
  }

  /** Puts `x` into a descending sequence, before the first element smaller than it. */
  function InsertDescending(x: string, s: seq<string>): (r: seq<string>)
    requires Descending(s)
    ensures Descending(r)
    ensures multiset(r) == multiset(s) + multiset{x}
  {
    if s == [] then [x]
    else if LexLess(s[0], x) then
      AboveHead(x, s);
      [x] + s
    else
      var rest := InsertDescending(x, s[1..]);
      HeadAboveRest(x, s, rest);
      assert s == [s[0]] + s[1..];
      [s[0]] + rest
  }

  /** What is above the head of a descending sequence is above all of it. */
  lemma AboveHead(x: string, s: seq<string>)
    requires Descending(s) && s != [] && LexLess(s[0], x)
    ensures forall j :: 0 <= j < |s| ==> !LexLess(x, s[j])
  {
    forall j | 0 <= j < |s| ensures !LexLess(x, s[j]) {
      LexTotal(s[0], s[j]);
      if s[j] != s[0] { LexTransitive(s[j], s[0], x); }
      LexTotal(x, s[j]);
    }
  }

  /** The head stays above what the insertion into the tail produced. */
  lemma HeadAboveRest(x: string, s: seq<string>, rest: seq<string>)
    requires Descending(s) && s != [] && !LexLess(s[0], x)
    requires multiset(rest) == multiset(s[1..]) + multiset{x}
    ensures forall j :: 0 <= j < |rest| ==> !LexLess(s[0], rest[j])
  {
    forall j | 0 <= j < |rest| ensures !LexLess(s[0], rest[j]) {
      assert rest[j] in multiset(rest);
      assert rest[j] == x || rest[j] in multiset(s[1..]);
      if rest[j] != x {
        var k :| 0 <= k < |s[1..]| && s[1..][k] == rest[j];
        assert s[k + 1] == rest[j];
      }
    }
  }

  /** `sorted(s, reverse=True)`: the elements of `s` from largest to smallest. */
  function SortDescending(s: seq<string>): (r: seq<string>)
    ensures Descending(r)
    ensures multiset(r) == multiset(s)
  {
    if s == [] then []
    else
      assert s == [s[0]] + s[1..];
      InsertDescending(s[0], SortDescending(s[1..]))
  }

  /** Two descending orderings of the same elements start with the same element. */
  lemma DescendingHeads(a: seq<string>, b: seq<string>)
    requires Descending(a) && Descending(b)
    requires multiset(a) == multiset(b) && a != []
    ensures b != [] && a[0] == b[0]
  {
    assert a[0] in multiset(b);
    assert b != [];
    assert b[0] in multiset(a);
    var i :| 0 <= i < |b| && b[i] == a[0];
    var j :| 0 <= j < |a| && a[j] == b[0];
    LexTotal(a[0], b[0]);
    LexTotal(a[0], a[0]);
    LexTotal(b[0], b[0]);
    assert !LexLess(a[0], a[j]);
    assert !LexLess(b[0], b[i]);
  }

  /** A descending permutation is unique, so `SortDescending` is the only order that fits. */
  lemma {:induction false} DescendingUnique(a: seq<string>, b: seq<string>)
    requires Descending(a) && Descending(b)
    requires multiset(a) == multiset(b)
    ensures a == b
  {
    if a != [] {
      DescendingHeads(a, b);
      assert a == [a[0]] + a[1..] && b == [b[0]] + b[1..];
      assert multiset(a[1..]) == multiset(a) - multiset{a[0]};
      assert multiset(b[1..]) == multiset(b) - multiset{b[0]};
      DescendingUnique(a[1..], b[1..]);
    } else {
      assert |b| == |multiset(b)| == 0;
    }
  }
}
