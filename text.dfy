/**
 * The two pieces of Python string handling the checker relies on: the
 * substring test `pat in s`, and reading a file as a list of lines with
 * `readlines()` and gluing lines back together with `"".join(...)`.
 */
module Text {

  /** `pat` occurs in `s` as a contiguous block starting at offset `i`. */
  ghost predicate OccursAt(pat: string, s: string, i: int)
  {
    0 <= i && i + |pat| <= |s| && s[i..i + |pat|] == pat
  }

  /** `pat` occurs somewhere in `s` as a contiguous block. */
  ghost predicate IsSubstring(pat: string, s: string)
  {
    exists i :: OccursAt(pat, s, i)
  }

  /** Python's `pat in s` on two strings: tries every offset from the left. */
  function Contains(pat: string, s: string): (r: bool)
    ensures r <==> IsSubstring(pat, s)
    decreases |s|
  {
    if |s| < |pat| then
      false
    else if s[..|pat|] == pat then
      assert OccursAt(pat, s, 0);
      true
    else
      ShiftOccurrence(pat, s);
      Contains(pat, s[1..])
  }

  /** Once offset 0 is ruled out, the occurrences of `pat` in `s` are those in `s[1..]`. */
  lemma {:induction false} ShiftOccurrence(pat: string, s: string)
    requires |s| > 0 && !OccursAt(pat, s, 0)
    ensures IsSubstring(pat, s[1..]) <==> IsSubstring(pat, s)
  {
    if IsSubstring(pat, s[1..]) {
      var j :| OccursAt(pat, s[1..], j);
      assert s[1..][j..j + |pat|] == s[j + 1..j + 1 + |pat|];
      assert OccursAt(pat, s, j + 1);
    }
    if IsSubstring(pat, s) {
      var i :| OccursAt(pat, s, i);
      assert s[1..][i - 1..i - 1 + |pat|] == s[i..i + |pat|];
      assert OccursAt(pat, s[1..], i - 1);
    }
  }

  /** A prefix of `t` occurs in any text that has `t` inside it. */
  lemma {:induction false} PrefixOccurs(pat: string, before: string, t: string, after: string)
    requires pat <= t
    ensures IsSubstring(pat, before + t + after)
  {
    var s := before + t + after;
    assert s[|before|..|before| + |pat|] == pat;
    assert OccursAt(pat, s, |before|);
  }

  /** Offset of the first '\n' in `s`, or `|s|` when `s` has none. */
  function LineEnd(s: string): (n: nat)
    ensures n <= |s|
    ensures n < |s| ==> s[n] == '\n'
  {
    if s == [] || s[0] == '\n' then 0 else 1 + LineEnd(s[1..])
  }

  /** No '\n' comes before the offset `LineEnd` finds. */
  lemma {:induction false} LineEndIsFirst(s: string)
    ensures '\n' !in s[..LineEnd(s)]
  {
    if s != [] && s[0] != '\n' {
      LineEndIsFirst(s[1..]);
      assert s[..LineEnd(s)] == [s[0]] + s[1..][..LineEnd(s[1..])];
    }
  }

  /** A '\n' at offset `i` bounds the first one. */
  lemma {:induction false} LineEndAtMost(s: string, i: nat)
    requires i < |s| && s[i] == '\n'
    ensures LineEnd(s) <= i
  {
    if s[0] != '\n' {
      assert s[1..][i - 1] == s[i];
      LineEndAtMost(s[1..], i - 1);
    }
  }

  /** The first '\n' is the only position that has a '\n' and none before it. */
  lemma {:induction false} LineEndUnique(s: string, n: nat)
    requires n < |s| && s[n] == '\n'
    requires '\n' !in s[..n]
    ensures LineEnd(s) == n
  {
    if n > 0 {
      assert s[0] == s[..n][0];
      assert s[1..][..n - 1] == s[..n][1..];
      LineEndUnique(s[1..], n - 1);
    }
  }

  /** Text past the first '\n' does not move it. */
  lemma {:induction false} LineEndAppend(a: string, b: string)
    requires LineEnd(a) < |a|
    ensures LineEnd(a + b) == LineEnd(a)
  {
    if a[0] != '\n' {
      assert (a + b)[1..] == a[1..] + b;
      LineEndAppend(a[1..], b);
    }
  }

  /** Python's `"".join(lines)`. */
  function Join(lines: seq<string>): (r: string)
    ensures lines != [] ==> lines[0] <= r
  {
    if lines == [] then "" else lines[0] + Join(lines[1..])
  }

  /** Python's slice `xs[1:]`, which is empty on an empty list. */
  function Tail<T>(xs: seq<T>): (r: seq<T>)
    ensures xs != [] ==> [xs[0]] + r == xs
    ensures xs == [] ==> r == []
  {
    if xs == [] then [] else xs[1..]
  }

  /** Joining a single line gives that line. */
  lemma {:induction false} JoinOne(l: string)
    ensures Join([l]) == l
  {
    assert [l][1..] == [];
  }

  /** Joining a line in front of others puts its text in front. */
  lemma {:induction false} JoinCons(l: string, lines: seq<string>)
    ensures Join([l] + lines) == l + Join(lines)
  {
    assert ([l] + lines)[1..] == lines;
  }

  /** Joining two lists of lines is joining each and concatenating. */
  lemma {:induction false} JoinAppend(xs: seq<string>, ys: seq<string>)
    ensures Join(xs + ys) == Join(xs) + Join(ys)
  {
    if xs == [] {
      assert xs + ys == ys;
    } else {
      assert (xs + ys)[1..] == xs[1..] + ys;
      JoinAppend(xs[1..], ys);
    }
  }

  /**
   * `l` is one element of what `readlines()` returns: not empty, with no
   * '\n' except possibly as its last character, and ending in '\n' unless it
   * is the last line of the file.
   */
  ghost predicate IsLine(l: string, last: bool)
  {
    l != [] &&
    (forall j :: 0 <= j < |l| - 1 ==> l[j] != '\n') &&
    (!last ==> l[|l| - 1] == '\n')
  }

  /**
   * Python's `f.readlines()` on a file whose content is `s`: the lines of
   * `s`, each keeping its terminating '\n'.
   */
  function ReadLines(s: string): (r: seq<string>)
    ensures r == [] <==> s == ""
    decreases |s|
  {
    if s == [] then
      []
    else
      var n := LineEnd(s);
      if n == |s| then [s] else [s[..n + 1]] + ReadLines(s[n + 1..])
  }

  /** `readlines()` takes off the text up to and including the first '\n', then goes on. */
  lemma {:induction false} ReadLinesStep(s: string)
    requires LineEnd(s) < |s|
    ensures ReadLines(s) == [s[..LineEnd(s) + 1]] + ReadLines(s[LineEnd(s) + 1..])
  {
  }

  /** `ReadLinesStep` with the position of the first '\n' given. */
  lemma {:induction false} ReadLinesAt(s: string, n: nat)
    requires n < |s| && LineEnd(s) == n
    ensures ReadLines(s) == [s[..n + 1]] + ReadLines(s[n + 1..])
  {
    ReadLinesStep(s);
  }

  /** Joining what `readlines()` returns gives the file's content back. */
  lemma {:induction false} JoinReadLines(s: string)
    ensures Join(ReadLines(s)) == s
    decreases |s|
  {
    if s != [] {
      var n := LineEnd(s);
      if n == |s| {
        assert ReadLines(s) == [s];
        JoinOne(s);
      } else {
        var first, rest := s[..n + 1], s[n + 1..];
        ReadLinesStep(s);
        JoinCons(first, ReadLines(rest));
        JoinReadLines(rest);
        assert first + rest == s;
      }
    }
  }

  /** Every element `readlines()` returns is a line in the sense of `IsLine`. */
  lemma {:induction false} ReadLinesAreLines(s: string)
    ensures forall k :: 0 <= k < |ReadLines(s)| ==> IsLine(ReadLines(s)[k], k == |ReadLines(s)| - 1)
    decreases |s|
  {
    if s != [] {
      var n := LineEnd(s);
      LineEndIsFirst(s);
      forall j | 0 <= j < n
        ensures s[j] != '\n'
      {
        assert s[..n][j] == s[j];
      }
      if n < |s| {
        var rest := s[n + 1..];
        ReadLinesAreLines(rest);
        var lines := ReadLines(s);
        ReadLinesStep(s);
        forall k | 0 <= k < |lines|
          ensures IsLine(lines[k], k == |lines| - 1)
        {
          if k > 0 {
            assert lines[k] == ReadLines(rest)[k - 1];
          }
        }
      }
    }
  }

  /** Dropping the first line and joining the rest leaves what follows the first '\n'. */
  lemma {:induction false} JoinAfterFirstLine(s: string)
    ensures LineEnd(s) < |s| ==> Join(Tail(ReadLines(s))) == s[LineEnd(s) + 1..]
    ensures LineEnd(s) == |s| ==> Join(Tail(ReadLines(s))) == ""
  {
    if LineEnd(s) < |s| {
      ReadLinesStep(s);
      JoinReadLines(s[LineEnd(s) + 1..]);
    }
  }

  /** If `whole` and `left` start alike and their tails differ by `right`, so do they. */
  lemma {:induction false} ConsAppend<T>(x: T, p: seq<T>, whole: seq<T>, left: seq<T>, right: seq<T>, tail: seq<T>)
    requires whole == [x] + tail && left == [x] + p && tail == p + right
    ensures whole == left + right
  {
    assert [x] + (p + right) == ([x] + p) + right;
  }

  /** Dropping a prefix no longer than `a` from `a + b` drops it from `a`. */
  lemma {:induction false} DropFromConcat(a: string, b: string, k: nat)
    requires k <= |a|
    ensures (a + b)[k..] == a[k..] + b
  {
  }

  /** Taking a prefix no longer than `a` from `a + b` takes it from `a`. */
  lemma {:induction false} TakeFromConcat(a: string, b: string, k: nat)
    requires k <= |a|
    ensures (a + b)[..k] == a[..k]
  {
  }

  /** The first line of `a` is also the first line of `a + b`. */
  lemma {:induction false} ReadLinesAppendStep(a: string, b: string)
    requires LineEnd(a) < |a|
    ensures ReadLines(a + b) == [a[..LineEnd(a) + 1]] + ReadLines(a[LineEnd(a) + 1..] + b)
  {
    var n := LineEnd(a);
    LineEndAppend(a, b);
    ReadLinesAt(a + b, n);
    TakeFromConcat(a, b, n + 1);
    DropFromConcat(a, b, n + 1);
  }

  /** Text that ends in '\n' splits into lines independently of what follows it. */
  lemma {:induction false} ReadLinesAppend(a: string, b: string)
    requires a == [] || a[|a| - 1] == '\n'
    ensures ReadLines(a + b) == ReadLines(a) + ReadLines(b)
    decreases |a|
  {
    if a == [] {
      assert a + b == b;
    } else {
      LineEndAtMost(a, |a| - 1);
      var n := LineEnd(a);
      var first, rest := a[..n + 1], a[n + 1..];
      ReadLinesAppendStep(a, b);
      ReadLinesStep(a);
      ReadLinesAppend(rest, b);
      ConsAppend(first, ReadLines(rest), ReadLines(a + b), ReadLines(a), ReadLines(b), ReadLines(rest + b));
    }
  }

  /** A complete line in front of any text is the first line `readlines()` returns. */
  lemma {:induction false} ReadLineThen(l: string, rest: string)
    requires IsLine(l, false)
    ensures ReadLines(l + rest) == [l] + ReadLines(rest)
  {
    var s := l + rest;
    var before := s[..|l| - 1];
    assert '\n' !in before by {
      forall j | 0 <= j < |before|
        ensures before[j] != '\n'
      {
        assert before[j] == l[j];
      }
    }
    LineEndUnique(s, |l| - 1);
    ReadLinesStep(s);
    assert s[..|l|] == l;
    assert s[|l|..] == rest;
  }

  /** Lines that each end in '\n' are split back apart exactly as they were joined. */
  lemma {:induction false} ReadJoin(lines: seq<string>)
    requires forall k :: 0 <= k < |lines| ==> IsLine(lines[k], false)
    ensures ReadLines(Join(lines)) == lines
  {
    if lines != [] {
      assert Join(lines) == lines[0] + Join(lines[1..]);
      ReadLineThen(lines[0], Join(lines[1..]));
      ReadJoin(lines[1..]);
    }
  }
}
