/**
 * The per-file decision of `LicenseChecker.check_file`, as a function of the
 * classifier's answers and the file's content: leave an exempt file alone,
 * accept a file whose body already holds the base header, fail on a file that
 * cannot be read, or rewrite the file with the full header inserted.
 */
module Inspector {
  import opened Wrappers
  import opened Text
  import opened Header

  /**
   * What the path classifier answers about one path: whether it is ignored,
   * whether it is a Python source file, whether it is empty, whether it is a
   * Python script with an interpreter line, and that first line.
   */
  datatype PathInfo = PathInfo(toIgnore: bool, isPython: bool, isEmpty: bool, isScript: bool, firstLine: string)

  /** Ignored files, non-Python files and empty files are neither read nor changed. */
  predicate IsExempt(info: PathInfo)
  {
    info.toIgnore || !info.isPython || info.isEmpty
  }

  /**
   * The text searched for the header and kept below it: the file's lines
   * joined back together, without the first line for a script.
   */
  function Body(info: PathInfo, content: string): (body: string)
    ensures !info.isScript ==> body == content
    ensures info.isScript && LineEnd(content) < |content| ==> body == content[LineEnd(content) + 1..]
    ensures info.isScript && LineEnd(content) == |content| ==> body == ""
  {
    var lines := ReadLines(content);
    JoinReadLines(content);
    JoinAfterFirstLine(content);
    Join(if info.isScript then Tail(lines) else lines)
  }

  /** The file's content once the header is inserted above `body`. */
  function NewContent(h: Headers, info: PathInfo, body: string): (n: string)
    ensures info.isScript ==> info.firstLine + "\n" <= n
    ensures !info.isScript ==> h.full <= n
    ensures |n| >= |h.full| + 1 + |body| && n[|n| - (|body| + 1)..] == "\n" + body
  {
    (if info.isScript then info.firstLine + "\n" else "") + h.full + "\n" + body
  }

  /** What checking one file decides. */
  datatype Verdict = Exempt | Present | Unreadable | Rewrite(content: string)

  /** The decision for a file with the given classification; `None` stands for a file that cannot be opened. */
  function Inspect(h: Headers, info: PathInfo, content: Option<string>): (v: Verdict)
    ensures v.Exempt? <==> IsExempt(info)
    ensures v.Unreadable? <==> !IsExempt(info) && content.None?
    ensures v.Present? <==> !IsExempt(info) && content.Some? && IsSubstring(h.base, Body(info, content.value))
  {
    if info.toIgnore then
      Exempt
    else if !info.isPython || info.isEmpty then
      Exempt
    else if content.None? then
      Unreadable
    else
      var body := Body(info, content.value);
      if Contains(h.base, body) then Present else Rewrite(NewContent(h, info, body))
  }

  /** A rewritten file that is not a script is the full header, a blank line, then the whole old content. */
  lemma {:induction false} RewriteNonScript(h: Headers, info: PathInfo, content: string, n: string)
    requires !info.isScript
    requires Inspect(h, info, Some(content)) == Rewrite(n)
    ensures n == h.full + "\n" + content
    ensures !IsSubstring(h.base, content)
  {
  }

  /**
   * A rewritten script keeps its interpreter line as its first line; below
   * it come the full header, a blank line and the old body.
   */
  lemma {:induction false} RewriteScript(h: Headers, info: PathInfo, content: string, n: string)
    requires info.isScript && '\n' !in info.firstLine
    requires Inspect(h, info, Some(content)) == Rewrite(n)
    ensures ReadLines(n)[0] == info.firstLine + "\n"
    ensures Body(info, n) == h.full + "\n" + Body(info, content)
    ensures !IsSubstring(h.base, Body(info, content))
  {
    var line := info.firstLine;
    var rest := h.full + "\n" + Body(info, content);
    assert n == line + "\n" + rest;
    assert n[..|line|] == line;
    LineEndUnique(n, |line|);
    ReadLinesStep(n);
    assert n[..|line| + 1] == line + "\n";
    assert n[|line| + 1..] == rest;
  }

  /** Below its interpreter line, a rewritten script holds the full header, hence the base header. */
  lemma {:induction false} RewrittenScriptHasBase(h: Headers, info: PathInfo, body: string)
    requires h.base <= h.full && info.isScript
    ensures IsSubstring(h.base, Body(info, NewContent(h, info, body)))
  {
    var n := NewContent(h, info, body);
    var p := info.firstLine + "\n";
    var tail := "\n" + body;
    var rest := h.full + tail;
    assert n == p + rest;
    LineEndAtMost(n, |info.firstLine|);
    var e := LineEnd(n);
    assert e < |n| && Body(info, n) == n[e + 1..];
    DropFromConcat(p, rest, e + 1);
    assert n[e + 1..] == p[e + 1..] + h.full + tail;
    PrefixOccurs(h.base, p[e + 1..], h.full, tail);
  }

  /**
   * Rewriting settles a file: checking the rewritten content again, with the
   * same headers and classification, finds the base header.
   */
  lemma {:induction false} RewriteIsIdempotent(h: Headers, info: PathInfo, content: string, n: string)
    requires h.base <= h.full
    requires Inspect(h, info, Some(content)) == Rewrite(n)
    ensures Inspect(h, info, Some(n)) == Present
  {
    var body := Body(info, content);
    assert n == NewContent(h, info, body);
    if info.isScript {
      RewrittenScriptHasBase(h, info, body);
    } else {
      assert n == "" + h.full + ("\n" + body);
      PrefixOccurs(h.base, "", h.full, "\n" + body);
    }
  }

  /** A file that is not a script has the header as soon as the base header occurs anywhere in it. */
  lemma {:induction false} HeaderAnywhere(h: Headers, info: PathInfo, before: string, after: string)
    requires !IsExempt(info) && !info.isScript
    ensures Inspect(h, info, Some(before + h.base + after)) == Present
  {
    PrefixOccurs(h.base, before, h.base, after);
  }

  /** A script has the header as soon as the base header occurs anywhere below its first line. */
  lemma {:induction false} HeaderAnywhereBelowShebang(h: Headers, info: PathInfo, line: string, before: string, after: string)
    requires !IsExempt(info) && info.isScript && '\n' !in line
    ensures Inspect(h, info, Some(line + "\n" + before + h.base + after)) == Present
  {
    var c := line + "\n" + before + h.base + after;
    assert c[..|line|] == line;
    LineEndUnique(c, |line|);
    assert c[|line| + 1..] == before + h.base + after;
    PrefixOccurs(h.base, before, h.base, after);
  }
}
