/**
 * Header composition: the bare template (the "base" header, used to detect
 * a header that is already there) and the "full" header that gets inserted,
 * which adds an optional copyright block and an optional author line.
 */
module Header {
  import opened Wrappers
  import opened Text
  import Registry

  /** The two header texts a checker works with. */
  datatype Headers = Headers(base: string, full: string)

  /** The constructor fails on a license key that has no template. */
  datatype ConfigError = UnknownLicense(license: string)

  /**
   * What follows the template in the full header. An empty string stands for
   * both Python `None` and `""`, which the source treats alike (both falsy).
   */
  function Trailer(copyright: string, author: string): (t: string)
    ensures t == "" <==> copyright == "" && author == ""
    ensures copyright != "" ==> "#\n# " + copyright + "\n" <= t
    ensures author != "" ==> |t| >= |author| + 3 && t[|t| - (|author| + 3)..] == "# " + author + "\n"
  {
    (if copyright != "" then "#\n" + "# " + copyright + "\n" else "") +
    (if author != "" then "# " + author + "\n" else "")
  }

  /** Builds both headers for a license key, or fails when the key is unknown. */
  function Compose(license: string, copyright: string, author: string): (r: Result<Headers, ConfigError>)
    ensures r.Failure? <==> license !in Registry.LicenseMapping
    ensures r.Failure? ==> r.error == UnknownLicense(license)
    ensures r.Success? ==> r.value.base == Registry.LicenseMapping[license]
    ensures r.Success? ==> r.value.base <= r.value.full
    ensures r.Success? ==> (r.value.full == r.value.base <==> copyright == "" && author == "")
  {
    if license in Registry.LicenseMapping then
      var base := Registry.LicenseMapping[license];
      Success(Headers(base, base + Trailer(copyright, author)))
    else
      Failure(UnknownLicense(license))
  }

  /** The lines `Trailer` adds, as `readlines()` would return them. */
  function TrailerLines(copyright: string, author: string): seq<string>
  {
    (if copyright != "" then ["#\n", "# " + copyright + "\n"] else []) +
    (if author != "" then ["# " + author + "\n"] else [])
  }

  /**
   * Read as lines, the full header is the template's lines, then (with a
   * copyright) a bare "#" line and the copyright line, then (with an author)
   * the author line, in that order.
   */
  lemma {:induction false} ComposeLines(license: string, copyright: string, author: string, h: Headers)
    requires Compose(license, copyright, author) == Success(h)
    requires '\n' !in copyright && '\n' !in author
    ensures ReadLines(h.full) == ReadLines(h.base) + TrailerLines(copyright, author)
  {
    Registry.TemplateEndsWithNewline(license);
    AppendTrailerLines(h.base, copyright, author);
  }

  /** Appending the trailer to text that ends in '\n' appends its lines. */
  lemma {:induction false} AppendTrailerLines(base: string, copyright: string, author: string)
    requires base != [] && base[|base| - 1] == '\n'
    requires '\n' !in copyright && '\n' !in author
    ensures ReadLines(base + Trailer(copyright, author)) == ReadLines(base) + TrailerLines(copyright, author)
  {
    var lines := TrailerLines(copyright, author);
    assert forall k :: 0 <= k < |lines| ==> IsLine(lines[k], false) by {
      CommentLine(copyright);
      CommentLine(author);
    }
    ReadJoin(lines);
    TrailerText(copyright, author);
    ReadLinesAppend(base, Join(lines));
  }

  /** The trailer is its lines joined. */
  lemma {:induction false} TrailerText(copyright: string, author: string)
    ensures Join(TrailerLines(copyright, author)) == Trailer(copyright, author)
  {
    var cLine, aLine := "# " + copyright + "\n", "# " + author + "\n";
    var cl: seq<string> := if copyright != "" then ["#\n", cLine] else [];
    var al: seq<string> := if author != "" then [aLine] else [];
    assert TrailerLines(copyright, author) == cl + al;
    JoinAppend(cl, al);
    if copyright != "" {
      JoinOne(cLine);
      assert cl[1..] == [cLine];
      assert Join(cl) == "#\n" + cLine;
    } else {
      assert Join(cl) == "";
    }
    if author != "" {
      JoinOne(aLine);
    } else {
      assert Join(al) == "";
    }
    assert Trailer(copyright, author) == Join(cl) + Join(al);
  }

  /** A "#" comment line holding `text` is a single terminated line. */
  lemma {:induction false} CommentLine(text: string)
    requires '\n' !in text
    ensures IsLine("#\n", false) && IsLine("# " + text + "\n", false)
  {
    var l := "# " + text + "\n";
    forall j | 0 <= j < |l| - 1
      ensures l[j] != '\n'
    {
      if j >= 2 { assert l[j] == text[j - 2]; }
    }
  }
}
