/**
 * The `LicenseChecker` object. Its two header texts are fixed when it is
 * built; the list of rewritten paths grows as it checks files; the files it
 * reads and rewrites live in a `FileSystem` object. Each method is proved to
 * move the pair (files, rewritten paths) exactly as the session functions of
 * module `Walker` say.
 */
module Checker {
  import opened Wrappers
  import opened Text
  import opened Header
  import opened Inspector
  import opened Walker
  import Registry

  /** The regular files on disk, by path. */
  class FileSystem {
    var files: map<string, string>

    constructor (files: map<string, string>)
      ensures this.files == files
    {
      this.files := files;
    }
  }

  class LicenseChecker {
    /** The bare template, searched for in each file. */
    const base: string
    /** The template with the copyright and author lines, inserted into files that lack `base`. */
    const full: string
    /** The paths rewritten so far, in the order they were rewritten. */
    var failedPaths: seq<string>

    /** The two headers as a value. */
    function Composed(): Headers
    {
      Headers(base, full)
    }

    /** Picks the template for `license` and appends the copyright block and the author line. */
    constructor (license: string, copyright: string, author: string)
      requires license in Registry.LicenseMapping
      ensures Compose(license, copyright, author) == Success(Composed())
      ensures failedPaths == []
    {
      var template := Registry.LicenseMapping[license];
      var contents := template;
      base := template;
      if copyright != "" {
        contents := contents + "#\n";
        contents := contents + ("# " + copyright + "\n");
      }
      if author != "" {
        contents := contents + ("# " + author + "\n");
      }
      TrailerSteps(template, copyright, author);
      assert contents == template + Trailer(copyright, author);
      assert Compose(license, copyright, author) == Success(Headers(template, contents));
      full := contents;
      failedPaths := [];
    }

    /** `check_file(path)`, with the classifier's answers for `path` in `info`. */
    method CheckFile(fs: FileSystem, path: string, info: PathInfo) returns (r: Return)
      modifies this, fs
      ensures (Session(fs.files, failedPaths), r) ==
        VisitFile(Composed(), info, Session(old(fs.files), old(failedPaths)), path)
    {
      if info.toIgnore {
        return Returned(true);
      }
      if !info.isPython || info.isEmpty {
        return Returned(true);
      }
      if path !in fs.files {
        return Raised(CannotOpen(path));
      }
      var lines := ReadLines(fs.files[path]);
      if info.isScript {
        lines := Tail(lines);
      }
      var content := Join(lines);
      assert content == Body(info, old(fs.files)[path]);
      if !Contains(base, content) {
        var newContent := "";
        if info.isScript {
          newContent := newContent + info.firstLine;
          newContent := newContent + "\n";
        }
        newContent := newContent + full + "\n" + content;
        assert newContent == NewContent(Composed(), info, content);
        assert Inspect(Composed(), info, Read(old(fs.files), path)) == Rewrite(newContent);
        fs.files := fs.files[path := newContent];
        failedPaths := failedPaths + [path];
        return Returned(false);
      }
      assert Inspect(Composed(), info, Read(old(fs.files), path)) == Present;
      return Returned(true);
    }

    /** `check_dir`: `check_file` on each path of the directory's listing, in order. */
    method CheckDir(fs: FileSystem, entries: seq<string>, classify: string -> PathInfo) returns (r: Return)
      modifies this, fs
      ensures var w := Walk(Composed(), classify, Session(old(fs.files), old(failedPaths)), entries);
        Session(fs.files, failedPaths) == w.0 && r == DirReturn(w)
    {
      var i := 0;
      while i < |entries|
        invariant i <= |entries|
        invariant Walk(Composed(), classify, Session(old(fs.files), old(failedPaths)), entries) ==
          Walk(Composed(), classify, Session(fs.files, failedPaths), entries[i..])
      {
        var path := entries[i];
        assert entries[i..][1..] == entries[i + 1..];
        var res := CheckFile(fs, path, classify(path));
        if res.Raised? {
          return res;
        }
        i := i + 1;
      }
      return Returned(failedPaths == []);
    }

    /**
     * `check(path)`: a regular file is checked alone, a directory through its
     * listing in `dirs`, and any other path returns false with nothing changed.
     * `unreadable` holds the regular files that exist but cannot be opened:
     * they are files to `os.path.isfile`, so `check_file` opens them and raises
     * unless they are exempt.
     */
    method Check(fs: FileSystem, unreadable: set<string>, dirs: map<string, seq<string>>, path: string, classify: string -> PathInfo)
      returns (r: Return)
      modifies this, fs
      ensures path in old(fs.files) || path in unreadable ==>
        (Session(fs.files, failedPaths), r) ==
          VisitFile(Composed(), classify(path), Session(old(fs.files), old(failedPaths)), path)
      ensures path !in old(fs.files) && path !in unreadable && path in dirs ==>
        var w := Walk(Composed(), classify, Session(old(fs.files), old(failedPaths)), dirs[path]);
        Session(fs.files, failedPaths) == w.0 && r == DirReturn(w)
      ensures path !in old(fs.files) && path !in unreadable && path !in dirs ==>
        r == Returned(false) && fs.files == old(fs.files) && failedPaths == old(failedPaths)
    {
      if path in fs.files || path in unreadable {
        r := CheckFile(fs, path, classify(path));
      } else if path in dirs {
        r := CheckDir(fs, dirs[path], classify);
      } else {
        r := Returned(false);
      }
    }
  }

  /** Appending the trailer piece by piece, as the constructor does, appends `Trailer`. */
  lemma {:induction false} TrailerSteps(template: string, copyright: string, author: string)
    ensures (if copyright != "" then (template + "#\n") + ("# " + copyright + "\n") else template) +
      (if author != "" then "# " + author + "\n" else "") == template + Trailer(copyright, author)
  {
  }
}
