/**
 * The run-level semantics of the checker as functions over a session: the
 * files on disk and the list of paths rewritten so far. `VisitFile` is one
 * `check_file` call; `Walk` is `check_dir`'s loop over a directory's files in
 * the order they are enumerated, stopped by the first file that cannot be read.
 */
module Walker {
  import opened Wrappers
  import opened Text
  import opened Header
  import opened Inspector

  /** The state a run reads and changes: file contents by path, and the rewritten paths in order. */
  datatype Session = Session(files: map<string, string>, failed: seq<string>)

  /** Opening a path that is not a readable file raises. */
  datatype IOError = CannotOpen(path: string)

  /** A check either returns a boolean or raises an I/O error. */
  datatype Return = Returned(ok: bool) | Raised(error: IOError)

  /** What `open(path).readlines()` can see of a path. */
  function Read(files: map<string, string>, path: string): Option<string>
  {
    if path in files then Some(files[path]) else None
  }

  /**
   * The file `path` is settled: it is exempt, or it can be read and its body
   * already holds the base header, so checking it changes nothing.
   */
  ghost predicate Settled(h: Headers, info: PathInfo, files: map<string, string>, path: string)
  {
    IsExempt(info) || (path in files && IsSubstring(h.base, Body(info, files[path])))
  }

  /** One `check_file(path)`: the new session and what the call returns or raises. */
  function VisitFile(h: Headers, info: PathInfo, s: Session, path: string): (v: (Session, Return))
    ensures v.1 == Returned(true) <==> Settled(h, info, s.files, path)
    ensures v.1.Raised? <==> !IsExempt(info) && path !in s.files
    ensures v.1.Raised? ==> v.1.error == CannotOpen(path)
    ensures v.1 != Returned(false) ==> v.0 == s
    ensures v.1 == Returned(false) ==>
      path in s.files &&
      v.0.failed == s.failed + [path] &&
      v.0.files == s.files[path := NewContent(h, info, Body(info, s.files[path]))]
  {
    match Inspect(h, info, Read(s.files, path))
    case Exempt => (s, Returned(true))
    case Present => (s, Returned(true))
    case Unreadable => (s, Raised(CannotOpen(path)))
    case Rewrite(n) => (Session(s.files[path := n], s.failed + [path]), Returned(false))
  }

  /**
   * `check_file` on every path of `entries` in order, from session `s`; the
   * first path that raises stops the walk, and the error is returned beside
   * the session reached so far.
   */
  function Walk(h: Headers, classify: string -> PathInfo, s: Session, entries: seq<string>): (w: (Session, Option<IOError>))
    ensures s.failed <= w.0.failed
    ensures w.0.files.Keys == s.files.Keys
    ensures forall p :: p in s.files && p !in entries ==> w.0.files[p] == s.files[p]
    ensures forall k :: |s.failed| <= k < |w.0.failed| ==> w.0.failed[k] in entries
    decreases |entries|
  {
    if entries == [] then
      (s, None)
    else
      var (s', r) := VisitFile(h, classify(entries[0]), s, entries[0]);
      if r.Raised? then (s', Some(r.error)) else Walk(h, classify, s', entries[1..])
  }

  /** What `check_dir` returns: true when no path has been recorded by this checker at all. */
  function DirReturn(w: (Session, Option<IOError>)): (r: Return)
    ensures r.Raised? <==> w.1.Some?
    ensures w.1.Some? ==> r.error == w.1.value
    ensures r == Returned(true) <==> w.1.None? && w.0.failed == []
  {
    if w.1.Some? then Raised(w.1.value) else Returned(w.0.failed == [])
  }

  /** Visiting a path never unsettles a path. */
  lemma {:induction false} VisitKeepsSettled(h: Headers, info: PathInfo, s: Session, path: string, q: string, infoQ: PathInfo)
    requires Settled(h, infoQ, s.files, q)
    requires q == path ==> infoQ == info
    ensures Settled(h, infoQ, VisitFile(h, info, s, path).0.files, q)
  {
  }

  /** A walk never unsettles a path, provided the classifier gives every path one answer. */
  lemma {:induction false} WalkKeepsSettled(h: Headers, classify: string -> PathInfo, s: Session, entries: seq<string>, q: string)
    requires Settled(h, classify(q), s.files, q)
    ensures Settled(h, classify(q), Walk(h, classify, s, entries).0.files, q)
    decreases |entries|
  {
    if entries != [] {
      var (s', r) := VisitFile(h, classify(entries[0]), s, entries[0]);
      VisitKeepsSettled(h, classify(entries[0]), s, entries[0], q, classify(q));
      if !r.Raised? {
        WalkKeepsSettled(h, classify, s', entries[1..], q);
      }
    }
  }

  /** After a walk that raised nothing, every visited file is settled. */
  lemma {:induction false} WalkSettles(h: Headers, classify: string -> PathInfo, s: Session, entries: seq<string>)
    requires h.base <= h.full
    requires Walk(h, classify, s, entries).1.None?
    ensures forall p :: p in entries ==> Settled(h, classify(p), Walk(h, classify, s, entries).0.files, p)
    decreases |entries|
  {
    if entries != [] {
      var path := entries[0];
      var info := classify(path);
      var (s', r) := VisitFile(h, info, s, path);
      var w := Walk(h, classify, s, entries);
      assert w == Walk(h, classify, s', entries[1..]);
      assert Settled(h, info, s'.files, path) by {
        if r == Returned(false) {
          var content := s.files[path];
          var v := Inspect(h, info, Some(content));
          assert v.Rewrite?;
          RewriteIsIdempotent(h, info, content, v.content);
        }
      }
      WalkKeepsSettled(h, classify, s', entries[1..], path);
      WalkSettles(h, classify, s', entries[1..]);
      forall p | p in entries
        ensures Settled(h, classify(p), w.0.files, p)
      {
        if p != path {
          assert p in entries[1..];
        }
      }
    }
  }

  /** A walk over settled files reads them all and changes nothing. */
  lemma {:induction false} SettledWalkChangesNothing(h: Headers, classify: string -> PathInfo, s: Session, entries: seq<string>)
    requires forall p :: p in entries ==> Settled(h, classify(p), s.files, p)
    ensures Walk(h, classify, s, entries) == (s, None)
    decreases |entries|
  {
    if entries != [] {
      assert entries[0] in entries;
      forall p | p in entries[1..]
        ensures Settled(h, classify(p), s.files, p)
      {
        assert p in entries;
      }
      SettledWalkChangesNothing(h, classify, s, entries[1..]);
    }
  }

  /**
   * Running the checker a second time over the same files, with the same
   * headers and classification, rewrites nothing and records nothing.
   */
  lemma {:induction false} SecondWalkChangesNothing(h: Headers, classify: string -> PathInfo, s: Session, entries: seq<string>)
    requires h.base <= h.full
    requires Walk(h, classify, s, entries).1.None?
    ensures var w := Walk(h, classify, s, entries).0; Walk(h, classify, w, entries) == (w, None)
  {
    WalkSettles(h, classify, s, entries);
    SettledWalkChangesNothing(h, classify, Walk(h, classify, s, entries).0, entries);
  }

  /**
   * A walk that raised nothing recorded no path exactly when every file it
   * visited was settled to begin with; so `check_dir` returns true exactly
   * when nothing was recorded before and nothing needed a header.
   */
  lemma {:induction false} WalkRecordsIffUnsettled(h: Headers, classify: string -> PathInfo, s: Session, entries: seq<string>)
    requires Walk(h, classify, s, entries).1.None?
    ensures Walk(h, classify, s, entries).0.failed == s.failed <==>
      forall p :: p in entries ==> Settled(h, classify(p), s.files, p)
    ensures DirReturn(Walk(h, classify, s, entries)) == Returned(true) <==>
      s.failed == [] && forall p :: p in entries ==> Settled(h, classify(p), s.files, p)
    decreases |entries|
  {
    var w := Walk(h, classify, s, entries);
    if entries == [] {
    } else {
      var path := entries[0];
      var (s', r) := VisitFile(h, classify(path), s, path);
      assert w == Walk(h, classify, s', entries[1..]);
      WalkRecordsIffUnsettled(h, classify, s', entries[1..]);
      if r == Returned(false) {
        assert |w.0.failed| >= |s'.failed| > |s.failed|;
        assert !Settled(h, classify(path), s.files, path);
      } else {
        assert s' == s;
        forall p | p in entries
          ensures p in entries[1..] || p == path
        {
        }
      }
    }
  }

  /**
   * `check_dir` as written, on an interpreter without `os.path.walk`: the
   * fallback `os.walk(path, visit, None)` only creates a generator (with
   * `visit` taken as its `topdown` flag) and nothing iterates it, so no file
   * is visited.
   */
  function Python3Walk(s: Session, entries: seq<string>): (w: (Session, Option<IOError>))
    ensures w.0 == s
    ensures DirReturn(w) == Returned(s.failed == [])
  {
    (s, None)
  }

  /**
   * On that fallback a directory holding one Python file without the header
   * passes the check untouched, where the walk the code intends rewrites it
   * and fails the check.
   */
  lemma {:induction false} Python3WalkMissesUnlicensedFile(h: Headers, classify: string -> PathInfo, s: Session, path: string)
    requires h.base <= h.full
    requires s.failed == []
    requires path in s.files && !Settled(h, classify(path), s.files, path)
    ensures DirReturn(Python3Walk(s, [path])) == Returned(true)
    ensures Python3Walk(s, [path]).0.files[path] == s.files[path]
    ensures DirReturn(Walk(h, classify, s, [path])) == Returned(false)
    ensures Walk(h, classify, s, [path]).0.files[path] != s.files[path]
  {
    var info := classify(path);
    var content := s.files[path];
    var v := Inspect(h, info, Some(content));
    assert v.Rewrite?;
    assert Read(s.files, path) == Some(content);
    assert [path][1..] == [];
    var s' := Session(s.files[path := v.content], [path]);
    assert s.failed + [path] == [path];
    assert VisitFile(h, info, s, path) == (s', Returned(false));
    assert Walk(h, classify, s', []) == (s', None);
    assert Walk(h, classify, s, [path]) == (Session(s.files[path := v.content], [path]), None);
    RewriteIsIdempotent(h, info, content, v.content);
  }
}
