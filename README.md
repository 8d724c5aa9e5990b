# inspektor license checker, in Dafny

This project models `LicenseChecker` from inspektor's `inspektor/license.py`. The checker
makes sure every Python file of a source tree carries a GPLv2 license header.

- When a checker is built, it picks a license template by key (`gplv2_later` or
  `gplv2_strict`). It then composes the full header: the template, an optional copyright
  block and an optional author line.
- `check_file` searches each file for the bare template. A file that lacks the template is
  rewritten with the full header in front. A script keeps its shebang line first. The
  rewritten path is recorded in `failed_paths`.
- `check_dir` runs `check_file` on every file of a directory. `check` dispatches on the
  path's kind.

Modules:

- `Wrappers`: `Option` and `Result`.
- `Text`: Python's `in` on strings (`Contains`, proved equal to a substring predicate).
  Also `readlines()` (`ReadLines`) and `"".join` (`Join`), with the round trip between them.
- `Registry`: the two templates, word for word, and `license_mapping`.
- `Header`: header composition as a function (`Compose`), with an error for an unknown key.
- `Inspector`: the per-file decision of `check_file`, as a pure function `Inspect`. A
  `PathInfo` record holds the answers of the path classifier.
- `Walker`: a run over a tree as functions on a `Session`. A session holds the file map
  and `failed_paths`. `VisitFile` is one `check_file` call. `Walk` is `check_dir`'s loop,
  and it stops at the first file that cannot be opened, as the propagating exception does.
- `Checker`: the imperative part. `FileSystem` is a class holding a mutable map from path
  to content. `LicenseChecker` is a class with `base`, `full` and the mutable
  `failedPaths`. Its methods `CheckFile`, `CheckDir` and `Check` are proved equal to the
  `Walker` functions.

A file's content is a string. A path missing from the file map cannot be opened, so
`open` raises. The classifier's answers for a path (ignored, Python, empty, script, first
line) are inputs. A directory is given as the list of joined paths that the walk passes to
`visit`, subdirectory paths included, in order.

## Model

| member | source | states |
|---|---|---|
| Registry.GplV2Later | inspektor/license.py:26-36 | the "version 2 or any later version" template, word for word, as ten comment lines each ending in a newline |
| Registry.GplV2Strict | inspektor/license.py:38-47 | the "version 2 only" template, word for word, as nine comment lines each ending in a newline |
| Registry.LicenseMapping | inspektor/license.py:49-50 | exactly the keys `gplv2_later` and `gplv2_strict`, mapped to those two templates |
| Registry.TemplateEndsWithNewline | inspektor/license.py:26-50 | each registered template is non-empty and ends with a newline, so it consists of whole lines |
| Header.Trailer | inspektor/license.py:67-72 | the text appended to the template: empty exactly when copyright and author are both empty; it starts with the `#` line and the copyright line when there is a copyright, and ends with the author line when there is an author |
| Header.Compose | inspektor/license.py:64-72 | an unknown license key is an error naming the key, and only an unknown key is; `base` is the registered template; `base` is a prefix of the full header; the full header equals `base` exactly when copyright and author are both empty |
| Header.ComposeLines | inspektor/license.py:64-72 | the full header reads back as the template's lines followed by `#`, `# <copyright>` and `# <author>` lines, each present only when its field is non-empty |
| Header.TrailerText | inspektor/license.py:67-72 | the trailer lines joined give exactly the text appended to the template |
| Checker.LicenseChecker.constructor | inspektor/license.py:56-72 | the object's two headers are what `Compose` yields for the key, copyright and author, and `failed_paths` starts empty |
| Text.Contains | inspektor/license.py:100 | Python's `base in content` holds exactly when `base` occurs as a contiguous substring of the content |
| Text.ReadLines | inspektor/license.py:96 | `readlines()`: the text cut after every newline, each line keeping its newline; the list is empty exactly when the content is empty |
| Text.Join | inspektor/license.py:99 | `"".join(lines)`: the lines concatenated in order; the result begins with the first line |
| Text.Tail | inspektor/license.py:97-98 | `content[1:]`: putting the first element back in front gives the list again, and an empty list stays empty |
| Text.JoinReadLines | inspektor/license.py:96-99 | joining the lines `readlines()` returns gives back the file's content |
| Text.ReadLinesAreLines | inspektor/license.py:96 | every line `readlines()` returns is non-empty, has no newline before its end, and ends in a newline unless it is the last |
| Text.JoinAfterFirstLine | inspektor/license.py:96-99 | dropping the first line and joining the rest leaves the text after the first newline, or nothing when there is no newline |
| Text.ReadLinesAppend | inspektor/license.py:96 | after a text that ends in a newline, `readlines()` of a concatenation is the concatenation of the two line lists |
| Text.ReadJoin | inspektor/license.py:96-99 | lines that each end in a newline and contain no other newline are split back exactly as they were joined |
| Inspector.IsExempt | inspektor/license.py:84-88 | a path is left alone without being opened exactly when it is to be ignored, is not a Python file, or is empty |
| Inspector.Body | inspektor/license.py:90-99 | the text searched is the whole content for a non-script, and for a script the content after its first newline (empty when there is none) |
| Inspector.Inspect | inspektor/license.py:82-105 | the file is exempt exactly when ignored, not Python or empty; unreadable exactly when not exempt and it cannot be opened; left alone exactly when the template occurs in the searched text; otherwise it is rewritten |
| Inspector.NewContent | inspektor/license.py:101-105 | the new file content: the shebang line and a newline first for a script, otherwise the full header first; it always ends with a newline followed by the old body |
| Inspector.RewriteNonScript | inspektor/license.py:100-105 | for a non-script lacking the template, the new content is the full header, a newline, then the old content |
| Inspector.RewriteScript | inspektor/license.py:90-105 | for a script lacking the template, the first line of the new content is the shebang line, and below it comes the full header, a newline and the old body |
| Inspector.RewrittenScriptHasBase | inspektor/license.py:90-105 | in a rewritten script, the text below the first line, which is what a later check searches, holds the base header |
| Inspector.RewriteIsIdempotent | inspektor/license.py:65-105 | checking a rewritten file again with the same headers and classification finds the template and leaves it alone |
| Inspector.HeaderAnywhere | inspektor/license.py:100 | a non-script holding the template anywhere, not only at the top, is left alone |
| Inspector.HeaderAnywhereBelowShebang | inspektor/license.py:90-100 | a script holding the template anywhere after its first line is left alone |
| Walker.VisitFile | inspektor/license.py:82-113 | `check_file` returns true exactly when the file is exempt or already has the template, and then nothing changes; it raises exactly when a non-exempt path cannot be opened; it returns false exactly when it wrote the new content and appended the path once to `failed_paths` |
| Walker.Walk | inspektor/license.py:74-80 | a walk only appends to `failed_paths`, only paths it visited, keeps the set of files, and leaves files outside the listing untouched |
| Walker.DirReturn | inspektor/license.py:79-80 | `check_dir` raises exactly when the walk raised, with that error, and otherwise returns true exactly when `failed_paths` is empty |
| Walker.VisitKeepsSettled | inspektor/license.py:82-113 | a file that is exempt or already has the template stays that way whatever file is checked next |
| Walker.WalkSettles | inspektor/license.py:74-111 | after a walk that raised nothing, every visited file is exempt or has the template |
| Walker.SettledWalkChangesNothing | inspektor/license.py:74-113 | a walk over files that are all exempt or already carry the template changes nothing |
| Walker.SecondWalkChangesNothing | inspektor/license.py:74-113 | checking the same tree a second time writes nothing and records nothing |
| Walker.WalkRecordsIffUnsettled | inspektor/license.py:74-111 | a walk records a path exactly when some visited file lacked the template; `check_dir` returns true exactly when `failed_paths` was empty before and every visited file already complied |
| Walker.Python3Walk | inspektor/license.py:18-80 | as written under Python 3: the fallback `os.walk` call visits nothing, so no file and no recorded path changes, and `check_dir` returns true exactly when `failed_paths` was already empty |
| Walker.Python3WalkMissesUnlicensedFile | inspektor/license.py:18-80 | under Python 3, a directory holding one file without the header is reported as passing and the file is not touched, whereas the intended walk rewrites it and reports failure |
| Checker.LicenseChecker.CheckFile | inspektor/license.py:82-113 | the file map, `failed_paths` and the result after `check_file` are those `Walker.VisitFile` gives for the old state |
| Checker.LicenseChecker.CheckDir | inspektor/license.py:74-80 | the loop over the listing leaves the state `Walker.Walk` gives and returns true exactly when `failed_paths` is empty |
| Checker.LicenseChecker.Check | inspektor/license.py:115-122 | a regular file, readable or not, is checked as by `check_file` (an unreadable, non-exempt one raises); a directory is checked as by `check_dir`; any other path returns false with the files and `failed_paths` unchanged |

## Left out

- Directory enumeration (`os.path.walk`, inspektor/license.py:18-21, 79) is not modelled; a directory is given as its listing. The listing holds every joined path the walk passes to `visit`, in that order: the names in each directory, subdirectory paths included, then those of its subdirectories. A subdirectory path reaches `check_file` like any other name. Unless the classifier exempts it, opening it raises, because it is not in the file map, and the walk stops there.
- `PathChecker` (`inspektor/path.py`) is not part of this model. Its answers for a path (to be ignored, Python, empty, a script, the first line) are inputs, fixed for each path within one run. `get_first_line` is taken to return the first line without its newline, which is `Inspector.RewriteScript`'s precondition; the rest of the model (`NewContent`, `RewriteIsIdempotent`) holds for any first line.
- Real I/O is left out. This covers permission errors, the window between reading and writing a file, and newline translation on reading. A file that cannot be opened is a path missing from the file map, and `open` on it raises. At `check`, the regular files that exist but cannot be opened are given as a set, so they still go to `check_file` as in the source. Writes always succeed.
- Logging (inspektor/license.py:121) and the `args` namespace are left out. Only the license key, the copyright and the author are inputs. A missing (`None`) copyright or author is modelled as the empty string, since both are false in Python.
- `default_license` (inspektor/license.py:51) is unused by the checker and is not modelled.
- Checker.LicenseChecker.constructor: requires a registered license key. In Python an unknown key raises `KeyError` before any file is touched; that error path is modelled by `Header.Compose`'s `UnknownLicense` result rather than by the constructor.
- Header.ComposeLines: assumes copyright and author contain no newline. With a newline inside, the header still has the same text, but it does not split into the same lines.

## Findings

| source | as written | input that shows it | evidently intended | confidence | as-written member | corrected member |
|---|---|---|---|---|---|---|
| inspektor/license.py:18-80 | under Python 3 `os.path.walk` does not exist, so `walk` is `os.walk`; `walk(path, visit, None)` makes a generator (with `visit` taken as `topdown`) that is never iterated, so no file is checked and `check_dir` returns `not failed_paths` | a directory containing one Python file without the header, on a fresh checker | every file below the directory is checked, unlicensed files are rewritten, and the call returns false | not executed | Walker.Python3WalkMissesUnlicensedFile | Walker.WalkRecordsIffUnsettled |
