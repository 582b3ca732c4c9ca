# LabVIEW Conan recipe — a Dafny model

`conanfile.py` is a Conan recipe that packages a LabVIEW project. It works out
the rest from the repository it sits in:

- It finds the LabVIEW project file (`*.lvproj`) in a directory listing.
- It names the package after that file.
- It derives the package version from git: the branch, the latest release tag,
  and the number of commits since the root commit.
- It reads the LabVIEW version from the project file's XML.
- It assembles the g-cli command line that runs `LVBuild.vi` with the build
  parameters.

This project models those pieces as pure Dafny functions and proves what the
recipe relies on.

Modules, in dependency order:

- `Results`: `Option` and `Result`.
- `Text`: Python's `str.split`, `'.'.join`, `lower()` and `replace()` on
  ASCII text. `Split` and `Join` invert each other.
- `PyInt`: Python's `int()` (base 10) and `str()`. `int(str(n)) == n` holds,
  and leading zeros are lost.
- `Paths`: `os.path.splitext(name)[0]` for a bare file name, and
  `ntpath.join` for a relative name.
- `ProjectFile`: `_find_project_file`, `set_name` and `_get_labview_version`.
- `Versioning`: `set_version`, with the version rule proved for each branch
  case.
- `Build`: the `build_params` string of `_run_vi_build`, with a parser that
  reads it back, and the command line of `_labview_ci`.
- `Scenarios`: concrete cases, such as tag `1.2.3` giving `1.2.3.5` on
  `master` and `1.2.4.5` elsewhere.

Everything outside the recipe's own logic is a parameter:

- `git` maps a git command line to its output, or to `None` when `git.run`
  raised.
- `parse` maps a project file path to the attributes of its `Project`
  elements, or to `None` when parsing raised.
- Each directory listing is a `seq<string>` in the order `os.listdir` returned
  it. `_run_vi_build` lists the source folder twice, once for the build
  parameters and once inside `_get_labview_version`, so it takes two listings.

The recipe's edge cases are modelled as written, not as a reader might expect
them:

- With no project file in a non-empty listing, `_find_project_file` returns
  the stem of the LAST entry. This is the value the `for` loop variable keeps.
  It returns `''` only for an empty listing.
- A name made of dots and the extension only, such as `.lvproj`, keeps its
  extension, because `splitext` skips leading dots.
- `'20' + version[0:2]` gives a short year when `LVVersion` is short or
  missing.
- Off `master`, a tag must split into exactly three fields. The last field
  must pass `int()`: leading zeros and surrounding whitespace are accepted,
  and leading zeros do not come back (`1.2.007` gives patch `8`).
- If the branch query failed, `set_version` falls back to `0.0.0.1` and the
  class attribute `branch` is never assigned. `_run_vi_build` then fails
  reading it, which is modelled as the error `BranchUnset`.

## Model

| member | source | states |
|---|---|---|
| ProjectFile.IsProjectFileNameMatchesGlob | conanfile.py:37 | a name passes the `*.lvproj` test exactly when it is some text followed by `.lvproj` |
| ProjectFile.ScannedEntry | conanfile.py:35-38 | the value the loop variable holds after the scan: `''` for an empty listing, the first `*.lvproj` entry when there is one, otherwise the last entry |
| ProjectFile.FindProjectFile | conanfile.py:34-39 | `_find_project_file` returns the splitext root of the first project file. With no project file it returns the root of the last entry, and `''` for an empty listing |
| ProjectFile.FindProjectFileStripsExtension | conanfile.py:37-39 | when the first project file is `stem.lvproj`, the result is `stem`. It is the whole name when `stem` is dots only |
| ProjectFile.FindProjectFileIgnoresLater | conanfile.py:36-38 | once a project file is found the loop breaks: entries appended after it change neither the scanned entry nor the result |
| Paths.SplitExtRoot | conanfile.py:39 | the root is a prefix of the name. When shorter, it stops at the last dot and is not dots only. When it is the whole name, only dots precede the last dot |
| Paths.SplitExtRootOfAppended | conanfile.py:39 | appending a one-dot extension and taking the root gives the stem back, unless the stem is dots only |
| Paths.JoinWindows | conanfile.py:43 | `os.path.join(folder, name)` puts exactly one backslash between the parts when the folder is non-empty, does not end in a separator and is not a bare drive such as `C:`. Otherwise it is the plain concatenation |
| Paths.JoinAfterSeparator | conanfile.py:57 | joining after a directory that ends in a separator adds nothing between the parts |
| Text.Lower | conanfile.py:86 | `lower()` keeps the length and lowers each ASCII capital, leaving every other character alone |
| Text.ReplaceChar | conanfile.py:86 | `replace(' ', '_')` keeps the length, puts `_` at every space and keeps every other character |
| ProjectFile.NormaliseName | conanfile.py:86 | `lower().replace(' ','_')` yields a name with no space and no ASCII capital, of the same length, changed character by character |
| ProjectFile.NormaliseNameIdempotent | conanfile.py:86 | normalising a package name a second time changes nothing |
| ProjectFile.NormaliseNameFixesPackageNames | conanfile.py:86 | a name already free of spaces and ASCII capitals is its own package name |
| ProjectFile.PackageName | conanfile.py:86 | when the recipe folder holds a project file, `set_name` takes the package name from the first one: its stem, lowered, with spaces made underscores |
| ProjectFile.LabVIEWYear | conanfile.py:46 | `'20' + version[0:2]` starts with `20`, followed by at most the first two characters of the attribute, in order |
| ProjectFile.GetAttribute | conanfile.py:45 | `getAttribute` gives the attribute's value, or `''` when the element lacks it |
| ProjectFile.LabVIEWVersion | conanfile.py:42-46 | an unparsable file is an error, and so is a document with no `Project` element (`pop(0)`). Otherwise the year comes from the first element's `LVVersion`, and a missing attribute gives `20` |
| Text.Split | conanfile.py:112 | `split('.')` always gives at least one field |
| Text.Join | conanfile.py:113 | `'.'.join` of n parts is at least n - 1 characters long, one per separator |
| Text.JoinEnds | conanfile.py:113 | a join starts with the first part and ends with the last, and holds the separator once there are two parts |
| Text.JoinSplit | conanfile.py:112 | the fields of `split('.')` hold no dot, and joining them with `.` gives the text back |
| Text.SplitJoin | conanfile.py:112-113 | splitting a `.`-join of dot-free parts gives the parts back |
| Text.SplitAround | conanfile.py:110 | the fields of `a + '.' + b` are the fields of `a` followed by the fields of `b` |
| PyInt.ParseInt | conanfile.py:113 | `int(fix)` succeeds exactly when, after stripping space and tab to carriage return from both ends, the text is digits with single underscores between them, optionally after one `+` or `-`. A negative result needs the `-` |
| PyInt.IntToString | conanfile.py:113 | `str(n)` is non-empty and starts with `-` exactly when `n` is negative |
| PyInt.ParseIntRoundTrip | conanfile.py:113 | `int(str(n)) == n` for every integer, negative ones included. CPython's 4300-digit conversion limit is not modelled |
| PyInt.ParseIntIgnoresWhitespace | conanfile.py:113 | `int()` gives the same result with or without the whitespace around the number |
| PyInt.ParseIntPlusSign | conanfile.py:113 | `int('+' + d)` equals `int(d)`, the value of the digit run `d` |
| PyInt.ParseIntUnderscore | conanfile.py:113 | an underscore between two digit runs leaves the value alone: `int('3_0') == int('30')` |
| PyInt.LeadingZeroDropped | conanfile.py:113 | `int()` ignores a leading zero, so `str(int(fix))` does not give back a field that had one |
| PyInt.NatToStringDigits | conanfile.py:113 | `str(n)` of a natural number is all digits, with no leading zero unless it is `0` |
| PyInt.IntToStringHasNoDot | conanfile.py:113 | `str(int(fix) + 1)` never holds a dot, so it stays one field of the version |
| Versioning.DeriveVersion | conanfile.py:109-113 | on `master` the version is `tag.count`. Elsewhere a tag without exactly three fields is refused, naming the field count. Every version ends with `.count` |
| Versioning.PrimaryBranchKeepsTag | conanfile.py:109-110 | on `master` the version's fields are the tag's fields followed by the commit count, whatever the tag's shape |
| Versioning.OtherBranchBumpsPatch | conanfile.py:111-113 | off `master`, tag `major.minor.fix` with an integer `fix` gives `major.minor.(fix+1).count`. That is four fields, and the third reads back as `fix + 1` |
| Versioning.OtherBranchRejectsFieldCount | conanfile.py:112 | off `master`, a tag of any other number of fields fails to unpack. The model's `TagFieldCount` error carries the count, which Python's `ValueError` message does not always give |
| Versioning.OtherBranchRejectsNonIntegerFix | conanfile.py:113 | off `master`, a three-field tag whose last field is not an integer is refused, naming that field |
| Versioning.SetVersion | conanfile.py:99-113 | if the branch query fails the version is `0.0.0.1` and no other query is issued. The stored branch is the branch query's answer. The queries issued are always a prefix of the recipe's order: branch, tag, HEAD, root, count. A failing query is the last one issued, and once the branch is known it makes the version `QueryFailed` with that query. When all succeed, the version follows the branch/tag/count rule |
| Build.BuildArguments | conanfile.py:64-68 | the LVBuild.vi arguments are `-Version`, then `-Branch`, then `-Debug "True"` exactly when the branch is not `master`, then the project path |
| Build.ParseRenderRoundTrip | conanfile.py:64-68 | when no value holds a double quote and no name a space, reading the rendered arguments back gives exactly those arguments |
| Build.ReadRendered | conanfile.py:64-68 | one rendered argument reads back as itself, followed by the text after it |
| Build.ParseRenderStep | conanfile.py:64-68 | putting one more readable argument in front of a list that reads back keeps the round trip |
| Build.BuildParams | conanfile.py:64-68 | reading `build_params` back gives the build arguments, so `-Debug "True"` is present exactly off `master`. This holds when the values hold no double quote |
| Build.BuildParamsText | conanfile.py:64-68 | `build_params` is the recipe's concatenation, one quoted piece per argument |
| Build.GCliToolsDir | conanfile.py:51 | the g-cli tools directory ends in a backslash, so the VI name is joined onto it directly |
| Build.LabVIEWCiCommand | conanfile.py:49-58 | the command starts with `g-cli --kill --lv-ver <year> --timeout 60000 `. Next come the quoted path of the VI inside the g-cli tools of that year, then ` -- ` and the parameters |
| Build.ProjectPath | conanfile.py:43 | the project path is the source folder, then one backslash exactly when `ntpath.join` adds one, then the project stem plus `.lvproj` |
| Build.RunViBuild | conanfile.py:43-70 | an unset branch is an error before anything else. Then the project file of the second listing (line 43) is parsed: if parsing raised, the error names that path; if the file has no `Project` element, `pop(0)` fails; otherwise a command is built. A built command is exactly the g-cli head for the project's LabVIEW year, the quoted `LVBuild.vi` path, ` -- ` and the build parameters naming the project path of the first listing (line 68), so it ends with that path, quoted |
| Scenarios.ReleaseTagOnMasterExample | conanfile.py:109-110 | tag `1.2.3` with 5 commits gives `1.2.3.5` on `master` |
| Scenarios.ReleaseTagOffMasterExample | conanfile.py:111-113 | tag `1.2.3` with 5 commits gives `1.2.4.5` on any other branch |
| Scenarios.LeadingZeroTagExample | conanfile.py:112-113 | tag `1.2.007` gives `1.2.8.5` off `master` |
| Scenarios.FourFieldTagExample | conanfile.py:105-113 | tag `1.2.3.4` matches the tag pattern but is refused off `master`, and gives `1.2.3.4.5` on `master` |
| Scenarios.NoRepositoryExample | conanfile.py:99-103 | when every git command raises, the version is `0.0.0.1` after the single branch query |
| Scenarios.PackageNameExample | conanfile.py:86 | `My Project.lvproj`, ahead of another project file, gives the package name `my_project` |
| Scenarios.NoProjectFileExample | conanfile.py:34-39 | a listing without a project file gives the last entry's stem (`conanfile`), and an empty listing gives `''` |
| Scenarios.WhitespaceExample | conanfile.py:113 | `int(' \t7\r\n')` is 7, and `int('\x1c7')` raises |
| Scenarios.ShortLVVersionExample | conanfile.py:46 | `LVVersion` `21.0` gives `2021`, `9` gives `209` and a missing one gives `20` |

## Left out

- git: `tools.Git` and `git.run` are external processes. They are the parameter `git`, which gives the stripped output or `None` when the command raised.
- `git.run('reset --hard')` after the build (line 72) is not modelled. It resets the working tree, and when it fails `git.run` raises, so `_run_vi_build` raises after the build instead of returning. That exception path comes after the modelled command line.
- XML: `xml.dom.minidom.parse` and `getElementsByTagName` are the parameter `parse`. The model reads only the attributes of the `Project` elements, and a missing attribute reads as `''`.
- `os.listdir` is the listing parameter. Its order is whatever the filesystem returns.
- `self.run(labview_command)` and the `print` calls are not modelled. `_labview_ci` and `_run_vi_build` are modelled up to the command line they would run.
- `package_id`, `source`, `build`, `package`, `imports` and the class attributes are not part of this model: they are Conan plumbing, cloning, copying and an OS check around the build.
- ProjectFile.IsProjectFileName: `fnmatch` is modelled as a case-sensitive suffix test. On Windows `fnmatch` folds case, so `X.LVPROJ` would match there and does not in the model.
- Text.Lower: only ASCII capitals are lowered. It lowers ASCII capitals only and keeps the length, while Python's `lower()` lowers every cased letter and can lengthen the text (`'İ'.lower()`, U+0130, is two code points).
- ProjectFile.NormaliseName: It lowers ASCII capitals only and keeps the length, while Python's `lower()` lowers every cased letter and can lengthen the text (`'İ'.lower()`, U+0130, is two code points). So `École` stays `École` where line 86 gives `école`.
- ProjectFile.NormaliseNameFixesPackageNames: a package name excludes only ASCII capitals. It lowers ASCII capitals only and keeps the length, while Python's `lower()` lowers every cased letter and can lengthen the text (`'İ'.lower()`, U+0130, is two code points). So `École` counts as its own package name in the model, while Python lowers it.
- PyInt.ParseInt: Python 3.11 and later, and security releases of 3.7 to 3.10, raise `ValueError` when converting between `str` and `int` beyond 4300 digits. The model has no digit limit, so `int(fix)` and `str(int(fix) + 1)` never fail on length, and PyInt.ParseIntRoundTrip holds for integers of every size.
- PyInt.ParseInt: `int()` is modelled on ASCII text. Non-ASCII whitespace and Unicode decimal digits, which Python also accepts, are not modelled.
- Paths.JoinWindows: `os.path.join` (lines 43, 57 and 68) is `ntpath.join` only on a Windows host. The model assumes one, because `build()` (line 141) runs `_run_vi_build` only when `settings.os` is Windows. On another host `posixpath.join` would join with `/`, which is not modelled.
- Paths.SplitExtRoot and Paths.JoinWindows cover the arguments the recipe gives them: a bare file name and a relative name. Drives, UNC roots and absolute second arguments of `ntpath.join` are not modelled.
- ProjectFile.PackageName: its contract covers listings that hold a project file. Without one, the name is NormaliseName of the last entry's stem, which follows from the definition but is not stated as an ensures. Like NormaliseName, it lowers ASCII capitals only and keeps the length, while Python's `lower()` lowers every cased letter and can lengthen the text (U+0130).
- Build.BuildParams: the round trip is stated only when the version, branch and path hold no double quote. The recipe does no quoting, so a value with a quote would run into the next argument.
- The no-match case of `_find_project_file` is modelled as the code behaves (last entry's stem), not as `''`, which a reading of the method's intent might suggest.
