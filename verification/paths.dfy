/** The two `os.path` operations the recipe uses, for the arguments it gives them. */
module Paths {
  import opened Results

  /** True when every character of `s` is a dot. */
  predicate AllDots(s: string) {
    forall i :: 0 <= i < |s| ==> s[i] == '.'
  }

  /** The index of the last `.` in `s`. */
  function LastDot(s: string): (k: Option<nat>)
    ensures k.None? ==> '.' !in s
    ensures k.Some? ==> k.value < |s| && s[k.value] == '.' && '.' !in s[k.value + 1..]
  {
    if |s| == 0 then None
    else if s[|s| - 1] == '.' then Some(|s| - 1)
    else
      var k := LastDot(s[..|s| - 1]);
      assert k.Some? ==> s[k.value + 1..] == s[..|s| - 1][k.value + 1..] + [s[|s| - 1]];
      k
  }

  /** `os.path.splitext(name)[0]` for a bare file name, which is what a
      directory listing holds (no drive and no separator). The extension
      starts at the last dot, unless only dots come before that dot, as in
      `.lvproj`, in which case there is no extension. */
  function SplitExtRoot(name: string): (root: string)
    ensures root <= name
    ensures root != name ==> name[|root|] == '.' && '.' !in name[|root| + 1..] && !AllDots(root)
    ensures root == name ==>
      forall k :: 0 <= k < |name| && name[k] == '.' && '.' !in name[k + 1..] ==> AllDots(name[..k])
  {
    match LastDot(name)
    case None => name
    case Some(k) =>
      if AllDots(name[..k]) then name else name[..k]
  }

  /** A file name with the given extension appended loses exactly that
      extension, unless the part before it is dots only. */
  lemma SplitExtRootOfAppended(stem: string, ext: string)
    requires |ext| > 0 && ext[0] == '.' && '.' !in ext[1..]
    ensures SplitExtRoot(stem + ext) == if AllDots(stem) then stem + ext else stem
  {
    var name := stem + ext;
    assert name[|stem|] == '.';
    assert name[|stem| + 1..] == ext[1..];
    assert name[..|stem|] == stem;
  }

  predicate IsSeparator(c: char) {
    c == '\\' || c == '/'
  }

  /** `ntpath.join(dir, name)` when `name` is relative and has no drive: a
      backslash goes between them unless `dir` is empty, already ends in a
      separator, or is a bare drive such as `C:`. */
  function JoinWindows(dir: string, name: string): (path: string)
    ensures path == dir + name || path == dir + "\\" + name
    ensures path == dir + "\\" + name <==> AddsSeparator(dir)
  {
    if AddsSeparator(dir) then dir + "\\" + name else dir + name
  }

  /** `ntpath.join` puts a backslash after `dir` unless it is empty, ends in
      a separator, or is a bare drive such as `C:`. */
  predicate AddsSeparator(dir: string) {
    |dir| > 0 && !IsSeparator(dir[|dir| - 1]) && !(|dir| == 2 && dir[1] == ':')
  }

  /** After a directory that ends in a separator, joining is concatenation. */
  lemma JoinAfterSeparator(dir: string, name: string)
    requires |dir| > 0 && IsSeparator(dir[|dir| - 1])
    ensures JoinWindows(dir, name) == dir + name
  {
  }
}
