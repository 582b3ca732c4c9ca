/** Locating the LabVIEW project in a directory listing, and what the recipe
    derives from it: the package name and the LabVIEW year. The listing is
    the result of `os.listdir`, in the order the filesystem returned it. */
module ProjectFile {
  import opened Results
  import opened Text
  import opened Paths

  const ProjectExtension: string := ".lvproj"

  /** `fnmatch(name, '*.lvproj')`, taken as a case-sensitive suffix test. */
  predicate IsProjectFileName(name: string) {
    EndsWith(name, ProjectExtension)
  }

  /** `*` matches any text, so a name matches `*.lvproj` exactly when it is
      some text followed by the extension. */
  lemma IsProjectFileNameMatchesGlob(name: string)
    ensures IsProjectFileName(name) <==> exists stem :: name == stem + ProjectExtension
  {
    if IsProjectFileName(name) {
      var stem := name[..|name| - |ProjectExtension|];
      assert name == stem + ProjectExtension;
    }
    forall stem | name == stem + ProjectExtension ensures IsProjectFileName(name) {
      assert name[|name| - |ProjectExtension|..] == ProjectExtension;
    }
  }

  /** Entry `i` is the first project file of the listing. */
  predicate IsFirstMatch(listing: seq<string>, i: int) {
    && 0 <= i < |listing|
    && IsProjectFileName(listing[i])
    && forall j :: 0 <= j < i ==> !IsProjectFileName(listing[j])
  }

  predicate HasMatch(listing: seq<string>) {
    exists i :: 0 <= i < |listing| && IsProjectFileName(listing[i])
  }

  /** The value the `for` loop variable holds once the scan of the listing
      ends: the first project file, or else the last entry examined, or
      the initial `''` when there was nothing to examine. */
  function ScannedEntry(listing: seq<string>): (entry: string)
    ensures |listing| == 0 ==> entry == ""
    ensures forall i :: IsFirstMatch(listing, i) ==> entry == listing[i]
    ensures !HasMatch(listing) && |listing| > 0 ==> entry == listing[|listing| - 1]
  {
    if |listing| == 0 then ""
    else if IsProjectFileName(listing[0]) || |listing| == 1 then listing[0]
    else
      assert forall i :: IsFirstMatch(listing, i) ==> IsFirstMatch(listing[1..], i - 1);
      ScannedEntry(listing[1..])
  }

  /** `_find_project_file`: the listing's first project file without its
      extension; with no project file in a non-empty listing, the LAST entry
      without its extension; `''` for an empty listing. */
  function FindProjectFile(listing: seq<string>): (stem: string)
    ensures |listing| == 0 ==> stem == ""
    ensures forall i :: IsFirstMatch(listing, i) ==> stem == SplitExtRoot(listing[i])
    ensures !HasMatch(listing) && |listing| > 0 ==> stem == SplitExtRoot(listing[|listing| - 1])
  {
    SplitExtRoot(ScannedEntry(listing))
  }

  /** The first project file `stem + ".lvproj"` gives back `stem`, except
      for names like `.lvproj` that are dots and the extension only. */
  lemma FindProjectFileStripsExtension(listing: seq<string>, i: nat, stem: string)
    requires IsFirstMatch(listing, i)
    requires listing[i] == stem + ProjectExtension
    ensures !AllDots(stem) ==> FindProjectFile(listing) == stem
    ensures AllDots(stem) ==> FindProjectFile(listing) == listing[i]
  {
    SplitExtRootOfAppended(stem, ProjectExtension);
  }

  /** Once a project file has been seen, the entries after it are never
      examined: appending entries to the listing changes nothing. */
  lemma {:induction false} FindProjectFileIgnoresLater(listing: seq<string>, later: seq<string>)
    requires HasMatch(listing)
    ensures ScannedEntry(listing + later) == ScannedEntry(listing)
    ensures FindProjectFile(listing + later) == FindProjectFile(listing)
    decreases |listing|
  {
    if !IsProjectFileName(listing[0]) {
      assert HasMatch(listing[1..]) by {
        var i :| 0 <= i < |listing| && IsProjectFileName(listing[i]);
        assert listing[1..][i - 1] == listing[i];
      }
      assert (listing + later)[1..] == listing[1..] + later;
      FindProjectFileIgnoresLater(listing[1..], later);
    }
  }

  /** The package name form of a project name. */
  predicate IsPackageName(s: string) {
    forall i :: 0 <= i < |s| ==> s[i] != ' ' && !IsUpper(s[i])
  }

  /** `name.lower().replace(' ', '_')`: same length, upper-case ASCII letters
      lowered, every space an underscore, every other character kept. */
  function NormaliseName(name: string): (r: string)
    ensures |r| == |name|
    ensures IsPackageName(r)
    ensures forall i :: 0 <= i < |name| ==>
      r[i] == (if name[i] == ' ' then '_' else LowerChar(name[i]))
  {
    ReplaceChar(Lower(name), ' ', '_')
  }

  /** Normalising a package name again changes nothing. */
  lemma NormaliseNameFixesPackageNames(s: string)
    requires IsPackageName(s)
    ensures NormaliseName(s) == s
  {
    var r := NormaliseName(s);
    assert forall i :: 0 <= i < |s| ==> r[i] == s[i];
  }

  lemma NormaliseNameIdempotent(name: string)
    ensures NormaliseName(NormaliseName(name)) == NormaliseName(name)
  {
    NormaliseNameFixesPackageNames(NormaliseName(name));
  }

  /** `set_name`: the package name comes from the project file found in the
      recipe folder's listing. */
  function PackageName(recipeListing: seq<string>): (name: string)
    ensures forall i :: IsFirstMatch(recipeListing, i) ==> name == NormaliseName(SplitExtRoot(recipeListing[i]))
  {
    NormaliseName(FindProjectFile(recipeListing))
  }

  /** `'20' + version[0:2]`: the slice takes what there is of the first
      two characters, so a short or empty attribute gives a short year. */
  function LabVIEWYear(lvVersion: string): (year: string)
    ensures StartsWith(year, "20")
    ensures |year| == 2 + (if |lvVersion| < 2 then |lvVersion| else 2)
    ensures year[2..] <= lvVersion
  {
    "20" + (if |lvVersion| < 2 then lvVersion else lvVersion[..2])
  }

  /** What `getElementsByTagName` and `getAttribute` read from the project
      file: the attributes of each `Project` element, in document order. */
  type Attributes = map<string, string>

  /** `getAttribute(name)`: the empty string for a missing attribute. */
  function GetAttribute(element: Attributes, attribute: string): (value: string)
    ensures attribute in element ==> value == element[attribute]
    ensures attribute !in element ==> value == ""
  {
    if attribute in element then element[attribute] else ""
  }

  datatype ProjectError =
    | ProjectUnreadable(path: string)   // `parse` raised on the file
    | NoProjectElement                  // `pop(0)` on an empty element list

  /** `_get_labview_version`, given what parsing the project file produced
      (`None` when it raised). The first `Project` element is read. */
  function LabVIEWVersion(path: string, projects: Option<seq<Attributes>>): (r: Result<string, ProjectError>)
    ensures projects.None? ==> r == Failure(ProjectUnreadable(path))
    ensures projects.Some? && |projects.value| == 0 ==> r == Failure(NoProjectElement)
    ensures projects.Some? && |projects.value| > 0 && "LVVersion" in projects.value[0] ==>
      r == Success(LabVIEWYear(projects.value[0]["LVVersion"]))
    ensures projects.Some? && |projects.value| > 0 && "LVVersion" !in projects.value[0] ==>
      r == Success("20")
  {
    match projects
    case None => Failure(ProjectUnreadable(path))
    case Some(elements) =>
      if |elements| == 0 then Failure(NoProjectElement)
      else
        assert "20" + "" == "20";
        Success(LabVIEWYear(GetAttribute(elements[0], "LVVersion")))
  }
}
