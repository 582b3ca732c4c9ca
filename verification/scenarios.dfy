/** Concrete cases of the recipe's behaviour, derived from the general
    lemmas: examples of the recipe's behaviour and the edge cases of the code. */
module Scenarios {
  import opened Results
  import opened PyInt
  import opened Paths
  import opened ProjectFile
  import opened Versioning

  lemma SmallNumbers()
    ensures ParseInt("3") == Some(3) && ParseInt("007") == Some(7)
    ensures IntToString(4) == "4" && IntToString(8) == "8"
  {
    assert TrimEnd(TrimStart("3")) == "3";
    assert TrimEnd(TrimStart("007")) == "007";
    assert IsDigitRun("007");
    assert "007"[..2] == "00" && "00"[..1] == "0" && "0"[..0] == "";
  }

  /** Tag `1.2.3` with 5 commits gives `1.2.3.5` on master ... */
  lemma ReleaseTagOnMasterExample()
    ensures DeriveVersion("master", "1.2.3", "5") == Success("1.2.3.5")
  {
    assert "master" == PrimaryBranch;
    assert "1.2.3" + "." + "5" == "1.2.3.5";
  }

  /** ... and `1.2.4.5` on any other branch. The tag is a parameter tied
      to its literal by the `requires`, as in the examples below: a literal
      argument would let the verifier unfold `Split` over it character by
      character, which costs far more than the general lemmas do. */
  lemma ReleaseTagOffMasterExample(branch: string, tag: string)
    requires branch != PrimaryBranch && tag == "1.2.3"
    ensures DeriveVersion(branch, tag, "5") == Success("1.2.4.5")
  {
    SmallNumbers();
    ReleaseTagSpelling();
    OtherBranchBumpsPatch(branch, "1", "2", "3", "5");
  }

  lemma ReleaseTagSpelling()
    ensures "1" + "." + "2" + "." + "3" == "1.2.3"
    ensures "1" + "." + "2" + "." + "4" + "." + "5" == "1.2.4.5"
  {
  }

  /** Leading zeros of the patch field are lost: `1.2.007` becomes `1.2.8.5`. */
  lemma LeadingZeroTagExample(branch: string, tag: string)
    requires branch != PrimaryBranch && tag == "1.2.007"
    ensures DeriveVersion(branch, tag, "5") == Success("1.2.8.5")
  {
    SmallNumbers();
    LeadingZeroSpelling();
    OtherBranchBumpsPatch(branch, "1", "2", "007", "5");
  }

  lemma LeadingZeroSpelling()
    ensures "1" + "." + "2" + "." + "007" == "1.2.007"
    ensures "1" + "." + "2" + "." + "8" + "." + "5" == "1.2.8.5"
  {
  }

  /** A four-field tag matches git's tag pattern but is refused off master,
      and kept whole on master. */
  lemma FourFieldTagExample(branch: string, tag: string)
    requires branch != PrimaryBranch && tag == "1.2.3.4"
    ensures DeriveVersion(branch, tag, "5") == Failure(TagFieldCount(4))
    ensures DeriveVersion("master", tag, "5") == Success("1.2.3.4.5")
  {
    JoinFour("1", "2", "3", "4");
    assert "1" + "." + "2" + "." + "3" + "." + "4" == tag;
    OtherBranchRejectsFieldCount(branch, ["1", "2", "3", "4"], "5");
    assert "master" == PrimaryBranch;
    assert "1.2.3.4" + "." + "5" == "1.2.3.4.5";
  }

  /** Without a repository the branch query fails and the fallback version
      is used, whatever git would have said to anything else. */
  lemma NoRepositoryExample(git: string -> Option<string>)
    requires forall command :: git(command) == None
    ensures SetVersion(git).version == Success("0.0.0.1")
    ensures SetVersion(git).queries == ["rev-parse --abbrev-ref HEAD"]
  {
    assert git(BranchQuery) == None;
  }

  lemma NormaliseNameExample(name: string)
    requires name == "My Project"
    ensures NormaliseName(name) == "my_project"
  {
    var r := NormaliseName(name);
    assert r[0] == 'm' && r[1] == 'y' && r[2] == '_' && r[3] == 'p' && r[4] == 'r';
    assert r[5] == 'o' && r[6] == 'j' && r[7] == 'e' && r[8] == 'c' && r[9] == 't';
  }

  /** `My Project.lvproj` gives the package name `my_project`; the project
      file after it is not looked at. */
  lemma PackageNameExample()
    ensures PackageName(["conanfile.py", "My Project.lvproj", "Other.lvproj"]) == "my_project"
  {
    var listing := ["conanfile.py", "My Project.lvproj", "Other.lvproj"];
    assert !IsProjectFileName("conanfile.py");
    assert "My Project.lvproj" == "My Project" + ProjectExtension;
    assert IsFirstMatch(listing, 1);
    assert !AllDots("My Project") by { assert "My Project"[0] != '.'; }
    FindProjectFileStripsExtension(listing, 1, "My Project");
    NormaliseNameExample("My Project");
  }

  /** With no project file the last entry's stem is taken. */
  lemma NoProjectFileExample()
    ensures FindProjectFile(["README.md", "conanfile.py"]) == "conanfile"
    ensures FindProjectFile([]) == ""
  {
    var listing := ["README.md", "conanfile.py"];
    assert !IsProjectFileName("README.md");
    assert !IsProjectFileName("conanfile.py");
    assert !HasMatch(listing);
    SplitExtRootOfAppended("conanfile", ".py");
    assert "conanfile.py" == "conanfile" + ".py";
    assert !AllDots("conanfile") by { assert "conanfile"[0] != '.'; }
  }

  /** A short `LVVersion` attribute gives a short year. */
  lemma ShortLVVersionExample()
    ensures LabVIEWYear("21.0") == "2021"
    ensures LabVIEWYear("9") == "209"
    ensures LabVIEWYear("") == "20"
  {
    assert "21.0"[..2] == "21";
  }

  /** Around a number `int()` skips space and tab to carriage return, but
      not the information separator `\x1c`. */
  lemma WhitespaceExample()
    ensures ParseInt(" \t7\r\n") == Some(7)
    ensures ParseInt("\U{1C}7").None?
  {
    assert TrimEnd(TrimStart(" \t7\r\n")) == "7";
    assert TrimEnd(TrimStart("\U{1C}7")) == "\U{1C}7";
  }
}
