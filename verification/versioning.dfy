/** `set_version`: the package version derived from the recipe repository's
    git metadata. `git.run` is an external process; it is the parameter
    `git`, mapping a git command line to its (stripped) output, or to `None`
    when the command raised. */
module Versioning {
  import opened Results
  import opened Text
  import opened PyInt

  const PrimaryBranch: string := "master"
  const FallbackVersion: string := "0.0.0.1"

  const BranchQuery: string := "rev-parse --abbrev-ref HEAD"
  const TagQuery: string := "describe --tags --match \"[0-9]*.[0-9]*.[0-9]*\" --abbrev=0"
  const HeadQuery: string := "rev-parse HEAD"
  const RootQuery: string := "rev-list --max-parents=0 HEAD"

  /** The query counting the commits between the root commit and `HEAD`. */
  function CountQuery(firstCommit: string, currentCommit: string): string {
    "rev-list --count " + firstCommit + " " + currentCommit
  }

  datatype VersionError =
    | QueryFailed(command: string)  // a git query after the branch query raised
    | TagFieldCount(fields: nat)    // `major, minor, fix = tag.split('.')` did not unpack
    | FixNotInteger(fix: string)    // `int(fix)` raised

  /** The version from the branch, the latest release tag and the commit
      count. On the primary branch the tag is kept as it is; elsewhere the
      tag must have exactly three dot-separated fields, the last an integer,
      and the version is the next patch release with the commit count. */
  function DeriveVersion(branch: string, tag: string, commitCount: string): (r: Result<string, VersionError>)
    ensures branch == PrimaryBranch ==> r == Success(tag + "." + commitCount)
    ensures branch != PrimaryBranch && |Split(tag, '.')| != 3 ==> r == Failure(TagFieldCount(|Split(tag, '.')|))
    ensures r.Success? ==> EndsWith(r.value, "." + commitCount)
  {
    if branch == PrimaryBranch then Success(tag + "." + commitCount)
    else
      var fields := Split(tag, '.');
      if |fields| != 3 then Failure(TagFieldCount(|fields|))
      else match ParseInt(fields[2])
        case None => Failure(FixNotInteger(fields[2]))
        case Some(fix) =>
          var version := Join([fields[0], fields[1], IntToString(fix + 1), commitCount], '.');
          assert version == fields[0] + "." + fields[1] + "." + IntToString(fix + 1) + "." + commitCount by {
            JoinFour(fields[0], fields[1], IntToString(fix + 1), commitCount);
          }
          Success(version)
  }

  lemma JoinThree(a: string, b: string, c: string)
    ensures Join([a, b, c], '.') == a + "." + b + "." + c
  {
    JoinCons(a, [b, c], '.');
    assert [a] + [b, c] == [a, b, c];
    JoinCons(b, [c], '.');
    assert [b] + [c] == [b, c];
  }

  lemma JoinFour(a: string, b: string, c: string, d: string)
    ensures Join([a, b, c, d], '.') == a + "." + b + "." + c + "." + d
  {
    JoinCons(a, [b, c, d], '.');
    assert [a] + [b, c, d] == [a, b, c, d];
    JoinThree(b, c, d);
  }

  /** On the primary branch the tag passes through unchanged: the version's
      fields are the tag's fields followed by the commit count, however many
      fields the tag has. */
  lemma PrimaryBranchKeepsTag(tag: string, commitCount: string)
    requires '.' !in commitCount
    ensures DeriveVersion(PrimaryBranch, tag, commitCount).Success?
    ensures Split(DeriveVersion(PrimaryBranch, tag, commitCount).value, '.') == Split(tag, '.') + [commitCount]
  {
    SplitAround(tag, commitCount, '.');
    SplitNoSep(commitCount, '.');
  }

  /** Elsewhere a tag `major.minor.fix` with an integer `fix` gives
      `major.minor.(fix+1).commitCount`: four fields, major and minor copied,
      and a third field that reads back as `fix + 1`. */
  lemma OtherBranchBumpsPatch(branch: string, major: string, minor: string, fix: string, commitCount: string)
    requires branch != PrimaryBranch
    requires '.' !in major && '.' !in minor && '.' !in fix
    requires ParseInt(fix).Some?
    ensures DeriveVersion(branch, major + "." + minor + "." + fix, commitCount)
         == Success(major + "." + minor + "." + IntToString(ParseInt(fix).value + 1) + "." + commitCount)
    ensures '.' !in commitCount ==>
      var fields := Split(DeriveVersion(branch, major + "." + minor + "." + fix, commitCount).value, '.');
      && fields == [major, minor, IntToString(ParseInt(fix).value + 1), commitCount]
      && ParseInt(fields[2]) == Some(ParseInt(fix).value + 1)
  {
    var tag := major + "." + minor + "." + fix;
    assert Split(tag, '.') == [major, minor, fix] by {
      JoinThree(major, minor, fix);
      SplitJoin([major, minor, fix], '.');
    }
    var patch := IntToString(ParseInt(fix).value + 1);
    var version := major + "." + minor + "." + patch + "." + commitCount;
    assert DeriveVersion(branch, tag, commitCount) == Success(version) by {
      JoinFour(major, minor, patch, commitCount);
    }
    if '.' !in commitCount {
      assert Split(version, '.') == [major, minor, patch, commitCount] by {
        IntToStringHasNoDot(ParseInt(fix).value + 1);
        JoinFour(major, minor, patch, commitCount);
        assert Join([major, minor, patch, commitCount], '.') == version;
        SplitJoin([major, minor, patch, commitCount], '.');
      }
      ParseIntRoundTrip(ParseInt(fix).value + 1);
    }
  }

  /** Elsewhere a tag that does not have exactly three fields is refused,
      even though the tag pattern git matches with accepts it (`1.2.3.4`). */
  lemma {:induction false} OtherBranchRejectsFieldCount(branch: string, fields: seq<string>, commitCount: string)
    requires branch != PrimaryBranch
    requires |fields| >= 1 && |fields| != 3
    requires forall i :: 0 <= i < |fields| ==> '.' !in fields[i]
    ensures DeriveVersion(branch, Join(fields, '.'), commitCount) == Failure(TagFieldCount(|fields|))
  {
    SplitJoin(fields, '.');
  }

  /** Elsewhere a three-field tag whose last field is not an integer is refused. */
  lemma OtherBranchRejectsNonIntegerFix(branch: string, major: string, minor: string, fix: string, commitCount: string)
    requires branch != PrimaryBranch
    requires '.' !in major && '.' !in minor && '.' !in fix
    requires ParseInt(fix).None?
    ensures DeriveVersion(branch, major + "." + minor + "." + fix, commitCount) == Failure(FixNotInteger(fix))
  {
    JoinThree(major, minor, fix);
    SplitJoin([major, minor, fix], '.');
  }

  /** What `set_version` leaves behind: the branch it stored in the class
      attribute (`None` when it never assigned one), the version or the
      error that aborted it, and the git queries it issued, in order. */
  datatype VersionOutcome = VersionOutcome(
    branch: Option<string>,
    version: Result<string, VersionError>,
    queries: seq<string>)

  /** `set_version`. */
  function SetVersion(git: string -> Option<string>): (o: VersionOutcome)
    ensures git(BranchQuery).None? ==> o == VersionOutcome(None, Success(FallbackVersion), [BranchQuery])
    ensures o.branch == git(BranchQuery)
    ensures 1 <= |o.queries| <= 5 && o.queries[0] == BranchQuery
    ensures |o.queries| <= 4 ==> o.queries == [BranchQuery, TagQuery, HeadQuery, RootQuery][..|o.queries|]
    ensures |o.queries| == 5 ==>
      && o.queries[..4] == [BranchQuery, TagQuery, HeadQuery, RootQuery]
      && git(HeadQuery).Some? && git(RootQuery).Some?
      && o.queries[4] == CountQuery(git(RootQuery).value, git(HeadQuery).value)
    ensures forall i :: 0 <= i < |o.queries| - 1 ==> git(o.queries[i]).Some?
    ensures |o.queries| < 5 ==> git(o.queries[|o.queries| - 1]).None?
    ensures git(BranchQuery).Some? && git(o.queries[|o.queries| - 1]).None? ==>
      o.version == Failure(QueryFailed(o.queries[|o.queries| - 1]))
    ensures o.version.Failure? && o.version.error.QueryFailed? ==>
      && o.queries[|o.queries| - 1] == o.version.error.command
      && git(o.version.error.command).None?
    ensures
      && git(BranchQuery).Some? && git(TagQuery).Some? && git(HeadQuery).Some? && git(RootQuery).Some?
      && git(CountQuery(git(RootQuery).value, git(HeadQuery).value)).Some?
      ==>
      && o.queries == [BranchQuery, TagQuery, HeadQuery, RootQuery, CountQuery(git(RootQuery).value, git(HeadQuery).value)]
      && o.version == DeriveVersion(git(BranchQuery).value, git(TagQuery).value,
                                    git(CountQuery(git(RootQuery).value, git(HeadQuery).value)).value)
  {
    match git(BranchQuery)
    case None => VersionOutcome(None, Success(FallbackVersion), [BranchQuery])
    case Some(branch) =>
      var stored := Some(branch);
      match git(TagQuery)
      case None => VersionOutcome(stored, Failure(QueryFailed(TagQuery)), [BranchQuery, TagQuery])
      case Some(tag) =>
        match git(HeadQuery)
        case None => VersionOutcome(stored, Failure(QueryFailed(HeadQuery)), [BranchQuery, TagQuery, HeadQuery])
        case Some(currentCommit) =>
          match git(RootQuery)
          case None =>
            VersionOutcome(stored, Failure(QueryFailed(RootQuery)), [BranchQuery, TagQuery, HeadQuery, RootQuery])
          case Some(firstCommit) =>
            var count := CountQuery(firstCommit, currentCommit);
            var issued := [BranchQuery, TagQuery, HeadQuery, RootQuery, count];
            match git(count)
            case None => VersionOutcome(stored, Failure(QueryFailed(count)), issued)
            case Some(commitCount) => VersionOutcome(stored, DeriveVersion(branch, tag, commitCount), issued)
  }
}
