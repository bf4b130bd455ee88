/** The build information goobrew reports: three values fixed at link time
    and the two strings assembled from them. */
module Version {
  import opened Text

  /** The `Version`, `Commit` and `BuildTime` package variables. */
  datatype BuildInfo = BuildInfo(version: string, commit: string, buildTime: string)

  /** The values the variables hold when the build does not override them. */
  const Defaults: BuildInfo := BuildInfo("0.2.0", "none", "unknown")

  const ProgramPrefix: string := "goobrew version "
  const CommitLabel: string := "commit: "
  const BuiltLabel: string := "built: "

  /** `GetVersion`: the program name, then the version. */
  function GetVersion(b: BuildInfo): (r: string)
    ensures |r| == |ProgramPrefix| + |b.version|
    ensures r[..|ProgramPrefix|] == ProgramPrefix && r[|ProgramPrefix|..] == b.version
  {
    ProgramPrefix + b.version
  }

  /** `GetFullVersion`: the version line, then the commit line, then the
      build-time line, separated by newlines. */
  function GetFullVersion(b: BuildInfo): (r: string)
    ensures r == Join([GetVersion(b), CommitLabel + b.commit, BuiltLabel + b.buildTime], '\n')
  {
    var parts := [GetVersion(b), CommitLabel + b.commit, BuiltLabel + b.buildTime];
    assert Join(parts[2..], '\n') == parts[2];
    assert Join(parts[1..], '\n') == parts[1] + "\n" + parts[2] by {
      assert parts[1..][1..] == parts[2..];
    }
    GetVersion(b) + "\n" + CommitLabel + b.commit + "\n" + BuiltLabel + b.buildTime
  }

  /** The short version string begins the full one. */
  lemma VersionIsPrefixOfFullVersion(b: BuildInfo)
    ensures GetVersion(b) <= GetFullVersion(b)
  {
    assert GetFullVersion(b) == GetVersion(b) + ("\n" + CommitLabel + b.commit + "\n" + BuiltLabel + b.buildTime);
  }

  lemma LabelsHaveNoNewline()
    ensures '\n' !in ProgramPrefix && '\n' !in CommitLabel && '\n' !in BuiltLabel
  {
  }

  /** When no build value holds a newline, the full version is exactly three
      lines: the version string, the commit line and the build-time line. */
  lemma FullVersionLines(b: BuildInfo)
    requires '\n' !in b.version && '\n' !in b.commit && '\n' !in b.buildTime
    ensures Split(GetFullVersion(b), '\n') == [GetVersion(b), "commit: " + b.commit, "built: " + b.buildTime]
  {
    LabelsHaveNoNewline();
    var parts := [GetVersion(b), CommitLabel + b.commit, BuiltLabel + b.buildTime];
    assert forall k :: 0 <= k < |parts| ==> '\n' !in parts[k];
    SplitJoin(parts, '\n');
  }

  /** What an unconfigured build reports. */
  lemma DefaultVersion()
    ensures GetVersion(Defaults) == "goobrew version 0.2.0"
    ensures Defaults.commit == "none" && Defaults.buildTime == "unknown"
  {
  }
}
