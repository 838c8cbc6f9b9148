/**
 * internal/report/report.go: the choice of report writer, the report title, and the
 * statistics the report prints (`calculateStats`). The writers themselves only print.
 */
module Report {
  import opened Git
  import opened Histogram
  import opened Tally
  import Profile
  import Gemini

  /** The three writers `GenerateProfileReport` dispatches to. */
  datatype ReportFormat = Markdown | Json | Text

  /** The `switch g.Format` of `GenerateProfileReport`. */
  function FormatOf(format: string): ReportFormat
  {
    if format == "markdown" then Markdown
    else if format == "json" then Json
    else Text
  }

  /** Text is the fallback: every string other than the two names selects it. */
  lemma FormatDispatch(format: string)
    ensures FormatOf(format) == Markdown <==> format == "markdown"
    ensures FormatOf(format) == Json <==> format == "json"
    ensures FormatOf(format) == Text <==> format != "markdown" && format != "json"
  {
  }

  /** Which message-catalogue title heads the report. */
  datatype Title = ProfileTitle | ExperienceTitle | TechStackTitle | DefaultTitle

  /** `getAnalysisTitle`. */
  function AnalysisTitle(analysisType: string): Title
  {
    match analysisType
    case "profile" => ProfileTitle
    case "experience" => ExperienceTitle
    case "techstack" => TechStackTitle
    case _ => DefaultTitle
  }

  /** Each of the three analysis names has its own title; every other string gets the default one. */
  lemma TitleChoice(analysisType: string)
    ensures AnalysisTitle(analysisType) == DefaultTitle <==>
      analysisType !in {"profile", "experience", "techstack"}
    ensures forall other: string {:trigger AnalysisTitle(other)} ::
      AnalysisTitle(other) == AnalysisTitle(analysisType) && AnalysisTitle(other) != DefaultTitle ==> other == analysisType
  {
  }

  /** The map `calculateStats` returns, as a record of its four keys. */
  datatype ReportStats = ReportStats(totalCommits: nat, totalRepos: nat, totalFiles: nat, fileTypes: map<string, nat>)

  /** What `calculateStats` returns, as a function of the commits. */
  function ReportStatsOf(commits: seq<CommitInfo>): ReportStats
  {
    ReportStats(|commits|, |DistinctRepos(commits)|, |DistinctFiles(commits)|, Count(Extensions(AllFiles(commits))))
  }

  /** `getFileExtension` (report.go), the same backward scan as the one in profile.go. */
  method GetFileExtension(filename: string) returns (ext: string)
    ensures ext == FileExtension(filename)
  {
    var i := |filename| - 1;
    while i >= 0
      invariant -1 <= i < |filename|
      invariant ExtensionScan(filename, i + 1) == FileExtension(filename)
    {
      if filename[i] == '.' {
        return filename[i..];
      }
      if filename[i] == '/' {
        return "";
      }
      i := i - 1;
    }
    return "";
  }

  /** The inner loop of `calculateStats` over one commit's changed files. */
  method TallyFiles(ghost seen: seq<string>, files: seq<string>, fileTypes0: map<string, nat>, filesSet0: set<string>)
    returns (fileTypes: map<string, nat>, filesSet: set<string>)
    requires fileTypes0 == Count(Extensions(seen))
    requires filesSet0 == Paths(seen)
    ensures fileTypes == Count(Extensions(seen) + Extensions(files))
    ensures filesSet == Paths(seen + files)
  {
    fileTypes, filesSet := fileTypes0, filesSet0;
    ghost var exts := Extensions(seen);
    assert seen + files[..0] == seen;
    for j := 0 to |files|
      invariant exts == Extensions(seen) + Extensions(files[..j])
      invariant fileTypes == Count(exts)
      invariant filesSet == Paths(seen + files[..j])
    {
      var file := files[j];
      PathsScanStep(seen, files, j);
      ExtensionsScanStep(seen, files, j, exts);
      filesSet := filesSet + {file};
      var ext := GetFileExtension(file);
      if ext != "" {
        CountSnoc(exts, ext);
        fileTypes := Bump(fileTypes, ext);
        exts := exts + [ext];
      }
    }
    WholePrefix(files);
  }

  /** `calculateStats`: one pass over the commits and, inside it, over each commit's files. */
  method CalculateStats(commits: seq<CommitInfo>) returns (stats: ReportStats)
    ensures stats == ReportStatsOf(commits)
  {
    var repoSet: set<string> := {};
    var filesSet: set<string> := {};
    var fileTypes: map<string, nat> := map[];
    for i := 0 to |commits|
      invariant repoSet == DistinctRepos(commits[..i])
      invariant filesSet == DistinctFiles(commits[..i])
      invariant fileTypes == Count(Extensions(AllFiles(commits[..i])))
    {
      var commit := commits[i];
      Profile.CommitPrefixStep(commits, i);
      if commit.repoPath != "" {
        repoSet := repoSet + {commit.repoPath};
      }
      fileTypes, filesSet := TallyFiles(AllFiles(commits[..i]), commit.changedFiles, fileTypes, filesSet);
    }
    WholePrefix(commits);
    stats := ReportStats(|commits|, |repoSet|, |filesSet|, fileTypes);
  }

  /**
   * The report and the profile count the same things: the same number of commits, of
   * repositories and of distinct files, and the same file-type tally.
   */
  lemma StatsAgree(commits: seq<CommitInfo>)
    ensures ReportStatsOf(commits).totalCommits == Profile.StatisticsOf(commits).totalCommits
    ensures ReportStatsOf(commits).totalRepos == Profile.StatisticsOf(commits).totalRepos
    ensures ReportStatsOf(commits).totalFiles == Profile.StatisticsOf(commits).filesChanged
    ensures ReportStatsOf(commits).fileTypes == Profile.StatisticsOf(commits).fileTypeStats
  {
  }

  /** The three copies of `getFileExtension` (report.go, profile.go, gemini.go) return the same extension for every path. */
  method ExtensionCopiesAgree(filename: string) returns (same: bool)
    ensures same
  {
    var a := GetFileExtension(filename);
    var b := Profile.GetFileExtension(filename);
    var c := Gemini.GetFileExtension(filename);
    same := a == b && b == c;
  }
}
