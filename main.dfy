/**
 * cmd/main.go: the flag test that chooses interactive mode, the time window, the choice
 * of repositories, and the loop of `generateReport` that collects the commits of every
 * repository before the model is asked.
 *
 * The clock, `AddDate`, repository discovery, `git.NewGitOptions` and
 * `git.GetCommitsBetween` are parameters: the model says what is done with their
 * answers, not how they are computed.
 */
module Cmd {
  import opened Git
  import opened Results
  import opened Dates
  import opened Histogram
  import Tally
  import Profile
  import Prompts
  import Report
  import Gemini
  import Interactive

  /* ---------- Flags ---------- */

  /** The values of the ten command-line flags. */
  datatype Flags = Flags(
    analysisType: string,
    fromDate: string,
    toDate: string,
    timeRange: string,
    outputFormat: string,
    outputFile: string,
    repoPath: string,
    reposPath: string,
    modelName: string,
    authorName: string)

  /** The defaults the flags are registered with. */
  const DefaultFlags := Flags("profile", "", "", "6m", "markdown", "", "", "", "", "")

  /** `hasAnyFlags`. */
  predicate HasAnyFlags(f: Flags)
  {
    f.fromDate != "" ||
    f.toDate != "" ||
    f.timeRange != "6m" ||
    f.analysisType != "profile" ||
    f.outputFormat != "markdown" ||
    f.outputFile != "" ||
    f.repoPath != "" ||
    f.reposPath != "" ||
    f.authorName != "" ||
    f.modelName != ""
  }

  /** Interactive mode is chosen exactly when every flag still has its default value. */
  lemma InteractiveIffDefaults(f: Flags)
    ensures !HasAnyFlags(f) <==> f == DefaultFlags
    ensures forall g: Flags {:trigger HasAnyFlags(g)} :: HasAnyFlags(g) <==> g != DefaultFlags
  {
  }

  /* ---------- The time window ---------- */

  /** `t.AddDate(years, months, days)`; the calendar arithmetic is not modelled. */
  type AddDate = (DateTime, int, int, int) -> DateTime

  /** `calculateTimeRange`, with the clock's reading `now` and `AddDate` as parameters. */
  function CalculateTimeRange(rangeType: string, now: DateTime, addDate: AddDate): (w: TimeWindow)
    ensures w.to == now
  {
    match rangeType
    case "3m" => TimeWindow(addDate(now, 0, -3, 0), now)
    case "6m" => TimeWindow(addDate(now, 0, -6, 0), now)
    case "1y" => TimeWindow(addDate(now, -1, 0, 0), now)
    case "2y" => TimeWindow(addDate(now, -2, 0, 0), now)
    case _ => TimeWindow(addDate(now, 0, -6, 0), now)
  }

  /**
   * Each preset goes back by its own amount, and a name that is not a preset behaves
   * exactly like `"6m"`.
   */
  lemma TimeRangePresets(rangeType: string, now: DateTime, addDate: AddDate)
    ensures CalculateTimeRange("3m", now, addDate).from == addDate(now, 0, -3, 0)
    ensures CalculateTimeRange("6m", now, addDate).from == addDate(now, 0, -6, 0)
    ensures CalculateTimeRange("1y", now, addDate).from == addDate(now, -1, 0, 0)
    ensures CalculateTimeRange("2y", now, addDate).from == addDate(now, -2, 0, 0)
    ensures rangeType !in {"3m", "6m", "1y", "2y"} ==>
      CalculateTimeRange(rangeType, now, addDate) == CalculateTimeRange("6m", now, addDate)
  {
  }

  /**
   * The `switch` of `generateReport` that picks the window: the two dates when both are
   * given, parsed with the `2006-01-02` layout and the end moved to the last second of its
   * day; otherwise the preset. `None` is the date-format error that ends the run.
   */
  function SelectWindow(f: Flags, now: DateTime, addDate: AddDate): Option<TimeWindow>
  {
    if f.fromDate != "" && f.toDate != "" then
      var from := ParseDate(f.fromDate);
      var to := ParseDate(f.toDate);
      if from.Err? || to.Err? then None
      else Some(TimeWindow(from.value, EndOfDay(to.value)))
    else Some(CalculateTimeRange(f.timeRange, now, addDate))
  }

  /**
   * The preset is used unless both dates are given. A custom window fails exactly when a
   * date does not parse; otherwise it runs from midnight of the first date to 23:59:59 of
   * the second, and formatting its ends gives the two texts back.
   */
  lemma WindowChoice(f: Flags, now: DateTime, addDate: AddDate)
    ensures f.fromDate == "" || f.toDate == "" ==>
      SelectWindow(f, now, addDate) == Some(CalculateTimeRange(f.timeRange, now, addDate))
    ensures f.fromDate != "" && f.toDate != "" ==>
      (SelectWindow(f, now, addDate).None? <==> ParseDate(f.fromDate).Err? || ParseDate(f.toDate).Err?)
    ensures f.fromDate != "" && f.toDate != "" && SelectWindow(f, now, addDate).Some? ==>
      var w := SelectWindow(f, now, addDate).value;
      SecondOfDay(w.from) == 0 && SecondOfDay(w.to) == 24 * 60 * 60 - 1 &&
      DateText(w.from) == f.fromDate && DateText(w.to) == f.toDate
  {
    if f.fromDate != "" && f.toDate != "" && SelectWindow(f, now, addDate).Some? {
      ParseThenFormat(f.fromDate);
      ParseThenFormat(f.toDate);
    }
  }

  /* ---------- The repositories ---------- */

  /** The outcome of the repository `switch` of `generateReport`. */
  datatype RepoChoice = Repos(paths: seq<string>) | DiscoveryFailed | NoneFound

  /** The repository `switch`; `discover` stands for `git.DiscoverGitRepos`. */
  function SelectRepos(reposPath: string, repoPath: string, discover: string -> Option<seq<string>>): RepoChoice
  {
    if reposPath != "" then
      match discover(reposPath)
      case None => DiscoveryFailed
      case Some(paths) => if |paths| == 0 then NoneFound else Repos(paths)
    else if repoPath != "" then Repos([repoPath])
    else Repos(["."])
  }

  /**
   * A directory of repositories wins over a single repository, which wins over the
   * current directory; a run goes on only with at least one repository.
   */
  lemma RepoModePrecedence(reposPath: string, repoPath: string, discover: string -> Option<seq<string>>)
    ensures SelectRepos(reposPath, repoPath, discover).Repos? ==> SelectRepos(reposPath, repoPath, discover).paths != []
    ensures reposPath != "" ==>
      (SelectRepos(reposPath, repoPath, discover).DiscoveryFailed? <==> discover(reposPath).None?) &&
      (SelectRepos(reposPath, repoPath, discover).NoneFound? <==> discover(reposPath) == Some([])) &&
      (SelectRepos(reposPath, repoPath, discover).Repos? ==> Some(SelectRepos(reposPath, repoPath, discover).paths) == discover(reposPath))
    ensures reposPath == "" && repoPath != "" ==> SelectRepos(reposPath, repoPath, discover) == Repos([repoPath])
    ensures reposPath == "" && repoPath == "" ==> SelectRepos(reposPath, repoPath, discover) == Repos(["."])
  {
  }

  /* ---------- Collecting the commits ---------- */

  /**
   * What the loop of `generateReport` is given: the window, the `--author` flag,
   * `git.NewGitOptions`, and `git.GetCommitsBetween` (`None` is its error).
   */
  datatype Extraction = Extraction(
    window: TimeWindow,
    authorName: string,
    newOptions: string -> GitOptions,
    getCommits: (TimeWindow, GitOptions) -> Option<seq<CommitInfo>>)

  /** The options one repository is read with. */
  function OptionsFor(x: Extraction, path: string): GitOptions
  {
    var gitOpts := x.newOptions(path);
    if x.authorName != "" then gitOpts.(author := x.authorName) else gitOpts
  }

  /** A non-empty `--author` replaces the detected author and nothing else. */
  lemma AuthorOverride(x: Extraction, path: string)
    ensures OptionsFor(x, path).repoPath == x.newOptions(path).repoPath
    ensures x.authorName != "" ==> OptionsFor(x, path).author == x.authorName
    ensures x.authorName == "" ==> OptionsFor(x, path) == x.newOptions(path)
  {
  }

  /** What reading one repository gives. */
  function Fetch(x: Extraction, path: string): Option<seq<CommitInfo>>
  {
    x.getCommits(x.window, OptionsFor(x, path))
  }

  /** The commits with their repository path set to `path`. */
  function Tagged(commits: seq<CommitInfo>, path: string): seq<CommitInfo>
  {
    seq(|commits|, k requires 0 <= k < |commits| => commits[k].(repoPath := path))
  }

  /** What one repository adds to `allCommits`: nothing when it fails, else its commits tagged with its path. */
  function Contribution(x: Extraction, path: string): seq<CommitInfo>
  {
    match Fetch(x, path)
    case None => []
    case Some(commits) => Tagged(commits, path)
  }

  /** `allCommits` after the loop has visited `paths`. */
  function Merged(x: Extraction, paths: seq<string>): seq<CommitInfo>
  {
    if paths == [] then [] else Merged(x, paths[..|paths| - 1]) + Contribution(x, paths[|paths| - 1])
  }

  /** `repoCommitCounts` after the loop has visited `paths`. */
  function RepoCounts(x: Extraction, paths: seq<string>): map<string, nat>
  {
    if paths == [] then map[]
    else
      var counts := RepoCounts(x, paths[..|paths| - 1]);
      var path := paths[|paths| - 1];
      match Fetch(x, path)
      case None => counts
      case Some(commits) => counts[path := |commits|]
  }

  lemma MergeStep(x: Extraction, paths: seq<string>, i: int)
    requires 0 <= i < |paths|
    ensures Merged(x, paths[..i + 1]) == Merged(x, paths[..i]) + Contribution(x, paths[i])
    ensures RepoCounts(x, paths[..i + 1]) ==
      match Fetch(x, paths[i]) case None => RepoCounts(x, paths[..i]) case Some(cs) => RepoCounts(x, paths[..i])[paths[i] := |cs|]
  {
    assert paths[..i + 1][..i] == paths[..i];
  }

  /** The merged list of a concatenation of path lists is the concatenation of their merged lists. */
  lemma {:induction false} MergedAppend(x: Extraction, a: seq<string>, b: seq<string>)
    ensures Merged(x, a + b) == Merged(x, a) + Merged(x, b)
    decreases |b|
  {
    if b == [] {
      assert a + b == a;
    } else {
      var b' := b[..|b| - 1];
      assert (a + b)[..|a + b| - 1] == a + b';
      assert (a + b)[|a + b| - 1] == b[|b| - 1];
      MergedAppend(x, a, b');
    }
  }

  /** One repository on its own contributes exactly what `Contribution` says. */
  lemma MergedSingle(x: Extraction, path: string)
    ensures Merged(x, [path]) == Contribution(x, path)
  {
    assert [path][..0] == [];
  }

  /**
   * `allCommits` is the concatenation, in the order of the paths, of what each repository
   * contributes; a failing repository adds nothing.
   */
  lemma MergedOrder(x: Extraction, a: seq<string>, path: string, b: seq<string>)
    ensures Merged(x, a + [path] + b) == Merged(x, a) + Contribution(x, path) + Merged(x, b)
    ensures Fetch(x, path).None? ==> Merged(x, a + [path] + b) == Merged(x, a + b)
  {
    var ab := a + [path];
    var left, mid, right := Merged(x, a), Contribution(x, path), Merged(x, b);
    calc {
      Merged(x, ab + b);
      { MergedAppend(x, ab, b); }
      Merged(x, ab) + right;
      { MergedAppend(x, a, [path]); MergedSingle(x, path); }
      left + mid + right;
    }
    if Fetch(x, path).None? {
      MergedAppend(x, a, b);
      assert left + mid + right == left + right;
    }
  }

  /** A repository that is read contributes all its commits, in their order, each tagged with its path. */
  lemma ContributionContents(x: Extraction, path: string)
    requires Fetch(x, path).Some?
    ensures |Contribution(x, path)| == |Fetch(x, path).value|
    ensures forall k :: 0 <= k < |Contribution(x, path)| ==>
      Contribution(x, path)[k] == Fetch(x, path).value[k].(repoPath := path)
  {
  }

  /** Every collected commit carries the path of one of the repositories it was read from. */
  lemma {:induction false} MergedTags(x: Extraction, paths: seq<string>)
    ensures forall k :: 0 <= k < |Merged(x, paths)| ==> Merged(x, paths)[k].repoPath in paths
  {
    if paths != [] {
      var init := paths[..|paths| - 1];
      MergedTags(x, init);
      assert forall p :: p in init ==> p in paths;
    }
  }

  /**
   * A repository has an entry in `repoCommitCounts` exactly when it is among the paths
   * and reading it succeeded, and the entry is its number of commits.
   */
  lemma {:induction false} RepoCountsEntries(x: Extraction, paths: seq<string>)
    ensures forall p :: p in RepoCounts(x, paths) <==> p in paths && Fetch(x, p).Some?
    ensures forall p :: p in RepoCounts(x, paths) ==> RepoCounts(x, paths)[p] == |Fetch(x, p).value|
  {
    if paths != [] {
      var init := paths[..|paths| - 1];
      RepoCountsEntries(x, init);
      assert paths == init + [paths[|paths| - 1]];
    }
  }

  /** No path occurs twice. */
  predicate DistinctPaths(paths: seq<string>)
  {
    forall i, j :: 0 <= i < j < |paths| ==> paths[i] != paths[j]
  }

  /** With distinct paths the counts add up to the number of collected commits. */
  lemma {:induction false} CountsSumToMerged(x: Extraction, paths: seq<string>)
    requires DistinctPaths(paths)
    ensures Sum(RepoCounts(x, paths)) == |Merged(x, paths)|
  {
    if paths == [] {
      SumEmpty(RepoCounts(x, paths));
    } else {
      var init := paths[..|paths| - 1];
      var path := paths[|paths| - 1];
      CountsSumToMerged(x, init);
      RepoCountsEntries(x, init);
      assert path !in init;
      if Fetch(x, path).Some? {
        SumInsertNew(RepoCounts(x, init), path, |Fetch(x, path).value|);
      }
    }
  }

  /** A repository listed twice is collected twice but counted once, so the total falls short. */
  lemma DuplicatePathCountedOnce(x: Extraction, path: string)
    requires Fetch(x, path).Some? && Fetch(x, path).value != []
    ensures Sum(RepoCounts(x, [path, path])) < |Merged(x, [path, path])|
  {
    var n := |Fetch(x, path).value|;
    assert [path, path][..1] == [path];
    assert [path][..0] == [];
    assert RepoCounts(x, [path]) == map[path := n];
    assert RepoCounts(x, [path, path]) == map[path := n];
    MergedSingle(x, path);
    var empty: map<string, nat> := map[];
    SumInsertNew(empty, path, n);
    SumEmpty(empty);
    assert Merged(x, [path, path]) == Contribution(x, path) + Contribution(x, path);
  }

  /**
   * When no path is empty every collected commit is tagged, so the profile's repository
   * tally counts every one of them.
   */
  lemma MergedAllTagged(x: Extraction, paths: seq<string>)
    requires "" !in paths
    ensures Sum(Profile.StatisticsOf(Merged(x, paths)).repoStats) == |Merged(x, paths)|
  {
    MergedTags(x, paths);
    Profile.StatisticsProperties(Merged(x, paths));
  }

  /** The inner loop that sets `RepoPath` on every commit of one repository. */
  method TagCommits(commits0: seq<CommitInfo>, currentRepoPath: string) returns (commits: seq<CommitInfo>)
    ensures |commits| == |commits0|
    ensures forall k :: 0 <= k < |commits| ==> commits[k] == commits0[k].(repoPath := currentRepoPath)
  {
    commits := commits0;
    for i := 0 to |commits|
      invariant |commits| == |commits0|
      invariant forall k :: 0 <= k < i ==> commits[k] == commits0[k].(repoPath := currentRepoPath)
      invariant forall k :: i <= k < |commits| ==> commits[k] == commits0[k]
    {
      commits := commits[i := commits[i].(repoPath := currentRepoPath)];
    }
  }

  /** The loop of `generateReport` over the repositories. */
  method CollectCommits(x: Extraction, repoPaths: seq<string>)
    returns (allCommits: seq<CommitInfo>, repoCommitCounts: map<string, nat>)
    ensures allCommits == Merged(x, repoPaths)
    ensures repoCommitCounts == RepoCounts(x, repoPaths)
  {
    allCommits := [];
    repoCommitCounts := map[];
    for i := 0 to |repoPaths|
      invariant allCommits == Merged(x, repoPaths[..i])
      invariant repoCommitCounts == RepoCounts(x, repoPaths[..i])
    {
      var currentRepoPath := repoPaths[i];
      MergeStep(x, repoPaths, i);
      var gitOpts := x.newOptions(currentRepoPath);
      if x.authorName != "" {
        gitOpts := gitOpts.(author := x.authorName);
      }
      var result := x.getCommits(x.window, gitOpts);
      if result.None? {
        continue;
      }
      var commits := result.value;
      repoCommitCounts := repoCommitCounts[currentRepoPath := |commits|];
      commits := TagCommits(commits, currentRepoPath);
      assert commits == Tagged(result.value, currentRepoPath);
      allCommits := allCommits + commits;
    }
    WholePrefix(repoPaths);
  }

  /** The loop that adds up `repoCommitCounts`, visiting the keys in any order, as a Go map range does. */
  method TotalCommits(repoCommitCounts: map<string, nat>) returns (totalCommits: nat)
    ensures totalCommits == Sum(repoCommitCounts)
  {
    totalCommits := 0;
    var rest := repoCommitCounts;
    while rest.Keys != {}
      invariant totalCommits + Sum(rest) == Sum(repoCommitCounts)
      decreases |rest.Keys|
    {
      var repoPath :| repoPath in rest.Keys;
      SumRemove(rest, repoPath);
      totalCommits := totalCommits + rest[repoPath];
      rest := rest - {repoPath};
    }
    SumEmpty(rest);
  }

  /* ---------- The run ---------- */

  /** How `generateReport` ends, up to the request to the model. */
  datatype Run =
    | ApiKeyNotSet
    | DateFormatError
    | DiscoveryError
    | NoReposFound(reposPath: string)
    | NoCommitsFound(window: TimeWindow)
    | Analyze(commits: seq<CommitInfo>, window: TimeWindow, promptType: Prompts.PromptType, format: Report.ReportFormat)

  /** What a run with these flags and these answers from the environment comes to. */
  function RunOf(apiKey: string, f: Flags, now: DateTime, addDate: AddDate,
                 discover: string -> Option<seq<string>>, newOptions: string -> GitOptions,
                 getCommits: (TimeWindow, GitOptions) -> Option<seq<CommitInfo>>): Run
  {
    if apiKey == "" then ApiKeyNotSet
    else
      match SelectWindow(f, now, addDate)
      case None => DateFormatError
      case Some(w) =>
        match SelectRepos(f.reposPath, f.repoPath, discover)
        case DiscoveryFailed => DiscoveryError
        case NoneFound => NoReposFound(f.reposPath)
        case Repos(paths) =>
          var commits := Merged(Extraction(w, f.authorName, newOptions, getCommits), paths);
          if commits == [] then NoCommitsFound(w)
          else Analyze(commits, w, Prompts.GetPromptTypeFromString(f.analysisType), Report.FormatOf(f.outputFormat))
  }

  /**
   * `generateReport` up to the request to the model: it also returns the per-repository
   * counts and the total it prints.
   */
  method GenerateReport(apiKey: string, f: Flags, now: DateTime, addDate: AddDate,
                        discover: string -> Option<seq<string>>, newOptions: string -> GitOptions,
                        getCommits: (TimeWindow, GitOptions) -> Option<seq<CommitInfo>>)
    returns (run: Run, repoCommitCounts: map<string, nat>, totalCommits: nat)
    ensures run == RunOf(apiKey, f, now, addDate, discover, newOptions, getCommits)
    ensures totalCommits == Sum(repoCommitCounts)
    ensures run.Analyze? || run.NoCommitsFound? ==>
      repoCommitCounts == RepoCounts(Extraction(run.window, f.authorName, newOptions, getCommits),
                                     SelectRepos(f.reposPath, f.repoPath, discover).paths)
  {
    repoCommitCounts := map[];
    totalCommits := 0;
    if apiKey == "" {
      return ApiKeyNotSet, repoCommitCounts, totalCommits;
    }
    var window := SelectWindow(f, now, addDate);
    if window.None? {
      return DateFormatError, repoCommitCounts, totalCommits;
    }
    var repos := SelectRepos(f.reposPath, f.repoPath, discover);
    if repos.DiscoveryFailed? {
      return DiscoveryError, repoCommitCounts, totalCommits;
    }
    if repos.NoneFound? {
      return NoReposFound(f.reposPath), repoCommitCounts, totalCommits;
    }
    var x := Extraction(window.value, f.authorName, newOptions, getCommits);
    var allCommits;
    allCommits, repoCommitCounts := CollectCommits(x, repos.paths);
    totalCommits := TotalCommits(repoCommitCounts);
    if |allCommits| == 0 {
      return NoCommitsFound(window.value), repoCommitCounts, totalCommits;
    }
    run := Analyze(allCommits, window.value, Prompts.GetPromptTypeFromString(f.analysisType), Report.FormatOf(f.outputFormat));
  }

  /**
   * The model is asked only about a non-empty list of commits gathered from the selected
   * repositories, with the prompt and the report format the flags name; a run without an
   * API key stops first.
   */
  lemma RunOutcomes(apiKey: string, f: Flags, now: DateTime, addDate: AddDate,
                    discover: string -> Option<seq<string>>, newOptions: string -> GitOptions,
                    getCommits: (TimeWindow, GitOptions) -> Option<seq<CommitInfo>>)
    ensures apiKey == "" ==> RunOf(apiKey, f, now, addDate, discover, newOptions, getCommits) == ApiKeyNotSet
    ensures var run := RunOf(apiKey, f, now, addDate, discover, newOptions, getCommits);
      run.Analyze? ==>
        run.commits != [] &&
        Some(run.window) == SelectWindow(f, now, addDate) &&
        SelectRepos(f.reposPath, f.repoPath, discover).Repos? &&
        (forall k :: 0 <= k < |run.commits| ==> run.commits[k].repoPath in SelectRepos(f.reposPath, f.repoPath, discover).paths) &&
        run.promptType == Prompts.GetPromptTypeFromString(f.analysisType) &&
        run.format == Report.FormatOf(f.outputFormat)
    ensures var run := RunOf(apiKey, f, now, addDate, discover, newOptions, getCommits);
      apiKey != "" && SelectWindow(f, now, addDate).Some? && SelectRepos(f.reposPath, f.repoPath, discover).Repos? ==>
        (run.NoCommitsFound? <==>
          Merged(Extraction(SelectWindow(f, now, addDate).value, f.authorName, newOptions, getCommits),
                 SelectRepos(f.reposPath, f.repoPath, discover).paths) == [])
  {
    var run := RunOf(apiKey, f, now, addDate, discover, newOptions, getCommits);
    if run.Analyze? {
      MergedTags(Extraction(run.window, f.authorName, newOptions, getCommits), SelectRepos(f.reposPath, f.repoPath, discover).paths);
    }
  }

  /** Once the commits are collected, the request to the model is a prompt, never the fixed empty-list answer. */
  lemma AnalyzeAsksModel(run: Run)
    requires run.Analyze? && run.commits != [] && Gemini.HashesLongEnough(run.commits)
    ensures Gemini.SummaryOf(run.commits, run.promptType).Ask?
  {
    Gemini.SummaryShortcut(run.commits, run.promptType);
  }

  /* ---------- Interactive mode ---------- */

  /** `runInteractiveMode`: the answers of the interactive configuration are copied into the flags. */
  function ApplyConfig(f: Flags, c: Interactive.Config): Flags
  {
    var f := f.(analysisType := c.analysisType, outputFormat := c.outputFormat,
                outputFile := c.outputFile, authorName := c.authorName);
    var f := if c.timeRange == "custom" then f.(fromDate := c.customFromDate, toDate := c.customToDate, timeRange := "")
             else f.(timeRange := c.timeRange);
    match c.repoMode
    case "current" => f.(repoPath := ".")
    case "single" => f.(repoPath := c.repoPath)
    case "multiple" => f.(reposPath := c.repoPath)
    case _ => f
  }

  /**
   * Interactive mode starts from the default flags. A custom range chosen there always
   * reaches the custom window, never the preset that the emptied range name would select.
   */
  lemma InteractiveCustomWindow(a: Interactive.Answers, now: DateTime, addDate: AddDate)
    requires Interactive.Possible(a) && Interactive.ConfigOf(a).Ok?
    requires Interactive.ConfigOf(a).value.timeRange == "custom"
    ensures var f := ApplyConfig(DefaultFlags, Interactive.ConfigOf(a).value);
      f.fromDate != "" && f.toDate != "" && f.timeRange == ""
    ensures var c := Interactive.ConfigOf(a).value;
      SelectWindow(ApplyConfig(DefaultFlags, c), now, addDate).None? <==>
        ParseDate(c.customFromDate).Err? || ParseDate(c.customToDate).Err?
  {
    Interactive.ConfigTexts(a);
    CustomConfigWindow(Interactive.ConfigOf(a).value, now, addDate);
  }

  lemma CustomConfigWindow(c: Interactive.Config, now: DateTime, addDate: AddDate)
    requires c.timeRange == "custom" && c.customFromDate != "" && c.customToDate != ""
    ensures var f := ApplyConfig(DefaultFlags, c);
      f.fromDate == c.customFromDate && f.toDate == c.customToDate && f.timeRange == ""
    ensures SelectWindow(ApplyConfig(DefaultFlags, c), now, addDate).None? <==>
      ParseDate(c.customFromDate).Err? || ParseDate(c.customToDate).Err?
  {
    var f := ApplyConfig(DefaultFlags, c);
    assert f.fromDate == c.customFromDate && f.toDate == c.customToDate;
  }

  /** A preset chosen in interactive mode is the one the run uses. */
  lemma InteractivePresetWindow(a: Interactive.Answers, now: DateTime, addDate: AddDate)
    requires Interactive.Possible(a) && Interactive.ConfigOf(a).Ok?
    requires Interactive.ConfigOf(a).value.timeRange != "custom"
    ensures var c := Interactive.ConfigOf(a).value;
      SelectWindow(ApplyConfig(DefaultFlags, c), now, addDate) == Some(CalculateTimeRange(c.timeRange, now, addDate))
  {
    PresetConfigWindow(Interactive.ConfigOf(a).value, now, addDate);
  }

  lemma PresetConfigWindow(c: Interactive.Config, now: DateTime, addDate: AddDate)
    requires c.timeRange != "custom"
    ensures SelectWindow(ApplyConfig(DefaultFlags, c), now, addDate) == Some(CalculateTimeRange(c.timeRange, now, addDate))
  {
    var f := ApplyConfig(DefaultFlags, c);
    assert f.fromDate == "" && f.timeRange == c.timeRange;
  }

  /** Each repository mode of the menu sets the flag the repository `switch` reads. */
  lemma InteractiveRepos(a: Interactive.Answers, discover: string -> Option<seq<string>>)
    requires Interactive.Possible(a) && Interactive.ConfigOf(a).Ok?
    ensures var c := Interactive.ConfigOf(a).value;
      var f := ApplyConfig(DefaultFlags, c);
      (c.repoMode == "current" ==> SelectRepos(f.reposPath, f.repoPath, discover) == Repos(["."])) &&
      (c.repoMode == "single" && c.repoPath != "" ==> SelectRepos(f.reposPath, f.repoPath, discover) == Repos([c.repoPath])) &&
      (c.repoMode == "multiple" && c.repoPath != "" ==> f.reposPath == c.repoPath)
  {
    Interactive.ConfigChoices(a);
  }
}
