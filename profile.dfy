/**
 * internal/profile/profile.go: the developer-profile analysers. Each walks the commit
 * sequence (and each commit's changed files) once, bumping map entries in place.
 */
module Profile {
  import opened Git
  import opened Histogram
  import opened Tally
  import opened Strs

  /** The `"2006-01"` month key of a timestamp. */
  datatype YearMonth = YearMonth(year: int, month: Month)

  datatype Statistics = Statistics(
    totalCommits: nat,
    totalRepos: nat,
    linesAdded: nat,
    linesDeleted: nat,
    filesChanged: nat,
    fileTypeStats: map<string, nat>,
    repoStats: map<string, nat>,
    commitsByMonth: map<YearMonth, nat>,
    commitsByHour: map<int, nat>)

  function MonthKey(d: DateTime): YearMonth
  {
    YearMonth(d.year, d.month)
  }

  /** The month key of every commit, in order. */
  function Months(commits: seq<CommitInfo>): seq<YearMonth>
  {
    if commits == [] then []
    else Months(commits[..|commits| - 1]) + [MonthKey(commits[|commits| - 1].date)]
  }

  /** The hour of day of every commit, in order. */
  function Hours(commits: seq<CommitInfo>): seq<int>
  {
    if commits == [] then []
    else Hours(commits[..|commits| - 1]) + [commits[|commits| - 1].date.hour]
  }

  /** `Months` and `Hours` read commit `k`'s timestamp at position `k`. */
  lemma {:induction false} MonthsHoursIndex(commits: seq<CommitInfo>)
    ensures |Months(commits)| == |commits| && |Hours(commits)| == |commits|
    ensures forall k :: 0 <= k < |commits| ==> Months(commits)[k] == MonthKey(commits[k].date)
    ensures forall k :: 0 <= k < |commits| ==> Hours(commits)[k] == commits[k].date.hour
  {
    if commits != [] {
      MonthsHoursIndex(commits[..|commits| - 1]);
    }
  }

  lemma MonthsHoursSnoc(commits: seq<CommitInfo>, c: CommitInfo)
    ensures Months(commits + [c]) == Months(commits) + [MonthKey(c.date)]
    ensures Hours(commits + [c]) == Hours(commits) + [c.date.hour]
  {
    assert (commits + [c])[..|commits|] == commits;
  }

  /** `getFileExtension` (profile.go): a backward scan that stops at the first dot or slash. */
  method GetFileExtension(filename: string) returns (ext: string)
    ensures ext == FileExtension(filename)
  {
    var i := |filename| - 1;
    while i >= 0
      invariant -1 <= i < |filename|
      invariant ExtensionScan(filename, i + 1) == FileExtension(filename)
    {
      if filename[i] == '.' {
        return filename[i..];
      }
      if filename[i] == '/' {
        return "";
      }
      i := i - 1;
    }
    return "";
  }

  /** Every histogram over commits sums to the number of commits. */
  lemma CommitTalliesSum(commits: seq<CommitInfo>)
    ensures Sum(Count(Months(commits))) == |commits|
    ensures Sum(Count(Hours(commits))) == |commits|
  {
    MonthsHoursIndex(commits);
    SumCount(Months(commits));
    SumCount(Hours(commits));
  }

  lemma {:induction false} HoursInRange(commits: seq<CommitInfo>)
    ensures forall h | h in Hours(commits) :: 0 <= h < 24
  {
    if commits != [] {
      HoursInRange(commits[..|commits| - 1]);
    }
  }

  /** Every hour key is an hour of day. */
  lemma HourKeysInRange(commits: seq<CommitInfo>)
    ensures forall h | h in Count(Hours(commits)) :: 0 <= h < 24
  {
    HoursInRange(commits);
    CountIsMultiplicity(Hours(commits));
  }

  /** The repository tally has the distinct repositories as keys and sums to the tagged commits. */
  lemma RepoTallySum(commits: seq<CommitInfo>)
    ensures Count(TaggedRepos(commits)).Keys == DistinctRepos(commits)
    ensures Sum(Count(TaggedRepos(commits))) == |TaggedRepos(commits)| <= |commits|
    ensures Sum(Count(TaggedRepos(commits))) == |commits| <==> forall k :: 0 <= k < |commits| ==> commits[k].repoPath != ""
  {
    SumCount(TaggedRepos(commits));
    TaggedReposBound(commits);
    DistinctReposAreTallyKeys(commits);
  }

  /** The file-type tally has no `""` key and sums to the number of files with an extension. */
  lemma FileTypeTallySum(files: seq<string>)
    ensures "" !in Count(Extensions(files))
    ensures Sum(Count(Extensions(files))) == |Extensions(files)| <= |files|
  {
    SumCount(Extensions(files));
    CountIsMultiplicity(Extensions(files));
  }

  /**
   * The inner loop of `calculateStatistics` over one commit's changed files: every path goes
   * into `filesSet`, every non-empty extension is bumped in `fileTypeStats`.
   */
  method TallyFiles(ghost seen: seq<string>, files: seq<string>, fileTypeStats0: map<string, nat>, filesSet0: set<string>)
    returns (fileTypeStats: map<string, nat>, filesSet: set<string>)
    requires fileTypeStats0 == Count(Extensions(seen))
    requires filesSet0 == Paths(seen)
    ensures fileTypeStats == Count(Extensions(seen) + Extensions(files))
    ensures filesSet == Paths(seen + files)
  {
    fileTypeStats, filesSet := fileTypeStats0, filesSet0;
    ghost var exts := Extensions(seen);
    assert seen + files[..0] == seen;
    for j := 0 to |files|
      invariant exts == Extensions(seen) + Extensions(files[..j])
      invariant fileTypeStats == Count(exts)
      invariant filesSet == Paths(seen + files[..j])
    {
      var file := files[j];
      PathsScanStep(seen, files, j);
      ExtensionsScanStep(seen, files, j, exts);
      filesSet := filesSet + {file};
      var ext := GetFileExtension(file);
      if ext != "" {
        CountSnoc(exts, ext);
        fileTypeStats := Bump(fileTypeStats, ext);
        exts := exts + [ext];
      }
    }
    WholePrefix(files);
  }

  /** What `calculateStatistics` returns, as a function of the commits. */
  function StatisticsOf(commits: seq<CommitInfo>): Statistics
  {
    Statistics(
      totalCommits := |commits|,
      totalRepos := |DistinctRepos(commits)|,
      linesAdded := 0,
      linesDeleted := 0,
      filesChanged := |DistinctFiles(commits)|,
      fileTypeStats := Count(Extensions(AllFiles(commits))),
      repoStats := Count(TaggedRepos(commits)),
      commitsByMonth := Count(Months(commits)),
      commitsByHour := Count(Hours(commits)))
  }

  /**
   * The statistics are consistent: every commit is counted once per month and once per
   * hour, the repository tally has one key per distinct repository and counts every tagged
   * commit, and the file-type tally counts every changed file that has an extension.
   */
  lemma StatisticsProperties(commits: seq<CommitInfo>)
    ensures Sum(StatisticsOf(commits).commitsByMonth) == |commits|
    ensures Sum(StatisticsOf(commits).commitsByHour) == |commits|
    ensures forall h | h in StatisticsOf(commits).commitsByHour :: 0 <= h < 24
    ensures StatisticsOf(commits).totalRepos == |StatisticsOf(commits).repoStats|
    ensures Sum(StatisticsOf(commits).repoStats) == |TaggedRepos(commits)| <= |commits|
    ensures Sum(StatisticsOf(commits).repoStats) == |commits| <==> forall k :: 0 <= k < |commits| ==> commits[k].repoPath != ""
    ensures "" !in StatisticsOf(commits).fileTypeStats
    ensures Sum(StatisticsOf(commits).fileTypeStats) == |Extensions(AllFiles(commits))| <= |AllFiles(commits)|
    ensures StatisticsOf(commits).filesChanged <= |AllFiles(commits)|
  {
    CommitTalliesSum(commits);
    HourKeysInRange(commits);
    RepoTallySum(commits);
    FileTypeTallySum(AllFiles(commits));
    PathsBound(AllFiles(commits));
  }

  /** Without commits every count is zero and every tally empty. */
  lemma StatisticsOfNothing()
    ensures StatisticsOf([]) == Statistics(0, 0, 0, 0, 0, map[], map[], map[], map[])
  {
  }

  /** What one more commit adds to each of the sequences the statistics count. */
  lemma CommitPrefixStep(commits: seq<CommitInfo>, i: int)
    requires 0 <= i < |commits|
    ensures var c := commits[i];
      && TaggedRepos(commits[..i + 1]) == TaggedRepos(commits[..i]) + (if c.repoPath != "" then [c.repoPath] else [])
      && DistinctRepos(commits[..i + 1]) == DistinctRepos(commits[..i]) + (if c.repoPath != "" then {c.repoPath} else {})
      && Extensions(AllFiles(commits[..i + 1])) == Extensions(AllFiles(commits[..i])) + Extensions(c.changedFiles)
      && AllFiles(commits[..i + 1]) == AllFiles(commits[..i]) + c.changedFiles
      && Months(commits[..i + 1]) == Months(commits[..i]) + [MonthKey(c.date)]
      && Hours(commits[..i + 1]) == Hours(commits[..i]) + [c.date.hour]
  {
    assert commits[..i + 1] == commits[..i] + [commits[i]];
    TaggedReposSnoc(commits[..i], commits[i]);
    DistinctReposSnoc(commits[..i], commits[i]);
    CommitFilesSnoc(commits[..i], commits[i]);
    AllFilesSnoc(commits[..i], commits[i]);
    MonthsHoursSnoc(commits[..i], commits[i]);
  }

  /** `calculateStatistics`: one pass over the commits and, inside it, over each commit's files. */
  method CalculateStatistics(commits: seq<CommitInfo>) returns (stats: Statistics)
    ensures stats == StatisticsOf(commits)
  {
    var fileTypeStats: map<string, nat> := map[];
    var repoStats: map<string, nat> := map[];
    var commitsByMonth: map<YearMonth, nat> := map[];
    var commitsByHour: map<int, nat> := map[];
    var repoSet: set<string> := {};
    var filesSet: set<string> := {};
    for i := 0 to |commits|
      invariant repoStats == Count(TaggedRepos(commits[..i]))
      invariant repoSet == DistinctRepos(commits[..i])
      invariant fileTypeStats == Count(Extensions(AllFiles(commits[..i])))
      invariant filesSet == DistinctFiles(commits[..i])
      invariant commitsByMonth == Count(Months(commits[..i]))
      invariant commitsByHour == Count(Hours(commits[..i]))
    {
      var commit := commits[i];
      CommitPrefixStep(commits, i);
      if commit.repoPath != "" {
        CountSnoc(TaggedRepos(commits[..i]), commit.repoPath);
        repoStats := Bump(repoStats, commit.repoPath);
        repoSet := repoSet + {commit.repoPath};
      } else {
        assert TaggedRepos(commits[..i + 1]) == TaggedRepos(commits[..i]);
      }

      ghost var seen := AllFiles(commits[..i]);
      var files := commit.changedFiles;
      fileTypeStats, filesSet := TallyFiles(seen, files, fileTypeStats, filesSet);

      CountSnoc(Months(commits[..i]), MonthKey(commit.date));
      CountSnoc(Hours(commits[..i]), commit.date.hour);
      commitsByMonth := Bump(commitsByMonth, MonthKey(commit.date));
      commitsByHour := Bump(commitsByHour, commit.date.hour);
    }
    WholePrefix(commits);
    stats := Statistics(|commits|, |repoSet|, 0, 0, |filesSet|, fileTypeStats, repoStats, commitsByMonth, commitsByHour);
  }

  // ---------------------------------------------------------------- analyzeTechStack

  datatype TechStack = TechStack(
    languages: map<string, nat>,
    frameworks: seq<string>,
    tools: seq<string>,
    platforms: seq<string>)

  /** The extension-to-language table of `analyzeTechStack`. */
  const LangMap: map<string, string> := map[
    ".go" := "Go", ".js" := "JavaScript", ".ts" := "TypeScript", ".py" := "Python",
    ".java" := "Java", ".rb" := "Ruby", ".php" := "PHP", ".c" := "C", ".cpp" := "C++",
    ".cs" := "C#", ".swift" := "Swift", ".kt" := "Kotlin", ".rs" := "Rust",
    ".scala" := "Scala", ".sh" := "Shell", ".sql" := "SQL", ".html" := "HTML",
    ".css" := "CSS", ".vue" := "Vue", ".jsx" := "React", ".tsx" := "React"]

  /** The language of every file whose extension the table knows, in order. */
  function Languages(files: seq<string>): (langs: seq<string>)
    ensures |langs| <= |files|
  {
    if files == [] then []
    else
      var e := FileExtension(files[|files| - 1]);
      Languages(files[..|files| - 1]) + (if e in LangMap then [LangMap[e]] else [])
  }

  /** The extensions the table maps to `lang`. */
  function ExtensionsOf(lang: string): set<string>
  {
    set e | e in LangMap && LangMap[e] == lang
  }

  /** How many of `files` have an extension in `exts`. */
  function ExtCount(files: seq<string>, exts: set<string>): (n: nat)
    ensures n <= |files|
  {
    if files == [] then 0
    else ExtCount(files[..|files| - 1], exts) + (if FileExtension(files[|files| - 1]) in exts then 1 else 0)
  }

  lemma LanguagesPrefixStep(files: seq<string>, j: int)
    requires 0 <= j < |files|
    ensures var e := FileExtension(files[j]);
      Languages(files[..j + 1]) == Languages(files[..j]) + (if e in LangMap then [LangMap[e]] else [])
  {
    assert files[..j + 1][..j] == files[..j];
  }

  lemma ExtCountPrefixStep(files: seq<string>, j: int, exts: set<string>)
    requires 0 <= j < |files|
    ensures ExtCount(files[..j + 1], exts) == ExtCount(files[..j], exts) + (if FileExtension(files[j]) in exts then 1 else 0)
  {
    assert files[..j + 1][..j] == files[..j];
  }

  lemma {:induction false} LanguagesAppend(a: seq<string>, b: seq<string>)
    ensures Languages(a + b) == Languages(a) + Languages(b)
    decreases |b|
  {
    if b == [] {
      assert a + b == a;
    } else {
      var b' := b[..|b| - 1];
      var e := FileExtension(b[|b| - 1]);
      var tail := if e in LangMap then [LangMap[e]] else [];
      assert (a + b)[..|a + b| - 1] == a + b';
      assert Languages(a + b) == Languages(a + b') + tail;
      assert Languages(b) == Languages(b') + tail;
      LanguagesAppend(a, b');
    }
  }

  lemma {:induction false} ExtCountAppend(a: seq<string>, b: seq<string>, exts: set<string>)
    ensures ExtCount(a + b, exts) == ExtCount(a, exts) + ExtCount(b, exts)
    decreases |b|
  {
    if b == [] {
      assert a + b == a;
    } else {
      var b' := b[..|b| - 1];
      assert a + b == (a + b') + [b[|b| - 1]];
      assert (a + b)[..|a + b| - 1] == a + b';
      ExtCountAppend(a, b', exts);
    }
  }

  /** What one more commit adds to the language sequence and to an extension count. */
  lemma TechStackPrefixStep(commits: seq<CommitInfo>, i: int)
    requires 0 <= i < |commits|
    ensures AllFiles(commits[..i + 1]) == AllFiles(commits[..i]) + commits[i].changedFiles
    ensures Languages(AllFiles(commits[..i + 1])) == Languages(AllFiles(commits[..i])) + Languages(commits[i].changedFiles)
  {
    assert commits[..i + 1] == commits[..i] + [commits[i]];
    AllFilesSnoc(commits[..i], commits[i]);
    LanguagesAppend(AllFiles(commits[..i]), commits[i].changedFiles);
  }

  /** Every language counted is a value of the table. */
  lemma {:induction false} LanguagesKnown(files: seq<string>)
    ensures forall l | l in Languages(files) :: l in LangMap.Values
  {
    if files != [] {
      LanguagesKnown(files[..|files| - 1]);
    }
  }

  /** A language's tally counts exactly the files whose extension the table maps to it. */
  lemma {:induction false} LanguageTally(files: seq<string>, lang: string)
    ensures Get(Count(Languages(files)), lang) == ExtCount(files, ExtensionsOf(lang))
  {
    if files != [] {
      var init := files[..|files| - 1];
      var e := FileExtension(files[|files| - 1]);
      LanguageTally(init, lang);
      assert (e in ExtensionsOf(lang)) <==> (e in LangMap && LangMap[e] == lang);
      if e in LangMap {
        CountSnoc(Languages(init), LangMap[e]);
      } else {
        assert Languages(files) == Languages(init);
      }
    }
  }

  /** Both `.jsx` and `.tsx` files count towards React, and nothing else does. */
  lemma ReactExtensions()
    ensures ExtensionsOf("React") == {".jsx", ".tsx"}
    ensures ExtensionsOf("Go") == {".go"}
  {
    assert ".jsx" in LangMap && ".tsx" in LangMap && ".go" in LangMap;
  }

  /** The inner loop of `analyzeTechStack` over one commit's files. */
  method TallyLanguages(ghost seen: seq<string>, files: seq<string>, languages0: map<string, nat>)
    returns (languages: map<string, nat>)
    requires languages0 == Count(Languages(seen))
    ensures languages == Count(Languages(seen) + Languages(files))
  {
    languages := languages0;
    ghost var langs := Languages(seen);
    for j := 0 to |files|
      invariant langs == Languages(seen) + Languages(files[..j])
      invariant languages == Count(langs)
    {
      var file := files[j];
      LanguagesPrefixStep(files, j);
      var ext := GetFileExtension(file);
      if ext in LangMap {
        var lang := LangMap[ext];
        CountSnoc(langs, lang);
        languages := Bump(languages, lang);
        langs := langs + [lang];
      }
    }
    WholePrefix(files);
  }

  /** What `analyzeTechStack` returns, as a function of the commits. */
  function TechStackOf(commits: seq<CommitInfo>): TechStack
  {
    TechStack(Count(Languages(AllFiles(commits))), [], [], [])
  }

  /**
   * Only languages of the table are counted; each language counts exactly the changed
   * files whose extension the table maps to it, so the tally adds up to at most the number
   * of changed files.
   */
  lemma TechStackProperties(commits: seq<CommitInfo>)
    ensures forall l | l in TechStackOf(commits).languages :: l in LangMap.Values
    ensures forall l :: Get(TechStackOf(commits).languages, l) == ExtCount(AllFiles(commits), ExtensionsOf(l))
    ensures Sum(TechStackOf(commits).languages) == |Languages(AllFiles(commits))| <= |AllFiles(commits)|
  {
    var files := AllFiles(commits);
    LanguagesKnown(files);
    CountIsMultiplicity(Languages(files));
    SumCount(Languages(files));
    forall l ensures Get(TechStackOf(commits).languages, l) == ExtCount(files, ExtensionsOf(l)) {
      LanguageTally(files, l);
    }
  }

  /** `analyzeTechStack`: only the language tally is filled in; the three lists stay empty. */
  method AnalyzeTechStack(commits: seq<CommitInfo>) returns (techStack: TechStack)
    ensures techStack == TechStackOf(commits)
  {
    var languages: map<string, nat> := map[];
    for i := 0 to |commits|
      invariant languages == Count(Languages(AllFiles(commits[..i])))
    {
      var commit := commits[i];
      TechStackPrefixStep(commits, i);
      languages := TallyLanguages(AllFiles(commits[..i]), commit.changedFiles, languages);
    }
    WholePrefix(commits);
    techStack := TechStack(languages, [], [], []);
  }

  // ---------------------------------------------------------------- analyzeExpertise

  const FrontendExts: set<string> := {".js", ".ts", ".jsx", ".tsx", ".vue", ".html", ".css", ".scss"}
  const BackendExts: set<string> := {".go", ".py", ".java", ".rb", ".php", ".cs", ".rs"}
  const DevopsExts: set<string> := {".yml", ".yaml", ".sh", ".dockerfile"}

  /** The five primary domains `analyzeExpertise` can report. */
  datatype Domain = Frontend | Backend | FullStack | DevOps | Software

  /** The label stored in `PrimaryDomain`. */
  function DomainLabel(d: Domain): string
  {
    match d
    case Frontend => "前端开发"
    case Backend => "后端开发"
    case FullStack => "全栈开发"
    case DevOps => "DevOps"
    case Software => "软件开发"
  }

  /** The decision chain of `analyzeExpertise` over the three file counts. */
  function PrimaryDomain(fe: nat, be: nat, de: nat): Domain
  {
    if fe > be && fe > de then Frontend
    else if be > fe && be > de then Backend
    else if fe > 0 && be > 0 then FullStack
    else if de > 0 then DevOps
    else Software
  }

  function Max(a: int, b: int): int
  {
    if a >= b then a else b
  }

  /**
   * Which domain wins, stated without the order of the tests: a strict majority of
   * frontend or backend files wins outright; otherwise frontend and backend files together
   * make full stack when they tie or DevOps files are at least as many as either; DevOps
   * wins when it is not beaten and one of the other two is absent; with none of the three
   * the domain is generic.
   */
  lemma DomainRule(fe: nat, be: nat, de: nat)
    ensures PrimaryDomain(fe, be, de) == Frontend <==> fe > be && fe > de
    ensures PrimaryDomain(fe, be, de) == Backend <==> be > fe && be > de
    ensures PrimaryDomain(fe, be, de) == FullStack <==> fe > 0 && be > 0 && (fe == be || de >= Max(fe, be))
    ensures PrimaryDomain(fe, be, de) == DevOps <==> de > 0 && de >= fe && de >= be && (fe == 0 || be == 0)
    ensures PrimaryDomain(fe, be, de) == Software <==> fe == 0 && be == 0 && de == 0
  {
  }

  /** Different domains have different labels. */
  lemma DomainLabelInjective(d: Domain, d': Domain)
    requires DomainLabel(d) == DomainLabel(d')
    ensures d == d'
  {
  }

  /** A file counts towards at most one domain, and a file without an extension towards none. */
  lemma DomainSetsDisjoint()
    ensures FrontendExts !! BackendExts && FrontendExts !! DevopsExts && BackendExts !! DevopsExts
    ensures "" !in FrontendExts + BackendExts + DevopsExts
  {
  }

  lemma {:induction false} ExtCountUnion(files: seq<string>, a: set<string>, b: set<string>)
    requires a !! b
    ensures ExtCount(files, a + b) == ExtCount(files, a) + ExtCount(files, b)
  {
    if files != [] {
      ExtCountUnion(files[..|files| - 1], a, b);
    }
  }

  /** Only files with an extension can be counted by a set of extensions that excludes `""`. */
  lemma {:induction false} ExtCountBound(files: seq<string>, exts: set<string>)
    requires "" !in exts
    ensures ExtCount(files, exts) <= |Extensions(files)|
  {
    if files != [] {
      ExtCountBound(files[..|files| - 1], exts);
    }
  }

  /** The three domain counts together never exceed the files that have an extension. */
  lemma DomainCountsBounded(files: seq<string>)
    ensures ExtCount(files, FrontendExts) + ExtCount(files, BackendExts) + ExtCount(files, DevopsExts)
      <= |Extensions(files)|
  {
    DomainSetsDisjoint();
    ExtCountUnion(files, FrontendExts, BackendExts);
    ExtCountUnion(files, FrontendExts + BackendExts, DevopsExts);
    ExtCountBound(files, FrontendExts + BackendExts + DevopsExts);
  }

  datatype Expertise = Expertise(primaryDomain: string, secondaryDomains: seq<string>, keySkills: seq<string>)

  /** What `analyzeExpertise` returns, as a function of the commits. */
  function ExpertiseOf(commits: seq<CommitInfo>): Expertise
  {
    var files := AllFiles(commits);
    var fe := ExtCount(files, FrontendExts);
    var be := ExtCount(files, BackendExts);
    var de := ExtCount(files, DevopsExts);
    Expertise(DomainLabel(PrimaryDomain(fe, be, de)), [], [])
  }

  lemma ExpertisePrefixStep(commits: seq<CommitInfo>, i: int, exts: set<string>)
    requires 0 <= i < |commits|
    ensures ExtCount(AllFiles(commits[..i + 1]), exts) == ExtCount(AllFiles(commits[..i]), exts) + ExtCount(commits[i].changedFiles, exts)
  {
    assert commits[..i + 1] == commits[..i] + [commits[i]];
    AllFilesSnoc(commits[..i], commits[i]);
    ExtCountAppend(AllFiles(commits[..i]), commits[i].changedFiles, exts);
  }

  /** The inner loop of `analyzeExpertise` over one commit's files. */
  method TallyDomains(files: seq<string>, fe0: nat, be0: nat, de0: nat) returns (fe: nat, be: nat, de: nat)
    ensures fe == fe0 + ExtCount(files, FrontendExts)
    ensures be == be0 + ExtCount(files, BackendExts)
    ensures de == de0 + ExtCount(files, DevopsExts)
  {
    fe, be, de := fe0, be0, de0;
    for j := 0 to |files|
      invariant fe == fe0 + ExtCount(files[..j], FrontendExts)
      invariant be == be0 + ExtCount(files[..j], BackendExts)
      invariant de == de0 + ExtCount(files[..j], DevopsExts)
    {
      ExtCountPrefixStep(files, j, FrontendExts);
      ExtCountPrefixStep(files, j, BackendExts);
      ExtCountPrefixStep(files, j, DevopsExts);
      var ext := GetFileExtension(files[j]);
      if ext in FrontendExts {
        fe := fe + 1;
      }
      if ext in BackendExts {
        be := be + 1;
      }
      if ext in DevopsExts {
        de := de + 1;
      }
    }
    WholePrefix(files);
  }

  /** `analyzeExpertise`: counts the files of each domain, then picks the primary domain. */
  method AnalyzeExpertise(commits: seq<CommitInfo>) returns (expertise: Expertise)
    ensures expertise == ExpertiseOf(commits)
  {
    var frontendCount, backendCount, devopsCount := 0, 0, 0;
    for i := 0 to |commits|
      invariant frontendCount == ExtCount(AllFiles(commits[..i]), FrontendExts)
      invariant backendCount == ExtCount(AllFiles(commits[..i]), BackendExts)
      invariant devopsCount == ExtCount(AllFiles(commits[..i]), DevopsExts)
    {
      ExpertisePrefixStep(commits, i, FrontendExts);
      ExpertisePrefixStep(commits, i, BackendExts);
      ExpertisePrefixStep(commits, i, DevopsExts);
      frontendCount, backendCount, devopsCount := TallyDomains(commits[i].changedFiles, frontendCount, backendCount, devopsCount);
    }
    WholePrefix(commits);
    var domain: string;
    if frontendCount > backendCount && frontendCount > devopsCount {
      domain := "前端开发";
    } else if backendCount > frontendCount && backendCount > devopsCount {
      domain := "后端开发";
    } else if frontendCount > 0 && backendCount > 0 {
      domain := "全栈开发";
    } else if devopsCount > 0 {
      domain := "DevOps";
    } else {
      domain := "软件开发";
    }
    expertise := Expertise(domain, [], []);
  }

  // ---------------------------------------------------------------- analyzeWorkStyle

  /**
   * The integer parts of `WorkStyle`: the most active hour, and the total byte length of
   * the commit messages (the numerator of `CommitMessageLength`).
   */
  datatype WorkStyle = WorkStyle(mostActiveHour: int, messageBytes: nat)

  /** The sum of `len(commit.Message)`, in bytes. */
  function MessageBytes(commits: seq<CommitInfo>): nat
  {
    if commits == [] then 0 else MessageBytes(commits[..|commits| - 1]) + Utf8Len(commits[|commits| - 1].message)
  }

  /**
   * What `analyzeWorkStyle` promises: nothing but zeroes without commits; otherwise the
   * message bytes, and an hour at which some commit was made and at which no other hour
   * has more commits. Which of several equally busy hours is reported depends on the order
   * of map iteration, so the contract leaves it open.
   */
  ghost predicate WorkStyleFits(commits: seq<CommitInfo>, ws: WorkStyle)
  {
    if commits == [] then ws == WorkStyle(0, 0)
    else
      && ws.messageBytes == MessageBytes(commits)
      && (exists k :: 0 <= k < |commits| && commits[k].date.hour == ws.mostActiveHour)
      && forall h :: multiset(Hours(commits))[h] <= multiset(Hours(commits))[ws.mostActiveHour]
  }

  /**
   * The scan over `hourCounts`: the first key met with a count strictly above every count
   * met before it wins, and `none` (the hour 0) is kept when no count is positive.
   */
  method MostActiveHour<K>(hourCounts: map<K, nat>, none: K) returns (hour: K)
    ensures (forall h | h in hourCounts :: hourCounts[h] == 0) ==> hour == none
    ensures (exists h | h in hourCounts :: hourCounts[h] > 0) ==>
      hour in hourCounts && forall h | h in hourCounts :: hourCounts[h] <= hourCounts[hour]
  {
    hour := none;
    var maxCount := 0;
    var remaining := hourCounts.Keys;
    while remaining != {}
      invariant remaining <= hourCounts.Keys
      invariant maxCount == 0 ==> hour == none
      invariant maxCount > 0 ==> hour in hourCounts && hourCounts[hour] == maxCount
      invariant forall h | h in hourCounts && h !in remaining :: hourCounts[h] <= maxCount
      decreases remaining
    {
      var h :| h in remaining;
      if hourCounts[h] > maxCount {
        maxCount := hourCounts[h];
        hour := h;
      }
      remaining := remaining - {h};
    }
  }

  lemma WorkStylePrefixStep(commits: seq<CommitInfo>, i: int)
    requires 0 <= i < |commits|
    ensures MessageBytes(commits[..i + 1]) == MessageBytes(commits[..i]) + Utf8Len(commits[i].message)
    ensures Hours(commits[..i + 1]) == Hours(commits[..i]) + [commits[i].date.hour]
  {
    assert commits[..i + 1] == commits[..i] + [commits[i]];
    MonthsHoursSnoc(commits[..i], commits[i]);
  }

  /** An hour in the list of commit hours is the hour of some commit. */
  lemma HourOfSomeCommit(commits: seq<CommitInfo>, hour: int)
    requires hour in Hours(commits)
    ensures exists k :: 0 <= k < |commits| && commits[k].date.hour == hour
  {
    MonthsHoursIndex(commits);
  }

  /** `analyzeWorkStyle`, without the two floating-point averages. */
  method AnalyzeWorkStyle(commits: seq<CommitInfo>) returns (ws: WorkStyle)
    ensures WorkStyleFits(commits, ws)
  {
    if |commits| == 0 {
      return WorkStyle(0, 0);
    }
    var totalMessageLength := 0;
    var hourCounts: map<int, nat> := map[];
    for i := 0 to |commits|
      invariant totalMessageLength == MessageBytes(commits[..i])
      invariant hourCounts == Count(Hours(commits[..i]))
    {
      WorkStylePrefixStep(commits, i);
      CountSnoc(Hours(commits[..i]), commits[i].date.hour);
      totalMessageLength := totalMessageLength + Utf8Len(commits[i].message);
      hourCounts := Bump(hourCounts, commits[i].date.hour);
    }
    WholePrefix(commits);
    var last := commits[|commits| - 1].date.hour;
    CountIsMultiplicity(Hours(commits));
    MonthsHoursIndex(commits);
    assert last in Hours(commits);
    CountPositive(Hours(commits), last);
    var hour := MostActiveHour(hourCounts, 0);
    MaxCountIsMostFrequent(Hours(commits), hour);
    HourOfSomeCommit(commits, hour);
    ws := WorkStyle(hour, totalMessageLength);
  }

  // ---------------------------------------------------------------- AnalyzeProfile

  datatype DeveloperProfile = DeveloperProfile(
    author: string,
    timeRange: TimeWindow,
    statistics: Statistics,
    techStack: TechStack,
    workStyle: WorkStyle,
    expertise: Expertise,
    aiAnalysis: string,
    generatedAt: DateTime)

  /** `AnalyzeProfile`: the four analyses side by side; `now` stands for `time.Now()`. */
  method AnalyzeProfile(commits: seq<CommitInfo>, from: DateTime, to: DateTime, author: string, now: DateTime)
    returns (profile: DeveloperProfile)
    ensures profile.author == author && profile.timeRange == TimeWindow(from, to)
    ensures profile.statistics == StatisticsOf(commits)
    ensures profile.techStack == TechStackOf(commits)
    ensures WorkStyleFits(commits, profile.workStyle)
    ensures profile.expertise == ExpertiseOf(commits)
    ensures profile.aiAnalysis == "" && profile.generatedAt == now
  {
    var statistics := CalculateStatistics(commits);
    var techStack := AnalyzeTechStack(commits);
    var workStyle := AnalyzeWorkStyle(commits);
    var expertise := AnalyzeExpertise(commits);
    profile := DeveloperProfile(author, TimeWindow(from, to), statistics, techStack, workStyle, expertise, "", now);
  }
}
