# git-work-profile, modelled in Dafny

git-work-profile is a command-line tool. It collects a developer's commits from one or more
Git repositories over a time window and computes statistics from them. These are commits
per month and per hour, files changed, file extensions, languages, a primary domain and a
working style. It then turns the commits into a prompt for a Gemini model and writes the
model's answer as a Markdown, JSON or text report. When no flag is given it asks for its
settings in an interactive dialogue instead.

This project models the core of that tool and proves properties about it:

- **`Cmd`** (`main.dfy`) covers the command itself:
  - the flag defaults and the interactive/flag decision;
  - the preset and custom time windows;
  - repository selection;
  - the loop that fetches, tags and merges the commits of every repository;
  - the total of the per-repository counts;
  - the outcome of a run;
  - how an interactive configuration is applied to the flags.
- **`Interactive`** (`interactive.dfy`) covers the interactive dialogue: the menu
  choices, the default output file name, the date and API-key validators, the confirmation
  answer, and the configuration that results.
- **`Profile`** (`profile.dfy`) covers the statistics, tech stack, work style and
  expertise computed from the commits.
- **`Report`** (`report.dfy`) covers how the report format is chosen, the report title and
  the report's own statistics.
- **`Gemini`** (`gemini.dfy`) covers the prompt built from the commits (its numbered
  blocks, short hashes, listed files and file-type tally), the earliest and latest commit
  dates, and the decision between the fixed "no commits" answer and asking the model.
- **`Prompts`** (`prompts.dfy`) covers the prompt-type selector and the normalisation of a
  custom prompt file.
- **Shared modules** that the others build on:
  - `Tally` (the file-extension rule and the sequences tallied);
  - `Histogram` (counting maps and their sums);
  - `Strs` (Go's `strings.TrimSpace`, `ToLower`, `Split` and byte length);
  - `Dates` (the `2006-01-02` layout, both formatting and parsing, and the end of a day);
  - `Git` (the commit record and timestamps);
  - `Results` (`Option` and `Result`).

The code works by changing things step by step in several places:
- the statistics loops;
- the prompt builder;
- the repository loop;
- the map total.

Those are methods with loops. Each method is proved equal to a function of its inputs, and
the properties are proved about the functions.

The tool reads the environment, the clock, the file system and Git, and calls Gemini. All of
these are parameters of the model:
- the API key string;
- `now`;
- a calendar function standing in for `AddDate`;
- the repository discovery function;
- the `NewGitOptions` function;
- the commit extraction function;
- what reading a prompt file gave.

One place where the model follows the code rather than the tool's design description is the
file-extension rule. A dot-file such as `a/.bashrc` has the extension `.bashrc`, because
the scan from the right stops at the first `.` before any `/`. The design description
expects an empty extension (see `Tally.ExtensionExamples`).

## Model

| member | source | states |
|---|---|---|
| Git.BeforeIsLexicographic | internal/ai/gemini.go:72-86 | `Before` on timestamps is the lexicographic order on (year, month, day, hour, minute, second) |
| Strs.TrimSpace | internal/ai/prompts.go:63-66 | the result is a slice of the input with only white space removed at both ends; it neither starts nor ends with white space; it is empty exactly when the input is all white space |
| Strs.TrimSpaceOfTrimmed | internal/interactive/interactive.go:195 | trimming text that is already trimmed changes nothing |
| Strs.TrimSpaceAround | internal/ai/prompts.go:63-71 | white space on either side of a trimmed, non-empty text is removed exactly |
| Strs.ToLower | internal/interactive/interactive.go:261 | same length; each ASCII capital becomes its lower-case letter and every other character is kept |
| Strs.Utf8Len | internal/interactive/interactive.go:446 | the byte length is at least the number of characters, and equal to it for ASCII text |
| Strs.OccurrencesAppend | internal/interactive/interactive.go:451 | the count of a character in a concatenation is the sum of the counts |
| Strs.Split | internal/interactive/interactive.go:451-452 | splitting yields one more part than there are separators, and no part contains the separator |
| Strs.JoinSplit | internal/interactive/interactive.go:451 | joining the parts of a split with the separator gives back the original text |
| Histogram.CountIsMultiplicity | internal/profile/profile.go:95-118 | the keys of a tally are the values seen, and each count is that value's multiplicity |
| Histogram.CountKeys | internal/profile/profile.go:95-118 | a value is a key of the tally exactly when it occurs in the sequence |
| Histogram.MaxCountIsMostFrequent | internal/profile/profile.go:190-198 | a key with the largest count occurs in the sequence, and no value occurs more often |
| Histogram.CountSnoc | internal/profile/profile.go:98 | tallying one more value increments that value's count |
| Histogram.CountPositive | internal/profile/profile.go:98 | every key of a tally has a count of at least one |
| Histogram.SumRemove | cmd/main.go:243-254 | the sum of a map is one entry's value plus the sum of the rest |
| Histogram.SumBump | internal/profile/profile.go:98 | incrementing one count increases the sum by one |
| Histogram.SumInsertNew | cmd/main.go:228 | adding a new key adds its value to the sum |
| Histogram.SumCount | internal/profile/profile.go:95-118 | the counts of a tally sum to the length of the sequence |
| Tally.ExtensionDotUnique | internal/profile/profile.go:264-274 | at most one position of a path can be its extension dot |
| Tally.FileExtensionMeaning | internal/profile/profile.go:264-274 | the extension is empty exactly when there is no dot after the last slash; otherwise it is the suffix that starts at that dot |
| Tally.ExtensionShape | internal/profile/profile.go:264-274 | a non-empty extension starts with a dot and has no other dot or slash |
| Tally.ExtensionFromDot | internal/profile/profile.go:264-274 | when a position is the extension dot, the extension is the suffix from there |
| Tally.NoExtensionBeforeSlash | internal/profile/profile.go:269-271 | a slash with no dot after it gives an empty extension |
| Tally.NoDotNoExtension | internal/profile/profile.go:264-274 | a path without a dot has an empty extension |
| Tally.ExtensionExamples | internal/profile/profile.go:264-274 | `a/b/file.go` gives `.go`; a dotted directory or no dot gives nothing; `a/.bashrc` gives `.bashrc` |
| Tally.Extensions | internal/profile/profile.go:103-109 | extensions collected from files are never empty and number at most the files |
| Tally.ExtensionsAppend | internal/profile/profile.go:103-109 | extensions of concatenated file lists concatenate |
| Tally.PathsMeaning | internal/profile/profile.go:104 | the set of changed files is exactly the set of elements |
| Tally.PathsBound | internal/profile/profile.go:120 | there are no more distinct files than files listed |
| Tally.PathsAppend | internal/profile/profile.go:104 | the file set of a concatenation is the union of the two sets |
| Tally.TaggedReposBound | internal/profile/profile.go:97-100 | tagged repositories are never empty and number at most the commits; they equal the commits in number exactly when every commit carries a repository |
| Tally.DistinctReposMeaning | internal/profile/profile.go:97-100 | the distinct repositories are the non-empty repository paths of the commits |
| Tally.DistinctReposAreTallyKeys | internal/profile/profile.go:97-119 | the repository set and the keys of the per-repository tally coincide |
| Profile.MonthsHoursIndex | internal/profile/profile.go:111-116 | the k-th month key and hour belong to the k-th commit |
| Profile.GetFileExtension | internal/profile/profile.go:264-274 | the loop computes the file-extension rule |
| Profile.CommitTalliesSum | internal/profile/profile.go:111-116 | the per-month and per-hour counts each sum to the number of commits |
| Profile.HoursInRange | internal/profile/profile.go:116 | every hour recorded is in 0..23 |
| Profile.HourKeysInRange | internal/profile/profile.go:116 | every hour key of the per-hour tally is in 0..23 |
| Profile.RepoTallySum | internal/profile/profile.go:97-100 | the repository tally's keys are the distinct repositories; its sum never exceeds the commits, and equals them exactly when every commit has a repository |
| Profile.FileTypeTallySum | internal/profile/profile.go:103-109 | the file-type tally has no empty key and sums to the number of files with an extension |
| Profile.TallyFiles | internal/profile/profile.go:103-109 | the inner loop extends the file-type tally and the file set by one commit's files |
| Profile.StatisticsProperties | internal/profile/profile.go:83-123 | month and hour counts sum to the commits; hours are 0..23; the repository total is the number of tally keys; the repository sum is at most the commits (equal iff all are tagged); file types have no empty key; the file-type sum and the distinct files are bounded by the files |
| Profile.StatisticsOfNothing | internal/profile/profile.go:83-123 | no commits give all-zero statistics and empty maps |
| Profile.CalculateStatistics | internal/profile/profile.go:83-123 | the loop computes the statistics function |
| Profile.Languages | internal/profile/profile.go:159-166 | no more languages are recognised than files |
| Profile.ExtCount | internal/profile/profile.go:232-245 | no more files match a set of extensions than there are files |
| Profile.LanguagesAppend | internal/profile/profile.go:159-166 | languages of concatenated file lists concatenate |
| Profile.ExtCountAppend | internal/profile/profile.go:232-245 | extension counts of concatenated file lists add up |
| Profile.LanguagesKnown | internal/profile/profile.go:126-166 | every language counted is a value of the extension-to-language table |
| Profile.LanguageTally | internal/profile/profile.go:159-166 | a language's count is the number of files whose extension maps to it |
| Profile.ReactExtensions | internal/profile/profile.go:126-157 | `.jsx` and `.tsx` are exactly the React extensions; `.go` is the only Go one |
| Profile.TallyLanguages | internal/profile/profile.go:159-166 | the inner loop extends the language tally by one commit's files |
| Profile.TechStackProperties | internal/profile/profile.go:126-169 | languages are known values; each count equals the number of files with one of its extensions; the sum is at most the files |
| Profile.AnalyzeTechStack | internal/profile/profile.go:126-169 | the loop computes the tech-stack function |
| Profile.DomainRule | internal/profile/profile.go:248-258 | each primary domain is chosen exactly under its condition on the frontend, backend and devops counts (both directions), with full stack covering ties |
| Profile.DomainLabelInjective | internal/profile/profile.go:248-258 | different domains get different labels |
| Profile.DomainSetsDisjoint | internal/profile/profile.go:218-230 | the three extension sets are pairwise disjoint and do not contain the empty extension |
| Profile.ExtCountUnion | internal/profile/profile.go:232-245 | the count for a union of disjoint sets is the sum of the counts |
| Profile.ExtCountBound | internal/profile/profile.go:232-245 | the count for a set without the empty extension is at most the number of extensions |
| Profile.DomainCountsBounded | internal/profile/profile.go:232-245 | the three domain counts together do not exceed the files that have an extension |
| Profile.TallyDomains | internal/profile/profile.go:233-244 | the inner loop adds one commit's matches to the three counters |
| Profile.AnalyzeExpertise | internal/profile/profile.go:208-261 | the loop computes the expertise function |
| Profile.MostActiveHour | internal/profile/profile.go:190-198 | with no positive count the hour stays at the initial value; otherwise it is a key with the largest count |
| Profile.HourOfSomeCommit | internal/profile/profile.go:185-188 | every hour tallied is the hour of some commit |
| Profile.AnalyzeWorkStyle | internal/profile/profile.go:172-205 | no commits give the zero work style; otherwise the most active hour is the hour of a commit that no other hour beats, and the message bytes are summed |
| Profile.AnalyzeProfile | internal/profile/profile.go:65-80 | the profile carries the author and window, statistics, tech stack, work style and expertise of the commits, an empty AI analysis and the generation time |
| Report.FormatDispatch | internal/report/report.go:42-49 | `markdown` selects Markdown, `json` selects JSON, and any other value selects text |
| Report.TitleChoice | internal/report/report.go:136-147 | the default title is used exactly for unknown analysis types; each known type has its own title |
| Report.GetFileExtension | internal/report/report.go:178-188 | the report's copy of the loop computes the same extension rule |
| Report.TallyFiles | internal/report/report.go:160-166 | the inner loop extends the file-type tally and the file set |
| Report.CalculateStats | internal/report/report.go:151-175 | the loop computes the report-statistics function |
| Report.StatsAgree | internal/report/report.go:151-175 | the report's commits, repositories, files and file types equal the profile statistics |
| Report.ExtensionCopiesAgree | internal/report/report.go:178-188 | the three copies of the extension loop, in report.go, profile.go and gemini.go, agree on every file name |
| Prompts.PromptTypeMapping | internal/ai/prompts.go:25-36 | each type's own name selects it; every other string selects the developer profile; selecting again changes nothing |
| Prompts.NormalizeCustomPrompt | internal/ai/prompts.go:63-71 | the content is refused with a file-empty error exactly when it is all white space |
| Prompts.NormalizedPrompt | internal/ai/prompts.go:63-71 | an accepted prompt is the trimmed content plus exactly one final newline |
| Prompts.NormalizeIdempotent | internal/ai/prompts.go:63-71 | normalising an accepted prompt again changes nothing |
| Prompts.TrimNewline | internal/ai/prompts.go:63-71 | trimmed text followed by a newline trims back to the text |
| Prompts.LoadCustomPrompt | internal/ai/prompts.go:39-74 | a missing file and an unreadable file give their own errors; readable content is accepted exactly when it is not blank, as the trimmed text plus a newline |
| Gemini.PickedAppend | internal/ai/gemini.go:129-174 | what is picked from concatenated lines is the concatenation of what is picked from each part |
| Gemini.RenderAllAppend | internal/ai/gemini.go:129-174 | rendering concatenated lines concatenates the texts |
| Gemini.FileLinesShowFiles | internal/ai/gemini.go:150-160 | the file lines list exactly the given files, in order |
| Gemini.FileLinesShowNothingElse | internal/ai/gemini.go:150-160 | file lines carry no header, hash, marker or branch line |
| Gemini.PickedBlock | internal/ai/gemini.go:129-174 | a commit block is the header, hash, author, date, optional branches, message, files part and a blank line, in that order |
| Gemini.PickedFilesPart | internal/ai/gemini.go:150-170 | a non-empty files part is the heading, the listed files and the overflow marker when files were cut |
| Gemini.BlockContents | internal/ai/gemini.go:129-174 | a block shows its number once, the 8-character short hash, the branches only when there are any, at most the first ten files, and the overflow count when there are more |
| Gemini.ListingContents | internal/ai/gemini.go:129-174 | the listing numbers the commits 1..n in order, shows each commit's short hash in order, and lists exactly the listed files |
| Gemini.ListingPrefixStep | internal/ai/gemini.go:129-174 | one more commit appends its block, its listed files and their extensions |
| Gemini.Write | internal/ai/gemini.go:129-174 | writing a line appends it to the builder |
| Gemini.GetFileExtension | internal/ai/gemini.go:196-206 | gemini.go's own copy of the loop computes the file-extension rule |
| Gemini.WriteFiles | internal/ai/gemini.go:150-166 | the file loop writes one line per listed file and tallies their extensions |
| Gemini.WriteHead | internal/ai/gemini.go:130-148 | the head of a block is written in order |
| Gemini.WriteFilesPart | internal/ai/gemini.go:150-170 | the files part is written and the listed files' extensions are tallied |
| Gemini.WriteCommit | internal/ai/gemini.go:129-173 | a whole block is written and its listed files' extensions are tallied |
| Gemini.AddCommit | internal/ai/gemini.go:129-173 | one turn of the loop extends the listing and the file-type tally of the commits before it to those of one commit more |
| Gemini.BuildPrompt | internal/ai/gemini.go:111-193 | the builder loop produces the prompt function |
| Gemini.ListedFilesBound | internal/ai/gemini.go:150-160 | the listed files number at most all files and at most ten per commit, and are all files when no commit has more than ten |
| Gemini.PromptFigures | internal/ai/gemini.go:111-193 | the prompt's commit count is the number of commits; its repository count equals the profile's; its file-type tally has no empty key and counts only listed files, and equals the profile tally when no commit lists more than ten files |
| Gemini.CountUniform | internal/ai/gemini.go:161-166 | a sequence of n copies tallies to one key with count n |
| Gemini.ExtensionsUniform | internal/ai/gemini.go:161-166 | n copies of a path with an extension give n copies of that extension |
| Gemini.PromptTallyCountsListedOnly | internal/ai/gemini.go:161-166 | a commit with eleven `.go` files counts ten in the prompt but eleven in the profile |
| Gemini.EarliestFromBounds | internal/ai/gemini.go:72-86 | the earliest date is the seed or some commit's date, and no commit is earlier |
| Gemini.LatestFromBounds | internal/ai/gemini.go:72-86 | the latest date is the seed or some commit's date, and no commit is later |
| Gemini.DateScanStep | internal/ai/gemini.go:76-85 | one more commit replaces a bound only when it is strictly beyond it |
| Gemini.DateBounds | internal/ai/gemini.go:72-86 | the scan computes the earliest and latest dates |
| Gemini.DateBoundsMeaning | internal/ai/gemini.go:72-86 | the two dates are commit dates that bracket every commit |
| Gemini.SummarizeCommitsWithPrompt | internal/ai/gemini.go:66-108 | the method returns the summary decision |
| Gemini.SummaryShortcut | internal/ai/gemini.go:66-89 | the fixed no-commits text is returned exactly when there are no commits; otherwise the model is asked with the prompt over a window spanning the commits |
| Dates.Pad2 | internal/ai/gemini.go:133 | two-digit padding spells the tens and units digits |
| Dates.Pad4 | internal/ai/gemini.go:133 | four-digit padding spells the four digits |
| Dates.DaysIn | cmd/main.go:164-165 | every month has 28 to 31 days |
| Dates.ParseDate | cmd/main.go:164-165 | an accepted date has the `YYYY-MM-DD` shape, is at midnight, and is a day that exists; the month error is reported exactly when the year and month fields are read and the month is outside 1..12, whatever follows |
| Dates.ParseThenFormat | cmd/main.go:164-175 | every accepted text formats back to itself |
| Dates.FormatThenParse | cmd/main.go:164-175 | a date formats to a text that parses back to its midnight |
| Dates.ParseDateExamples | cmd/main.go:164-169 | a leap day is accepted; an absent day, months 0 and 13, a one-digit month, leading space and letters are refused with their errors; `2024-13-ab` and `2024-13` are month errors |
| Dates.EndOfDay | cmd/main.go:170 | moving midnight forward by a day less a second keeps the date and lands at 23:59:59 |
| Dates.EndOfDayBounds | cmd/main.go:170 | every timestamp of that date lies between midnight and the end of the day |
| Cmd.InteractiveIffDefaults | cmd/main.go:332-343 | the dialogue runs exactly when every flag has its default value |
| Cmd.CalculateTimeRange | cmd/main.go:109-137 | every preset window ends now |
| Cmd.TimeRangePresets | cmd/main.go:109-137 | `3m`, `6m`, `1y` and `2y` start that far back, and every other value behaves as `6m` |
| Cmd.WindowChoice | cmd/main.go:161-176 | a preset applies unless both dates are given; with both given the run fails exactly when either date does not parse; a custom window runs from midnight of the first date to 23:59:59 of the second, which format back to the inputs |
| Cmd.RepoModePrecedence | cmd/main.go:182-201 | a repository directory wins: discovery failure and no repositories are their own outcomes, otherwise the discovered paths are used; then a single repository; then the current directory |
| Cmd.AuthorOverride | cmd/main.go:213-218 | a given author replaces the detected one; otherwise the options are used as created |
| Cmd.MergeStep | cmd/main.go:209-239 | one more repository appends its tagged commits, and records its count when its extraction succeeded |
| Cmd.MergedAppend | cmd/main.go:209-239 | merging two path lists one after the other concatenates their commits |
| Cmd.MergedOrder | cmd/main.go:221-236 | each repository contributes its block in turn, and a failed repository contributes nothing |
| Cmd.ContributionContents | cmd/main.go:228-236 | a repository contributes its own commits, in order, each relabelled with its path |
| Cmd.MergedTags | cmd/main.go:231-233 | every merged commit is tagged with one of the selected paths |
| Cmd.RepoCountsEntries | cmd/main.go:221-228 | a path has a count exactly when it was selected and its extraction succeeded; the count is the number of commits extracted |
| Cmd.CountsSumToMerged | cmd/main.go:243-254 | with distinct paths the per-repository counts sum to the number of merged commits |
| Cmd.DuplicatePathCountedOnce | cmd/main.go:228-254 | a path listed twice is counted once in the total but merged twice |
| Cmd.MergedAllTagged | cmd/main.go:231-233 | with no empty selected path the profile's repository tally accounts for every merged commit |
| Cmd.TagCommits | cmd/main.go:231-233 | every commit is relabelled with the current repository and nothing else changes |
| Cmd.CollectCommits | cmd/main.go:203-239 | the loop computes the merged commits and the per-repository counts |
| Cmd.TotalCommits | cmd/main.go:243-254 | the loop over the map, in any order, computes the sum of its counts |
| Cmd.GenerateReport | cmd/main.go:140-320 | the run outcome is the outcome function; the total is the sum of the printed counts, and those counts are the per-repository counts for the selected repositories |
| Cmd.RunOutcomes | cmd/main.go:140-320 | no API key stops the run first; an analysis has commits, a valid window, selected repositories, every commit tagged with one of them, the selected prompt type and format; with a key, a window and repositories, nothing to analyse happens exactly when no commit was merged |
| Cmd.AnalyzeAsksModel | cmd/main.go:296 | an analysed run always asks the model instead of returning the fixed no-commits text |
| Cmd.InteractiveCustomWindow | cmd/main.go:391-394 | a custom dialogue range sets both dates and clears the range; the run fails exactly when either date does not parse |
| Cmd.CustomConfigWindow | cmd/main.go:391-394 | a custom configuration with both dates gives those dates and no preset, and the window fails exactly on an unparsable date |
| Cmd.InteractivePresetWindow | cmd/main.go:395-397 | a preset dialogue range gives that preset window |
| Cmd.InteractiveRepos | cmd/main.go:399-406 | current means `.`, single means that repository, multiple means that directory |
| Interactive.MenusAgree | internal/interactive/interactive.go:59-180 | every analysis menu entry is a known prompt type with its own title; the formats select different writers; the five time ranges differ, and the second is `6m` |
| Interactive.DefaultOutputFileParts | internal/interactive/interactive.go:295-319 | the name is a prefix, a dot and an extension; the prefix is `analysis` exactly for unknown types, and the extension agrees with the report writer chosen for the format |
| Interactive.DefaultOutputFileExamples | internal/interactive/interactive.go:295-319 | the default names for the known types and formats, and for unknown ones |
| Interactive.ValidateDateMeaning | internal/interactive/interactive.go:438-457 | a date passes exactly when its trimmed text is ten bytes with exactly two dashes; it is refused as empty exactly when it is blank |
| Interactive.DashShapeValid | internal/interactive/interactive.go:438-457 | an ASCII ten-character text with dashes only at positions 4 and 7 passes |
| Interactive.ParsedDatesPassValidation | internal/interactive/interactive.go:438-457 | the validator accepts every date that parsing would later accept |
| Interactive.ValidationAcceptsLetters | internal/interactive/interactive.go:438-457 | `abcd-ef-gh` passes the validator but fails to parse |
| Interactive.ValidationAcceptsPadding | internal/interactive/interactive.go:438-457 | every parsable date with white space added before or after it passes the validator but fails to parse |
| Interactive.ApiKeyOf | internal/interactive/interactive.go:334-351 | an accepted key is the trimmed input |
| Interactive.ApiKeyRules | internal/interactive/interactive.go:334-351 | the key is refused as empty exactly when it is blank, accepted exactly when its trimmed text is at least 20 bytes, and accepting again gives the same key |
| Interactive.CancelledMeaning | internal/interactive/interactive.go:261-264 | the dialogue is cancelled exactly when the trimmed answer is `n` or `no` in any case |
| Interactive.ConfirmationDefaultProceeds | internal/interactive/interactive.go:249-266 | the default answer and `Y` proceed |
| Interactive.ConfirmationOtherWordsProceed | internal/interactive/interactive.go:261-266 | `yes` and `nope` proceed |
| Interactive.ConfirmationPaddedNoCancels | internal/interactive/interactive.go:261-264 | a padded `No` cancels |
| Interactive.ConfirmationNCancels | internal/interactive/interactive.go:261-264 | `n` cancels |
| Interactive.ConfigOf | internal/interactive/interactive.go:28-267 | once every prompt is answered, the dialogue stops at the first failing check in its own order: the current mode outside a Git repository, then an output file `validateOutputPath` refuses (an empty name is never checked), then a `n`/`no` confirmation; otherwise it yields a configuration |
| Interactive.TerminalOutputOnlyConfirmationDecides | internal/interactive/interactive.go:128-202 | with an empty output file name and a usable repository mode, only the confirmation can stop the dialogue, and it stops it as cancelled |
| Interactive.ConfigChoices | internal/interactive/interactive.go:59-180 | the analysis type, format, repository mode and time range are among the menu values, and the current mode uses `.` |
| Interactive.ConfigTexts | internal/interactive/interactive.go:82-219 | the output file and author are trimmed, and a custom range has both dates |
| Interactive.NotBlank | internal/interactive/interactive.go:441-443 | a date that passes the validator is not empty |

## Left out

- Messages and languages (`internal/i18n`): only the text of each message changes, not the control flow.
- Repository discovery, `NewGitOptions` and the Git commit extraction are code this model does not contain (`internal/git`). They are function parameters, and their failures are `None`.
- The Gemini client is left out: client creation, `GenerateContent`, the concatenation of response parts, and `Close`. That is a network service, so the model stops at the decision to ask and the prompt data it would send.
- `loadPromptTemplate` and the `ReplaceAll` substitution of the prompt template are left out. They depend on the file system. The prompt is modelled as its data: the listing lines, counts and file-type tally.
- The `fileTypes` text joined from the tally map is left out. Go's map iteration order makes its order unspecified, so the model keeps the tally map instead.
- `GenerateReportWithPrompt`, the report writers and the output file (`os.Create`) are left out. They are formatting and I/O. Only format selection, the title and the report statistics are modelled.
- Floating-point fields are left out: average commits per day, average message length and the floating-point labels. The model keeps the integer totals they are computed from.
- `time.Now` and `AddDate` calendar arithmetic are parameters, and time zones are not modelled.
- A custom range whose start is after its end is accepted by the source and in the model; nothing checks the order.
- The promptui dialogue is left out: `selectLanguage`, the masked prompt, and `PromptForAPIKey`'s environment lookup and `PromptYesNo`. The answers are the input of `Interactive.ConfigOf`, and the API-key prompt is modelled only as its validator and trim.
- `getCurrentGitUserName`, `getDefaultProjectsPath` and the `os.Stat` validators for repositories, directories and output paths are left out. They read the file system, so the defaults and validated paths they produce are inputs.
- Interactive.ConfigOf: what `validateGitRepo(".")` says of the current directory and what `validateOutputPath` says of the output file are two answers of the input (`currentDirIsRepo`, `outputPathAccepted`). The model keeps where the dialogue aborts on them, not how they inspect the file system. A prompt error from promptui (such as Ctrl-C on a menu) aborts the dialogue too and is not modelled.
- In `LoadCustomPrompt`, resolving the path to an absolute one and `Getwd` are left out. The file read is a parameter.
- Strs.ToLower: only ASCII letters are lowered. For the confirmation answer this is exact, because no other character lowercases to `n` or `o`.
- Strs.Utf8Len: this is the byte length of UTF-8 text. Texts are modelled as character sequences, and commit hashes are assumed to be ASCII, so `Hash[:8]` is eight characters.
- Gemini.BuildPrompt: every commit hash must have at least 8 characters (`HashesLongEnough`). Go panics on a shorter one at gemini.go:132. Full git hashes have 40, and the git package that produces them is not part of this model.
- Gemini.BuildPrompt: the `strings.Builder` is modelled as a list of lines with their rendering, not as one growing byte buffer.
- Cmd.TagCommits: the in-place update of the slice elements is modelled as a sequence update. No other slice shares those elements.
- Cmd.CountsSumToMerged: the total equals the merged commits only when the selected paths are distinct. A path listed twice makes the total smaller (`Cmd.DuplicatePathCountedOnce`).
- The `version` subcommand, the cobra command plumbing and the language initialisation are left out. They do no analysis.
- The difference between a nil and an empty Go slice is left out. `SecondaryDomains` is nil while `KeySkills` is `[]string{}`, and the two differ only in JSON output (`null` versus `[]`). Both are empty sequences in the model.
- Interactive.ValidateDate: it accepts every date padded with white space, such as ` 2024-01-05`, and the model keeps it. The dialogue returns the untrimmed text, which `time.Parse` then refuses (`Interactive.ValidationAcceptsPadding`).
