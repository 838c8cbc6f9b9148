/**
 * internal/interactive/interactive.go: the values the interactive menus stand for, the
 * default output file name, and the validators of the date, the API key and the final
 * confirmation. The prompts themselves, the language menu and the checks that consult
 * the file system are not modelled.
 */
module Interactive {
  import opened Strs
  import opened Results
  import Dates
  import Prompts
  import Report

  /* ---------- Menu positions ---------- */

  /** `analysisTypes[idx]`. */
  function AnalysisTypeAt(idx: nat): string
    requires idx < 3
  {
    ["profile", "experience", "techstack"][idx]
  }

  /** The time-range menu: the fifth entry is the custom range, the others `timeRanges[idx]`. */
  function TimeRangeAt(idx: nat): string
    requires idx < 5
  {
    if idx == 4 then "custom" else ["3m", "6m", "1y", "2y"][idx]
  }

  /** `formats[idx]`. */
  function FormatAt(idx: nat): string
    requires idx < 3
  {
    ["markdown", "json", "text"][idx]
  }

  /** The repository-mode menu: what `RepoMode` becomes for each entry. */
  function RepoModeAt(idx: nat): string
    requires idx < 3
  {
    ["current", "single", "multiple"][idx]
  }

  /**
   * Every menu entry names something the rest of the program knows: each analysis type
   * is a prompt type of its own and has its own report title, every format selects a
   * different writer, and the four preset ranges are distinct names, the one the menu
   * starts on being the flag's default.
   */
  lemma MenusAgree()
    ensures forall i :: 0 <= i < 3 ==>
      Prompts.Value(Prompts.GetPromptTypeFromString(AnalysisTypeAt(i))) == AnalysisTypeAt(i) &&
      Report.AnalysisTitle(AnalysisTypeAt(i)) != Report.DefaultTitle
    ensures forall i, j :: 0 <= i < j < 3 ==> Report.FormatOf(FormatAt(i)) != Report.FormatOf(FormatAt(j))
    ensures forall i, j :: 0 <= i < j < 5 ==> TimeRangeAt(i) != TimeRangeAt(j)
    ensures TimeRangeAt(1) == "6m"
  {
    Prompts.PromptTypeMapping("profile");
    Prompts.PromptTypeMapping("experience");
    Prompts.PromptTypeMapping("techstack");
  }

  /* ---------- The default output file ---------- */

  /** `generateDefaultOutputFile`. */
  function DefaultOutputFile(analysisType: string, format: string): string
  {
    var prefix :=
      match analysisType
      case "profile" => "developer-profile"
      case "experience" => "project-experience"
      case "techstack" => "techstack-analysis"
      case _ => "analysis";
    var ext :=
      match format
      case "markdown" => "md"
      case "json" => "json"
      case _ => "txt";
    prefix + "." + ext
  }

  /** The name's prefix follows the report title, and its extension the report writer. */
  lemma DefaultOutputFileParts(analysisType: string, format: string)
    ensures var name := DefaultOutputFile(analysisType, format);
      exists prefix, ext {:trigger prefix + "." + ext} ::
        name == prefix + "." + ext &&
        (prefix == "analysis" <==> Report.AnalysisTitle(analysisType) == Report.DefaultTitle) &&
        (ext == "md" <==> Report.FormatOf(format) == Report.Markdown) &&
        (ext == "json" <==> Report.FormatOf(format) == Report.Json) &&
        (ext == "txt" <==> Report.FormatOf(format) == Report.Text)
  {
    var prefix :=
      match analysisType
      case "profile" => "developer-profile"
      case "experience" => "project-experience"
      case "techstack" => "techstack-analysis"
      case _ => "analysis";
    var ext :=
      match format
      case "markdown" => "md"
      case "json" => "json"
      case _ => "txt";
    assert DefaultOutputFile(analysisType, format) == prefix + "." + ext;
  }

  /** For every pair of menu choices the default name is the one the report will carry. */
  lemma DefaultOutputFileExamples()
    ensures DefaultOutputFile("profile", "markdown") == "developer-profile.md"
    ensures DefaultOutputFile("experience", "json") == "project-experience.json"
    ensures DefaultOutputFile("techstack", "text") == "techstack-analysis.txt"
    ensures DefaultOutputFile("", "") == "analysis.txt"
  {
  }

  /* ---------- The date validator ---------- */

  datatype DateError = DateEmpty | DateFormatInvalid

  /** `validateDate`: non-empty after trimming, ten bytes long, and three pieces between dashes. */
  function ValidateDate(input: string): Result<(), DateError>
  {
    var t := TrimSpace(input);
    if t == "" then Err(DateEmpty)
    else if Utf8Len(t) != 10 then Err(DateFormatInvalid)
    else if |Split(t, '-')| != 3 then Err(DateFormatInvalid)
    else Ok(())
  }

  /** The validator accepts exactly the inputs whose trimmed text is ten bytes with two dashes. */
  lemma ValidateDateMeaning(input: string)
    ensures ValidateDate(input).Ok? <==>
      Utf8Len(TrimSpace(input)) == 10 && Occurrences(TrimSpace(input), '-') == 2
    ensures ValidateDate(input) == Err(DateEmpty) <==> AllSpace(input)
  {
  }

  /** Ten ASCII characters, not starting or ending with white space, with dashes at positions 4 and 7 only. */
  lemma DashShapeValid(s: string)
    requires |s| == 10 && s[4] == '-' && s[7] == '-'
    requires forall k :: 0 <= k < 10 && k != 4 && k != 7 ==> s[k] != '-'
    requires forall k :: 0 <= k < |s| ==> s[k] as int < 0x80
    requires !IsSpace(s[0]) && !IsSpace(s[9])
    ensures ValidateDate(s).Ok?
  {
    TrimSpaceOfTrimmed(s);
    assert s == s[..4] + "-" + s[5..7] + "-" + s[8..];
    OccurrencesAbsent(s[..4], '-');
    OccurrencesAbsent(s[5..7], '-');
    OccurrencesAbsent(s[8..], '-');
    OccurrencesAppend(s[..4], "-", '-');
    OccurrencesAppend(s[..4] + "-", s[5..7], '-');
    OccurrencesAppend(s[..4] + "-" + s[5..7], "-", '-');
    OccurrencesAppend(s[..4] + "-" + s[5..7] + "-", s[8..], '-');
    assert Occurrences("-", '-') == 1 by {
      assert "-"[..0] == "";
    }
    ValidateDateMeaning(s);
  }

  /** Every date the `2006-01-02` layout reads passes the validator. */
  lemma ParsedDatesPassValidation(s: string)
    requires Dates.ParseDate(s).Ok?
    ensures ValidateDate(s).Ok?
  {
    assert Dates.DateShaped(s);
    DashShapeValid(s);
  }

  /** The validator checks only the shape: it accepts a text without a digit, which the layout refuses. */
  lemma ValidationAcceptsLetters()
    ensures ValidateDate("abcd-ef-gh").Ok? && Dates.ParseDate("abcd-ef-gh").Err?
  {
    Dates.ParseDateExamples();
    DashShapeValid("abcd-ef-gh");
  }

  /**
   * The validator trims its input, but the text it accepted is handed on untrimmed: every
   * date padded with white space passes the validator and is then refused by the layout.
   */
  lemma ValidationAcceptsPadding(pre: string, date: string, post: string)
    requires Dates.ParseDate(date).Ok? && AllSpace(pre) && AllSpace(post) && pre + post != []
    ensures ValidateDate(pre + date + post).Ok? && Dates.ParseDate(pre + date + post).Err?
  {
    var padded := pre + date + post;
    assert Dates.DateShaped(date);
    TrimSpaceAround(pre, date, post);
    assert TrimSpace(padded) == date;
    TrimSpaceOfTrimmed(date);
    ParsedDatesPassValidation(date);
    ValidateDateMeaning(date);
    ValidateDateMeaning(padded);
    assert !Dates.DateShaped(padded) by {
      if pre != [] {
        assert padded[0] == pre[0];
      } else {
        assert |padded| > 10;
      }
    }
  }

  /* ---------- The API-key prompt ---------- */

  datatype KeyError = KeyEmpty | KeyInvalid

  /** `PromptForAPIKey` once a line was entered: the validator's verdict, and the trimmed key. */
  function ApiKeyOf(input: string): (r: Result<string, KeyError>)
    ensures r.Ok? ==> r.value == TrimSpace(input)
  {
    var key := TrimSpace(input);
    if key == "" then Err(KeyEmpty)
    else if Utf8Len(key) < 20 then Err(KeyInvalid)
    else Ok(key)
  }

  /**
   * A key is refused exactly when it is blank or its trimmed text is shorter than twenty
   * bytes; the accepted key has no surrounding white space, so entering it again gives it back.
   */
  lemma ApiKeyRules(input: string)
    ensures ApiKeyOf(input) == Err(KeyEmpty) <==> AllSpace(input)
    ensures ApiKeyOf(input).Ok? <==> Utf8Len(TrimSpace(input)) >= 20
    ensures ApiKeyOf(input).Ok? ==> ApiKeyOf(ApiKeyOf(input).value) == ApiKeyOf(input)
  {
    var key := TrimSpace(input);
    if key == "" {
      assert Utf8Len(key) == 0;
    }
    TrimSpaceOfTrimmed(key);
  }

  /* ---------- The confirmation ---------- */

  /** The final check of `RunInteractive`: the answer, trimmed and lower-cased, is `n` or `no`. */
  predicate Cancelled(answer: string)
  {
    var r := ToLower(TrimSpace(answer));
    r == "n" || r == "no"
  }

  /** The run is cancelled exactly by the four spellings of `n` and `no`, whatever the white space around them. */
  lemma CancelledMeaning(answer: string)
    ensures Cancelled(answer) <==> TrimSpace(answer) in {"n", "N", "no", "No", "nO", "NO"}
  {
    var t := TrimSpace(answer);
    var r := ToLower(t);
    if |t| == 1 {
      assert r == "n" <==> t[0] == 'n' || t[0] == 'N';
      assert t == [t[0]];
    } else if |t| == 2 {
      assert r == "no" <==> (t[0] == 'n' || t[0] == 'N') && (t[1] == 'o' || t[1] == 'O');
      assert t == [t[0], t[1]];
    }
  }

  /** The default answer and the answer `Y` go on. */
  lemma ConfirmationDefaultProceeds()
    ensures !Cancelled("") && !Cancelled("Y")
  {
    TrimSpaceOfTrimmed("");
    TrimSpaceOfTrimmed("Y");
  }

  /** Words that merely start like `no` go on too. */
  lemma ConfirmationOtherWordsProceed()
    ensures !Cancelled("yes") && !Cancelled("nope")
  {
    TrimSpaceOfTrimmed("yes");
    TrimSpaceOfTrimmed("nope");
  }

  /** A padded capitalised `No` cancels. */
  lemma ConfirmationPaddedNoCancels()
    ensures Cancelled(" No ")
  {
    TrimSpaceAround(" ", "No", " ");
    assert " " + "No" + " " == " No ";
  }

  /** A bare `n` cancels. */
  lemma ConfirmationNCancels()
    ensures Cancelled("n")
  {
    TrimSpaceOfTrimmed("n");
  }

  /* ---------- The configuration ---------- */

  /** `Config`. */
  datatype Config = Config(
    analysisType: string,
    timeRange: string,
    customFromDate: string,
    customToDate: string,
    repoMode: string,
    repoPath: string,
    outputFormat: string,
    outputFile: string,
    authorName: string)

  /**
   * The answers given to the menus and prompts of `RunInteractive`, as they come back from
   * the prompts: positions in the menus and the typed lines. Two answers come from the file
   * system rather than the user: whether `validateGitRepo(".")` accepts the current directory,
   * and whether `validateOutputPath` accepts the trimmed output file name.
   */
  datatype Answers = Answers(
    analysisIdx: nat,
    timeRangeIdx: nat,
    fromDate: string,
    toDate: string,
    repoModeIdx: nat,
    currentDirIsRepo: bool,
    repoPath: string,
    formatIdx: nat,
    outputFile: string,
    outputPathAccepted: bool,
    authorName: string,
    confirmation: string)

  /**
   * What the menus can return: a position in each menu, and dates the date validator
   * accepted whenever the custom range was chosen (the prompt asks again until it does).
   */
  predicate Possible(a: Answers)
  {
    a.analysisIdx < 3 && a.timeRangeIdx < 5 && a.repoModeIdx < 3 && a.formatIdx < 3 &&
    (a.timeRangeIdx == 4 ==> ValidateDate(a.fromDate).Ok? && ValidateDate(a.toDate).Ok?)
  }

  /** Why `RunInteractive` returns no configuration. */
  datatype DialogueError =
    | CurrentDirNotGitRepo  // the current mode was chosen outside a Git repository
    | OutputPathRefused     // `validateOutputPath` refused the output file
    | Canceled              // the confirmation answered `n` or `no`

  /**
   * `RunInteractive` once every prompt was answered. It stops at the first check that fails,
   * in the order the dialogue reaches them: the current directory right after the repository
   * menu, the output file after its prompt (an empty name means the terminal and is not
   * checked), and the confirmation last.
   */
  function ConfigOf(a: Answers): (r: Result<Config, DialogueError>)
    requires Possible(a)
    ensures r == Err(CurrentDirNotGitRepo) <==> a.repoModeIdx == 0 && !a.currentDirIsRepo
    ensures r == Err(OutputPathRefused) <==>
      !(a.repoModeIdx == 0 && !a.currentDirIsRepo) && TrimSpace(a.outputFile) != "" && !a.outputPathAccepted
    ensures r == Err(Canceled) <==>
      !(a.repoModeIdx == 0 && !a.currentDirIsRepo) && !(TrimSpace(a.outputFile) != "" && !a.outputPathAccepted) &&
      Cancelled(a.confirmation)
  {
    if a.repoModeIdx == 0 && !a.currentDirIsRepo then Err(CurrentDirNotGitRepo)
    else if TrimSpace(a.outputFile) != "" && !a.outputPathAccepted then Err(OutputPathRefused)
    else if Cancelled(a.confirmation) then Err(Canceled)
    else Ok(Assembled(a))
  }

  /** The configuration the answers fill in. */
  function Assembled(a: Answers): Config
    requires Possible(a)
  {
    var custom := a.timeRangeIdx == 4;
    Config(
      AnalysisTypeAt(a.analysisIdx),
      TimeRangeAt(a.timeRangeIdx),
      if custom then a.fromDate else "",
      if custom then a.toDate else "",
      RepoModeAt(a.repoModeIdx),
      if a.repoModeIdx == 0 then "." else a.repoPath,
      FormatAt(a.formatIdx),
      TrimSpace(a.outputFile),
      TrimSpace(a.authorName))
  }

  /**
   * Terminal output is never refused: with an empty output file name and a Git repository
   * (or a mode other than the current directory), only the confirmation decides.
   */
  lemma TerminalOutputOnlyConfirmationDecides(a: Answers)
    requires Possible(a) && TrimSpace(a.outputFile) == ""
    requires a.repoModeIdx != 0 || a.currentDirIsRepo
    ensures ConfigOf(a).Err? <==> Cancelled(a.confirmation)
    ensures ConfigOf(a).Err? ==> ConfigOf(a).error == Canceled
  {
  }

  /** A configuration names a known analysis type, format and repository mode. */
  lemma ConfigChoices(a: Answers)
    requires Possible(a) && ConfigOf(a).Ok?
    ensures ConfigOf(a).value.analysisType in {"profile", "experience", "techstack"}
    ensures ConfigOf(a).value.outputFormat in {"markdown", "json", "text"}
    ensures ConfigOf(a).value.repoMode in {"current", "single", "multiple"}
    ensures ConfigOf(a).value.repoMode == "current" ==> ConfigOf(a).value.repoPath == "."
    ensures ConfigOf(a).value.timeRange in {"3m", "6m", "1y", "2y", "custom"}
  {
    assert ConfigOf(a).value == Assembled(a);
  }

  /**
   * The output file and the author come without surrounding white space, and a custom
   * range carries two dates that are not blank.
   */
  lemma ConfigTexts(a: Answers)
    requires Possible(a) && ConfigOf(a).Ok?
    ensures TrimSpace(ConfigOf(a).value.outputFile) == ConfigOf(a).value.outputFile
    ensures TrimSpace(ConfigOf(a).value.authorName) == ConfigOf(a).value.authorName
    ensures ConfigOf(a).value.timeRange == "custom" ==>
      ConfigOf(a).value.customFromDate != "" && ConfigOf(a).value.customToDate != ""
  {
    var c := Assembled(a);
    assert ConfigOf(a).value == c;
    assert c.outputFile == TrimSpace(a.outputFile) && c.authorName == TrimSpace(a.authorName);
    TrimSpaceOfTrimmed(c.outputFile);
    TrimSpaceOfTrimmed(c.authorName);
    if c.timeRange == "custom" {
      assert a.timeRangeIdx == 4;
      assert c.customFromDate == a.fromDate && c.customToDate == a.toDate;
      assert ValidateDate(a.fromDate).Ok? && ValidateDate(a.toDate).Ok?;
      NotBlank(a.fromDate);
      NotBlank(a.toDate);
    }
  }

  /** A date the validator accepts is not empty. */
  lemma NotBlank(input: string)
    requires ValidateDate(input).Ok?
    ensures input != ""
  {
    if input == "" {
      TrimSpaceOfTrimmed(input);
    }
  }
}
