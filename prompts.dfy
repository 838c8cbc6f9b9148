/**
 * internal/ai/prompts.go: the prompt-type selector and the normalisation applied to a
 * custom prompt file once it has been read.
 */
module Prompts {
  import opened Strs
  import opened Results

  /** The three built-in prompt types. */
  datatype PromptType = DeveloperProfilePrompt | ProjectExperiencePrompt | TechStackPrompt

  /** The string each `PromptType` constant stands for. */
  function Value(p: PromptType): string
  {
    match p
    case DeveloperProfilePrompt => "profile"
    case ProjectExperiencePrompt => "experience"
    case TechStackPrompt => "techstack"
  }

  /** `GetPromptTypeFromString`. */
  function GetPromptTypeFromString(s: string): PromptType
  {
    match s
    case "profile" => DeveloperProfilePrompt
    case "experience" => ProjectExperiencePrompt
    case "techstack" => TechStackPrompt
    case _ => DeveloperProfilePrompt
  }

  /**
   * A prompt type's own name selects it; every other string selects the developer-profile
   * prompt; hence mapping the selected type's name again changes nothing.
   */
  lemma PromptTypeMapping(s: string)
    ensures forall p: PromptType :: GetPromptTypeFromString(Value(p)) == p
    ensures s !in {"profile", "experience", "techstack"} ==> GetPromptTypeFromString(s) == DeveloperProfilePrompt
    ensures Value(GetPromptTypeFromString(s)) == s || s !in {"profile", "experience", "techstack"}
    ensures GetPromptTypeFromString(Value(GetPromptTypeFromString(s))) == GetPromptTypeFromString(s)
  {
    forall p: PromptType
      ensures GetPromptTypeFromString(Value(p)) == p
    {
      match p
      case DeveloperProfilePrompt =>
      case ProjectExperiencePrompt =>
      case TechStackPrompt =>
    }
  }

  /** The failures of `LoadCustomPrompt`. */
  datatype PromptError = FileNotExist(path: string) | ReadFailed | FileEmpty(path: string)

  /** What reading the prompt file gave: it is missing, it could not be read, or its text. */
  datatype FileRead = Missing | Unreadable | Content(text: string)

  function HasSuffix(s: string, suffix: string): bool
  {
    |suffix| <= |s| && s[|s| - |suffix|..] == suffix
  }

  /**
   * The last step of `LoadCustomPrompt`: trim the content, refuse it when nothing is left,
   * and make sure it ends in a newline.
   */
  function NormalizeCustomPrompt(path: string, content: string): (r: Result<string, PromptError>)
    ensures r.Err? <==> AllSpace(content)
    ensures r.Err? ==> r.error == FileEmpty(path)
  {
    var t := TrimSpace(content);
    if t == "" then Err(FileEmpty(path))
    else if HasSuffix(t, "\n") then Ok(t)
    else Ok(t + "\n")
  }

  /** A string whose last character is a newline and whose one before it is not. */
  predicate EndsInOneNewline(s: string)
  {
    |s| >= 1 && s[|s| - 1] == '\n' && (|s| == 1 || s[|s| - 2] != '\n')
  }

  /**
   * An accepted prompt is the trimmed content plus one newline: the trimmed text never
   * ends in white space, so the conditional append always happens.
   */
  lemma NormalizedPrompt(path: string, content: string)
    requires NormalizeCustomPrompt(path, content).Ok?
    ensures NormalizeCustomPrompt(path, content).value == TrimSpace(content) + "\n"
    ensures EndsInOneNewline(NormalizeCustomPrompt(path, content).value)
  {
    var t := TrimSpace(content);
    assert !IsSpace(t[|t| - 1]);
    assert t[|t| - 1..] != "\n" by {
      assert t[|t| - 1..][0] == t[|t| - 1];
    }
  }

  /** Normalising an accepted prompt again gives it back unchanged. */
  lemma {:induction false} NormalizeIdempotent(path: string, content: string)
    requires NormalizeCustomPrompt(path, content).Ok?
    ensures NormalizeCustomPrompt(path, NormalizeCustomPrompt(path, content).value) == NormalizeCustomPrompt(path, content)
  {
    NormalizedPrompt(path, content);
    var t := TrimSpace(content);
    var s := t + "\n";
    TrimNewline(t);
    assert TrimSpace(s) == t;
  }

  /** Trimming a trimmed, non-empty text followed by a newline drops just the newline. */
  lemma TrimNewline(t: string)
    requires t != [] && !IsSpace(t[0]) && !IsSpace(t[|t| - 1])
    ensures TrimSpace(t + "\n") == t
  {
    TrimSpaceAround([], t, "\n");
    assert [] + t + "\n" == t + "\n";
  }

  /**
   * `LoadCustomPrompt` once the path has been made absolute: a missing file and an
   * unreadable file are errors, and readable content is normalised.
   */
  function LoadCustomPrompt(path: string, file: FileRead): (r: Result<string, PromptError>)
    ensures file.Missing? ==> r == Err(FileNotExist(path))
    ensures file.Unreadable? ==> r == Err(ReadFailed)
    ensures file.Content? ==> (r.Ok? <==> !AllSpace(file.text))
    ensures r.Ok? ==> file.Content? && r.value == TrimSpace(file.text) + "\n"
  {
    match file
    case Missing => Err(FileNotExist(path))
    case Unreadable => Err(ReadFailed)
    case Content(text) =>
      var r := NormalizeCustomPrompt(path, text);
      if r.Ok? then NormalizedPrompt(path, text); r else r
  }
}
