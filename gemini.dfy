/**
 * internal/ai/gemini.go: how the commits are turned into the text and the figures that are
 * substituted into the prompt template, and the date scan and empty-input shortcut of
 * `SummarizeCommitsWithPrompt`. The call to the model itself is not part of this module:
 * `SummarizeCommitsWithPrompt` returns either its fixed answer or the prompt it would send.
 */
module Gemini {
  import opened Git
  import opened Dates
  import opened Strs
  import opened Histogram
  import opened Tally
  import Profile
  import Prompts

  /** At most this many changed files of a commit are listed. */
  const MaxListedFiles := 10

  /** The answer given for an empty commit list. */
  const NoCommitsText := "没有找到提交记录。"

  /* ---------- The commit listing ---------- */

  /** One `Fprintf` into the commit-message builder. */
  datatype Line =
    | CommitHeader(number: nat)
    | HashLine(shortHash: string)
    | AuthorLine(author: string)
    | DateLine(date: DateTime)
    | BranchLine(branches: seq<string>)
    | MessageLine(message: string)
    | FilesHeader
    | FileLine(file: string)
    | MoreFiles(more: nat)
    | BlankLine

  /** The text each line writes. */
  function Render(l: Line): string
  {
    match l
    case CommitHeader(n) => "提交 " + NatText(n) + ":\n"
    case HashLine(h) => "- 哈希值: " + h + "\n"
    case AuthorLine(a) => "- 作者: " + a + "\n"
    case DateLine(d) => "- 日期: " + DateTimeText(d) + "\n"
    case BranchLine(bs) => "- 分支: " + Join(bs, ", ") + "\n"
    case MessageLine(m) => "- 消息: " + m + "\n"
    case FilesHeader => "- 变更文件:\n"
    case FileLine(f) => "  * " + f + "\n"
    case MoreFiles(n) => "  * ... 以及其他 " + NatText(n) + " 个文件\n"
    case BlankLine => "\n"
  }

  /** The builder's text after writing `lines` in order. */
  function RenderAll(lines: seq<Line>): string
  {
    Picked(lines, Render)
  }

  /** `maxFiles`: the number of a commit's files that are listed. */
  function ListedCount(files: seq<string>): nat
  {
    if |files| < MaxListedFiles then |files| else MaxListedFiles
  }

  /** The files of a commit that the listing shows and the prompt's file-type tally counts. */
  function ListedFilesOf(files: seq<string>): seq<string>
  {
    files[..ListedCount(files)]
  }

  function FileLines(files: seq<string>): seq<Line>
  {
    if files == [] then [] else FileLines(files[..|files| - 1]) + [FileLine(files[|files| - 1])]
  }

  /** The changed-files section of one commit. */
  function FilesPart(files: seq<string>): seq<Line>
  {
    if files == [] then []
    else
      [FilesHeader] + FileLines(ListedFilesOf(files)) +
      (if |files| > ListedCount(files) then [MoreFiles(|files| - ListedCount(files))] else [])
  }

  /** `commit.Hash[:8]` panics on a shorter hash. */
  predicate HashesLongEnough(commits: seq<CommitInfo>)
  {
    forall k :: 0 <= k < |commits| ==> |commits[k].hash| >= 8
  }

  /** The lines before the changed files: number, hash, author, date, branches, message. */
  function HeadLines(c: CommitInfo, n: nat): seq<Line>
    requires |c.hash| >= 8
  {
    [CommitHeader(n), HashLine(c.hash[..8]), AuthorLine(c.author), DateLine(c.date)] +
    (if |c.branches| > 0 then [BranchLine(c.branches)] else []) +
    [MessageLine(c.message)]
  }

  /** What the loop body writes for the commit numbered `n`. */
  function Block(c: CommitInfo, n: nat): seq<Line>
    requires |c.hash| >= 8
  {
    HeadLines(c, n) + FilesPart(c.changedFiles) + [BlankLine]
  }

  /** Everything written into `commitMessages`, commit by commit in input order. */
  function Listing(commits: seq<CommitInfo>): seq<Line>
    requires HashesLongEnough(commits)
  {
    if commits == [] then []
    else Listing(commits[..|commits| - 1]) + Block(commits[|commits| - 1], |commits|)
  }

  /** All listed files, commit by commit. */
  function ListedFiles(commits: seq<CommitInfo>): seq<string>
  {
    if commits == [] then []
    else ListedFiles(commits[..|commits| - 1]) + ListedFilesOf(commits[|commits| - 1].changedFiles)
  }

  /** The payloads of the lines that `pick` selects, in order. */
  function Picked<T>(lines: seq<Line>, pick: Line -> seq<T>): seq<T>
  {
    if lines == [] then [] else Picked(lines[..|lines| - 1], pick) + pick(lines[|lines| - 1])
  }

  function HeaderOf(l: Line): seq<nat>
  {
    if l.CommitHeader? then [l.number] else []
  }

  function ShortHashOf(l: Line): seq<string>
  {
    if l.HashLine? then [l.shortHash] else []
  }

  function FileOf(l: Line): seq<string>
  {
    if l.FileLine? then [l.file] else []
  }

  function MoreOf(l: Line): seq<nat>
  {
    if l.MoreFiles? then [l.more] else []
  }

  function BranchesOf(l: Line): seq<seq<string>>
  {
    if l.BranchLine? then [l.branches] else []
  }

  lemma {:induction false} PickedAppend<T>(a: seq<Line>, b: seq<Line>, pick: Line -> seq<T>)
    ensures Picked(a + b, pick) == Picked(a, pick) + Picked(b, pick)
    decreases |b|
  {
    if b == [] {
      assert a + b == a;
    } else {
      var b' := b[..|b| - 1];
      PickedAppend(a, b', pick);
      assert (a + b)[..|a + b| - 1] == a + b';
    }
  }

  /** The text of a listing is the text of its first part followed by the text of the rest. */
  lemma RenderAllAppend(a: seq<Line>, b: seq<Line>)
    ensures RenderAll(a + b) == RenderAll(a) + RenderAll(b)
  {
    PickedAppend(a, b, Render);
  }

  lemma PickedSingle<T>(l: Line, pick: Line -> seq<T>)
    ensures Picked([l], pick) == pick(l)
  {
    assert [l][..0] == [];
  }

  /** The file lines show exactly the given files, in order. */
  lemma {:induction false} FileLinesShowFiles(files: seq<string>)
    ensures Picked(FileLines(files), FileOf) == files
  {
    if files != [] {
      var init := files[..|files| - 1];
      FileLinesShowFiles(init);
      var l := FileLine(files[|files| - 1]);
      PickedAppend(FileLines(init), [l], FileOf);
      PickedSingle(l, FileOf);
      assert files == init + [files[|files| - 1]];
    }
  }

  /** The file lines hold no header, hash, marker or branch line. */
  lemma {:induction false} FileLinesShowNothingElse(files: seq<string>)
    ensures Picked(FileLines(files), HeaderOf) == []
    ensures Picked(FileLines(files), ShortHashOf) == []
    ensures Picked(FileLines(files), MoreOf) == []
    ensures Picked(FileLines(files), BranchesOf) == []
  {
    if files != [] {
      var init := files[..|files| - 1];
      FileLinesShowNothingElse(init);
      var l := FileLine(files[|files| - 1]);
      PickedAppend(FileLines(init), [l], HeaderOf);
      PickedAppend(FileLines(init), [l], ShortHashOf);
      PickedAppend(FileLines(init), [l], MoreOf);
      PickedAppend(FileLines(init), [l], BranchesOf);
      PickedSingle(l, HeaderOf);
      PickedSingle(l, ShortHashOf);
      PickedSingle(l, MoreOf);
      PickedSingle(l, BranchesOf);
    }
  }

  /** What `pick` selects from a block, part by part. */
  lemma PickedBlock<T>(c: CommitInfo, n: nat, pick: Line -> seq<T>)
    requires |c.hash| >= 8
    ensures Picked(Block(c, n), pick) ==
      pick(CommitHeader(n)) + pick(HashLine(c.hash[..8])) + pick(AuthorLine(c.author)) + pick(DateLine(c.date)) +
      (if |c.branches| > 0 then pick(BranchLine(c.branches)) else []) +
      pick(MessageLine(c.message)) + Picked(FilesPart(c.changedFiles), pick) + pick(BlankLine)
  {
    var head := [CommitHeader(n), HashLine(c.hash[..8]), AuthorLine(c.author), DateLine(c.date)];
    var br: seq<Line> := if |c.branches| > 0 then [BranchLine(c.branches)] else [];
    var fp := FilesPart(c.changedFiles);
    assert Block(c, n) == head + br + [MessageLine(c.message)] + fp + [BlankLine];
    PickedAppend(head + br + [MessageLine(c.message)] + fp, [BlankLine], pick);
    PickedAppend(head + br + [MessageLine(c.message)], fp, pick);
    PickedAppend(head + br, [MessageLine(c.message)], pick);
    PickedAppend(head, br, pick);
    assert head == [CommitHeader(n)] + [HashLine(c.hash[..8])] + [AuthorLine(c.author)] + [DateLine(c.date)];
    PickedAppend([CommitHeader(n)] + [HashLine(c.hash[..8])] + [AuthorLine(c.author)], [DateLine(c.date)], pick);
    PickedAppend([CommitHeader(n)] + [HashLine(c.hash[..8])], [AuthorLine(c.author)], pick);
    PickedAppend([CommitHeader(n)], [HashLine(c.hash[..8])], pick);
    PickedSingle(CommitHeader(n), pick);
    PickedSingle(HashLine(c.hash[..8]), pick);
    PickedSingle(AuthorLine(c.author), pick);
    PickedSingle(DateLine(c.date), pick);
    PickedSingle(MessageLine(c.message), pick);
    PickedSingle(BlankLine, pick);
    if |c.branches| > 0 {
      PickedSingle(BranchLine(c.branches), pick);
    }
  }

  /** What `pick` selects from a changed-files section, part by part. */
  lemma PickedFilesPart<T>(files: seq<string>, pick: Line -> seq<T>)
    requires files != []
    ensures Picked(FilesPart(files), pick) ==
      pick(FilesHeader) + Picked(FileLines(ListedFilesOf(files)), pick) +
      (if |files| > ListedCount(files) then pick(MoreFiles(|files| - ListedCount(files))) else [])
  {
    var more: seq<Line> := if |files| > ListedCount(files) then [MoreFiles(|files| - ListedCount(files))] else [];
    PickedAppend([FilesHeader] + FileLines(ListedFilesOf(files)), more, pick);
    PickedAppend([FilesHeader], FileLines(ListedFilesOf(files)), pick);
    PickedSingle(FilesHeader, pick);
    if more != [] {
      PickedSingle(more[0], pick);
    }
  }

  lemma BlockHeaders(c: CommitInfo, n: nat)
    requires |c.hash| >= 8
    ensures Picked(Block(c, n), HeaderOf) == [n]
  {
    FileLinesShowNothingElse(ListedFilesOf(c.changedFiles));
    PickedBlock(c, n, HeaderOf);
    if c.changedFiles != [] {
      PickedFilesPart(c.changedFiles, HeaderOf);
    }
  }

  lemma BlockHashes(c: CommitInfo, n: nat)
    requires |c.hash| >= 8
    ensures Picked(Block(c, n), ShortHashOf) == [c.hash[..8]]
  {
    FileLinesShowNothingElse(ListedFilesOf(c.changedFiles));
    PickedBlock(c, n, ShortHashOf);
    if c.changedFiles != [] {
      PickedFilesPart(c.changedFiles, ShortHashOf);
    }
  }

  lemma BlockBranches(c: CommitInfo, n: nat)
    requires |c.hash| >= 8
    ensures Picked(Block(c, n), BranchesOf) == if |c.branches| > 0 then [c.branches] else []
  {
    FileLinesShowNothingElse(ListedFilesOf(c.changedFiles));
    PickedBlock(c, n, BranchesOf);
    if c.changedFiles != [] {
      PickedFilesPart(c.changedFiles, BranchesOf);
    }
  }

  lemma BlockFiles(c: CommitInfo, n: nat)
    requires |c.hash| >= 8
    ensures Picked(Block(c, n), FileOf) == ListedFilesOf(c.changedFiles)
  {
    FileLinesShowFiles(ListedFilesOf(c.changedFiles));
    PickedBlock(c, n, FileOf);
    if c.changedFiles != [] {
      PickedFilesPart(c.changedFiles, FileOf);
    }
  }

  lemma BlockMarker(c: CommitInfo, n: nat)
    requires |c.hash| >= 8
    ensures Picked(Block(c, n), MoreOf) == if |c.changedFiles| > 10 then [|c.changedFiles| - 10] else []
  {
    PickedBlock(c, n, MoreOf);
    assert MoreOf(CommitHeader(n)) + MoreOf(HashLine(c.hash[..8])) + MoreOf(AuthorLine(c.author)) + MoreOf(DateLine(c.date)) == [];
    assert (if |c.branches| > 0 then MoreOf(BranchLine(c.branches)) else []) == [];
    assert MoreOf(MessageLine(c.message)) == [] && MoreOf(BlankLine) == [];
    assert Picked(Block(c, n), MoreOf) == Picked(FilesPart(c.changedFiles), MoreOf);
    FilesPartMarker(c.changedFiles);
  }

  lemma FilesPartMarker(files: seq<string>)
    ensures Picked(FilesPart(files), MoreOf) == if |files| > 10 then [|files| - 10] else []
  {
    if files != [] {
      FileLinesShowNothingElse(ListedFilesOf(files));
      PickedFilesPart(files, MoreOf);
      assert ListedCount(files) == if |files| < 10 then |files| else 10;
    }
  }

  /**
   * One commit's block: one header with its number, one line with the first 8 characters
   * of its hash, a branch line exactly when it has branches (holding all of them), its
   * first `min(10, n)` changed files in their order, and the "… and N more" line exactly
   * when it has more than 10 files, with N the number left out.
   */
  lemma BlockContents(c: CommitInfo, n: nat)
    requires |c.hash| >= 8
    ensures Picked(Block(c, n), HeaderOf) == [n]
    ensures Picked(Block(c, n), ShortHashOf) == [c.hash[..8]]
    ensures Picked(Block(c, n), BranchesOf) == if |c.branches| > 0 then [c.branches] else []
    ensures Picked(Block(c, n), FileOf) == c.changedFiles[..if |c.changedFiles| < 10 then |c.changedFiles| else 10]
    ensures Picked(Block(c, n), MoreOf) == if |c.changedFiles| > 10 then [|c.changedFiles| - 10] else []
  {
    BlockHeaders(c, n);
    BlockHashes(c, n);
    BlockBranches(c, n);
    BlockFiles(c, n);
    BlockMarker(c, n);
  }

  lemma {:induction false} ListingHeaders(commits: seq<CommitInfo>)
    requires HashesLongEnough(commits)
    ensures |Picked(Listing(commits), HeaderOf)| == |commits|
    ensures forall k :: 0 <= k < |commits| ==> Picked(Listing(commits), HeaderOf)[k] == k + 1
  {
    if commits != [] {
      var init := commits[..|commits| - 1];
      ListingHeaders(init);
      BlockHeaders(commits[|commits| - 1], |commits|);
      PickedAppend(Listing(init), Block(commits[|commits| - 1], |commits|), HeaderOf);
    }
  }

  lemma {:induction false} ListingHashes(commits: seq<CommitInfo>)
    requires HashesLongEnough(commits)
    ensures |Picked(Listing(commits), ShortHashOf)| == |commits|
    ensures forall k :: 0 <= k < |commits| ==> Picked(Listing(commits), ShortHashOf)[k] == commits[k].hash[..8]
  {
    if commits != [] {
      var init := commits[..|commits| - 1];
      var c := commits[|commits| - 1];
      ListingHashes(init);
      BlockHashes(c, |commits|);
      PickedAppend(Listing(init), Block(c, |commits|), ShortHashOf);
      var p := Picked(Listing(commits), ShortHashOf);
      assert p == Picked(Listing(init), ShortHashOf) + [c.hash[..8]];
      forall k | 0 <= k < |commits|
        ensures p[k] == commits[k].hash[..8]
      {
        if k < |init| {
          assert init[k] == commits[k];
        }
      }
    }
  }

  lemma {:induction false} ListingFiles(commits: seq<CommitInfo>)
    requires HashesLongEnough(commits)
    ensures Picked(Listing(commits), FileOf) == ListedFiles(commits)
  {
    if commits != [] {
      var init := commits[..|commits| - 1];
      ListingFiles(init);
      BlockFiles(commits[|commits| - 1], |commits|);
      PickedAppend(Listing(init), Block(commits[|commits| - 1], |commits|), FileOf);
    }
  }

  /**
   * Over the whole listing: the commits are numbered 1..n in input order, each shows the
   * first 8 characters of its own hash, and the listed files are exactly the files the
   * prompt's file-type tally counts.
   */
  lemma ListingContents(commits: seq<CommitInfo>)
    requires HashesLongEnough(commits)
    ensures |Picked(Listing(commits), HeaderOf)| == |commits|
    ensures forall k :: 0 <= k < |commits| ==> Picked(Listing(commits), HeaderOf)[k] == k + 1
    ensures |Picked(Listing(commits), ShortHashOf)| == |commits|
    ensures forall k :: 0 <= k < |commits| ==> Picked(Listing(commits), ShortHashOf)[k] == commits[k].hash[..8]
    ensures Picked(Listing(commits), FileOf) == ListedFiles(commits)
  {
    ListingHeaders(commits);
    ListingHashes(commits);
    ListingFiles(commits);
  }

  /** Commit `i` adds its own block and its listed files. */
  lemma ListingPrefixStep(commits: seq<CommitInfo>, i: int)
    requires 0 <= i < |commits| && HashesLongEnough(commits)
    ensures Listing(commits[..i + 1]) == Listing(commits[..i]) + Block(commits[i], i + 1)
    ensures ListedFiles(commits[..i + 1]) == ListedFiles(commits[..i]) + ListedFilesOf(commits[i].changedFiles)
    ensures Extensions(ListedFiles(commits[..i + 1])) == Extensions(ListedFiles(commits[..i])) + Extensions(ListedFilesOf(commits[i].changedFiles))
  {
    assert commits[..i + 1][..i] == commits[..i];
    ExtensionsAppend(ListedFiles(commits[..i]), ListedFilesOf(commits[i].changedFiles));
  }

  lemma FileLinesPrefixStep(files: seq<string>, j: int)
    requires 0 <= j < |files|
    ensures FileLines(files[..j + 1]) == FileLines(files[..j]) + [FileLine(files[j])]
  {
    assert files[..j + 1][..j] == files[..j];
  }

  /* ---------- The figures substituted into the template ---------- */

  /**
   * The values `buildPromptWithTemplate` substitutes for the template's placeholders. The
   * commit-message builder is kept as the lines written into it (its text is `RenderAll` of
   * them) and the file-type tally as the map it is printed from.
   */
  datatype PromptData = PromptData(
    commitMessages: seq<Line>,
    totalCommits: nat,
    timeRange: string,
    repoCount: nat,
    linesAdded: string,
    linesDeleted: string,
    fileTypes: map<string, nat>,
    promptType: Prompts.PromptType)

  /** What `buildPromptWithTemplate` computes from its arguments. */
  function PromptOf(commits: seq<CommitInfo>, from: DateTime, to: DateTime, promptType: Prompts.PromptType): PromptData
    requires HashesLongEnough(commits)
  {
    PromptData(
      Listing(commits),
      |commits|,
      DateText(from) + " 至 " + DateText(to),
      |DistinctRepos(commits)|,
      "N/A", "N/A",
      Count(Extensions(ListedFiles(commits))),
      promptType)
  }

  /* ---------- The builder ---------- */

  lemma SnocAssoc<T>(a: seq<T>, b: seq<T>, x: T)
    ensures (a + b) + [x] == a + (b + [x])
  {
  }

  /**
   * One `Fprintf` into the builder, which is held as the lines written so far; `acc`
   * tracks the lines written since the builder held `lines0`.
   */
  method Write(lines: seq<Line>, ghost lines0: seq<Line>, ghost acc: seq<Line>, l: Line)
    returns (lines': seq<Line>, ghost acc': seq<Line>)
    requires lines == lines0 + acc
    ensures lines' == lines + [l]
    ensures acc' == acc + [l]
    ensures lines' == lines0 + acc'
  {
    lines' := lines + [l];
    acc' := acc + [l];
    SnocAssoc(lines0, acc, l);
  }

  /** `getFileExtension` (gemini.go), the package's own copy of the backward scan. */
  method GetFileExtension(filename: string) returns (ext: string)
    ensures ext == FileExtension(filename)
  {
    var i := |filename| - 1;
    while i >= 0
      invariant -1 <= i < |filename|
      invariant ExtensionScan(filename, i + 1) == FileExtension(filename)
    {
      if filename[i] == '.' {
        return filename[i..];
      }
      if filename[i] == '/' {
        return "";
      }
      i := i - 1;
    }
    return "";
  }

  /** The `for j < maxFiles` loop: list the first `maxFiles` files and tally their extensions. */
  method WriteFiles(lines0: seq<Line>, files: seq<string>, maxFiles: nat,
                    ghost seen: seq<string>, fileTypeMap0: map<string, nat>)
    returns (lines: seq<Line>, fileTypeMap: map<string, nat>)
    requires maxFiles <= |files|
    requires fileTypeMap0 == Count(Extensions(seen))
    ensures lines == lines0 + FileLines(files[..maxFiles])
    ensures fileTypeMap == Count(Extensions(seen) + Extensions(files[..maxFiles]))
  {
    lines, fileTypeMap := lines0, fileTypeMap0;
    ghost var acc: seq<Line> := [];
    ghost var exts := Extensions(seen);
    assert lines0 + acc == lines0;
    assert Extensions(seen) + Extensions(files[..0]) == exts;
    var j := 0;
    while j < maxFiles
      invariant 0 <= j <= maxFiles
      invariant acc == FileLines(files[..j])
      invariant lines == lines0 + acc
      invariant exts == Extensions(seen) + Extensions(files[..j])
      invariant fileTypeMap == Count(exts)
    {
      var file := files[j];
      FileLinesPrefixStep(files, j);
      ExtensionsScanStep(seen, files, j, exts);
      lines, acc := Write(lines, lines0, acc, FileLine(file));
      var ext := GetFileExtension(file);
      if ext != "" {
        CountSnoc(exts, ext);
        fileTypeMap := Bump(fileTypeMap, ext);
        exts := exts + [ext];
      }
      j := j + 1;
    }
  }

  /** The first lines the loop body writes for commit number `n`. */
  method WriteHead(lines0: seq<Line>, c: CommitInfo, n: nat) returns (lines: seq<Line>)
    requires |c.hash| >= 8
    ensures lines == lines0 + HeadLines(c, n)
  {
    ghost var acc: seq<Line> := [];
    assert lines0 + acc == lines0;
    lines, acc := Write(lines0, lines0, acc, CommitHeader(n));
    lines, acc := Write(lines, lines0, acc, HashLine(c.hash[..8]));
    lines, acc := Write(lines, lines0, acc, AuthorLine(c.author));
    lines, acc := Write(lines, lines0, acc, DateLine(c.date));
    ghost var fixed := acc;
    assert fixed == [CommitHeader(n), HashLine(c.hash[..8]), AuthorLine(c.author), DateLine(c.date)];
    ghost var br: seq<Line> := if |c.branches| > 0 then [BranchLine(c.branches)] else [];
    if |c.branches| > 0 {
      lines, acc := Write(lines, lines0, acc, BranchLine(c.branches));
      assert acc == fixed + br;
    } else {
      assert acc == fixed + br;
    }
    lines, acc := Write(lines, lines0, acc, MessageLine(c.message));
  }

  lemma Assoc3<T>(a: seq<T>, b: seq<T>, c: seq<T>, d: seq<T>)
    ensures ((a + b) + c) + d == a + ((b + c) + d)
  {
  }

  /** The changed-files section: the header line, the listed files and the "… and N more" line. */
  method WriteFilesPart(lines0: seq<Line>, files: seq<string>, ghost seen: seq<string>, fileTypeMap0: map<string, nat>)
    returns (lines: seq<Line>, fileTypeMap: map<string, nat>)
    requires fileTypeMap0 == Count(Extensions(seen))
    ensures lines == lines0 + FilesPart(files)
    ensures fileTypeMap == Count(Extensions(seen) + Extensions(ListedFilesOf(files)))
  {
    lines, fileTypeMap := lines0, fileTypeMap0;
    if |files| > 0 {
      lines := lines + [FilesHeader];
      var maxFiles := 10;
      if |files| < maxFiles {
        maxFiles := |files|;
      }
      assert maxFiles == ListedCount(files);
      assert ListedFilesOf(files) == files[..maxFiles];
      lines, fileTypeMap := WriteFiles(lines, files, maxFiles, seen, fileTypeMap);
      ghost var more: seq<Line> := if |files| > maxFiles then [MoreFiles(|files| - maxFiles)] else [];
      if |files| > maxFiles {
        lines := lines + [MoreFiles(|files| - maxFiles)];
      } else {
        assert lines == lines + more;
      }
      assert FilesPart(files) == [FilesHeader] + FileLines(files[..maxFiles]) + more;
      Assoc3(lines0, [FilesHeader], FileLines(files[..maxFiles]), more);
    } else {
      assert lines == lines0 + FilesPart(files);
      assert Extensions(seen) + Extensions(ListedFilesOf(files)) == Extensions(seen);
    }
  }

  /** The body of the loop over the commits: write commit number `n` and tally its listed files. */
  method WriteCommit(lines0: seq<Line>, c: CommitInfo, n: nat, ghost seen: seq<string>, fileTypeMap0: map<string, nat>)
    returns (lines: seq<Line>, fileTypeMap: map<string, nat>)
    requires |c.hash| >= 8
    requires fileTypeMap0 == Count(Extensions(seen))
    ensures lines == lines0 + Block(c, n)
    ensures fileTypeMap == Count(Extensions(seen) + Extensions(ListedFilesOf(c.changedFiles)))
  {
    lines := WriteHead(lines0, c, n);
    lines, fileTypeMap := WriteFilesPart(lines, c.changedFiles, seen, fileTypeMap0);
    lines := lines + [BlankLine];
    Assoc3(lines0, HeadLines(c, n), FilesPart(c.changedFiles), [BlankLine]);
  }

  /** Commit `i` keeps the hashes of the prefix long enough. */
  lemma HashesPrefix(commits: seq<CommitInfo>, i: nat)
    requires i <= |commits| && HashesLongEnough(commits)
    ensures HashesLongEnough(commits[..i])
  {
    assert forall k :: 0 <= k < i ==> commits[..i][k] == commits[k];
  }

  /** One turn of the loop over the commits: the lines and the tally kept for `commits[..i]` become those for `commits[..i + 1]`. */
  method AddCommit(commits: seq<CommitInfo>, i: nat, commitMessages0: seq<Line>, fileTypeMap0: map<string, nat>)
    returns (commitMessages: seq<Line>, fileTypeMap: map<string, nat>)
    requires i < |commits| && HashesLongEnough(commits)
    requires HashesLongEnough(commits[..i]) && commitMessages0 == Listing(commits[..i])
    requires fileTypeMap0 == Count(Extensions(ListedFiles(commits[..i])))
    ensures HashesLongEnough(commits[..i + 1]) && commitMessages == Listing(commits[..i + 1])
    ensures fileTypeMap == Count(Extensions(ListedFiles(commits[..i + 1])))
  {
    HashesPrefix(commits, i + 1);
    ListingPrefixStep(commits, i);
    commitMessages, fileTypeMap := WriteCommit(commitMessages0, commits[i], i + 1, ListedFiles(commits[..i]), fileTypeMap0);
  }

  /** `buildPromptWithTemplate`, up to the substitution into the template. */
  method BuildPrompt(commits: seq<CommitInfo>, from: DateTime, to: DateTime, promptType: Prompts.PromptType)
    returns (prompt: PromptData)
    requires HashesLongEnough(commits)
    ensures prompt == PromptOf(commits, from, to, promptType)
  {
    var commitMessages: seq<Line> := [];
    var totalCommits := |commits|;
    var repoSet: set<string> := {};
    var fileTypeMap: map<string, nat> := map[];
    for i := 0 to |commits|
      invariant HashesLongEnough(commits[..i])
      invariant commitMessages == Listing(commits[..i])
      invariant repoSet == DistinctRepos(commits[..i])
      invariant fileTypeMap == Count(Extensions(ListedFiles(commits[..i])))
    {
      commitMessages, fileTypeMap := AddCommit(commits, i, commitMessages, fileTypeMap);
      DistinctReposPrefixStep(commits, i);
      if commits[i].repoPath != "" {
        repoSet := repoSet + {commits[i].repoPath};
      }
    }
    WholePrefix(commits);
    prompt := PromptData(commitMessages, totalCommits, DateText(from) + " 至 " + DateText(to),
      |repoSet|, "N/A", "N/A", fileTypeMap, promptType);
  }

  /** Σ min(10, |ChangedFiles|) over the commits. */
  function ListedTotal(commits: seq<CommitInfo>): nat
  {
    if commits == [] then 0 else ListedTotal(commits[..|commits| - 1]) + ListedCount(commits[|commits| - 1].changedFiles)
  }

  /**
   * The listed files number Σ min(10, |ChangedFiles|): never more than all changed files,
   * and all of them when no commit has more than 10.
   */
  lemma {:induction false} ListedFilesBound(commits: seq<CommitInfo>)
    ensures |ListedFiles(commits)| == ListedTotal(commits)
    ensures |ListedFiles(commits)| <= |AllFiles(commits)|
    ensures |ListedFiles(commits)| <= MaxListedFiles * |commits|
    ensures (forall k :: 0 <= k < |commits| ==> |commits[k].changedFiles| <= MaxListedFiles) ==> ListedFiles(commits) == AllFiles(commits)
  {
    if commits != [] {
      var init := commits[..|commits| - 1];
      var c := commits[|commits| - 1];
      ListedFilesBound(init);
      if forall k :: 0 <= k < |commits| ==> |commits[k].changedFiles| <= MaxListedFiles {
        assert forall k :: 0 <= k < |init| ==> init[k] == commits[k];
        assert ListedFilesOf(c.changedFiles) == c.changedFiles;
      }
    }
  }

  /**
   * The figures of the prompt: the commit count; the repository count is the number of
   * distinct non-empty repository paths, as in the profile; the file-type tally never has
   * the key "" and its values add up to the number of listed files with an extension, so to
   * at most Σ min(10, |ChangedFiles|); it agrees with the profile's tally when no commit
   * has more than 10 files.
   */
  lemma PromptFigures(commits: seq<CommitInfo>, from: DateTime, to: DateTime, promptType: Prompts.PromptType)
    requires HashesLongEnough(commits)
    ensures PromptOf(commits, from, to, promptType).totalCommits == |commits|
    ensures PromptOf(commits, from, to, promptType).repoCount == Profile.StatisticsOf(commits).totalRepos
    ensures "" !in PromptOf(commits, from, to, promptType).fileTypes
    ensures Sum(PromptOf(commits, from, to, promptType).fileTypes) <= ListedTotal(commits) <= |AllFiles(commits)|
    ensures (forall k :: 0 <= k < |commits| ==> |commits[k].changedFiles| <= MaxListedFiles) ==>
      PromptOf(commits, from, to, promptType).fileTypes == Profile.StatisticsOf(commits).fileTypeStats
  {
    var exts := Extensions(ListedFiles(commits));
    CountKeys(exts);
    SumCount(exts);
    ListedFilesBound(commits);
  }

  lemma CountUniform<K>(n: nat, x: K)
    requires n > 0
    ensures Count(seq(n, _ => x)) == map[x := n]
  {
    if n > 1 {
      CountUniform(n - 1, x);
      assert seq(n, _ => x)[..n - 1] == seq(n - 1, _ => x);
    } else {
      assert seq(n, _ => x)[..0] == [];
    }
  }

  lemma {:induction false} ExtensionsUniform(n: nat, path: string)
    requires FileExtension(path) != ""
    ensures Extensions(seq(n, _ => path)) == seq(n, _ => FileExtension(path))
  {
    if n > 0 {
      ExtensionsUniform(n - 1, path);
      assert seq(n, _ => path)[..n - 1] == seq(n - 1, _ => path);
    }
  }

  /**
   * The prompt's tally can differ from the report's: for one commit with eleven Go files,
   * the prompt counts the ten it lists and the profile all eleven.
   */
  lemma PromptTallyCountsListedOnly()
    ensures var d := DateTime(2024, 1, 1, 0, 0, 0);
      var c := CommitInfo("0123456789abcdef", "dev", d, "msg", [], seq(11, _ => "main.go"), "repo");
      Get(PromptOf([c], d, d, Prompts.DeveloperProfilePrompt).fileTypes, ".go") == 10 &&
      Get(Profile.StatisticsOf([c]).fileTypeStats, ".go") == 11
  {
    var d := DateTime(2024, 1, 1, 0, 0, 0);
    var files := seq(11, _ => "main.go");
    var c := CommitInfo("0123456789abcdef", "dev", d, "msg", [], files, "repo");
    ExtensionFromDot("main.go", 4);
    assert [c][..0] == [];
    assert ListedFiles([c]) == seq(10, _ => "main.go");
    assert AllFiles([c]) == files;
    ExtensionsUniform(10, "main.go");
    ExtensionsUniform(11, "main.go");
    CountUniform(10, ".go");
    CountUniform(11, ".go");
  }

  /* ---------- SummarizeCommitsWithPrompt ---------- */

  /** The earliest date the scan settles on, starting from `e`. */
  function EarliestFrom(commits: seq<CommitInfo>, e: DateTime): DateTime
  {
    if commits == [] then e
    else
      var m := EarliestFrom(commits[..|commits| - 1], e);
      var d := commits[|commits| - 1].date;
      if Before(d, m) then d else m
  }

  /** The latest date the scan settles on, starting from `l`. */
  function LatestFrom(commits: seq<CommitInfo>, l: DateTime): DateTime
  {
    if commits == [] then l
    else
      var m := LatestFrom(commits[..|commits| - 1], l);
      var d := commits[|commits| - 1].date;
      if After(d, m) then d else m
  }

  /** The earliest date is the start value or a commit's date, and no commit is before it. */
  lemma {:induction false} EarliestFromBounds(commits: seq<CommitInfo>, e: DateTime)
    ensures var r := EarliestFrom(commits, e);
      (r == e || exists k :: 0 <= k < |commits| && commits[k].date == r) &&
      !Before(e, r) &&
      forall k :: 0 <= k < |commits| ==> !Before(commits[k].date, r)
  {
    if commits != [] {
      var init := commits[..|commits| - 1];
      EarliestFromBounds(init, e);
      var m := EarliestFrom(init, e);
      assert forall k :: 0 <= k < |init| ==> init[k] == commits[k];
      if m != e {
        var k :| 0 <= k < |init| && init[k].date == m;
        assert commits[k].date == m;
      }
    }
  }

  /** The latest date is the start value or a commit's date, and no commit is after it. */
  lemma {:induction false} LatestFromBounds(commits: seq<CommitInfo>, l: DateTime)
    ensures var r := LatestFrom(commits, l);
      (r == l || exists k :: 0 <= k < |commits| && commits[k].date == r) &&
      !After(l, r) &&
      forall k :: 0 <= k < |commits| ==> !After(commits[k].date, r)
  {
    if commits != [] {
      var init := commits[..|commits| - 1];
      LatestFromBounds(init, l);
      var m := LatestFrom(init, l);
      assert forall k :: 0 <= k < |init| ==> init[k] == commits[k];
      if m != l {
        var k :| 0 <= k < |init| && init[k].date == m;
        assert commits[k].date == m;
      }
    }
  }

  lemma DateScanStep(commits: seq<CommitInfo>, i: int, e: DateTime, l: DateTime)
    requires 0 <= i < |commits|
    ensures EarliestFrom(commits[..i + 1], e) == (var m := EarliestFrom(commits[..i], e); if Before(commits[i].date, m) then commits[i].date else m)
    ensures LatestFrom(commits[..i + 1], l) == (var m := LatestFrom(commits[..i], l); if After(commits[i].date, m) then commits[i].date else m)
  {
    assert commits[..i + 1][..i] == commits[..i];
  }

  /** The scan for the earliest and latest dates, started from the last and the first commit. */
  method DateBounds(commits: seq<CommitInfo>) returns (earliestDate: DateTime, latestDate: DateTime)
    requires commits != []
    ensures earliestDate == EarliestFrom(commits, commits[|commits| - 1].date)
    ensures latestDate == LatestFrom(commits, commits[0].date)
  {
    ghost var e0, l0 := commits[|commits| - 1].date, commits[0].date;
    earliestDate := commits[|commits| - 1].date;
    latestDate := commits[0].date;
    for i := 0 to |commits|
      invariant earliestDate == EarliestFrom(commits[..i], e0)
      invariant latestDate == LatestFrom(commits[..i], l0)
    {
      DateScanStep(commits, i, e0, l0);
      var commit := commits[i];
      if Before(commit.date, earliestDate) {
        earliestDate := commit.date;
      }
      if After(commit.date, latestDate) {
        latestDate := commit.date;
      }
    }
    WholePrefix(commits);
  }

  /**
   * For non-empty commits both scanned dates are dates of commits, and every commit lies
   * between them.
   */
  lemma DateBoundsMeaning(commits: seq<CommitInfo>)
    requires commits != []
    ensures Spans(commits, EarliestFrom(commits, commits[|commits| - 1].date), LatestFrom(commits, commits[0].date))
  {
    EarliestFromBounds(commits, commits[|commits| - 1].date);
    LatestFromBounds(commits, commits[0].date);
  }

  /** What `SummarizeCommitsWithPrompt` does before any answer comes back. */
  datatype Request = Answer(text: string) | Ask(prompt: PromptData)

  /** The fixed answer for no commits, else the prompt built over the scanned date range. */
  function SummaryOf(commits: seq<CommitInfo>, promptType: Prompts.PromptType): Request
    requires HashesLongEnough(commits)
  {
    if commits == [] then Answer(NoCommitsText)
    else Ask(PromptOf(commits, EarliestFrom(commits, commits[|commits| - 1].date), LatestFrom(commits, commits[0].date), promptType))
  }

  /** `SummarizeCommitsWithPrompt` up to the call to the model. */
  method SummarizeCommitsWithPrompt(commits: seq<CommitInfo>, promptType: Prompts.PromptType) returns (r: Request)
    requires HashesLongEnough(commits)
    ensures r == SummaryOf(commits, promptType)
  {
    if |commits| == 0 {
      return Answer(NoCommitsText);
    }
    var earliestDate, latestDate := DateBounds(commits);
    var prompt := BuildPrompt(commits, earliestDate, latestDate, promptType);
    return Ask(prompt);
  }

  /** `from` and `to` are dates of commits, and every commit lies between them. */
  predicate Spans(commits: seq<CommitInfo>, from: DateTime, to: DateTime)
  {
    (exists k :: 0 <= k < |commits| && commits[k].date == from) &&
    (exists k :: 0 <= k < |commits| && commits[k].date == to) &&
    forall k :: 0 <= k < |commits| ==> !Before(commits[k].date, from) && !After(commits[k].date, to)
  }

  /**
   * An empty commit list is answered with the fixed text and no prompt; otherwise the
   * prompt covers a range whose ends are commit dates and which holds every commit.
   */
  lemma SummaryShortcut(commits: seq<CommitInfo>, promptType: Prompts.PromptType)
    requires HashesLongEnough(commits)
    ensures SummaryOf(commits, promptType).Answer? <==> commits == []
    ensures commits == [] ==> SummaryOf(commits, promptType) == Answer(NoCommitsText)
    ensures commits != [] ==> exists from: DateTime, to: DateTime {:trigger Spans(commits, from, to)} ::
      Spans(commits, from, to) && SummaryOf(commits, promptType) == Ask(PromptOf(commits, from, to, promptType))
  {
    if commits != [] {
      DateBoundsMeaning(commits);
    }
  }
}
