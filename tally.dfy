/**
 * What the analysers compute, as functions of the commit sequence: the extension of a
 * path, every changed-file occurrence in order, the distinct files and repositories, and
 * the keys the histograms bump. The loops in Profile, Report and Gemini are proved to
 * build exactly these.
 */
module Tally {
  import opened Git
  import opened Histogram

  /** `path[i]` is a dot with neither a dot nor a slash after it. */
  predicate ExtensionDotAt(path: string, i: int)
  {
    0 <= i < |path| && path[i] == '.' && forall j :: i < j < |path| ==> path[j] != '.' && path[j] != '/'
  }

  predicate HasExtension(path: string)
  {
    exists i :: 0 <= i < |path| && ExtensionDotAt(path, i)
  }

  /** At most one position of a path is an extension dot. */
  lemma ExtensionDotUnique(path: string, i: int, i': int)
    requires ExtensionDotAt(path, i) && ExtensionDotAt(path, i')
    ensures i == i'
  {
  }

  /**
   * The backward scan over `path[..n]`: the suffix from the last dot, unless a slash (or
   * the start) comes first.
   */
  function ExtensionScan(path: string, n: nat): string
    requires n <= |path|
    decreases n
  {
    if n == 0 then ""
    else if path[n - 1] == '.' then path[n - 1..]
    else if path[n - 1] == '/' then ""
    else ExtensionScan(path, n - 1)
  }

  /** `getFileExtension` as a function of the path. */
  function FileExtension(path: string): string
  {
    ExtensionScan(path, |path|)
  }

  /** When nothing after position `n` is a dot or a slash, the scan finds the extension dot if it lies before `n`. */
  lemma {:induction false} ExtensionScanFindsDot(path: string, n: nat)
    requires n <= |path|
    requires forall j :: n <= j < |path| ==> path[j] != '.' && path[j] != '/'
    ensures var ext := ExtensionScan(path, n);
      (ext == "" <==> !exists i :: 0 <= i < n && ExtensionDotAt(path, i)) &&
      (ext != "" ==> ExtensionDotAt(path, |path| - |ext|) && ext == path[|path| - |ext|..])
    decreases n
  {
    if n == 0 {
    } else if path[n - 1] == '.' {
      assert ExtensionDotAt(path, n - 1);
    } else if path[n - 1] == '/' {
      forall i | 0 <= i < n - 1 ensures !ExtensionDotAt(path, i) {
        assert path[n - 1] == '/';
      }
    } else {
      ExtensionScanFindsDot(path, n - 1);
    }
  }

  /**
   * The extension is the suffix that starts at the one dot of the final path segment, or
   * `""` when the final segment holds no dot. A dot file such as `a/.bashrc` yields
   * `.bashrc`.
   */
  lemma FileExtensionMeaning(path: string)
    ensures var ext := FileExtension(path);
      (ext == "" <==> !HasExtension(path)) &&
      (ext != "" ==> ExtensionDotAt(path, |path| - |ext|) && ext == path[|path| - |ext|..])
  {
    ExtensionScanFindsDot(path, |path|);
  }

  /** An extension starts with its dot and holds no other dot and no slash. */
  lemma ExtensionShape(path: string)
    requires FileExtension(path) != ""
    ensures var ext := FileExtension(path);
      ext[0] == '.' && forall k :: 1 <= k < |ext| ==> ext[k] != '.' && ext[k] != '/'
  {
    FileExtensionMeaning(path);
    var ext := FileExtension(path);
    var i := |path| - |ext|;
    forall k | 1 <= k < |ext| ensures ext[k] != '.' && ext[k] != '/' {
      assert ext[k] == path[i + k];
    }
  }

  /** The extension is determined by its dot: the one extension dot of the path. */
  lemma ExtensionFromDot(path: string, i: int)
    requires ExtensionDotAt(path, i)
    ensures FileExtension(path) == path[i..]
  {
    FileExtensionMeaning(path);
    var ext := FileExtension(path);
    ExtensionDotUnique(path, i, |path| - |ext|);
  }

  /** A path whose last dot comes before a slash, or that has no dot, has no extension. */
  lemma NoExtensionBeforeSlash(path: string, s: int)
    requires 0 <= s < |path| && path[s] == '/'
    requires forall j :: s < j < |path| ==> path[j] != '.'
    ensures FileExtension(path) == ""
  {
    FileExtensionMeaning(path);
    forall i | 0 <= i < |path| ensures !ExtensionDotAt(path, i) {
      if i < s { assert path[s] == '/'; }
    }
  }

  /** A path with no dot at all has no extension. */
  lemma NoDotNoExtension(path: string)
    requires forall j :: 0 <= j < |path| ==> path[j] != '.'
    ensures FileExtension(path) == ""
  {
    FileExtensionMeaning(path);
  }

  lemma ExtensionExamples()
    ensures FileExtension("a/b/file.go") == ".go"
    ensures FileExtension("a/b.dir/file") == ""
    ensures FileExtension("noext") == ""
    ensures FileExtension("a/.bashrc") == ".bashrc"
  {
    ExtensionFromDot("a/b/file.go", 8);
    NoExtensionBeforeSlash("a/b.dir/file", 7);
    NoDotNoExtension("noext");
    ExtensionFromDot("a/.bashrc", 2);
  }

  /** Every changed-file occurrence of the commits, commit by commit, in diff order. */
  function AllFiles(commits: seq<CommitInfo>): seq<string>
  {
    if commits == [] then []
    else AllFiles(commits[..|commits| - 1]) + commits[|commits| - 1].changedFiles
  }

  lemma AllFilesSnoc(commits: seq<CommitInfo>, c: CommitInfo)
    ensures AllFiles(commits + [c]) == AllFiles(commits) + c.changedFiles
  {
    assert (commits + [c])[..|commits|] == commits;
  }

  /** The non-empty extensions of `files`, in order: the keys a file-type tally bumps. */
  function Extensions(files: seq<string>): (exts: seq<string>)
    ensures "" !in exts
    ensures |exts| <= |files|
  {
    if files == [] then []
    else
      var e := FileExtension(files[|files| - 1]);
      Extensions(files[..|files| - 1]) + (if e != "" then [e] else [])
  }

  lemma ExtensionsSnoc(files: seq<string>, f: string)
    ensures Extensions(files + [f]) == Extensions(files) + (if FileExtension(f) != "" then [FileExtension(f)] else [])
  {
    assert (files + [f])[..|files|] == files;
  }

  /** The step of a left-to-right scan over `files`: the prefix grows by `files[j]`. */
  lemma ExtensionsPrefixStep(files: seq<string>, j: int)
    requires 0 <= j < |files|
    ensures Extensions(files[..j + 1]) == Extensions(files[..j]) + (if FileExtension(files[j]) != "" then [FileExtension(files[j])] else [])
  {
    assert files[..j + 1] == files[..j] + [files[j]];
    ExtensionsSnoc(files[..j], files[j]);
  }

  /** The step of the same scan for the set of paths, with the earlier paths `seen` in front. */
  lemma PathsScanStep(seen: seq<string>, files: seq<string>, j: int)
    requires 0 <= j < |files|
    ensures Paths(seen + files[..j + 1]) == Paths(seen + files[..j]) + {files[j]}
  {
    assert seen + files[..j + 1] == (seen + files[..j]) + [files[j]];
    PathsSnoc(seen + files[..j], files[j]);
  }

  /** The same step, with the extensions of earlier files `seen` in front. */
  lemma ExtensionsScanStep(seen: seq<string>, files: seq<string>, j: int, exts: seq<string>)
    requires 0 <= j < |files|
    requires exts == Extensions(seen) + Extensions(files[..j])
    ensures (if FileExtension(files[j]) != "" then exts + [FileExtension(files[j])] else exts)
      == Extensions(seen) + Extensions(files[..j + 1])
  {
    ExtensionsPrefixStep(files, j);
  }

  lemma {:induction false} ExtensionsAppend(a: seq<string>, b: seq<string>)
    ensures Extensions(a + b) == Extensions(a) + Extensions(b)
    decreases |b|
  {
    if b == [] {
      assert a + b == a;
    } else {
      var b' := b[..|b| - 1];
      var f := b[|b| - 1];
      assert a + b == (a + b') + [f];
      assert b == b' + [f];
      ExtensionsAppend(a, b');
      ExtensionsSnoc(a + b', f);
      ExtensionsSnoc(b', f);
    }
  }

  /** The set of paths occurring in `s`, collected left to right. */
  function Paths(s: seq<string>): set<string>
  {
    if s == [] then {} else Paths(s[..|s| - 1]) + {s[|s| - 1]}
  }

  lemma {:induction false} PathsMeaning(s: seq<string>)
    ensures Paths(s) == set f | f in s
  {
    if s != [] {
      PathsMeaning(s[..|s| - 1]);
      assert s == s[..|s| - 1] + [s[|s| - 1]];
    }
  }

  /** No more distinct paths than occurrences. */
  lemma {:induction false} PathsBound(s: seq<string>)
    ensures |Paths(s)| <= |s|
  {
    if s != [] {
      PathsBound(s[..|s| - 1]);
      var x := s[|s| - 1];
      var p := Paths(s[..|s| - 1]);
      if x in p {
        assert p + {x} == p;
      } else {
        assert |p + {x}| == |p| + 1;
      }
    }
  }

  lemma PathsSnoc(s: seq<string>, x: string)
    ensures Paths(s + [x]) == Paths(s) + {x}
  {
    assert (s + [x])[..|s|] == s;
  }

  lemma {:induction false} PathsAppend(a: seq<string>, b: seq<string>)
    ensures Paths(a + b) == Paths(a) + Paths(b)
    decreases |b|
  {
    if b == [] {
      assert a + b == a;
    } else {
      var b' := b[..|b| - 1];
      var f := b[|b| - 1];
      assert a + b == (a + b') + [f];
      assert b == b' + [f];
      PathsAppend(a, b');
      PathsSnoc(a + b', f);
      PathsSnoc(b', f);
    }
  }

  /** The distinct changed paths: the `filesSet` of the analysers. */
  function DistinctFiles(commits: seq<CommitInfo>): set<string>
  {
    Paths(AllFiles(commits))
  }

  /** One more commit adds its own files' extensions and paths to the file tallies. */
  lemma CommitFilesSnoc(commits: seq<CommitInfo>, c: CommitInfo)
    ensures Extensions(AllFiles(commits + [c])) == Extensions(AllFiles(commits)) + Extensions(c.changedFiles)
    ensures DistinctFiles(commits + [c]) == DistinctFiles(commits) + Paths(c.changedFiles)
  {
    AllFilesSnoc(commits, c);
    ExtensionsAppend(AllFiles(commits), c.changedFiles);
    PathsAppend(AllFiles(commits), c.changedFiles);
  }

  /** The non-empty `RepoPath` of each commit that has one, in order. */
  function TaggedRepos(commits: seq<CommitInfo>): seq<string>
  {
    if commits == [] then []
    else
      var c := commits[|commits| - 1];
      TaggedRepos(commits[..|commits| - 1]) + (if c.repoPath != "" then [c.repoPath] else [])
  }

  /** No tagged repository is `""`; there are as many as commits exactly when every commit is tagged. */
  lemma {:induction false} TaggedReposBound(commits: seq<CommitInfo>)
    ensures "" !in TaggedRepos(commits)
    ensures |TaggedRepos(commits)| <= |commits|
    ensures |TaggedRepos(commits)| == |commits| <==> forall k :: 0 <= k < |commits| ==> commits[k].repoPath != ""
  {
    if commits != [] {
      var init := commits[..|commits| - 1];
      TaggedReposBound(init);
      if commits[|commits| - 1].repoPath == "" {
        assert |TaggedRepos(commits)| < |commits|;
      } else if |TaggedRepos(commits)| == |commits| {
        assert |TaggedRepos(init)| == |init|;
        forall k | 0 <= k < |commits| ensures commits[k].repoPath != "" {
          if k < |init| { assert commits[k] == init[k]; }
        }
      } else {
        var k :| 0 <= k < |init| && init[k].repoPath == "";
        assert commits[k] == init[k];
      }
    }
  }

  lemma TaggedReposSnoc(commits: seq<CommitInfo>, c: CommitInfo)
    ensures TaggedRepos(commits + [c]) == TaggedRepos(commits) + (if c.repoPath != "" then [c.repoPath] else [])
  {
    assert (commits + [c])[..|commits|] == commits;
  }

  /** The distinct non-empty `RepoPath` values: the `repoSet` of the analysers. */
  function DistinctRepos(commits: seq<CommitInfo>): set<string>
  {
    if commits == [] then {}
    else
      var c := commits[|commits| - 1];
      DistinctRepos(commits[..|commits| - 1]) + (if c.repoPath != "" then {c.repoPath} else {})
  }

  lemma {:induction false} DistinctReposMeaning(commits: seq<CommitInfo>)
    ensures DistinctRepos(commits) == set k | 0 <= k < |commits| && commits[k].repoPath != "" :: commits[k].repoPath
  {
    if commits != [] {
      var init := commits[..|commits| - 1];
      DistinctReposMeaning(init);
      assert commits == init + [commits[|commits| - 1]];
    }
  }

  lemma DistinctReposSnoc(commits: seq<CommitInfo>, c: CommitInfo)
    ensures DistinctRepos(commits + [c]) == DistinctRepos(commits) + (if c.repoPath != "" then {c.repoPath} else {})
  {
    assert (commits + [c])[..|commits|] == commits;
  }

  /** Commit `i` adds its repository, if it has one, to those of the commits before it. */
  lemma DistinctReposPrefixStep(commits: seq<CommitInfo>, i: int)
    requires 0 <= i < |commits|
    ensures DistinctRepos(commits[..i + 1]) == DistinctRepos(commits[..i]) + (if commits[i].repoPath != "" then {commits[i].repoPath} else {})
  {
    assert commits[..i + 1][..i] == commits[..i];
  }

  /** The set of tagged repositories is the key set of their per-repository tally. */
  lemma {:induction false} DistinctReposAreTallyKeys(commits: seq<CommitInfo>)
    ensures DistinctRepos(commits) == Count(TaggedRepos(commits)).Keys
  {
    if commits != [] {
      var init := commits[..|commits| - 1];
      var c := commits[|commits| - 1];
      DistinctReposAreTallyKeys(init);
      if c.repoPath != "" {
        CountSnoc(TaggedRepos(init), c.repoPath);
      } else {
        assert TaggedRepos(commits) == TaggedRepos(init);
      }
    }
  }
}
