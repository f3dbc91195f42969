/**
 * The GitHub client of the Go version (git/client.go): reading owner and
 * name off a URL path, the star count query with its guard, and the request
 * `UpdateFile` sends.
 *
 * The GraphQL and REST calls are not part of the model: their answers are
 * parameters (`query`, `getBranch`, `getCommit`, `upload`), and the
 * formatted time of the commit message is the parameter `now`.
 */
module GoGit {
  import opened Wrappers
  import opened Text
  import GitHubUrl

  datatype Repo = Repo(owner: string, name: string)

  /** Owner and name as `repoFromPath` reads them: the first two non-empty trimmed segments, or both empty. */
  function RepoOf(path: string): (r: Repo)
    ensures (r.owner == "") == (r.name == "")
    ensures r.owner != "" ==> IsTrimmed(r.owner) && IsTrimmed(r.name) && '/' !in r.owner && '/' !in r.name
  {
    var segs := Segments(path);
    SegmentsHaveNoSlash(path);
    if |segs| > 1 then Repo(segs[0], segs[1]) else Repo("", "")
  }

  /** `repoFromPath`: collect the non-empty trimmed segments, then take the first two if there are two. */
  method RepoFromPath(path: string) returns (owner: string, name: string)
    ensures Repo(owner, name) == RepoOf(path)
    ensures |Segments(path)| > 1 ==> owner == Segments(path)[0] && name == Segments(path)[1]
    ensures |Segments(path)| <= 1 ==> owner == "" && name == ""
  {
    var arr := Split(path, '/');
    var res := KeepSegments(arr);
    owner, name := "", "";
    if |res| > 1 {
      TrimOfTrimmed(res[0]);
      TrimOfTrimmed(res[1]);
      owner := Trim(res[0]);
      name := Trim(res[1]);
    }
  }

  /** The loop of `repoFromPath`: each piece trimmed, the empty ones dropped. */
  method KeepSegments(arr: seq<string>) returns (res: seq<string>)
    ensures res == NonEmptyTrimmed(arr)
  {
    res := [];
    var i := 0;
    while i < |arr|
      invariant 0 <= i <= |arr|
      invariant res == NonEmptyTrimmed(arr[..i])
    {
      var str := Trim(arr[i]);
      KeepSegmentStep(arr, i);
      if str != "" {
        res := res + [str];
      }
      i := i + 1;
    }
    assert arr[..i] == arr;
  }

  /** Segments after the second play no part: `/o/n/tree/main` reads like `/o/n`. */
  lemma ExtraSegmentsIgnored(p: string, q: string)
    requires |Segments(p)| >= 2
    ensures RepoOf(p + "/" + q) == RepoOf(p)
  {
    GitHubUrl.SplitAppend(p, q, '/');
    GitHubUrl.NonEmptyTrimmedAppend(Split(p, '/'), Split(q, '/'));
  }

  /** One more segment: kept trimmed when non-empty after trimming, dropped otherwise. */
  lemma KeepSegmentStep(arr: seq<string>, i: nat)
    requires i < |arr|
    ensures NonEmptyTrimmed(arr[..i + 1]) == NonEmptyTrimmed(arr[..i]) + (if Trim(arr[i]) == "" then [] else [Trim(arr[i])])
  {
    calc {
      NonEmptyTrimmed(arr[..i + 1]);
      { assert arr[..i + 1] == arr[..i] + [arr[i]]; }
      NonEmptyTrimmed(arr[..i] + [arr[i]]);
      { GitHubUrl.NonEmptyTrimmedAppend(arr[..i], [arr[i]]); }
      NonEmptyTrimmed(arr[..i]) + NonEmptyTrimmed([arr[i]]);
      { NonEmptyTrimmedOne(arr[i]); }
      NonEmptyTrimmed(arr[..i]) + (if Trim(arr[i]) == "" then [] else [Trim(arr[i])]);
    }
  }

  lemma NonEmptyTrimmedOne(x: string)
    ensures NonEmptyTrimmed([x]) == if Trim(x) == "" then [] else [Trim(x)]
  {
    assert [x][1..] == [];
  }

  lemma SplitPair(owner: string, name: string)
    requires '/' !in owner && '/' !in name
    ensures Split("/" + owner + "/" + name, '/') == ["", owner, name]
  {
    var tail := owner + "/" + name;
    calc {
      Split("/" + owner + "/" + name, '/');
      { assert "/" + owner + "/" + name == "" + ['/'] + tail; }
      Split("" + ['/'] + tail, '/');
      { SplitAtSeparator("", tail, '/'); }
      [""] + Split(owner + ['/'] + name, '/');
      { SplitAtSeparator(owner, name, '/'); }
      [""] + ([owner] + Split(name, '/'));
      [""] + ([owner] + [name]);
    }
  }

  /**
   * `/owner/name` reads as that owner and name, whatever the name ends in:
   * unlike the TypeScript reader, a trailing `.git` stays on the name.
   */
  lemma OwnerSlashName(owner: string, name: string)
    requires owner != "" && name != "" && IsTrimmed(owner) && IsTrimmed(name)
    requires '/' !in owner && '/' !in name
    ensures RepoOf("/" + owner + "/" + name) == Repo(owner, name)
  {
    SplitPair(owner, name);
    var parts := ["", owner, name];
    TrimOfTrimmed(owner);
    TrimOfTrimmed(name);
    assert parts[1..] == [owner, name];
    assert parts[1..][1..] == [name];
    assert NonEmptyTrimmed(parts[1..][1..]) == [name];
    assert NonEmptyTrimmed(parts[1..]) == [owner, name];
    assert NonEmptyTrimmed(parts) == [owner, name];
  }

  /** Where the TypeScript reader accepts a github.com URL, the Go reader finds the same owner, and the name up to `.git`. */
  lemma AgreesWithTypeScriptReader(href: string, path: string)
    requires GitHubUrl.ParseGitHubRepo(GitHubUrl.Url(href, GitHubUrl.GitHubHost, path)).Some?
    ensures var r := GitHubUrl.ParseGitHubRepo(GitHubUrl.Url(href, GitHubUrl.GitHubHost, path)).value;
            RepoOf(path).owner == r.owner && (RepoOf(path).name == r.name || RepoOf(path).name == r.name + ".git")
  {
    GitHubUrl.ParseGitHubRepoSpec(GitHubUrl.Url(href, GitHubUrl.GitHubHost, path));
  }

  const MissingOwnerOrName := "unable retrieve owner and name"

  /**
   * The star count of the repository a URL path names, or `failure` and an
   * error. `query(owner, name)` stands for the GraphQL stargazer query; it is
   * consulted only when owner and name are both present.
   */
  function StarsOrFailure(path: string, query: (string, string) -> Result<int, string>, failure: int): (r: (int, Option<string>))
    ensures RepoOf(path).owner == "" ==> r == (failure, Some(MissingOwnerOrName))
    ensures r.1.None? <==> RepoOf(path).owner != "" && query(RepoOf(path).owner, RepoOf(path).name).Ok?
    ensures r.1.None? ==> r.0 == query(RepoOf(path).owner, RepoOf(path).name).value
    ensures r.1.Some? ==> r.0 == failure
  {
    var repo := RepoOf(path);
    if repo.owner == "" || repo.name == "" then (failure, Some(MissingOwnerOrName))
    else
      match query(repo.owner, repo.name)
      case Err(e) => (failure, Some("unable fetch repo stars, " + e))
      case Ok(n) => (n, None)
  }

  /** `GetStarsCountFor`: -1 and an error without an owner or a name, -1 and an error when the query fails. */
  function GetStarsCountFor(path: string, query: (string, string) -> Result<int, string>): (r: (int, Option<string>))
    ensures r.1.Some? ==> r.0 == -1
    ensures RepoOf(path).owner == "" ==> r == (-1, Some(MissingOwnerOrName))
    ensures RepoOf(path).owner != "" ==>
              match query(RepoOf(path).owner, RepoOf(path).name)
              case Ok(n) => r == (n, None)
              case Err(e) => r == (-1, Some("unable fetch repo stars, " + e))
  {
    StarsOrFailure(path, query, -1)
  }

  /** Without an owner and a name the answer does not depend on the query at all. */
  lemma GuardSkipsQuery(path: string, q1: (string, string) -> Result<int, string>, q2: (string, string) -> Result<int, string>)
    requires |Segments(path)| < 2
    ensures GetStarsCountFor(path, q1) == GetStarsCountFor(path, q2)
  {
  }

  /** A file of a commit as the REST API lists it; the SHA may be nil. */
  datatype CommitFile = CommitFile(filename: string, sha: Option<string>)

  /** The index of the last file named `fileName`, if any. */
  function LastMatch(files: seq<CommitFile>, fileName: string): (r: Option<nat>)
    ensures r.Some? ==> r.value < |files| && files[r.value].filename == fileName
    ensures r.Some? ==> forall j :: r.value < j < |files| ==> files[j].filename != fileName
    ensures r.None? ==> forall j :: 0 <= j < |files| ==> files[j].filename != fileName
  {
    if files == [] then None
    else if files[|files| - 1].filename == fileName then Some(|files| - 1)
    else LastMatch(files[..|files| - 1], fileName)
  }

  /** The SHA `UpdateFile` sends: that of the last file named `fileName`, or nil. */
  function ShaOf(files: seq<CommitFile>, fileName: string): Option<string> {
    var k := LastMatch(files, fileName);
    if k.Some? then files[k.value].sha else None
  }

  /** The SHA-selection loop of `UpdateFile`: every matching file overwrites the choice. */
  method LastSha(files: seq<CommitFile>, fileName: string) returns (sha: Option<string>)
    ensures sha == ShaOf(files, fileName)
    ensures (forall j :: 0 <= j < |files| ==> files[j].filename != fileName) ==> sha.None?
  {
    sha := None;
    var i := 0;
    while i < |files|
      invariant 0 <= i <= |files|
      invariant sha == ShaOf(files[..i], fileName)
    {
      assert files[..i + 1][..i] == files[..i];
      if files[i].filename == fileName {
        sha := files[i].sha;
      }
      i := i + 1;
    }
    assert files[..i] == files;
  }

  /** A later file of the same name overrides an earlier one. */
  lemma LaterFileWins(files: seq<CommitFile>, fileName: string, f: CommitFile)
    requires f.filename == fileName
    ensures ShaOf(files + [f], fileName) == f.sha
  {
  }

  /** Files of other names never change the choice. */
  lemma OtherFilesIgnored(files: seq<CommitFile>, fileName: string, f: CommitFile)
    requires f.filename != fileName
    ensures ShaOf(files + [f], fileName) == ShaOf(files, fileName)
  {
    assert (files + [f])[..|files|] == files;
  }

  const CommitterName := "awesome list creator"
  const CommitterEmail := "awesomelistcreator@example.com"

  /** `RepositoryContentFileOptions` as `UpdateFile` fills it. */
  datatype FileOptions = FileOptions(message: string, content: string, sha: Option<string>, branch: string,
                                     committerName: string, committerEmail: string)

  /** Where `UpdateFile` writes: a file path in a repository. */
  datatype Target = Target(repo: Repo, path: string)

  /** One `Repositories.UpdateFile` request: the file it writes and the options sent with it. */
  datatype Upload = Upload(target: Target, options: FileOptions)

  /**
   * `UpdateFile`: the head of `branch` in `repo`, then that commit's files in
   * `repo`, then the upload of `fileName` in `repo`, each step's failure
   * reported with its own prefix. `getBranch(repo, branch)` answers with the
   * head commit's SHA and `getCommit(repo, sha)` with that commit's files.
   * On success the result is the request that was uploaded.
   */
  function UpdateFile(repo: Repo, branch: string, fileName: string, update: string, now: string,
                      getBranch: (Repo, string) -> Result<string, string>,
                      getCommit: (Repo, string) -> Result<seq<CommitFile>, string>,
                      upload: Upload -> Option<string>): (r: Result<Upload, string>)
    ensures getBranch(repo, branch).Err? ==> r == Err("failed to get branch, " + getBranch(repo, branch).error)
    ensures getBranch(repo, branch).Ok? && getCommit(repo, getBranch(repo, branch).value).Err? ==>
              r == Err("failed to get last commit, " + getCommit(repo, getBranch(repo, branch).value).error)
    ensures r.Ok? ==> && getBranch(repo, branch).Ok? && getCommit(repo, getBranch(repo, branch).value).Ok?
                      && upload(r.value).None?
    ensures r.Ok? ==> r.value.target == Target(repo, fileName)
    ensures r.Ok? ==> var opts := r.value.options;
                      && opts.sha == ShaOf(getCommit(repo, getBranch(repo, branch).value).value, fileName)
                      && opts.content == update && opts.branch == branch
                      && opts.message == "updated at: " + now
                      && opts.committerName == CommitterName && opts.committerEmail == CommitterEmail
    ensures getBranch(repo, branch).Ok? && getCommit(repo, getBranch(repo, branch).value).Ok? ==>
              var files := getCommit(repo, getBranch(repo, branch).value).value;
              var up := Upload(Target(repo, fileName),
                               FileOptions("updated at: " + now, update, ShaOf(files, fileName), branch,
                                           CommitterName, CommitterEmail));
              && (r.Ok? <==> upload(up).None?)
              && (upload(up).Some? ==> r == Err("failed to upload awesome list with stars, " + upload(up).value))
  {
    match getBranch(repo, branch)
    case Err(e) => Err("failed to get branch, " + e)
    case Ok(head) =>
      match getCommit(repo, head)
      case Err(e) => Err("failed to get last commit, " + e)
      case Ok(files) =>
        var up := Upload(Target(repo, fileName),
                         FileOptions("updated at: " + now, update, ShaOf(files, fileName), branch,
                                     CommitterName, CommitterEmail));
        match upload(up)
        case Some(e) => Err("failed to upload awesome list with stars, " + e)
        case None => Ok(up)
  }
}
