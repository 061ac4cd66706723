/** The repository drift report: the local HEAD commit is compared with the
    remote-tracking commit of the configured branch.  Opening the repository,
    resolving references, the ancestry walk and the patch are git I/O; their
    outcomes are inputs here. */
module ApiGit {
  import opened Text
  import opened Wire
  import GitStatusDrawer

  const DefaultBranch := "master"
  const RemoteMissing := "Remote reference not found. Please ensure the repository is synced."

  datatype Commit = Commit(hash: string, message: string, authorName: string, when: int)

  /** Why the local commit could not be loaded. */
  datatype LocalError = OpenFailed(reason: string) | HeadFailed(reason: string) | CommitFailed(reason: string)

  /** What the repository answers.  remote is None when the remote reference or
      its commit object cannot be loaded; behind is local.IsAncestor(remote),
      ahead is remote.IsAncestor(local), each of which may fail; patch is the
      remote-to-local patch text. */
  datatype Repo = Repo(
    local: Result<Commit, LocalError>, remote: Option<Commit>,
    behind: Result<bool, string>, ahead: Result<bool, string>, patch: Result<string, string>)

  datatype Reply = Failed(status: int, error: string) | Report(status: int, body: GitStatusResponse)

  /** An ancestry check counts only when it answers true without error. */
  predicate Holds(check: Result<bool, string>) {
    check.Ok? && check.value
  }

  /** The drift classification of two distinct or equal commits. */
  function Classify(localHash: string, remoteHash: string, behind: Result<bool, string>, ahead: Result<bool, string>): (status: string)
    ensures status == "synced" <==> localHash == remoteHash
    ensures status == "ahead" <==> localHash != remoteHash && Holds(ahead) && !Holds(behind)
    ensures status == "behind" <==> localHash != remoteHash && Holds(behind) && !Holds(ahead)
    ensures status == "diverged" <==> localHash != remoteHash && Holds(ahead) == Holds(behind)
  {
    if localHash == remoteHash then "synced"
    else
      var isLocalBehind := Holds(behind);
      var isLocalAhead := Holds(ahead);
      if isLocalAhead && !isLocalBehind then "ahead"
      else if isLocalBehind && !isLocalAhead then "behind"
      else "diverged"
  }

  /** toCommitInfo: a missing commit stays missing; otherwise its fields are
      copied. */
  function ToCommitInfo(c: Option<Commit>): (info: Option<CommitInfo>)
    ensures info.None? <==> c.None?
    ensures c.Some? ==> info.value.hash == c.value.hash && info.value.message == c.value.message &&
                        info.value.author == c.value.authorName && info.value.timestamp == c.value.when
  {
    if c.None? then None
    else Some(CommitInfo(c.value.hash, c.value.message, c.value.authorName, c.value.when))
  }

  function BranchName(configured: string): (b: string)
    ensures configured != "" ==> b == configured
    ensures configured == "" ==> b == DefaultBranch
  {
    if configured == "" then DefaultBranch else configured
  }

  /** handleGetGitStatus. */
  function GitStatus(configuredBranch: string, repo: Repo): (r: Reply)
    ensures repo.local.Err? <==> r.Failed?
    ensures r.Failed? ==> r.status == 500
    ensures repo.local.Err? && repo.local.error.OpenFailed? ==> r.error == "failed to open repo: " + repo.local.error.reason
    ensures repo.local.Err? && repo.local.error.HeadFailed? ==> r.error == "failed to get HEAD: " + repo.local.error.reason
    ensures repo.local.Err? && repo.local.error.CommitFailed? ==> r.error == "failed to get local commit: " + repo.local.error.reason
    ensures r.Report? ==> r.status == 200 && r.body.branch == BranchName(configuredBranch) && r.body.syncMode == "git"
    ensures r.Report? ==> r.body.localCommit == ToCommitInfo(Some(repo.local.value)) && r.body.remoteCommit == ToCommitInfo(repo.remote)
    ensures r.Report? && repo.remote.None? ==> r.body.status == "error" && r.body.error == RemoteMissing && r.body.diff == ""
    ensures r.Report? && repo.remote.Some? ==>
              r.body.status == Classify(repo.local.value.hash, repo.remote.value.hash, repo.behind, repo.ahead)
    ensures r.Report? && repo.remote.Some? && repo.local.value.hash == repo.remote.value.hash ==>
              r.body.diff == "" && r.body.error == ""
    ensures r.Report? && repo.remote.Some? && repo.local.value.hash != repo.remote.value.hash ==>
              (repo.patch.Ok? ==> r.body.diff == repo.patch.value && r.body.error == "") &&
              (repo.patch.Err? ==> r.body.diff == "" && r.body.error == "failed to generate diff: " + repo.patch.error)
  {
    if repo.local.Err? then
      var e := repo.local.error;
      Failed(500, match e
        case OpenFailed(m) => "failed to open repo: " + m
        case HeadFailed(m) => "failed to get HEAD: " + m
        case CommitFailed(m) => "failed to get local commit: " + m)
    else
      var local := repo.local.value;
      var base := GitStatusResponse(BranchName(configuredBranch), "git", ToCommitInfo(Some(local)), None, "unknown", "", "");
      if repo.remote.None? then
        Report(200, base.(status := "error", error := RemoteMissing))
      else
        var remote := repo.remote.value;
        var withRemote := base.(remoteCommit := ToCommitInfo(repo.remote));
        if local.hash == remote.hash then
          Report(200, withRemote.(status := "synced"))
        else
          var status := Classify(local.hash, remote.hash, repo.behind, repo.ahead);
          if repo.patch.Ok? then
            Report(200, withRemote.(status := status, diff := repo.patch.value))
          else
            Report(200, withRemote.(status := status, error := "failed to generate diff: " + repo.patch.error))
  }

  // ---------------------------------------------------------------------------

  /** The placeholder status "unknown" never reaches the console: every report
      carries one of the five statuses the drawer has a tag for, and the drawer's
      red tags are exactly a missing remote and a diverged history. */
  lemma {:induction false} ReportsAreTagged(configuredBranch: string, repo: Repo)
    requires GitStatus(configuredBranch, repo).Report?
    ensures GitStatusDrawer.StatusTag(GitStatus(configuredBranch, repo).body.status) != GitStatusDrawer.UnknownTag
    ensures GitStatusDrawer.TagColor(GitStatusDrawer.StatusTag(GitStatus(configuredBranch, repo).body.status)) == "error" <==>
              repo.remote.None? || (repo.local.value.hash != repo.remote.value.hash && Holds(repo.ahead) == Holds(repo.behind))
  {
    var s := GitStatus(configuredBranch, repo).body.status;
    GitStatusDrawer.TagsAreDistinct(s);
    if repo.remote.Some? {
      var status := Classify(repo.local.value.hash, repo.remote.value.hash, repo.behind, repo.ahead);
      assert status in {"synced", "ahead", "behind", "diverged"};
    }
  }

  /** An ancestry check that fails is read exactly as a "no". */
  lemma ErrorCountsAsFalse(localHash: string, remoteHash: string, e: string, other: Result<bool, string>)
    ensures Classify(localHash, remoteHash, Err(e), other) == Classify(localHash, remoteHash, Ok(false), other)
    ensures Classify(localHash, remoteHash, other, Err(e)) == Classify(localHash, remoteHash, other, Ok(false))
  {
  }

  /** Swapping the two commits swaps ahead and behind. */
  lemma ClassifySymmetric(localHash: string, remoteHash: string, behind: Result<bool, string>, ahead: Result<bool, string>)
    ensures Classify(localHash, remoteHash, behind, ahead) == "ahead" <==>
            Classify(remoteHash, localHash, ahead, behind) == "behind"
  {
  }
}
