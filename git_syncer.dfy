/** The git syncer's pass: the configured branch's tree is walked, the files
    under a server's directory are written to the store under the git prefix
    (content, hash, commit and meta keys), files whose stored copy is current are
    skipped, and keys under the server's prefix that no selected file accounts
    for are mirror-deleted.  Cloning or pulling the repository and reading the
    tree are outside calls: how far they got is an input, as are the hash
    function and the store operations that fail. */
module GitSyncer {
  import opened Text
  import opened Config
  import SyncUtils
  import ApiGit

  /** A file of the tree: its path and its content, or the read error. */
  datatype TreeFile = TreeFile(name: string, content: Result<string, string>)

  datatype GitCommit = GitCommit(hash: string, message: string)

  /** How far the checkout got: the failing step, or the commit and its
      files, with the error the iterator ended on, if any. */
  datatype Head =
    | RepoFailed(error: string)
    | BranchFailed(error: string)
    | CommitFailed(refHash: string, error: string)
    | TreeFailed(commitHash: string, error: string)
    | Checked(commit: GitCommit, files: seq<TreeFile>, iterErr: Option<string>)

  /** What one pass works with: the key parts, the stored entries read at the
      start, the commit and its meta record, the hash function, the failing
      puts and the ignore patterns. */
  datatype Pass = Pass(keyPrefix: string, group: string, host: string, suffix: string,
                       existing: map<string, string>, commit: GitCommit, meta: string, hash: string -> string,
                       putFails: set<string>, patterns: seq<string>, glob: (string, string) -> bool)

  /** The repository directory of the server: group/host/suffix. */
  function Expected(p: Pass): string {
    JoinPath([p.group, p.host, p.suffix])
  }

  function StorePrefix(p: Pass): string {
    SyncUtils.ServerPrefix(p.keyPrefix, p.group, p.host, p.suffix)
  }

  /** constructEtcdKey: the content key of a file. */
  function FileKey(p: Pass, rel: string): string {
    SyncUtils.ServerKey(p.keyPrefix, p.group, p.host, p.suffix, rel)
  }

  /** The meta record: the commit and its trimmed message (JSON string
      escaping is not modelled). */
  function MetaOf(c: GitCommit): string {
    "{\"commit\":\"" + c.hash + "\",\"message\":\"" + TrimSpace(c.message) + "\"}"
  }

  /** The file's path under the server's directory, when it is not ignored
      and lies there. */
  function Selected(p: Pass, f: TreeFile): Option<string> {
    if SyncUtils.Ignored(f.name, p.patterns, p.glob) then None else SyncUtils.RelUnder(f.name, Expected(p))
  }

  /** The writes for one file: the content first; the hash, the commit and
      the meta only when the content put succeeded. */
  function WriteFile(p: Pass, store: map<string, string>, rel: string, content: string): map<string, string> {
    var key := FileKey(p, rel);
    if key in p.putFails then store
    else
      var s1 := store[key := content];
      var s2 := SyncUtils.Put(s1, key + ".hash", p.hash(content), p.putFails);
      var s3 := SyncUtils.Put(s2, key + ".commit", p.commit.hash, p.putFails);
      SyncUtils.Put(s3, key + ".meta", p.meta, p.putFails)
  }

  /** One file's effect on the store. */
  function StoreAfter(p: Pass, store: map<string, string>, f: TreeFile): map<string, string> {
    match Selected(p, f)
    case None => store
    case Some(rel) =>
      if f.content.Err? || SyncUtils.Current(p.existing, FileKey(p, rel), p.hash(f.content.value)) then store
      else WriteFile(p, store, rel, f.content.value)
  }

  /** The store after the files, in tree order. */
  function Stored(p: Pass, store: map<string, string>, files: seq<TreeFile>): map<string, string>
    decreases |files|
  {
    if |files| == 0 then store
    else StoreAfter(p, Stored(p, store, files[..|files| - 1]), files[|files| - 1])
  }

  /** The selected paths, in tree order: readable or not. */
  function Desired(p: Pass, files: seq<TreeFile>): (r: seq<string>)
    ensures |r| <= |files|
    ensures forall k :: 0 <= k < |r| ==> r[k] != ""
    decreases |files|
  {
    if |files| == 0 then []
    else
      var init := Desired(p, files[..|files| - 1]);
      var f := files[|files| - 1];
      if Selected(p, f).Some? then init + [Selected(p, f).value] else init
  }

  /** The path checks of the loop: ignored files and files outside the
      server's directory are skipped. */
  method SelectFile(p: Pass, f: TreeFile) returns (rel: Option<string>)
    ensures rel == Selected(p, f)
  {
    var expected := Expected(p);
    var ignored := SyncUtils.IsIgnored(f.name, p.patterns, p.glob);
    if ignored || !HasPrefix(f.name, expected) {
      return None;
    }
    var r := TrimPrefix(TrimPrefix(f.name, expected), "/");
    if r == "" {
      return None;
    }
    return Some(r);
  }

  /** The puts for a file that is not current: nothing when the content put
      fails; otherwise the hash, the commit and the meta follow. */
  method WriteChanged(p: Pass, store: map<string, string>, rel: string, content: string)
    returns (after: map<string, string>)
    ensures after == WriteFile(p, store, rel, content)
  {
    var key := FileKey(p, rel);
    if key in p.putFails {
      return store;
    }
    after := store[key := content];
    after := SyncUtils.Put(after, key + ".hash", p.hash(content), p.putFails);
    after := SyncUtils.Put(after, key + ".commit", p.commit.hash, p.putFails);
    after := SyncUtils.Put(after, key + ".meta", p.meta, p.putFails);
  }

  /** One file of the loop: a selected file is desired, and written unless
      it is unreadable or its stored copy is current. */
  method VisitFile(p: Pass, store: map<string, string>, desired: seq<string>, f: TreeFile)
    returns (after: map<string, string>, desired': seq<string>)
    ensures after == StoreAfter(p, store, f)
    ensures desired' == desired + (if Selected(p, f).Some? then [Selected(p, f).value] else [])
  {
    after, desired' := store, desired;
    var sel := SelectFile(p, f);
    if sel.None? {
      return;
    }
    var rel := sel.value;
    desired' := desired + [rel];
    if f.content.Err? {
      return;
    }
    var content := f.content.value;
    var h := p.hash(content);
    var key := FileKey(p, rel);
    var existingHash := if key + ".hash" in p.existing then p.existing[key + ".hash"] else "";
    if existingHash == h && key in p.existing {
      return;
    }
    after := WriteChanged(p, store, rel, content);
  }

  /** The loop over the tree's files. */
  method WalkTree(p: Pass, store: map<string, string>, files: seq<TreeFile>)
    returns (after: map<string, string>, desired: seq<string>)
    ensures after == Stored(p, store, files) && desired == Desired(p, files)
  {
    after, desired := store, [];
    var i := 0;
    while i < |files|
      invariant 0 <= i <= |files|
      invariant after == Stored(p, store, files[..i]) && desired == Desired(p, files[..i])
    {
      assert files[..i + 1][..i] == files[..i];
      after, desired := VisitFile(p, after, desired, files[i]);
      i := i + 1;
    }
    assert files[..i] == files;
  }

  /** The pass for one server.  An empty configuration directory makes it a
      no-op; a failed checkout step or store read ends it with that step's
      error; an iteration error ends it after the files before it, without
      the mirror delete; a failed mirror delete is only logged. */
  method Sync(keyPrefix: string, group: string, srv: ServerConfig, branch: string, head: Head,
              patterns: seq<string>, glob: (string, string) -> bool, hash: string -> string,
              store: map<string, string>, faults: SyncUtils.StoreFaults)
    returns (err: Option<string>, after: map<string, string>)
    ensures srv.nginxConfigDir == "" ==> err.None? && after == store
    ensures srv.nginxConfigDir != "" && !head.Checked? ==> after == store
    ensures srv.nginxConfigDir != "" && head.RepoFailed? ==> err == Some("failed to sync git repo: " + head.error)
    ensures srv.nginxConfigDir != "" && head.BranchFailed? ==>
              err == Some("failed to get branch " + ApiGit.BranchName(branch) + ": " + head.error)
    ensures srv.nginxConfigDir != "" && head.CommitFailed? ==>
              err == Some("failed to get commit object " + head.refHash + ": " + head.error)
    ensures srv.nginxConfigDir != "" && head.TreeFailed? ==>
              err == Some("failed to get tree from commit " + head.commitHash + ": " + head.error)
    ensures srv.nginxConfigDir != "" && head.Checked? && faults.readErr.Some? ==>
              err == Some("failed to get existing keys from etcd: " + faults.readErr.value) && after == store
    ensures srv.nginxConfigDir != "" && head.Checked? && faults.readErr.None? ==>
              var p := PassOf(keyPrefix, group, srv, head.commit, patterns, glob, hash, store, faults);
              var written := Stored(p, store, head.files);
              (head.iterErr.Some? ==> err == Some("failed to iterate tree files: " + head.iterErr.value) && after == written) &&
              (head.iterErr.None? ==>
                 err.None? && after == SyncUtils.MirrorOutcome(written, StorePrefix(p), Desired(p, head.files), faults))
  {
    if srv.nginxConfigDir == "" {
      return None, store;
    }
    match head {
      case RepoFailed(e) => return Some("failed to sync git repo: " + e), store;
      case BranchFailed(e) =>
        var name := if branch == "" then "master" else branch;
        return Some("failed to get branch " + name + ": " + e), store;
      case CommitFailed(h, e) => return Some("failed to get commit object " + h + ": " + e), store;
      case TreeFailed(h, e) => return Some("failed to get tree from commit " + h + ": " + e), store;
      case Checked(commit, files, iterErr) =>
        if faults.readErr.Some? {
          return Some("failed to get existing keys from etcd: " + faults.readErr.value), store;
        }
        var p := PassOf(keyPrefix, group, srv, commit, patterns, glob, hash, store, faults);
        var written, desired := WalkTree(p, store, files);
        if iterErr.Some? {
          return Some("failed to iterate tree files: " + iterErr.value), written;
        }
        after := SyncUtils.Mirror(written, StorePrefix(p), desired, faults);
        err := None;
    }
  }

  /** The entries of the store under the server's prefix, read at the start. */
  function PassOf(keyPrefix: string, group: string, srv: ServerConfig, commit: GitCommit,
                  patterns: seq<string>, glob: (string, string) -> bool, hash: string -> string,
                  store: map<string, string>, faults: SyncUtils.StoreFaults): (p: Pass)
    ensures p.suffix == Base(srv.nginxConfigDir) && p.host == srv.host
    ensures p.commit == commit && p.meta == MetaOf(commit)
    ensures forall k :: k in p.existing <==> k in store && HasPrefix(k, StorePrefix(p))
  {
    var suffix := Base(srv.nginxConfigDir);
    var prefix := JoinPath([keyPrefix, group, srv.host, suffix]);
    Pass(keyPrefix, group, srv.host, suffix, map k | k in store && HasPrefix(k, prefix) :: store[k],
         commit, MetaOf(commit), hash, faults.putFails, patterns, glob)
  }

  // ---------------------------------------------------------------------------

  /** Each file's selection, in order. */
  function Selections(p: Pass, files: seq<TreeFile>): (r: seq<Option<string>>)
    ensures |r| == |files|
    decreases |files|
  {
    if |files| == 0 then [] else Selections(p, files[..|files| - 1]) + [Selected(p, files[|files| - 1])]
  }

  lemma {:induction false} SelectionsAt(p: Pass, files: seq<TreeFile>, i: int)
    requires 0 <= i < |files|
    ensures Selections(p, files)[i] == Selected(p, files[i])
    decreases |files|
  {
    if i < |files| - 1 {
      SelectionsAt(p, files[..|files| - 1], i);
    }
  }

  /** The desired paths are the names the selections pick. */
  lemma {:induction false} DesiredPicked(p: Pass, files: seq<TreeFile>)
    ensures Desired(p, files) == SyncUtils.Picked(Selections(p, files))
    decreases |files|
  {
    if |files| > 0 {
      DesiredPicked(p, files[..|files| - 1]);
      var s := Selections(p, files);
      assert s[..|s| - 1] == Selections(p, files[..|files| - 1]);
    }
  }

  /** Every selected path is desired, readable or not, and nothing else. */
  lemma DesiredMeaning(p: Pass, files: seq<TreeFile>, rel: string)
    ensures rel in Desired(p, files) <==> exists i :: 0 <= i < |files| && Picks(p, files[i], rel)
  {
    DesiredPicked(p, files);
    var s := Selections(p, files);
    SyncUtils.PickedMeaning(s, rel);
    if Some(rel) in s {
      var i :| 0 <= i < |s| && s[i] == Some(rel);
      SelectionsAt(p, files, i);
      assert Picks(p, files[i], rel);
    }
    if exists i :: 0 <= i < |files| && Picks(p, files[i], rel) {
      var i :| 0 <= i < |files| && Picks(p, files[i], rel);
      SelectionsAt(p, files, i);
      assert s[i] == Some(rel);
    }
  }

  /** A selected path. */
  predicate Picks(p: Pass, f: TreeFile, rel: string) {
    Selected(p, f) == Some(rel)
  }

  /** One selected, readable file: a current copy is left alone; otherwise a
      failed content put writes nothing, and a successful one stores the
      content and, where their puts succeed, the hash, the commit and the
      meta. */
  lemma FileWrites(p: Pass, store: map<string, string>, f: TreeFile, rel: string)
    requires Selected(p, f) == Some(rel) && f.content.Ok?
    ensures var key := FileKey(p, rel);
            var h := p.hash(f.content.value);
            var after := StoreAfter(p, store, f);
            (SyncUtils.Current(p.existing, key, h) ==> after == store) &&
            (!SyncUtils.Current(p.existing, key, h) && key in p.putFails ==> after == store) &&
            (!SyncUtils.Current(p.existing, key, h) && key !in p.putFails ==>
               key in after && after[key] == f.content.value &&
               (key + ".hash" !in p.putFails ==> key + ".hash" in after && after[key + ".hash"] == h) &&
               (key + ".commit" !in p.putFails ==> key + ".commit" in after && after[key + ".commit"] == p.commit.hash) &&
               (key + ".meta" !in p.putFails ==> key + ".meta" in after && after[key + ".meta"] == p.meta))
  {
    SyncUtils.CompanionsDiffer(FileKey(p, rel));
  }

  /** The mirror delete never removes the keys of a desired file, readable
      or not: its content, hash, commit and meta keys are all allowed. */
  lemma DesiredFileKept(p: Pass, files: seq<TreeFile>, rel: string)
    requires rel in Desired(p, files) && p.suffix != ""
    ensures var key := FileKey(p, rel);
            var allowed := SyncUtils.AllowedFrom(StorePrefix(p), Desired(p, files));
            key in allowed && key + ".hash" in allowed && key + ".commit" in allowed && key + ".meta" in allowed
  {
    var i :| 0 <= i < |Desired(p, files)| && Desired(p, files)[i] == rel;
    SyncUtils.ServerKeyUnderPrefix(p.keyPrefix, p.group, p.host, p.suffix, rel);
    SyncUtils.DesiredKeysAllowed(StorePrefix(p), Desired(p, files), i);
  }

  /** A file's writes touch only its content key and its three companions. */
  lemma WriteFileKeepsOthers(p: Pass, store: map<string, string>, rel: string, content: string, k: string)
    requires k != FileKey(p, rel) && k != FileKey(p, rel) + ".hash"
    requires k != FileKey(p, rel) + ".commit" && k != FileKey(p, rel) + ".meta"
    ensures k in WriteFile(p, store, rel, content) <==> k in store
    ensures k in store ==> WriteFile(p, store, rel, content)[k] == store[k]
  {
    var key := FileKey(p, rel);
    if key !in p.putFails {
      var s1 := store[key := content];
      var s2 := SyncUtils.Put(s1, key + ".hash", p.hash(content), p.putFails);
      var s3 := SyncUtils.Put(s2, key + ".commit", p.commit.hash, p.putFails);
      var s4 := SyncUtils.Put(s3, key + ".meta", p.meta, p.putFails);
      assert WriteFile(p, store, rel, content) == s4;
      assert (k in s4 <==> k in s3) && (k in s3 <==> k in s2) && (k in s2 <==> k in s1);
    }
  }

  /** One file changes no key outside the server's prefix. */
  lemma StepKeepsOutside(p: Pass, store: map<string, string>, f: TreeFile, k: string)
    requires p.suffix != "" && !HasPrefix(k, StorePrefix(p))
    ensures k in StoreAfter(p, store, f) <==> k in store
    ensures k in store ==> StoreAfter(p, store, f)[k] == store[k]
  {
    var sel := Selected(p, f);
    if sel.Some? && f.content.Ok? {
      var rel := sel.value;
      SyncUtils.ServerKeyUnderPrefix(p.keyPrefix, p.group, p.host, p.suffix, rel);
      SyncUtils.CompanionsUnderPrefix(StorePrefix(p), rel);
      WriteFileKeepsOthers(p, store, rel, f.content.value, k);
    }
  }

  /** A pass changes no key outside the server's prefix: other servers'
      files and other prefixes are left as they were. */
  lemma {:induction false} PassKeepsOutside(p: Pass, store: map<string, string>, files: seq<TreeFile>, k: string)
    requires p.suffix != "" && !HasPrefix(k, StorePrefix(p))
    ensures k in Stored(p, store, files) <==> k in store
    ensures k in store ==> Stored(p, store, files)[k] == store[k]
    decreases |files|
  {
    if |files| > 0 {
      PassKeepsOutside(p, store, files[..|files| - 1], k);
      StepKeepsOutside(p, Stored(p, store, files[..|files| - 1]), files[|files| - 1], k);
    }
  }
}
