/** Copying a prefix of the key-value store to a host's directory: the store's
    files are collected, remote files the store lacks are deleted (the first failed
    deletion aborts), and every store file is uploaded unless the remote copy has
    the same hash.  The store read, the remote listing, the hash function and the
    failures of single deletions and writes are inputs; the uploads, which the
    original runs concurrently, run here one after another in a given order. */
module Scp {
  import opened Text

  datatype KeyValue = KeyValue(key: string, value: string)

  datatype ScpResult = ScpResult(
    total: int, skipped: int, updated: int, added: int, deleted: int,
    updatedFiles: seq<string>, addedFiles: seq<string>, deletedFiles: seq<string>)

  /** Keys that describe a file rather than hold one. */
  predicate IsMetaKey(key: string) {
    HasSuffix(key, ".hash") || HasSuffix(key, ".commit") || HasSuffix(key, ".meta")
  }

  /** A key's path below the prefix: the prefix and then one "/" removed. */
  function RelPath(key: string, prefix: string): string {
    TrimPrefix(TrimPrefix(key, prefix), "/")
  }

  predicate IsFileKey(key: string, prefix: string) {
    !IsMetaKey(key) && RelPath(key, prefix) != ""
  }

  /** The files to copy: relative path to content, a later key overwriting an
      earlier one with the same relative path. */
  function FilesOf(kvs: seq<KeyValue>, prefix: string): map<string, string>
    decreases |kvs|
  {
    if |kvs| == 0 then map[]
    else
      var files := FilesOf(kvs[..|kvs| - 1], prefix);
      var kv := kvs[|kvs| - 1];
      if IsFileKey(kv.key, prefix) then files[RelPath(kv.key, prefix) := kv.value] else files
  }

  /** The collecting loop. */
  method CollectFiles(kvs: seq<KeyValue>, prefix: string) returns (files: map<string, string>)
    ensures files == FilesOf(kvs, prefix)
  {
    files := map[];
    var i := 0;
    while i < |kvs|
      invariant 0 <= i <= |kvs|
      invariant files == FilesOf(kvs[..i], prefix)
    {
      assert kvs[..i + 1][..i] == kvs[..i];
      var key := kvs[i].key;
      if HasSuffix(key, ".hash") || HasSuffix(key, ".commit") || HasSuffix(key, ".meta") {
        i := i + 1;
        continue;
      }
      var rel := TrimPrefix(key, prefix);
      rel := TrimPrefix(rel, "/");
      if rel == "" {
        i := i + 1;
        continue;
      }
      files := files[rel := kvs[i].value];
      i := i + 1;
    }
    assert kvs[..i] == kvs;
  }

  /** What one key contributes: its relative path when it is a file key. */
  function KeySel(kv: KeyValue, prefix: string): Option<string> {
    if IsFileKey(kv.key, prefix) then Some(RelPath(kv.key, prefix)) else None
  }

  /** Each key's contribution, in order. */
  function KeySels(kvs: seq<KeyValue>, prefix: string): (r: seq<Option<string>>)
    ensures |r| == |kvs|
    decreases |kvs|
  {
    if |kvs| == 0 then [] else KeySels(kvs[..|kvs| - 1], prefix) + [KeySel(kvs[|kvs| - 1], prefix)]
  }

  lemma {:induction false} KeySelsAt(kvs: seq<KeyValue>, prefix: string, i: int)
    requires 0 <= i < |kvs|
    ensures KeySels(kvs, prefix)[i] == KeySel(kvs[i], prefix)
    decreases |kvs|
  {
    if i < |kvs| - 1 {
      KeySelsAt(kvs[..|kvs| - 1], prefix, i);
    }
  }

  /** The files to copy are the paths the keys contribute. */
  lemma {:induction false} FilesOfSels(kvs: seq<KeyValue>, prefix: string, rel: string)
    ensures rel in FilesOf(kvs, prefix) <==> Some(rel) in KeySels(kvs, prefix)
    decreases |kvs|
  {
    if |kvs| > 0 {
      var init := kvs[..|kvs| - 1];
      FilesOfSels(init, prefix, rel);
      assert KeySels(kvs, prefix) == KeySels(init, prefix) + [KeySel(kvs[|kvs| - 1], prefix)];
    }
  }

  /** A relative path is a file to copy iff some non-metadata key yields it. */
  lemma FilesOfKeys(kvs: seq<KeyValue>, prefix: string, rel: string)
    ensures rel in FilesOf(kvs, prefix) <==>
              exists k :: 0 <= k < |kvs| && IsFileKey(kvs[k].key, prefix) && RelPath(kvs[k].key, prefix) == rel
  {
    FilesOfSels(kvs, prefix, rel);
    var s := KeySels(kvs, prefix);
    if Some(rel) in s {
      var k :| 0 <= k < |s| && s[k] == Some(rel);
      KeySelsAt(kvs, prefix, k);
      assert IsFileKey(kvs[k].key, prefix) && RelPath(kvs[k].key, prefix) == rel;
    }
    if exists k :: 0 <= k < |kvs| && IsFileKey(kvs[k].key, prefix) && RelPath(kvs[k].key, prefix) == rel {
      var k :| 0 <= k < |kvs| && IsFileKey(kvs[k].key, prefix) && RelPath(kvs[k].key, prefix) == rel;
      KeySelsAt(kvs, prefix, k);
      assert s[k] == Some(rel);
    }
  }

  // ---------------------------------------------------------------------------
  // Deleting remote files the store lacks.

  /** The remote paths, in listing order, that are not files to copy. */
  function Extra(order: seq<string>, files: map<string, string>): (r: seq<string>)
    ensures forall x :: x in r <==> x in order && x !in files
    decreases |order|
  {
    if |order| == 0 then []
    else
      var init := Extra(order[..|order| - 1], files);
      var x := order[|order| - 1];
      assert forall y :: y in order <==> y in order[..|order| - 1] || y == x;
      if x in files then init else init + [x]
  }

  /** The next remote path joins the extra ones exactly when the store lacks
      it. */
  lemma ExtraStep(order: seq<string>, i: int, files: map<string, string>)
    requires 0 <= i < |order|
    ensures Extra(order[..i + 1], files)
         == if order[i] in files then Extra(order[..i], files) else Extra(order[..i], files) + [order[i]]
  {
    assert order[..i + 1][..i] == order[..i];
  }

  method PlanDeletes(order: seq<string>, files: map<string, string>) returns (toDelete: seq<string>)
    ensures toDelete == Extra(order, files)
  {
    toDelete := [];
    var i := 0;
    while i < |order|
      invariant 0 <= i <= |order|
      invariant toDelete == Extra(order[..i], files)
    {
      ExtraStep(order, i, files);
      if order[i] !in files {
        toDelete := toDelete + [order[i]];
      }
      i := i + 1;
    }
    assert order[..i] == order;
  }

  /** The index of the first path whose deletion fails, or the length when none
      does. */
  function FirstFailure(paths: seq<string>, fails: set<string>): (n: nat)
    ensures n <= |paths|
    ensures forall k :: 0 <= k < n ==> paths[k] !in fails
    ensures n < |paths| ==> paths[n] in fails
    decreases |paths|
  {
    if |paths| == 0 then 0
    else if paths[0] in fails then 0
    else 1 + FirstFailure(paths[1..], fails)
  }

  /** The deletion loop: paths are removed in order until one fails. */
  method DeleteExtra(toDelete: seq<string>, fails: set<string>, remote: map<string, string>)
    returns (deleted: seq<string>, failed: bool, after: map<string, string>)
    ensures deleted == toDelete[..FirstFailure(toDelete, fails)]
    ensures failed <==> FirstFailure(toDelete, fails) < |toDelete|
    ensures after == remote - (set x | x in deleted)
  {
    deleted, failed, after := [], false, remote;
    var i := 0;
    while i < |toDelete|
      invariant 0 <= i <= |toDelete| && i <= FirstFailure(toDelete, fails)
      invariant deleted == toDelete[..i]
      invariant after == remote - (set x | x in deleted)
    {
      if toDelete[i] in fails {
        failed := true;
        return;
      }
      assert i != FirstFailure(toDelete, fails);
      after := after - {toDelete[i]};
      deleted := deleted + [toDelete[i]];
      i := i + 1;
    }
  }

  // ---------------------------------------------------------------------------
  // Uploading.

  /** What happens to one file to copy. */
  datatype Outcome = Skip | Update | Add | Fail

  /** Everything that decides the uploads: the files, the remote listing taken
      before any deletion, the content hash, and the paths whose directory
      creation or write fails. */
  datatype Env = Env(files: map<string, string>, remote: map<string, string>, hash: string -> string, writeFails: set<string>)

  /** Skipped iff the remote has it with the same hash; otherwise written, as an
      update iff the remote had it, unless the write fails. */
  function OutcomeOf(env: Env, rel: string): Outcome
    requires rel in env.files
  {
    if rel in env.remote && env.remote[rel] == env.hash(env.files[rel]) then Skip
    else if rel in env.writeFails then Fail
    else if rel in env.remote then Update
    else Add
  }

  predicate AllFiles(env: Env, rels: seq<string>) {
    forall k :: 0 <= k < |rels| ==> rels[k] in env.files
  }

  /** The paths among rels with the given outcome, in order. */
  function Select(env: Env, rels: seq<string>, o: Outcome): (r: seq<string>)
    requires AllFiles(env, rels)
    ensures |r| <= |rels|
    decreases |rels|
  {
    if |rels| == 0 then []
    else
      var r := Select(env, rels[..|rels| - 1], o);
      if OutcomeOf(env, rels[|rels| - 1]) == o then r + [rels[|rels| - 1]] else r
  }

  /** A path is selected iff it is among rels and has that outcome. */
  lemma {:induction false} SelectMembers(env: Env, rels: seq<string>, o: Outcome, x: string)
    requires AllFiles(env, rels)
    ensures x in Select(env, rels, o) <==> x in rels && OutcomeOf(env, x) == o
    decreases |rels|
  {
    if |rels| > 0 {
      var init := rels[..|rels| - 1];
      SelectMembers(env, init, o, x);
      assert x in rels <==> x in init || x == rels[|rels| - 1];
    }
  }

  /** The remote tree after the writes of rels, starting from m. */
  function Written(env: Env, m: map<string, string>, rels: seq<string>): map<string, string>
    requires AllFiles(env, rels)
    decreases |rels|
  {
    if |rels| == 0 then m
    else
      var init := rels[..|rels| - 1];
      var x := rels[|rels| - 1];
      var w := Written(env, m, init);
      var o := OutcomeOf(env, x);
      if o == Update || o == Add then w[x := env.hash(env.files[x])] else w
  }

  /** One more path joins the selection of its own outcome and, when copied,
      the written map. */
  lemma UploadStep(env: Env, order: seq<string>, i: int, start: map<string, string>)
    requires AllFiles(env, order) && 0 <= i < |order|
    ensures AllFiles(env, order[..i]) && AllFiles(env, order[..i + 1])
    ensures |Select(env, order[..i + 1], Skip)|
         == if OutcomeOf(env, order[i]) == Skip then |Select(env, order[..i], Skip)| + 1
            else |Select(env, order[..i], Skip)|
    ensures Select(env, order[..i + 1], Update)
         == if OutcomeOf(env, order[i]) == Update then Select(env, order[..i], Update) + [order[i]]
            else Select(env, order[..i], Update)
    ensures Select(env, order[..i + 1], Add)
         == if OutcomeOf(env, order[i]) == Add then Select(env, order[..i], Add) + [order[i]]
            else Select(env, order[..i], Add)
    ensures Select(env, order[..i + 1], Fail)
         == if OutcomeOf(env, order[i]) == Fail then Select(env, order[..i], Fail) + [order[i]]
            else Select(env, order[..i], Fail)
    ensures Written(env, start, order[..i + 1])
         == if OutcomeOf(env, order[i]) in {Update, Add}
            then Written(env, start, order[..i])[order[i] := env.hash(env.files[order[i]])]
            else Written(env, start, order[..i])
  {
    assert order[..i + 1][..i] == order[..i];
  }

  /** One turn of the upload loop: the path lands in the tally of its outcome,
      and a copied path's hash is written. */
  method UploadOne(env: Env, rel: string, skipped0: nat, updated0: seq<string>, added0: seq<string>,
                   failures0: seq<string>, after0: map<string, string>)
    returns (skipped: nat, updated: seq<string>, added: seq<string>, failures: seq<string>, after: map<string, string>)
    requires rel in env.files
    ensures skipped == if OutcomeOf(env, rel) == Skip then skipped0 + 1 else skipped0
    ensures updated == if OutcomeOf(env, rel) == Update then updated0 + [rel] else updated0
    ensures added == if OutcomeOf(env, rel) == Add then added0 + [rel] else added0
    ensures failures == if OutcomeOf(env, rel) == Fail then failures0 + [rel] else failures0
    ensures after == if OutcomeOf(env, rel) in {Update, Add} then after0[rel := env.hash(env.files[rel])] else after0
  {
    skipped, updated, added, failures, after := skipped0, updated0, added0, failures0, after0;
    var localHash := env.hash(env.files[rel]);
    var present := rel in env.remote;
    if present && env.remote[rel] == localHash {
      skipped := skipped + 1;
    } else if rel in env.writeFails {
      failures := failures + [rel];
    } else {
      after := after[rel := localHash];
      if present {
        updated := updated + [rel];
      } else {
        added := added + [rel];
      }
    }
  }

  /** The upload loop, in the given order. */
  method UploadAll(env: Env, order: seq<string>, start: map<string, string>)
    returns (skipped: nat, updated: seq<string>, added: seq<string>, failures: seq<string>, after: map<string, string>)
    requires AllFiles(env, order)
    ensures skipped == |Select(env, order, Skip)|
    ensures updated == Select(env, order, Update) && added == Select(env, order, Add)
    ensures failures == Select(env, order, Fail)
    ensures after == Written(env, start, order)
  {
    skipped, updated, added, failures, after := 0, [], [], [], start;
    var i := 0;
    while i < |order|
      invariant 0 <= i <= |order|
      invariant AllFiles(env, order[..i])
      invariant skipped == |Select(env, order[..i], Skip)|
      invariant updated == Select(env, order[..i], Update) && added == Select(env, order[..i], Add)
      invariant failures == Select(env, order[..i], Fail)
      invariant after == Written(env, start, order[..i])
    {
      UploadStep(env, order, i, start);
      skipped, updated, added, failures, after := UploadOne(env, order[i], skipped, updated, added, failures, after);
      i := i + 1;
    }
    assert order[..i] == order;
  }

  // ---------------------------------------------------------------------------

  /** The outcome of one copy: the counters, an error when one occurred, and the
      remote tree afterwards as path to hash. */
  datatype Run = Run(result: ScpResult, err: Option<string>, remoteAfter: map<string, string>, uploadsStarted: bool)

  /** A sequence lists a set when its elements are distinct and are exactly the
      set's members (the iteration order of a Go map). */
  ghost predicate Enumerates(order: seq<string>, s: set<string>) {
    (forall i, j :: 0 <= i < j < |order| ==> order[i] != order[j]) &&
    (forall x :: x in order <==> x in s)
  }

  /** ScpEtcdToRemote.  kvs is the store read under the prefix (or its error),
      listing the remote tree (or its error); remoteOrder and fileOrder are the
      orders in which the two maps are walked. */
  method Copy(kvs: Result<seq<KeyValue>, string>, prefix: string, baseDir: string,
              listing: Result<map<string, string>, string>, remoteOrder: seq<string>, fileOrder: seq<string>,
              hash: string -> string, removeFails: set<string>, writeFails: set<string>)
    returns (run: Run)
    requires kvs.Ok? && listing.Ok? ==> Enumerates(remoteOrder, listing.value.Keys)
    requires kvs.Ok? ==> Enumerates(fileOrder, FilesOf(kvs.value, prefix).Keys)
    ensures kvs.Err? ==> run.err == Some("failed to get files from etcd: " + kvs.error) && !run.uploadsStarted
    ensures kvs.Ok? ==> run.result.total == |FilesOf(kvs.value, prefix)|
    ensures kvs.Ok? && listing.Err? ==> run.err == Some("failed to list remote files: " + listing.error) && !run.uploadsStarted
    ensures kvs.Ok? && listing.Ok? ==>
              var extra := Extra(remoteOrder, FilesOf(kvs.value, prefix));
              var n := FirstFailure(extra, removeFails);
              run.result.deletedFiles == extra[..n] && run.result.deleted == n &&
              (n < |extra| ==> run.err == Some("failed to delete remote file " + JoinPath([baseDir, extra[n]])) &&
                               !run.uploadsStarted)
    ensures kvs.Ok? && listing.Ok? && FirstFailure(Extra(remoteOrder, FilesOf(kvs.value, prefix)), removeFails) ==
              |Extra(remoteOrder, FilesOf(kvs.value, prefix))| ==>
              var env := Env(FilesOf(kvs.value, prefix), listing.value, hash, writeFails);
              run.uploadsStarted &&
              run.result.skipped == |Select(env, fileOrder, Skip)| &&
              run.result.updatedFiles == Select(env, fileOrder, Update) && run.result.updated == |run.result.updatedFiles| &&
              run.result.addedFiles == Select(env, fileOrder, Add) && run.result.added == |run.result.addedFiles| &&
              (run.err.None? <==> Select(env, fileOrder, Fail) == []) &&
              run.remoteAfter == Written(env, listing.value - (set x | x in Extra(remoteOrder, env.files)), fileOrder)
  {
    var result := ScpResult(0, 0, 0, 0, 0, [], [], []);
    if kvs.Err? {
      return Run(result, Some("failed to get files from etcd: " + kvs.error), map[], false);
    }
    var files := CollectFiles(kvs.value, prefix);
    result := result.(total := |files|);
    if listing.Err? {
      return Run(result, Some("failed to list remote files: " + listing.error), map[], false);
    }
    var remote := listing.value;
    var toDelete := PlanDeletes(remoteOrder, files);
    var deleted, failed, after := DeleteExtra(toDelete, removeFails, remote);
    result := result.(deleted := |deleted|, deletedFiles := deleted);
    if failed {
      var bad := toDelete[|deleted|];
      return Run(result, Some("failed to delete remote file " + JoinPath([baseDir, bad])), after, false);
    }
    assert deleted == toDelete;
    var env := Env(files, remote, hash, writeFails);
    var skipped, updated, added, failures, written := UploadAll(env, fileOrder, after);
    result := result.(skipped := skipped, updated := |updated|, added := |added|,
                      updatedFiles := updated, addedFiles := added);
    if |failures| > 0 {
      return Run(result, Some("failed to write remote file " + JoinPath([baseDir, failures[0]])), written, true);
    }
    return Run(result, None, written, true);
  }

  // ---------------------------------------------------------------------------

  /** Every file has exactly one outcome, so the four selections together are
      as long as the list. */
  lemma {:induction false} SelectPartition(env: Env, rels: seq<string>)
    requires AllFiles(env, rels)
    ensures |Select(env, rels, Skip)| + |Select(env, rels, Update)| + |Select(env, rels, Add)| +
            |Select(env, rels, Fail)| == |rels|
    decreases |rels|
  {
    if |rels| > 0 {
      SelectPartition(env, rels[..|rels| - 1]);
    }
  }

  /** A list of distinct elements has as many elements as the set it lists. */
  lemma {:induction false} EnumerationSize(order: seq<string>, s: set<string>)
    requires Enumerates(order, s)
    ensures |order| == |s|
    decreases |order|
  {
    if |order| > 0 {
      var x := order[|order| - 1];
      var init := order[..|order| - 1];
      assert forall y :: y in init <==> y in s - {x} by {
        forall y ensures y in init <==> y in s - {x} {
          assert y in order <==> y in init || y == x;
        }
      }
      EnumerationSize(init, s - {x});
    } else {
      assert forall y :: y !in s by {
        forall y ensures y !in s {
          assert y !in order;
        }
      }
      assert s == {};
    }
  }

  predicate Writes(o: Outcome) {
    o == Update || o == Add
  }

  /** After the writes, a written path holds the new hash; every other path is
      as it was. */
  lemma {:induction false} WrittenAt(env: Env, m: map<string, string>, rels: seq<string>, x: string)
    requires AllFiles(env, rels)
    ensures x in rels && Writes(OutcomeOf(env, x)) ==>
              x in Written(env, m, rels) && Written(env, m, rels)[x] == env.hash(env.files[x])
    ensures !(x in rels && Writes(OutcomeOf(env, x))) ==>
              (x in Written(env, m, rels) <==> x in m) && (x in m ==> Written(env, m, rels)[x] == m[x])
    decreases |rels|
  {
    if |rels| > 0 {
      var init := rels[..|rels| - 1];
      WrittenAt(env, m, init, x);
      assert x in rels <==> x in init || x == rels[|rels| - 1];
    }
  }

  /** The writes over a full enumeration of the files, with no failure, starting
      from the remote entries of paths the store has, give every file its hash. */
  lemma WrittenMirrors(env: Env, fileOrder: seq<string>, start: map<string, string>)
    requires Enumerates(fileOrder, env.files.Keys)
    requires Select(env, fileOrder, Fail) == []
    requires forall x :: x in start <==> x in env.remote && x in env.files
    requires forall x :: x in start ==> start[x] == env.remote[x]
    ensures Written(env, start, fileOrder) == map r | r in env.files :: env.hash(env.files[r])
  {
    var w := Written(env, start, fileOrder);
    var target := map r | r in env.files :: env.hash(env.files[r]);
    forall x
      ensures x in w <==> x in target
      ensures x in w ==> w[x] == target[x]
    {
      WrittenAt(env, start, fileOrder, x);
      if x in env.files {
        SelectMembers(env, fileOrder, Fail, x);
      }
    }
  }

  /** A copy with no failure leaves the remote tree holding exactly the store's
      files, each with its hash; the deleted paths are exactly the remote paths
      the store lacks; and every file is skipped, updated or added. */
  lemma SuccessfulCopyMirrors(env: Env, remoteOrder: seq<string>, fileOrder: seq<string>)
    requires Enumerates(remoteOrder, env.remote.Keys) && Enumerates(fileOrder, env.files.Keys)
    requires Select(env, fileOrder, Fail) == []
    ensures (set x | x in Extra(remoteOrder, env.files)) == env.remote.Keys - env.files.Keys
    ensures Written(env, env.remote - (set x | x in Extra(remoteOrder, env.files)), fileOrder) ==
            map r | r in env.files :: env.hash(env.files[r])
    ensures |Select(env, fileOrder, Skip)| + |Select(env, fileOrder, Update)| + |Select(env, fileOrder, Add)| ==
            |env.files|
  {
    var gone := set x | x in Extra(remoteOrder, env.files);
    assert gone == env.remote.Keys - env.files.Keys;
    WrittenMirrors(env, fileOrder, env.remote - gone);
    SelectPartition(env, fileOrder);
    EnumerationSize(fileOrder, env.files.Keys);
  }

  // ---------------------------------------------------------------------------
  // listRemoteFilesRecursive.

  /** What reading a remote directory gives: it does not exist, another error,
      or its entries. */
  datatype Listing = Missing | Unreadable(message: string) | Entries(entries: seq<Node>)

  /** A directory entry; a file's hash is None when it cannot be computed. */
  datatype Node = FileNode(name: string, hash: Option<string>) | DirNode(name: string, listing: Listing)

  function RemoteRel(base: string, full: string): string {
    TrimPrefix(TrimPrefix(full, base), "/")
  }

  /** The listing of a directory: relative path to hash, "" for a file whose hash
      cannot be read; a missing directory is empty and any other read error is
      returned. */
  function ListRemote(base: string, current: string, listing: Listing): (r: Result<map<string, string>, string>)
    ensures listing.Missing? ==> r == Ok(map[])
    ensures listing.Unreadable? ==> r == Err(listing.message)
    decreases listing, 1
  {
    match listing
    case Missing => Ok(map[])
    case Unreadable(m) => Err(m)
    case Entries(es) => ListEntries(base, current, es, map[])
  }

  /** The loop over one directory's entries, merging into files. */
  function ListEntries(base: string, current: string, es: seq<Node>, files: map<string, string>)
    : Result<map<string, string>, string>
    decreases es, 0
  {
    if |es| == 0 then Ok(files)
    else
      var full := JoinPath([current, es[0].name]);
      match es[0]
      case FileNode(_, h) =>
        ListEntries(base, current, es[1..], files[RemoteRel(base, full) := h.GetOr("")])
      case DirNode(_, sub) =>
        match ListRemote(base, full, sub)
        case Err(e) => Err(e)
        case Ok(more) => ListEntries(base, current, es[1..], files + more)
  }

  /** The relative paths of the files reachable through readable directories. */
  ghost function FilePaths(base: string, current: string, listing: Listing): set<string>
    decreases listing, 1
  {
    match listing
    case Missing => {}
    case Unreadable(_) => {}
    case Entries(es) => EntryPaths(base, current, es)
  }

  ghost function EntryPaths(base: string, current: string, es: seq<Node>): set<string>
    decreases es, 0
  {
    if |es| == 0 then {}
    else
      var full := JoinPath([current, es[0].name]);
      (match es[0]
       case FileNode(_, _) => {RemoteRel(base, full)}
       case DirNode(_, sub) => FilePaths(base, full, sub)) + EntryPaths(base, current, es[1..])
  }

  /** A successful listing holds exactly the reachable files' relative paths. */
  lemma {:induction false} ListedPaths(base: string, current: string, listing: Listing)
    ensures ListRemote(base, current, listing).Ok? ==>
              ListRemote(base, current, listing).value.Keys == FilePaths(base, current, listing)
    decreases listing, 1
  {
    if listing.Entries? {
      ListedEntryPaths(base, current, listing.entries, map[]);
    }
  }

  lemma {:induction false} ListedEntryPaths(base: string, current: string, es: seq<Node>, files: map<string, string>)
    ensures ListEntries(base, current, es, files).Ok? ==>
              ListEntries(base, current, es, files).value.Keys == files.Keys + EntryPaths(base, current, es)
    decreases es, 0
  {
    if |es| > 0 {
      var full := JoinPath([current, es[0].name]);
      match es[0]
      case FileNode(_, h) =>
        ListedEntryPaths(base, current, es[1..], files[RemoteRel(base, full) := h.GetOr("")]);
      case DirNode(_, sub) =>
        ListedPaths(base, full, sub);
        var r := ListRemote(base, full, sub);
        if r.Ok? {
          ListedEntryPaths(base, current, es[1..], files + r.value);
        }
    }
  }
}
