/** The remote syncer: the files of a server's configuration directory are
    listed with `find` over SSH, read one by one, and written to the store
    under the remote prefix (content, hash and meta keys), skipping files whose
    stored hash matches; keys no listed file accounts for are mirror-deleted.
    The SSH connection, the command output, the remote reads, the hash and the
    clock are inputs. */
module NginxSyncer {
  import opened Text
  import opened Config
  import SyncUtils

  // ---------------------------------------------------------------------------
  // readRemoteConfigFiles.

  /** What a line of the find output lists: nothing for a blank line;
      otherwise the trimmed line without the directory and one slash, unless
      that path is ignored. */
  function Listing(line: string, configPath: string, patterns: seq<string>, glob: (string, string) -> bool)
    : (r: Option<string>)
    ensures r.Some? ==> !SyncUtils.Ignored(r.value, patterns, glob)
  {
    var trimmed := TrimSpace(line);
    var path := TrimPrefix(trimmed, configPath + "/");
    if trimmed == "" || SyncUtils.Ignored(path, patterns, glob) then None else Some(path)
  }

  /** The listed paths, in output order. */
  function Listed(lines: seq<string>, configPath: string, patterns: seq<string>, glob: (string, string) -> bool)
    : (r: seq<string>)
    ensures |r| <= |lines|
    decreases |lines|
  {
    if |lines| == 0 then []
    else
      var init := Listed(lines[..|lines| - 1], configPath, patterns, glob);
      var listing := Listing(lines[|lines| - 1], configPath, patterns, glob);
      if listing.Some? then init + [listing.value] else init
  }

  /** The output lines: the output trimmed, then split at newlines. */
  function OutputLines(output: string): seq<string> {
    Split(TrimSpace(output), '\n')
  }

  /** The loop body for one line. */
  method ListLine(line: string, configPath: string, patterns: seq<string>, glob: (string, string) -> bool)
    returns (r: Option<string>)
    ensures r == Listing(line, configPath, patterns, glob)
  {
    var trimmed := TrimSpace(line);
    if trimmed == "" {
      return None;
    }
    var relativePath := TrimPrefix(trimmed, configPath + "/");
    var ignored := SyncUtils.IsIgnored(relativePath, patterns, glob);
    if ignored {
      return None;
    }
    return Some(relativePath);
  }

  /** The listing loop, given the find command's output or its error. */
  method ReadRemoteConfigFiles(configPath: string, patterns: seq<string>, glob: (string, string) -> bool,
                               findOutput: Result<string, string>)
    returns (r: Result<seq<string>, string>)
    ensures findOutput.Err? ==> r == Err(ListFailed + findOutput.error)
    ensures findOutput.Ok? ==> r == Ok(Listed(OutputLines(findOutput.value), configPath, patterns, glob))
  {
    if findOutput.Err? {
      return Err(ListFailed + findOutput.error);
    }
    var lines := Split(TrimSpace(findOutput.value), '\n');
    var files := [];
    var i := 0;
    while i < |lines|
      invariant 0 <= i <= |lines|
      invariant files == Listed(lines[..i], configPath, patterns, glob)
    {
      ListedAt(lines, i, configPath, patterns, glob);
      var listing := ListLine(lines[i], configPath, patterns, glob);
      i := i + 1;
      if listing.Some? {
        files := files + [listing.value];
      }
    }
    assert lines[..i] == lines;
    return Ok(files);
  }

  /** The lines up to and including line i list what the earlier ones list, and
      then line i's path. */
  lemma ListedAt(lines: seq<string>, i: int, configPath: string, patterns: seq<string>, glob: (string, string) -> bool)
    requires 0 <= i < |lines|
    ensures Listed(lines[..i + 1], configPath, patterns, glob)
         == if Listing(lines[i], configPath, patterns, glob).Some?
            then Listed(lines[..i], configPath, patterns, glob) + [Listing(lines[i], configPath, patterns, glob).value]
            else Listed(lines[..i], configPath, patterns, glob)
  {
    assert lines[..i + 1][..i] == lines[..i];
  }

  const ListFailed := "failed to list remote config files: "
  const ReadFailed := "failed to read remote config files: "

  /** A line of the output lists a path. */
  predicate Lists(line: string, configPath: string, patterns: seq<string>, glob: (string, string) -> bool, path: string) {
    Listing(line, configPath, patterns, glob) == Some(path)
  }

  lemma ListedStep(lines: seq<string>, configPath: string, patterns: seq<string>, glob: (string, string) -> bool)
    requires |lines| > 0
    ensures forall path :: path in Listed(lines, configPath, patterns, glob) <==>
              path in Listed(lines[..|lines| - 1], configPath, patterns, glob) ||
              Lists(lines[|lines| - 1], configPath, patterns, glob, path)
  {
  }

  /** A path is listed exactly when some line of the output lists it, so no
      listed path is ignored. */
  lemma {:induction false} ListedMeaning(lines: seq<string>, configPath: string, patterns: seq<string>,
                                         glob: (string, string) -> bool, path: string)
    ensures path in Listed(lines, configPath, patterns, glob) <==>
              exists i :: 0 <= i < |lines| && Lists(lines[i], configPath, patterns, glob, path)
    decreases |lines|
  {
    if |lines| > 0 {
      var init := lines[..|lines| - 1];
      ListedMeaning(init, configPath, patterns, glob, path);
      ListedStep(lines, configPath, patterns, glob);
      if path in Listed(lines, configPath, patterns, glob) {
        if path in Listed(init, configPath, patterns, glob) {
          var i :| 0 <= i < |init| && Lists(init[i], configPath, patterns, glob, path);
          assert lines[i] == init[i];
        } else {
          assert Lists(lines[|lines| - 1], configPath, patterns, glob, path);
        }
      } else {
        forall i | 0 <= i < |lines|
          ensures !Lists(lines[i], configPath, patterns, glob, path)
        {
          if i < |init| {
            assert lines[i] == init[i];
            assert !Lists(init[i], configPath, patterns, glob, path);
          } else {
            assert i == |lines| - 1;
          }
        }
      }
    }
  }

  /** A line naming a file inside the directory lists the file's path below
      it. */
  lemma LineInsideDirectory(configPath: string, rel: string, patterns: seq<string>, glob: (string, string) -> bool)
    requires TrimSpace(configPath + "/" + rel) == configPath + "/" + rel
    requires !SyncUtils.Ignored(rel, patterns, glob)
    ensures Listing(configPath + "/" + rel, configPath, patterns, glob) == Some(rel)
  {
    var line := configPath + "/" + rel;
    assert line[..|configPath + "/"|] == configPath + "/";
    assert line[|configPath + "/"|..] == rel;
  }

  // ---------------------------------------------------------------------------
  // The per-file pass.

  /** What one pass works with: the key parts, the configuration directory,
      the remote read, the hash, the store reads and puts that fail, and the
      time stamped into the meta record. */
  datatype Pass = Pass(keyPrefix: string, group: string, host: string, suffix: string, dir: string,
                       read: string -> Result<string, string>, hash: string -> string,
                       getFails: set<string>, putFails: set<string>, stamp: string)

  /** The server's prefix, joined with "/" and not cleaned. */
  function StorePrefix(p: Pass): (r: string)
    ensures r != ""
  {
    Join([p.keyPrefix, p.group, p.host, p.suffix], "/")
  }

  /** constructEtcdKey: joined with "/" and not cleaned. */
  function FileKey(p: Pass, rel: string): string {
    Join([p.keyPrefix, p.group, p.host, p.suffix, rel], "/")
  }

  /** The meta record: the source and the time (JSON escaping of the time
      stamp is not modelled). */
  function MetaOf(stamp: string): string {
    "{\"source\":\"nginx-remote\",\"last_updated\":\"" + stamp + "\"}"
  }

  /** The file's path below the directory: one leading slash dropped. */
  function RelOf(filePath: string): string {
    TrimPrefix(filePath, "/")
  }

  /** The stored hash as a single read of the current store finds it: empty
      when the key is missing or the read fails. */
  function StoredHash(p: Pass, store: map<string, string>, key: string): string {
    if key + ".hash" in store && key + ".hash" !in p.getFails then store[key + ".hash"] else ""
  }

  /** The writes for a changed file: the content, then the hash and the meta
      only when the content put succeeded. */
  function WriteFile(p: Pass, store: map<string, string>, rel: string, content: string): map<string, string> {
    var key := FileKey(p, rel);
    if key in p.putFails then store
    else
      var s1 := SyncUtils.Put(store[key := content], key + ".hash", p.hash(content), p.putFails);
      SyncUtils.Put(s1, key + ".meta", MetaOf(p.stamp), p.putFails)
  }

  function StoreAfter(p: Pass, store: map<string, string>, filePath: string): map<string, string> {
    var rel := RelOf(filePath);
    if rel == "" then store
    else
      var content := p.read(JoinPath([p.dir, filePath]));
      if content.Err? || StoredHash(p, store, FileKey(p, rel)) == p.hash(content.value) then store
      else WriteFile(p, store, rel, content.value)
  }

  function Stored(p: Pass, store: map<string, string>, files: seq<string>): map<string, string>
    decreases |files|
  {
    if |files| == 0 then store
    else StoreAfter(p, Stored(p, store, files[..|files| - 1]), files[|files| - 1])
  }

  /** The desired paths: every listed file's path, readable or not. */
  function Desired(files: seq<string>): (r: seq<string>)
    ensures |r| <= |files|
    ensures forall k :: 0 <= k < |r| ==> r[k] != ""
    decreases |files|
  {
    if |files| == 0 then []
    else
      var rel := RelOf(files[|files| - 1]);
      Desired(files[..|files| - 1]) + (if rel == "" then [] else [rel])
  }

  method WriteChanged(p: Pass, store: map<string, string>, rel: string, content: string)
    returns (after: map<string, string>)
    ensures after == WriteFile(p, store, rel, content)
  {
    var key := FileKey(p, rel);
    if key in p.putFails {
      return store;
    }
    after := store[key := content];
    after := SyncUtils.Put(after, key + ".hash", p.hash(content), p.putFails);
    after := SyncUtils.Put(after, key + ".meta", MetaOf(p.stamp), p.putFails);
  }

  method VisitFile(p: Pass, store: map<string, string>, desired: seq<string>, filePath: string)
    returns (after: map<string, string>, desired': seq<string>)
    ensures after == StoreAfter(p, store, filePath)
    ensures desired' == desired + (if RelOf(filePath) == "" then [] else [RelOf(filePath)])
  {
    after, desired' := store, desired;
    var rel := TrimPrefix(filePath, "/");
    if rel == "" {
      return;
    }
    desired' := desired + [rel];
    var content := p.read(JoinPath([p.dir, filePath]));
    if content.Err? {
      return;
    }
    var h := p.hash(content.value);
    var key := FileKey(p, rel);
    var existingHash := "";
    if key + ".hash" in store && key + ".hash" !in p.getFails {
      existingHash := store[key + ".hash"];
    }
    if existingHash == h {
      return;
    }
    after := WriteChanged(p, store, rel, content.value);
  }

  method SyncFiles(p: Pass, store: map<string, string>, files: seq<string>)
    returns (after: map<string, string>, desired: seq<string>)
    ensures after == Stored(p, store, files) && desired == Desired(files)
  {
    after, desired := store, [];
    var i := 0;
    while i < |files|
      invariant 0 <= i <= |files|
      invariant after == Stored(p, store, files[..i]) && desired == Desired(files[..i])
    {
      assert files[..i + 1][..i] == files[..i];
      after, desired := VisitFile(p, after, desired, files[i]);
      i := i + 1;
    }
    assert files[..i] == files;
  }

  function PassOf(keyPrefix: string, group: string, srv: ServerConfig, read: string -> Result<string, string>,
                  hash: string -> string, getFails: set<string>, putFails: set<string>, stamp: string): (p: Pass)
    ensures p.suffix == Base(srv.nginxConfigDir) && p.dir == srv.nginxConfigDir && p.host == srv.host
  {
    Pass(keyPrefix, group, srv.host, Base(srv.nginxConfigDir), srv.nginxConfigDir, read, hash, getFails, putFails, stamp)
  }

  /** The pass for one server.  An empty configuration directory makes it a
      no-op; a failed connection or listing ends it with that error; a failed
      mirror delete is only logged.  The remote syncer reads no prefix at the
      start, so the read fault is not consulted. */
  method Sync(keyPrefix: string, group: string, srv: ServerConfig, patterns: seq<string>,
              glob: (string, string) -> bool, connectErr: Option<string>, findOutput: Result<string, string>,
              read: string -> Result<string, string>, hash: string -> string, stamp: string,
              store: map<string, string>, getFails: set<string>, faults: SyncUtils.StoreFaults)
    returns (err: Option<string>, after: map<string, string>)
    ensures srv.nginxConfigDir == "" ==> err.None? && after == store
    ensures srv.nginxConfigDir != "" && connectErr.Some? ==>
              err == Some("failed to connect to server " + srv.host + ": " + connectErr.value) && after == store
    ensures srv.nginxConfigDir != "" && connectErr.None? && findOutput.Err? ==>
              err == Some(ReadFailed + (ListFailed + findOutput.error)) &&
              after == store
    ensures srv.nginxConfigDir != "" && connectErr.None? && findOutput.Ok? ==>
              var p := PassOf(keyPrefix, group, srv, read, hash, getFails, faults.putFails, stamp);
              var files := Listed(OutputLines(findOutput.value), srv.nginxConfigDir, patterns, glob);
              err.None? &&
              after == SyncUtils.MirrorOutcome(Stored(p, store, files), StorePrefix(p), Desired(files), faults)
  {
    if srv.nginxConfigDir == "" {
      return None, store;
    }
    if connectErr.Some? {
      return Some("failed to connect to server " + srv.host + ": " + connectErr.value), store;
    }
    var listing := ReadRemoteConfigFiles(srv.nginxConfigDir, patterns, glob, findOutput);
    if listing.Err? {
      return Some(ReadFailed + listing.error), store;
    }
    var p := PassOf(keyPrefix, group, srv, read, hash, getFails, faults.putFails, stamp);
    var written, desired := SyncFiles(p, store, listing.value);
    after := SyncUtils.Mirror(written, StorePrefix(p), desired, faults);
    err := None;
  }

  // ---------------------------------------------------------------------------

  /** Every listed file's path is desired, readable or not, and nothing
      else. */
  lemma {:induction false} DesiredMeaning(files: seq<string>, rel: string)
    ensures rel in Desired(files) <==> rel != "" && exists i :: 0 <= i < |files| && RelOf(files[i]) == rel
    decreases |files|
  {
    if |files| > 0 {
      var init := files[..|files| - 1];
      DesiredMeaning(init, rel);
      if exists i :: 0 <= i < |init| && RelOf(init[i]) == rel {
        var i :| 0 <= i < |init| && RelOf(init[i]) == rel;
        assert files[i] == init[i];
      }
      if exists i :: 0 <= i < |files| && RelOf(files[i]) == rel {
        var i :| 0 <= i < |files| && RelOf(files[i]) == rel;
        if i < |init| {
          assert init[i] == files[i];
        }
      }
    }
  }

  /** One readable file: a matching stored hash skips it, a failed content put
      writes nothing, and otherwise the content and (where their puts succeed)
      the hash and the meta are stored. */
  lemma FileWrites(p: Pass, store: map<string, string>, filePath: string)
    requires RelOf(filePath) != "" && p.read(JoinPath([p.dir, filePath])).Ok?
    ensures var content := p.read(JoinPath([p.dir, filePath])).value;
            var key := FileKey(p, RelOf(filePath));
            var h := p.hash(content);
            var after := StoreAfter(p, store, filePath);
            (StoredHash(p, store, key) == h ==> after == store) &&
            (StoredHash(p, store, key) != h && key in p.putFails ==> after == store) &&
            (StoredHash(p, store, key) != h && key !in p.putFails ==>
               key in after && after[key] == content &&
               (key + ".hash" !in p.putFails ==> key + ".hash" in after && after[key + ".hash"] == h) &&
               (key + ".meta" !in p.putFails ==> key + ".meta" in after && after[key + ".meta"] == MetaOf(p.stamp)))
  {
    SyncUtils.CompanionsDiffer(FileKey(p, RelOf(filePath)));
  }

  /** Only the hash is compared: a file whose hash key matches is skipped even
      when its content key is missing, so the content is not restored. */
  lemma MissingContentNotRestored(p: Pass, store: map<string, string>, filePath: string)
    requires RelOf(filePath) != "" && p.read(JoinPath([p.dir, filePath])).Ok?
    requires FileKey(p, RelOf(filePath)) !in store
    requires StoredHash(p, store, FileKey(p, RelOf(filePath))) == p.hash(p.read(JoinPath([p.dir, filePath])).value)
    ensures FileKey(p, RelOf(filePath)) !in StoreAfter(p, store, filePath)
  {
  }

  /** A content key is the file's path below the server's prefix. */
  lemma FileKeyUnderPrefix(p: Pass, rel: string)
    requires rel != ""
    ensures FileKey(p, rel) == StorePrefix(p) + "/" + rel == JoinPath([StorePrefix(p), rel])
  {
    var parts := [p.keyPrefix, p.group, p.host, p.suffix];
    JoinSnoc(parts, rel, "/");
    assert parts + [rel] == [p.keyPrefix, p.group, p.host, p.suffix, rel];
    JoinTwo(StorePrefix(p), rel);
  }

  /** The mirror delete never removes a desired file's content, hash or meta
      key. */
  lemma DesiredFileKept(p: Pass, files: seq<string>, rel: string)
    requires rel in Desired(files)
    ensures var key := FileKey(p, rel);
            var allowed := SyncUtils.AllowedFrom(StorePrefix(p), Desired(files));
            key in allowed && key + ".hash" in allowed && key + ".meta" in allowed
  {
    var i :| 0 <= i < |Desired(files)| && Desired(files)[i] == rel;
    FileKeyUnderPrefix(p, rel);
    SyncUtils.DesiredKeysAllowed(StorePrefix(p), Desired(files), i);
  }

  /** One file changes no key outside the server's prefix. */
  lemma StepKeepsOutside(p: Pass, store: map<string, string>, filePath: string, k: string)
    requires !HasPrefix(k, StorePrefix(p))
    ensures k in StoreAfter(p, store, filePath) <==> k in store
    ensures k in store ==> StoreAfter(p, store, filePath)[k] == store[k]
  {
    var rel := RelOf(filePath);
    if rel != "" {
      FileKeyUnderPrefix(p, rel);
      SyncUtils.CompanionsUnderPrefix(StorePrefix(p), rel);
    }
  }

  /** A pass changes no key outside the server's prefix. */
  lemma {:induction false} PassKeepsOutside(p: Pass, store: map<string, string>, files: seq<string>, k: string)
    requires !HasPrefix(k, StorePrefix(p))
    ensures k in Stored(p, store, files) <==> k in store
    ensures k in store ==> Stored(p, store, files)[k] == store[k]
    decreases |files|
  {
    if |files| > 0 {
      PassKeepsOutside(p, store, files[..|files| - 1], k);
      StepKeepsOutside(p, Stored(p, store, files[..|files| - 1]), files[|files| - 1], k);
    }
  }
}
