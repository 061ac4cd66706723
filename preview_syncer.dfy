/** The preview syncer: the working copy of the repository is walked, the
    files under a server's directory are written to the store under the
    preview prefix (content and hash keys), files whose stored copy is current
    are skipped, and keys that no selected file accounts for are
    mirror-deleted.  The ignore patterns are the repository's .gitignore
    lines followed by the configured ones.  The file system, the watcher and
    the timers are outside: the walk's entries, the .gitignore file and the
    events are inputs. */
module PreviewSyncer {
  import opened Text
  import SyncUtils

  // ---------------------------------------------------------------------------
  // Ignore patterns.

  /** The .gitignore file as the syncer finds it: missing, not openable, or
      its lines with the error the scanner ended on, if any. */
  datatype Gitignore = Missing | OpenFailed(error: string) | Scanned(lines: seq<string>, scanErr: Option<string>)

  /** A trimmed line that is a pattern: neither blank nor a comment. */
  predicate IsPatternLine(line: string) {
    line != "" && !HasPrefix(line, "#")
  }

  /** The patterns of a .gitignore: its lines trimmed, blank and comment lines
      dropped, in file order. */
  function PatternLines(lines: seq<string>): (r: seq<string>)
    ensures |r| <= |lines|
    ensures forall k :: 0 <= k < |r| ==> IsPatternLine(r[k])
    decreases |lines|
  {
    if |lines| == 0 then []
    else
      var line := TrimSpace(lines[|lines| - 1]);
      PatternLines(lines[..|lines| - 1]) + (if IsPatternLine(line) then [line] else [])
  }

  /** One more line adds its trimmed form when that is a pattern. */
  lemma PatternLinesStep(lines: seq<string>, i: int)
    requires 0 <= i < |lines|
    ensures PatternLines(lines[..i + 1])
         == PatternLines(lines[..i]) + (if IsPatternLine(TrimSpace(lines[i])) then [TrimSpace(lines[i])] else [])
  {
    assert lines[..i + 1][..i] == lines[..i];
  }

  /** loadGitignore. */
  method LoadGitignore(file: Gitignore) returns (r: Result<seq<string>, string>)
    ensures file.Missing? ==> r == Ok([])
    ensures file.OpenFailed? ==> r == Err("failed to open .gitignore: " + file.error)
    ensures file.Scanned? && file.scanErr.Some? ==> r == Err("failed to read .gitignore: " + file.scanErr.value)
    ensures file.Scanned? && file.scanErr.None? ==> r == Ok(PatternLines(file.lines))
  {
    match file {
      case Missing => return Ok([]);
      case OpenFailed(e) => return Err("failed to open .gitignore: " + e);
      case Scanned(lines, scanErr) =>
        var patterns := [];
        var i := 0;
        while i < |lines|
          invariant 0 <= i <= |lines|
          invariant patterns == PatternLines(lines[..i])
        {
          PatternLinesStep(lines, i);
          var line := TrimSpace(lines[i]);
          i := i + 1;
          if line == "" || HasPrefix(line, "#") {
            continue;
          }
          patterns := patterns + [line];
        }
        if scanErr.Some? {
          return Err("failed to read .gitignore: " + scanErr.value);
        }
        assert lines[..i] == lines;
        return Ok(patterns);
    }
  }

  /** The syncer's patterns: the .gitignore ones (none when it cannot be
      loaded), then the configured ones. */
  method AssemblePatterns(file: Gitignore, configured: seq<string>) returns (patterns: seq<string>)
    ensures file.Scanned? && file.scanErr.None? ==> patterns == PatternLines(file.lines) + configured
    ensures !(file.Scanned? && file.scanErr.None?) ==> patterns == configured
  {
    var loaded := LoadGitignore(file);
    if loaded.Err? {
      loaded := Ok([]);
    }
    patterns := loaded.value + configured;
  }

  /** What one line of the file contributes: its trimmed form, unless that is
      blank or a comment. */
  function LinePattern(line: string): Option<string> {
    var t := TrimSpace(line);
    if IsPatternLine(t) then Some(t) else None
  }

  /** Each line's contribution, in file order. */
  function LinePatterns(lines: seq<string>): (r: seq<Option<string>>)
    ensures |r| == |lines|
    decreases |lines|
  {
    if |lines| == 0 then [] else LinePatterns(lines[..|lines| - 1]) + [LinePattern(lines[|lines| - 1])]
  }

  lemma {:induction false} LinePatternsAt(lines: seq<string>, i: int)
    requires 0 <= i < |lines|
    ensures LinePatterns(lines)[i] == LinePattern(lines[i])
    decreases |lines|
  {
    if i < |lines| - 1 {
      LinePatternsAt(lines[..|lines| - 1], i);
    }
  }

  /** The patterns are the contributions the lines make. */
  lemma {:induction false} PatternLinesPicked(lines: seq<string>)
    ensures PatternLines(lines) == SyncUtils.Picked(LinePatterns(lines))
    decreases |lines|
  {
    if |lines| > 0 {
      PatternLinesPicked(lines[..|lines| - 1]);
      var s := LinePatterns(lines);
      assert s[..|s| - 1] == LinePatterns(lines[..|lines| - 1]);
    }
  }

  /** A string is a pattern exactly when it is a trimmed line of the file that
      is neither blank nor a comment. */
  lemma PatternLinesMeaning(lines: seq<string>, x: string)
    ensures x in PatternLines(lines) <==>
              IsPatternLine(x) && exists i :: 0 <= i < |lines| && TrimSpace(lines[i]) == x
  {
    PatternLinesPicked(lines);
    var s := LinePatterns(lines);
    SyncUtils.PickedMeaning(s, x);
    if Some(x) in s {
      var i :| 0 <= i < |s| && s[i] == Some(x);
      LinePatternsAt(lines, i);
      assert TrimSpace(lines[i]) == x;
    }
    if IsPatternLine(x) && exists i :: 0 <= i < |lines| && TrimSpace(lines[i]) == x {
      var i :| 0 <= i < |lines| && TrimSpace(lines[i]) == x;
      LinePatternsAt(lines, i);
      assert s[i] == Some(x);
    }
  }

  /** A path is ignored by the assembled patterns exactly when the fixed
      rules, a loaded .gitignore pattern or a configured pattern ignore it. */
  lemma IgnoreSources(path: string, lines: seq<string>, configured: seq<string>, glob: (string, string) -> bool)
    ensures SyncUtils.Ignored(path, PatternLines(lines) + configured, glob) <==>
              SyncUtils.Ignored(path, PatternLines(lines), glob) || SyncUtils.Ignored(path, configured, glob)
  {
    SyncUtils.PatternsCombine(path, PatternLines(lines), configured, glob);
  }

  // ---------------------------------------------------------------------------
  // The walk.

  /** An entry of the directory walk: its path relative to the repository,
      whether it is a directory, and its content or the read error. */
  datatype WalkEntry = WalkEntry(rel: string, isDir: bool, content: Result<string, string>)

  /** What one pass works with. */
  datatype Pass = Pass(repoPath: string, keyPrefix: string, group: string, host: string, suffix: string,
                       existing: map<string, string>, hash: string -> string, putFails: set<string>,
                       patterns: seq<string>, glob: (string, string) -> bool)

  function Expected(p: Pass): string {
    JoinPath([p.group, p.host, p.suffix])
  }

  function StorePrefix(p: Pass): string {
    SyncUtils.ServerPrefix(p.keyPrefix, p.group, p.host, p.suffix)
  }

  function FileKey(p: Pass, rel: string): string {
    SyncUtils.ServerKey(p.keyPrefix, p.group, p.host, p.suffix, rel)
  }

  /** The path the walk reports: the repository path and the entry. */
  function WalkPath(p: Pass, e: WalkEntry): string {
    p.repoPath + "/" + e.rel
  }

  /** The entry's path under the server's directory, when it is a file, not
      ignored (the patterns are matched against the walk's full path) and
      lies there. */
  function Selected(p: Pass, e: WalkEntry): Option<string> {
    if e.isDir || SyncUtils.Ignored(WalkPath(p, e), p.patterns, p.glob) then None
    else SyncUtils.RelUnder(e.rel, Expected(p))
  }

  /** The writes for a file that is not current: the content, then the hash,
      the hash only when the content put succeeded. */
  function WriteFile(p: Pass, store: map<string, string>, rel: string, content: string): map<string, string> {
    var key := FileKey(p, rel);
    if key in p.putFails then store
    else SyncUtils.Put(store[key := content], key + ".hash", p.hash(content), p.putFails)
  }

  function StoreAfter(p: Pass, store: map<string, string>, e: WalkEntry): map<string, string> {
    match Selected(p, e)
    case None => store
    case Some(rel) =>
      if e.content.Err? || SyncUtils.Current(p.existing, FileKey(p, rel), p.hash(e.content.value)) then store
      else WriteFile(p, store, rel, e.content.value)
  }

  function Stored(p: Pass, store: map<string, string>, entries: seq<WalkEntry>): map<string, string>
    decreases |entries|
  {
    if |entries| == 0 then store
    else StoreAfter(p, Stored(p, store, entries[..|entries| - 1]), entries[|entries| - 1])
  }

  function Desired(p: Pass, entries: seq<WalkEntry>): (r: seq<string>)
    ensures |r| <= |entries|
    ensures forall k :: 0 <= k < |r| ==> r[k] != ""
    decreases |entries|
  {
    if |entries| == 0 then []
    else
      var init := Desired(p, entries[..|entries| - 1]);
      var e := entries[|entries| - 1];
      if Selected(p, e).Some? then init + [Selected(p, e).value] else init
  }

  /** The path checks of the walk callback. */
  method SelectEntry(p: Pass, e: WalkEntry) returns (rel: Option<string>)
    ensures rel == Selected(p, e)
  {
    if e.isDir {
      return None;
    }
    var ignored := SyncUtils.IsIgnored(p.repoPath + "/" + e.rel, p.patterns, p.glob);
    if ignored {
      return None;
    }
    var expected := Expected(p);
    if !HasPrefix(e.rel, expected) {
      return None;
    }
    var r := TrimPrefix(TrimPrefix(e.rel, expected), "/");
    if r == "" {
      return None;
    }
    return Some(r);
  }

  method WriteChanged(p: Pass, store: map<string, string>, rel: string, content: string)
    returns (after: map<string, string>)
    ensures after == WriteFile(p, store, rel, content)
  {
    var key := FileKey(p, rel);
    if key in p.putFails {
      return store;
    }
    after := store[key := content];
    after := SyncUtils.Put(after, key + ".hash", p.hash(content), p.putFails);
  }

  /** The walk callback for one entry. */
  method VisitEntry(p: Pass, store: map<string, string>, desired: seq<string>, e: WalkEntry)
    returns (after: map<string, string>, desired': seq<string>)
    ensures after == StoreAfter(p, store, e)
    ensures desired' == desired + (if Selected(p, e).Some? then [Selected(p, e).value] else [])
  {
    after, desired' := store, desired;
    var sel := SelectEntry(p, e);
    if sel.None? {
      return;
    }
    var rel := sel.value;
    desired' := desired + [rel];
    if e.content.Err? {
      return;
    }
    var content := e.content.value;
    var h := p.hash(content);
    var key := FileKey(p, rel);
    var existingHash := if key + ".hash" in p.existing then p.existing[key + ".hash"] else "";
    if existingHash == h && key in p.existing {
      return;
    }
    after := WriteChanged(p, store, rel, content);
  }

  method Walk(p: Pass, store: map<string, string>, entries: seq<WalkEntry>)
    returns (after: map<string, string>, desired: seq<string>)
    ensures after == Stored(p, store, entries) && desired == Desired(p, entries)
  {
    after, desired := store, [];
    var i := 0;
    while i < |entries|
      invariant 0 <= i <= |entries|
      invariant after == Stored(p, store, entries[..i]) && desired == Desired(p, entries[..i])
    {
      assert entries[..i + 1][..i] == entries[..i];
      after, desired := VisitEntry(p, after, desired, entries[i]);
      i := i + 1;
    }
    assert entries[..i] == entries;
  }

  /** The entries of the store under the server's prefix, read at the start. */
  function PassOf(repoPath: string, keyPrefix: string, group: string, host: string, nginxConfigDir: string,
                  hash: string -> string, putFails: set<string>, patterns: seq<string>,
                  glob: (string, string) -> bool, store: map<string, string>): (p: Pass)
    ensures p.suffix == Base(nginxConfigDir) && p.host == host && p.repoPath == repoPath
    ensures forall k :: k in p.existing <==> k in store && HasPrefix(k, StorePrefix(p))
  {
    var suffix := Base(nginxConfigDir);
    var prefix := SyncUtils.ServerPrefix(keyPrefix, group, host, suffix);
    Pass(repoPath, keyPrefix, group, host, suffix, map k | k in store && HasPrefix(k, prefix) :: store[k],
         hash, putFails, patterns, glob)
  }

  /** initialSync.  An empty repository path and a failed store read end it
      with their errors; an error from the walk ends it after the entries
      before it, without the mirror delete; a failed mirror delete is only
      logged. */
  method InitialSync(repoPath: string, keyPrefix: string, group: string, host: string, nginxConfigDir: string,
                     patterns: seq<string>, glob: (string, string) -> bool, hash: string -> string,
                     entries: seq<WalkEntry>, walkErr: Option<string>,
                     store: map<string, string>, faults: SyncUtils.StoreFaults)
    returns (err: Option<string>, after: map<string, string>)
    ensures repoPath == "" ==> err == Some("git repo path is not configured") && after == store
    ensures repoPath != "" && faults.readErr.Some? ==>
              err == Some("failed to get existing keys from etcd: " + faults.readErr.value) && after == store
    ensures repoPath != "" && faults.readErr.None? ==>
              var p := PassOf(repoPath, keyPrefix, group, host, nginxConfigDir, hash, faults.putFails, patterns, glob, store);
              var written := Stored(p, store, entries);
              (walkErr.Some? ==> err == walkErr && after == written) &&
              (walkErr.None? ==>
                 err.None? && after == SyncUtils.MirrorOutcome(written, StorePrefix(p), Desired(p, entries), faults))
  {
    if repoPath == "" {
      return Some("git repo path is not configured"), store;
    }
    if faults.readErr.Some? {
      return Some("failed to get existing keys from etcd: " + faults.readErr.value), store;
    }
    var p := PassOf(repoPath, keyPrefix, group, host, nginxConfigDir, hash, faults.putFails, patterns, glob, store);
    var written, desired := Walk(p, store, entries);
    if walkErr.Some? {
      return walkErr, written;
    }
    after := SyncUtils.Mirror(written, StorePrefix(p), desired, faults);
    err := None;
  }

  // ---------------------------------------------------------------------------
  // Watcher events.

  /** The operations an event can carry, as the watcher's bit set. */
  const CreateOp: bv32 := 1
  const WriteOp: bv32 := 2
  const RemoveOp: bv32 := 4
  const RenameOp: bv32 := 8
  const ChmodOp: bv32 := 16

  /** handleFileEvent: whether the event causes a full resync. */
  function Resyncs(name: string, op: bv32, patterns: seq<string>, glob: (string, string) -> bool): (r: bool)
    ensures r ==> !SyncUtils.Ignored(name, patterns, glob)
  {
    !SyncUtils.Ignored(name, patterns, glob) && op & (WriteOp | CreateOp | RemoveOp | RenameOp) != 0
  }

  /** Events on ignored paths never resync; on other paths a create, write,
      remove or rename does, alone or with other bits, and a permission change
      alone does not. */
  lemma ResyncEvents(name: string, op: bv32, patterns: seq<string>, glob: (string, string) -> bool)
    ensures SyncUtils.Ignored(name, patterns, glob) ==> !Resyncs(name, op, patterns, glob)
    ensures !SyncUtils.Ignored(name, patterns, glob) ==>
              (Resyncs(name, op, patterns, glob) <==> op & 1 != 0 || op & 2 != 0 || op & 4 != 0 || op & 8 != 0)
    ensures !Resyncs(name, ChmodOp, patterns, glob)
  {
  }

  // ---------------------------------------------------------------------------

  /** Each entry's selection, in order. */
  function Selections(p: Pass, entries: seq<WalkEntry>): (r: seq<Option<string>>)
    ensures |r| == |entries|
    decreases |entries|
  {
    if |entries| == 0 then [] else Selections(p, entries[..|entries| - 1]) + [Selected(p, entries[|entries| - 1])]
  }

  lemma {:induction false} SelectionsAt(p: Pass, entries: seq<WalkEntry>, i: int)
    requires 0 <= i < |entries|
    ensures Selections(p, entries)[i] == Selected(p, entries[i])
    decreases |entries|
  {
    if i < |entries| - 1 {
      SelectionsAt(p, entries[..|entries| - 1], i);
    }
  }

  /** The desired paths are the names the selections pick. */
  lemma {:induction false} DesiredPicked(p: Pass, entries: seq<WalkEntry>)
    ensures Desired(p, entries) == SyncUtils.Picked(Selections(p, entries))
    decreases |entries|
  {
    if |entries| > 0 {
      DesiredPicked(p, entries[..|entries| - 1]);
      var s := Selections(p, entries);
      assert s[..|s| - 1] == Selections(p, entries[..|entries| - 1]);
    }
  }

  lemma DesiredMeaning(p: Pass, entries: seq<WalkEntry>, rel: string)
    ensures rel in Desired(p, entries) <==> exists i :: 0 <= i < |entries| && Picks(p, entries[i], rel)
  {
    DesiredPicked(p, entries);
    var s := Selections(p, entries);
    SyncUtils.PickedMeaning(s, rel);
    if Some(rel) in s {
      var i :| 0 <= i < |s| && s[i] == Some(rel);
      SelectionsAt(p, entries, i);
      assert Picks(p, entries[i], rel);
    }
    if exists i :: 0 <= i < |entries| && Picks(p, entries[i], rel) {
      var i :| 0 <= i < |entries| && Picks(p, entries[i], rel);
      SelectionsAt(p, entries, i);
      assert s[i] == Some(rel);
    }
  }

  predicate Picks(p: Pass, e: WalkEntry, rel: string) {
    Selected(p, e) == Some(rel)
  }

  /** One selected, readable file: a current copy is left alone, a failed
      content put writes nothing, and otherwise the content and (unless its
      put fails) the hash are stored. */
  lemma FileWrites(p: Pass, store: map<string, string>, e: WalkEntry, rel: string)
    requires Selected(p, e) == Some(rel) && e.content.Ok?
    ensures var key := FileKey(p, rel);
            var h := p.hash(e.content.value);
            var after := StoreAfter(p, store, e);
            (SyncUtils.Current(p.existing, key, h) ==> after == store) &&
            (!SyncUtils.Current(p.existing, key, h) && key in p.putFails ==> after == store) &&
            (!SyncUtils.Current(p.existing, key, h) && key !in p.putFails ==>
               key in after && after[key] == e.content.value &&
               (key + ".hash" !in p.putFails ==> key + ".hash" in after && after[key + ".hash"] == h))
  {
    WriteFileMeaning(p, store, rel, e.content.value);
  }

  /** The writes for one file: nothing when the content put fails, otherwise
      the content and, unless its put fails, the hash. */
  lemma WriteFileMeaning(p: Pass, store: map<string, string>, rel: string, content: string)
    ensures var key := FileKey(p, rel);
            var after := WriteFile(p, store, rel, content);
            (key in p.putFails ==> after == store) &&
            (key !in p.putFails ==>
               key in after && after[key] == content &&
               (key + ".hash" !in p.putFails ==> key + ".hash" in after && after[key + ".hash"] == p.hash(content)))
  {
    SyncUtils.CompanionsDiffer(FileKey(p, rel));
  }

  /** A desired file's keys survive the mirror delete. */
  lemma DesiredFileKept(p: Pass, entries: seq<WalkEntry>, rel: string)
    requires rel in Desired(p, entries) && p.suffix != ""
    ensures var key := FileKey(p, rel);
            var allowed := SyncUtils.AllowedFrom(StorePrefix(p), Desired(p, entries));
            key in allowed && key + ".hash" in allowed
  {
    var i :| 0 <= i < |Desired(p, entries)| && Desired(p, entries)[i] == rel;
    SyncUtils.ServerKeyUnderPrefix(p.keyPrefix, p.group, p.host, p.suffix, rel);
    SyncUtils.DesiredKeysAllowed(StorePrefix(p), Desired(p, entries), i);
  }

  /** The patterns are matched against the walk's full path, so a pattern
      that occurs in the repository path itself ignores every file: nothing
      is desired and the mirror delete clears the prefix. */
  lemma RepoPathPatternIgnoresAll(p: Pass, e: WalkEntry, k: int)
    requires 0 <= k < |p.patterns| && Contains(p.repoPath, p.patterns[k])
    ensures Selected(p, e).None?
  {
    var path := WalkPath(p, e);
    var pattern := p.patterns[k];
    var i := ContainsWitness(p.repoPath, pattern);
    assert path[i..i + |pattern|] == p.repoPath[i..i + |pattern|];
    ContainsAt(path, pattern, i);
    assert SyncUtils.PatternHits(p.glob, path, pattern);
  }
}
