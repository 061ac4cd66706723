/** The helpers the three syncers share: the ignore rule for repository and
    host paths, and the mirror delete that removes the store keys under a prefix
    that no desired file accounts for.  Glob matching is an input (a pattern and
    a name to whether they match); the store is a map from key to value, its
    prefix listing an input list of keys, and the deletes that fail a set. */
module SyncUtils {
  import opened Text

  // ---------------------------------------------------------------------------
  // IsIgnored.

  /** The rules that hold whatever the patterns: anything inside a ".git"
      directory, hidden names and editor swap files. */
  predicate AlwaysIgnored(path: string) {
    var name := Base(path);
    Contains(path, ".git/") || name == ".git" || HasPrefix(name, ".") || HasSuffix(name, ".swp")
  }

  /** A pattern ignores a path when it glob-matches the path's last element or
      occurs anywhere in the path. */
  predicate PatternHits(glob: (string, string) -> bool, path: string, pattern: string) {
    glob(pattern, Base(path)) || Contains(path, pattern)
  }

  predicate Ignored(path: string, patterns: seq<string>, glob: (string, string) -> bool) {
    AlwaysIgnored(path) || exists k :: 0 <= k < |patterns| && PatternHits(glob, path, patterns[k])
  }

  /** The ignore check: the fixed rules, then the patterns in order. */
  method IsIgnored(path: string, patterns: seq<string>, glob: (string, string) -> bool) returns (ignored: bool)
    ensures ignored <==> Ignored(path, patterns, glob)
  {
    var name := Base(path);
    if Contains(path, ".git/") || name == ".git" {
      return true;
    }
    if HasPrefix(name, ".") {
      return true;
    }
    if HasSuffix(name, ".swp") {
      return true;
    }
    var i := 0;
    while i < |patterns|
      invariant 0 <= i <= |patterns|
      invariant forall k :: 0 <= k < i ==> !PatternHits(glob, path, patterns[k])
    {
      if glob(patterns[i], name) {
        return true;
      }
      if Contains(path, patterns[i]) {
        return true;
      }
      i := i + 1;
    }
    return false;
  }

  /** Pattern lists combine as a union: a path is ignored by two lists one
      after the other iff one of them ignores it. */
  lemma PatternsCombine(path: string, ps: seq<string>, qs: seq<string>, glob: (string, string) -> bool)
    ensures Ignored(path, ps + qs, glob) <==> Ignored(path, ps, glob) || Ignored(path, qs, glob)
  {
    if Ignored(path, ps + qs, glob) && !AlwaysIgnored(path) {
      var k :| 0 <= k < |ps + qs| && PatternHits(glob, path, (ps + qs)[k]);
      if k >= |ps| {
        assert (ps + qs)[k] == qs[k - |ps|];
      } else {
        assert (ps + qs)[k] == ps[k];
      }
    }
    if !AlwaysIgnored(path) && Ignored(path, ps, glob) {
      var k :| 0 <= k < |ps| && PatternHits(glob, path, ps[k]);
      assert (ps + qs)[k] == ps[k];
    }
    if !AlwaysIgnored(path) && Ignored(path, qs, glob) {
      var k :| 0 <= k < |qs| && PatternHits(glob, path, qs[k]);
      assert (ps + qs)[|ps| + k] == qs[k];
    }
  }

  /** An empty pattern occurs in every path, so it ignores everything. */
  lemma EmptyPatternIgnoresAll(path: string, patterns: seq<string>, glob: (string, string) -> bool)
    requires "" in patterns
    ensures Ignored(path, patterns, glob)
  {
    var k :| 0 <= k < |patterns| && patterns[k] == "";
    assert HasPrefix(path, "");
    assert PatternHits(glob, path, patterns[k]);
  }

  /** Without patterns only the fixed rules apply: a plain file name that is
      not hidden and not a swap file is kept. */
  lemma NoPatterns(path: string, glob: (string, string) -> bool)
    ensures Ignored(path, [], glob) <==> AlwaysIgnored(path)
  {
  }

  // ---------------------------------------------------------------------------
  // The keys a desired file accounts for.

  /** A file's content key and its three companion keys. */
  function DerivedKeys(prefix: string, rel: string): (keys: set<string>)
    ensures JoinPath([prefix, rel]) in keys && JoinPath([prefix, rel]) + ".hash" in keys
    ensures JoinPath([prefix, rel]) + ".commit" in keys && JoinPath([prefix, rel]) + ".meta" in keys
    ensures |keys| <= 4
  {
    var base := JoinPath([prefix, rel]);
    {base, base + ".hash", base + ".commit", base + ".meta"}
  }

  /** Whether a key is one of a file's four keys. */
  predicate DerivedFrom(prefix: string, rel: string, k: string) {
    k in DerivedKeys(prefix, rel)
  }

  /** The allowed keys for the desired files, in the order the map is walked. */
  function AllowedFrom(prefix: string, order: seq<string>): set<string>
    decreases |order|
  {
    if |order| == 0 then {}
    else AllowedFrom(prefix, order[..|order| - 1]) + DerivedKeys(prefix, order[|order| - 1])
  }

  /** The loop that builds the allowed set. */
  method BuildAllowed(prefix: string, order: seq<string>) returns (allowed: set<string>)
    ensures allowed == AllowedFrom(prefix, order)
  {
    allowed := {};
    var i := 0;
    while i < |order|
      invariant 0 <= i <= |order|
      invariant allowed == AllowedFrom(prefix, order[..i])
    {
      assert order[..i + 1][..i] == order[..i];
      var base := JoinPath([prefix, order[i]]);
      allowed := allowed + {base, base + ".hash", base + ".commit", base + ".meta"};
      i := i + 1;
    }
    assert order[..i] == order;
  }

  /** A key is allowed iff it is one of the four keys of a desired file. */
  lemma AllowedMeaning(prefix: string, order: seq<string>, k: string)
    ensures k in AllowedFrom(prefix, order) <==> exists i :: 0 <= i < |order| && DerivedFrom(prefix, order[i], k)
  {
    if k in AllowedFrom(prefix, order) {
      AllowedOnly(prefix, order, k);
    }
    if exists i :: 0 <= i < |order| && DerivedFrom(prefix, order[i], k) {
      var i :| 0 <= i < |order| && DerivedFrom(prefix, order[i], k);
      AllowedHas(prefix, order, i, k);
    }
  }

  /** Every key of every desired file is allowed. */
  lemma {:induction false} AllowedHas(prefix: string, order: seq<string>, i: int, k: string)
    requires 0 <= i < |order| && DerivedFrom(prefix, order[i], k)
    ensures k in AllowedFrom(prefix, order)
    decreases |order|
  {
    var init := order[..|order| - 1];
    if i < |init| {
      assert init[i] == order[i];
      AllowedHas(prefix, init, i, k);
    }
  }

  /** Only the keys of desired files are allowed. */
  lemma {:induction false} AllowedOnly(prefix: string, order: seq<string>, k: string)
    requires k in AllowedFrom(prefix, order)
    ensures exists i :: 0 <= i < |order| && DerivedFrom(prefix, order[i], k)
    decreases |order|
  {
    var init := order[..|order| - 1];
    if k in AllowedFrom(prefix, init) {
      AllowedOnly(prefix, init, k);
      var i :| 0 <= i < |init| && DerivedFrom(prefix, init[i], k);
      assert order[i] == init[i];
    } else {
      assert DerivedFrom(prefix, order[|order| - 1], k);
    }
  }

  // ---------------------------------------------------------------------------
  // mirrorDeleteEtcdPrefix.

  /** A listed key the mirror delete removes: strictly under the prefix and not
      allowed. */
  predicate Orphan(k: string, prefix: string, allowed: set<string>) {
    k != prefix && HasPrefix(k, prefix) && k !in allowed
  }

  /** The keys actually removed, in listing order: orphans whose delete
      succeeds. */
  function Removed(keys: seq<string>, prefix: string, allowed: set<string>, deleteFails: set<string>): (r: seq<string>)
    ensures |r| <= |keys|
    decreases |keys|
  {
    if |keys| == 0 then []
    else
      var init := Removed(keys[..|keys| - 1], prefix, allowed, deleteFails);
      var k := keys[|keys| - 1];
      if Orphan(k, prefix, allowed) && k !in deleteFails then init + [k] else init
  }

  /** The store after removing some keys. */
  function Without(store: map<string, string>, keys: seq<string>): map<string, string> {
    map k | k in store && k !in keys :: store[k]
  }

  /** The mirror delete.  listing is the store's answer to the prefix read: its
      keys, or the error, which is returned before anything is deleted.  A
      failed delete is skipped and not counted. */
  method MirrorDelete(store: map<string, string>, prefix: string, relOrder: seq<string>,
                      listing: Result<seq<string>, string>, deleteFails: set<string>)
    returns (err: Option<string>, after: map<string, string>, removed: seq<string>, deleted: nat)
    ensures listing.Err? ==> err == Some(listing.error) && after == store && removed == [] && deleted == 0
    ensures listing.Ok? ==> err.None?
    ensures listing.Ok? ==> removed == Removed(listing.value, prefix, AllowedFrom(prefix, relOrder), deleteFails)
    ensures after == Without(store, removed) && deleted == |removed|
  {
    var allowed := BuildAllowed(prefix, relOrder);
    if listing.Err? {
      assert Without(store, []) == store;
      return Some(listing.error), store, [], 0;
    }
    var keys := listing.value;
    after, removed, deleted := store, [], 0;
    var i := 0;
    while i < |keys|
      invariant 0 <= i <= |keys|
      invariant removed == Removed(keys[..i], prefix, allowed, deleteFails)
      invariant after == Without(store, removed) && deleted == |removed|
    {
      RemovedStep(keys, i, prefix, allowed, deleteFails);
      var k := keys[i];
      if k == prefix || !HasPrefix(k, prefix) || k in allowed {
        i := i + 1;
        continue;
      }
      if k !in deleteFails {
        WithoutStep(store, removed, k);
        after := after - {k};
        removed := removed + [k];
        deleted := deleted + 1;
      }
      i := i + 1;
    }
    assert keys[..i] == keys;
    err := None;
  }

  /** The listing's next key extends the removed keys exactly when it is
      removed. */
  lemma RemovedStep(keys: seq<string>, i: int, prefix: string, allowed: set<string>, deleteFails: set<string>)
    requires 0 <= i < |keys|
    ensures Removed(keys[..i + 1], prefix, allowed, deleteFails)
         == if Orphan(keys[i], prefix, allowed) && keys[i] !in deleteFails
            then Removed(keys[..i], prefix, allowed, deleteFails) + [keys[i]]
            else Removed(keys[..i], prefix, allowed, deleteFails)
  {
    assert keys[..i + 1][..i] == keys[..i];
  }

  /** Removing one more key from the store drops it from the map. */
  lemma WithoutStep(store: map<string, string>, removed: seq<string>, k: string)
    ensures Without(store, removed + [k]) == Without(store, removed) - {k}
  {
  }

  /** A key is removed iff it is listed, an orphan, and its delete succeeds. */
  lemma {:induction false} RemovedMeaning(keys: seq<string>, prefix: string, allowed: set<string>,
                                          deleteFails: set<string>, k: string)
    ensures k in Removed(keys, prefix, allowed, deleteFails) <==>
              k in keys && Orphan(k, prefix, allowed) && k !in deleteFails
    decreases |keys|
  {
    if |keys| > 0 {
      var init := keys[..|keys| - 1];
      RemovedMeaning(init, prefix, allowed, deleteFails, k);
      assert keys == init + [keys[|keys| - 1]];
      assert k in keys <==> k in init || k == keys[|keys| - 1];
    }
  }

  /** When the listing is every store key under the prefix, the mirror delete
      leaves exactly the keys that are not orphans or whose delete failed,
      with their values, and removes every other one. */
  lemma MirrorMeaning(store: map<string, string>, prefix: string, relOrder: seq<string>,
                      keys: seq<string>, deleteFails: set<string>)
    requires forall k :: k in keys <==> k in store && HasPrefix(k, prefix)
    ensures var after := Without(store, Removed(keys, prefix, AllowedFrom(prefix, relOrder), deleteFails));
            (forall k :: k in after <==>
               k in store && !(Orphan(k, prefix, AllowedFrom(prefix, relOrder)) && k !in deleteFails)) &&
            (forall k :: k in after ==> after[k] == store[k])
    ensures forall k :: k in store && Orphan(k, prefix, AllowedFrom(prefix, relOrder)) ==>
              (k in deleteFails <==> k in Without(store, Removed(keys, prefix, AllowedFrom(prefix, relOrder), deleteFails)))
  {
    var allowed := AllowedFrom(prefix, relOrder);
    forall k {
      RemovedMeaning(keys, prefix, allowed, deleteFails, k);
    }
  }

  /** The desired files' own keys are never removed. */
  lemma DesiredKept(store: map<string, string>, prefix: string, relOrder: seq<string>,
                    keys: seq<string>, deleteFails: set<string>, i: int)
    requires 0 <= i < |relOrder|
    ensures var after := Without(store, Removed(keys, prefix, AllowedFrom(prefix, relOrder), deleteFails));
            var base := JoinPath([prefix, relOrder[i]]);
            (base in store ==> base in after) && (base + ".hash" in store ==> base + ".hash" in after)
  {
    var allowed := AllowedFrom(prefix, relOrder);
    var base := JoinPath([prefix, relOrder[i]]);
    AllowedMeaning(prefix, relOrder, base);
    AllowedMeaning(prefix, relOrder, base + ".hash");
    RemovedMeaning(keys, prefix, allowed, deleteFails, base);
    RemovedMeaning(keys, prefix, allowed, deleteFails, base + ".hash");
  }

  /** The store after the mirror delete, whatever order the keys are listed in. */
  function Mirrored(store: map<string, string>, prefix: string, allowed: set<string>, deleteFails: set<string>)
    : map<string, string>
  {
    map k | k in store && !(Orphan(k, prefix, allowed) && k !in deleteFails) :: store[k]
  }

  lemma MirrorResult(store: map<string, string>, prefix: string, relOrder: seq<string>,
                     keys: seq<string>, deleteFails: set<string>)
    requires forall k :: k in keys <==> k in store && HasPrefix(k, prefix)
    ensures Without(store, Removed(keys, prefix, AllowedFrom(prefix, relOrder), deleteFails)) ==
            Mirrored(store, prefix, AllowedFrom(prefix, relOrder), deleteFails)
  {
    MirrorMeaning(store, prefix, relOrder, keys, deleteFails);
  }

  /** The store's prefix read: every key that starts with the prefix, once. */
  method ListUnder(store: map<string, string>, prefix: string) returns (keys: seq<string>)
    ensures forall k :: k in keys <==> k in store && HasPrefix(k, prefix)
  {
    var rest := store.Keys;
    keys := [];
    while rest != {}
      invariant rest <= store.Keys
      invariant forall k :: k in keys <==> k in store && k !in rest && HasPrefix(k, prefix)
      decreases |rest|
    {
      var k :| k in rest;
      if HasPrefix(k, prefix) {
        keys := keys + [k];
      }
      rest := rest - {k};
    }
  }

  // ---------------------------------------------------------------------------
  // Store writes and file selection shared by the syncers.

  /** A put: the key takes the value unless the put fails. */
  function Put(store: map<string, string>, key: string, value: string, putFails: set<string>): (after: map<string, string>)
    ensures key !in putFails ==> key in after && after[key] == value
    ensures forall k :: k != key ==> (k in after <==> k in store) && (k in store ==> after[k] == store[k])
    ensures key in putFails ==> after == store
  {
    if key in putFails then store else store[key := value]
  }

  /** A repository path's place under a server's directory: the path must
      start with the expected prefix (as a string, so a sibling directory
      whose name extends the last element also matches); the prefix and one
      slash are removed, and an empty rest is skipped. */
  function RelUnder(path: string, expected: string): (rel: Option<string>)
    ensures rel.Some? ==> HasPrefix(path, expected) && rel.value != ""
    ensures rel.Some? ==> path == expected + rel.value || path == expected + "/" + rel.value
    ensures !HasPrefix(path, expected) ==> rel.None?
  {
    if !HasPrefix(path, expected) then None
    else
      var r := TrimPrefix(TrimPrefix(path, expected), "/");
      if r == "" then None else Some(r)
  }

  /** Files in the directory are selected by their path below it. */
  lemma RelUnderDirectory(expected: string, rel: string)
    requires rel != "" && !HasPrefix(rel, "/")
    ensures RelUnder(expected + "/" + rel, expected) == Some(rel)
  {
    var path := expected + "/" + rel;
    assert path[..|expected|] == expected;
    assert path[|expected|..] == "/" + rel;
  }

  /** The match is on strings: a path that continues the prefix without a
      slash, such as a sibling directory "nginx2" next to "nginx", is
      selected too, with the continuation as its path. */
  lemma RelUnderSibling(expected: string, rest: string)
    requires rest != "" && rest[0] != '/'
    ensures RelUnder(expected + rest, expected) == Some(rest)
  {
    var path := expected + rest;
    assert path[..|expected|] == expected;
    assert path[|expected|..] == rest;
    assert !HasPrefix(rest, "/");
  }

  // ---------------------------------------------------------------------------
  // Keys under a server's prefix, shared by the git and preview syncers.

  /** The server's prefix: key prefix, group, host and the directory's base
      name, joined as paths. */
  function ServerPrefix(keyPrefix: string, group: string, host: string, suffix: string): string {
    JoinPath([keyPrefix, group, host, suffix])
  }

  /** constructEtcdKey: a file's content key. */
  function ServerKey(keyPrefix: string, group: string, host: string, suffix: string, rel: string): string {
    JoinPath([keyPrefix, group, host, suffix, rel])
  }

  /** The stored copy is current: the stored hash (empty when missing) is the
      new hash and the content key exists. */
  predicate Current(existing: map<string, string>, key: string, h: string) {
    (if key + ".hash" in existing then existing[key + ".hash"] else "") == h && key in existing
  }

  /** A file's content key is its path below the server's prefix, so it is
      the key the mirror delete derives from that path. */
  lemma ServerKeyUnderPrefix(keyPrefix: string, group: string, host: string, suffix: string, rel: string)
    requires rel != "" && suffix != ""
    ensures var prefix := ServerPrefix(keyPrefix, group, host, suffix);
            ServerKey(keyPrefix, group, host, suffix, rel) == JoinPath([prefix, rel]) == prefix + "/" + rel
  {
    var parts := [keyPrefix, group, host, suffix];
    NonEmptyKeeps(parts, suffix);
    JoinPathSnoc(parts, rel);
    assert parts + [rel] == [keyPrefix, group, host, suffix, rel];
    JoinTwo(ServerPrefix(keyPrefix, group, host, suffix), rel);
  }

  /** A content key and its companions all start with the server's prefix. */
  lemma CompanionsUnderPrefix(prefix: string, rel: string)
    ensures var key := prefix + "/" + rel;
            HasPrefix(key, prefix) && HasPrefix(key + ".hash", prefix) &&
            HasPrefix(key + ".commit", prefix) && HasPrefix(key + ".meta", prefix)
  {
    var key := prefix + "/" + rel;
    assert key[..|prefix|] == prefix;
    assert (key + ".hash")[..|prefix|] == prefix;
    assert (key + ".commit")[..|prefix|] == prefix;
    assert (key + ".meta")[..|prefix|] == prefix;
  }

  /** The content key and the three companion keys are four different keys. */
  lemma CompanionsDiffer(key: string)
    ensures key != key + ".hash" && key != key + ".commit" && key != key + ".meta"
    ensures key + ".hash" != key + ".commit" && key + ".hash" != key + ".meta" && key + ".commit" != key + ".meta"
  {
    assert (key + ".hash")[|key| + 1] == 'h';
    assert (key + ".commit")[|key| + 1] == 'c';
    assert (key + ".meta")[|key| + 1] == 'm';
  }

  /** The mirror delete never removes a desired file's keys: its content,
      hash, commit and meta keys are all allowed. */
  lemma DesiredKeysAllowed(prefix: string, desired: seq<string>, i: int)
    requires 0 <= i < |desired|
    ensures var key := JoinPath([prefix, desired[i]]);
            var allowed := AllowedFrom(prefix, desired);
            key in allowed && key + ".hash" in allowed && key + ".commit" in allowed && key + ".meta" in allowed
  {
    var key := JoinPath([prefix, desired[i]]);
    assert DerivedFrom(prefix, desired[i], key);
    assert DerivedFrom(prefix, desired[i], key + ".hash");
    assert DerivedFrom(prefix, desired[i], key + ".commit");
    assert DerivedFrom(prefix, desired[i], key + ".meta");
    AllowedMeaning(prefix, desired, key);
    AllowedMeaning(prefix, desired, key + ".hash");
    AllowedMeaning(prefix, desired, key + ".commit");
    AllowedMeaning(prefix, desired, key + ".meta");
  }

  // ---------------------------------------------------------------------------
  // The desired paths of a pass.

  /** The names a sequence of per-file selections picks, in order. */
  function Picked(sels: seq<Option<string>>): (r: seq<string>)
    ensures |r| <= |sels|
    decreases |sels|
  {
    if |sels| == 0 then []
    else Picked(sels[..|sels| - 1]) + (if sels[|sels| - 1].Some? then [sels[|sels| - 1].value] else [])
  }

  /** A name is picked exactly when some selection chose it. */
  lemma {:induction false} PickedMeaning(sels: seq<Option<string>>, rel: string)
    ensures rel in Picked(sels) <==> Some(rel) in sels
    decreases |sels|
  {
    if |sels| > 0 {
      var init := sels[..|sels| - 1];
      PickedMeaning(init, rel);
      assert sels == init + [sels[|sels| - 1]];
    }
  }

  // ---------------------------------------------------------------------------
  // A syncer pass's store faults and its closing mirror delete.

  /** The store operations that fail: the initial prefix read, single puts,
      the mirror delete's prefix read, and single deletes. */
  datatype StoreFaults = StoreFaults(readErr: Option<string>, putFails: set<string>,
                                     listErr: Option<string>, deleteFails: set<string>)

  /** The store after the closing mirror delete: unchanged when the prefix
      cannot be listed, otherwise the orphans whose deletes succeed are gone. */
  function MirrorOutcome(written: map<string, string>, prefix: string, desired: seq<string>, faults: StoreFaults)
    : map<string, string>
  {
    if faults.listErr.Some? then written
    else Mirrored(written, prefix, AllowedFrom(prefix, desired), faults.deleteFails)
  }

  /** The mirror delete after a pass, its failure only logged. */
  method Mirror(written: map<string, string>, prefix: string, desired: seq<string>, faults: StoreFaults)
    returns (after: map<string, string>)
    ensures after == MirrorOutcome(written, prefix, desired, faults)
  {
    var listing: Result<seq<string>, string>;
    if faults.listErr.Some? {
      listing := Err(faults.listErr.value);
    } else {
      var keys := ListUnder(written, prefix);
      listing := Ok(keys);
      MirrorResult(written, prefix, desired, keys, faults.deleteFails);
    }
    var e, removed, deleted;
    e, after, removed, deleted := MirrorDelete(written, prefix, desired, listing, faults.deleteFails);
  }

}
