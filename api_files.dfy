/** The file endpoints: the change tree of one server (which files the selected
    source would add, modify or delete on the host), the three-way file view,
    and the server lookup both of them start with.  The store's answers are
    inputs; Go's map iteration order is an input order that lists each key
    once. */
module ApiFiles {
  import opened Text
  import opened Wire
  import opened Config
  import Scp
  import DiffStats
  import TreeBuilder

  /** A handler's answer: an error status with its `{"error": ...}` message, or
      a 200 body. */
  datatype Reply<T> = Fail(status: int, error: string) | Done(body: T)

  const ModeMessage := "mode must be 'preview', or 'prod'"
  const NotFound := "server not found"

  predicate ModeValid(mode: string) {
    mode == "preview" || mode == "prod"
  }

  // ---------------------------------------------------------------------------
  // Reading hashes from the store.

  /** The relative path a ".hash" key stands for. */
  function RelOfHashKey(key: string, prefix: string): string {
    TrimPrefix(TrimSuffix(key, ".hash"), prefix)
  }

  /** The hash map a scan of the store's entries fills: one entry per ".hash"
      key, a later entry for the same path replacing an earlier one. */
  function HashesOf(kvs: seq<Scp.KeyValue>, prefix: string): map<string, string>
    decreases |kvs|
  {
    if |kvs| == 0 then map[]
    else
      var m := HashesOf(kvs[..|kvs| - 1], prefix);
      var kv := kvs[|kvs| - 1];
      if HasSuffix(kv.key, ".hash") then m[RelOfHashKey(kv.key, prefix) := kv.value] else m
  }

  /** Whether an entry is the ".hash" key of a relative path. */
  predicate HashKeyOf(kv: Scp.KeyValue, prefix: string, rel: string) {
    HasSuffix(kv.key, ".hash") && RelOfHashKey(kv.key, prefix) == rel
  }

  /** The hash-collecting loop. */
  method CollectHashes(kvs: seq<Scp.KeyValue>, prefix: string) returns (hashes: map<string, string>)
    ensures hashes == HashesOf(kvs, prefix)
  {
    hashes := map[];
    var i := 0;
    while i < |kvs|
      invariant 0 <= i <= |kvs|
      invariant hashes == HashesOf(kvs[..i], prefix)
    {
      assert kvs[..i + 1][..i] == kvs[..i];
      var key := kvs[i].key;
      if HasSuffix(key, ".hash") {
        hashes := hashes[TrimPrefix(TrimSuffix(key, ".hash"), prefix) := kvs[i].value];
      }
      i := i + 1;
    }
    assert kvs[..i] == kvs;
  }

  /** The relative path an entry contributes a hash for, if any. */
  function HashSel(kv: Scp.KeyValue, prefix: string): Option<string> {
    if HasSuffix(kv.key, ".hash") then Some(RelOfHashKey(kv.key, prefix)) else None
  }

  /** Each entry's contribution, in order. */
  function HashSels(kvs: seq<Scp.KeyValue>, prefix: string): (r: seq<Option<string>>)
    ensures |r| == |kvs|
    decreases |kvs|
  {
    if |kvs| == 0 then [] else HashSels(kvs[..|kvs| - 1], prefix) + [HashSel(kvs[|kvs| - 1], prefix)]
  }

  lemma {:induction false} HashSelsAt(kvs: seq<Scp.KeyValue>, prefix: string, i: int)
    requires 0 <= i < |kvs|
    ensures HashSels(kvs, prefix)[i] == HashSel(kvs[i], prefix)
    decreases |kvs|
  {
    if i < |kvs| - 1 {
      HashSelsAt(kvs[..|kvs| - 1], prefix, i);
    }
  }

  /** The hashed paths are the paths the entries contribute. */
  lemma {:induction false} HashesOfSels(kvs: seq<Scp.KeyValue>, prefix: string, rel: string)
    ensures rel in HashesOf(kvs, prefix) <==> Some(rel) in HashSels(kvs, prefix)
    decreases |kvs|
  {
    if |kvs| > 0 {
      var init := kvs[..|kvs| - 1];
      HashesOfSels(init, prefix, rel);
      assert HashSels(kvs, prefix) == HashSels(init, prefix) + [HashSel(kvs[|kvs| - 1], prefix)];
    }
  }

  /** Only ".hash" keys contribute, and each contributes its relative path. */
  lemma HashesOfKeys(kvs: seq<Scp.KeyValue>, prefix: string, rel: string)
    ensures rel in HashesOf(kvs, prefix) <==> exists i :: 0 <= i < |kvs| && HashKeyOf(kvs[i], prefix, rel)
  {
    HashesOfSels(kvs, prefix, rel);
    var s := HashSels(kvs, prefix);
    if Some(rel) in s {
      var i :| 0 <= i < |s| && s[i] == Some(rel);
      HashSelsAt(kvs, prefix, i);
      assert HashKeyOf(kvs[i], prefix, rel);
    }
    if exists i :: 0 <= i < |kvs| && HashKeyOf(kvs[i], prefix, rel) {
      var i :| 0 <= i < |kvs| && HashKeyOf(kvs[i], prefix, rel);
      HashSelsAt(kvs, prefix, i);
      assert s[i] == Some(rel);
    }
  }

  // ---------------------------------------------------------------------------
  // The status computation.

  /** A path as the console sees it: one leading "/" removed. */
  function Trim(p: string): string {
    TrimPrefix(p, "/")
  }

  /** The status of a path of either side: "added" when only the selected
      source has it, "modified" when both have it with different hashes,
      "deleted" when only the host has it, and none ("") otherwise. */
  function StatusFor(p: string, target: map<string, string>, remote: map<string, string>): string {
    if p in target && p !in remote then "added"
    else if p in target && p in remote && target[p] != remote[p] then "modified"
    else if p !in target && p in remote then "deleted"
    else ""
  }

  /** The two loops: the first walks the selected source's paths, the second
      the host's paths that the first did not see. */
  datatype Pass = TargetPass | RemotePass

  function Rule(pass: Pass, x: string, target: map<string, string>, remote: map<string, string>): string {
    if (x in target) == (pass == TargetPass) then StatusFor(x, target, remote) else ""
  }

  /** The statuses a pass records over the paths in the order it visits them. */
  function Recorded(order: seq<string>, pass: Pass, target: map<string, string>, remote: map<string, string>,
                    base: map<string, string>): map<string, string>
    decreases |order|
  {
    if |order| == 0 then base
    else
      var m := Recorded(order[..|order| - 1], pass, target, remote, base);
      var x := order[|order| - 1];
      if Rule(pass, x, target, remote) != "" then m[Trim(x) := Rule(pass, x, target, remote)] else m
  }

  lemma RecordedStep(order: seq<string>, x: string, pass: Pass, target: map<string, string>,
                     remote: map<string, string>, base: map<string, string>)
    ensures Recorded(order + [x], pass, target, remote, base) ==
            var m := Recorded(order, pass, target, remote, base);
            if Rule(pass, x, target, remote) != "" then m[Trim(x) := Rule(pass, x, target, remote)] else m
  {
    assert (order + [x])[..|order|] == order;
  }

  /** The paths a pass lists, trimmed. */
  function Trimmed(order: seq<string>): (r: seq<string>)
    ensures |r| == |order|
  {
    if |order| == 0 then [] else Trimmed(order[..|order| - 1]) + [Trim(order[|order| - 1])]
  }

  lemma TrimmedStep(order: seq<string>, x: string)
    ensures Trimmed(order + [x]) == Trimmed(order) + [Trim(x)]
  {
    assert (order + [x])[..|order|] == order;
  }

  /** The host's paths the first loop did not see, in visiting order. */
  function RemoteOnly(order: seq<string>, target: map<string, string>): seq<string> {
    if |order| == 0 then []
    else if order[|order| - 1] in target then RemoteOnly(order[..|order| - 1], target)
    else RemoteOnly(order[..|order| - 1], target) + [order[|order| - 1]]
  }

  lemma RemoteOnlyStep(order: seq<string>, x: string, target: map<string, string>)
    ensures RemoteOnly(order + [x], target) == if x in target then RemoteOnly(order, target) else RemoteOnly(order, target) + [x]
  {
    assert (order + [x])[..|order|] == order;
  }

  /** The paths the tree lists: the selected source's, then the host's others. */
  function TreePaths(targetOrder: seq<string>, remoteOrder: seq<string>, target: map<string, string>): seq<string> {
    Trimmed(targetOrder) + Trimmed(RemoteOnly(remoteOrder, target))
  }

  function Statuses(targetOrder: seq<string>, remoteOrder: seq<string>, target: map<string, string>,
                    remote: map<string, string>): map<string, string>
  {
    Recorded(remoteOrder, RemotePass, target, remote, Recorded(targetOrder, TargetPass, target, remote, map[]))
  }

  /** handleGetTree's two loops over the hash maps, visiting their keys in the
      given orders. */
  method TreeStatus(target: map<string, string>, remote: map<string, string>,
                    targetOrder: seq<string>, remoteOrder: seq<string>)
    returns (paths: seq<string>, statuses: map<string, string>)
    requires Scp.Enumerates(targetOrder, target.Keys) && Scp.Enumerates(remoteOrder, remote.Keys)
    ensures paths == TreePaths(targetOrder, remoteOrder, target)
    ensures statuses == Statuses(targetOrder, remoteOrder, target, remote)
  {
    var seen, deleted;
    paths, statuses, seen := VisitTargets(target, remote, targetOrder);
    deleted, statuses := VisitRemote(target, remote, remoteOrder, seen, statuses);
    paths := paths + deleted;
  }

  /** The first loop: every path of the selected source is listed, and marked
      "added" or "modified" when it differs from the host. */
  method VisitTargets(target: map<string, string>, remote: map<string, string>, targetOrder: seq<string>)
    returns (paths: seq<string>, statuses: map<string, string>, seen: set<string>)
    requires Scp.Enumerates(targetOrder, target.Keys)
    ensures paths == Trimmed(targetOrder)
    ensures statuses == Recorded(targetOrder, TargetPass, target, remote, map[])
    ensures seen == target.Keys
  {
    paths, statuses, seen := [], map[], {};
    var i := 0;
    while i < |targetOrder|
      invariant 0 <= i <= |targetOrder|
      invariant paths == Trimmed(targetOrder[..i])
      invariant statuses == Recorded(targetOrder[..i], TargetPass, target, remote, map[])
      invariant forall x :: x in seen <==> x in targetOrder[..i]
    {
      var rel := targetOrder[i];
      ghost var done := targetOrder[..i];
      assert targetOrder[..i + 1] == done + [rel];
      RecordedStep(done, rel, TargetPass, target, remote, map[]);
      TrimmedStep(done, rel);
      paths, statuses := VisitTarget(target, remote, rel, paths, statuses);
      seen := seen + {rel};
      i := i + 1;
    }
    assert targetOrder[..i] == targetOrder;
  }

  /** The first loop's body for one path of the selected source. */
  method VisitTarget(target: map<string, string>, remote: map<string, string>, rel: string,
                     paths0: seq<string>, statuses0: map<string, string>)
    returns (paths: seq<string>, statuses: map<string, string>)
    requires rel in target
    ensures paths == paths0 + [Trim(rel)]
    ensures statuses == if Rule(TargetPass, rel, target, remote) != "" then statuses0[Trim(rel) := Rule(TargetPass, rel, target, remote)]
                        else statuses0
  {
    var trimmed := Trim(rel);
    paths, statuses := paths0 + [trimmed], statuses0;
    if rel !in remote {
      assert Rule(TargetPass, rel, target, remote) == "added";
      statuses := statuses[trimmed := "added"];
    } else if target[rel] != remote[rel] {
      assert Rule(TargetPass, rel, target, remote) == "modified";
      statuses := statuses[trimmed := "modified"];
    } else {
      assert Rule(TargetPass, rel, target, remote) == "";
    }
  }

  /** The second loop: every host path the first loop did not see is listed
      (in deleted, which the caller appends to the paths) and marked
      "deleted". */
  method VisitRemote(target: map<string, string>, remote: map<string, string>, remoteOrder: seq<string>,
                     seen: set<string>, statuses0: map<string, string>)
    returns (deleted: seq<string>, statuses: map<string, string>)
    requires forall k :: 0 <= k < |remoteOrder| ==> remoteOrder[k] in remote
    requires seen == target.Keys
    ensures deleted == Trimmed(RemoteOnly(remoteOrder, target))
    ensures statuses == Recorded(remoteOrder, RemotePass, target, remote, statuses0)
  {
    deleted, statuses := [], statuses0;
    var j := 0;
    while j < |remoteOrder|
      invariant 0 <= j <= |remoteOrder|
      invariant deleted == Trimmed(RemoteOnly(remoteOrder[..j], target))
      invariant statuses == Recorded(remoteOrder[..j], RemotePass, target, remote, statuses0)
    {
      RemoteVisitStep(remoteOrder, j, target, remote, statuses0);
      deleted, statuses := VisitRemotePath(target, remote, remoteOrder[j], seen, deleted, statuses);
      j := j + 1;
    }
    assert remoteOrder[..j] == remoteOrder;
  }

  /** What one more host path adds to the second loop's results. */
  lemma RemoteVisitStep(remoteOrder: seq<string>, j: int, target: map<string, string>, remote: map<string, string>,
                        statuses0: map<string, string>)
    requires 0 <= j < |remoteOrder|
    ensures var rel := remoteOrder[j];
            var d := Trimmed(RemoteOnly(remoteOrder[..j], target));
            Trimmed(RemoteOnly(remoteOrder[..j + 1], target)) == if rel in target then d else d + [Trim(rel)]
    ensures var rel := remoteOrder[j];
            var m := Recorded(remoteOrder[..j], RemotePass, target, remote, statuses0);
            Recorded(remoteOrder[..j + 1], RemotePass, target, remote, statuses0) ==
              if Rule(RemotePass, rel, target, remote) != "" then m[Trim(rel) := Rule(RemotePass, rel, target, remote)] else m
  {
    var rel := remoteOrder[j];
    var done := remoteOrder[..j];
    assert remoteOrder[..j + 1] == done + [rel];
    RecordedStep(done, rel, RemotePass, target, remote, statuses0);
    RemoteOnlyStep(done, rel, target);
    TrimmedStep(RemoteOnly(done, target), rel);
  }

  /** The second loop's body for one host path. */
  method VisitRemotePath(target: map<string, string>, remote: map<string, string>, rel: string, seen: set<string>,
                         deleted0: seq<string>, statuses0: map<string, string>)
    returns (deleted: seq<string>, statuses: map<string, string>)
    requires rel in remote
    requires seen == target.Keys
    ensures deleted == if rel in target then deleted0 else deleted0 + [Trim(rel)]
    ensures statuses == if Rule(RemotePass, rel, target, remote) != "" then statuses0[Trim(rel) := Rule(RemotePass, rel, target, remote)]
                        else statuses0
  {
    deleted, statuses := deleted0, statuses0;
    if rel !in seen {
      assert Rule(RemotePass, rel, target, remote) == "deleted";
      deleted := deleted + [Trim(rel)];
      statuses := statuses[Trim(rel) := "deleted"];
    } else {
      assert Rule(RemotePass, rel, target, remote) == "";
    }
  }

  // ---------------------------------------------------------------------------
  // What the statuses mean, whatever the iteration order.

  /** No two keys lose their leading "/" to the same path. */
  ghost predicate TrimInjective(keys: set<string>) {
    forall a, b :: a in keys && b in keys && Trim(a) == Trim(b) ==> a == b
  }

  /** A pass records every path its rule gives a status, under the path's
      trimmed form, and keeps what it started with. */
  lemma RecordedMeaning(order: seq<string>, pass: Pass, target: map<string, string>,
                        remote: map<string, string>, base: map<string, string>)
    requires forall a, b :: a in order && b in order && Trim(a) == Trim(b) ==> a == b
    requires forall x :: x in order && Rule(pass, x, target, remote) != "" ==> Trim(x) !in base
    ensures forall x :: x in order && Rule(pass, x, target, remote) != "" ==>
              Trim(x) in Recorded(order, pass, target, remote, base) &&
              Recorded(order, pass, target, remote, base)[Trim(x)] == Rule(pass, x, target, remote)
    ensures forall t :: t in Recorded(order, pass, target, remote, base) ==>
              t in base || exists x :: x in order && Rule(pass, x, target, remote) != "" && Trim(x) == t
    ensures forall t :: t in base ==> t in Recorded(order, pass, target, remote, base) &&
                                      Recorded(order, pass, target, remote, base)[t] == base[t]
  {
    RecordedHas(order, pass, target, remote, base);
    RecordedOnly(order, pass, target, remote, base);
    RecordedKeeps(order, pass, target, remote, base);
  }

  /** Every path the rule gives a status is recorded with that status. */
  lemma {:induction false} RecordedHas(order: seq<string>, pass: Pass, target: map<string, string>,
                                       remote: map<string, string>, base: map<string, string>)
    requires forall a, b :: a in order && b in order && Trim(a) == Trim(b) ==> a == b
    ensures forall x :: x in order && Rule(pass, x, target, remote) != "" ==>
              Trim(x) in Recorded(order, pass, target, remote, base) &&
              Recorded(order, pass, target, remote, base)[Trim(x)] == Rule(pass, x, target, remote)
    decreases |order|
  {
    if |order| > 0 {
      var init := order[..|order| - 1];
      var x := order[|order| - 1];
      assert order == init + [x];
      RecordedHas(init, pass, target, remote, base);
      var m := Recorded(init, pass, target, remote, base);
      var r := Rule(pass, x, target, remote);
      RecordedStep(init, x, pass, target, remote, base);
      forall y | y in order && Rule(pass, y, target, remote) != ""
        ensures Trim(y) in Recorded(order, pass, target, remote, base)
        ensures Recorded(order, pass, target, remote, base)[Trim(y)] == Rule(pass, y, target, remote)
      {
        if y != x {
          assert y in init;
          assert Trim(y) != Trim(x);
        }
      }
    }
  }

  /** Nothing is recorded but the starting entries and the paths the rule gives
      a status. */
  lemma {:induction false} RecordedOnly(order: seq<string>, pass: Pass, target: map<string, string>,
                                        remote: map<string, string>, base: map<string, string>)
    ensures forall t :: t in Recorded(order, pass, target, remote, base) ==>
              t in base || exists x :: x in order && Rule(pass, x, target, remote) != "" && Trim(x) == t
    decreases |order|
  {
    if |order| > 0 {
      var init := order[..|order| - 1];
      var x := order[|order| - 1];
      assert order == init + [x];
      RecordedOnly(init, pass, target, remote, base);
      RecordedStep(init, x, pass, target, remote, base);
      forall t | t in Recorded(order, pass, target, remote, base) && t !in base
        ensures exists y :: y in order && Rule(pass, y, target, remote) != "" && Trim(y) == t
      {
        if t in Recorded(init, pass, target, remote, base) {
          var y :| y in init && Rule(pass, y, target, remote) != "" && Trim(y) == t;
          assert y in order;
        } else {
          assert Trim(x) == t;
        }
      }
    }
  }

  /** The starting entries are kept when the pass records none of their paths. */
  lemma {:induction false} RecordedKeeps(order: seq<string>, pass: Pass, target: map<string, string>,
                                         remote: map<string, string>, base: map<string, string>)
    requires forall x :: x in order && Rule(pass, x, target, remote) != "" ==> Trim(x) !in base
    ensures forall t :: t in base ==> t in Recorded(order, pass, target, remote, base) &&
                                      Recorded(order, pass, target, remote, base)[t] == base[t]
    decreases |order|
  {
    if |order| > 0 {
      var init := order[..|order| - 1];
      var x := order[|order| - 1];
      assert order == init + [x];
      RecordedKeeps(init, pass, target, remote, base);
      RecordedStep(init, x, pass, target, remote, base);
      assert x in order;
    }
  }

  /** The statuses the tree carries do not depend on the order the maps are
      walked in, as long as no two keys trim to the same path: a path of either
      side has a status exactly when StatusFor gives it one, and every status
      belongs to such a path. */
  lemma StatusesMeaning(target: map<string, string>, remote: map<string, string>,
                        targetOrder: seq<string>, remoteOrder: seq<string>)
    requires Scp.Enumerates(targetOrder, target.Keys) && Scp.Enumerates(remoteOrder, remote.Keys)
    requires TrimInjective(target.Keys + remote.Keys)
    ensures forall p :: p in target.Keys + remote.Keys ==>
              (Trim(p) in Statuses(targetOrder, remoteOrder, target, remote) <==> StatusFor(p, target, remote) != "")
    ensures forall p :: p in target.Keys + remote.Keys && StatusFor(p, target, remote) != "" ==>
              Statuses(targetOrder, remoteOrder, target, remote)[Trim(p)] == StatusFor(p, target, remote)
    ensures forall t :: t in Statuses(targetOrder, remoteOrder, target, remote) ==>
              exists p :: p in target.Keys + remote.Keys && Trim(p) == t
  {
    StatusesOfKeys(target, remote, targetOrder, remoteOrder);
    StatusesFromKeys(target, remote, targetOrder, remoteOrder);
  }

  /** Each path of either side has the status StatusFor gives it. */
  lemma StatusesOfKeys(target: map<string, string>, remote: map<string, string>,
                       targetOrder: seq<string>, remoteOrder: seq<string>)
    requires Scp.Enumerates(targetOrder, target.Keys) && Scp.Enumerates(remoteOrder, remote.Keys)
    requires TrimInjective(target.Keys + remote.Keys)
    ensures forall p :: p in target.Keys + remote.Keys ==>
              (Trim(p) in Statuses(targetOrder, remoteOrder, target, remote) <==> StatusFor(p, target, remote) != "")
    ensures forall p :: p in target.Keys + remote.Keys && StatusFor(p, target, remote) != "" ==>
              Statuses(targetOrder, remoteOrder, target, remote)[Trim(p)] == StatusFor(p, target, remote)
  {
    var first := Recorded(targetOrder, TargetPass, target, remote, map[]);
    RecordedMeaning(targetOrder, TargetPass, target, remote, map[]);
    forall x | x in remoteOrder && Rule(RemotePass, x, target, remote) != ""
      ensures Trim(x) !in first
    {
      assert x !in target;
    }
    RecordedMeaning(remoteOrder, RemotePass, target, remote, first);
    var all := Statuses(targetOrder, remoteOrder, target, remote);
    forall p | p in target.Keys + remote.Keys
      ensures Trim(p) in all <==> StatusFor(p, target, remote) != ""
      ensures StatusFor(p, target, remote) != "" ==> all[Trim(p)] == StatusFor(p, target, remote)
    {
      if p in target {
        assert p in targetOrder;
      } else {
        assert p in remoteOrder;
      }
    }
  }

  /** Every status belongs to a path of one of the two sides. */
  lemma StatusesFromKeys(target: map<string, string>, remote: map<string, string>,
                         targetOrder: seq<string>, remoteOrder: seq<string>)
    requires Scp.Enumerates(targetOrder, target.Keys) && Scp.Enumerates(remoteOrder, remote.Keys)
    ensures forall t :: t in Statuses(targetOrder, remoteOrder, target, remote) ==>
              exists p :: p in target.Keys + remote.Keys && Trim(p) == t
  {
    var first := Recorded(targetOrder, TargetPass, target, remote, map[]);
    RecordedOnly(targetOrder, TargetPass, target, remote, map[]);
    RecordedOnly(remoteOrder, RemotePass, target, remote, first);
    forall t | t in Statuses(targetOrder, remoteOrder, target, remote)
      ensures exists p :: p in target.Keys + remote.Keys && Trim(p) == t
    {
      if t in first {
        var x :| x in targetOrder && Rule(TargetPass, x, target, remote) != "" && Trim(x) == t;
        assert x in target.Keys + remote.Keys;
      } else {
        var x :| x in remoteOrder && Rule(RemotePass, x, target, remote) != "" && Trim(x) == t;
        assert x in target.Keys + remote.Keys;
      }
    }
  }

  lemma {:induction false} TrimmedAppend(a: seq<string>, b: seq<string>)
    ensures Trimmed(a + b) == Trimmed(a) + Trimmed(b)
    decreases |b|
  {
    if |b| > 0 {
      assert a + b == (a + b[..|b| - 1]) + [b[|b| - 1]];
      TrimmedAppend(a, b[..|b| - 1]);
    } else {
      assert a + b == a;
    }
  }

  lemma {:induction false} TrimmedAt(order: seq<string>)
    ensures forall k :: 0 <= k < |order| ==> Trimmed(order)[k] == Trim(order[k])
    decreases |order|
  {
    if |order| > 0 {
      TrimmedAt(order[..|order| - 1]);
    }
  }

  /** Dropping the last element of a list of distinct elements lists the set
      without it. */
  lemma EnumeratesInit(order: seq<string>, s: set<string>)
    requires |order| > 0 && Scp.Enumerates(order, s)
    ensures Scp.Enumerates(order[..|order| - 1], s - {order[|order| - 1]})
  {
    var init := order[..|order| - 1];
    var x := order[|order| - 1];
    forall k | 0 <= k < |init| ensures init[k] != x {
      assert init[k] == order[k];
    }
    assert forall y :: y in order <==> y in init || y == x;
  }

  lemma {:induction false} RemoteOnlyEnumerates(order: seq<string>, s: set<string>, target: map<string, string>)
    requires Scp.Enumerates(order, s)
    ensures Scp.Enumerates(RemoteOnly(order, target), s - target.Keys)
    decreases |order|
  {
    if |order| > 0 {
      var init := order[..|order| - 1];
      var x := order[|order| - 1];
      EnumeratesInit(order, s);
      RemoteOnlyEnumerates(init, s - {x}, target);
      assert x in s;
      assert forall y :: y in s <==> y in s - {x} || y == x;
      var r := RemoteOnly(init, target);
      if x !in target {
        assert x !in r;
        forall i, j | 0 <= i < j < |r| + 1 ensures (r + [x])[i] != (r + [x])[j] {
          if j == |r| {
            assert (r + [x])[i] == r[i];
          }
        }
      }
    } else {
      assert forall y :: y !in s by {
        forall y ensures y !in s {
          assert y !in order;
        }
      }
    }
  }

  /** Two lists of disjoint sets, one after the other, list their union. */
  lemma ConcatEnumerates(a: seq<string>, sa: set<string>, b: seq<string>, sb: set<string>, u: set<string>)
    requires Scp.Enumerates(a, sa) && Scp.Enumerates(b, sb) && sa !! sb
    requires forall x :: x in u <==> x in sa || x in sb
    ensures Scp.Enumerates(a + b, u)
  {
    var all := a + b;
    forall i, j | 0 <= i < j < |all| ensures all[i] != all[j] {
      if j < |a| {
        assert all[i] == a[i] && all[j] == a[j];
      } else if i >= |a| {
        assert all[i] == b[i - |a|] && all[j] == b[j - |a|];
      } else {
        assert all[i] == a[i] && all[j] == b[j - |a|];
        assert a[i] in a && b[j - |a|] in b;
      }
    }
  }

  /** Trimming a list of distinct keys, no two of which trim alike, gives a
      list of distinct paths naming each key once. */
  lemma TrimmedEnumeration(all: seq<string>, s: set<string>, paths: seq<string>)
    requires Scp.Enumerates(all, s) && TrimInjective(s)
    requires paths == Trimmed(all)
    ensures |paths| == |s|
    ensures forall i, j :: 0 <= i < j < |paths| ==> paths[i] != paths[j]
    ensures forall p :: p in s ==> Trim(p) in paths
    ensures forall t :: t in paths ==> exists p :: p in s && Trim(p) == t
  {
    Scp.EnumerationSize(all, s);
    TrimmedAt(all);
    forall p | p in s ensures Trim(p) in paths {
      var k :| 0 <= k < |all| && all[k] == p;
      assert paths[k] == Trim(p);
    }
    forall t | t in paths ensures exists p :: p in s && Trim(p) == t {
      var k :| 0 <= k < |paths| && paths[k] == t;
      assert all[k] in all;
    }
  }

  /** Every path of either side is listed exactly once, trimmed, provided no
      two keys trim to the same path. */
  lemma PathsMeaning(target: map<string, string>, remote: map<string, string>,
                     targetOrder: seq<string>, remoteOrder: seq<string>)
    requires Scp.Enumerates(targetOrder, target.Keys) && Scp.Enumerates(remoteOrder, remote.Keys)
    requires TrimInjective(target.Keys + remote.Keys)
    ensures |TreePaths(targetOrder, remoteOrder, target)| == |target.Keys + remote.Keys|
    ensures forall i, j :: 0 <= i < j < |TreePaths(targetOrder, remoteOrder, target)| ==>
              TreePaths(targetOrder, remoteOrder, target)[i] != TreePaths(targetOrder, remoteOrder, target)[j]
    ensures forall p :: p in target.Keys + remote.Keys ==> Trim(p) in TreePaths(targetOrder, remoteOrder, target)
    ensures forall t :: t in TreePaths(targetOrder, remoteOrder, target) ==>
              exists p :: p in target.Keys + remote.Keys && Trim(p) == t
  {
    var only := RemoteOnly(remoteOrder, target);
    var keys := target.Keys + remote.Keys;
    RemoteOnlyEnumerates(remoteOrder, remote.Keys, target);
    ConcatEnumerates(targetOrder, target.Keys, only, remote.Keys - target.Keys, keys);
    TrimmedAppend(targetOrder, only);
    TrimmedEnumeration(targetOrder + only, keys, TreePaths(targetOrder, remoteOrder, target));
  }

  // ---------------------------------------------------------------------------
  // findServerConfig: the first server with the address, in the first group of
  // that name that has one.  Servers are matched on their address, not their
  // name.

  function FirstHost(servers: seq<ServerConfig>, host: string): Option<ServerConfig> {
    if |servers| == 0 then None
    else if servers[0].host == host then Some(servers[0])
    else FirstHost(servers[1..], host)
  }

  function FirstServer(groups: seq<NginxServerGroup>, group: string, host: string): Option<ServerConfig> {
    if |groups| == 0 then None
    else if groups[0].group == group && FirstHost(groups[0].servers, host).Some? then FirstHost(groups[0].servers, host)
    else FirstServer(groups[1..], group, host)
  }

  /** Whether the j-th server of the i-th group has the group name and address. */
  predicate Serves(groups: seq<NginxServerGroup>, i: int, j: int, group: string, host: string) {
    0 <= i < |groups| && 0 <= j < |groups[i].servers| &&
    groups[i].group == group && groups[i].servers[j].host == host
  }

  /** The nested search loop. */
  method FindServer(groups: seq<NginxServerGroup>, group: string, host: string) returns (r: Option<ServerConfig>)
    ensures r == FirstServer(groups, group, host)
  {
    var i := 0;
    while i < |groups|
      invariant 0 <= i <= |groups|
      invariant FirstServer(groups, group, host) == FirstServer(groups[i..], group, host)
    {
      assert groups[i..][1..] == groups[i + 1..];
      var g := groups[i];
      if g.group == group {
        var j := 0;
        while j < |g.servers|
          invariant 0 <= j <= |g.servers|
          invariant FirstHost(g.servers, host) == FirstHost(g.servers[j..], host)
        {
          assert g.servers[j..][1..] == g.servers[j + 1..];
          if g.servers[j].host == host {
            return Some(g.servers[j]);
          }
          j := j + 1;
        }
      }
      i := i + 1;
    }
    return None;
  }

  /** The address search finds the first server with the address, and nothing
      when no server has it. */
  lemma {:induction false} FirstHostMeaning(servers: seq<ServerConfig>, host: string)
    ensures FirstHost(servers, host).None? <==> forall j :: 0 <= j < |servers| ==> servers[j].host != host
    ensures FirstHost(servers, host).Some? ==>
              exists j :: 0 <= j < |servers| && servers[j] == FirstHost(servers, host).value && servers[j].host == host &&
                          forall k :: 0 <= k < j ==> servers[k].host != host
    decreases |servers|
  {
    if |servers| > 0 {
      FirstHostMeaning(servers[1..], host);
      if servers[0].host == host {
        assert servers[0] == FirstHost(servers, host).value;
      } else if FirstHost(servers, host).Some? {
        var j :| 0 <= j < |servers| - 1 && servers[1..][j] == FirstHost(servers, host).value && servers[1..][j].host == host &&
                 forall k :: 0 <= k < j ==> servers[1..][k].host != host;
        assert servers[j + 1] == servers[1..][j];
        assert forall k :: 0 < k < j + 1 ==> servers[k] == servers[1..][k - 1];
      } else {
        assert forall j :: 0 < j < |servers| ==> servers[j] == servers[1..][j - 1];
      }
    }
  }

  /** The lookup finds a server exactly when some group of that name has a
      server with that address, and what it finds is such a server. */
  lemma {:induction false} FirstServerMeaning(groups: seq<NginxServerGroup>, group: string, host: string)
    ensures FirstServer(groups, group, host).None? <==> forall i, j :: !Serves(groups, i, j, group, host)
    ensures FirstServer(groups, group, host).Some? ==>
              exists i, j :: Serves(groups, i, j, group, host) && groups[i].servers[j] == FirstServer(groups, group, host).value
    decreases |groups|
  {
    if |groups| > 0 {
      FirstServerMeaning(groups[1..], group, host);
      FirstHostMeaning(groups[0].servers, host);
      forall i, j | Serves(groups[1..], i, j, group, host) ensures Serves(groups, i + 1, j, group, host) {
      }
      forall i, j | Serves(groups, i, j, group, host) && i > 0 ensures Serves(groups[1..], i - 1, j, group, host) {
        assert groups[1..][i - 1] == groups[i];
      }
      if groups[0].group == group && FirstHost(groups[0].servers, host).Some? {
        var j :| 0 <= j < |groups[0].servers| && groups[0].servers[j] == FirstHost(groups[0].servers, host).value &&
                 groups[0].servers[j].host == host && forall k :: 0 <= k < j ==> groups[0].servers[k].host != host;
        assert Serves(groups, 0, j, group, host);
      } else if FirstServer(groups, group, host).Some? {
        var i, j :| Serves(groups[1..], i, j, group, host) && groups[1..][i].servers[j] == FirstServer(groups, group, host).value;
        assert Serves(groups, i + 1, j, group, host);
      }
    }
  }

  // ---------------------------------------------------------------------------
  // Key prefixes.

  /** A source's prefix for one server: base/group/host/suffix, the suffix
      being the last element of the server's configuration directory. */
  function KeyPrefix(base: string, group: string, host: string, srv: ServerConfig): string {
    JoinPath([base, group, host, Base(srv.nginxConfigDir)])
  }

  /** The source the host is compared with: the preview store in preview
      mode, the git store otherwise. */
  function TargetBase(settings: Settings, mode: string): (base: string)
    ensures mode == "preview" ==> base == settings.previewPrefix
    ensures mode != "preview" ==> base == settings.gitPrefix
  {
    if mode == "preview" then settings.previewPrefix else settings.gitPrefix
  }

  /** handleGetTree.  targetKvs and remoteKvs are the store's answers for the
      selected source's prefix and the host's prefix; the orders are those in
      which Go's map iteration visits the two hash maps. */
  method GetTree(settings: Settings, group: string, host: string, mode: string,
                 targetKvs: Result<seq<Scp.KeyValue>, string>, remoteKvs: Result<seq<Scp.KeyValue>, string>,
                 targetOrder: seq<string>, remoteOrder: seq<string>)
    returns (r: Reply<TreeResponse>)
    requires FirstServer(settings.servers, group, host).Some? && targetKvs.Ok? ==>
               Scp.Enumerates(targetOrder, HashesOf(targetKvs.value,
                 KeyPrefix(TargetBase(settings, mode), group, host, FirstServer(settings.servers, group, host).value)).Keys)
    requires FirstServer(settings.servers, group, host).Some? && remoteKvs.Ok? ==>
               Scp.Enumerates(remoteOrder, HashesOf(remoteKvs.value,
                 KeyPrefix(settings.remotePrefix, group, host, FirstServer(settings.servers, group, host).value)).Keys)
    ensures group == "" || host == "" ==> r == Fail(400, "group and host are required")
    ensures group != "" && host != "" && !ModeValid(mode) ==> r == Fail(400, ModeMessage)
    ensures group != "" && host != "" && ModeValid(mode) && FirstServer(settings.servers, group, host).None? ==>
              r == Fail(404, NotFound)
    ensures group != "" && host != "" && ModeValid(mode) && FirstServer(settings.servers, group, host).Some? ==>
              var srv := FirstServer(settings.servers, group, host).value;
              var prefix := KeyPrefix(TargetBase(settings, mode), group, host, srv);
              (targetKvs.Err? ==> r == Fail(500, targetKvs.error)) &&
              (targetKvs.Ok? && remoteKvs.Err? ==> r == Fail(500, remoteKvs.error)) &&
              (targetKvs.Ok? && remoteKvs.Ok? ==>
                 var target := HashesOf(targetKvs.value, prefix);
                 var remote := HashesOf(remoteKvs.value, KeyPrefix(settings.remotePrefix, group, host, srv));
                 r == Done(TreeResponse(prefix, OmitEmpty(TreePaths(targetOrder, remoteOrder, target)),
                                        Statuses(targetOrder, remoteOrder, target, remote))))
  {
    if group == "" || host == "" {
      return Fail(400, "group and host are required");
    }
    if mode != "preview" && mode != "prod" {
      return Fail(400, ModeMessage);
    }
    var found := FindServer(settings.servers, group, host);
    if found.None? {
      return Fail(404, NotFound);
    }
    var srv := found.value;
    var prefix := KeyPrefix(if mode == "preview" then settings.previewPrefix else settings.gitPrefix, group, host, srv);
    var remotePrefix := KeyPrefix(settings.remotePrefix, group, host, srv);
    if targetKvs.Err? {
      return Fail(500, targetKvs.error);
    }
    var target := CollectHashes(targetKvs.value, prefix);
    if remoteKvs.Err? {
      return Fail(500, remoteKvs.error);
    }
    var remote := CollectHashes(remoteKvs.value, remotePrefix);
    var paths, statuses := TreeStatus(target, remote, targetOrder, remoteOrder);
    return Done(TreeResponse(prefix, OmitEmpty(paths), statuses));
  }

  // ---------------------------------------------------------------------------
  // The three-way view of one file.

  /** The path sanitisation: the first of the preview, git and host prefixes
      that the path starts with is removed, then one leading slash. */
  function Sanitize(relPath: string, previewPrefix: string, gitPrefix: string, remotePrefix: string): (r: string)
    ensures !HasPrefix(relPath, previewPrefix) && !HasPrefix(relPath, gitPrefix) && !HasPrefix(relPath, remotePrefix) ==>
              r == Trim(relPath)
    ensures |r| <= |relPath|
  {
    var stripped :=
      if HasPrefix(relPath, previewPrefix) then TrimPrefix(relPath, previewPrefix)
      else if HasPrefix(relPath, gitPrefix) then TrimPrefix(relPath, gitPrefix)
      else if HasPrefix(relPath, remotePrefix) then TrimPrefix(relPath, remotePrefix)
      else relPath;
    TrimPrefix(stripped, "/")
  }

  function CompareLabel(mode: string): (caption: string)
    ensures caption == "Preview" <==> mode == "preview"
    ensures caption != "Preview" ==> caption == "Production"
  {
    if mode == "preview" then "Preview" else "Production"
  }

  /** A store read: the value, or "" when the key is missing or the read
      fails (a failed read is modelled as a missing key). */
  function Read(store: map<string, string>, key: string): (v: string)
    ensures key !in store ==> v == ""
    ensures key in store ==> v == store[key]
  {
    if key in store then store[key] else ""
  }

  /** Whether the diff library's answer reaches the response: the counting
      step fails on an error and on a text of fewer than two lines. */
  predicate DiffShown(library: Result<string, string>) {
    library.Ok? && |DiffStats.SplitLines(library.value)| >= 2
  }

  /** handleGetTripleDiff.  store holds what the reads return; library is what
      the diff library returns for the two contents. */
  method TripleDiff(settings: Settings, group: string, host: string, mode: string, relPath: string,
                    store: map<string, string>, library: Result<string, string>)
    returns (r: Reply<TripleDiffResponse>)
    ensures group == "" || host == "" || relPath == "" ==> r == Fail(400, "group, host and path are required")
    ensures group != "" && host != "" && relPath != "" && !ModeValid(mode) ==> r == Fail(400, ModeMessage)
    ensures group != "" && host != "" && relPath != "" && ModeValid(mode) && FirstServer(settings.servers, group, host).None? ==>
              r == Fail(404, NotFound)
    ensures group != "" && host != "" && relPath != "" && ModeValid(mode) && FirstServer(settings.servers, group, host).Some? ==>
              var srv := FirstServer(settings.servers, group, host).value;
              var suffix := Base(srv.nginxConfigDir);
              var rel := Sanitize(relPath, KeyPrefix(settings.previewPrefix, group, host, srv),
                                  KeyPrefix(settings.gitPrefix, group, host, srv), KeyPrefix(settings.remotePrefix, group, host, srv));
              r.Done? && r.body.path == rel && r.body.mode == mode && r.body.compareLabel == CompareLabel(mode) &&
              r.body.remoteContent == Read(store, JoinPath([settings.remotePrefix, group, host, suffix, rel])) &&
              r.body.compareContent == Read(store, JoinPath([TargetBase(settings, mode), group, host, suffix, rel])) &&
              r.body.diff == (if DiffShown(library) then library.value else "") &&
              r.body.fileStatus == ""
  {
    if group == "" || host == "" || relPath == "" {
      return Fail(400, "group, host and path are required");
    }
    if mode != "preview" && mode != "prod" {
      return Fail(400, ModeMessage);
    }
    var found := FindServer(settings.servers, group, host);
    if found.None? {
      return Fail(404, NotFound);
    }
    var body := DiffOf(settings, group, host, mode, relPath, found.value, store, library);
    return Done(body);
  }

  /** The reply body of handleGetTripleDiff once the server is known: the
      sanitised path, the host's copy, the selected source's copy, and the diff. */
  method DiffOf(settings: Settings, group: string, host: string, mode: string, relPath: string, srv: ServerConfig,
                store: map<string, string>, library: Result<string, string>)
    returns (body: TripleDiffResponse)
    requires ModeValid(mode)
    ensures var suffix := Base(srv.nginxConfigDir);
            var rel := Sanitize(relPath, KeyPrefix(settings.previewPrefix, group, host, srv),
                                KeyPrefix(settings.gitPrefix, group, host, srv), KeyPrefix(settings.remotePrefix, group, host, srv));
            body.path == rel && body.mode == mode && body.compareLabel == CompareLabel(mode) &&
            body.remoteContent == Read(store, JoinPath([settings.remotePrefix, group, host, suffix, rel])) &&
            body.compareContent == Read(store, JoinPath([TargetBase(settings, mode), group, host, suffix, rel])) &&
            body.diff == (if DiffShown(library) then library.value else "") &&
            body.fileStatus == ""
  {
    var suffix := Base(srv.nginxConfigDir);
    var gitPrefix := JoinPath([settings.gitPrefix, group, host, suffix]);
    var previewPrefix := JoinPath([settings.previewPrefix, group, host, suffix]);
    var remotePrefix := JoinPath([settings.remotePrefix, group, host, suffix]);
    var rel := relPath;
    if HasPrefix(rel, previewPrefix) {
      rel := TrimPrefix(rel, previewPrefix);
    } else if HasPrefix(rel, gitPrefix) {
      rel := TrimPrefix(rel, gitPrefix);
    } else if HasPrefix(rel, remotePrefix) {
      rel := TrimPrefix(rel, remotePrefix);
    }
    rel := TrimPrefix(rel, "/");
    assert rel == Sanitize(relPath, previewPrefix, gitPrefix, remotePrefix);
    var remoteContent := Read(store, JoinPath([settings.remotePrefix, group, host, suffix, rel]));
    var compareKey, compareLabel;
    if mode == "preview" {
      compareKey, compareLabel := JoinPath([settings.previewPrefix, group, host, suffix, rel]), "Preview";
    } else {
      compareKey, compareLabel := JoinPath([settings.gitPrefix, group, host, suffix, rel]), "Production";
    }
    assert compareKey == JoinPath([TargetBase(settings, mode), group, host, suffix, rel]);
    var compareContent := Read(store, compareKey);
    var diffText := DiffTextOf(library);
    body := TripleDiffResponse(rel, remoteContent, compareContent, diffText, mode, compareLabel, "");
  }

  /** The diff text of the reply: the library's text when the counting step
      accepts it, and "" otherwise. */
  method DiffTextOf(library: Result<string, string>) returns (diffText: string)
    ensures diffText == if DiffShown(library) then library.value else ""
  {
    var generated := DiffStats.Generate(library);
    diffText := "";
    if generated.Ok? {
      diffText := generated.value.unifiedDiff;
    }
  }

  /** A source's prefix is its base, a slash, and the rest. */
  lemma KeyPrefixStarts(base: string, group: string, host: string, srv: ServerConfig)
    requires base != ""
    ensures KeyPrefix(base, group, host, srv) == base + "/" + JoinPath([group, host, Base(srv.nginxConfigDir)])
  {
    NonEmptyKeeps([group, host, Base(srv.nginxConfigDir)], Base(srv.nginxConfigDir));
    JoinPathCons(base, [group, host, Base(srv.nginxConfigDir)]);
    assert [base] + [group, host, Base(srv.nginxConfigDir)] == [base, group, host, Base(srv.nginxConfigDir)];
  }

  /** A path under the preview prefix loses the prefix and the slash. */
  lemma SanitizeFirst(p: string, g: string, r: string, rel: string)
    requires !HasPrefix(rel, "/")
    ensures Sanitize(p + "/" + rel, p, g, r) == rel
  {
    var key := p + "/" + rel;
    assert key[..|p|] == p;
    assert key[|p|..] == "/" + rel;
  }

  /** A path under the git prefix but not the preview prefix loses the git
      prefix and the slash. */
  lemma SanitizeSecond(p: string, g: string, r: string, rel: string)
    requires !HasPrefix(rel, "/") && !HasPrefix(g + "/" + rel, p)
    ensures Sanitize(g + "/" + rel, p, g, r) == rel
  {
    var key := g + "/" + rel;
    assert key[..|g|] == g;
    assert key[|g|..] == "/" + rel;
  }

  /** A key under the default git prefix never starts with the default
      preview prefix followed by a slash. */
  lemma GitKeyNotPreview(restG: string, restP: string, tail: string)
    ensures !HasPrefix(DefaultGitPrefix + "/" + restG + tail, DefaultPreviewPrefix + "/" + restP)
  {
    var key := DefaultGitPrefix + "/" + restG + tail;
    var p := DefaultPreviewPrefix + "/" + restP;
    assert key[13] == '/';
    assert p[13] == '-';
  }

  /** With the default prefixes, the key the console holds for a file of the
      tree sanitises back to the file's path, in both modes: the preview prefix
      is tried first, and a git key never starts with it, because the git
      prefix has a slash where the preview prefix has a dash. */
  lemma TreeKeySanitizes(settings: Settings, group: string, host: string, srv: ServerConfig, mode: string, rel: string)
    requires settings.previewPrefix == DefaultPreviewPrefix && settings.gitPrefix == DefaultGitPrefix
    requires settings.remotePrefix == DefaultRemotePrefix
    requires !HasPrefix(rel, "/")
    ensures Sanitize(TreeBuilder.NodeKey(KeyPrefix(TargetBase(settings, mode), group, host, srv), rel),
                     KeyPrefix(settings.previewPrefix, group, host, srv), KeyPrefix(settings.gitPrefix, group, host, srv),
                     KeyPrefix(settings.remotePrefix, group, host, srv)) == rel
  {
    var rest := JoinPath([group, host, Base(srv.nginxConfigDir)]);
    var p := KeyPrefix(settings.previewPrefix, group, host, srv);
    var g := KeyPrefix(settings.gitPrefix, group, host, srv);
    var r := KeyPrefix(settings.remotePrefix, group, host, srv);
    if mode == "preview" {
      SanitizeFirst(p, g, r, rel);
    } else {
      KeyPrefixStarts(settings.previewPrefix, group, host, srv);
      KeyPrefixStarts(settings.gitPrefix, group, host, srv);
      GitKeyNotPreview(rest, rest, "/" + rel);
      assert g + "/" + rel == DefaultGitPrefix + "/" + rest + ("/" + rel);
      SanitizeSecond(p, g, r, rel);
    }
  }
}
