/** The change-tree builder of the console: flat "/"-separated paths and a
    path -> status map become a forest of directory and file nodes, each carrying an
    aggregated change flag; unchanged subtrees are dropped on request and every
    sibling list is sorted changed-first, then by name.

    Phase 1 inserts every path into a hierarchy of Entry values (the nested object
    map of the original, with sibling order = insertion order); phase 2 processes
    the hierarchy bottom-up into View nodes. */
module TreeBuilder {
  import opened Text

  /** Own-property lookups on a `{}` literal also answer for the names it inherits
      from Object.prototype; a segment with one of these names is never created. */
  const InheritedNames: set<string> := {
    "constructor", "toString", "toLocaleString", "valueOf", "hasOwnProperty",
    "isPrototypeOf", "propertyIsEnumerable", "__proto__", "__defineGetter__",
    "__defineSetter__", "__lookupGetter__", "__lookupSetter__"
  }

  /** A node of the insertion hierarchy. */
  datatype Entry =
    | Leaf(name: string, key: string, status: Option<string>)
    | Dir(name: string, key: string, status: Option<string>, children: seq<Entry>)

  /** The status marker table (icon, colour, label text). */
  datatype Marker = Marker(icon: string, color: string, caption: string)

  /** A node of the returned forest.  Only leaves can carry a marker. */
  datatype View =
    | VLeaf(name: string, key: string, marker: Option<Marker>, changed: bool)
    | VDir(name: string, key: string, changed: bool, children: seq<View>)

  function StatusMarkers(): map<string, Marker> {
    map[
      "modified" := Marker("★", "#faad14", "修改"),
      "added" := Marker("+", "#52c41a", "新增"),
      "deleted" := Marker("-", "#ff4d4f", "删除")
    ]
  }

  /** `p.split("/").filter(Boolean)`. */
  function Segments(p: string): (segs: seq<string>)
    ensures forall k :: 0 <= k < |segs| ==> segs[k] != "" && '/' !in segs[k]
  {
    SplitPiecesFree(p, '/');
    NonEmpty(Split(p, '/'))
  }

  /** The key of the node whose relative path is rel. */
  function NodeKey(prefix: string, rel: string): string {
    if prefix != "" then prefix + "/" + rel else rel
  }

  function Lookup(statuses: map<string, string>, rel: string): Option<string> {
    if rel in statuses then Some(statuses[rel]) else None
  }

  /** JavaScript truthiness of a looked-up status: present and not "". */
  predicate Truthy(s: Option<string>) {
    s.Some? && s.value != ""
  }

  /** Position of the first sibling called name, or |level| when there is none. */
  function IndexOf(level: seq<Entry>, name: string): (i: nat)
    ensures i <= |level|
    ensures i < |level| ==> level[i].name == name
    ensures forall j :: 0 <= j < i ==> level[j].name != name
  {
    if |level| == 0 then 0
    else if level[0].name == name then 0
    else 1 + IndexOf(level[1..], name)
  }

  /** Inserts the remaining segments segs below the level reached through the
      segments done.  An existing node is kept as it is (a leaf stops the
      descent); a missing one is created with its key and its status, except
      that a name in blocked is treated as present with no children. */
  function Insert(level: seq<Entry>, done: seq<string>, segs: seq<string>,
                  prefix: string, statuses: map<string, string>, blocked: set<string>): seq<Entry>
    decreases |segs|
  {
    if |segs| == 0 then level
    else
      var seg := segs[0];
      var rel := Join(done + [seg], "/");
      var i := IndexOf(level, seg);
      if i < |level| then
        if level[i].Dir? then
          level[i := level[i].(children := Insert(level[i].children, done + [seg], segs[1..], prefix, statuses, blocked))]
        else level
      else if seg in blocked then level
      else if |segs| == 1 then level + [Leaf(seg, NodeKey(prefix, rel), Lookup(statuses, rel))]
      else level + [Dir(seg, NodeKey(prefix, rel), Lookup(statuses, rel),
                        Insert([], done + [seg], segs[1..], prefix, statuses, blocked))]
  }

  /** The hierarchy after inserting every path in order. */
  function Hierarchy(prefix: string, paths: seq<string>, statuses: map<string, string>,
                     blocked: set<string>): seq<Entry>
  {
    if |paths| == 0 then []
    else Insert(Hierarchy(prefix, paths[..|paths| - 1], statuses, blocked), [],
                Segments(paths[|paths| - 1]), prefix, statuses, blocked)
  }

  /** Phase 1: `paths.forEach`, inserting path after path into the root. */
  method BuildHierarchy(prefix: string, paths: seq<string>, statuses: map<string, string>,
                        blocked: set<string>) returns (root: seq<Entry>)
    ensures root == Hierarchy(prefix, paths, statuses, blocked)
    ensures WellFormed(root, [], prefix, statuses)
  {
    root := [];
    var i := 0;
    assert paths[..0] == [];
    while i < |paths|
      invariant 0 <= i <= |paths|
      invariant root == Hierarchy(prefix, paths[..i], statuses, blocked)
    {
      HierarchyStep(prefix, paths, i, statuses, blocked);
      root := Insert(root, [], Segments(paths[i]), prefix, statuses, blocked);
      i := i + 1;
    }
    assert paths[..|paths|] == paths;
    assert root == Hierarchy(prefix, paths, statuses, blocked);
    HierarchyWellFormed(prefix, paths, statuses, blocked);
  }

  /** One more path inserts into the hierarchy of the paths before it. */
  lemma HierarchyStep(prefix: string, paths: seq<string>, i: int, statuses: map<string, string>,
                      blocked: set<string>)
    requires 0 <= i < |paths|
    ensures Hierarchy(prefix, paths[..i + 1], statuses, blocked)
         == Insert(Hierarchy(prefix, paths[..i], statuses, blocked), [], Segments(paths[i]), prefix, statuses, blocked)
  {
    assert paths[..i + 1][..i] == paths[..i];
  }

  /** Every hierarchy the insertions build is well formed. */
  lemma {:induction false} HierarchyWellFormed(prefix: string, paths: seq<string>, statuses: map<string, string>,
                                               blocked: set<string>)
    ensures WellFormed(Hierarchy(prefix, paths, statuses, blocked), [], prefix, statuses)
    decreases |paths|
  {
    if |paths| > 0 {
      var init := paths[..|paths| - 1];
      HierarchyWellFormed(prefix, init, statuses, blocked);
      InsertWellFormed(Hierarchy(prefix, init, statuses, blocked), [], Segments(paths[|paths| - 1]),
                       prefix, statuses, blocked);
    }
  }

  // ---------------------------------------------------------------------------
  // Well-formedness of the hierarchy: unique sibling names, and every node's key
  // and status are those of its relative path.

  ghost predicate WellFormed(level: seq<Entry>, done: seq<string>, prefix: string,
                             statuses: map<string, string>)
    decreases level
  {
    (forall i, j :: 0 <= i < j < |level| ==> level[i].name != level[j].name) &&
    forall i :: 0 <= i < |level| ==>
      && level[i].name != "" && '/' !in level[i].name
      && level[i].key == NodeKey(prefix, Join(done + [level[i].name], "/"))
      && level[i].status == Lookup(statuses, Join(done + [level[i].name], "/"))
      && (level[i].Dir? ==> WellFormed(level[i].children, done + [level[i].name], prefix, statuses))
  }

  /** Insertion keeps the hierarchy well formed. */
  lemma {:induction false} InsertWellFormed(level: seq<Entry>, done: seq<string>, segs: seq<string>,
                                            prefix: string, statuses: map<string, string>, blocked: set<string>)
    requires WellFormed(level, done, prefix, statuses)
    requires forall k :: 0 <= k < |segs| ==> segs[k] != "" && '/' !in segs[k]
    ensures WellFormed(Insert(level, done, segs, prefix, statuses, blocked), done, prefix, statuses)
    decreases |segs|
  {
    if |segs| > 0 {
      var seg := segs[0];
      var rel := Join(done + [seg], "/");
      var i := IndexOf(level, seg);
      if i < |level| {
        if level[i].Dir? {
          var kids := Insert(level[i].children, done + [seg], segs[1..], prefix, statuses, blocked);
          InsertWellFormed(level[i].children, done + [seg], segs[1..], prefix, statuses, blocked);
          ChildrenWellFormed(level, done, prefix, statuses, i, kids);
          assert Insert(level, done, segs, prefix, statuses, blocked) == level[i := level[i].(children := kids)];
        }
      } else if seg !in blocked {
        if |segs| == 1 {
          var e := Leaf(seg, NodeKey(prefix, rel), Lookup(statuses, rel));
          AppendWellFormed(level, done, prefix, statuses, e);
          assert Insert(level, done, segs, prefix, statuses, blocked) == level + [e];
        } else {
          var kids := Insert([], done + [seg], segs[1..], prefix, statuses, blocked);
          InsertWellFormed([], done + [seg], segs[1..], prefix, statuses, blocked);
          var e := Dir(seg, NodeKey(prefix, rel), Lookup(statuses, rel), kids);
          AppendWellFormed(level, done, prefix, statuses, e);
          assert Insert(level, done, segs, prefix, statuses, blocked) == level + [e];
        }
      }
    }
  }

  /** Replacing a directory's children by well-formed ones keeps the level well formed. */
  lemma ChildrenWellFormed(level: seq<Entry>, done: seq<string>, prefix: string, statuses: map<string, string>,
                           i: nat, kids: seq<Entry>)
    requires WellFormed(level, done, prefix, statuses)
    requires i < |level| && level[i].Dir?
    requires WellFormed(kids, done + [level[i].name], prefix, statuses)
    ensures WellFormed(level[i := level[i].(children := kids)], done, prefix, statuses)
  {
    var l2 := level[i := level[i].(children := kids)];
    forall j | 0 <= j < |l2| ensures l2[j].name == level[j].name {
    }
  }

  /** Appending a node with a fresh name, its own key and status, and well-formed
      children keeps the level well formed. */
  lemma AppendWellFormed(level: seq<Entry>, done: seq<string>, prefix: string, statuses: map<string, string>, e: Entry)
    requires WellFormed(level, done, prefix, statuses)
    requires forall j :: 0 <= j < |level| ==> level[j].name != e.name
    requires e.name != "" && '/' !in e.name
    requires e.key == NodeKey(prefix, Join(done + [e.name], "/"))
    requires e.status == Lookup(statuses, Join(done + [e.name], "/"))
    requires e.Dir? ==> WellFormed(e.children, done + [e.name], prefix, statuses)
    ensures WellFormed(level + [e], done, prefix, statuses)
  {
  }

  // ---------------------------------------------------------------------------
  // Re-inserting a path changes nothing; nothing is added below a leaf.

  /** Inserting the same segments twice is the same as inserting them once. */
  lemma {:induction false} InsertIdempotent(level: seq<Entry>, done: seq<string>, segs: seq<string>,
                                            prefix: string, statuses: map<string, string>, blocked: set<string>)
    ensures var once := Insert(level, done, segs, prefix, statuses, blocked);
            Insert(once, done, segs, prefix, statuses, blocked) == once
    decreases |segs|
  {
    if |segs| > 0 {
      var seg := segs[0];
      var i := IndexOf(level, seg);
      var once := Insert(level, done, segs, prefix, statuses, blocked);
      if i < |level| {
        if level[i].Dir? {
          InsertIdempotent(level[i].children, done + [seg], segs[1..], prefix, statuses, blocked);
          IndexOfUpdate(level, i, once[i]);
        }
      } else if seg !in blocked {
        IndexOfAppend(level, once[|level|]);
        if |segs| > 1 {
          InsertIdempotent([], done + [seg], segs[1..], prefix, statuses, blocked);
        }
      }
    }
  }

  lemma IndexOfUpdate(level: seq<Entry>, i: nat, e: Entry)
    requires i < |level| && e.name == level[i].name && IndexOf(level, e.name) == i
    ensures IndexOf(level[i := e], e.name) == i
    ensures forall n :: IndexOf(level[i := e], n) == IndexOf(level, n)
  {
    forall n ensures IndexOf(level[i := e], n) == IndexOf(level, n) {
      IndexOfSameNames(level, level[i := e], n);
    }
  }

  lemma {:induction false} IndexOfSameNames(a: seq<Entry>, b: seq<Entry>, n: string)
    requires |a| == |b| && forall k :: 0 <= k < |a| ==> a[k].name == b[k].name
    ensures IndexOf(a, n) == IndexOf(b, n)
    decreases |a|
  {
    if |a| > 0 && a[0].name != n {
      IndexOfSameNames(a[1..], b[1..], n);
    }
  }

  lemma {:induction false} IndexOfAppend(level: seq<Entry>, e: Entry)
    ensures IndexOf(level + [e], e.name) == if IndexOf(level, e.name) < |level| then IndexOf(level, e.name) else |level|
    ensures forall n :: IndexOf(level, n) < |level| ==> IndexOf(level + [e], n) == IndexOf(level, n)
    decreases |level|
  {
    if |level| > 0 {
      assert (level + [e])[1..] == level[1..] + [e];
      IndexOfAppend(level[1..], e);
    }
  }

  /** The node reached by following segs from level, if every step exists. */
  function Reach(level: seq<Entry>, segs: seq<string>): (r: Option<Entry>)
    requires |segs| > 0
    decreases |segs|
  {
    var i := IndexOf(level, segs[0]);
    if i == |level| then None
    else if |segs| == 1 then Some(level[i])
    else if level[i].Leaf? then None
    else Reach(level[i].children, segs[1..])
  }

  /** A path that runs on below an existing leaf adds nothing. */
  lemma {:induction false} InsertBelowLeaf(level: seq<Entry>, done: seq<string>, segs: seq<string>, k: nat,
                                           prefix: string, statuses: map<string, string>, blocked: set<string>)
    requires 0 < k < |segs|
    requires Reach(level, segs[..k]).Some? && Reach(level, segs[..k]).value.Leaf?
    ensures Insert(level, done, segs, prefix, statuses, blocked) == level
    decreases k
  {
    var i := IndexOf(level, segs[0]);
    assert segs[..k][0] == segs[0];
    if k > 1 {
      assert segs[..k][1..] == segs[1..][..k - 1];
      InsertBelowLeaf(level[i].children, done + [segs[0]], segs[1..], k - 1, prefix, statuses, blocked);
      assert level[i].(children := level[i].children) == level[i];
      assert level[i := level[i]] == level;
    }
  }

  /** Once inserting a path changes nothing, inserting any other path first keeps
      it that way. */
  lemma {:induction false} SettledStays(level: seq<Entry>, done: seq<string>, s: seq<string>, t: seq<string>,
                                        prefix: string, statuses: map<string, string>, blocked: set<string>)
    requires Insert(level, done, s, prefix, statuses, blocked) == level
    ensures var after := Insert(level, done, t, prefix, statuses, blocked);
            Insert(after, done, s, prefix, statuses, blocked) == after
    decreases |s|
  {
    var after := Insert(level, done, t, prefix, statuses, blocked);
    if |s| > 0 && |t| > 0 {
      var i := IndexOf(level, s[0]);
      var j := IndexOf(level, t[0]);
      if i < |level| {
        if j < |level| {
          if level[j].Dir? {
            IndexOfUpdate(level, j, after[j]);
            if level[i].Dir? {
              if i == j {
                assert level[i].children == Insert(level[i].children, done + [s[0]], s[1..], prefix, statuses, blocked) by {
                  assert level[i := level[i].(children := Insert(level[i].children, done + [s[0]], s[1..], prefix, statuses, blocked))] == level;
                }
                SettledStays(level[i].children, done + [s[0]], s[1..], t[1..], prefix, statuses, blocked);
              } else {
                assert after[i] == level[i];
              }
            }
          }
        } else if t[0] !in blocked {
          IndexOfAppend(level, after[|level|]);
          if level[i].Dir? {
            assert after[i] == level[i];
            assert after[..|level|] == level;
          }
        }
      } else {
        // Inserting s changed nothing although its first segment is missing: it is blocked.
        assert s[0] in blocked;
        if j == |level| && t[0] !in blocked {
          IndexOfAppend(level, after[|level|]);
        }
      }
    }
  }

  /** Re-inserting any path of the list leaves the built hierarchy unchanged. */
  lemma {:induction false} ReinsertChangesNothing(prefix: string, paths: seq<string>, statuses: map<string, string>,
                                                  blocked: set<string>, k: nat)
    requires k < |paths|
    ensures var h := Hierarchy(prefix, paths, statuses, blocked);
            Insert(h, [], Segments(paths[k]), prefix, statuses, blocked) == h
    decreases |paths|
  {
    var n := |paths| - 1;
    var init := paths[..n];
    var h0 := Hierarchy(prefix, init, statuses, blocked);
    if k == n {
      InsertIdempotent(h0, [], Segments(paths[k]), prefix, statuses, blocked);
    } else {
      assert init[k] == paths[k];
      ReinsertChangesNothing(prefix, init, statuses, blocked, k);
      SettledStays(h0, [], Segments(paths[k]), Segments(paths[n]), prefix, statuses, blocked);
    }
  }

  // ---------------------------------------------------------------------------
  // Every inserted path gets its node.

  /** A proper prefix of segs leads to a leaf of level. */
  ghost predicate LeafOnTheWay(level: seq<Entry>, segs: seq<string>) {
    exists j :: 0 < j < |segs| && Reach(level, segs[..j]).Some? && Reach(level, segs[..j]).value.Leaf?
  }

  /** Inserting segs, none of them blocked and with no leaf on the way, makes
      segs reach a node. */
  lemma {:induction false} InsertReaches(level: seq<Entry>, done: seq<string>, segs: seq<string>,
                                         prefix: string, statuses: map<string, string>, blocked: set<string>)
    requires |segs| > 0 && forall j :: 0 <= j < |segs| ==> segs[j] !in blocked
    requires !LeafOnTheWay(level, segs)
    ensures Reach(Insert(level, done, segs, prefix, statuses, blocked), segs).Some?
    decreases |segs|
  {
    var seg := segs[0];
    var rel := Join(done + [seg], "/");
    var i := IndexOf(level, seg);
    var after := Insert(level, done, segs, prefix, statuses, blocked);
    if i < |level| {
      if |segs| > 1 {
        assert segs[..1][0] == seg;
        assert Reach(level, segs[..1]) == Some(level[i]);
        assert !level[i].Leaf?;
        var kids := Insert(level[i].children, done + [seg], segs[1..], prefix, statuses, blocked);
        assert !LeafOnTheWay(level[i].children, segs[1..]) by {
          forall j | 0 < j < |segs| - 1
            ensures Reach(level[i].children, segs[1..][..j]) == Reach(level, segs[..j + 1])
          {
            assert segs[..j + 1][0] == seg && segs[..j + 1][1..] == segs[1..][..j];
          }
        }
        InsertReaches(level[i].children, done + [seg], segs[1..], prefix, statuses, blocked);
        assert after == level[i := level[i].(children := kids)];
        IndexOfUpdate(level, i, after[i]);
      } else {
        if level[i].Dir? {
          assert Insert(level[i].children, done + [seg], segs[1..], prefix, statuses, blocked) == level[i].children;
          assert level[i].(children := level[i].children) == level[i];
        }
        assert after == level;
      }
    } else {
      var e := if |segs| == 1 then Leaf(seg, NodeKey(prefix, rel), Lookup(statuses, rel))
               else Dir(seg, NodeKey(prefix, rel), Lookup(statuses, rel),
                        Insert([], done + [seg], segs[1..], prefix, statuses, blocked));
      assert after == level + [e];
      IndexOfAppend(level, e);
      if |segs| > 1 {
        assert !LeafOnTheWay([], segs[1..]);
        InsertReaches([], done + [seg], segs[1..], prefix, statuses, blocked);
      }
    }
  }

  /** A node that segs reaches is still reached after any insertion, and a leaf
      stays a leaf. */
  lemma {:induction false} InsertKeepsReach(level: seq<Entry>, done: seq<string>, t: seq<string>,
                                            prefix: string, statuses: map<string, string>, blocked: set<string>,
                                            segs: seq<string>)
    requires |segs| > 0 && Reach(level, segs).Some?
    ensures var r := Reach(Insert(level, done, t, prefix, statuses, blocked), segs);
            r.Some? && r.value.Leaf? == Reach(level, segs).value.Leaf?
    decreases |t|
  {
    if |t| > 0 {
      var i := IndexOf(level, t[0]);
      var j := IndexOf(level, segs[0]);
      var after := Insert(level, done, t, prefix, statuses, blocked);
      if i < |level| {
        if level[i].Dir? {
          var kids := Insert(level[i].children, done + [t[0]], t[1..], prefix, statuses, blocked);
          assert after == level[i := level[i].(children := kids)];
          IndexOfUpdate(level, i, after[i]);
          if i == j && |segs| > 1 {
            InsertKeepsReach(level[i].children, done + [t[0]], t[1..], prefix, statuses, blocked, segs[1..]);
          }
        }
      } else if t[0] !in blocked {
        var rel := Join(done + [t[0]], "/");
        var e := if |t| == 1 then Leaf(t[0], NodeKey(prefix, rel), Lookup(statuses, rel))
                 else Dir(t[0], NodeKey(prefix, rel), Lookup(statuses, rel),
                          Insert([], done + [t[0]], t[1..], prefix, statuses, blocked));
        assert after == level + [e];
        IndexOfAppend(level, e);
        assert after[j] == level[j];
      }
    }
  }

  /** What the hierarchy of the first m paths reaches, the whole hierarchy reaches,
      leaves staying leaves. */
  lemma {:induction false} HierarchyKeepsReach(prefix: string, paths: seq<string>, statuses: map<string, string>,
                                               blocked: set<string>, m: nat, segs: seq<string>)
    requires m <= |paths| && |segs| > 0
    requires Reach(Hierarchy(prefix, paths[..m], statuses, blocked), segs).Some?
    ensures var r := Reach(Hierarchy(prefix, paths, statuses, blocked), segs);
            r.Some? && r.value.Leaf? == Reach(Hierarchy(prefix, paths[..m], statuses, blocked), segs).value.Leaf?
    decreases |paths|
  {
    if m == |paths| {
      assert paths[..m] == paths;
    } else {
      var n := |paths| - 1;
      var init := paths[..n];
      assert init[..m] == paths[..m];
      var h0 := Hierarchy(prefix, init, statuses, blocked);
      HierarchyStep(prefix, paths, n, statuses, blocked);
      assert paths[..n + 1] == paths;
      HierarchyKeepsReach(prefix, init, statuses, blocked, m, segs);
      InsertKeepsReach(h0, [], Segments(paths[n]), prefix, statuses, blocked, segs);
    }
  }

  /** A node reached in a well-formed level carries the key and the status of its
      relative path: the path full, of which the level holds the nodes below its
      first d segments. */
  lemma {:induction false} ReachWellFormed(level: seq<Entry>, full: seq<string>, d: nat,
                                           prefix: string, statuses: map<string, string>)
    requires d < |full| && WellFormed(level, full[..d], prefix, statuses)
    requires Reach(level, full[d..]).Some?
    ensures Reach(level, full[d..]).value.key == NodeKey(prefix, Join(full, "/"))
    ensures Reach(level, full[d..]).value.status == Lookup(statuses, Join(full, "/"))
    decreases |full| - d
  {
    var segs := full[d..];
    assert segs[0] == full[d];
    var i := IndexOf(level, full[d]);
    ReachFirst(level, segs);
    WellFormedNode(level, full, d, prefix, statuses, i);
    if d == |full| - 1 {
      assert full[..d + 1] == full;
    } else {
      assert segs[1..] == full[d + 1..];
      ReachWellFormed(level[i].children, full, d + 1, prefix, statuses);
    }
  }

  /** Well-formedness at the node named by the next segment of full. */
  lemma WellFormedNode(level: seq<Entry>, full: seq<string>, d: nat, prefix: string, statuses: map<string, string>,
                       i: nat)
    requires d < |full| && WellFormed(level, full[..d], prefix, statuses)
    requires i < |level| && level[i].name == full[d]
    ensures level[i].key == NodeKey(prefix, Join(full[..d + 1], "/"))
    ensures level[i].status == Lookup(statuses, Join(full[..d + 1], "/"))
    ensures level[i].Dir? ==> WellFormed(level[i].children, full[..d + 1], prefix, statuses)
  {
    WellFormedAt(level, full[..d], prefix, statuses, i);
    assert full[..d] + [full[d]] == full[..d + 1];
  }

  /** A reached node is the first step's node, or lies below that directory. */
  lemma ReachFirst(level: seq<Entry>, segs: seq<string>)
    requires |segs| > 0 && Reach(level, segs).Some?
    ensures IndexOf(level, segs[0]) < |level|
    ensures |segs| == 1 ==> Reach(level, segs) == Some(level[IndexOf(level, segs[0])])
    ensures |segs| > 1 ==> level[IndexOf(level, segs[0])].Dir? &&
                           Reach(level, segs) == Reach(level[IndexOf(level, segs[0])].children, segs[1..])
  {
  }

  /** What well-formedness says about one node of the level. */
  lemma WellFormedAt(level: seq<Entry>, done: seq<string>, prefix: string, statuses: map<string, string>, i: nat)
    requires WellFormed(level, done, prefix, statuses) && i < |level|
    ensures level[i].key == NodeKey(prefix, Join(done + [level[i].name], "/"))
    ensures level[i].status == Lookup(statuses, Join(done + [level[i].name], "/"))
    ensures level[i].Dir? ==> WellFormed(level[i].children, done + [level[i].name], prefix, statuses)
  {
  }

  /** Every input path with a segment and no blocked segment ends up in the
      hierarchy, with its own key and status, unless an earlier part of it is a
      file of the hierarchy. */
  lemma HierarchyHasPath(prefix: string, paths: seq<string>, statuses: map<string, string>,
                         blocked: set<string>, k: nat)
    requires k < |paths| && Segments(paths[k]) != []
    requires forall j :: 0 <= j < |Segments(paths[k])| ==> Segments(paths[k])[j] !in blocked
    requires !LeafOnTheWay(Hierarchy(prefix, paths, statuses, blocked), Segments(paths[k]))
    ensures var r := Reach(Hierarchy(prefix, paths, statuses, blocked), Segments(paths[k]));
            && r.Some?
            && r.value.key == NodeKey(prefix, Join(Segments(paths[k]), "/"))
            && r.value.status == Lookup(statuses, Join(Segments(paths[k]), "/"))
  {
    var segs := Segments(paths[k]);
    var hk := Hierarchy(prefix, paths[..k], statuses, blocked);
    HierarchyStep(prefix, paths, k, statuses, blocked);
    assert !LeafOnTheWay(hk, segs) by {
      forall j | 0 < j < |segs| && Reach(hk, segs[..j]).Some?
        ensures !Reach(hk, segs[..j]).value.Leaf?
      {
        InsertKeepsReach(hk, [], segs, prefix, statuses, blocked, segs[..j]);
        HierarchyKeepsReach(prefix, paths, statuses, blocked, k + 1, segs[..j]);
      }
    }
    InsertReaches(hk, [], segs, prefix, statuses, blocked);
    HierarchyKeepsReach(prefix, paths, statuses, blocked, k + 1, segs);
    HierarchyWellFormed(prefix, paths, statuses, blocked);
    assert segs[..0] == [] && segs[0..] == segs;
    ReachWellFormed(Hierarchy(prefix, paths, statuses, blocked), segs, 0, prefix, statuses);
  }

  // ---------------------------------------------------------------------------
  // Phase 2: bottom-up processing, filtering and sorting.

  /** Code-point lexicographic order, the model's stand-in for localeCompare: a
      strict total order on strings. */
  predicate NameLess(a: string, b: string)
    decreases |a|
  {
    if |a| == 0 then |b| > 0
    else if |b| == 0 then false
    else if a[0] == b[0] then NameLess(a[1..], b[1..])
    else a[0] < b[0]
  }

  lemma {:induction false} NameLessIrreflexive(a: string)
    ensures !NameLess(a, a)
    decreases |a|
  {
    if |a| > 0 {
      NameLessIrreflexive(a[1..]);
    }
  }

  lemma {:induction false} NameLessTransitive(a: string, b: string, c: string)
    requires NameLess(a, b) && NameLess(b, c)
    ensures NameLess(a, c)
    decreases |a|
  {
    if |a| > 0 && |b| > 0 && |c| > 0 && a[0] == b[0] && b[0] == c[0] {
      NameLessTransitive(a[1..], b[1..], c[1..]);
    }
  }

  lemma {:induction false} NameLessTotal(a: string, b: string)
    requires a != b
    ensures NameLess(a, b) || NameLess(b, a)
    decreases |a|
  {
    if |a| > 0 && |b| > 0 && a[0] == b[0] {
      assert a == [a[0]] + a[1..] && b == [b[0]] + b[1..];
      NameLessTotal(a[1..], b[1..]);
    }
  }

  /** a sorts strictly before b: changed nodes first, then by raw segment name. */
  predicate Before(a: View, b: View) {
    (a.changed && !b.changed) || (a.changed == b.changed && NameLess(a.name, b.name))
  }

  predicate Sorted(vs: seq<View>) {
    forall i, j :: 0 <= i < j < |vs| ==> !Before(vs[j], vs[i])
  }

  lemma BeforeAsymmetric(a: View, b: View)
    requires Before(a, b)
    ensures !Before(b, a)
  {
    if Before(b, a) {
      NameLessTransitive(a.name, b.name, a.name);
      NameLessIrreflexive(a.name);
    }
  }

  /** Before is a strict weak order: if c comes before a, then any b comes after c
      or before a. */
  lemma BeforeSplits(a: View, b: View, c: View)
    requires Before(c, a)
    ensures Before(c, b) || Before(b, a)
  {
    if c.changed == a.changed && b.changed == a.changed && b.name != c.name {
      NameLessTotal(b.name, c.name);
      if NameLess(b.name, c.name) {
        NameLessTransitive(b.name, c.name, a.name);
      }
    }
  }

  /** One step of the sibling sort. */
  function InsertSorted(x: View, s: seq<View>): (r: seq<View>)
    ensures multiset(r) == multiset(s) + multiset{x}
  {
    if |s| == 0 then [x]
    else if Before(s[0], x) then
      assert s == [s[0]] + s[1..];
      [s[0]] + InsertSorted(x, s[1..])
    else [x] + s
  }

  lemma {:induction false} InsertSortedKeepsOrder(x: View, s: seq<View>)
    requires Sorted(s)
    ensures Sorted(InsertSorted(x, s))
    decreases |s|
  {
    if |s| > 0 {
      if Before(s[0], x) {
        var rest := InsertSorted(x, s[1..]);
        assert InsertSorted(x, s) == [s[0]] + rest;
        InsertSortedKeepsOrder(x, s[1..]);
        HeadStaysFirst(x, s);
        SortedCons(s[0], rest);
      } else {
        forall j | 0 <= j < |s| ensures !Before(s[j], x) {
          if Before(s[j], x) {
            BeforeSplits(x, s[0], s[j]);
          }
        }
        SortedCons(x, s);
      }
    }
  }

  /** When the head of a sorted list comes before x, nothing of the insertion
      into the tail comes before that head. */
  lemma HeadStaysFirst(x: View, s: seq<View>)
    requires Sorted(s) && |s| > 0 && Before(s[0], x)
    ensures forall v :: v in InsertSorted(x, s[1..]) ==> !Before(v, s[0])
  {
    InsertSortedFrom(x, s[1..]);
    forall v | v in InsertSorted(x, s[1..]) ensures !Before(v, s[0]) {
      if v == x {
        BeforeAsymmetric(s[0], x);
      } else {
        var m :| 0 <= m < |s[1..]| && s[1..][m] == v;
        assert s[m + 1] == v;
      }
    }
  }

  /** A node that nothing of a sorted list comes before can head it. */
  lemma SortedCons(a: View, rest: seq<View>)
    requires Sorted(rest)
    requires forall v :: v in rest ==> !Before(v, a)
    ensures Sorted([a] + rest)
  {
    var r := [a] + rest;
    forall i, j | 0 <= i < j < |r| ensures !Before(r[j], r[i]) {
      assert r[j] == rest[j - 1];
      assert rest[j - 1] in rest;
      if i > 0 {
        assert r[i] == rest[i - 1];
      }
    }
  }

  /** Every element of the insertion's result is the inserted node or one of
      the list's. */
  lemma {:induction false} InsertSortedFrom(x: View, s: seq<View>)
    ensures forall v :: v in InsertSorted(x, s) ==> v == x || v in s
    decreases |s|
  {
    if |s| > 0 && Before(s[0], x) {
      InsertSortedFrom(x, s[1..]);
      assert InsertSorted(x, s) == [s[0]] + InsertSorted(x, s[1..]);
      assert forall v :: v in s[1..] ==> v in s;
    } else if |s| > 0 {
      assert InsertSorted(x, s) == [x] + s;
    }
  }

  /** `resultNodes.sort(...)`, as an insertion sort. */
  function SortViews(s: seq<View>): (r: seq<View>)
    ensures multiset(r) == multiset(s)
    ensures Sorted(r)
  {
    if |s| == 0 then []
    else
      assert s == [s[0]] + s[1..];
      var rest := SortViews(s[1..]);
      InsertSortedKeepsOrder(s[0], rest);
      InsertSorted(s[0], rest)
  }

  function MarkerOf(status: Option<string>): Option<Marker> {
    if status.Some? && status.value in StatusMarkers() then Some(StatusMarkers()[status.value]) else None
  }

  /** `process(nodesMap)`: the processed siblings, sorted, and whether any of them
      has a change. */
  function ProcessLevel(level: seq<Entry>, showAll: bool): (seq<View>, bool)
    decreases level, 1
  {
    var c := Collect(level, showAll);
    (SortViews(c.0), c.1)
  }

  /** The `forEach` of process over the siblings, before sorting. */
  function Collect(level: seq<Entry>, showAll: bool): (seq<View>, bool)
    decreases level, 0
  {
    if |level| == 0 then ([], false)
    else
      var e := level[0];
      var kids := if e.Dir? then ProcessLevel(e.children, showAll) else ([], false);
      var changed := Truthy(e.status) || kids.1;
      var node := if e.Leaf? then VLeaf(e.name, e.key, MarkerOf(e.status), changed)
                  else VDir(e.name, e.key, changed, kids.0);
      var rest := Collect(level[1..], showAll);
      ((if showAll || changed then [node] else []) + rest.0, changed || rest.1)
  }

  /** buildTree(prefix, paths, fileStatuses, showAll). */
  function BuildTree(prefix: string, paths: seq<string>, statuses: map<string, string>, showAll: bool): seq<View> {
    ProcessLevel(Hierarchy(prefix, paths, statuses, {}), showAll).0
  }

  /** buildTree as written, with the inherited property names of `{}` in the way. */
  function BuildTreeAsWritten(prefix: string, paths: seq<string>, statuses: map<string, string>, showAll: bool): seq<View> {
    ProcessLevel(Hierarchy(prefix, paths, statuses, InheritedNames), showAll).0
  }

  // ---------------------------------------------------------------------------
  // The reference meaning of the processed forest.

  /** Some node of the subtree (the node included) carries a truthy status. */
  ghost predicate Changed(e: Entry)
    decreases e
  {
    Truthy(e.status) || (e.Dir? && exists k :: 0 <= k < |e.children| && Changed(e.children[k]))
  }

  ghost predicate AnyChanged(level: seq<Entry>) {
    exists k :: 0 <= k < |level| && Changed(level[k])
  }

  /** The view node an entry is shown as. */
  ghost function ViewOf(e: Entry, showAll: bool): View {
    if e.Leaf? then VLeaf(e.name, e.key, MarkerOf(e.status), Changed(e))
    else VDir(e.name, e.key, Changed(e), ProcessLevel(e.children, showAll).0)
  }

  /** The entries that are shown (all of them, or only the changed ones), as views,
      in hierarchy order. */
  ghost function Shown(level: seq<Entry>, showAll: bool): seq<View> {
    if |level| == 0 then []
    else (if showAll || Changed(level[0]) then [ViewOf(level[0], showAll)] else []) + Shown(level[1..], showAll)
  }

  /** The processed siblings are exactly the shown entries, and the group flag is
      the OR of the entries' change flags. */
  lemma {:induction false} CollectMeaning(level: seq<Entry>, showAll: bool)
    ensures Collect(level, showAll).0 == Shown(level, showAll)
    ensures Collect(level, showAll).1 == AnyChanged(level)
    decreases level
  {
    if |level| > 0 {
      var e := level[0];
      CollectMeaning(level[1..], showAll);
      if e.Dir? {
        CollectMeaning(e.children, showAll);
        assert Changed(e) == (Truthy(e.status) || AnyChanged(e.children));
      }
      assert AnyChanged(level) == (Changed(e) || AnyChanged(level[1..])) by {
        if AnyChanged(level[1..]) {
          var k :| 0 <= k < |level[1..]| && Changed(level[1..][k]);
          assert Changed(level[k + 1]);
        }
        if AnyChanged(level) && !Changed(e) {
          var k :| 0 <= k < |level| && Changed(level[k]);
          assert Changed(level[1..][k - 1]);
        }
      }
    }
  }

  /** Aggregation: a level has a change iff some entry's subtree carries a truthy
      status, and a shown node's flag is its entry's. */
  lemma ProcessFlag(level: seq<Entry>, showAll: bool)
    ensures ProcessLevel(level, showAll).1 <==> AnyChanged(level)
  {
    CollectMeaning(level, showAll);
  }

  lemma {:induction false} ShownMembers(level: seq<Entry>, showAll: bool, v: View)
    requires v in multiset(Shown(level, showAll))
    ensures exists k :: 0 <= k < |level| && v == ViewOf(level[k], showAll) && (showAll || Changed(level[k]))
    decreases level
  {
    if |level| > 0 {
      if v == ViewOf(level[0], showAll) && (showAll || Changed(level[0])) {
      } else {
        ShownMembers(level[1..], showAll, v);
        var k :| 0 <= k < |level[1..]| && v == ViewOf(level[1..][k], showAll) && (showAll || Changed(level[1..][k]));
        assert level[k + 1] == level[1..][k];
      }
    }
  }

  lemma {:induction false} ShownComplete(level: seq<Entry>, showAll: bool, k: nat)
    requires k < |level| && (showAll || Changed(level[k]))
    ensures ViewOf(level[k], showAll) in multiset(Shown(level, showAll))
    decreases level
  {
    if k > 0 {
      ShownComplete(level[1..], showAll, k - 1);
    }
  }

  lemma {:induction false} ShownLength(level: seq<Entry>)
    ensures |Shown(level, true)| == |level|
    decreases level
  {
    if |level| > 0 {
      ShownLength(level[1..]);
    }
  }

  /** Filtering: the processed siblings are a permutation of the shown entries, so
      with showAll every inserted sibling is returned and without it exactly the
      changed ones are; each returned node has its entry's name, key, kind and
      aggregated flag, a leaf has the marker of its status, and a directory has its
      processed children. */
  lemma ProcessShowsExactly(level: seq<Entry>, showAll: bool)
    ensures multiset(ProcessLevel(level, showAll).0) == multiset(Shown(level, showAll))
    ensures forall v :: v in ProcessLevel(level, showAll).0 ==>
              exists k :: 0 <= k < |level| && v == ViewOf(level[k], showAll) && (showAll || Changed(level[k]))
    ensures forall k :: 0 <= k < |level| && (showAll || Changed(level[k])) ==>
              ViewOf(level[k], showAll) in ProcessLevel(level, showAll).0
    ensures showAll ==> |ProcessLevel(level, showAll).0| == |level|
  {
    CollectMeaning(level, showAll);
    var out := ProcessLevel(level, showAll).0;
    forall v | v in out
      ensures exists k :: 0 <= k < |level| && v == ViewOf(level[k], showAll) && (showAll || Changed(level[k]))
    {
      assert v in multiset(out);
      ShownMembers(level, showAll, v);
    }
    forall k | 0 <= k < |level| && (showAll || Changed(level[k]))
      ensures ViewOf(level[k], showAll) in out
    {
      ShownComplete(level, showAll, k);
      assert ViewOf(level[k], showAll) in multiset(out);
    }
    if showAll {
      ShownLength(level);
      assert |multiset(out)| == |multiset(Shown(level, showAll))|;
    }
  }

  /** Every sibling list of the forest, at every depth, is sorted changed-first and
      then by name, without showAll every node in it is changed, and a directory
      with a changed child is itself changed. */
  ghost predicate WellShaped(vs: seq<View>, showAll: bool)
    decreases vs
  {
    Sorted(vs) &&
    forall k :: 0 <= k < |vs| ==>
      && (showAll || vs[k].changed)
      && (vs[k].VDir? ==> WellShaped(vs[k].children, showAll))
      && (vs[k].VDir? && ChildChanged(vs[k].children) ==> vs[k].changed)
  }

  predicate ChildChanged(vs: seq<View>) {
    exists j :: 0 <= j < |vs| && vs[j].changed
  }

  lemma {:induction false} ProcessWellShaped(level: seq<Entry>, showAll: bool)
    ensures WellShaped(ProcessLevel(level, showAll).0, showAll)
    decreases level
  {
    var out := ProcessLevel(level, showAll).0;
    ProcessShowsExactly(level, showAll);
    forall k | 0 <= k < |out|
      ensures && (showAll || out[k].changed)
              && (out[k].VDir? ==> WellShaped(out[k].children, showAll))
              && (out[k].VDir? && ChildChanged(out[k].children) ==> out[k].changed)
    {
      assert out[k] in out;
      var m :| 0 <= m < |level| && out[k] == ViewOf(level[m], showAll) && (showAll || Changed(level[m]));
      if level[m].Dir? {
        ProcessWellShaped(level[m].children, showAll);
        DirFlagFromChildren(level[m], showAll);
      }
    }
  }

  /** A directory whose processed children hold a changed node is changed. */
  lemma DirFlagFromChildren(e: Entry, showAll: bool)
    requires e.Dir?
    ensures ChildChanged(ProcessLevel(e.children, showAll).0) ==> Changed(e)
  {
    var kids := ProcessLevel(e.children, showAll).0;
    if ChildChanged(kids) {
      var j :| 0 <= j < |kids| && kids[j].changed;
      assert kids[j] in kids;
      ProcessShowsExactly(e.children, showAll);
      var n :| 0 <= n < |e.children| && kids[j] == ViewOf(e.children[n], showAll) && (showAll || Changed(e.children[n]));
      assert Changed(e.children[n]);
    }
  }

  /** The whole build, corrected or as written: every returned sibling list is
      sorted and filtered. */
  lemma BuildTreeWellShaped(prefix: string, paths: seq<string>, statuses: map<string, string>, showAll: bool)
    ensures WellShaped(BuildTree(prefix, paths, statuses, showAll), showAll)
    ensures WellShaped(BuildTreeAsWritten(prefix, paths, statuses, showAll), showAll)
  {
    ProcessWellShaped(Hierarchy(prefix, paths, statuses, {}), showAll);
    ProcessWellShaped(Hierarchy(prefix, paths, statuses, InheritedNames), showAll);
  }

  /** No paths, or paths without a non-empty segment, give an empty forest, with
      either builder. */
  lemma {:induction false} EmptyInputEmptyForest(prefix: string, paths: seq<string>, statuses: map<string, string>,
                                                 showAll: bool)
    requires forall k :: 0 <= k < |paths| ==> Segments(paths[k]) == []
    ensures BuildTree(prefix, paths, statuses, showAll) == []
    ensures BuildTreeAsWritten(prefix, paths, statuses, showAll) == []
  {
    HierarchyOfHiddenPaths(prefix, paths, statuses, {});
    HierarchyOfHiddenPaths(prefix, paths, statuses, InheritedNames);
    assert Collect([], showAll).0 == [];
  }

  /** Paths that have no segment, or whose first segment is blocked, create no node. */
  lemma {:induction false} HierarchyOfHiddenPaths(prefix: string, paths: seq<string>, statuses: map<string, string>,
                                                  blocked: set<string>)
    requires forall k :: 0 <= k < |paths| ==> Segments(paths[k]) == [] || Segments(paths[k])[0] in blocked
    ensures Hierarchy(prefix, paths, statuses, blocked) == []
    decreases |paths|
  {
    if |paths| > 0 {
      HierarchyOfHiddenPaths(prefix, paths[..|paths| - 1], statuses, blocked);
    }
  }

  /** A file whose name is one of the inherited property names is silently missing
      from the tree as written; the corrected builder shows it. */
  lemma InheritedNameDropped()
    ensures BuildTreeAsWritten("", ["valueOf"], map[], true) == []
    ensures BuildTree("", ["valueOf"], map[], true) == [VLeaf("valueOf", "valueOf", None, false)]
  {
    ValueOfHierarchies();
    ValueOfProcessed();
  }

  lemma ValueOfHierarchies()
    ensures Hierarchy("", ["valueOf"], map[], InheritedNames) == []
    ensures Hierarchy("", ["valueOf"], map[], {}) == [Leaf("valueOf", "valueOf", None)]
  {
    SplitNoSep("valueOf", '/');
    assert Segments("valueOf") == ["valueOf"];
    assert ["valueOf"][..0] == [];
    assert Join([] + ["valueOf"], "/") == "valueOf";
  }

  lemma ValueOfProcessed()
    ensures ProcessLevel([], true).0 == []
    ensures ProcessLevel([Leaf("valueOf", "valueOf", None)], true).0 == [VLeaf("valueOf", "valueOf", None, false)]
  {
    var l := [Leaf("valueOf", "valueOf", None)];
    assert l[1..] == [];
    assert Collect([], true) == ([], false);
    var c := Collect(l, true);
    assert c.0 == [VLeaf("valueOf", "valueOf", None, false)];
    SortOne(c.0[0]);
  }

  /** A changed file keeps its directory, which is flagged changed, while an
      unchanged sibling file is filtered out. */
  lemma ChangedFileKeepsItsDirectory()
    ensures BuildTree("", ["etc/a.conf", "b.conf"], map["etc/a.conf" := "modified"], false) ==
            [VDir("etc", "etc", true, [VLeaf("a.conf", "etc/a.conf", Some(StatusMarkers()["modified"]), true)])]
  {
    ScenarioHierarchy();
    ScenarioProcessed();
  }

  lemma ScenarioProcessed()
    ensures ProcessLevel([Dir("etc", "etc", None, [Leaf("a.conf", "etc/a.conf", Some("modified"))]),
                          Leaf("b.conf", "b.conf", None)], false).0 ==
            [VDir("etc", "etc", true, [VLeaf("a.conf", "etc/a.conf", Some(StatusMarkers()["modified"]), true)])]
  {
    var a := Leaf("a.conf", "etc/a.conf", Some("modified"));
    var va := VLeaf("a.conf", "etc/a.conf", Some(StatusMarkers()["modified"]), true);
    ScenarioChangedLeaf();
    ScenarioPlainLeafHidden();
    ChangedDirThenHidden(Dir("etc", "etc", None, [a]), Leaf("b.conf", "b.conf", None), false, [va]);
  }

  /** A changed directory followed by a hidden sibling is processed into that
      directory alone. */
  lemma ChangedDirThenHidden(e: Entry, rest: Entry, showAll: bool, kids: seq<View>)
    requires e.Dir? && ProcessLevel(e.children, showAll) == (kids, true)
    requires Collect([rest], showAll) == ([], false)
    ensures ProcessLevel([e, rest], showAll).0 == [VDir(e.name, e.key, true, kids)]
  {
    var l := [e, rest];
    assert l[1..] == [rest];
    var c := Collect(l, showAll);
    assert c.0 == [VDir(e.name, e.key, true, kids)];
    SortOne(c.0[0]);
  }

  lemma ScenarioChangedLeaf()
    ensures ProcessLevel([Leaf("a.conf", "etc/a.conf", Some("modified"))], false) ==
            ([VLeaf("a.conf", "etc/a.conf", Some(StatusMarkers()["modified"]), true)], true)
  {
    var a := Leaf("a.conf", "etc/a.conf", Some("modified"));
    var va := VLeaf("a.conf", "etc/a.conf", Some(StatusMarkers()["modified"]), true);
    assert "modified" in StatusMarkers();
    assert MarkerOf(a.status) == Some(StatusMarkers()["modified"]);
    var l := [a];
    assert l[1..] == [];
    assert Collect([], false) == ([], false);
    var c := Collect(l, false);
    assert c.1;
    assert c.0 == [va];
    SortOne(va);
  }

  lemma ScenarioPlainLeafHidden()
    ensures Collect([Leaf("b.conf", "b.conf", None)], false) == ([], false)
  {
    var l := [Leaf("b.conf", "b.conf", None)];
    assert l[1..] == [];
    assert Collect([], false) == ([], false);
    var c := Collect(l, false);
    assert c.1 == false;
    assert c.0 == [];
  }

  /** Sorting a single node leaves it as it is. */
  lemma SortOne(v: View)
    ensures SortViews([v]) == [v]
  {
    assert [v][1..] == [];
  }

  lemma ScenarioHierarchy()
    ensures Hierarchy("", ["etc/a.conf", "b.conf"], map["etc/a.conf" := "modified"], {}) ==
            [Dir("etc", "etc", None, [Leaf("a.conf", "etc/a.conf", Some("modified"))]), Leaf("b.conf", "b.conf", None)]
  {
    var st := map["etc/a.conf" := "modified"];
    var h1 := [Dir("etc", "etc", None, [Leaf("a.conf", "etc/a.conf", Some("modified"))])];
    ScenarioSegments();
    ScenarioFirstPath();
    HierarchyOfTwo("", "etc/a.conf", "b.conf", st, {});
    ScenarioSecondPath(h1);
  }

  /** The hierarchy of two paths, one insertion at a time. */
  lemma HierarchyOfTwo(prefix: string, p: string, q: string, statuses: map<string, string>, blocked: set<string>)
    ensures Hierarchy(prefix, [p, q], statuses, blocked) ==
            Insert(Insert([], [], Segments(p), prefix, statuses, blocked), [], Segments(q), prefix, statuses, blocked)
  {
    var h0 := Hierarchy(prefix, [], statuses, blocked);
    assert [p][..0] == [];
    assert Hierarchy(prefix, [p], statuses, blocked) == Insert(h0, [], Segments(p), prefix, statuses, blocked);
    assert [p, q][..1] == [p];
    assert Hierarchy(prefix, [p, q], statuses, blocked) ==
           Insert(Hierarchy(prefix, [p], statuses, blocked), [], Segments(q), prefix, statuses, blocked);
  }

  lemma ScenarioSecondPath(h1: seq<Entry>)
    requires h1 == [Dir("etc", "etc", None, [Leaf("a.conf", "etc/a.conf", Some("modified"))])]
    ensures Insert(h1, [], ["b.conf"], "", map["etc/a.conf" := "modified"], {}) == h1 + [Leaf("b.conf", "b.conf", None)]
  {
    assert IndexOf(h1, "b.conf") == 1;
    assert Join([] + ["b.conf"], "/") == "b.conf";
    assert Lookup(map["etc/a.conf" := "modified"], "b.conf") == None;
  }

  lemma ScenarioFirstPath()
    ensures Insert([], [], ["etc", "a.conf"], "", map["etc/a.conf" := "modified"], {}) ==
            [Dir("etc", "etc", None, [Leaf("a.conf", "etc/a.conf", Some("modified"))])]
  {
    var st := map["etc/a.conf" := "modified"];
    assert Join([] + ["etc"], "/") == "etc";
    assert Join(["etc"] + ["a.conf"], "/") == "etc/a.conf";
    assert Lookup(st, "etc") == None;
    assert Insert([], ["etc"], ["a.conf"], "", st, {}) == [Leaf("a.conf", "etc/a.conf", Some("modified"))];
  }

  lemma ScenarioSegments()
    ensures Segments("etc/a.conf") == ["etc", "a.conf"]
    ensures Segments("b.conf") == ["b.conf"]
  {
    SplitJoin(["etc", "a.conf"], '/');
    assert Join(["etc", "a.conf"], "/") == "etc/a.conf";
    SplitNoSep("b.conf", '/');
  }
}
