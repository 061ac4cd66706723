/** The operator console's page state: the selection context (group, host,
    preview or production mode), the change tree, the selected file and its diff,
    and the check and update dialogs.  Every handler and every effect is an event
    method; a request is two events, issuing it (appended to sent) and its
    completion.  Completions are applied whenever they arrive: there is no check
    that the request still matches the selection, so the last completion wins. */
module Console {
  import opened Text
  import opened Wire
  import TreeBuilder
  import opened UpdateModal

  datatype Request =
    | GroupsRequest
    | TreeRequest(group: string, host: string, mode: string, showAll: bool)
    | DiffRequest(group: string, host: string, path: string, mode: string, silent: bool)
    | CheckRequest(mode: string, server: string, group: string)
    | PrepareRequest(server: string, group: string, mode: string)
    | ApplyRequest(server: string, group: string, mode: string)

  /** The error notifications the page raises. */
  datatype Notice =
    | GroupsFailed | TreeFailed | DiffFailed | NoHostSelected | ProductionOnly
    | CheckFailed | PrepareFailed | ApplyFailed

  /** How a request settles: a body that parsed as JSON with its HTTP status, or
      a network failure / a body that is not JSON. */
  datatype Settled<T> = Parsed(status: int, body: T) | Unparsed

  /** A check body: the check response, or None for an error body. */
  type CheckBody = Option<CheckResponse>

  /** The notification a failed prepare or apply request raises. */
  function UpdateFailure(request: Request): Notice {
    if request.PrepareRequest? then PrepareFailed else ApplyFailed
  }

  predicate IsOk(status: int) {
    200 <= status < 300
  }

  /** The mode query parameter. */
  function ModeName(preview: bool): (m: string)
    ensures m == "preview" <==> preview
    ensures !preview ==> m == "prod"
  {
    if preview then "preview" else "prod"
  }

  /** JavaScript truthiness of an optional string. */
  predicate Set(s: Option<string>) {
    s.Some? && s.value != ""
  }

  /** The menu key of a host entry. */
  function MenuKey(group: string, host: string): string {
    group + "/" + host
  }

  /** `const [group, host] = key.split("/")`. */
  function ParseMenuKey(key: string): (Option<string>, Option<string>) {
    var parts := Split(key, '/');
    (Some(parts[0]), if |parts| > 1 then Some(parts[1]) else None)
  }

  /** Menu keys round-trip when neither name contains "/". */
  lemma MenuKeyRoundTrip(group: string, host: string)
    requires '/' !in group && '/' !in host
    ensures ParseMenuKey(MenuKey(group, host)) == (Some(group), Some(host))
  {
    SplitJoin([group, host], '/');
    assert Join([group, host], "/") == MenuKey(group, host);
  }

  /** A group name containing "/" does not round-trip: the host read back is the
      rest of the group name. */
  lemma MenuKeySlashInGroup()
    ensures ParseMenuKey(MenuKey("a/b", "10.0.0.1")) == (Some("a"), Some("b"))
  {
    SplitJoin(["a", "b", "10.0.0.1"], '/');
    assert Join(["a", "b", "10.0.0.1"], "/") == MenuKey("a/b", "10.0.0.1");
  }

  /** The group list names a first host of a first group. */
  predicate HasFirstHost(groups: seq<GroupSummary>) {
    |groups| > 0 && groups[0].hosts.Some? && |groups[0].hosts.value| > 0
  }

  /** The suffix of the first host named host in the first group named group. */
  function FindSuffix(groups: seq<GroupSummary>, group: Option<string>, host: Option<string>): Option<string> {
    if |groups| == 0 then None
    else if Some(groups[0].name) == group then
      (if groups[0].hosts.None? then None else FindHostSuffix(groups[0].hosts.value, host))
    else FindSuffix(groups[1..], group, host)
  }

  function FindHostSuffix(hosts: seq<HostSummary>, host: Option<string>): Option<string> {
    if |hosts| == 0 then None
    else if Some(hosts[0].host) == host then Some(hosts[0].configDirSuffix)
    else FindHostSuffix(hosts[1..], host)
  }

  /** The tree a completed tree request shows: the body is used whatever the
      status, with an absent prefix, path list or status map read as empty.  The
      page builds it with its own copy of buildTree, which has the inherited-name
      lookup, so this is the builder as written. */
  function TreeOf(body: TreeBody, showAll: bool): seq<TreeBuilder.View> {
    TreeBuilder.BuildTreeAsWritten(body.prefix.GetOr(""), body.paths.GetOr([]), body.statuses.GetOr(map[]), showAll)
  }

  /** A tree response is shown as the tree of its own prefix, paths and statuses,
      well shaped; an error body shows the empty tree. */
  lemma TreeOfResponse(r: TreeResponse, showAll: bool)
    ensures TreeOf(EncodeTree(r), showAll)
         == TreeBuilder.BuildTreeAsWritten(r.prefix, r.paths.GetOr([]), r.fileStatuses, showAll)
    ensures TreeBuilder.WellShaped(TreeOf(EncodeTree(r), showAll), showAll)
    ensures TreeOf(ErrorTreeBody, showAll) == []
  {
    TreeBuilder.BuildTreeWellShaped(r.prefix, r.paths.GetOr([]), r.fileStatuses, showAll);
    TreeBuilder.EmptyInputEmptyForest("", [], map[], showAll);
  }

  /** The page shows nothing for a path whose first segment is named like a member
      inherited by `{}` ("valueOf", "__proto__", ...), however deep the path goes:
      a reply made only of such paths shows the empty tree. */
  lemma InheritedNameHidden(body: TreeBody, showAll: bool)
    requires forall k :: 0 <= k < |body.paths.GetOr([])| ==>
               var segs := TreeBuilder.Segments(body.paths.GetOr([])[k]);
               segs == [] || segs[0] in TreeBuilder.InheritedNames
    ensures TreeOf(body, showAll) == []
  {
    TreeBuilder.HierarchyOfHiddenPaths(body.prefix.GetOr(""), body.paths.GetOr([]), body.statuses.GetOr(map[]),
                                       TreeBuilder.InheritedNames);
    assert TreeBuilder.Collect([], showAll).0 == [];
  }

  /** The page's tree for a reply listing only "valueOf". */
  lemma ValueOfHidden(showAll: bool)
    ensures TreeOf(TreeBody(Some(""), Some(["valueOf"]), Some(map[])), showAll) == []
  {
    TreeBuilder.ValueOfHierarchies();
    assert TreeBuilder.Collect([], showAll).0 == [];
  }

  /** Everything the page holds, for stating what a handler changes. */
  datatype Snapshot = Snapshot(
    groups: seq<GroupSummary>, group: Option<string>, host: Option<string>, suffix: Option<string>,
    preview: bool, showAll: bool,
    tree: seq<TreeBuilder.View>, treeKey: nat, treeLoading: bool,
    fileKey: Option<string>, fileLoading: bool, fileDiff: Option<TripleDiffResponse>,
    refresh: nat,
    checkLoading: bool, checkOpen: bool, checkResult: Option<CheckBody>,
    updateLoading: bool, updateOpen: bool, stage: Stage, updateResult: Option<UpdateBody>,
    sent: seq<Request>, notices: seq<Notice>)

  /** The tree effect on a page state: a tree request for the current context,
      issued only when group and host are both set. */
  function TreeFetched(s: Snapshot): Snapshot {
    if Set(s.group) && Set(s.host) then
      s.(treeLoading := true,
         sent := s.sent + [TreeRequest(s.group.value, s.host.value, ModeName(s.preview), s.showAll)])
    else s
  }

  /** The group list arrives: it is stored, and the first host of the first
      group becomes the selection when there is one (a context change when it
      differs from the current one). */
  function GroupsLoaded(s: Snapshot, gs: seq<GroupSummary>): Snapshot {
    if !HasFirstHost(gs) then s.(groups := gs)
    else
      var first := gs[0].hosts.value[0];
      var t := s.(groups := gs, group := Some(gs[0].name), host := Some(first.host), suffix := Some(first.configDirSuffix));
      if (t.group, t.host) != (s.group, s.host) then ContextReset(t) else t
  }

  /** The effects of a context change: the selected file and its diff are
      cleared, then the tree effect runs. */
  function ContextReset(s: Snapshot): Snapshot {
    TreeFetched(s.(fileKey := None, fileDiff := None))
  }

  /** The refresh effect: the selected file's diff is requested again, silently. */
  function DiffRefetched(s: Snapshot): Snapshot {
    if Set(s.fileKey) && Set(s.group) && Set(s.host) then
      s.(fileLoading := true,
         sent := s.sent + [DiffRequest(s.group.value, s.host.value, s.fileKey.value, ModeName(s.preview), true)])
    else s
  }

  /** A context change always clears the selected file and its diff, keeps the
      context, and requests exactly one tree, for that context, iff group and host
      are both set. */
  lemma ContextResetClears(s: Snapshot)
    ensures ContextReset(s).fileKey.None? && ContextReset(s).fileDiff.None?
    ensures ContextReset(s).group == s.group && ContextReset(s).host == s.host && ContextReset(s).preview == s.preview
    ensures Set(s.group) && Set(s.host) ==>
              ContextReset(s).sent == s.sent + [TreeRequest(s.group.value, s.host.value, ModeName(s.preview), s.showAll)]
    ensures !(Set(s.group) && Set(s.host)) ==> ContextReset(s).sent == s.sent
  {
  }

  /** The page component.  Its state hooks are the fields of one record, which
      every handler replaces with the values it sets. */
  class Page {
    var state: Snapshot

    /** The page as first rendered: preview mode, all files shown, nothing
        selected, and the group list requested by the mount effect. */
    constructor ()
      ensures state == Snapshot([], None, None, None, true, true, [], 0, false, None, false, None, 0,
                                false, false, None, false, false, Prepare, None, [GroupsRequest], [])
    {
      state := Snapshot([], None, None, None, true, true, [], 0, false, None, false, None, 0,
                        false, false, None, false, false, Prepare, None, [GroupsRequest], []);
    }

    // -------------------------------------------------------------------------
    // Effects.

    method FetchTree()
      modifies this
      ensures state == TreeFetched(old(state))
    {
      if Set(state.group) && Set(state.host) {
        state := state.(treeLoading := true,
                        sent := state.sent + [TreeRequest(state.group.value, state.host.value, ModeName(state.preview), state.showAll)]);
      }
    }

    method RefetchDiff()
      modifies this
      ensures state == DiffRefetched(old(state))
    {
      if Set(state.fileKey) && Set(state.group) && Set(state.host) {
        state := state.(fileLoading := true,
                        sent := state.sent + [DiffRequest(state.group.value, state.host.value, state.fileKey.value,
                                                          ModeName(state.preview), true)]);
      }
    }

    method ContextChanged()
      modifies this
      ensures state == ContextReset(old(state))
    {
      state := state.(fileKey := None, fileDiff := None);
      FetchTree();
    }

    // -------------------------------------------------------------------------
    // Events.

    /** The group list arrives; the first host of the first group becomes the
        selection when there is one. */
    method GroupsCompleted(reply: Settled<Option<seq<GroupSummary>>>)
      modifies this
      ensures reply.Unparsed? ==> state == old(state).(notices := old(state.notices) + [GroupsFailed])
      ensures reply.Parsed? ==> state == GroupsLoaded(old(state), reply.body.GetOr([]))
    {
      if reply.Unparsed? {
        state := state.(notices := state.notices + [GroupsFailed]);
        return;
      }
      state := state.(groups := reply.body.GetOr([]));
      if HasFirstHost(state.groups) {
        SelectFirstHost();
      }
    }

    /** The first host of the first group becomes the selection. */
    method SelectFirstHost()
      requires HasFirstHost(state.groups)
      modifies this
      ensures var gs := old(state.groups);
              var first := gs[0].hosts.value[0];
              var t := old(state).(group := Some(gs[0].name), host := Some(first.host),
                                   suffix := Some(first.configDirSuffix));
              state == if (t.group, t.host) != (old(state.group), old(state.host)) then ContextReset(t) else t
    {
      var first := state.groups[0].hosts.value[0];
      var changed := (Some(state.groups[0].name), Some(first.host)) != (state.group, state.host);
      state := state.(group := Some(state.groups[0].name), host := Some(first.host),
                      suffix := Some(first.configDirSuffix));
      if changed {
        ContextChanged();
      }
    }

    /** A host entry of the menu is chosen: its key is split back into group and
        host, and the suffix is looked up for them. */
    method SelectMenu(key: string)
      modifies this
      ensures var parsed := ParseMenuKey(key);
              var s := old(state).(group := parsed.0, host := parsed.1,
                                   suffix := FindSuffix(old(state.groups), parsed.0, parsed.1));
              state == if parsed != (old(state.group), old(state.host)) then ContextReset(s) else s
    {
      var parsed := ParseMenuKey(key);
      var changed := parsed != (state.group, state.host);
      state := state.(group := parsed.0, host := parsed.1, suffix := FindSuffix(state.groups, parsed.0, parsed.1));
      if changed {
        ContextChanged();
      }
    }

    /** The preview/production switch. */
    method SetPreviewMode(preview: bool)
      modifies this
      ensures state == if preview != old(state.preview) then ContextReset(old(state).(preview := preview))
                       else old(state)
    {
      if preview != state.preview {
        state := state.(preview := preview);
        ContextChanged();
      }
    }

    /** The all/changed switch: the tree is requested again, the selection kept. */
    method SetShowAll(showAll: bool)
      modifies this
      ensures state == if showAll != old(state.showAll) then TreeFetched(old(state).(showAll := showAll))
                       else old(state)
    {
      if showAll != state.showAll {
        state := state.(showAll := showAll);
        FetchTree();
      }
    }

    /** The auto-refresh trigger: the tree and the selected file's diff are
        requested again; the selection and the shown diff stay. */
    method Refresh()
      modifies this
      ensures state == DiffRefetched(TreeFetched(old(state).(refresh := old(state.refresh) + 1)))
    {
      state := state.(refresh := state.refresh + 1);
      FetchTree();
      RefetchDiff();
    }

    /** A tree request settles.  Any parsed body, whatever its status, replaces
        the tree (an error body gives the empty tree) and remounts it; only an
        unparsed reply keeps the old tree and raises a notification. */
    method TreeCompleted(request: Request, reply: Settled<TreeBody>)
      requires request.TreeRequest?
      modifies this
      ensures reply.Parsed? ==>
                state == old(state).(tree := TreeOf(reply.body, request.showAll), treeKey := old(state.treeKey) + 1,
                                     treeLoading := false)
      ensures reply.Unparsed? ==>
                state == old(state).(treeLoading := false, notices := old(state.notices) + [TreeFailed])
    {
      if reply.Parsed? {
        state := state.(tree := TreeOf(reply.body, request.showAll), treeKey := state.treeKey + 1, treeLoading := false);
      } else {
        state := state.(treeLoading := false, notices := state.notices + [TreeFailed]);
      }
    }

    /** A file is clicked in the tree: its diff is requested for the current
        context.  Nothing happens without a key or without a context. */
    method SelectFile(keys: seq<string>)
      modifies this
      ensures |keys| > 0 && keys[0] != "" && Set(old(state.group)) && Set(old(state.host)) ==>
                state == old(state).(fileKey := Some(keys[0]), fileLoading := true,
                  sent := old(state.sent) + [DiffRequest(old(state.group).value, old(state.host).value, keys[0],
                                                         ModeName(old(state.preview)), false)])
      ensures !(|keys| > 0 && keys[0] != "" && Set(old(state.group)) && Set(old(state.host))) ==>
                state == old(state)
    {
      if |keys| == 0 || keys[0] == "" || !Set(state.group) || !Set(state.host) {
        return;
      }
      state := state.(fileKey := Some(keys[0]), fileLoading := true,
                      sent := state.sent + [DiffRequest(state.group.value, state.host.value, keys[0],
                                                        ModeName(state.preview), false)]);
    }

    /** A diff request settles.  A 2xx body becomes the shown diff whatever is
        selected now; a failure keeps the old diff and is reported unless the
        request came from the refresh effect. */
    method DiffCompleted(request: Request, reply: Settled<TripleDiffResponse>)
      requires request.DiffRequest?
      modifies this
      ensures reply.Parsed? && IsOk(reply.status) ==>
                state == old(state).(fileDiff := Some(reply.body), fileLoading := false)
      ensures !(reply.Parsed? && IsOk(reply.status)) ==>
                state == old(state).(fileLoading := false,
                  notices := if request.silent then old(state.notices) else old(state.notices) + [DiffFailed])
    {
      if reply.Parsed? && IsOk(reply.status) {
        state := state.(fileDiff := Some(reply.body), fileLoading := false);
      } else if !request.silent {
        state := state.(fileLoading := false, notices := state.notices + [DiffFailed]);
      } else {
        state := state.(fileLoading := false);
      }
    }

    /** The check button. */
    method CheckConfig()
      modifies this
      ensures !(Set(old(state.host)) && Set(old(state.group))) ==>
                state == old(state).(notices := old(state.notices) + [NoHostSelected])
      ensures Set(old(state.host)) && Set(old(state.group)) ==>
                state == old(state).(checkLoading := true,
                  sent := old(state.sent) + [CheckRequest(ModeName(old(state.preview)), old(state.host).value,
                                                          old(state.group).value)])
    {
      if !Set(state.host) || !Set(state.group) {
        state := state.(notices := state.notices + [NoHostSelected]);
        return;
      }
      state := state.(checkLoading := true,
                      sent := state.sent + [CheckRequest(ModeName(state.preview), state.host.value, state.group.value)]);
    }

    /** A check request settles: any parsed body is shown in the check dialog. */
    method CheckCompleted(reply: Settled<CheckBody>)
      modifies this
      ensures reply.Parsed? ==>
                state == old(state).(checkResult := Some(reply.body), checkOpen := true, checkLoading := false)
      ensures reply.Unparsed? ==>
                state == old(state).(checkLoading := false, notices := old(state.notices) + [CheckFailed])
    {
      if reply.Parsed? {
        state := state.(checkResult := Some(reply.body), checkOpen := true, checkLoading := false);
      } else {
        state := state.(checkLoading := false, notices := state.notices + [CheckFailed]);
      }
    }

    /** The update button: refused without a host or in preview mode, otherwise
        a production prepare request for the current host. */
    method PrepareUpdate()
      modifies this
      ensures !(Set(old(state.host)) && Set(old(state.group))) ==>
                state == old(state).(notices := old(state.notices) + [NoHostSelected])
      ensures Set(old(state.host)) && Set(old(state.group)) && old(state.preview) ==>
                state == old(state).(notices := old(state.notices) + [ProductionOnly])
      ensures Set(old(state.host)) && Set(old(state.group)) && !old(state.preview) ==>
                state == old(state).(updateLoading := true, stage := Prepare,
                  sent := old(state.sent) + [PrepareRequest(old(state.host).value, old(state.group).value, "prod")])
    {
      if !Set(state.host) || !Set(state.group) {
        state := state.(notices := state.notices + [NoHostSelected]);
        return;
      }
      if state.preview {
        state := state.(notices := state.notices + [ProductionOnly]);
        return;
      }
      state := state.(updateLoading := true, stage := Prepare,
                      sent := state.sent + [PrepareRequest(state.host.value, state.group.value, "prod")]);
    }

    /** Apply: a production apply request for the current host.  There is no
        preview-mode guard. */
    method ApplyUpdate()
      modifies this
      ensures !(Set(old(state.host)) && Set(old(state.group))) ==>
                state == old(state).(notices := old(state.notices) + [NoHostSelected])
      ensures Set(old(state.host)) && Set(old(state.group)) ==>
                state == old(state).(updateLoading := true, stage := Apply,
                  sent := old(state.sent) + [ApplyRequest(old(state.host).value, old(state.group).value, "prod")])
    {
      if !Set(state.host) || !Set(state.group) {
        state := state.(notices := state.notices + [NoHostSelected]);
        return;
      }
      state := state.(updateLoading := true, stage := Apply,
                      sent := state.sent + [ApplyRequest(state.host.value, state.group.value, "prod")]);
    }

    /** A prepare or apply request settles.  A parsed body is stored and shown
        even on an error status, which additionally raises a notification. */
    method UpdateCompleted(request: Request, reply: Settled<UpdateBody>)
      requires request.PrepareRequest? || request.ApplyRequest?
      modifies this
      ensures reply.Parsed? ==>
                state == old(state).(updateResult := Some(reply.body), updateOpen := true, updateLoading := false,
                  notices := if IsOk(reply.status) then old(state.notices)
                             else old(state.notices) + [UpdateFailure(request)])
      ensures reply.Unparsed? ==>
                state == old(state).(updateLoading := false, notices := old(state.notices) + [UpdateFailure(request)])
    {
      if reply.Parsed? && IsOk(reply.status) {
        state := state.(updateResult := Some(reply.body), updateOpen := true, updateLoading := false);
      } else if reply.Parsed? {
        state := state.(updateResult := Some(reply.body), updateOpen := true, updateLoading := false,
                        notices := state.notices + [UpdateFailure(request)]);
      } else {
        state := state.(updateLoading := false, notices := state.notices + [UpdateFailure(request)]);
      }
    }

    /** The dialog's confirm button, which cannot be pressed while disabled: in
        the prepare stage it applies (or, with no host or group selected, only
        raises the notice), in the apply stage it closes the dialog. */
    method ConfirmUpdate()
      requires state.updateOpen
      modifies this
      ensures ConfirmDisabled(old(state.stage), old(state.updateResult), old(state.updateLoading)) ==>
                state == old(state)
      ensures !ConfirmDisabled(old(state.stage), old(state.updateResult), old(state.updateLoading)) &&
              old(state.stage) == Apply ==>
                state == old(state).(updateOpen := false)
      ensures !ConfirmDisabled(old(state.stage), old(state.updateResult), old(state.updateLoading)) &&
              old(state.stage) == Prepare && Set(old(state.host)) && Set(old(state.group)) ==>
                state == old(state).(updateLoading := true, stage := Apply,
                  sent := old(state.sent) + [ApplyRequest(old(state.host).value, old(state.group).value, "prod")])
      ensures !ConfirmDisabled(old(state.stage), old(state.updateResult), old(state.updateLoading)) &&
              old(state.stage) == Prepare && !(Set(old(state.host)) && Set(old(state.group))) ==>
                state == old(state).(notices := old(state.notices) + [NoHostSelected])
    {
      if ConfirmDisabled(state.stage, state.updateResult, state.updateLoading) {
        return;
      }
      if ConfirmAction(state.stage) == ConfirmApply {
        ApplyUpdate();
      } else {
        state := state.(updateOpen := false);
      }
    }

    /** The dialog's cancel button. */
    method CancelUpdate()
      modifies this
      ensures state == old(state).(updateOpen := false)
    {
      state := state.(updateOpen := false);
    }
  }

  // ---------------------------------------------------------------------------
  // Scenarios.

  function DiffFor(path: string): TripleDiffResponse {
    TripleDiffResponse(path, "", "", "", "prod", "Production", "")
  }

  /** Two files clicked in a row whose diffs complete in the opposite order: the
      first file's diff is shown while the second file is selected. */
  method LastCompletionWins() returns (selected: Option<string>, shown: Option<TripleDiffResponse>)
    ensures selected == Some("b.conf") && shown == Some(DiffFor("a.conf"))
  {
    var page := new Page();
    page.GroupsCompleted(Parsed(200, Some([GroupSummary("web", Some([HostSummary("n1", "10.0.0.1", "nginx")]))])));
    page.SetPreviewMode(false);
    page.SelectFile(["a.conf"]);
    var first := page.state.sent[|page.state.sent| - 1];
    page.SelectFile(["b.conf"]);
    var second := page.state.sent[|page.state.sent| - 1];
    page.DiffCompleted(second, Parsed(200, DiffFor("b.conf")));
    page.DiffCompleted(first, Parsed(200, DiffFor("a.conf")));
    selected, shown := page.state.fileKey, page.state.fileDiff;
  }

  /** A diff that completes after the mode was switched is shown although the
      switch cleared the selection. */
  method LateDiffAfterContextChange() returns (selected: Option<string>, shown: Option<TripleDiffResponse>)
    ensures selected.None? && shown == Some(DiffFor("a.conf"))
  {
    var page := new Page();
    page.GroupsCompleted(Parsed(200, Some([GroupSummary("web", Some([HostSummary("n1", "10.0.0.1", "nginx")]))])));
    page.SelectFile(["a.conf"]);
    var request := page.state.sent[|page.state.sent| - 1];
    page.SetPreviewMode(false);
    page.DiffCompleted(request, Parsed(200, DiffFor("a.conf")));
    selected, shown := page.state.fileKey, page.state.fileDiff;
  }

  /** The prepare guard: in preview mode, and without a host, no request is
      sent; in production mode exactly one prepare request for the selected host
      is. */
  method PrepareGuard() returns (previewSent: nat, noHostSent: nat, prodRequest: Request)
    ensures previewSent == 0 && noHostSent == 0
    ensures prodRequest == PrepareRequest("10.0.0.1", "web", "prod")
  {
    var blank := new Page();
    var before := |blank.state.sent|;
    blank.PrepareUpdate();
    noHostSent := |blank.state.sent| - before;
    var page := new Page();
    page.GroupsCompleted(Parsed(200, Some([GroupSummary("web", Some([HostSummary("n1", "10.0.0.1", "nginx")]))])));
    before := |page.state.sent|;
    page.PrepareUpdate();
    previewSent := |page.state.sent| - before;
    page.SetPreviewMode(false);
    page.PrepareUpdate();
    prodRequest := page.state.sent[|page.state.sent| - 1];
  }
}
