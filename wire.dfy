/** The records the backend sends to the console, and the console's view of a
    decoded JSON body.  Fields the encoder omits when empty (`omitempty`) or that
    an error body lacks are `Option`s on the console side. */
module Wire {
  import opened Text

  datatype HostSummary = HostSummary(name: string, host: string, configDirSuffix: string)

  /** hosts is None for a nil slice (encoded as null). */
  datatype GroupSummary = GroupSummary(name: string, hosts: Option<seq<HostSummary>>)

  /** paths is None for a nil slice; file_statuses is omitted when empty. */
  datatype TreeResponse = TreeResponse(prefix: string, paths: Option<seq<string>>, fileStatuses: map<string, string>)

  datatype TripleDiffResponse = TripleDiffResponse(
    path: string, remoteContent: string, compareContent: string, diff: string,
    mode: string, compareLabel: string, fileStatus: string)

  datatype NginxExecOutput = NginxExecOutput(command: string, ok: bool, output: string)

  datatype SyncResult = SyncResult(
    total: int, skipped: int, added: int, updated: int, deleted: int,
    addedFiles: seq<string>, updatedFiles: seq<string>, deletedFiles: seq<string>)

  datatype CheckResponse = CheckResponse(ok: bool, mode: string, sync: Option<SyncResult>, nginx: Option<NginxExecOutput>)

  datatype UpdatePrepareResponse = UpdatePrepareResponse(success: bool, nginx: Option<NginxExecOutput>, sync: Option<SyncResult>)

  datatype UpdateApplyResponse = UpdateApplyResponse(success: bool, message: string, nginx: Option<NginxExecOutput>)

  /** timestamp as seconds; only its presence matters here. */
  datatype CommitInfo = CommitInfo(hash: string, message: string, author: string, timestamp: int)

  datatype GitStatusResponse = GitStatusResponse(
    branch: string, syncMode: string, localCommit: Option<CommitInfo>, remoteCommit: Option<CommitInfo>,
    status: string, diff: string, error: string)

  // ---------------------------------------------------------------------------
  // The console's view of an update body: a prepare body, an apply body or an
  // `{"error": ...}` body read through the same optional fields.

  datatype SyncView = SyncView(
    total: int, skipped: int, added: int, updated: int, deleted: int,
    addedFiles: Option<seq<string>>, updatedFiles: Option<seq<string>>, deletedFiles: Option<seq<string>>)

  datatype UpdateBody = UpdateBody(
    success: Option<bool>, message: Option<string>, nginx: Option<NginxExecOutput>, sync: Option<SyncView>)

  /** `omitempty` on a string list: an empty list is left out of the body. */
  function OmitEmpty(files: seq<string>): (r: Option<seq<string>>)
    ensures r.Some? <==> |files| > 0
    ensures r.Some? ==> r.value == files
  {
    if |files| == 0 then None else Some(files)
  }

  function EncodeSync(s: SyncResult): (v: SyncView)
    ensures v.added == s.added && v.updated == s.updated && v.deleted == s.deleted
    ensures v.total == s.total && v.skipped == s.skipped
    ensures v.addedFiles.GetOr([]) == s.addedFiles
    ensures v.updatedFiles.GetOr([]) == s.updatedFiles
    ensures v.deletedFiles.GetOr([]) == s.deletedFiles
  {
    SyncView(s.total, s.skipped, s.added, s.updated, s.deleted,
             OmitEmpty(s.addedFiles), OmitEmpty(s.updatedFiles), OmitEmpty(s.deletedFiles))
  }

  function EncodePrepare(r: UpdatePrepareResponse): (b: UpdateBody)
    ensures b.success == Some(r.success) && b.message.None? && b.nginx == r.nginx
    ensures b.sync.Some? <==> r.sync.Some?
  {
    UpdateBody(Some(r.success), None, r.nginx,
               if r.sync.Some? then Some(EncodeSync(r.sync.value)) else None)
  }

  function EncodeApply(r: UpdateApplyResponse): (b: UpdateBody)
    ensures b.success == Some(r.success) && b.message == Some(r.message) && b.nginx == r.nginx && b.sync.None?
  {
    UpdateBody(Some(r.success), Some(r.message), r.nginx, None)
  }

  /** An `{"error": "..."}` body: none of the update fields is present. */
  const ErrorBody: UpdateBody := UpdateBody(None, None, None, None)

  // ---------------------------------------------------------------------------
  // The console's view of a tree body.

  datatype TreeBody = TreeBody(prefix: Option<string>, paths: Option<seq<string>>, statuses: Option<map<string, string>>)

  function EncodeTree(r: TreeResponse): (b: TreeBody)
    ensures b.prefix == Some(r.prefix) && b.paths == r.paths
    ensures b.statuses.GetOr(map[]) == r.fileStatuses
  {
    TreeBody(Some(r.prefix), r.paths, if |r.fileStatuses| == 0 then None else Some(r.fileStatuses))
  }

  /** An `{"error": "..."}` body read as a tree body. */
  const ErrorTreeBody: TreeBody := TreeBody(None, None, None)
}
