/** The update-result dialog: what it derives from the stage ("prepare" or
    "apply"), the loading flag and the body of the last update response.  The
    same body is read both as a prepare and as an apply response. */
module UpdateModal {
  import opened Text
  import opened Wire

  datatype Stage = Prepare | Apply

  /** What the confirm button does. */
  datatype Action = ConfirmApply | Close

  /** The check flag: nginx.ok in the prepare stage (absent without an nginx
      record), the top-level success in the apply stage; absent without a body. */
  function CheckFlag(stage: Stage, data: Option<UpdateBody>): Option<bool> {
    if data.None? then None
    else if stage == Prepare then
      (if data.value.nginx.Some? then Some(data.value.nginx.value.ok) else None)
    else data.value.success
  }

  /** JavaScript truthiness of the check flag. */
  predicate Passed(flag: Option<bool>) {
    flag == Some(true)
  }

  predicate ConfirmDisabled(stage: Stage, data: Option<UpdateBody>, loading: bool) {
    !Passed(CheckFlag(stage, data)) || loading
  }

  function ConfirmAction(stage: Stage): Action {
    if stage == Prepare then ConfirmApply else Close
  }

  /** The nginx record shown.  Both readings of the body are the same object, so
      the record is the body's own in either stage. */
  function ShownNginx(stage: Stage, data: Option<UpdateBody>): Option<NginxExecOutput> {
    if data.None? then None
    else if stage == Prepare then data.value.nginx
    else data.value.nginx
  }

  /** The sync statistics are read from the body whatever the stage. */
  function ShownSync(data: Option<UpdateBody>): Option<SyncView> {
    if data.None? then None else data.value.sync
  }

  /** The message row appears only in the apply stage and only for a non-empty
      message. */
  predicate ShowsMessage(stage: Stage, data: Option<UpdateBody>) {
    stage == Apply && data.Some? && data.value.message.Some? && data.value.message.value != ""
  }

  /** A file list is shown when its count is positive and the list is present. */
  predicate ShowsFileList(count: int, files: Option<seq<string>>) {
    count > 0 && files.Some?
  }

  /** The "cannot update" warning. */
  predicate ShowsWarning(stage: Stage, data: Option<UpdateBody>) {
    data.Some? && stage == Prepare && !Passed(CheckFlag(stage, data))
  }

  // ---------------------------------------------------------------------------

  /** The rollout gate: confirm is enabled exactly when nothing is loading and, in
      the prepare stage, the body carries an nginx record whose ok is true; in the
      apply stage, when success is true. */
  lemma ConfirmEnabledIff(stage: Stage, data: Option<UpdateBody>, loading: bool)
    ensures !ConfirmDisabled(stage, data, loading) <==>
              !loading && data.Some? &&
              (stage == Prepare ==> data.value.nginx.Some? && data.value.nginx.value.ok) &&
              (stage == Apply ==> data.value.success == Some(true))
  {
  }

  /** In the prepare stage the top-level success field plays no part in the gate. */
  lemma PrepareGateIgnoresSuccess(data: UpdateBody, success: Option<bool>, loading: bool)
    ensures ConfirmDisabled(Prepare, Some(data), loading) == ConfirmDisabled(Prepare, Some(data.(success := success)), loading)
  {
  }

  /** For a prepare response the gate opens iff the nginx test passed, whatever
      the sync did; an error body keeps it closed. */
  lemma PrepareResponseGate(r: UpdatePrepareResponse)
    ensures !ConfirmDisabled(Prepare, Some(EncodePrepare(r)), false) <==> r.nginx.Some? && r.nginx.value.ok
    ensures ConfirmDisabled(Prepare, Some(ErrorBody), false)
    ensures ConfirmDisabled(Apply, Some(ErrorBody), false)
  {
  }

  /** For an apply response the dialog's flag is the success field, and confirming
      only closes the dialog. */
  lemma ApplyResponseGate(r: UpdateApplyResponse)
    ensures !ConfirmDisabled(Apply, Some(EncodeApply(r)), false) <==> r.success
    ensures ConfirmAction(Apply) == Close && ConfirmAction(Prepare) == ConfirmApply
  {
  }

  /** While idle in the prepare stage, the warning is shown exactly when confirm
      is disabled. */
  lemma WarningMatchesGate(data: UpdateBody)
    ensures ShowsWarning(Prepare, Some(data)) <==> ConfirmDisabled(Prepare, Some(data), false)
  {
  }

  /** The shown nginx record does not depend on the stage, and the message never
      shows while preparing. */
  lemma StageIndependentRecords(data: Option<UpdateBody>)
    ensures ShownNginx(Prepare, data) == ShownNginx(Apply, data)
    ensures !ShowsMessage(Prepare, data)
  {
  }

  /** For an encoded sync result whose counters match its lists, a list is shown
      iff its counter is positive. */
  lemma FileListsFollowCounts(s: SyncResult)
    requires s.added == |s.addedFiles| && s.updated == |s.updatedFiles| && s.deleted == |s.deletedFiles|
    ensures ShowsFileList(EncodeSync(s).added, EncodeSync(s).addedFiles) <==> s.added > 0
    ensures ShowsFileList(EncodeSync(s).updated, EncodeSync(s).updatedFiles) <==> s.updated > 0
    ensures ShowsFileList(EncodeSync(s).deleted, EncodeSync(s).deletedFiles) <==> s.deleted > 0
  {
  }
}
