/** The operation endpoints: check a source's configuration on a host (copied
    to the host's check directory and tested there), prepare an update (the git
    source copied to the live directory and tested) and apply it (copied again,
    then nginx reloaded).  The pool lookup, the copy, the client checkout and the
    remote command are outside calls; their outcomes are inputs, the copy's as
    an Scp.Run value given as input (Scp.Copy models how such a run arises). */
module ApiOps {
  import opened Text
  import opened Wire
  import opened Config
  import Scp
  import ApiFiles

  /** The JSON body of the three requests: the group and the host address
      (named "server" on the wire). */
  datatype ServerRequest = ServerRequest(group: string, server: string)

  /** One JSON body written to the response. */
  datatype Body =
    | ErrorBody(message: string)
    | CheckBody(check: CheckResponse)
    | PrepareBody(prepare: UpdatePrepareResponse)
    | ApplyBody(apply: UpdateApplyResponse)

  /** The response as the client receives it: the status of the first write,
      and every body written, in order. */
  datatype Response = Response(status: int, bodies: seq<Body>)

  /** Where a handler copied the store to: the key prefix and the remote
      directory. */
  datatype CopyTarget = CopyTarget(prefix: string, dir: string)

  /** What a remote command printed, and whether it exited successfully. */
  datatype CommandRun = CommandRun(output: string, ok: bool)

  /** The outcomes of the outside calls one request makes: the pool lookup's
      error, the copy, the client checkout's error, and the command. */
  datatype Remote = Remote(poolErr: Option<string>, copy: Scp.Run, clientErr: Option<string>, command: CommandRun)

  /** What a handler did: its response, where it copied to (once the pool was
      obtained) and the command it ran (once a client was obtained). */
  datatype Outcome = Outcome(response: Response, copied: Option<CopyTarget>, ran: Option<string>)

  const PoolFailed := "failed to get SSH pool: "
  const CheckSyncFailed := "failed to sync files to check directory: "
  const ApplySyncFailed := "failed to sync files to remote: "
  const ClientFailed := "failed to get SSH client: "
  const ProdOnly := "mode must be 'prod'"
  /** The prepare handler formats a nil error here. */
  const NoConfigDir := "NginxConfigDir not find: <nil>"
  const ReloadFailed := "Failed to reload Nginx"

  // ---------------------------------------------------------------------------
  // Writing a response.

  /** A write: the first one fixes the status, every one adds its body. */
  function Write(r: Response, status: int, body: Body): (w: Response)
    ensures w.bodies == r.bodies + [body]
    ensures r.bodies == [] ==> w.status == status
    ensures r.bodies != [] ==> w.status == r.status
  {
    Response(if r.bodies == [] then status else r.status, r.bodies + [body])
  }

  const Unwritten := Response(0, [])

  /** Once a body is written, later writes never change the status. */
  lemma {:induction false} FirstStatusSticks(r: Response, writes: seq<(int, Body)>)
    requires r.bodies != []
    ensures WriteAll(r, writes).status == r.status
    ensures |WriteAll(r, writes).bodies| == |r.bodies| + |writes|
    decreases |writes|
  {
    if |writes| > 0 {
      FirstStatusSticks(Write(r, writes[0].0, writes[0].1), writes[1..]);
    }
  }

  function WriteAll(r: Response, writes: seq<(int, Body)>): Response
    decreases |writes|
  {
    if |writes| == 0 then r else WriteAll(Write(r, writes[0].0, writes[0].1), writes[1..])
  }

  // ---------------------------------------------------------------------------
  // Defaults and commands.

  /** The check directory: the configured one, or "check" under the
      configuration directory. */
  function CheckDirOf(srv: ServerConfig): (dir: string)
    ensures srv.checkDir != "" ==> dir == srv.checkDir
    ensures srv.checkDir == "" ==> dir == JoinPath([srv.nginxConfigDir, "check"])
  {
    if srv.checkDir != "" then srv.checkDir else JoinPath([srv.nginxConfigDir, "check"])
  }

  /** The nginx binary: the configured path, or "nginx". */
  function BinaryOf(srv: ServerConfig): (bin: string)
    ensures bin != ""
    ensures srv.nginxBinaryPath != "" ==> bin == srv.nginxBinaryPath
  {
    if srv.nginxBinaryPath == "" then "nginx" else srv.nginxBinaryPath
  }

  /** The configuration test of the nginx.conf at the root of a directory. */
  function TestCommand(bin: string, dir: string): (cmd: string)
    ensures HasPrefix(cmd, bin + " -t -c ")
    ensures HasSuffix(cmd, "nginx.conf")
  {
    var conf := JoinPath([dir, "nginx.conf"]);
    JoinPathEnds(dir, "nginx.conf");
    assert (bin + " -t -c " + conf)[..|bin + " -t -c "|] == bin + " -t -c ";
    bin + " -t -c " + conf
  }

  /** A joined path ends with its last part when that part is non-empty. */
  lemma JoinPathEnds(dir: string, file: string)
    requires file != ""
    ensures HasSuffix(JoinPath([dir, file]), file)
  {
    if dir == "" {
      assert NonEmpty([dir, file]) == [file];
    } else {
      NonEmptyKeeps([file], file);
      JoinPathCons(dir, [file]);
      assert [dir] + [file] == [dir, file];
      assert NonEmpty([file]) == [file];
    }
  }

  /** The reload command: the binary with "-s reload". */
  function ReloadCommand(srv: ServerConfig): (cmd: string)
    ensures cmd == BinaryOf(srv) + " -s reload"
  {
    if srv.nginxBinaryPath == "" then "nginx -s reload" else srv.nginxBinaryPath + " -s" + " reload"
  }

  const AppliedHead := "Config applied (total: "

  /** The success message of an apply, with the copy's counts. */
  function ApplyMessage(total: int, updated: int, skipped: int): string {
    AppliedHead + (IntToString(total) + CountsTail(updated, skipped))
  }

  function CountsTail(updated: int, skipped: int): (tail: string)
    ensures |tail| > 0 && tail[0] == ','
  {
    ", updated: " + IntToString(updated) + ", skipped: " + IntToString(skipped) + ") and Nginx reloaded"
  }

  lemma SameHead(head: string, p: string, q: string)
    requires head + p == head + q
    ensures p == q
  {
    assert p == (head + p)[|head|..];
    assert q == (head + q)[|head|..];
  }

  /** The copy's counts and file lists as the response carries them. */
  function SyncOf(r: Scp.ScpResult): (s: SyncResult)
    ensures s.total == r.total && s.skipped == r.skipped
    ensures s.added == r.added && s.updated == r.updated && s.deleted == r.deleted
    ensures s.addedFiles == r.addedFiles && s.updatedFiles == r.updatedFiles && s.deletedFiles == r.deletedFiles
  {
    SyncResult(r.total, r.skipped, r.added, r.updated, r.deleted, r.addedFiles, r.updatedFiles, r.deletedFiles)
  }

  /** An empty check directory setting tests the nginx.conf in the "check"
      subdirectory of the configuration directory. */
  lemma DefaultCheckCommand(srv: ServerConfig)
    requires srv.checkDir == "" && srv.nginxConfigDir != "" && srv.nginxBinaryPath == ""
    ensures TestCommand(BinaryOf(srv), CheckDirOf(srv)) == "nginx -t -c " + srv.nginxConfigDir + "/check/nginx.conf"
  {
    var d := srv.nginxConfigDir;
    JoinTwo(d, "check");
    var dir := d + "/check";
    assert CheckDirOf(srv) == dir;
    JoinTwo(dir, "nginx.conf");
    var conf := dir + "/" + "nginx.conf";
    assert "/check" + "/" + "nginx.conf" == "/check/nginx.conf";
    assert conf == d + ("/check" + "/" + "nginx.conf");
    assert "nginx" + " -t -c " == "nginx -t -c ";
    assert TestCommand("nginx", dir) == "nginx -t -c " + conf;
  }

  lemma ConcatAt(a: string, x: string, b: string, y: string, k: int)
    requires a + x == b + y && k == |a| < |b| && |x| > 0
    ensures b[k] == x[0]
  {
    assert (a + x)[k] == x[0];
    assert (b + y)[k] == b[k];
  }

  /** A decimal field followed by a comma is read back unchanged: the field
      holds no comma. */
  lemma FieldBeforeComma(a: string, b: string, x: string, y: string)
    requires ',' !in a && ',' !in b
    requires a + x == b + y
    requires |x| > 0 && |y| > 0 && x[0] == ',' && y[0] == ','
    ensures a == b
  {
    if |a| < |b| {
      ConcatAt(a, x, b, y, |a|);
      assert false;
    } else if |b| < |a| {
      ConcatAt(b, y, a, x, |b|);
      assert false;
    } else {
      assert a == (a + x)[..|a|];
      assert b == (b + y)[..|b|];
    }
  }

  /** The apply message tells totals apart: equal messages carry equal
      totals. */
  lemma ApplyMessageDistinguishes(t1: int, u1: int, s1: int, t2: int, u2: int, s2: int)
    requires ApplyMessage(t1, u1, s1) == ApplyMessage(t2, u2, s2)
    ensures t1 == t2
  {
    var a := IntToString(t1);
    var b := IntToString(t2);
    var x := CountsTail(u1, s1);
    var y := CountsTail(u2, s2);
    SameHead(AppliedHead, a + x, b + y);
    IntToStringChars(t1);
    IntToStringChars(t2);
    FieldBeforeComma(a, b, x, y);
    IntToStringInjective(t1, t2);
  }

  // ---------------------------------------------------------------------------
  // The handlers.

  /** handleCheckConfig. */
  method CheckConfig(settings: Settings, request: Result<ServerRequest, string>, mode: string, remote: Remote)
    returns (out: Outcome)
    ensures request.Err? ==> out == Outcome(Response(400, [ErrorBody(request.error)]), None, None)
    ensures request.Ok? && !ApiFiles.ModeValid(mode) ==>
              out == Outcome(Response(400, [ErrorBody(ApiFiles.ModeMessage)]), None, None)
    ensures request.Ok? && ApiFiles.ModeValid(mode) &&
            ApiFiles.FirstServer(settings.servers, request.value.group, request.value.server).None? ==>
              out == Outcome(Response(404, [ErrorBody(ApiFiles.NotFound)]), None, None)
    ensures request.Ok? && ApiFiles.ModeValid(mode) &&
            ApiFiles.FirstServer(settings.servers, request.value.group, request.value.server).Some? ==>
              var g := request.value.group;
              var h := request.value.server;
              var srv := ApiFiles.FirstServer(settings.servers, g, h).value;
              var cmd := TestCommand(BinaryOf(srv), CheckDirOf(srv));
              (remote.poolErr.Some? ==>
                 out == Outcome(Response(500, [ErrorBody(PoolFailed + remote.poolErr.value)]), None, None)) &&
              (remote.poolErr.None? ==>
                 out.copied == Some(CopyTarget(ApiFiles.KeyPrefix(ApiFiles.TargetBase(settings, mode), g, h, srv), CheckDirOf(srv)))) &&
              (remote.poolErr.None? && remote.copy.err.Some? ==>
                 out.response == Response(500, [ErrorBody(CheckSyncFailed + remote.copy.err.value)]) && out.ran.None?) &&
              (remote.poolErr.None? && remote.copy.err.None? && remote.clientErr.Some? ==>
                 out.response == Response(500, [ErrorBody(ClientFailed + remote.clientErr.value)]) && out.ran.None?) &&
              (remote.poolErr.None? && remote.copy.err.None? && remote.clientErr.None? ==>
                 out.ran == Some(cmd) &&
                 out.response == Response(200, [CheckBody(CheckResponse(remote.command.ok, mode, Some(SyncOf(remote.copy.result)),
                                                        Some(NginxExecOutput(cmd, remote.command.ok, remote.command.output))))]))
  {
    if request.Err? {
      return Outcome(Write(Unwritten, 400, ErrorBody(request.error)), None, None);
    }
    if mode != "preview" && mode != "prod" {
      return Outcome(Write(Unwritten, 400, ErrorBody(ApiFiles.ModeMessage)), None, None);
    }
    var req := request.value;
    var found := ApiFiles.FindServer(settings.servers, req.group, req.server);
    if found.None? {
      return Outcome(Write(Unwritten, 404, ErrorBody(ApiFiles.NotFound)), None, None);
    }
    var srv := found.value;
    var suffix := Base(srv.nginxConfigDir);
    var prefix;
    if mode == "preview" {
      prefix := JoinPath([settings.previewPrefix, req.group, req.server, suffix]);
    } else {
      prefix := JoinPath([settings.gitPrefix, req.group, req.server, suffix]);
    }
    if remote.poolErr.Some? {
      return Outcome(Write(Unwritten, 500, ErrorBody(PoolFailed + remote.poolErr.value)), None, None);
    }
    var checkDir := srv.checkDir;
    if checkDir == "" {
      checkDir := JoinPath([srv.nginxConfigDir, "check"]);
    }
    var copied := Some(CopyTarget(prefix, checkDir));
    if remote.copy.err.Some? {
      return Outcome(Write(Unwritten, 500, ErrorBody(CheckSyncFailed + remote.copy.err.value)), copied, None);
    }
    if remote.clientErr.Some? {
      return Outcome(Write(Unwritten, 500, ErrorBody(ClientFailed + remote.clientErr.value)), copied, None);
    }
    var bin := srv.nginxBinaryPath;
    if bin == "" {
      bin := "nginx";
    }
    var cmd := TestCommand(bin, checkDir);
    var success := remote.command.ok;
    var res := CheckResponse(success, mode, Some(SyncOf(remote.copy.result)),
                             Some(NginxExecOutput(cmd, success, remote.command.output)));
    return Outcome(Write(Unwritten, 200, CheckBody(res)), copied, Some(cmd));
  }

  /** handleUpdatePrepare.  An empty configuration directory writes an error
      body and carries on: the status stays 500 and the later body follows it. */
  method UpdatePrepare(settings: Settings, request: Result<ServerRequest, string>, mode: string, remote: Remote)
    returns (out: Outcome)
    ensures request.Err? ==> out == Outcome(Response(400, [ErrorBody(request.error)]), None, None)
    ensures request.Ok? && mode != "prod" ==> out == Outcome(Response(400, [ErrorBody(ProdOnly)]), None, None)
    ensures request.Ok? && mode == "prod" &&
            ApiFiles.FirstServer(settings.servers, request.value.group, request.value.server).None? ==>
              out == Outcome(Response(404, [ErrorBody(ApiFiles.NotFound)]), None, None)
    ensures request.Ok? && mode == "prod" &&
            ApiFiles.FirstServer(settings.servers, request.value.group, request.value.server).Some? ==>
              var g := request.value.group;
              var h := request.value.server;
              var srv := ApiFiles.FirstServer(settings.servers, g, h).value;
              var dir := srv.nginxConfigDir;
              var cmd := TestCommand(BinaryOf(srv), dir);
              var first := if dir == "" then [ErrorBody(NoConfigDir)] else [];
              var status := if dir == "" then 500 else 200;
              (remote.poolErr.Some? ==>
                 out == Outcome(Response(500, [ErrorBody(PoolFailed + remote.poolErr.value)]), None, None)) &&
              (remote.poolErr.None? ==>
                 out.copied == Some(CopyTarget(ApiFiles.KeyPrefix(settings.gitPrefix, g, h, srv), dir))) &&
              (remote.poolErr.None? && remote.copy.err.Some? ==>
                 out.response == Response(500, first + [ErrorBody(CheckSyncFailed + remote.copy.err.value)]) && out.ran.None?) &&
              (remote.poolErr.None? && remote.copy.err.None? && remote.clientErr.Some? ==>
                 out.response == Response(500, first + [ErrorBody(ClientFailed + remote.clientErr.value)]) && out.ran.None?) &&
              (remote.poolErr.None? && remote.copy.err.None? && remote.clientErr.None? ==>
                 out.ran == Some(cmd) &&
                 out.response == Response(status, first + [PrepareBody(UpdatePrepareResponse(remote.command.ok,
                                                            Some(NginxExecOutput(cmd, remote.command.ok, remote.command.output)),
                                                            Some(SyncOf(remote.copy.result))))]))
  {
    if request.Err? {
      return Outcome(Write(Unwritten, 400, ErrorBody(request.error)), None, None);
    }
    if mode != "prod" {
      return Outcome(Write(Unwritten, 400, ErrorBody(ProdOnly)), None, None);
    }
    var req := request.value;
    var found := ApiFiles.FindServer(settings.servers, req.group, req.server);
    if found.None? {
      return Outcome(Write(Unwritten, 404, ErrorBody(ApiFiles.NotFound)), None, None);
    }
    var srv := found.value;
    var prefix := JoinPath([settings.gitPrefix, req.group, req.server, Base(srv.nginxConfigDir)]);
    if remote.poolErr.Some? {
      return Outcome(Write(Unwritten, 500, ErrorBody(PoolFailed + remote.poolErr.value)), None, None);
    }
    var response := Unwritten;
    var dir := srv.nginxConfigDir;
    if dir == "" {
      response := Write(response, 500, ErrorBody(NoConfigDir));
    }
    var copied := Some(CopyTarget(prefix, dir));
    if remote.copy.err.Some? {
      return Outcome(Write(response, 500, ErrorBody(CheckSyncFailed + remote.copy.err.value)), copied, None);
    }
    if remote.clientErr.Some? {
      return Outcome(Write(response, 500, ErrorBody(ClientFailed + remote.clientErr.value)), copied, None);
    }
    var bin := srv.nginxBinaryPath;
    if bin == "" {
      bin := "nginx";
    }
    var cmd := TestCommand(bin, dir);
    var success := remote.command.ok;
    var res := UpdatePrepareResponse(success, Some(NginxExecOutput(cmd, success, remote.command.output)),
                                     Some(SyncOf(remote.copy.result)));
    return Outcome(Write(response, 200, PrepareBody(res)), copied, Some(cmd));
  }

  /** handleUpdateApply: no mode is checked; the git source is copied to the
      live directory and nginx reloaded. */
  method UpdateApply(settings: Settings, request: Result<ServerRequest, string>, remote: Remote)
    returns (out: Outcome)
    ensures request.Err? ==> out == Outcome(Response(400, [ErrorBody(request.error)]), None, None)
    ensures request.Ok? && ApiFiles.FirstServer(settings.servers, request.value.group, request.value.server).None? ==>
              out == Outcome(Response(404, [ErrorBody(ApiFiles.NotFound)]), None, None)
    ensures request.Ok? && ApiFiles.FirstServer(settings.servers, request.value.group, request.value.server).Some? ==>
              var g := request.value.group;
              var h := request.value.server;
              var srv := ApiFiles.FirstServer(settings.servers, g, h).value;
              var cmd := ReloadCommand(srv);
              var run := remote.command;
              (remote.poolErr.Some? ==>
                 out == Outcome(Response(500, [ErrorBody(PoolFailed + remote.poolErr.value)]), None, None)) &&
              (remote.poolErr.None? ==>
                 out.copied == Some(CopyTarget(ApiFiles.KeyPrefix(settings.gitPrefix, g, h, srv), srv.nginxConfigDir))) &&
              (remote.poolErr.None? && remote.copy.err.Some? ==>
                 out.response == Response(500, [ErrorBody(ApplySyncFailed + remote.copy.err.value)]) && out.ran.None?) &&
              (remote.poolErr.None? && remote.copy.err.None? && remote.clientErr.Some? ==>
                 out.response == Response(500, [ErrorBody(ClientFailed + remote.clientErr.value)]) && out.ran.None?) &&
              (remote.poolErr.None? && remote.copy.err.None? && remote.clientErr.None? ==>
                 out.ran == Some(cmd) &&
                 (!run.ok ==> out.response == Response(500, [ApplyBody(UpdateApplyResponse(false, ReloadFailed,
                                                              Some(NginxExecOutput(cmd, false, run.output))))])) &&
                 (run.ok ==> out.response == Response(200, [ApplyBody(UpdateApplyResponse(true,
                                                              ApplyMessage(remote.copy.result.total, remote.copy.result.updated,
                                                                           remote.copy.result.skipped),
                                                              Some(NginxExecOutput(cmd, true, run.output))))])))
  {
    if request.Err? {
      return Outcome(Write(Unwritten, 400, ErrorBody(request.error)), None, None);
    }
    var req := request.value;
    var found := ApiFiles.FindServer(settings.servers, req.group, req.server);
    if found.None? {
      return Outcome(Write(Unwritten, 404, ErrorBody(ApiFiles.NotFound)), None, None);
    }
    var srv := found.value;
    if remote.poolErr.Some? {
      return Outcome(Write(Unwritten, 500, ErrorBody(PoolFailed + remote.poolErr.value)), None, None);
    }
    var prefix := JoinPath([settings.gitPrefix, req.group, req.server, Base(srv.nginxConfigDir)]);
    var copied := Some(CopyTarget(prefix, srv.nginxConfigDir));
    if remote.copy.err.Some? {
      return Outcome(Write(Unwritten, 500, ErrorBody(ApplySyncFailed + remote.copy.err.value)), copied, None);
    }
    if remote.clientErr.Some? {
      return Outcome(Write(Unwritten, 500, ErrorBody(ClientFailed + remote.clientErr.value)), copied, None);
    }
    var cmd;
    if srv.nginxBinaryPath == "" {
      cmd := "nginx -s reload";
    } else {
      cmd := srv.nginxBinaryPath + " -s" + " reload";
    }
    var run := remote.command;
    if !run.ok {
      var failed := UpdateApplyResponse(false, ReloadFailed, Some(NginxExecOutput(cmd, false, run.output)));
      return Outcome(Write(Unwritten, 500, ApplyBody(failed)), copied, Some(cmd));
    }
    var r := remote.copy.result;
    var done := UpdateApplyResponse(true, ApplyMessage(r.total, r.updated, r.skipped), Some(NginxExecOutput(cmd, true, run.output)));
    return Outcome(Write(Unwritten, 200, ApplyBody(done)), copied, Some(cmd));
  }
}
