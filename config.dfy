/** Server-inventory validation and the configuration defaults.  Reading the YAML
    files is not modelled: the decoded server groups are the input. */
module Config {
  import opened Text

  datatype ServerAuth = ServerAuth(authMethod: string, keyPath: string, password: string)

  datatype ServerConfig = ServerConfig(
    name: string, host: string, port: int, user: string, auth: ServerAuth,
    nginxBinaryPath: string, nginxConfigDir: string, checkDir: string, backupDir: string)

  datatype NginxServerGroup = NginxServerGroup(group: string, servers: seq<ServerConfig>)

  /** The key prefixes of the three syncers and the API settings the model uses. */
  datatype Settings = Settings(
    listen: string, allowOrigins: seq<string>, enableEmbeddedServer: bool,
    remotePrefix: string, gitPrefix: string, previewPrefix: string,
    servers: seq<NginxServerGroup>)

  const DefaultListen := ":8080"
  const DefaultRemotePrefix := "/gitops-nginx-remote"
  const DefaultGitPrefix := "/gitops-nginx"
  const DefaultPreviewPrefix := "/gitops-nginx-preview"

  /** The settings when the main file sets nothing. */
  function Defaults(servers: seq<NginxServerGroup>): (c: Settings)
    ensures c.servers == servers && c.allowOrigins == ["*"] && c.enableEmbeddedServer
    ensures c.remotePrefix != c.gitPrefix && c.gitPrefix != c.previewPrefix && c.remotePrefix != c.previewPrefix
  {
    Settings(DefaultListen, ["*"], true, DefaultRemotePrefix, DefaultGitPrefix, DefaultPreviewPrefix, servers)
  }

  // ---------------------------------------------------------------------------
  // net.ParseIP, for dotted IPv4 addresses.

  predicate IsDigit(c: char) {
    '0' <= c <= '9'
  }

  /** One field of a dotted address: one to three digits, no leading zero, at
      most 255. */
  predicate IsOctet(s: string) {
    1 <= |s| <= 3 && (forall i :: 0 <= i < |s| ==> IsDigit(s[i])) &&
    (|s| > 1 ==> s[0] != '0') && DigitsValue(s) <= 255
  }

  predicate IsIPv4(s: string) {
    var fields := Split(s, '.');
    |fields| == 4 && forall k :: 0 <= k < 4 ==> IsOctet(fields[k])
  }

  // ---------------------------------------------------------------------------
  // ValidateServersConfig.

  /** The checks a server must pass. */
  predicate ServerValid(s: ServerConfig) {
    s.host != "" && IsIPv4(s.host) && 1 <= s.port <= 65535 &&
    s.user != "" && s.auth.authMethod != "" && s.nginxConfigDir != ""
  }

  predicate GroupValid(g: NginxServerGroup) {
    g.group != "" && |g.servers| > 0 && forall k :: 0 <= k < |g.servers| ==> ServerValid(g.servers[k])
  }

  function Label(group: string, s: ServerConfig): string {
    "group '" + group + "' server '" + s.name + "'"
  }

  const HostEmpty := ": host is empty"
  const NoUser := ": user is empty"
  const NoAuthMethod := ": auth method is not set"
  const NoConfigDir := ": nginx_config_dir is empty"
  const EmptyGroupName := "found group with empty name"

  function BadAddress(host: string): string {
    ": host '" + host + "' is not a valid IP address"
  }

  function BadPort(port: int): string {
    ": port " + IntToString(port) + " is invalid (must be 1-65535)"
  }

  function NoServers(group: string): string {
    "group '" + group + "' has no servers defined"
  }

  /** The messages for one server, in the order the checks run. */
  function ServerErrors(group: string, s: ServerConfig): (errs: seq<string>)
    ensures errs == [] <==> ServerValid(s)
  {
    var p := Label(group, s);
    (if s.host == "" then [p + HostEmpty]
     else if !IsIPv4(s.host) then [p + BadAddress(s.host)]
     else []) +
    (if s.port <= 0 || s.port > 65535 then [p + BadPort(s.port)] else []) +
    (if s.user == "" then [p + NoUser] else []) +
    (if s.auth.authMethod == "" then [p + NoAuthMethod] else []) +
    (if s.nginxConfigDir == "" then [p + NoConfigDir] else [])
  }

  /** The messages for the first n servers of a group. */
  function ServersErrors(group: string, servers: seq<ServerConfig>): seq<string>
    decreases |servers|
  {
    if |servers| == 0 then []
    else ServersErrors(group, servers[..|servers| - 1]) + ServerErrors(group, servers[|servers| - 1])
  }

  /** The messages for one group: a group without servers is not looked into. */
  function GroupErrors(g: NginxServerGroup): seq<string> {
    (if g.group == "" then [EmptyGroupName] else []) +
    (if |g.servers| == 0 then [NoServers(g.group)]
     else ServersErrors(g.group, g.servers))
  }

  function AllErrors(groups: seq<NginxServerGroup>): seq<string>
    decreases |groups|
  {
    if |groups| == 0 then []
    else AllErrors(groups[..|groups| - 1]) + GroupErrors(groups[|groups| - 1])
  }

  const NoGroupsError := "no nginx server groups defined in configuration"

  function FailureMessage(errs: seq<string>): string {
    "configuration validation failed:\n  - " + Join(errs, "\n  - ")
  }

  /** The loop over one group's servers. */
  method CheckServers(group: string, servers: seq<ServerConfig>) returns (errs: seq<string>)
    ensures errs == ServersErrors(group, servers)
  {
    errs := [];
    var j := 0;
    while j < |servers|
      invariant 0 <= j <= |servers|
      invariant errs == ServersErrors(group, servers[..j])
    {
      assert servers[..j + 1][..j] == servers[..j];
      errs := errs + ServerErrors(group, servers[j]);
      j := j + 1;
    }
    assert servers[..j] == servers;
  }

  /** One group: a group without servers is reported and not looked into. */
  method CheckGroup(g: NginxServerGroup) returns (errs: seq<string>)
    ensures errs == GroupErrors(g)
  {
    errs := [];
    if g.group == "" {
      errs := errs + [EmptyGroupName];
    }
    if |g.servers| == 0 {
      errs := errs + [NoServers(g.group)];
      return;
    }
    var more := CheckServers(g.group, g.servers);
    errs := errs + more;
  }

  /** The validation loop: all messages are collected, then either one joined
      error or the groups unchanged. */
  method ValidateServers(groups: seq<NginxServerGroup>) returns (r: Result<seq<NginxServerGroup>, string>)
    ensures |groups| == 0 ==> r == Err(NoGroupsError)
    ensures |groups| > 0 && AllErrors(groups) != [] ==> r == Err(FailureMessage(AllErrors(groups)))
    ensures |groups| > 0 && AllErrors(groups) == [] ==> r == Ok(groups)
  {
    if |groups| == 0 {
      return Err(NoGroupsError);
    }
    var errs: seq<string> := [];
    var i := 0;
    while i < |groups|
      invariant 0 <= i <= |groups|
      invariant errs == AllErrors(groups[..i])
    {
      assert groups[..i + 1][..i] == groups[..i];
      var more := CheckGroup(groups[i]);
      errs := errs + more;
      i := i + 1;
    }
    assert groups[..i] == groups;
    if |errs| > 0 {
      return Err(FailureMessage(errs));
    }
    return Ok(groups);
  }

  // ---------------------------------------------------------------------------

  lemma {:induction false} ServersErrorsEmpty(group: string, servers: seq<ServerConfig>)
    ensures ServersErrors(group, servers) == [] <==> forall k :: 0 <= k < |servers| ==> ServerValid(servers[k])
    decreases |servers|
  {
    if |servers| > 0 {
      var init := servers[..|servers| - 1];
      ServersErrorsEmpty(group, init);
      assert forall k :: 0 <= k < |init| ==> init[k] == servers[k];
    }
  }

  /** A group raises no message iff it has a name, has servers and every server
      passes every check. */
  lemma GroupErrorsEmpty(g: NginxServerGroup)
    ensures GroupErrors(g) == [] <==> GroupValid(g)
  {
    ServersErrorsEmpty(g.group, g.servers);
  }

  /** The whole inventory is accepted iff there is a group and every group is
      valid; an accepted inventory is returned unchanged. */
  lemma {:induction false} AllErrorsEmpty(groups: seq<NginxServerGroup>)
    ensures AllErrors(groups) == [] <==> forall k :: 0 <= k < |groups| ==> GroupValid(groups[k])
    decreases |groups|
  {
    if |groups| > 0 {
      var init := groups[..|groups| - 1];
      AllErrorsEmpty(init);
      GroupErrorsEmpty(groups[|groups| - 1]);
      assert forall k :: 0 <= k < |init| ==> init[k] == groups[k];
    }
  }

  /** The two host messages never occur together: an empty host is never also
      reported as an invalid address. */
  lemma HostMessagesExclusive(group: string, s: ServerConfig)
    ensures s.host == "" ==> ServerErrors(group, s)[0] == Label(group, s) + HostEmpty
    ensures s.host != "" && !IsIPv4(s.host) ==> ServerErrors(group, s)[0] == Label(group, s) + BadAddress(s.host)
  {
  }

  // ---------------------------------------------------------------------------
  // The expectations of the configuration tests, stated on the model.

  /** Four octets joined by dots form an address. */
  lemma DottedQuad(a: string, b: string, c: string, d: string)
    requires IsOctet(a) && IsOctet(b) && IsOctet(c) && IsOctet(d)
    ensures IsIPv4(a + "." + b + "." + c + "." + d)
  {
    var parts := [a, b, c, d];
    assert forall k :: 0 <= k < 4 ==> '.' !in parts[k] by {
      forall k | 0 <= k < 4 ensures '.' !in parts[k] {
        assert forall i :: 0 <= i < |parts[k]| ==> IsDigit(parts[k][i]);
      }
    }
    SplitJoin(parts, '.');
    assert parts[1..] == [b, c, d] && parts[1..][1..] == [c, d] && parts[1..][1..][1..] == [d];
    assert Join([c, d], ".") == c + "." + d;
    assert Join([b, c, d], ".") == b + "." + (c + "." + d);
    assert Join(parts, ".") == a + "." + (b + "." + (c + "." + d));
    var text := a + "." + b + "." + c + "." + d;
    assert Join(parts, ".") == text;
    assert Split(text, '.') == parts;
    assert IsOctet(parts[0]) && IsOctet(parts[1]) && IsOctet(parts[2]) && IsOctet(parts[3]);
  }

  lemma SampleOctets()
    ensures IsOctet("192") && IsOctet("168") && IsOctet("1")
  {
    assert DigitsValue("1") == 1 by {
      assert "1"[..0] == "";
    }
    assert DigitsValue("19") == 19 by {
      assert "19"[..1] == "1";
    }
    assert DigitsValue("192") == 192 by {
      assert "192"[..2] == "19";
    }
    assert DigitsValue("16") == 16 by {
      assert "16"[..1] == "1";
    }
    assert DigitsValue("168") == 168 by {
      assert "168"[..2] == "16";
    }
  }

  /** "192.168.1.1" is an address. */
  lemma SampleAddress()
    ensures IsIPv4("192.168.1.1")
  {
    SampleOctets();
    DottedQuad("192", "168", "1", "1");
    assert "192" + "." + "168" + "." + "1" + "." + "1" == "192.168.1.1";
  }

  /** The server of the valid test inventory. */
  const SampleServer := ServerConfig("web-01", "192.168.1.1", 22, "root", ServerAuth("ssh", "/root/.ssh/id_rsa", ""),
                                     "", "/etc/nginx", "", "")

  /** The valid inventory passes. */
  lemma ValidInventoryAccepted()
    ensures AllErrors([NginxServerGroup("prod", [SampleServer])]) == []
  {
    SampleAddress();
    assert ServerValid(SampleServer);
    AllErrorsEmpty([NginxServerGroup("prod", [SampleServer])]);
  }

  /** A group with no name but valid servers raises exactly the empty-name
      message. */
  lemma MissingGroupName()
    ensures AllErrors([NginxServerGroup("", [SampleServer])]) == [EmptyGroupName]
  {
    SampleAddress();
    assert ServerValid(SampleServer);
    ServersErrorsEmpty("", [SampleServer]);
  }

  /** A group without servers raises exactly the no-servers message. */
  lemma GroupWithoutServers()
    ensures AllErrors([NginxServerGroup("empty-group", [])]) == [NoServers("empty-group")]
  {
    var g := NginxServerGroup("empty-group", []);
    assert [g][..0] == [];
    assert g.group != "";
  }

  /** Port 70000 raises exactly the port message. */
  lemma InvalidPort()
    ensures ServerErrors("prod", SampleServer.(port := 70000)) == [Label("prod", SampleServer) + BadPort(70000)]
  {
    SampleAddress();
  }

  /** The port appears in the message in decimal. */
  lemma PortInDecimal()
    ensures IntToString(70000) == "70000"
  {
    assert NatToString(7) == "7";
    assert NatToString(70) == "70";
    assert NatToString(700) == "700";
    assert NatToString(7000) == "7000";
  }

  /** A host that is not an address raises exactly the address message. */
  lemma InvalidAddress()
    ensures ServerErrors("prod", SampleServer.(host := "invalid-ip")) ==
            [Label("prod", SampleServer) + BadAddress("invalid-ip")]
  {
    assert !IsOctet("invalid-ip") by {
      assert !IsDigit("invalid-ip"[0]);
    }
    SplitNoSep("invalid-ip", '.');
    var s := SampleServer.(host := "invalid-ip");
    assert !IsIPv4(s.host);
    assert s.host != "";
  }
}
