/** The group listing: the configured server groups as the console's menu sees
    them. */
module ApiGroups {
  import opened Text
  import opened Wire
  import opened Config

  /** The summary of one server: its name, its address and the last element of
      its configuration directory. */
  function HostOf(s: ServerConfig): (h: HostSummary)
    ensures h.name == s.name && h.host == s.host && h.configDirSuffix == Base(s.nginxConfigDir)
  {
    HostSummary(s.name, s.host, Base(s.nginxConfigDir))
  }

  /** The host list a group's loop builds: nil when nothing was appended. */
  function HostsOf(servers: seq<ServerConfig>): (r: Option<seq<HostSummary>>)
    ensures r.None? <==> |servers| == 0
    ensures r.Some? ==> |r.value| == |servers| && forall k :: 0 <= k < |servers| ==> r.value[k] == HostOf(servers[k])
  {
    if |servers| == 0 then None
    else Some(HostsOf(servers[..|servers| - 1]).GetOr([]) + [HostOf(servers[|servers| - 1])])
  }

  /** The group list the outer loop builds: nil when there are no groups. */
  function GroupsOf(groups: seq<NginxServerGroup>): (r: Option<seq<GroupSummary>>)
    ensures r.None? <==> |groups| == 0
    ensures r.Some? ==> |r.value| == |groups| &&
                        forall k :: 0 <= k < |groups| ==> r.value[k] == GroupSummary(groups[k].group, HostsOf(groups[k].servers))
  {
    if |groups| == 0 then None
    else Some(GroupsOf(groups[..|groups| - 1]).GetOr([]) + [GroupSummary(groups[|groups| - 1].group, HostsOf(groups[|groups| - 1].servers))])
  }

  /** The inner loop of handleGetGroups: one group's servers, appended to a
      nil slice. */
  method CollectHosts(servers: seq<ServerConfig>) returns (hosts: Option<seq<HostSummary>>)
    ensures hosts == HostsOf(servers)
  {
    hosts := None;
    var j := 0;
    while j < |servers|
      invariant 0 <= j <= |servers|
      invariant hosts == HostsOf(servers[..j])
    {
      assert servers[..j + 1][..j] == servers[..j];
      hosts := Some(hosts.GetOr([]) + [HostOf(servers[j])]);
      j := j + 1;
    }
    assert servers[..j] == servers;
  }

  /** handleGetGroups: the outer loop over the groups, appending to a nil
      slice. */
  method GetGroups(config: seq<NginxServerGroup>) returns (groups: Option<seq<GroupSummary>>)
    ensures groups == GroupsOf(config)
  {
    groups := None;
    var i := 0;
    while i < |config|
      invariant 0 <= i <= |config|
      invariant groups == GroupsOf(config[..i])
    {
      assert config[..i + 1][..i] == config[..i];
      var hosts := CollectHosts(config[i].servers);
      groups := Some(groups.GetOr([]) + [GroupSummary(config[i].group, hosts)]);
      i := i + 1;
    }
    assert config[..i] == config;
  }

  /** The menu lists the groups under their configured names, in order, each
      with its servers' names and addresses in order. */
  lemma MenuFollowsConfig(config: seq<NginxServerGroup>, k: nat, j: nat)
    requires k < |config| && j < |config[k].servers|
    ensures GroupsOf(config).value[k].name == config[k].group
    ensures GroupsOf(config).value[k].hosts.value[j].name == config[k].servers[j].name
    ensures GroupsOf(config).value[k].hosts.value[j].host == config[k].servers[j].host
  {
  }
}
