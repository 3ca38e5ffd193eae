/** The configuration a client is started with: the command-line arguments,
    one address record per stripe server, the security settings, and the
    stripe's member URIs flattened into one comma-separated text for callers
    that still expect a single configuration string.

    The manager is an immutable value; `AddServer` returns the manager with
    one more server record. A null `SecurityInfo` or a null text is `None`. */
module ClientConfig {
  import opened Common
  import opened Text

  datatype SecurityInfo = SecurityInfo(secure: bool)

  /** `L2ConfigForL1.L2Data`: where one server listens, and whether the
      connection to it is secured. */
  datatype L2Data = L2Data(host: string, port: Int32, secure: bool)

  datatype Manager = Manager(
    args: seq<string>,
    l2Data: seq<L2Data>,
    securityInfo: Option<SecurityInfo>,
    legacyStripeConfigText: Option<string>)

  /** The member URIs are joined by this character. */
  const URI_SEPARATOR: char := ','

  /** A server is reached securely only when security settings are present
      and say so; without settings the connection is plain. */
  function IsSecure(si: Option<SecurityInfo>): (b: bool)
    ensures b <==> si.Some? && si.value.secure
  {
    match si
    case None => false
    case Some(info) => info.secure
  }

  /** The record for one server under the given security settings. */
  function ServerRecord(host: string, port: Int32, si: Option<SecurityInfo>): (d: L2Data)
    ensures d.host == host && d.port == port
    ensures d.secure <==> si.Some? && si.value.secure
  {
    L2Data(host, port, IsSecure(si))
  }

  // ---------------------------------------------------------------------
  // The stripe text
  // ---------------------------------------------------------------------

  /** The reference definition of the stripe text: no text for no members,
      otherwise the members in list order with a comma between each pair. */
  function StripeText(uris: seq<string>): (t: Option<string>)
    ensures t.None? <==> |uris| == 0
  {
    if |uris| == 0 then None else Some(JoinNonEmpty(uris, URI_SEPARATOR))
  }

  /** The constructor's loop over the member URIs: the first member becomes
      the text, each later one is appended after a comma. */
  method JoinMemberUris(uris: seq<string>) returns (text: Option<string>)
    ensures text == StripeText(uris)
  {
    text := None;
    var i := 0;
    while i < |uris|
      invariant 0 <= i <= |uris|
      invariant text == StripeText(uris[..i])
    {
      assert uris[..i + 1][..i] == uris[..i];
      if text.None? {
        text := Some(uris[i]);
      } else {
        text := Some(text.value + [URI_SEPARATOR] + uris[i]);
      }
      i := i + 1;
    }
    assert uris[..i] == uris;
  }

  /** When no member URI contains a comma, the stripe text can be cut back
      into exactly the member list. */
  lemma StripeTextSplitsBack(uris: seq<string>)
    requires 0 < |uris|
    requires forall i :: 0 <= i < |uris| ==> Excludes(uris[i], URI_SEPARATOR)
    ensures StripeText(uris).Some?
    ensures Split(StripeText(uris).value, URI_SEPARATOR) == uris
  {
    SplitJoinNonEmpty(uris, URI_SEPARATOR);
  }

  /** A comma inside a member URI is not told apart from the separator: two
      different member lists give the same text. */
  lemma StripeTextIsAmbiguousWithCommas()
    ensures StripeText(["a,b"]) == StripeText(["a", "b"])
    ensures ["a,b"] != ["a", "b"]
  {
    assert ["a", "b"][..1] == ["a"];
    assert JoinNonEmpty(["a", "b"], URI_SEPARATOR) == "a" + [','] + "b";
    assert "a" + [','] + "b" == "a,b";
  }

  // ---------------------------------------------------------------------
  // Construction and addServer
  // ---------------------------------------------------------------------

  /** The constructor. The host and port arrays are read in parallel, so
      there must be a port for every host; extra ports are ignored. */
  function Create(uris: seq<string>, args: seq<string>, hosts: seq<string>, ports: seq<Int32>, si: Option<SecurityInfo>): (m: Manager)
    requires |ports| >= |hosts|
    ensures m.args == args && m.securityInfo == si
    ensures |m.l2Data| == |hosts|
    ensures forall i :: 0 <= i < |hosts| ==>
      && m.l2Data[i].host == hosts[i] && m.l2Data[i].port == ports[i]
      && (m.l2Data[i].secure <==> si.Some? && si.value.secure)
    ensures m.legacyStripeConfigText.None? <==> |uris| == 0
  {
    Manager(args,
            seq(|hosts|, i requires 0 <= i < |hosts| => ServerRecord(hosts[i], ports[i], si)),
            si,
            StripeText(uris))
  }

  /** `addServer`: one more record at the end, under the manager's own
      security settings; everything else is unchanged. */
  function AddServer(m: Manager, host: string, port: Int32): (r: Manager)
    ensures |r.l2Data| == |m.l2Data| + 1
    ensures r.l2Data[..|m.l2Data|] == m.l2Data
    ensures r.l2Data[|m.l2Data|] == ServerRecord(host, port, m.securityInfo)
    ensures r.args == m.args && r.securityInfo == m.securityInfo
    ensures r.legacyStripeConfigText == m.legacyStripeConfigText
  {
    m.(l2Data := m.l2Data + [ServerRecord(host, port, m.securityInfo)])
  }

  /** Adding a server after construction gives the same manager as listing
      it last among the constructor's hosts. */
  lemma CreateThenAddServer(uris: seq<string>, args: seq<string>, hosts: seq<string>, ports: seq<Int32>,
                            si: Option<SecurityInfo>, host: string, port: Int32)
    requires |ports| == |hosts|
    ensures AddServer(Create(uris, args, hosts, ports, si), host, port)
         == Create(uris, args, hosts + [host], ports + [port], si)
  {
    var a := AddServer(Create(uris, args, hosts, ports, si), host, port);
    var b := Create(uris, args, hosts + [host], ports + [port], si);
    assert a.l2Data == b.l2Data;
  }

  /** Adds the servers one after another: one more record per server, and
      nothing but the records changes. */
  function AddServers(m: Manager, hosts: seq<string>, ports: seq<Int32>): (r: Manager)
    requires |ports| == |hosts|
    ensures |r.l2Data| == |m.l2Data| + |hosts|
    ensures r.args == m.args && r.securityInfo == m.securityInfo
    ensures r.legacyStripeConfigText == m.legacyStripeConfigText
    decreases |hosts|
  {
    if |hosts| == 0 then m
    else AddServers(AddServer(m, hosts[0], ports[0]), hosts[1..], ports[1..])
  }

  /** Adding servers one at a time appends their records in call order and
      leaves the existing records where they were. */
  lemma {:induction false} AddServersAppends(m: Manager, hosts: seq<string>, ports: seq<Int32>)
    requires |ports| == |hosts|
    ensures var r := AddServers(m, hosts, ports);
      && |r.l2Data| == |m.l2Data| + |hosts|
      && r.l2Data[..|m.l2Data|] == m.l2Data
      && (forall i :: 0 <= i < |hosts| ==> r.l2Data[|m.l2Data| + i] == ServerRecord(hosts[i], ports[i], m.securityInfo))
      && r.args == m.args && r.securityInfo == m.securityInfo
      && r.legacyStripeConfigText == m.legacyStripeConfigText
    decreases |hosts|
  {
    if |hosts| > 0 {
      var m1 := AddServer(m, hosts[0], ports[0]);
      AddServersAppends(m1, hosts[1..], ports[1..]);
      var r := AddServers(m, hosts, ports);
      assert r.l2Data[..|m.l2Data|] == r.l2Data[..|m1.l2Data|][..|m.l2Data|];
      forall i | 0 <= i < |hosts|
        ensures r.l2Data[|m.l2Data| + i] == ServerRecord(hosts[i], ports[i], m.securityInfo)
      {
        if i > 0 {
          assert r.l2Data[|m1.l2Data| + (i - 1)] == ServerRecord(hosts[1..][i - 1], ports[1..][i - 1], m.securityInfo);
        } else {
          assert r.l2Data[..|m1.l2Data|][|m.l2Data|] == m1.l2Data[|m.l2Data|];
        }
      }
    }
  }

  // ---------------------------------------------------------------------
  // Accessors
  // ---------------------------------------------------------------------

  function ProcessArguments(m: Manager): seq<string> {
    m.args
  }

  function LoadedFromTrustedSource(m: Manager): bool {
    false
  }

  function RawConfigText(m: Manager): Option<string> {
    m.legacyStripeConfigText
  }

  /** Reports the same text as `RawConfigText`. */
  function Source(m: Manager): (t: Option<string>)
    ensures t == RawConfigText(m)
  {
    m.legacyStripeConfigText
  }

  /** `l2Config().l2Data()`: the current records, read at call time. */
  function L2DataOf(m: Manager): seq<L2Data> {
    m.l2Data
  }

  function GetSecurityInfo(m: Manager): Option<SecurityInfo> {
    m.securityInfo
  }

  /** What the accessors report for a manager built by the constructor and
      then given extra servers: the arguments as given, never a trusted
      source, the same stripe text from both text accessors, the security
      settings as given, and the records of both the constructor's hosts
      and the added servers. */
  lemma AccessorsAfterCreate(uris: seq<string>, args: seq<string>, hosts: seq<string>, ports: seq<Int32>,
                             si: Option<SecurityInfo>, moreHosts: seq<string>, morePorts: seq<Int32>)
    requires |ports| == |hosts| && |morePorts| == |moreHosts|
    ensures var m := AddServers(Create(uris, args, hosts, ports, si), moreHosts, morePorts);
      && ProcessArguments(m) == args
      && !LoadedFromTrustedSource(m)
      && RawConfigText(m) == Source(m) == StripeText(uris)
      && GetSecurityInfo(m) == si
      && |L2DataOf(m)| == |hosts| + |moreHosts|
      && (forall i :: 0 <= i < |hosts| ==> L2DataOf(m)[i] == ServerRecord(hosts[i], ports[i], si))
      && (forall i :: 0 <= i < |moreHosts| ==> L2DataOf(m)[|hosts| + i] == ServerRecord(moreHosts[i], morePorts[i], si))
  {
    var m0 := Create(uris, args, hosts, ports, si);
    AddServersAppends(m0, moreHosts, morePorts);
    var m := AddServers(m0, moreHosts, morePorts);
    forall i | 0 <= i < |hosts|
      ensures L2DataOf(m)[i] == ServerRecord(hosts[i], ports[i], si)
    {
      assert m.l2Data[..|hosts|][i] == m0.l2Data[i];
    }
  }
}
