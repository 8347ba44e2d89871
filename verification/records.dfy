/**
 The shapes the adapter works with: the backend's service instance on the way
 in, and the two Consul-style views built from it on the way out (the flat
 catalogue entry and the health entry), together with the per-instance
 mappings `ToRecord` and `ToHealth` and the inverses that show what each
 mapping keeps.
 */
module Records {
  import opened Wrappers
  import opened Decimal

  /** A Java `int`. */
  type JavaInt = x: int | -0x8000_0000 <= x < 0x8000_0000

  /**
   A registered endpoint as the discovery backend reports it. Two instances are
   the same instance exactly when all four fields agree.
   */
  datatype Instance = Instance(host: string, port: JavaInt, serviceId: string, metadata: map<string, string>)

  /** The flat catalogue entry; the comments give each field's JSON key. */
  datatype InstanceRecord = InstanceRecord(
    address: string,                  // Address
    node: string,                     // Node
    serviceAddress: string,           // ServiceAddress
    serviceName: string,              // ServiceName
    serviceID: string,                // ServiceID
    servicePort: JavaInt,             // ServicePort
    nodeMeta: map<string, string>,    // NodeMeta
    serviceMeta: map<string, string>, // ServiceMeta
    serviceTags: seq<string>)         // ServiceTags

  /** The health entry: the node, the service on it, and its checks. */
  datatype Node = Node(name: string, address: string, meta: map<string, string>)
  datatype Service = Service(id: string, name: string, tags: seq<string>, address: string,
                             meta: map<string, string>, port: JavaInt)
  datatype Check = Check(node: string, checkID: string, name: string, status: string)
  datatype ServiceHealth = ServiceHealth(node: Node, service: Service, checks: seq<Check>)

  const ManagementPortKey := "management.port"
  const CheckIdPrefix := "service:"
  const PassingStatus := "UP"

  /**
   The endpoint identifier written to a catalogue entry's `ServiceID`: host, a
   colon, then the port in decimal. It is distinct from `Instance.serviceId`,
   which is the service name.
   */
  function EndpointId(host: string, port: int): string {
    host + ":" + IntToString(port)
  }

  function LastIndexOf(s: string, c: char): (r: Option<nat>)
    ensures r.Some? ==> r.value < |s| && s[r.value] == c
    ensures r.Some? ==> forall j :: r.value < j < |s| ==> s[j] != c
    ensures r.None? ==> c !in s
    decreases |s|
  {
    if |s| == 0 then None
    else if s[|s| - 1] == c then Some(|s| - 1)
    else LastIndexOf(s[..|s| - 1], c)
  }

  /** Splits a service identifier at its last colon into host and port. */
  function ParseEndpointId(id: string): Option<(string, int)> {
    match LastIndexOf(id, ':')
    case None => None
    case Some(k) =>
      match ParseInt(id[k + 1..])
      case None => None
      case Some(p) => Some((id[..k], p))
  }

  /**
   The identifier determines host and port: the decimal port contains no colon,
   so the last colon is the separator even when the host itself holds colons.
   */
  lemma EndpointIdRoundTrip(host: string, port: int)
    ensures ParseEndpointId(EndpointId(host, port)) == Some((host, port))
  {
    var d := IntToString(port);
    var s := EndpointId(host, port);
    assert s[|host|] == ':';
    var r := LastIndexOf(s, ':');
    assert r.value == |host|;
    assert s[|host| + 1..] == d;
    assert s[..|host|] == host;
    IntRoundTrip(port);
  }

  /** The relations between the fields of every catalogue entry the adapter builds. */
  predicate WellFormedRecord(r: InstanceRecord) {
    && r.serviceAddress == r.address
    && r.serviceName == r.node
    && r.serviceID == EndpointId(r.address, r.servicePort)
    && r.serviceMeta == map[ManagementPortKey := IntToString(r.servicePort)]
    && r.nodeMeta == map[]
    && r.serviceTags == []
  }

  /** Flattens an instance into a catalogue entry; the instance's own metadata is dropped. */
  function ToRecord(i: Instance): (r: InstanceRecord)
    ensures WellFormedRecord(r)
    ensures r.address == i.host && r.node == i.serviceId && r.servicePort == i.port
  {
    InstanceRecord(
      address := i.host,
      node := i.serviceId,
      serviceAddress := i.host,
      serviceName := i.serviceId,
      serviceID := EndpointId(i.host, i.port),
      servicePort := i.port,
      nodeMeta := map[],
      serviceMeta := map[ManagementPortKey := IntToString(i.port)],
      serviceTags := [])
  }

  /**
   The derived strings of a catalogue entry decode back to the instance's host
   and port, and its service metadata has the one key `management.port`.
   */
  lemma RecordDecodes(i: Instance)
    ensures ParseEndpointId(ToRecord(i).serviceID) == Some((i.host, i.port))
    ensures ToRecord(i).serviceMeta.Keys == {ManagementPortKey}
    ensures ParseInt(ToRecord(i).serviceMeta[ManagementPortKey]) == Some(i.port)
  {
    EndpointIdRoundTrip(i.host, i.port);
    IntRoundTrip(i.port);
  }

  /** Two instances give the same catalogue entry exactly when they differ at most in metadata. */
  lemma RecordForgetsOnlyMetadata(a: Instance, b: Instance)
    ensures ToRecord(a) == ToRecord(b) <==>
            a.host == b.host && a.port == b.port && a.serviceId == b.serviceId
  {
  }

  /** The well-formed entries are exactly the entries some instance maps to. */
  lemma WellFormedRecordIsImage(r: InstanceRecord)
    ensures WellFormedRecord(r) <==> exists i :: ToRecord(i) == r
  {
    if WellFormedRecord(r) {
      assert ToRecord(Instance(r.address, r.servicePort, r.node, map[])) == r;
    }
  }

  /** The single synthesized check of a health entry. */
  function PassingCheck(serviceId: string): Check {
    Check(
      node := serviceId,
      checkID := CheckIdPrefix + serviceId,
      name := "Service '" + serviceId + "' check",
      status := PassingStatus)
  }

  /** The relations between the fields of every health entry the adapter builds. */
  predicate WellFormedHealth(h: ServiceHealth) {
    && h.service.id == h.node.name
    && h.service.name == h.node.name
    && h.service.address == h.node.address
    && h.service.meta == h.node.meta
    && h.service.tags == []
    && h.checks == [PassingCheck(h.node.name)]
  }

  /** Reads the instance back out of a health entry. */
  function FromHealth(h: ServiceHealth): Instance {
    Instance(h.node.address, h.service.port, h.node.name, h.node.meta)
  }

  /** Builds the health entry of an instance: it keeps the metadata and reports a static "UP" check. */
  function ToHealth(i: Instance): (h: ServiceHealth)
    ensures WellFormedHealth(h)
    ensures FromHealth(h) == i
  {
    var node := Node(name := i.serviceId, address := i.host, meta := i.metadata);
    var service := Service(id := i.serviceId, name := i.serviceId, tags := [], address := i.host,
                           meta := i.metadata, port := i.port);
    ServiceHealth(node, service, [PassingCheck(i.serviceId)])
  }

  /** The check identifies the service: stripping the prefix from its id gives the service name. */
  lemma CheckNamesService(i: Instance)
    ensures |ToHealth(i).checks| == 1
    ensures ToHealth(i).checks[0].status == PassingStatus
    ensures ToHealth(i).checks[0].node == i.serviceId
    ensures ToHealth(i).checks[0].checkID[..|CheckIdPrefix|] == CheckIdPrefix
    ensures ToHealth(i).checks[0].checkID[|CheckIdPrefix|..] == i.serviceId
  {
  }

  /** Every well-formed health entry is rebuilt from the instance read out of it. */
  lemma HealthRoundTrip(h: ServiceHealth)
    requires WellFormedHealth(h)
    ensures ToHealth(FromHealth(h)) == h
  {
  }

  /** Distinct instances give distinct health entries. */
  lemma ToHealthInjective(a: Instance, b: Instance)
    ensures ToHealth(a) == ToHealth(b) <==> a == b
  {
  }
}
