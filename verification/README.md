# nacos-consul-adapter registration service, modelled in Dafny

The adapter answers Consul-style discovery queries from the contents of a
Spring Cloud `DiscoveryClient` backed by Nacos. `RegistrationService` offers
three queries:

- **Service names**: all registered names, deduplicated. Each name maps to an empty tag array.
- **Instance catalogue**: one service's instances, deduplicated. Each becomes a
  flat record with `Address`, `Node`, `ServiceAddress`, `ServiceName`,
  `ServiceID` (`host:port`), `ServicePort`, `NodeMeta`, `ServiceMeta`
  (`{"management.port": port}`) and `ServiceTags`.
- **Health view**: the same instances, each turned into a Node/Service/Checks
  entry with one synthesized `"UP"` check whose id is `service:<serviceId>`.

If the backend returns null instead of an instance list, the instance and
health queries give an empty list. Each payload is wrapped in a `ChangeItem`
that carries the clock reading.

The model has five modules, one file each:

- `Wrappers` (`wrappers.dfy`): `Option`, which stands for a Java value that may be null.
- `Decimal` (`decimal.dfy`): Java's `"" + int` rendering and a parser that inverts it.
- `Seqs` (`seqs.dfy`):
  - `Dedup` stands in for `new HashSet<>(list)`.
  - `MapSeq` stands in for the loops that add one output per element.
  - The remaining lemmas show that any enumeration order of the set gives the same multiset of outputs.
- `Records` (`records.dfy`):
  - the backend `Instance` and the two output shapes;
  - the per-instance mappings `ToRecord` and `ToHealth` (`mapToHealth`);
  - well-formedness predicates stating how each output's fields relate;
  - inverses showing what each mapping keeps and what it drops.
- `RegistrationService` (`registration_service.dfy`): the three catalogues, the
  envelope (`returnDeferred`) and the three query operations.

The backend is not called. What it returned is a parameter:

- the list of names, a `seq<string>`;
- for the instance queries, an `Option<seq<Instance>>`, where `None` is Java's null.

The clock reading is also a parameter, `now`.

## Model

| member | source | states |
|---|---|---|
| Decimal.IntToString | src/main/java/com/github/brent/nacos/adapter/service/RegistrationService.java:95 | the rendering of a port is the canonical Java decimal: digits with a leading minus sign exactly when the value is negative, no leading zero, and exactly "0" for 0 (so never "-0" or "00"), and never a colon |
| Decimal.IntRoundTrip | src/main/java/com/github/brent/nacos/adapter/service/RegistrationService.java:95 | parsing the rendered port gives back exactly the port, so the `management.port` value loses nothing |
| Decimal.IntToStringInjective | src/main/java/com/github/brent/nacos/adapter/service/RegistrationService.java:91-95 | two ports render to the same text exactly when they are equal |
| Records.EndpointIdRoundTrip | src/main/java/com/github/brent/nacos/adapter/service/RegistrationService.java:91 | the identifier `host + ":" + port` splits at its last colon back into that host and port, even when the host contains colons |
| Records.ToRecord | src/main/java/com/github/brent/nacos/adapter/service/RegistrationService.java:85-97 | every catalogue entry is well formed: Address = ServiceAddress = host, Node = ServiceName = serviceId, ServiceID = host ":" decimal(port), ServicePort = port, ServiceMeta is exactly {management.port: decimal(port)}, NodeMeta and ServiceTags are empty |
| Records.RecordDecodes | src/main/java/com/github/brent/nacos/adapter/service/RegistrationService.java:91-96 | an entry's ServiceID decodes to the instance's host and port, and its ServiceMeta has the single key `management.port`, whose value decodes to the port |
| Records.RecordForgetsOnlyMetadata | src/main/java/com/github/brent/nacos/adapter/service/RegistrationService.java:87-97 | two instances give the same entry if and only if they agree on host, port and serviceId: the instance metadata is not carried through and nothing else is lost |
| Records.WellFormedRecordIsImage | src/main/java/com/github/brent/nacos/adapter/service/RegistrationService.java:85-97 | an entry is well formed if and only if some instance maps to it |
| Records.ToHealth | src/main/java/com/github/brent/nacos/adapter/service/RegistrationService.java:131-157 | the health entry is well formed. Node.name, Service.id, Service.name and the check's node all equal serviceId. Node.address = Service.address = host, Node.meta = Service.meta = the instance metadata unchanged, tags are empty, and there is exactly one check. Reading host, port, serviceId and metadata back out of the entry gives the instance |
| Records.CheckNamesService | src/main/java/com/github/brent/nacos/adapter/service/RegistrationService.java:146-155 | there is exactly one check. Its status is "UP", its node is serviceId, and its checkID is the prefix `service:` followed by serviceId |
| Records.HealthRoundTrip | src/main/java/com/github/brent/nacos/adapter/service/RegistrationService.java:133-156 | every well-formed health entry is the image of the instance read out of it |
| Records.ToHealthInjective | src/main/java/com/github/brent/nacos/adapter/service/RegistrationService.java:133-145 | distinct instances give distinct health entries, and equal ones give equal entries |
| Seqs.Dedup | src/main/java/com/github/brent/nacos/adapter/service/RegistrationService.java:83 | the deduplicated sequence has no repeats and holds exactly the values of the input |
| Seqs.NoDupCardinality | src/main/java/com/github/brent/nacos/adapter/service/RegistrationService.java:83 | a duplicate-free enumeration is as long as the set it enumerates |
| Seqs.EnumerationIndependence | src/main/java/com/github/brent/nacos/adapter/service/RegistrationService.java:83-84 | any two duplicate-free enumerations of one set give the same multiset of images under the per-element mapping |
| RegistrationService.NameMap | src/main/java/com/github/brent/nacos/adapter/service/RegistrationService.java:67-70 | entering names one by one yields a map whose key set is exactly the set of names entered, each mapped to the empty tag array |
| RegistrationService.ServiceNameCatalogue | src/main/java/com/github/brent/nacos/adapter/service/RegistrationService.java:63-71 | a name is a key if and only if the backend listed it. Every value is the empty tag array, the map has as many keys as there are distinct names, and an empty backend list gives the empty map |
| RegistrationService.InstanceCatalogue | src/main/java/com/github/brent/nacos/adapter/service/RegistrationService.java:77-102 | null gives the empty list. Otherwise the length is the number of distinct instances, an entry occurs if and only if it is the entry of some returned instance, and every entry is well formed |
| RegistrationService.HealthView | src/main/java/com/github/brent/nacos/adapter/service/RegistrationService.java:108-126 | null gives the empty list. Otherwise the length is the number of distinct instances, an entry occurs if and only if it is the health entry of some returned instance, and every entry is well formed. No entry repeats |
| RegistrationService.ReturnDeferred | src/main/java/com/github/brent/nacos/adapter/service/RegistrationService.java:160-162 | the envelope carries the payload unchanged and the clock reading as its timestamp |
| RegistrationService.DeferredIgnoresPolling | src/main/java/com/github/brent/nacos/adapter/service/RegistrationService.java:160-162 | the envelope is the same whatever `waitMillis` and `index` are |
| RegistrationService.GetServiceNames | src/main/java/com/github/brent/nacos/adapter/service/RegistrationService.java:61-73 | the name query's payload has exactly the listed names as keys, all with empty tags, stamped with the clock reading |
| RegistrationService.GetService | src/main/java/com/github/brent/nacos/adapter/service/RegistrationService.java:75-104 | the instance query's payload is empty for null and otherwise has one entry per distinct instance, stamped with the clock reading |
| RegistrationService.GetHealth | src/main/java/com/github/brent/nacos/adapter/service/RegistrationService.java:106-129 | the health query's payload is empty for null and otherwise has one entry per distinct instance, each with the single "UP" check for its service, stamped with the clock reading |
| RegistrationService.InstanceCatalogueOrderFree | src/main/java/com/github/brent/nacos/adapter/service/RegistrationService.java:83-100 | whatever order the instance set is enumerated in, the catalogue holds the same entries with the same multiplicities |
| RegistrationService.HealthViewOrderFree | src/main/java/com/github/brent/nacos/adapter/service/RegistrationService.java:115-120 | whatever order the instance set is enumerated in, the health view holds the same entries with the same multiplicities |
| RegistrationService.CatalogueMayRepeatEntries | src/main/java/com/github/brent/nacos/adapter/service/RegistrationService.java:83-99 | two instances of one endpoint that differ only in metadata survive deduplication, yet give two identical catalogue entries |
| RegistrationService.DuplicateInstanceCollapses | src/main/java/com/github/brent/nacos/adapter/service/RegistrationService.java:83-99 | a twice-listed instance 10.0.0.1:8080 yields exactly one entry, with ServiceID "10.0.0.1:8080" and ServiceMeta {management.port: "8080"} |

## Left out

- The discovery client and its injection. `getServices()` and
  `getInstances(appName)` are replaced by their results, which are passed in.
  So `appName` is not a parameter of the instance and health queries. A
  backend failure, including a null names list, is not modelled. In Java it
  propagates as an exception.
- Instance equality. `ServiceInstance.equals` is not part of this model. The
  model assumes value equality on host, port, serviceId and metadata, so the
  `HashSet` collapses exactly the instances equal in all four fields. Other
  `ServiceInstance` fields, such as `uri` and `secure`, are not read by the
  adapter and are not modelled.
- Enumeration order. A `HashSet` enumerates in an unspecified order. `Dedup`
  fixes one order. The contracts speak only of membership, length and
  multisets, and the `OrderFree` lemmas show that any other order gives the
  same multiset.
- The `rx.Single` wrapper and `new Date().getTime()`. The envelope is a plain
  value, and the clock reading is the parameter `now`. The claim that
  timestamps never decrease across calls depends on the wall clock, so it is
  not stated.
- Logging. The `System.out.println` and `JSON.toJSONString` calls at lines 109
  and 123-124 do not affect results.
- JSON serialisation and the Lombok builders of `ServiceHealth` and
  `ChangeItem`. The records are plain datatypes. The comments on
  `InstanceRecord`'s fields give the JSON keys the code writes (lines 87-97).
  The JSON naming of the health entry and of the envelope is fixed by the
  `ServiceHealth` and `ChangeItem` classes, which are not part of this model.
- Java nulls other than a null instance list. The model takes every name,
  every instance and every instance field to be non-null, because `seq<string>`,
  `seq<Instance>` and `Instance`'s `string` fields cannot hold null. In Java:
  - a null element of the instance list survives `new HashSet<>(instances)`
    (line 83), and then `instance.getHost()` (line 87) or `mapToHealth`
    (line 134) throws a `NullPointerException`;
  - a null name from `getServices()` becomes a null key of the name map
    (lines 64-69);
  - a null host gives a `ServiceID` such as `"null:8080"` (line 91);
  - a null serviceId gives the checkID `"service:null"` (line 148).
- The ordering of fields inside a record's `HashMap` has no meaning and is not modelled.
- RegistrationService.GetService: the contract states only the null case, the
  length and the timestamp. The contents are stated by
  `RegistrationService.InstanceCatalogue`, which is the payload.
- RegistrationService.GetServiceNames: the contract states keys, values and
  the timestamp. The cardinality and empty-input facts sit on
  `RegistrationService.ServiceNameCatalogue`, which is the payload.
- RegistrationService.GetHealth: the contract states the null case, the
  length, the check and the timestamp. Membership and the absence of
  repeats sit on `RegistrationService.HealthView`, which is the payload.

## Notes on the code

- Only null is tested (lines 80 and 112). An empty instance list goes through
  the deduplication path and also gives an empty result.
- Deduplication uses the instance's own equality (line 83), so two instances
  that differ only in metadata both survive. The catalogue then holds two
  identical entries (`RegistrationService.CatalogueMayRepeatEntries`). The
  health view keeps them apart, because it carries the metadata.
