/**
 The adapter itself: three queries that take what the discovery backend
 returned, collapse duplicates the way a `HashSet` does, reshape every
 distinct entry into the Consul view, and wrap the payload in a timestamped
 change envelope. The backend's answers and the clock reading are parameters.
 */
module RegistrationService {
  import opened Wrappers
  import opened Seqs
  import opened Records
  import Decimal

  /** A payload paired with the time (milliseconds since the epoch) it was built. */
  datatype ChangeItem<T> = ChangeItem(item: T, lastModified: int)

  /** The tag list every catalogued service name is given. */
  const NoServiceTags: seq<string> := []

  /** Enters each name, in order, into the map with no tags. */
  function NameMap(names: seq<string>): (m: map<string, seq<string>>)
    ensures m.Keys == Elements(names)
    ensures forall n :: n in m ==> m[n] == NoServiceTags
    decreases |names|
  {
    if names == [] then map[]
    else
      var front := names[..|names| - 1];
      assert names == front + [names[|names| - 1]];
      NameMap(front)[names[|names| - 1] := NoServiceTags]
  }

  /** The name catalogue: every distinct registered name, each with an empty tag list. */
  function ServiceNameCatalogue(services: seq<string>): (m: map<string, seq<string>>)
    ensures forall n :: n in m <==> n in services
    ensures forall n :: n in m ==> m[n] == NoServiceTags
    ensures |m| == |Elements(services)|
    ensures services == [] ==> m == map[]
  {
    var m := NameMap(Dedup(services));
    assert m.Keys == Elements(services);
    m
  }

  /** The instance catalogue: no instances gives an empty list, otherwise one entry per distinct instance. */
  function InstanceCatalogue(instances: Option<seq<Instance>>): (r: seq<InstanceRecord>)
    ensures instances.None? ==> r == []
    ensures instances.Some? ==> |r| == |Elements(instances.value)|
    ensures instances.Some? ==>
              forall e :: e in r <==> exists i :: i in instances.value && ToRecord(i) == e
    ensures forall k :: 0 <= k < |r| ==> WellFormedRecord(r[k])
  {
    match instances
    case None => []
    case Some(xs) =>
      var distinct := Dedup(xs);
      NoDupCardinality(distinct);
      var r := MapSeq(ToRecord, distinct);
      assert forall i :: i in xs <==> i in distinct by {
        assert forall i :: i in xs <==> i in Elements(xs);
        assert forall i :: i in distinct <==> i in Elements(distinct);
      }
      r
  }

  /** The health view: no instances gives an empty list, otherwise one entry per distinct instance. */
  function HealthView(instances: Option<seq<Instance>>): (r: seq<ServiceHealth>)
    ensures instances.None? ==> r == []
    ensures instances.Some? ==> |r| == |Elements(instances.value)|
    ensures instances.Some? ==>
              forall h :: h in r <==> exists i :: i in instances.value && ToHealth(i) == h
    ensures forall k :: 0 <= k < |r| ==> WellFormedHealth(r[k])
    ensures NoDup(r)
  {
    match instances
    case None => []
    case Some(xs) =>
      var distinct := Dedup(xs);
      NoDupCardinality(distinct);
      var r := MapSeq(ToHealth, distinct);
      assert forall i :: i in xs <==> i in distinct by {
        assert forall i :: i in xs <==> i in Elements(xs);
        assert forall i :: i in distinct <==> i in Elements(distinct);
      }
      assert NoDup(r) by {
        forall j, k | 0 <= j < k < |r| ensures r[j] != r[k] {
          assert FromHealth(r[j]) == distinct[j] && FromHealth(r[k]) == distinct[k];
        }
      }
      r
  }

  /** Wraps a payload with the clock reading; the long-poll parameters are accepted and ignored. */
  function ReturnDeferred<T>(waitMillis: int, index: Option<int>, payload: T, now: int): (c: ChangeItem<T>)
    ensures c.item == payload && c.lastModified == now
  {
    ChangeItem(payload, now)
  }

  /** The envelope depends on neither `waitMillis` nor `index`. */
  lemma DeferredIgnoresPolling<T>(w1: int, i1: Option<int>, w2: int, i2: Option<int>, payload: T, now: int)
    ensures ReturnDeferred(w1, i1, payload, now) == ReturnDeferred(w2, i2, payload, now)
  {
  }

  /** Query for all service names (`getServiceNames`), given the names the backend lists. */
  function GetServiceNames(waitMillis: int, index: Option<int>, services: seq<string>, now: int)
    : (c: ChangeItem<map<string, seq<string>>>)
    ensures c.lastModified == now
    ensures c.item.Keys == Elements(services)
    ensures forall n :: n in c.item ==> c.item[n] == NoServiceTags
  {
    ReturnDeferred(waitMillis, index, ServiceNameCatalogue(services), now)
  }

  /**
   Query for one service's catalogue: the overload `getService(appName, waitMillis, index)`,
   given the backend's answer for that service (`None` for null).
   */
  function GetService(waitMillis: int, index: Option<int>, instances: Option<seq<Instance>>, now: int)
    : (c: ChangeItem<seq<InstanceRecord>>)
    ensures c.lastModified == now
    ensures instances.None? ==> c.item == []
    ensures instances.Some? ==> |c.item| == |Elements(instances.value)|
  {
    ReturnDeferred(waitMillis, index, InstanceCatalogue(instances), now)
  }

  /**
   Query for one service's health: the one-argument overload `getService(appName)`,
   given the backend's answer for that service (`None` for null).
   */
  function GetHealth(instances: Option<seq<Instance>>, now: int): (c: ChangeItem<seq<ServiceHealth>>)
    ensures c.lastModified == now
    ensures instances.None? ==> c.item == []
    ensures instances.Some? ==> |c.item| == |Elements(instances.value)|
    ensures forall k :: 0 <= k < |c.item| ==> c.item[k].checks == [PassingCheck(c.item[k].node.name)]
  {
    ReturnDeferred(0, None, HealthView(instances), now)
  }

  /**
   The catalogue does not depend on the order in which the set of instances is
   enumerated: any duplicate-free enumeration of the same instances yields the
   same entries with the same multiplicities.
   */
  lemma {:induction false} InstanceCatalogueOrderFree(xs: seq<Instance>, order: seq<Instance>)
    requires NoDup(order) && Elements(order) == Elements(xs)
    ensures multiset(MapSeq(ToRecord, order)) == multiset(InstanceCatalogue(Some(xs)))
  {
    EnumerationIndependence(ToRecord, order, Dedup(xs));
  }

  /** The health view does not depend on the enumeration order either. */
  lemma {:induction false} HealthViewOrderFree(xs: seq<Instance>, order: seq<Instance>)
    requires NoDup(order) && Elements(order) == Elements(xs)
    ensures multiset(MapSeq(ToHealth, order)) == multiset(HealthView(Some(xs)))
  {
    EnumerationIndependence(ToHealth, order, Dedup(xs));
  }

  /**
   Because metadata is dropped, two distinct instances of one endpoint that
   differ only in metadata give two identical catalogue entries.
   */
  lemma CatalogueMayRepeatEntries(host: string, port: JavaInt, serviceId: string,
                                  m1: map<string, string>, m2: map<string, string>)
    requires m1 != m2
    ensures var r := InstanceCatalogue(Some([Instance(host, port, serviceId, m1),
                                             Instance(host, port, serviceId, m2)]));
            |r| == 2 && r[0] == r[1]
  {
    var a, b := Instance(host, port, serviceId, m1), Instance(host, port, serviceId, m2);
    assert Elements([a, b]) == {a, b};
    var r := InstanceCatalogue(Some([a, b]));
    assert forall e :: e in r ==> e == ToRecord(a);
    assert r[0] in r && r[1] in r;
  }

  /** A duplicated instance collapses to one entry, identified by host and port. */
  lemma DuplicateInstanceCollapses()
    ensures var a := Instance("10.0.0.1", 8080, "orders", map[]);
            var r := InstanceCatalogue(Some([a, a]));
            |r| == 1 && r[0].serviceID == "10.0.0.1:8080" &&
            r[0].serviceMeta == map[ManagementPortKey := "8080"]
  {
    var a := Instance("10.0.0.1", 8080, "orders", map[]);
    assert Elements([a, a]) == {a};
    assert Decimal.IntToString(8080) == "8080";
  }
}
