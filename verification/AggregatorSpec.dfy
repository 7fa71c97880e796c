/**
 What the aggregator's gauge vectors mean: order-free reference definitions over the two source-of-truth maps.
 A gauge vector is a map from label tuple to value.
 */
module AggregatorSpec {
  import opened Sums

  /** The identity provider types are an open set of strings; the aggregator knows nine of them. */
  datatype IdpType =
    | BasicAuth | GitHub | GitLab | Google | HTPasswd | Keystone | LDAP | OpenID | RequestHeader
    | OtherType(name: string)

  datatype IdentityProvider = IdentityProvider(name: string, idpType: IdpType)

  const KNOWN_IDP_TYPES: seq<IdpType> :=
    [BasicAuth, GitHub, GitLab, Google, HTPasswd, Keystone, LDAP, OpenID, RequestHeader]

  datatype ProviderKey = ProviderKey(name: string, namespace: string)

  type ProviderMap = map<ProviderKey, seq<IdpType>>

  // ---------------------------------------------------------------------------------------------
  // Identity provider counts
  // ---------------------------------------------------------------------------------------------

  /** Every place in the provider lists: an object and an index into its list. */
  ghost function Places(m: ProviderMap): set<(ProviderKey, int)> {
    set k, i | k in m && 0 <= i < |m[k]| :: (k, i)
  }

  ghost function PlacesOf(m: ProviderMap, t: IdpType): set<(ProviderKey, int)> {
    set k, i | k in m && 0 <= i < |m[k]| && m[k][i] == t :: (k, i)
  }

  ghost function UnknownPlaces(m: ProviderMap): set<(ProviderKey, int)> {
    set k, i | k in m && 0 <= i < |m[k]| && m[k][i] !in KNOWN_IDP_TYPES :: (k, i)
  }

  /** How often type t is configured, over all objects. */
  ghost function TypeCount(m: ProviderMap, t: IdpType): nat {
    |PlacesOf(m, t)|
  }

  /** The identity_provider vector the provider map calls for: one series per known type. */
  ghost function IdpGauges(m: ProviderMap): map<IdpType, int> {
    map t | t in KNOWN_IDP_TYPES :: TypeCount(m, t)
  }

  ghost function ListPlaces(k: ProviderKey, v: seq<IdpType>, t: IdpType): set<(ProviderKey, int)> {
    set i | 0 <= i < |v| && v[i] == t :: (k, i)
  }

  lemma {:induction false} ListPlacesCount(k: ProviderKey, v: seq<IdpType>, t: IdpType)
    ensures |ListPlaces(k, v, t)| == multiset(v)[t]
  {
    if v != [] {
      var n := |v| - 1;
      ListPlacesCount(k, v[..n], t);
      assert v == v[..n] + [v[n]];
      ListPlacesAppend(k, v[..n], v[n], t);
    }
  }

  lemma ListPlacesAppend(k: ProviderKey, v: seq<IdpType>, p: IdpType, t: IdpType)
    ensures |ListPlaces(k, v + [p], t)| == |ListPlaces(k, v, t)| + if p == t then 1 else 0
  {
    var shorter := ListPlaces(k, v, t);
    if p == t {
      assert ListPlaces(k, v + [p], t) == shorter + {(k, |v|)};
    } else {
      assert ListPlaces(k, v + [p], t) == shorter;
    }
  }

  lemma PlacesSplit(m: ProviderMap, k: ProviderKey, t: IdpType)
    requires k in m
    ensures PlacesOf(m, t) == PlacesOf(m - {k}, t) + ListPlaces(k, m[k], t)
    ensures PlacesOf(m - {k}, t) !! ListPlaces(k, m[k], t)
  {
    var rest, own := PlacesOf(m - {k}, t), ListPlaces(k, m[k], t);
    forall x | x in PlacesOf(m, t) ensures x in rest + own {
      if x.0 == k { assert x in own; } else { assert x in rest; }
    }
    forall x | x in rest + own ensures x in PlacesOf(m, t) {}
  }

  /** Taking any one object out of the map takes exactly its own occurrences out of the count; nothing counts nothing. */
  lemma TypeCountRemove(m: ProviderMap, k: ProviderKey, t: IdpType)
    requires k in m
    ensures TypeCount(m, t) == TypeCount(m - {k}, t) + multiset(m[k])[t]
    ensures TypeCount(map[], t) == 0
  {
    ListPlacesCount(k, m[k], t);
    PlacesSplit(m, k, t);
    assert PlacesOf(map[], t) == {};
  }

  lemma CountApart(a: ProviderMap, b: ProviderMap, t: IdpType)
    requires a.Keys !! b.Keys
    ensures TypeCount(a + b, t) == TypeCount(a, t) + TypeCount(b, t)
  {
    var m, n := PlacesOf(a, t), PlacesOf(b, t);
    forall x: (ProviderKey, int)
      ensures x in PlacesOf(a + b, t) <==> x in m || x in n
      ensures !(x in m && x in n)
    {
      assert x.0 in a + b <==> x.0 in a || x.0 in b;
    }
    assert PlacesOf(a + b, t) == m + n;
  }

  /** The lengths of the provider lists. */
  ghost function ListLengths(m: ProviderMap): map<ProviderKey, nat> {
    map k | k in m :: |m[k]|
  }

  lemma PlacesRemove(m: ProviderMap, k: ProviderKey)
    requires k in m
    ensures |Places(m)| == |Places(m - {k})| + |m[k]|
  {
    var own := set i | 0 <= i < |m[k]| :: (k, i);
    IndexSetSize(k, |m[k]|);
    assert Places(m) == Places(m - {k}) + own;
    assert Places(m - {k}) !! own;
  }

  lemma {:induction false} AllPlacesCount(m: ProviderMap)
    ensures |Places(m)| == SumValues(ListLengths(m))
    decreases |m|
  {
    if m == map[] {
      assert Places(m) == {};
    } else {
      var k :| k in m;
      RemoveShrinks(m, k);
      AllPlacesCount(m - {k});
      SumRemove(ListLengths(m), k);
      assert ListLengths(m) - {k} == ListLengths(m - {k});
      PlacesRemove(m, k);
    }
  }

  lemma {:induction false} IndexSetSize(k: ProviderKey, n: nat)
    ensures |set i | 0 <= i < n :: (k, i)| == n
  {
    var s := set i | 0 <= i < n :: (k, i);
    if n > 0 {
      IndexSetSize(k, n - 1);
      assert s == (set i | 0 <= i < n - 1 :: (k, i)) + {(k, n - 1)};
    } else {
      assert s == {};
    }
  }

  /** The sum of the series of g for the types in ts. */
  ghost function SumSeries(ts: seq<IdpType>, g: map<IdpType, int>): int
    requires forall t :: t in ts ==> t in g
  {
    if ts == [] then 0 else g[ts[0]] + SumSeries(ts[1..], g)
  }

  ghost predicate Distinct<T>(s: seq<T>) {
    forall i, j :: 0 <= i < j < |s| ==> s[i] != s[j]
  }

  /** The places that hold one of the types in ts. */
  ghost function PlacesIn(m: ProviderMap, ts: seq<IdpType>): set<(ProviderKey, int)> {
    set k, i | k in m && 0 <= i < |m[k]| && m[k][i] in ts :: (k, i)
  }

  lemma {:induction false} SumSeriesIsUnion(m: ProviderMap, ts: seq<IdpType>)
    requires Distinct(ts) && forall t :: t in ts ==> t in KNOWN_IDP_TYPES
    ensures SumSeries(ts, IdpGauges(m)) == |PlacesIn(m, ts)|
  {
    if ts == [] {
      assert PlacesIn(m, ts) == {};
    } else {
      var first, rest := PlacesOf(m, ts[0]), PlacesIn(m, ts[1..]);
      SumSeriesIsUnion(m, ts[1..]);
      forall x | x in PlacesIn(m, ts) ensures x in first + rest {
        if m[x.0][x.1] == ts[0] { assert x in first; } else { assert x in rest; }
      }
      assert PlacesIn(m, ts) == first + rest;
      assert first !! rest;
    }
  }

  lemma PlacesPartition(m: ProviderMap)
    ensures |Places(m)| == |PlacesIn(m, KNOWN_IDP_TYPES)| + |UnknownPlaces(m)|
  {
    var known, unknown := PlacesIn(m, KNOWN_IDP_TYPES), UnknownPlaces(m);
    forall x | x in Places(m) ensures x in known + unknown {
      if m[x.0][x.1] in KNOWN_IDP_TYPES { assert x in known; } else { assert x in unknown; }
    }
    assert Places(m) == known + unknown;
    assert known !! unknown;
  }

  lemma KnownSum(m: ProviderMap)
    ensures SumSeries(KNOWN_IDP_TYPES, IdpGauges(m)) == |PlacesIn(m, KNOWN_IDP_TYPES)|
  {
    var known := KNOWN_IDP_TYPES;
    KnownDistinct();
    SumSeriesIsUnion(m, known);
  }

  lemma KnownDistinct()
    ensures Distinct(KNOWN_IDP_TYPES)
  {
  }

  /** The aggregator knows all nine types of the API, each once, and no other. */
  lemma KnownTypes(t: IdpType)
    ensures t in KNOWN_IDP_TYPES <==> !t.OtherType?
    ensures |KNOWN_IDP_TYPES| == 9 && Distinct(KNOWN_IDP_TYPES)
  {
    var k := KNOWN_IDP_TYPES;
    assert k[0] == BasicAuth && k[1] == GitHub && k[2] == GitLab && k[3] == Google && k[4] == HTPasswd;
    assert k[5] == Keystone && k[6] == LDAP && k[7] == OpenID && k[8] == RequestHeader;
    KnownDistinct();
  }

  /** One series for each type the API defines, and its value is the count of that type. */
  lemma GaugesContent(m: ProviderMap)
    ensures forall t :: t in IdpGauges(m) <==> !t.OtherType?
    ensures forall t :: t in IdpGauges(m) ==> IdpGauges(m)[t] == TypeCount(m, t)
  {
    forall t ensures t in IdpGauges(m) <==> !t.OtherType? {
      KnownTypes(t);
    }
  }

  /** Conservation: the nine gauges add up to all list entries, less those of a type the aggregator does not know. */
  lemma GaugesConserveEntries(m: ProviderMap)
    ensures SumSeries(KNOWN_IDP_TYPES, IdpGauges(m)) ==
            SumValues(ListLengths(m)) - |UnknownPlaces(m)|
  {
    KnownSum(m);
    AllPlacesCount(m);
    PlacesPartition(m);
  }

  // ---------------------------------------------------------------------------------------------
  // Pods that prevent a node drain
  // ---------------------------------------------------------------------------------------------

  datatype DrainingMachine = DrainingMachine(nodeName: string, podNamespaces: map<string, string>)

  datatype PodSeries = PodSeries(podName: string, podNamespace: string, instance: string, node: string, machine: string)

  type DrainMap = map<string, DrainingMachine>

  function SeriesOf(machine: string, nodeName: string, pod: string, namespace: string): PodSeries {
    PodSeries(pod, namespace, nodeName, nodeName, machine)
  }

  /** The label tuples that the draining machines call for. */
  ghost function DrainLabels(d: DrainMap): set<PodSeries> {
    set m, p | m in d && p in d[m].podNamespaces :: SeriesOf(m, d[m].nodeName, p, d[m].podNamespaces[p])
  }

  /** The pods_preventing_node_drain vector: value 1 for each of them. */
  ghost function DrainSeries(d: DrainMap): map<PodSeries, int> {
    map s | s in DrainLabels(d) :: 1
  }

  /**
   A series is exported, with value 1, exactly when its machine is draining and holds that pod, in that namespace, on
   that node.
   */
  lemma DrainSeriesContent(d: DrainMap, s: PodSeries)
    ensures s in DrainSeries(d) <==>
            && s.machine in d
            && s.podName in d[s.machine].podNamespaces
            && s.podNamespace == d[s.machine].podNamespaces[s.podName]
            && s.instance == s.node == d[s.machine].nodeName
    ensures s in DrainSeries(d) ==> DrainSeries(d)[s] == 1
  {
    var m, p := s.machine, s.podName;
    if m in d && p in d[m].podNamespaces && s == SeriesOf(m, d[m].nodeName, p, d[m].podNamespaces[p]) {
      assert s in DrainLabels(d);
    }
  }

  /** The series labelled with machine m. */
  ghost function SeriesFor(g: map<PodSeries, int>, m: string): map<PodSeries, int> {
    map s | s in g && s.machine == m :: g[s]
  }

  ghost function SeriesNotFor(g: map<PodSeries, int>, m: string): map<PodSeries, int> {
    map s | s in g && s.machine != m :: g[s]
  }

  lemma LabelsAfterSet(d: DrainMap, m: string, info: DrainingMachine, s: PodSeries)
    ensures s in DrainSeries(map[m := info]) ==> s.machine == m
    ensures s in DrainSeries(d[m := info]) <==>
            s in DrainSeries(if s.machine == m then map[m := info] else d)
  {
    DrainSeriesContent(d[m := info], s);
    DrainSeriesContent(d, s);
    DrainSeriesContent(map[m := info], s);
  }

  /** Clearing the whole vector and rebuilding it after one machine was replaced is a pointwise update of that machine. */
  lemma RebuildAfterSet(d: DrainMap, m: string, info: DrainingMachine)
    ensures SeriesNotFor(DrainSeries(d[m := info]), m) == SeriesNotFor(DrainSeries(d), m)
    ensures SeriesFor(DrainSeries(d[m := info]), m) == DrainSeries(map[m := info])
  {
    forall s: PodSeries { LabelsAfterSet(d, m, info, s); }
  }

  /** ... and after one machine was removed, all that is gone is what was labelled with that machine. */
  lemma RebuildAfterRemove(d: DrainMap, m: string)
    ensures DrainSeries(d - {m}) == SeriesNotFor(DrainSeries(d), m)
  {
    var before, after := DrainSeries(d), DrainSeries(d - {m});
    forall s: PodSeries
      ensures s in after <==> s.machine != m && s in before
    {
      DrainSeriesContent(d - {m}, s);
      DrainSeriesContent(d, s);
    }
  }

  ghost function OneMachine(m: string, node: string, pods: map<string, string>): DrainMap {
    map[m := DrainingMachine(node, pods)]
  }

  lemma OneMachineStep(m: string, node: string, pods: map<string, string>, p: string)
    requires p in pods
    ensures DrainLabels(OneMachine(m, node, pods)) ==
            DrainLabels(OneMachine(m, node, pods - {p})) + {SeriesOf(m, node, p, pods[p])}
    ensures SeriesOf(m, node, p, pods[p]) !in DrainLabels(OneMachine(m, node, pods - {p}))
  {
    var all, rest := OneMachine(m, node, pods), OneMachine(m, node, pods - {p});
    forall s: PodSeries
      ensures s in DrainLabels(all) <==> s in DrainLabels(rest) || s == SeriesOf(m, node, p, pods[p])
      ensures s == SeriesOf(m, node, p, pods[p]) ==> s !in DrainLabels(rest)
    {
      DrainSeriesContent(all, s);
      DrainSeriesContent(rest, s);
    }
  }

  lemma {:induction false} OneMachineSize(m: string, node: string, pods: map<string, string>)
    ensures |DrainLabels(OneMachine(m, node, pods))| == |pods|
    decreases |pods|
  {
    if pods == map[] {
      assert DrainLabels(OneMachine(m, node, pods)) == {};
    } else {
      var p :| p in pods;
      RemoveShrinks(pods, p);
      OneMachineSize(m, node, pods - {p});
      OneMachineStep(m, node, pods, p);
      assert (pods - {p}).Keys + {p} == pods.Keys;
      assert |pods| == |pods.Keys| && |pods - {p}| == |(pods - {p}).Keys|;
    }
  }

  lemma DrainLabelsSplit(d: DrainMap, m: string)
    requires m in d
    ensures DrainLabels(d) == DrainLabels(d - {m}) + DrainLabels(map[m := d[m]])
    ensures DrainLabels(d - {m}) !! DrainLabels(map[m := d[m]])
  {
    forall s: PodSeries
      ensures s in DrainLabels(d) <==> s in DrainLabels(d - {m}) || s in DrainLabels(map[m := d[m]])
      ensures !(s in DrainLabels(d - {m}) && s in DrainLabels(map[m := d[m]]))
    {
      DrainSeriesContent(d, s);
      DrainSeriesContent(d - {m}, s);
      DrainSeriesContent(map[m := d[m]], s);
    }
  }

  ghost function PodCounts(d: DrainMap): map<string, nat> {
    map m | m in d :: |d[m].podNamespaces|
  }

  lemma DrainLabelsRemove(d: DrainMap, m: string)
    requires m in d
    ensures |DrainLabels(d)| == |DrainLabels(d - {m})| + |d[m].podNamespaces|
  {
    OneMachineSize(m, d[m].nodeName, d[m].podNamespaces);
    assert d[m] == DrainingMachine(d[m].nodeName, d[m].podNamespaces);
    DrainLabelsSplit(d, m);
  }

  lemma {:induction false} DrainLabelsSize(d: DrainMap)
    ensures |DrainLabels(d)| == SumValues(PodCounts(d))
    decreases |d|
  {
    if d == map[] {
      assert DrainLabels(d) == {};
    } else {
      var m :| m in d;
      RemoveShrinks(d, m);
      DrainLabelsSize(d - {m});
      SumRemove(PodCounts(d), m);
      assert PodCounts(d) - {m} == PodCounts(d - {m});
      DrainLabelsRemove(d, m);
    }
  }

  /** No two (machine, pod) pairs share a series: the vector is as large as the pod maps together. */
  lemma DrainSeriesSize(d: DrainMap)
    ensures |DrainSeries(d)| == SumValues(PodCounts(d))
  {
    DrainLabelsSize(d);
    assert DrainSeries(d).Keys == DrainLabels(d);
    assert |DrainSeries(d)| == |DrainSeries(d).Keys|;
  }
}
