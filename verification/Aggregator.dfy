/**
 The shared metrics aggregator: two source-of-truth maps and the gauge vectors derived from them.
 Go's unspecified map iteration order is a nondeterministic choice of the next key.
 */
module Aggregator {
  import opened AggregatorSpec

  class AdoptionMetricsAggregator {
    var identityProviders: map<IdpType, int>
    var clusterAdmin: map<string, int>
    var clusterProxyCAExpiry: map<(string, string), int>
    var clusterProxyCAValid: map<string, int>
    var podsPreventingNodeDrain: map<PodSeries, int>
    var providerMap: ProviderMap
    var drainingMachines: DrainMap

    /** The drain vector is always the exact image of drainingMachines; only known types ever get a series. */
    ghost predicate Valid()
      reads this
    {
      && podsPreventingNodeDrain == DrainSeries(drainingMachines)
      && forall t :: t in identityProviders ==> t in KNOWN_IDP_TYPES
    }

    constructor (clusterId: string)
      ensures Valid()
      ensures providerMap == map[] && drainingMachines == map[] && identityProviders == map[]
      ensures clusterAdmin == map[clusterId := 0]
      ensures clusterProxyCAExpiry == map[] && clusterProxyCAValid == map[]
    {
      identityProviders, clusterAdmin := map[], map[];
      clusterProxyCAExpiry, clusterProxyCAValid := map[], map[];
      podsPreventingNodeDrain, providerMap, drainingMachines := map[], map[], map[];
      new;
      assert DrainLabels(map[]) == {};
      SetClusterAdmin(clusterId, false);
    }

    /** Runs with the mutex held from start to end (see AggregatorMutex). */
    method SetOAuthIDP(name: string, namespace: string, provider: seq<IdentityProvider>)
      requires Valid()
      modifies this`providerMap
      ensures Valid()
      ensures providerMap == old(providerMap)[ProviderKey(name, namespace) := TypesOf(provider)]
      ensures var types := providerMap[ProviderKey(name, namespace)];
              |types| == |provider| && forall j :: 0 <= j < |types| ==> types[j] == provider[j].idpType
    {
      var providerTypes := new IdpType[|provider|](_ => BasicAuth);
      for i := 0 to |provider|
        invariant providerMap == old(providerMap)
        invariant forall j :: 0 <= j < i ==> providerTypes[j] == provider[j].idpType
      {
        providerTypes[i] := provider[i].idpType;
      }
      assert providerTypes[..] == TypesOf(provider);
      providerMap := providerMap[ProviderKey(name, namespace) := providerTypes[..]];
    }

    method DeleteOAuthIDP(name: string, namespace: string)
      requires Valid()
      modifies this`providerMap
      ensures Valid()
      ensures providerMap == old(providerMap) - {ProviderKey(name, namespace)}
    {
      providerMap := providerMap - {ProviderKey(name, namespace)};
    }

    /** Whatever order the map is walked in, the local count map tallies every list entry once. */
    method CountProviders() returns (providers: map<IdpType, nat>)
      ensures forall t :: Tally(providers, t) == TypeCount(providerMap, t)
    {
      providers := map[];
      var todo := providerMap;
      assert forall t :: PlacesOf(map[], t) == {};
      while todo != map[]
        invariant forall k :: k in todo ==> k in providerMap && todo[k] == providerMap[k]
        invariant forall t :: Tally(providers, t) + TypeCount(todo, t) == TypeCount(providerMap, t)
        decreases |todo|
      {
        var k :| k in todo;
        ghost var before := providers;
        var v := todo[k];
        for i := 0 to |v|
          invariant forall t :: Tally(providers, t) == Tally(before, t) + multiset(v[..i])[t]
        {
          var p := v[i];
          assert v[..i + 1] == v[..i] + [p];
          if p !in providers {
            providers := providers[p := 0];
          }
          providers := providers[p := providers[p] + 1];
        }
        assert v[..|v|] == v;
        forall t { TypeCountRemove(todo, k, t); }
        Sums.RemoveShrinks(todo, k);
        todo := todo - {k};
      }
      assert forall t :: PlacesOf(map[], t) == {};
    }

    /** The first half of aggregate() is CountProviders; then each known type's gauge becomes its number of occurrences. */
    method Aggregate()
      requires Valid()
      modifies this`identityProviders
      ensures Valid()
      ensures identityProviders == IdpGauges(providerMap)
      ensures forall t :: t in identityProviders <==> !t.OtherType?
      ensures forall t :: t in identityProviders ==> identityProviders[t] == TypeCount(providerMap, t)
    {
      var providers := CountProviders();
      for i := 0 to |KNOWN_IDP_TYPES|
        invariant forall t :: t in identityProviders ==> t in KNOWN_IDP_TYPES
        invariant forall j :: 0 <= j < i ==> KNOWN_IDP_TYPES[j] in identityProviders &&
                                             identityProviders[KNOWN_IDP_TYPES[j]] == Tally(providers, KNOWN_IDP_TYPES[j])
      {
        var t := KNOWN_IDP_TYPES[i];
        if t in providers {
          identityProviders := identityProviders[t := providers[t]];
        } else {
          identityProviders := identityProviders[t := 0];
        }
      }
      assert identityProviders == IdpGauges(providerMap);
      GaugesContent(providerMap);
    }

    method SetClusterAdmin(uuid: string, enabled: bool)
      modifies this`clusterAdmin
      ensures clusterAdmin == old(clusterAdmin)[uuid := if enabled then 1 else 0]
    {
      if enabled {
        clusterAdmin := clusterAdmin[uuid := 1];
      } else {
        clusterAdmin := clusterAdmin[uuid := 0];
      }
    }

    method ResetClusterProxyCAExpiry()
      modifies this`clusterProxyCAExpiry
      ensures clusterProxyCAExpiry == map[]
    {
      clusterProxyCAExpiry := map[];
    }

    method SetClusterProxyCAExpiry(uuid: string, subject: string, expiry: int)
      modifies this`clusterProxyCAExpiry
      ensures clusterProxyCAExpiry == old(clusterProxyCAExpiry)[(uuid, subject) := expiry]
    {
      clusterProxyCAExpiry := clusterProxyCAExpiry[(uuid, subject) := expiry];
    }

    method ResetClusterProxyCAValid()
      modifies this`clusterProxyCAValid
      ensures clusterProxyCAValid == map[]
    {
      clusterProxyCAValid := map[];
    }

    method SetClusterProxyCAValid(uuid: string, valid: bool)
      modifies this`clusterProxyCAValid
      ensures clusterProxyCAValid == old(clusterProxyCAValid)[uuid := if valid then 1 else 0]
    {
      if valid {
        clusterProxyCAValid := clusterProxyCAValid[uuid := 1];
      } else {
        clusterProxyCAValid := clusterProxyCAValid[uuid := 0];
      }
    }

    /** Takes no lock: the machine controller runs a single worker. */
    method SetFailingDrainPodsForMachine(machineName: string, podNamespaceMap: map<string, string>, nodeName: string)
      requires Valid()
      modifies this`drainingMachines, this`podsPreventingNodeDrain
      ensures Valid()
      ensures drainingMachines == old(drainingMachines)[machineName := DrainingMachine(nodeName, podNamespaceMap)]
      ensures SeriesNotFor(podsPreventingNodeDrain, machineName) == SeriesNotFor(old(podsPreventingNodeDrain), machineName)
      ensures SeriesFor(podsPreventingNodeDrain, machineName) ==
              DrainSeries(map[machineName := DrainingMachine(nodeName, podNamespaceMap)])
    {
      RebuildAfterSet(drainingMachines, machineName, DrainingMachine(nodeName, podNamespaceMap));
      drainingMachines := drainingMachines[machineName := DrainingMachine(nodeName, podNamespaceMap)];
      ResetMachineMetrics();
    }

    method RemoveMachineMetrics(machineName: string)
      requires Valid()
      modifies this`drainingMachines, this`podsPreventingNodeDrain
      ensures Valid()
      ensures drainingMachines == old(drainingMachines) - {machineName}
      ensures podsPreventingNodeDrain == SeriesNotFor(old(podsPreventingNodeDrain), machineName)
    {
      RebuildAfterRemove(drainingMachines, machineName);
      drainingMachines := drainingMachines - {machineName};
      ResetMachineMetrics();
    }

    /** Whatever was in the vector, and in whatever order the machines and pods are walked, it becomes their image. */
    method ResetMachineMetrics()
      modifies this`podsPreventingNodeDrain
      ensures podsPreventingNodeDrain == DrainSeries(drainingMachines)
      ensures forall s :: s in podsPreventingNodeDrain <==>
                            && s.machine in drainingMachines
                            && s.podName in drainingMachines[s.machine].podNamespaces
                            && s.podNamespace == drainingMachines[s.machine].podNamespaces[s.podName]
                            && s.instance == s.node == drainingMachines[s.machine].nodeName
      ensures forall s :: s in podsPreventingNodeDrain ==> podsPreventingNodeDrain[s] == 1
    {
      podsPreventingNodeDrain := map[];
      var todo := drainingMachines;
      ghost var goal := DrainLabels(drainingMachines);
      while todo != map[]
        invariant forall m :: m in todo ==> m in drainingMachines && todo[m] == drainingMachines[m]
        invariant forall s :: s in goal <==> s in podsPreventingNodeDrain || s in DrainLabels(todo)
        invariant forall s :: s in podsPreventingNodeDrain ==> podsPreventingNodeDrain[s] == 1
        decreases |todo|
      {
        var machine :| machine in todo;
        var info := todo[machine];
        var pods := info.podNamespaces;
        DrainLabelsSplit(todo, machine);
        ghost var rest := DrainLabels(todo - {machine});
        assert info == DrainingMachine(info.nodeName, pods);
        while pods != map[]
          invariant forall s :: s in goal <==>
            s in podsPreventingNodeDrain || s in rest || s in DrainLabels(OneMachine(machine, info.nodeName, pods))
          invariant forall s :: s in podsPreventingNodeDrain ==> podsPreventingNodeDrain[s] == 1
          decreases |pods|
        {
          var podName :| podName in pods;
          OneMachineStep(machine, info.nodeName, pods, podName);
          podsPreventingNodeDrain :=
            podsPreventingNodeDrain[SeriesOf(machine, info.nodeName, podName, pods[podName]) := 1];
          Sums.RemoveShrinks(pods, podName);
          pods := pods - {podName};
        }
        assert DrainLabels(OneMachine(machine, info.nodeName, map[])) == {};
        Sums.RemoveShrinks(todo, machine);
        todo := todo - {machine};
      }
      assert DrainLabels(map[]) == {};
      forall s { DrainSeriesContent(drainingMachines, s); }
    }
  }

  function TypesOf(provider: seq<IdentityProvider>): seq<IdpType> {
    seq(|provider|, i requires 0 <= i < |provider| => provider[i].idpType)
  }

  ghost function Tally(providers: map<IdpType, nat>, t: IdpType): nat {
    if t in providers then providers[t] else 0
  }
}
