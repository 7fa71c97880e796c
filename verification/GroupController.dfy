/**
 The cluster-admins group reconciler: the same finalizer protocol, but on deletion the gauge is zeroed before the
 finalizer is stripped. That order makes its safety hold at every step, even when updates are misreported.
 */
module GroupController {
  import opened Folds
  import opened ApiServer
  import opened Aggregator

  const FINALIZER := "osd-metrics-exporter/finalizer"

  /** The event filter lets no other group through; groups have no namespace. */
  const GROUP := Key("cluster-admins", "")

  type Group = Object<seq<string>>

  type GroupStore = Store<seq<string>>

  /** Inside a reconcile: the group was read; its gauge is zeroed and the strip is next; or the metric is next. */
  datatype Phase = Idle | Got(group: Group) | Zeroed(group: Group) | Metric(group: Group)

  datatype State = State(store: GroupStore, phase: Phase, gauge: int)

  datatype Step =
    | Others(env: seq<EnvStep<seq<string>>>)
    | Get
    | Zero
    | Settle(fate: Fate)
    | SetMetric

  /** The aggregator is created with the gauge at 0. */
  const INIT := State(Store(map[], map[], 0), Idle, 0)

  /** The reconcile has come to its update: at once for a live group, after zeroing the gauge for a marked one. */
  predicate AtUpdate(s: State) {
    (s.phase.Got? && !s.phase.group.deleting) || (s.phase.Zeroed? && s.phase.group.deleting)
  }

  function ApplySettle(s: State, fate: Fate): State
    requires AtUpdate(s)
  {
    var o := s.phase.group;
    s.(store := SettledStore(s.store, FINALIZER, GROUP, o, fate),
       phase := if o.deleting || SettleErrs(s.store, FINALIZER, GROUP, o, fate) then Idle else Metric(o))
  }

  /** A step that is not enabled changes nothing. */
  function Apply(s: State, step: Step): State {
    match step
    case Others(env) => s.(store := EnvRun(s.store, FINALIZER, env))
    case Get => if s.phase.Idle? && View(s.store, GROUP).Some? then s.(phase := Got(View(s.store, GROUP).value)) else s
    case Zero => if s.phase.Got? && s.phase.group.deleting then s.(phase := Zeroed(s.phase.group), gauge := 0) else s
    case Settle(fate) => if AtUpdate(s) then ApplySettle(s, fate) else s
    case SetMetric => if s.phase.Metric? then s.(phase := Idle, gauge := if |s.phase.group.payload| > 0 then 1 else 0) else s
  }

  function Exec(s: State, steps: seq<Step>): State {
    Fold(Apply, s, steps)
  }

  // ---------------------------------------------------------------------------------------------
  // Safety
  // ---------------------------------------------------------------------------------------------

  ghost predicate Inv(s: State) {
    && StoreInv(s.store, FINALIZER)
    && s.gauge in {0, 1}
    && (s.gauge == 1 ==> HasFinalizer(Current(s.store, GROUP), FINALIZER))
    && match s.phase
       case Idle => true
       case Got(o) => Holds(s.store, FINALIZER, GROUP, o)
       case Zeroed(o) => Holds(s.store, FINALIZER, GROUP, o) && o.deleting && s.gauge == 0
       case Metric(o) => !o.deleting && HasFinalizer(Current(s.store, GROUP), FINALIZER)
  }

  lemma StepKeeps(s: State, step: Step)
    requires Inv(s)
    ensures Inv(Apply(s, step))
  {
    match step
    case Others(env) => EnvRunKeeps(s.store, FINALIZER, env);
    case Get => if View(s.store, GROUP).Some? { ReadGivesHold(s.store, FINALIZER, GROUP); }
    case Zero =>
    case Settle(fate) => if AtUpdate(s) { SettleKeeps(s.store, FINALIZER, GROUP, s.phase.group, fate); }
    case SetMetric =>
  }

  lemma {:induction false} ReachableInv(steps: seq<Step>)
    ensures Inv(Exec(INIT, steps))
  {
    if steps == [] {
      assert forall k :: KeyInv(INIT.store, FINALIZER, k);
    } else {
      ReachableInv(steps[..|steps| - 1]);
      StepKeeps(Exec(INIT, steps[..|steps| - 1]), steps[|steps| - 1]);
    }
  }

  /** At every step of every run, misreported updates included: the gauge is 1 only while the group exists and is guarded. */
  lemma ClusterAdminSafety(steps: seq<Step>)
    ensures Exec(INIT, steps).gauge in {0, 1}
    ensures Exec(INIT, steps).gauge == 1 ==>
              HasFinalizer(Current(Exec(INIT, steps).store, Key("cluster-admins", "")), FINALIZER)
  {
    ReachableInv(steps);
  }

  // ---------------------------------------------------------------------------------------------
  // Convergence
  // ---------------------------------------------------------------------------------------------

  function CaughtUp(s: State): State {
    s.(store := EnvApply(s.store, FINALIZER, AdvanceCache(GROUP, Latest(s.store, GROUP))))
  }

  /** One undisturbed reconcile that reads the latest version. */
  function FreshReconcile(s: State): State {
    Apply(Apply(Apply(Apply(CaughtUp(s), Get), Zero), Settle(Delivered)), SetMetric)
  }

  /**
   From any reachable state between reconciles, one undisturbed reconcile makes the gauge right: 1 for a group that is
   not marked for deletion and has users, 0 for any other, and for none.
   */
  lemma ClusterAdminConverges(steps: seq<Step>)
    requires Exec(INIT, steps).phase.Idle?
    ensures var gauge, group := FreshReconcile(Exec(INIT, steps)).gauge, Current(Exec(INIT, steps).store, GROUP);
            && gauge in {0, 1}
            && (gauge == 1 <==> group.Some? && !group.value.deleting && group.value.payload != [])
  {
    var s := Exec(INIT, steps);
    ReachableInv(steps);
    EnvKeeps(s.store, FINALIZER, AdvanceCache(GROUP, Latest(s.store, GROUP)));
    assert View(CaughtUp(s).store, GROUP) == Current(s.store, GROUP);
  }

  /** A marked group that only this controller still holds back is gone after one undisturbed reconcile. */
  lemma MarkedGroupGoes(steps: seq<Step>)
    requires Exec(INIT, steps).phase.Idle?
    requires var group := Current(Exec(INIT, steps).store, GROUP);
             && group.Some? && group.value.deleting && group.value.finalizers != []
             && forall f :: f in group.value.finalizers ==> f == FINALIZER
    ensures Current(FreshReconcile(Exec(INIT, steps)).store, GROUP).None?
  {
    var s := Exec(INIT, steps);
    var s1, o := CaughtUp(s), Current(s.store, GROUP).value;
    ReachableInv(steps);
    EnvKeeps(s.store, FINALIZER, AdvanceCache(GROUP, Latest(s.store, GROUP)));
    assert Versions(s1.store, GROUP) == Versions(s.store, GROUP);
    assert View(s1.store, GROUP) == Current(s.store, GROUP);
    assert o.finalizers[0] in o.finalizers;
    SettleInWords(s1.store, FINALIZER, GROUP, o, Delivered);
  }

  // ---------------------------------------------------------------------------------------------
  // The reconciler
  // ---------------------------------------------------------------------------------------------

  lemma ExecStep(s: State, steps: seq<Step>, step: Step)
    ensures Exec(s, steps + [step]) == Apply(Exec(s, steps), step)
  {
    FoldAppend(Apply, s, steps, step);
  }

  /** What a reconcile does once it has read its group, with the store as it is just before the update. */
  function StepsOnceRead(store: GroupStore, o: Group, fate: Fate, afterUpdate: seq<EnvStep<seq<string>>>): seq<Step> {
    if o.deleting then [Zero, Settle(fate)]
    else if SettleErrs(store, FINALIZER, GROUP, o, fate) then [Settle(fate)]
    else [Settle(fate), Others(afterUpdate), SetMetric]
  }

  class GroupReconciler {
    const client: ApiClient<seq<string>>
    const metricsAggregator: AdoptionMetricsAggregator
    const clusterId: string

    ghost predicate Valid()
      reads client, metricsAggregator
    {
      client.finalizer == FINALIZER && clusterId in metricsAggregator.clusterAdmin
    }

    constructor (client: ApiClient<seq<string>>, aggregator: AdoptionMetricsAggregator, clusterId: string)
      requires client.finalizer == "osd-metrics-exporter/finalizer" && clusterId in aggregator.clusterAdmin
      ensures this.client == client && metricsAggregator == aggregator && this.clusterId == clusterId && Valid()
    {
      this.client := client;
      metricsAggregator := aggregator;
      this.clusterId := clusterId;
    }

    ghost function Abstract(): State
      requires Valid()
      reads client, metricsAggregator
    {
      State(client.store, Idle, metricsAggregator.clusterAdmin[clusterId])
    }

    /**
     Others act after the read and after the update. The reconcile is this run of the step system, so it keeps safety;
     it fails exactly if its read or its update does, and the gauge of a marked group is zeroed even then.
     */
    method Reconcile(readFails: bool, afterGet: seq<EnvStep<seq<string>>>, fate: Fate, afterUpdate: seq<EnvStep<seq<string>>>)
      returns (err: bool, ghost steps: seq<Step>)
      requires Valid()
      modifies client`store, metricsAggregator`clusterAdmin
      ensures Valid()
      ensures Abstract() == Exec(old(Abstract()), steps)
      ensures readFails ==> err && steps == []
      ensures !readFails ==>
                match old(View(client.store, GROUP))
                case None => !err && steps == [Get]
                case Some(o) =>
                  var store := EnvRun(old(client.store), FINALIZER, afterGet);
                  && (err <==>
                        && (if o.deleting then FINALIZER in o.finalizers else FINALIZER !in o.finalizers)
                        && !(IsCurrent(store, GROUP, o) && fate == Delivered))
                  && steps == [Get, Others(afterGet)] + StepsOnceRead(store, o, fate, afterUpdate)
      ensures var m, m' := old(metricsAggregator.clusterAdmin), metricsAggregator.clusterAdmin;
              if readFails || old(View(client.store, GROUP)).None? then m' == m
              else
                var o := old(View(client.store, GROUP)).value;
                m' == if o.deleting then m[clusterId := 0] else if err then m else m[clusterId := if o.payload != [] then 1 else 0]
    {
      ghost var start := Abstract();
      var read := client.Get(GROUP, readFails);
      if read.ReadFailed? {
        return true, [];
      }
      assert [] + [Get] == [Get];
      ExecStep(start, [], Get);
      if read.NotFound? {
        return false, [Get];
      }
      assert [Get] + [Others(afterGet)] == [Get, Others(afterGet)];
      ExecStep(start, [Get], Others(afterGet));
      client.Others(afterGet);
      ghost var rest;
      if !read.value.deleting {
        err, rest := ReconcileLive(read.value, fate, afterUpdate);
      } else {
        err, rest := ReconcileMarked(read.value, fate);
      }
      FoldConcat(Apply, start, [Get, Others(afterGet)], rest);
      steps := [Get, Others(afterGet)] + rest;
    }

    /** The branch for a group without a deletion mark: guard it first, then set the gauge. */
    method ReconcileLive(group: Group, fate: Fate, afterUpdate: seq<EnvStep<seq<string>>>)
      returns (err: bool, ghost steps: seq<Step>)
      requires Valid() && !group.deleting
      modifies client`store, metricsAggregator`clusterAdmin
      ensures Valid()
      ensures Abstract() == Exec(old(Abstract()).(phase := Got(group)), steps)
      ensures err <==> SettleErrs(old(client.store), FINALIZER, GROUP, group, fate)
      ensures steps == StepsOnceRead(old(client.store), group, fate, afterUpdate)
      ensures var m := old(metricsAggregator.clusterAdmin);
              metricsAggregator.clusterAdmin == if err then m else m[clusterId := if group.payload != [] then 1 else 0]
    {
      ghost var start := Abstract().(phase := Got(group));
      err := client.SettleFinalizer(GROUP, group, fate);
      steps := [Settle(fate)];
      assert [] + [Settle(fate)] == steps;
      ExecStep(start, [], Settle(fate));
      if err {
        return;
      }
      ExecStep(start, steps, Others(afterUpdate));
      steps := steps + [Others(afterUpdate)];
      client.Others(afterUpdate);
      ExecStep(start, steps, SetMetric);
      steps := steps + [SetMetric];
      metricsAggregator.SetClusterAdmin(clusterId, |group.payload| > 0);
    }

    /** The branch for a group that is marked: zero the gauge first, then let the group go. */
    method ReconcileMarked(group: Group, fate: Fate) returns (err: bool, ghost steps: seq<Step>)
      requires Valid() && group.deleting
      modifies client`store, metricsAggregator`clusterAdmin
      ensures Valid()
      ensures Abstract() == Exec(old(Abstract()).(phase := Got(group)), steps)
      ensures err <==> SettleErrs(old(client.store), FINALIZER, GROUP, group, fate)
      ensures steps == [Zero, Settle(fate)]
      ensures metricsAggregator.clusterAdmin == old(metricsAggregator.clusterAdmin)[clusterId := 0]
    {
      ghost var start := Abstract().(phase := Got(group));
      assert [] + [Zero] == [Zero] && [Zero] + [Settle(fate)] == [Zero, Settle(fate)];
      ExecStep(start, [], Zero);
      metricsAggregator.SetClusterAdmin(clusterId, false);
      ExecStep(start, [Zero], Settle(fate));
      err := client.SettleFinalizer(GROUP, group, fate);
      steps := [Zero, Settle(fate)];
    }
  }
}
