/** The controller that reports which customer pods keep a deleted machine's node from draining. */
module MachineController {
  import opened Options
  import opened Texts
  import opened DrainEvents
  import opened PodScanner
  import opened AggregatorSpec
  import opened Aggregator

  const SECOND: int := 1_000_000_000
  const MINUTE: int := 60 * SECOND
  const TIME_BUFFER: int := 15 * MINUTE
  const DEFAULT_DELAY_INTERVAL: int := 5 * MINUTE
  const POD_FAILING_DRAIN_RECHECK_INTERVAL: int := 2 * MINUTE

  datatype Machine = Machine(name: string, phase: Option<string>, deletionTimestamp: Option<int>, nodeRef: Option<string>)

  datatype GetResult = Found(machine: Machine) | NotFound | GetFailed

  /** The events of all machines; a reconcile asks for those of its own. */
  datatype ListResult = Listed(items: seq<Event>) | ListFailed

  /** Everything one reconcile sees: the requested name, what the reads return, and the clock. */
  datatype Input = Input(name: string, machine: GetResult, now: int, events: ListResult)

  datatype Outcome = DoNotRequeue | RequeueAfter(duration: int) | RequeueWithError

  predicate IsDeleting(machine: Machine) {
    machine.phase == Some("Deleting")
  }

  /** The event that justifies a report on this machine now, if there is one. */
  ghost function ReportedEvent(machine: Machine, now: int, events: ListResult): Option<Event>
    requires machine.deletionTimestamp.Some?
  {
    if machine.deletionTimestamp.value < now - TIME_BUFFER && events.Listed? then
      var items := Involving(events.items, machine.name);
      match NewestDrainFailure(items)
      case Selected(Some(i)) =>
        if machine.deletionTimestamp.value <= items[i].lastTimestamp then Some(items[i]) else None
      case _ => None
    else
      None
  }

  /** Assumed of the cluster: a Deleting machine has a deletion time, and a node once it is reported on. */
  ghost predicate WellFormed(machine: Machine, now: int, events: ListResult) {
    && machine.deletionTimestamp.Some?
    && (ReportedEvent(machine, now, events).Some? ==> machine.nodeRef.Some?)
  }

  ghost predicate Admissible(input: Input) {
    input.machine.Found? ==>
      && input.machine.machine.name == input.name
      && (IsDeleting(input.machine.machine) ==> WellFormed(input.machine.machine, input.now, input.events))
  }

  /** A listed drain failure of the machine, with none newer. */
  ghost predicate IsNewestFailureOf(e: Event, items: seq<Event>, name: string) {
    && e in items && e.involvedObject == name && IsErrorEvictingPodsEvent(e)
    && forall f :: f in items && f.involvedObject == name && IsErrorEvictingPodsEvent(f) ==> f.lastTimestamp <= e.lastTimestamp
  }

  /** What a reconcile does to the entry of its machine. */
  datatype Effect = Keep | Remove | Report(info: DrainingMachine)

  ghost function EffectOf(input: Input): Effect
    requires Admissible(input)
  {
    match input.machine
    case NotFound => Remove
    case GetFailed => Keep
    case Found(machine) =>
      if !IsDeleting(machine) then Keep
      else
        match ReportedEvent(machine, input.now, input.events)
        case None => Keep
        case Some(event) => Report(DrainingMachine(machine.nodeRef.value, PodNamespaces(event.message)))
  }

  ghost function OutcomeOf(input: Input): Outcome
    requires Admissible(input)
  {
    match input.machine
    case NotFound => DoNotRequeue
    case GetFailed => RequeueWithError
    case Found(machine) =>
      if !IsDeleting(machine) then DoNotRequeue
      else if input.now - TIME_BUFFER <= machine.deletionTimestamp.value then RequeueAfter(DEFAULT_DELAY_INTERVAL)
      else if input.events.ListFailed? then RequeueWithError
      else if EffectOf(input).Report? then RequeueAfter(POD_FAILING_DRAIN_RECHECK_INTERVAL)
      else RequeueAfter(DEFAULT_DELAY_INTERVAL)
  }

  ghost function Next(d: DrainMap, input: Input): DrainMap
    requires Admissible(input)
  {
    match EffectOf(input)
    case Keep => d
    case Remove => d - {input.name}
    case Report(info) => d[input.name := info]
  }

  ghost predicate AllAdmissible(inputs: seq<Input>) {
    forall i :: 0 <= i < |inputs| ==> Admissible(inputs[i])
  }

  /** The draining machines after a sequence of reconciles. */
  ghost function After(inputs: seq<Input>): DrainMap
    requires AllAdmissible(inputs)
  {
    if inputs == [] then map[] else Next(After(inputs[..|inputs| - 1]), inputs[|inputs| - 1])
  }

  /** One worker: reconciles run one after the other, and this class is the only writer of the drain state. */
  class MachineReconciler {
    const metricsAggregator: AdoptionMetricsAggregator
    ghost var handled: seq<Input>

    ghost predicate Valid()
      reads this, metricsAggregator
    {
      && metricsAggregator.Valid()
      && AllAdmissible(handled)
      && metricsAggregator.drainingMachines == After(handled)
    }

    constructor (aggregator: AdoptionMetricsAggregator)
      requires aggregator.Valid() && aggregator.drainingMachines == map[]
      ensures Valid() && metricsAggregator == aggregator && handled == []
    {
      metricsAggregator := aggregator;
      handled := [];
    }

    method Reconcile(input: Input) returns (outcome: Outcome)
      requires Valid() && Admissible(input)
      modifies this, metricsAggregator`drainingMachines, metricsAggregator`podsPreventingNodeDrain
      ensures Valid() && handled == old(handled) + [input]
      ensures outcome == OutcomeOf(input)
      ensures input.machine.GetFailed? ==> outcome == RequeueWithError
      ensures input.machine.NotFound? ==> outcome == DoNotRequeue
      ensures input.machine.Found? && input.machine.machine.phase != Some("Deleting") ==> outcome == DoNotRequeue
      ensures input.machine.Found? && input.machine.machine.phase == Some("Deleting") ==>
                var deleted := input.machine.machine.deletionTimestamp.value;
                if input.now <= deleted + 15 * MINUTE then outcome == RequeueAfter(5 * MINUTE)
                else if input.events.ListFailed? then outcome == RequeueWithError
                else if exists e, i :: e in input.events.items && e.involvedObject == input.name &&
                                       e.reason == "DrainRequeued" && OccursAt(e.message, "error when evicting pods", i) &&
                                       deleted <= e.lastTimestamp
                then outcome == RequeueAfter(2 * MINUTE)
                else outcome == RequeueAfter(5 * MINUTE)
      ensures metricsAggregator.drainingMachines == Next(old(metricsAggregator.drainingMachines), input)
      ensures var d, d' := old(metricsAggregator.drainingMachines), metricsAggregator.drainingMachines;
              if input.machine.NotFound? then d' == d - {input.name}
              else if outcome != RequeueAfter(2 * MINUTE) then d' == d
              else
                && input.machine.Found? && input.machine.machine.nodeRef.Some? && input.events.Listed?
                && exists e :: e in input.events.items && IsNewestFailureOf(e, input.events.items, input.name) &&
                               d' == d[input.name := DrainingMachine(input.machine.machine.nodeRef.value, PodNamespaces(e.message))]
      ensures SeriesNotFor(metricsAggregator.podsPreventingNodeDrain, input.name) ==
              SeriesNotFor(old(metricsAggregator.podsPreventingNodeDrain), input.name)
    {
      handled := handled + [input];
      assert handled[..|handled| - 1] == old(handled);
      if input.machine.GetFailed? {
        return RequeueWithError;
      }
      if input.machine.NotFound? {
        metricsAggregator.RemoveMachineMetrics(input.name);
        return DoNotRequeue;
      }
      var machine := input.machine.machine;
      if machine.phase.Some? && machine.phase.value == "Deleting" {
        outcome := EvaluateDeletingMachine(machine, input);
        return;
      }
      return DoNotRequeue;
    }

    method EvaluateDeletingMachine(machine: Machine, input: Input) returns (outcome: Outcome)
      requires metricsAggregator.Valid()
      requires Admissible(input) && input.machine == Found(machine) && IsDeleting(machine)
      modifies metricsAggregator`drainingMachines, metricsAggregator`podsPreventingNodeDrain
      ensures metricsAggregator.Valid()
      ensures outcome == OutcomeOf(input)
      ensures outcome in {RequeueWithError, RequeueAfter(2 * MINUTE), RequeueAfter(5 * MINUTE)}
      ensures outcome == RequeueWithError <==>
              machine.deletionTimestamp.value + 15 * MINUTE < input.now && input.events.ListFailed?
      ensures outcome == RequeueAfter(2 * MINUTE) <==>
              && machine.deletionTimestamp.value + 15 * MINUTE < input.now && input.events.Listed?
              && exists e, i :: e in input.events.items && e.involvedObject == machine.name &&
                                e.reason == "DrainRequeued" && OccursAt(e.message, "error when evicting pods", i) &&
                                machine.deletionTimestamp.value <= e.lastTimestamp
      ensures metricsAggregator.drainingMachines == Next(old(metricsAggregator.drainingMachines), input)
      ensures var d, d' := old(metricsAggregator.drainingMachines), metricsAggregator.drainingMachines;
              if outcome != RequeueAfter(2 * MINUTE) then d' == d
              else
                && machine.nodeRef.Some? && input.events.Listed?
                && exists e :: e in input.events.items && IsNewestFailureOf(e, input.events.items, input.name) &&
                               d' == d[input.name := DrainingMachine(machine.nodeRef.value, PodNamespaces(e.message))]
      ensures SeriesNotFor(metricsAggregator.podsPreventingNodeDrain, input.name) ==
              SeriesNotFor(old(metricsAggregator.podsPreventingNodeDrain), input.name)
    {
      ReportedIffFailure(machine, input.now, input.events);
      var deletedTime := machine.deletionTimestamp.value;
      if !(deletedTime < input.now - TIME_BUFFER) {
        return RequeueAfter(DEFAULT_DELAY_INTERVAL);
      }
      if input.events.ListFailed? {
        return RequeueWithError;
      }
      var items := Involving(input.events.items, machine.name);
      var selection := GetMostRecentDrainFailedEvent(items);
      if selection.ErrNoEvents? {
        return RequeueAfter(DEFAULT_DELAY_INTERVAL);
      }
      if selection.index.None? {
        return RequeueAfter(DEFAULT_DELAY_INTERVAL);
      }
      var event := items[selection.index.value];
      if deletedTime > event.lastTimestamp {
        return RequeueAfter(DEFAULT_DELAY_INTERVAL);
      }
      var podNamespaces := ParsePodsAndNamespaces(event.message);
      var nodeName := machine.nodeRef.value;
      metricsAggregator.SetFailingDrainPodsForMachine(machine.name, podNamespaces, nodeName);
      return RequeueAfter(POD_FAILING_DRAIN_RECHECK_INTERVAL);
    }
  }

  /** The reported event is a drain failure of this machine that was listed, no older than the deletion; and none is newer. */
  lemma ReportedIsFailure(machine: Machine, now: int, events: ListResult)
    requires machine.deletionTimestamp.Some? && ReportedEvent(machine, now, events).Some?
    ensures var event := ReportedEvent(machine, now, events).value;
            && IsNewestFailureOf(event, events.items, machine.name)
            && machine.deletionTimestamp.value <= event.lastTimestamp
  {
    var items := Involving(events.items, machine.name);
    InvolvingContent(events.items, machine.name);
    assert IsSelection(items, NewestDrainFailure(items));
    assert ReportedEvent(machine, now, events).value in items;
    forall e | e in events.items && e.involvedObject == machine.name && IsErrorEvictingPodsEvent(e)
      ensures e.lastTimestamp <= ReportedEvent(machine, now, events).value.lastTimestamp
    {
      assert e in items;
    }
  }

  /** Past the gate, an event is acted on iff some listed event is a drain failure of this machine and this deletion. */
  lemma ReportedIffFailure(machine: Machine, now: int, events: ListResult)
    requires machine.deletionTimestamp.Some?
    ensures ReportedEvent(machine, now, events).Some? <==>
            && machine.deletionTimestamp.value + 15 * MINUTE < now && events.Listed?
            && exists e, i :: e in events.items && e.involvedObject == machine.name &&
                              e.reason == "DrainRequeued" && OccursAt(e.message, "error when evicting pods", i) &&
                              machine.deletionTimestamp.value <= e.lastTimestamp
    ensures ReportedEvent(machine, now, events).Some? ==>
              IsNewestFailureOf(ReportedEvent(machine, now, events).value, events.items, machine.name)
  {
    var reported := ReportedEvent(machine, now, events);
    if events.Listed? {
      var items := Involving(events.items, machine.name);
      InvolvingContent(events.items, machine.name);
      assert IsSelection(items, NewestDrainFailure(items));
      if e, i :| e in events.items && e.involvedObject == machine.name && e.reason == "DrainRequeued" &&
                 OccursAt(e.message, "error when evicting pods", i) && machine.deletionTimestamp.value <= e.lastTimestamp {
        DrainFailureInWords(e);
        assert e in items;
      }
    }
    if reported.Some? {
      ReportedIsFailure(machine, now, events);
      DrainFailureInWords(reported.value);
    }
  }

  // ---------------------------------------------------------------------------------------------
  // Whole runs
  // ---------------------------------------------------------------------------------------------

  ghost predicate IsReport(inputs: seq<Input>, i: nat, m: string)
    requires AllAdmissible(inputs)
  {
    i < |inputs| && inputs[i].name == m && EffectOf(inputs[i]).Report?
  }

  /** Reconcile i reports on m, and m was not found missing since. */
  ghost predicate IsStandingReport(inputs: seq<Input>, i: nat, m: string)
    requires AllAdmissible(inputs)
  {
    && IsReport(inputs, i, m)
    && forall j :: i < j < |inputs| && inputs[j].name == m ==> !inputs[j].machine.NotFound?
  }

  /** ... and is the latest one to do so. */
  ghost predicate IsLatestReport(inputs: seq<Input>, i: nat, m: string)
    requires AllAdmissible(inputs)
  {
    IsStandingReport(inputs, i, m) && forall j: nat :: i < j ==> !IsReport(inputs, j, m)
  }

  /** How one more reconcile changes which report on m stands ... */
  lemma StandingStep(inputs: seq<Input>, i: nat, m: string)
    requires AllAdmissible(inputs) && inputs != []
    ensures var n, last := |inputs| - 1, inputs[|inputs| - 1];
            IsStandingReport(inputs, i, m) <==>
              if i == n then last.name == m && EffectOf(last).Report?
              else IsStandingReport(inputs[..n], i, m) && !(last.name == m && last.machine.NotFound?)
  {
    var n := |inputs| - 1;
    assert forall j :: 0 <= j < n ==> inputs[..n][j] == inputs[j];
  }

  /** ... and which is the latest. */
  lemma LatestStep(inputs: seq<Input>, i: nat, m: string)
    requires AllAdmissible(inputs) && inputs != [] && IsStandingReport(inputs, i, m)
    requires var n := |inputs| - 1;
             i == n || (IsLatestReport(inputs[..n], i, m) && !IsReport(inputs, n, m))
    ensures IsLatestReport(inputs, i, m)
  {
    var n := |inputs| - 1;
    assert forall j: nat :: j < n ==> (IsReport(inputs, j, m) <==> IsReport(inputs[..n], j, m));
  }

  /** After any run, m is draining iff some reconcile reported on it after the last one that found it missing. */
  lemma {:induction false} DrainingIffReported(inputs: seq<Input>, m: string)
    requires AllAdmissible(inputs)
    ensures m in After(inputs) <==> exists i: nat :: IsStandingReport(inputs, i, m)
  {
    if inputs != [] {
      var n := |inputs| - 1;
      DrainingIffReported(inputs[..n], m);
      forall i: nat { StandingStep(inputs, i, m); }
      if m in After(inputs) {
        if inputs[n].name == m && EffectOf(inputs[n]).Report? {
          assert IsStandingReport(inputs, n, m);
        } else {
          var i: nat :| IsStandingReport(inputs[..n], i, m);
          assert IsStandingReport(inputs, i, m);
        }
      }
    }
  }

  /** ... and what is stored is what the latest such reconcile reported. */
  lemma {:induction false} StoredIsLatestReport(inputs: seq<Input>, m: string) returns (i: nat)
    requires AllAdmissible(inputs) && m in After(inputs)
    ensures IsLatestReport(inputs, i, m)
    ensures EffectOf(inputs[i]) == Report(After(inputs)[m])
  {
    var n := |inputs| - 1;
    if inputs[n].name == m && EffectOf(inputs[n]).Report? {
      i := n;
    } else {
      i := StoredIsLatestReport(inputs[..n], m);
    }
    StandingStep(inputs, i, m);
    LatestStep(inputs, i, m);
  }

  /** Why a series is exported: reconcile i of its machine, acting on event k, in whose message the pair stands at `at`. */
  ghost predicate Witnesses(input: Input, k: nat, at: nat, s: PodSeries) {
    && input.name == s.machine
    && input.machine.Found? && IsDeleting(input.machine.machine)
    && input.machine.machine.deletionTimestamp.Some?
    && input.machine.machine.nodeRef == Some(s.node) && s.instance == s.node
    && input.events.Listed? && k < |input.events.items|
    && var deleted, event := input.machine.machine.deletionTimestamp.value, input.events.items[k];
       && deleted + 15 * MINUTE < input.now
       && event.involvedObject == s.machine
       && event.reason == "DrainRequeued" && (exists i :: OccursAt(event.message, "error when evicting pods", i))
       && deleted <= event.lastTimestamp
       && IsMatch(event.message, at, Pair(s.podName, s.podNamespace))
       && !Contains(s.podNamespace, "openshift-")
  }

  /** Every series a reconciler ever exports goes back to a drain failure of this machine that names this pod, after this deletion. */
  lemma {:induction false} EverySeriesWitnessed(inputs: seq<Input>, s: PodSeries)
    requires AllAdmissible(inputs)
    requires s in DrainSeries(After(inputs))
    ensures exists i: nat, k: nat, at: nat :: i < |inputs| && Witnesses(inputs[i], k, at, s)
  {
    DrainSeriesContent(After(inputs), s);
    var i := StoredIsLatestReport(inputs, s.machine);
    var input := inputs[i];
    var event := ReportedEvent(input.machine.machine, input.now, input.events).value;
    ReportedIsFailure(input.machine.machine, input.now, input.events);
    DrainFailureInWords(event);
    var k: nat :| k < |input.events.items| && input.events.items[k] == event;
    var at := PodNamespacesWitness(event.message, s.podName);
    assert Witnesses(input, k, at, s);
  }

  /** The same for the reconciler object, in every state it can be in. */
  lemma {:induction false} ExportedSeriesWitnessed(r: MachineReconciler, s: PodSeries)
    requires r.Valid() && s in r.metricsAggregator.podsPreventingNodeDrain
    ensures exists i: nat, k: nat, at: nat :: i < |r.handled| && Witnesses(r.handled[i], k, at, s)
  {
    EverySeriesWitnessed(r.handled, s);
  }
}
