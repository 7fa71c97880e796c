/** When the polling of a deleted machine reports: an unbounded run of reconciles of one machine that stays in Deleting. */
module DrainTiming {
  import opened Options
  import opened Texts
  import opened DrainEvents
  import opened PodScanner
  import opened MachineController
  import opened AggregatorSpec

  /** Reconcile i of a machine that was marked deleted at time deleted; every read succeeds. */
  ghost predicate IsPoll(input: Input, deleted: int) {
    && Admissible(input)
    && input.machine.Found? && IsDeleting(input.machine.machine)
    && input.machine.machine.deletionTimestamp == Some(deleted)
    && input.events.Listed?
  }

  /** The first reconcile comes before the gate opens, and each next one within the interval the last one asked for. */
  ghost predicate IsPolling(run: nat -> Input, deleted: int) {
    && (forall i: nat :: IsPoll(run(i), deleted) && run(i).name == run(0).name)
    && run(0).now <= deleted + TIME_BUFFER
    && forall i: nat :: run(i).now < run(i + 1).now <= run(i).now + Delay(run(i))
  }

  ghost function Delay(input: Input): int {
    if Admissible(input) && OutcomeOf(input).RequeueAfter? then OutcomeOf(input).duration else 0
  }

  /** The gate lets a reconcile look at the events. */
  predicate PassesGate(input: Input, deleted: int) {
    deleted + TIME_BUFFER < input.now
  }

  lemma PollDelay(input: Input, deleted: int)
    requires IsPoll(input, deleted)
    ensures OutcomeOf(input) == RequeueAfter(Delay(input))
    ensures 0 < Delay(input) <= DEFAULT_DELAY_INTERVAL
    ensures !PassesGate(input, deleted) ==> Delay(input) == DEFAULT_DELAY_INTERVAL && EffectOf(input) == Keep
  {
  }

  lemma {:induction false} TimeAdvances(run: nat -> Input, deleted: int, i: nat)
    requires IsPolling(run, deleted)
    ensures run(0).now + i <= run(i).now
  {
    if i > 0 {
      TimeAdvances(run, deleted, i - 1);
      assert run(i - 1).now < run((i - 1) + 1).now;
    }
  }

  /** The first reconcile later than a bound the run starts at or before. */
  lemma {:induction false} FirstAfter(run: nat -> Input, deleted: int, bound: int, i: nat) returns (k: nat)
    requires IsPolling(run, deleted)
    requires run(0).now <= bound < run(i).now
    ensures 0 < k <= i && bound < run(k).now
    ensures forall j: nat :: j < k ==> run(j).now <= bound
  {
    assert i > 0 && run(i - 1).now < run((i - 1) + 1).now;
    if run(i - 1).now <= bound {
      k := i;
      forall j: nat | j < k ensures run(j).now <= bound { Increasing(run, deleted, j, i - 1); }
    } else {
      k := FirstAfter(run, deleted, bound, i - 1);
    }
  }

  lemma {:induction false} Increasing(run: nat -> Input, deleted: int, i: nat, j: nat)
    requires IsPolling(run, deleted) && i <= j
    ensures run(i).now <= run(j).now
  {
    if i < j {
      Increasing(run, deleted, i, j - 1);
      assert run(j - 1).now < run((j - 1) + 1).now;
    }
  }

  /** Some reconcile comes after the bound, at most one default interval late, and all before it are not after it. */
  lemma ReconcileSoonAfter(run: nat -> Input, deleted: int, bound: int) returns (k: nat)
    requires IsPolling(run, deleted) && deleted + TIME_BUFFER <= bound
    ensures bound < run(k).now <= bound + DEFAULT_DELAY_INTERVAL
    ensures forall j: nat :: j < k ==> run(j).now <= bound
  {
    var enough: nat := bound - run(0).now + 1;
    TimeAdvances(run, deleted, enough);
    k := FirstAfter(run, deleted, bound, enough);
    PollDelay(run(k - 1), deleted);
    assert run(k - 1).now < run((k - 1) + 1).now <= run(k - 1).now + Delay(run(k - 1));
  }

  /** The gate is first passed more than 15 and at most 20 minutes after the deletion; until then nothing is reported. */
  lemma GateFirstPassed(run: nat -> Input, deleted: int) returns (k: nat)
    requires IsPolling(run, deleted)
    ensures PassesGate(run(k), deleted) && deleted + 15 * MINUTE < run(k).now <= deleted + 20 * MINUTE
    ensures forall j: nat :: j < k ==> !PassesGate(run(j), deleted) && EffectOf(run(j)) == Keep
  {
    k := ReconcileSoonAfter(run, deleted, deleted + TIME_BUFFER);
    forall j: nat | j < k
      ensures !PassesGate(run(j), deleted) && EffectOf(run(j)) == Keep
    {
      assert IsPoll(run(j), deleted);
      PollDelay(run(j), deleted);
    }
  }

  /** Among the events of all machines there is a drain failure of this one, from this deletion. */
  ghost predicate ShowsFailure(input: Input, deleted: int) {
    input.events.Listed? &&
    exists e, i :: e in input.events.items && e.involvedObject == input.name &&
                   e.reason == "DrainRequeued" && OccursAt(e.message, "error when evicting pods", i) &&
                   deleted <= e.lastTimestamp
  }

  lemma FailureIsReported(input: Input, deleted: int)
    requires IsPoll(input, deleted) && PassesGate(input, deleted)
    ensures EffectOf(input).Report? <==> ShowsFailure(input, deleted)
  {
    ReportedIffFailure(input.machine.machine, input.now, input.events);
  }

  /** The vector right after a reconcile, when these were the ones before it. */
  ghost function Exported(history: seq<Input>, input: Input): map<PodSeries, int>
    requires AllAdmissible(history) && Admissible(input)
  {
    DrainSeries(After(history + [input]))
  }

  /** What a reporting reconcile leaves in the vector for its machine: the pods named by the newest failure, and no others. */
  lemma ReportIsExported(history: seq<Input>, input: Input, deleted: int) returns (e: Event)
    requires AllAdmissible(history) && IsPoll(input, deleted) && EffectOf(input).Report?
    ensures IsNewestFailureOf(e, input.events.items, input.name) && deleted <= e.lastTimestamp
    ensures SeriesFor(Exported(history, input), input.name) ==
            DrainSeries(map[input.name := DrainingMachine(input.machine.machine.nodeRef.value, PodNamespaces(e.message))])
  {
    var machine := input.machine.machine;
    e := ReportedEvent(machine, input.now, input.events).value;
    ReportedIsFailure(machine, input.now, input.events);
    assert (history + [input])[..|history|] == history;
    RebuildAfterSet(After(history), input.name, DrainingMachine(machine.nodeRef.value, PodNamespaces(e.message)));
  }

  /**
   A drain failure that every reconcile from time `seen` on can read is exported within five minutes of that, or of the
   gate: whatever was reconciled before, of this machine or of others, the vector then has exactly the pods that the
   newest failure names.
   */
  lemma FailureExportedInTime(run: nat -> Input, history: nat -> seq<Input>, deleted: int, seen: int)
    returns (k: nat, e: Event)
    requires IsPolling(run, deleted) && forall i: nat :: AllAdmissible(history(i))
    requires forall i: nat :: seen <= run(i).now ==> ShowsFailure(run(i), deleted)
    ensures IsPoll(run(k), deleted)
    ensures run(k).now <= (if seen <= deleted + 15 * MINUTE then deleted + 15 * MINUTE else seen) + 5 * MINUTE
    ensures IsNewestFailureOf(e, run(k).events.items, run(k).name) && deleted <= e.lastTimestamp
    ensures run(k).machine.machine.nodeRef.Some?
    ensures SeriesFor(Exported(history(k), run(k)), run(k).name) ==
            DrainSeries(map[run(k).name := DrainingMachine(run(k).machine.machine.nodeRef.value, PodNamespaces(e.message))])
  {
    k := ReconcileSoonAfter(run, deleted, if seen <= deleted + TIME_BUFFER then deleted + TIME_BUFFER else seen - 1);
    assert IsPoll(run(k), deleted);
    FailureIsReported(run(k), deleted);
    e := ReportIsExported(history(k), run(k), deleted);
  }

  /** The requeue timer is the only trigger, and it fires on time. */
  ghost predicate IsExact(run: nat -> Input) {
    forall i: nat :: run(i + 1).now == run(i).now + Delay(run(i))
  }

  lemma {:induction false} ExactTimes(run: nat -> Input, deleted: int, i: nat)
    requires IsPolling(run, deleted) && IsExact(run)
    requires run(0).now + DEFAULT_DELAY_INTERVAL * (i - 1) <= deleted + TIME_BUFFER
    ensures run(i).now == run(0).now + DEFAULT_DELAY_INTERVAL * i
  {
    if i > 0 {
      ExactTimes(run, deleted, i - 1);
      assert IsPoll(run(i - 1), deleted);
      PollDelay(run(i - 1), deleted);
      assert run((i - 1) + 1).now == run(i - 1).now + Delay(run(i - 1));
    }
  }

  /** How many reconciles the gate turns away, when the first one comes at time first. */
  function TurnedAway(first: int, deleted: int): int {
    (deleted + TIME_BUFFER - first) / DEFAULT_DELAY_INTERVAL + 1
  }

  lemma TurnedAwayRange(first: int, deleted: int)
    requires deleted <= first <= deleted + TIME_BUFFER
    ensures var n := TurnedAway(first, deleted);
            && 1 <= n <= 4 && (n == 4 <==> first == deleted)
            && first + DEFAULT_DELAY_INTERVAL * (n - 1) <= deleted + TIME_BUFFER < first + DEFAULT_DELAY_INTERVAL * n
  {
  }

  /**
   With exact requeues the number of reconciles the gate turns away is fixed by the first one: at most four,
   and four only if the first one comes at the very moment of the deletion.
   */
  lemma GateTurnsAwayFour(run: nat -> Input, deleted: int)
    requires IsPolling(run, deleted) && IsExact(run) && deleted <= run(0).now
    ensures var n := TurnedAway(run(0).now, deleted);
            && 1 <= n <= 4 && (n == 4 <==> run(0).now == deleted)
            && forall i: nat :: run(i).now <= deleted + 15 * MINUTE <==> i < n
  {
    var n := TurnedAway(run(0).now, deleted);
    TurnedAwayRange(run(0).now, deleted);
    ExactTimes(run, deleted, n - 1);
    ExactTimes(run, deleted, n);
    forall i: nat
      ensures run(i).now <= deleted + 15 * MINUTE <==> i < n
    {
      if i < n {
        Increasing(run, deleted, i, n - 1);
      } else {
        Increasing(run, deleted, n, i);
      }
    }
  }
}
