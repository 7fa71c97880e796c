/**
 The aggregator's mutex as a step system. One ticker goroutine runs aggregate(); any number of reconciler
 workers run SetOAuthIDP and DeleteOAuthIDP. Every step below is atomic, and any order of enabled steps is a run:
 aggregate() ranges over the shared map itself: it picks the objects in any order, reads a list when it picks it, and
 counts one list entry or writes one gauge at a time.
 */
module AggregatorMutex {
  import opened AggregatorSpec
  import opened Aggregator

  datatype Request = SetIdp(key: ProviderKey, types: seq<IdpType>) | DeleteIdp(key: ProviderKey)

  datatype Owner = Nobody | Ticker | Worker(id: nat)

  /** Where a worker is inside a setter; a worker outside of one is absent. */
  datatype WorkerPc = Waiting(req: Request) | Locked(req: Request) | Written

  datatype TickerPc =
    | Idle
    | Counting(todo: set<ProviderKey>, list: seq<IdpType>, providers: map<IdpType, nat>)
    | Writing(providers: map<IdpType, nat>, next: nat)

  datatype State = State(
    providerMap: ProviderMap,
    owner: Owner,
    workers: map<nat, WorkerPc>,
    ticker: TickerPc,
    gauges: map<IdpType, int>)

  datatype Step =
    | Call(id: nat, req: Request)
    | WorkerLock(id: nat)
    | WorkerWrite(id: nat)
    | WorkerUnlock(id: nat)
    | TickerLock
    | PickObject(key: ProviderKey)
    | CountEntry
    | StartWriting
    | WriteGauge
    | TickerUnlock

  const INIT := State(map[], Nobody, map[], Idle, map[])

  predicate Enabled(s: State, step: Step) {
    match step
    case Call(id, _) => id !in s.workers
    case WorkerLock(id) => id in s.workers && s.workers[id].Waiting? && s.owner == Nobody
    case WorkerWrite(id) => id in s.workers && s.workers[id].Locked?
    case WorkerUnlock(id) => id in s.workers && s.workers[id].Written?
    case TickerLock => s.ticker.Idle? && s.owner == Nobody
    case PickObject(k) => s.ticker.Counting? && s.ticker.list == [] && k in s.ticker.todo && k in s.providerMap
    case CountEntry => s.ticker.Counting? && s.ticker.list != []
    case StartWriting => s.ticker.Counting? && s.ticker.list == [] && s.ticker.todo !! s.providerMap.Keys
    case WriteGauge => s.ticker.Writing? && s.ticker.next < |KNOWN_IDP_TYPES|
    case TickerUnlock => s.ticker.Writing? && s.ticker.next == |KNOWN_IDP_TYPES|
  }

  function Increment(providers: map<IdpType, nat>, p: IdpType): map<IdpType, nat> {
    providers[p := (if p in providers then providers[p] else 0) + 1]
  }

  function Perform(m: ProviderMap, req: Request): ProviderMap {
    match req
    case SetIdp(k, types) => m[k := types]
    case DeleteIdp(k) => m - {k}
  }

  function Apply(s: State, step: Step): State
    requires Enabled(s, step)
  {
    match step
    case Call(id, req) => s.(workers := s.workers[id := Waiting(req)])
    case WorkerLock(id) => s.(owner := Worker(id), workers := s.workers[id := Locked(s.workers[id].req)])
    case WorkerWrite(id) =>
      s.(providerMap := Perform(s.providerMap, s.workers[id].req), workers := s.workers[id := Written])
    case WorkerUnlock(id) => s.(owner := Nobody, workers := s.workers - {id})
    case TickerLock => s.(owner := Ticker, ticker := Counting(s.providerMap.Keys, [], map[]))
    case PickObject(k) => s.(ticker := Counting(s.ticker.todo - {k}, s.providerMap[k], s.ticker.providers))
    case CountEntry =>
      s.(ticker := Counting(s.ticker.todo, s.ticker.list[1..], Increment(s.ticker.providers, s.ticker.list[0])))
    case StartWriting => s.(ticker := Writing(s.ticker.providers, 0))
    case WriteGauge =>
      var t := KNOWN_IDP_TYPES[s.ticker.next];
      var value := if t in s.ticker.providers then s.ticker.providers[t] else 0;
      s.(gauges := s.gauges[t := value], ticker := Writing(s.ticker.providers, s.ticker.next + 1))
    case TickerUnlock => s.(owner := Nobody, ticker := Idle)
  }

  /** A run: every state follows from the one before it by the step between them. */
  ghost predicate IsRun(states: seq<State>, steps: seq<Step>) {
    && |states| == |steps| + 1
    && states[0] == INIT
    && forall i :: 0 <= i < |steps| ==> Enabled(states[i], steps[i]) && states[i + 1] == Apply(states[i], steps[i])
  }

  // ---------------------------------------------------------------------------------------------
  // Invariant
  // ---------------------------------------------------------------------------------------------

  ghost predicate InCriticalSection(pc: WorkerPc) {
    pc.Locked? || pc.Written?
  }

  /** The lock has one owner, and only the owner is past its lock operation. */
  ghost predicate MutualExclusion(s: State) {
    && (s.owner == Ticker <==> !s.ticker.Idle?)
    && forall id :: id in s.workers && InCriticalSection(s.workers[id]) ==> s.owner == Worker(id)
  }

  /** What is left to pick, as the shared map has it now. */
  function Rest(s: State): ProviderMap
    requires s.ticker.Counting?
  {
    map k | k in s.providerMap && k in s.ticker.todo :: s.providerMap[k]
  }

  ghost predicate Tallied(s: State, t: IdpType)
    requires s.ticker.Counting?
  {
    Tally(s.ticker.providers, t) + multiset(s.ticker.list)[t] + TypeCount(Rest(s), t) == TypeCount(s.providerMap, t)
  }

  /** What aggregate() has done so far, measured against the provider map as it is now. */
  ghost predicate Progress(s: State) {
    match s.ticker
    case Idle => true
    case Counting(todo, list, providers) => forall t :: Tallied(s, t)
    case Writing(providers, next) =>
      && next <= |KNOWN_IDP_TYPES|
      && (forall t :: Tally(providers, t) == TypeCount(s.providerMap, t))
      && forall j :: 0 <= j < next ==> KNOWN_IDP_TYPES[j] in s.gauges &&
                                       s.gauges[KNOWN_IDP_TYPES[j]] == TypeCount(s.providerMap, KNOWN_IDP_TYPES[j])
  }

  ghost predicate Inv(s: State) {
    && MutualExclusion(s)
    && Progress(s)
    && forall t :: t in s.gauges ==> t in KNOWN_IDP_TYPES
  }

  /** Counting an entry, or picking an object, moves it from what is left to what is tallied. */
  lemma CountingKept(s: State, step: Step)
    requires Inv(s) && Enabled(s, step) && s.ticker.Counting? && Apply(s, step).ticker.Counting?
    ensures Progress(Apply(s, step))
  {
    var s' := Apply(s, step);
    if step.PickObject? {
      assert Rest(s') == Rest(s) - {step.key};
    } else {
      assert Rest(s') == Rest(s);
    }
    if step.CountEntry? {
      assert s.ticker.list == [s.ticker.list[0]] + s.ticker.list[1..];
    }
    forall t ensures Tallied(s', t) {
      assert Tallied(s, t);
      if step.PickObject? {
        TypeCountRemove(Rest(s), step.key, t);
      }
    }
  }

  lemma CountingDone(s: State)
    requires Inv(s) && Enabled(s, StartWriting)
    ensures Progress(Apply(s, StartWriting))
  {
    assert Rest(s) == map[];
    forall t ensures Tally(s.ticker.providers, t) == TypeCount(s.providerMap, t) {
      assert Tallied(s, t);
      assert PlacesOf(map[], t) == {};
    }
  }

  lemma WritingKept(s: State, step: Step)
    requires Inv(s) && Enabled(s, step) && s.ticker.Writing?
    ensures Progress(Apply(s, step))
  {
    if step.WriteGauge? {
      var t := KNOWN_IDP_TYPES[s.ticker.next];
      assert Tally(s.ticker.providers, t) == TypeCount(s.providerMap, t);
    }
  }

  lemma ProgressKept(s: State, step: Step)
    requires Inv(s) && Enabled(s, step)
    ensures Progress(Apply(s, step))
  {
    if s.ticker.Writing? {
      WritingKept(s, step);
    } else if step.StartWriting? {
      CountingDone(s);
    } else if s.ticker.Counting? {
      CountingKept(s, step);
    } else if step.TickerLock? {
      assert Rest(Apply(s, step)) == s.providerMap;
      assert forall t :: Tallied(Apply(s, step), t);
    }
  }

  lemma InvKept(s: State, step: Step)
    requires Inv(s) && Enabled(s, step)
    ensures Inv(Apply(s, step))
  {
    ProgressKept(s, step);
  }

  lemma {:induction false} RunKeepsInv(states: seq<State>, steps: seq<Step>, n: nat)
    requires IsRun(states, steps) && n < |states|
    ensures Inv(states[n])
  {
    if n > 0 {
      RunKeepsInv(states, steps, n - 1);
      InvKept(states[n - 1], steps[n - 1]);
    }
  }

  // ---------------------------------------------------------------------------------------------
  // The snapshot theorem
  // ---------------------------------------------------------------------------------------------

  /** While the ticker holds the lock, no setter takes effect. */
  lemma {:induction false} MapFrozen(states: seq<State>, steps: seq<Step>, lock: nat, n: nat)
    requires IsRun(states, steps) && lock < n < |states|
    requires steps[lock] == TickerLock
    requires forall j :: lock < j < n ==> steps[j] != TickerUnlock
    ensures states[n].owner == Ticker
    ensures states[n].providerMap == states[lock].providerMap
  {
    RunKeepsInv(states, steps, n);
    if n > lock + 1 {
      MapFrozen(states, steps, lock, n - 1);
      RunKeepsInv(states, steps, n - 1);
    }
  }

  lemma AllWritten(s: State)
    requires Inv(s) && Enabled(s, TickerUnlock)
    ensures s.gauges == IdpGauges(s.providerMap)
  {
    forall t | t in KNOWN_IDP_TYPES
      ensures t in s.gauges && s.gauges[t] == TypeCount(s.providerMap, t)
    {
      var j :| 0 <= j < |KNOWN_IDP_TYPES| && KNOWN_IDP_TYPES[j] == t;
    }
  }

  /**
   In every interleaving, when aggregate() releases the lock the gauges are the counts of one single state of the
   provider map, the one at lock acquisition; no setter took effect in between.
   */
  lemma MutexSnapshot(states: seq<State>, steps: seq<Step>, lock: nat, unlock: nat)
    requires IsRun(states, steps) && lock < unlock < |steps|
    requires steps[lock] == TickerLock && steps[unlock] == TickerUnlock
    requires forall j :: lock < j < unlock ==> steps[j] != TickerUnlock
    ensures states[unlock + 1].gauges == IdpGauges(states[lock].providerMap)
    ensures forall j :: lock <= j <= unlock + 1 ==> states[j].providerMap == states[lock].providerMap
    ensures forall j :: lock <= j <= unlock ==> !steps[j].WorkerWrite?
  {
    forall j | lock < j <= unlock
      ensures states[j].providerMap == states[lock].providerMap && !steps[j].WorkerWrite?
    {
      MapFrozen(states, steps, lock, j);
      RunKeepsInv(states, steps, j);
    }
    RunKeepsInv(states, steps, unlock);
    AllWritten(states[unlock]);
  }

  /** The latest lock acquisition by the ticker before state n, or -1. */
  ghost function LastLock(steps: seq<Step>, n: nat): (i: int)
    requires n <= |steps|
    ensures -1 <= i < n && (i >= 0 ==> steps[i] == TickerLock)
    ensures forall j :: i < j < n ==> steps[j] != TickerLock
  {
    if n == 0 then -1 else if steps[n - 1] == TickerLock then n - 1 else LastLock(steps, n - 1)
  }

  /** Whenever aggregate() is not running, the gauges show the provider map of its last start, or nothing at all. */
  lemma {:induction false} GaugesBetweenTicks(states: seq<State>, steps: seq<Step>, n: nat)
    requires IsRun(states, steps) && n < |states|
    requires states[n].ticker.Idle?
    ensures var lock := LastLock(steps, n);
            states[n].gauges == if lock < 0 then map[] else IdpGauges(states[lock].providerMap)
  {
    if n > 0 {
      var step := steps[n - 1];
      if step == TickerUnlock {
        var lock := TickerStarted(states, steps, n - 1);
        LockIsLast(states, steps, lock, n - 1);
        MutexSnapshot(states, steps, lock, n - 1);
      } else {
        GaugesBetweenTicks(states, steps, n - 1);
      }
    }
  }

  /** A running aggregate() has locked, and not unlocked since. */
  lemma {:induction false} TickerStarted(states: seq<State>, steps: seq<Step>, n: nat) returns (lock: nat)
    requires IsRun(states, steps) && n < |states|
    requires !states[n].ticker.Idle?
    ensures lock < n && steps[lock] == TickerLock
    ensures forall j :: lock < j < n ==> steps[j] != TickerUnlock
  {
    if steps[n - 1] == TickerLock {
      lock := n - 1;
    } else {
      lock := TickerStarted(states, steps, n - 1);
    }
  }

  lemma LockIsLast(states: seq<State>, steps: seq<Step>, lock: nat, n: nat)
    requires IsRun(states, steps) && lock < n < |steps|
    requires steps[lock] == TickerLock && steps[n] == TickerUnlock
    requires forall j :: lock < j < n ==> steps[j] != TickerUnlock
    ensures LastLock(steps, n + 1) == lock
  {
    forall j | lock < j < n
      ensures steps[j] != TickerLock
    {
      MapFrozen(states, steps, lock, j);
    }
    var last := LastLock(steps, n + 1);
    assert last >= lock;
  }

  // ---------------------------------------------------------------------------------------------
  // What the setters do to the map
  // ---------------------------------------------------------------------------------------------

  /** Step i is the one in which a worker's setter takes effect, on key k. */
  ghost predicate Writes(states: seq<State>, steps: seq<Step>, i: nat, k: ProviderKey)
    requires IsRun(states, steps) && i < |steps|
  {
    steps[i].WorkerWrite? && states[i].workers[steps[i].id].req.key == k
  }

  /** Step i writes k, and no step after it and before state n does. */
  ghost predicate IsLastWrite(states: seq<State>, steps: seq<Step>, n: nat, i: nat, k: ProviderKey)
    requires IsRun(states, steps) && n < |states|
  {
    i < n && Writes(states, steps, i, k) && forall j: nat :: i < j < n ==> !Writes(states, steps, j, k)
  }

  /** However setters and ticks interleave: k is in the map iff the last setter to take effect on it set it, to its list. */
  lemma {:induction false} MapIsLastWrite(states: seq<State>, steps: seq<Step>, n: nat, k: ProviderKey)
    requires IsRun(states, steps) && n < |states|
    ensures k in states[n].providerMap <==>
            exists i: nat :: IsLastWrite(states, steps, n, i, k) && states[i].workers[steps[i].id].req.SetIdp?
    ensures forall i: nat :: IsLastWrite(states, steps, n, i, k) && k in states[n].providerMap ==>
                               states[n].providerMap[k] == states[i].workers[steps[i].id].req.types
  {
    if n > 0 {
      MapIsLastWrite(states, steps, n - 1, k);
      if Writes(states, steps, n - 1, k) {
        assert IsLastWrite(states, steps, n, n - 1, k);
      } else {
        assert forall i: nat :: IsLastWrite(states, steps, n, i, k) <==> IsLastWrite(states, steps, n - 1, i, k);
      }
    }
  }

  /** A setter takes effect with the arguments of its call, the latest one by that worker. */
  lemma {:induction false} WrittenAsCalled(states: seq<State>, steps: seq<Step>, n: nat, id: nat) returns (c: nat)
    requires IsRun(states, steps) && n < |states|
    requires id in states[n].workers && !states[n].workers[id].Written?
    ensures c < n && steps[c] == Call(id, states[n].workers[id].req)
    ensures forall j :: c < j < n ==> !(steps[j].Call? && steps[j].id == id)
  {
    if steps[n - 1].Call? && steps[n - 1].id == id {
      c := n - 1;
    } else {
      c := WrittenAsCalled(states, steps, n - 1, id);
    }
  }
}
