/**
 The OAuth reconciler as a finalizer protocol: while an OAuth object is in the provider map, it exists and carries
 the controller's finalizer. On deletion the finalizer is stripped first and the metric entry removed second.
 One worker runs one reconcile at a time; everyone else may act between any two of its steps.
 */
module OAuthController {
  import opened Folds
  import opened Options
  import opened ApiServer
  import opened AggregatorSpec
  import opened Aggregator

  const FINALIZER := "finalizers.osd.metrics.exporter.openshift.io"

  type OAuth = Object<seq<IdentityProvider>>

  type OAuthStore = Store<seq<IdentityProvider>>

  /** Inside a reconcile: the object was read, or it is settled with the server and the metric is next. */
  datatype Phase = Idle | Got(key: Key, instance: OAuth) | Metric(key: Key, instance: OAuth)

  datatype State = State(store: OAuthStore, phase: Phase, providerMap: ProviderMap)

  /** Settling the finalizer goes on to the metric, or gives up if its update is reported to have failed. */
  datatype Step =
    | Others(env: seq<EnvStep<seq<IdentityProvider>>>)
    | Get(key: Key)
    | Settle(fate: Fate)
    | SetMetric

  const INIT := State(Store(map[], map[], 0), Idle, map[])

  function ProviderOf(k: Key): ProviderKey {
    ProviderKey(k.name, k.namespace)
  }

  function KeyOf(p: ProviderKey): Key {
    Key(p.name, p.namespace)
  }

  function ApplyGet(s: State, k: Key): State {
    match View(s.store, k)
    case None => s
    case Some(o) => s.(phase := Got(k, o))
  }

  function ApplySettle(s: State, fate: Fate): State
    requires s.phase.Got?
  {
    var k, o := s.phase.key, s.phase.instance;
    s.(store := SettledStore(s.store, FINALIZER, k, o, fate),
       phase := if SettleErrs(s.store, FINALIZER, k, o, fate) then Idle else Metric(k, o))
  }

  function ApplyMetric(s: State): State
    requires s.phase.Metric?
  {
    var p, o := ProviderOf(s.phase.key), s.phase.instance;
    var m := if o.deleting then s.providerMap - {p} else s.providerMap[p := TypesOf(o.payload)];
    s.(phase := Idle, providerMap := m)
  }

  /** A step that is not enabled changes nothing. */
  function Apply(s: State, step: Step): State {
    match step
    case Others(env) => s.(store := EnvRun(s.store, FINALIZER, env))
    case Get(k) => if s.phase.Idle? then ApplyGet(s, k) else s
    case Settle(fate) => if s.phase.Got? then ApplySettle(s, fate) else s
    case SetMetric => if s.phase.Metric? then ApplyMetric(s) else s
  }

  function Exec(s: State, steps: seq<Step>): State {
    Fold(Apply, s, steps)
  }

  // ---------------------------------------------------------------------------------------------
  // Finalizer safety
  // ---------------------------------------------------------------------------------------------

  ghost predicate Inv(s: State) {
    && StoreInv(s.store, FINALIZER)
    && match s.phase
       case Idle => true
       case Got(k, o) => Holds(s.store, FINALIZER, k, o)
       case Metric(k, o) => !o.deleting ==> HasFinalizer(Current(s.store, k), FINALIZER)
  }

  /** No entry outlives its object; the one about to be removed may, until its reconcile ends. */
  ghost predicate Protected(s: State) {
    forall p :: p in s.providerMap ==>
                  || HasFinalizer(Current(s.store, KeyOf(p)), FINALIZER)
                  || (s.phase.Metric? && s.phase.key == KeyOf(p) && s.phase.instance.deleting)
  }

  /** Between reconciles, every entry names an object that exists and carries the finalizer. */
  ghost predicate Safe(s: State) {
    s.phase.Idle? ==> forall p :: p in s.providerMap ==> HasFinalizer(Current(s.store, KeyOf(p)), FINALIZER)
  }

  /** The step strips the finalizer of a counted object, but the controller is told that it failed. */
  predicate IsMisreportedStrip(s: State, step: Step) {
    && step == Settle(Lost) && s.phase.Got?
    && var k, o := s.phase.key, s.phase.instance;
       o.deleting && NeedsUpdate(o, FINALIZER) && IsCurrent(s.store, k, o) && ProviderOf(k) in s.providerMap
  }

  /** Among all ways in which settling the finalizer can end, the misreported strip is the one that breaks safety. */
  lemma MisreportedStripBreaksSafety(s: State, fate: Fate)
    requires Inv(s) && Protected(s) && s.phase.Got?
    ensures Safe(Apply(s, Settle(fate))) <==> !IsMisreportedStrip(s, Settle(fate))
  {
    SettleKeeps(s.store, FINALIZER, s.phase.key, s.phase.instance, fate);
    assert KeyOf(ProviderOf(s.phase.key)) == s.phase.key;
    assert forall p :: KeyOf(p) == s.phase.key ==> p == ProviderOf(s.phase.key);
  }

  lemma StepKeeps(s: State, step: Step)
    requires Inv(s)
    ensures Inv(Apply(s, step))
    ensures Protected(s) && !IsMisreportedStrip(s, step) ==> Protected(Apply(s, step))
  {
    match step
    case Others(env) => EnvRunKeeps(s.store, FINALIZER, env);
    case Get(k) => if View(s.store, k).Some? { ReadGivesHold(s.store, FINALIZER, k); }
    case Settle(fate) =>
      if s.phase.Got? {
        SettleKeeps(s.store, FINALIZER, s.phase.key, s.phase.instance, fate);
        assert forall p :: KeyOf(p) == s.phase.key ==> p == ProviderOf(s.phase.key);
      }
    case SetMetric =>
  }

  ghost predicate AllReported(steps: seq<Step>) {
    forall n :: 0 <= n < |steps| ==> !IsMisreportedStrip(Exec(INIT, steps[..n]), steps[n])
  }

  lemma {:induction false} ReachableInv(steps: seq<Step>)
    ensures Inv(Exec(INIT, steps))
  {
    if steps == [] {
      assert forall k :: KeyInv(INIT.store, FINALIZER, k);
    } else {
      var n := |steps| - 1;
      ReachableInv(steps[..n]);
      StepKeeps(Exec(INIT, steps[..n]), steps[n]);
    }
  }

  lemma {:induction false} ReachableProtected(steps: seq<Step>)
    requires AllReported(steps)
    ensures Protected(Exec(INIT, steps))
  {
    if steps != [] {
      var n := |steps| - 1;
      PrefixReported(steps, n);
      ReachableProtected(steps[..n]);
      ReachableInv(steps[..n]);
      StepKeeps(Exec(INIT, steps[..n]), steps[n]);
    }
  }

  /** Over any interleaving with others and any stale reads, no entry outlives its object, if no strip is misreported. */
  lemma {:induction false} OAuthFinalizerSafety(steps: seq<Step>)
    requires AllReported(steps)
    ensures Safe(Exec(INIT, steps))
  {
    ReachableProtected(steps);
  }

  lemma {:induction false} PrefixReported(steps: seq<Step>, n: nat)
    requires n <= |steps|
    requires forall i :: 0 <= i < n ==> !IsMisreportedStrip(Exec(INIT, steps[..i]), steps[i])
    ensures AllReported(steps[..n])
  {
    forall i | 0 <= i < n
      ensures !IsMisreportedStrip(Exec(INIT, steps[..n][..i]), steps[..n][i])
    {
      assert steps[..n][..i] == steps[..i];
    }
  }

  /** A run is safe from beginning to end exactly when it contains no misreported strip of a counted object. */
  lemma {:induction false} SafeThroughoutIffReported(steps: seq<Step>)
    ensures (forall n :: 0 <= n <= |steps| ==> Safe(Exec(INIT, steps[..n]))) <==> AllReported(steps)
  {
    if AllReported(steps) {
      forall n | 0 <= n <= |steps| ensures Safe(Exec(INIT, steps[..n])) {
        PrefixReported(steps, n);
        OAuthFinalizerSafety(steps[..n]);
      }
    } else {
      var n := FirstMisreport(steps, |steps|);
      var s := Exec(INIT, steps[..n]);
      PrefixReported(steps, n);
      ReachableInv(steps[..n]);
      ReachableProtected(steps[..n]);
      MisreportedStripBreaksSafety(s, Lost);
      ExecPrefix(INIT, steps, n);
      assert !Safe(Exec(INIT, steps[..n + 1]));
    }
  }

  lemma {:induction false} FirstMisreport(steps: seq<Step>, m: nat) returns (n: nat)
    requires m <= |steps|
    requires exists i :: 0 <= i < m && IsMisreportedStrip(Exec(INIT, steps[..i]), steps[i])
    ensures n < m && IsMisreportedStrip(Exec(INIT, steps[..n]), steps[n])
    ensures forall i :: 0 <= i < n ==> !IsMisreportedStrip(Exec(INIT, steps[..i]), steps[i])
  {
    if exists i :: 0 <= i < m - 1 && IsMisreportedStrip(Exec(INIT, steps[..i]), steps[i]) {
      n := FirstMisreport(steps, m - 1);
    } else {
      n := m - 1;
    }
  }

  lemma ExecStep(s: State, steps: seq<Step>, step: Step)
    ensures Exec(s, steps + [step]) == Apply(Exec(s, steps), step)
  {
    FoldAppend(Apply, s, steps, step);
  }

  lemma ExecPrefix(s: State, steps: seq<Step>, n: nat)
    requires n < |steps|
    ensures Exec(s, steps[..n + 1]) == Apply(Exec(s, steps[..n]), steps[n])
  {
    assert steps[..n + 1] == steps[..n] + [steps[n]];
    ExecStep(s, steps[..n], steps[n]);
  }

  // ---------------------------------------------------------------------------------------------
  // The misreported strip
  // ---------------------------------------------------------------------------------------------

  const LEAK_KEY := Key("cluster", "")
  const LEAK_SPEC := [IdentityProvider("login", GitHub)]
  const LEAK_MAP: ProviderMap := map[ProviderKey("cluster", "") := [GitHub]]

  const CREATED: OAuth := Object(0, false, [], LEAK_SPEC)
  const GUARDED: OAuth := Object(1, false, [FINALIZER], LEAK_SPEC)
  const MARKED: OAuth := Object(2, true, [FINALIZER], LEAK_SPEC)

  function LeakState(h: seq<Option<OAuth>>, cached: nat, phase: Phase, m: ProviderMap): State
    requires h != []
  {
    State(Store(map[LEAK_KEY := h], map[LEAK_KEY := cached], |h| - 1), phase, m)
  }

  /** One step more, of one other actor. */
  lemma ExecOther(steps: seq<Step>, e: EnvStep<seq<IdentityProvider>>) returns (longer: seq<Step>)
    ensures Exec(INIT, longer) == Exec(INIT, steps).(store := EnvApply(Exec(INIT, steps).store, FINALIZER, e))
  {
    longer := steps + [Others([e])];
    ExecStep(INIT, steps, Others([e]));
    EnvRunOne(Exec(INIT, steps).store, FINALIZER, e);
  }

  /** An object is created and read ... */
  lemma LeakCreated() returns (steps: seq<Step>)
    ensures Exec(INIT, steps) == LeakState([None, Some(CREATED)], 1, Got(LEAK_KEY, CREATED), map[])
  {
    var k := LEAK_KEY;
    steps := ExecOther([], Create(k, [], LEAK_SPEC));
    assert [None] + [Some(CREATED)] == [None, Some(CREATED)];
    assert Exec(INIT, steps).store.history == map[k := [None, Some(CREATED)]];
    steps := ExecOther(steps, AdvanceCache(k, 1));
    ExecStep(INIT, steps, Get(k));
    steps := steps + [Get(k)];
  }

  /** ... guarded by the finalizer, and counted. */
  lemma LeakCounted() returns (steps: seq<Step>)
    ensures Exec(INIT, steps) == LeakState([None, Some(CREATED), Some(GUARDED)], 1, Idle, LEAK_MAP)
  {
    steps := LeakCreated();
    ExecStep(INIT, steps, Settle(Delivered));
    ExecStep(INIT, steps + [Settle(Delivered)], SetMetric);
    assert AddFinalizer([], FINALIZER) == [FINALIZER];
    assert [None, Some(CREATED)] + [Some(GUARDED)] == [None, Some(CREATED), Some(GUARDED)];
    assert TypesOf(LEAK_SPEC) == [GitHub];
    steps := steps + [Settle(Delivered)] + [SetMetric];
  }

  /** It is marked deleted ... */
  lemma LeakMarked() returns (steps: seq<Step>)
    ensures Exec(INIT, steps) == LeakState([None, Some(CREATED), Some(GUARDED), Some(MARKED)], 1, Idle, LEAK_MAP)
  {
    steps := LeakCounted();
    steps := ExecOther(steps, MarkDeleted(LEAK_KEY));
    assert [None, Some(CREATED), Some(GUARDED)] + [Some(MARKED)] == [None, Some(CREATED), Some(GUARDED), Some(MARKED)];
  }

  /** ... and the controller reads that. */
  lemma LeakRead() returns (steps: seq<Step>)
    ensures Exec(INIT, steps) ==
            LeakState([None, Some(CREATED), Some(GUARDED), Some(MARKED)], 3, Got(LEAK_KEY, MARKED), LEAK_MAP)
  {
    steps := LeakMarked();
    steps := ExecOther(steps, AdvanceCache(LEAK_KEY, 3));
    ExecStep(INIT, steps, Get(LEAK_KEY));
    steps := steps + [Get(LEAK_KEY)];
  }

  lemma StripOfMarked(store: OAuthStore)
    requires store == LeakState([None, Some(CREATED), Some(GUARDED), Some(MARKED)], 3, Idle, LEAK_MAP).store
    ensures SettledStore(store, FINALIZER, LEAK_KEY, MARKED, Lost) ==
            LeakState([None, Some(CREATED), Some(GUARDED), Some(MARKED), None], 3, Idle, LEAK_MAP).store
    ensures SettleErrs(store, FINALIZER, LEAK_KEY, MARKED, Lost)
  {
    assert RemoveFinalizer([FINALIZER], FINALIZER) == [];
    assert Versions(store, LEAK_KEY) + [None] == [None, Some(CREATED), Some(GUARDED), Some(MARKED), None];
  }

  /** The strip is applied, but the controller is told it failed, so it keeps the entry; and the cache catches up. */
  lemma LeakStripped() returns (steps: seq<Step>)
    ensures Exec(INIT, steps) ==
            LeakState([None, Some(CREATED), Some(GUARDED), Some(MARKED), None], 4, Idle, LEAK_MAP)
  {
    steps := LeakRead();
    StripOfMarked(Exec(INIT, steps).store);
    ExecStep(INIT, steps, Settle(Lost));
    steps := steps + [Settle(Lost)];
    steps := ExecOther(steps, AdvanceCache(LEAK_KEY, 4));
  }

  /** There is no object, and the controller can know it. */
  predicate IsGone(store: OAuthStore, k: Key) {
    Current(store, k).None? && CacheIndex(store, k) == Latest(store, k)
  }

  /** The object is gone, but its entry is still counted. */
  ghost predicate Leaked(s: State, k: Key) {
    IsGone(s.store, k) && ProviderOf(k) in s.providerMap && (s.phase.Idle? || s.phase.key != k)
  }

  /** Safety does fail when a strip is misreported: the entry of this object outlives it. */
  lemma MisreportedStripLeaks() returns (steps: seq<Step>)
    ensures Leaked(Exec(INIT, steps), LEAK_KEY) && !Safe(Exec(INIT, steps))
  {
    steps := LeakStripped();
    assert KeyOf(ProviderOf(LEAK_KEY)) == LEAK_KEY;
  }

  ghost predicate Creates(env: seq<EnvStep<seq<IdentityProvider>>>, k: Key) {
    exists i :: 0 <= i < |env| && env[i].Create? && env[i].key == k
  }

  lemma GoneStep(store: OAuthStore, e: EnvStep<seq<IdentityProvider>>, k: Key)
    requires IsGone(store, k) && !(e.Create? && e.key == k)
    ensures IsGone(EnvApply(store, FINALIZER, e), k)
  {
    if e.key != k {
      assert Versions(EnvApply(store, FINALIZER, e), k) == Versions(store, k);
    }
  }

  lemma {:induction false} GoneStaysGone(store: OAuthStore, env: seq<EnvStep<seq<IdentityProvider>>>, k: Key)
    requires IsGone(store, k) && !Creates(env, k)
    ensures IsGone(EnvRun(store, FINALIZER, env), k)
  {
    if env != [] {
      var n := |env| - 1;
      assert forall i :: 0 <= i < n ==> env[..n][i] == env[i];
      GoneStaysGone(store, env[..n], k);
      GoneStep(EnvRun(store, FINALIZER, env[..n]), env[n], k);
    }
  }

  /** Nothing but a new object of that name ever clears such an entry. */
  lemma LeakStays(s: State, k: Key, step: Step)
    requires Leaked(s, k) && !(step.Others? && Creates(step.env, k))
    ensures Leaked(Apply(s, step), k)
  {
    assert forall a: Key, b: Key :: ProviderOf(a) == ProviderOf(b) ==> a == b;
    if step.Others? {
      GoneStaysGone(s.store, step.env, k);
    }
  }

  // ---------------------------------------------------------------------------------------------
  // Convergence
  // ---------------------------------------------------------------------------------------------

  predicate IsLive(store: OAuthStore, k: Key) {
    Current(store, k).Some? && !Current(store, k).value.deleting
  }

  /** What the provider map should be: every object that is not marked for deletion, with its provider types. */
  ghost function LiveMap(store: OAuthStore): ProviderMap {
    map k | k in store.history && IsLive(store, k) :: ProviderOf(k) := TypesOf(Current(store, k).value.payload)
  }

  /** The entries whose object does not exist: anyone who can list the objects can tell them. */
  ghost function Leftover(s: State): ProviderMap {
    map p | p in s.providerMap && Current(s.store, KeyOf(p)).None? :: s.providerMap[p]
  }

  ghost function Entry(s: State, k: Key): Option<seq<IdpType>> {
    if ProviderOf(k) in s.providerMap then Some(s.providerMap[ProviderOf(k)]) else None
  }

  /** The entry an object calls for; where there is no object, whatever is there stays. */
  ghost function Target(s: State, k: Key): Option<seq<IdpType>> {
    match Current(s.store, k)
    case Some(o) => if o.deleting then None else Some(TypesOf(o.payload))
    case None => Entry(s, k)
  }

  lemma TargetsMet(s: State)
    requires forall k :: Entry(s, k) == Target(s, k)
    ensures s.providerMap == LiveMap(s.store) + Leftover(s)
  {
    var live, left := LiveMap(s.store), Leftover(s);
    forall p
      ensures p in s.providerMap <==> p in live || p in left
      ensures p in s.providerMap ==> s.providerMap[p] == (live + left)[p]
    {
      LiveMapAt(s.store, p);
      assert ProviderOf(KeyOf(p)) == p && Entry(s, KeyOf(p)) == Target(s, KeyOf(p));
    }
  }

  /** The object that the last completed reconcile of k worked on. */
  ghost function LastDone(steps: seq<Step>, k: Key): Option<OAuth> {
    if steps == [] then None
    else
      var before := Exec(INIT, steps[..|steps| - 1]);
      if steps[|steps| - 1] == SetMetric && before.phase.Metric? && before.phase.key == k then Some(before.phase.instance)
      else LastDone(steps[..|steps| - 1], k)
  }

  lemma {:induction false} MapIsLastDone(steps: seq<Step>, k: Key)
    ensures var m, done := Exec(INIT, steps).providerMap, LastDone(steps, k);
            && (ProviderOf(k) in m <==> done.Some? && !done.value.deleting)
            && (ProviderOf(k) in m && done.Some? ==> m[ProviderOf(k)] == TypesOf(done.value.payload))
  {
    if steps != [] {
      MapIsLastDone(steps[..|steps| - 1], k);
      assert forall a: Key, b: Key :: ProviderOf(a) == ProviderOf(b) ==> a == b;
    }
  }

  /** Every object that exists was last reconciled with the deletion mark and the providers it has now. */
  ghost predicate Settled(steps: seq<Step>) {
    var s := Exec(INIT, steps);
    && s.phase.Idle?
    && forall k :: Current(s.store, k).Some? ==>
                     && LastDone(steps, k).Some?
                     && LastDone(steps, k).value.deleting == Current(s.store, k).value.deleting
                     && LastDone(steps, k).value.payload == Current(s.store, k).value.payload
  }

  /** The identity providers of a type that the live objects hold: an object and an index into its spec. */
  ghost function LiveProviders(store: OAuthStore, t: IdpType): set<(ProviderKey, int)> {
    set k, i | k in store.history && IsLive(store, k) &&
               0 <= i < |Current(store, k).value.payload| && Current(store, k).value.payload[i].idpType == t ::
      (ProviderOf(k), i)
  }

  lemma LiveMapAt(store: OAuthStore, p: ProviderKey)
    ensures p in LiveMap(store) <==> IsLive(store, KeyOf(p))
    ensures p in LiveMap(store) ==> LiveMap(store)[p] == TypesOf(Current(store, KeyOf(p)).value.payload)
  {
    var k := KeyOf(p);
    assert ProviderOf(k) == p && forall c: Key :: ProviderOf(c) == p ==> c == k;
    if IsLive(store, k) {
      assert k in store.history;
    }
  }

  lemma LiveMapCounts(store: OAuthStore, t: IdpType)
    ensures PlacesOf(LiveMap(store), t) == LiveProviders(store, t)
  {
    forall x: (ProviderKey, int)
      ensures x in PlacesOf(LiveMap(store), t) <==> x in LiveProviders(store, t)
    {
      LiveMapAt(store, x.0);
      assert ProviderOf(KeyOf(x.0)) == x.0;
    }
  }

  lemma LeftoverApart(s: State)
    ensures LiveMap(s.store).Keys !! Leftover(s).Keys
  {
    forall p | p in LiveMap(s.store)
      ensures p !in Leftover(s)
    {
      LiveMapAt(s.store, p);
    }
  }

  /** Live objects are counted once each, and every leftover entry is counted on top. */
  lemma LiveAndLeftoverCounts(s: State, t: IdpType)
    ensures TypeCount(LiveMap(s.store) + Leftover(s), t) == |LiveProviders(s.store, t)| + TypeCount(Leftover(s), t)
  {
    LeftoverApart(s);
    CountApart(LiveMap(s.store), Leftover(s), t);
    LiveMapCounts(s.store, t);
  }

  /**
   Once every object that exists was reconciled in its latest state, after any history at all, the provider map is
   that of the live objects and the leftover entries; so it is right exactly when every entry names an object.
   */
  lemma {:induction false} OAuthConverges(steps: seq<Step>)
    requires Settled(steps)
    ensures var s := Exec(INIT, steps);
            && s.providerMap == LiveMap(s.store) + Leftover(s)
            && (s.providerMap == LiveMap(s.store) <==> Leftover(s) == map[])
  {
    var s := Exec(INIT, steps);
    forall k
      ensures Entry(s, k) == Target(s, k)
    {
      MapIsLastDone(steps, k);
    }
    TargetsMet(s);
    LeftoverApart(s);
    if s.providerMap == LiveMap(s.store) {
      assert Leftover(s).Keys == {};
    }
  }

  /** So the next tick exports the identity providers of a known type over the live objects, plus the leftover ones. */
  lemma {:induction false} GaugesConverge(steps: seq<Step>, t: IdpType)
    requires Settled(steps) && t in KNOWN_IDP_TYPES
    ensures var s := Exec(INIT, steps);
            IdpGauges(s.providerMap)[t] == |LiveProviders(s.store, t)| + TypeCount(Leftover(s), t)
  {
    OAuthConverges(steps);
    LiveAndLeftoverCounts(Exec(INIT, steps), t);
  }

  /** The gauge of a type is right exactly when no leftover entry lists the type. */
  lemma {:induction false} GaugeRightIffNoLeftover(steps: seq<Step>, t: IdpType)
    requires Settled(steps) && t in KNOWN_IDP_TYPES
    ensures var s := Exec(INIT, steps);
            IdpGauges(s.providerMap)[t] == |LiveProviders(s.store, t)| <==> forall p :: p in Leftover(s) ==> t !in Leftover(s)[p]
  {
    GaugesConverge(steps, t);
    UnlistedIsUncounted(Leftover(Exec(INIT, steps)), t);
  }

  lemma UnlistedIsUncounted(m: ProviderMap, t: IdpType)
    ensures TypeCount(m, t) == 0 <==> forall p :: p in m ==> t !in m[p]
  {
    if p :| p in m && t in m[p] {
      var i :| 0 <= i < |m[p]| && m[p][i] == t;
      assert (p, i) in PlacesOf(m, t);
    } else {
      assert PlacesOf(m, t) == {};
    }
  }

  /** In a run without misreported strips nothing is ever left over between reconciles. */
  lemma {:induction false} NothingLeftover(steps: seq<Step>)
    requires AllReported(steps) && Exec(INIT, steps).phase.Idle?
    ensures Leftover(Exec(INIT, steps)) == map[]
  {
    OAuthFinalizerSafety(steps);
    assert Leftover(Exec(INIT, steps)).Keys == {};
  }

  /** With one, settled is not enough: no object exists, and yet a GitHub provider is exported. */
  lemma {:induction false} SettledYetOvercounted() returns (steps: seq<Step>)
    ensures Settled(steps)
    ensures var s := Exec(INIT, steps);
            s.providerMap != LiveMap(s.store) && IdpGauges(s.providerMap)[GitHub] == 1 && LiveProviders(s.store, GitHub) == {}
  {
    steps := LeakStripped();
    var s := Exec(INIT, steps);
    assert forall k :: Current(s.store, k).None?;
    assert PlacesOf(LEAK_MAP, GitHub) == {(ProviderOf(LEAK_KEY), 0)};
    assert KNOWN_IDP_TYPES[1] == GitHub;
    assert ProviderOf(LEAK_KEY) !in LiveMap(s.store);
  }

  // ---------------------------------------------------------------------------------------------
  // A quiet pass over the objects
  // ---------------------------------------------------------------------------------------------

  /** A reconcile without anyone in between. */
  function Undisturbed(s: State, k: Key): State {
    Apply(Apply(Apply(s, Get(k)), Settle(Delivered)), SetMetric)
  }

  function CaughtUp(s: State, k: Key): State {
    s.(store := EnvApply(s.store, FINALIZER, AdvanceCache(k, Latest(s.store, k))))
  }

  /** One undisturbed reconcile of k that reads the latest version. */
  function FreshReconcile(s: State, k: Key): State {
    Undisturbed(CaughtUp(s, k), k)
  }

  lemma UndisturbedKeeps(s: State, k: Key)
    requires Inv(s)
    ensures Inv(Undisturbed(s, k))
  {
    StepKeeps(s, Get(k));
    StepKeeps(Apply(s, Get(k)), Settle(Delivered));
    StepKeeps(Apply(Apply(s, Get(k)), Settle(Delivered)), SetMetric);
  }

  /** The reconcile makes the entry of k right, and changes neither another entry nor what any object calls for. */
  ghost predicate Corrects(s: State, s': State, k: Key) {
    && Entry(s', k) == Target(s', k)
    && forall c :: Target(s', c) == Target(s, c) && (c != k ==> Entry(s', c) == Entry(s, c))
  }

  lemma SettleLatest(s: State, k: Key, o: OAuth)
    requires StoreInv(s.store, FINALIZER) && Holds(s.store, FINALIZER, k, o) && Current(s.store, k) == Some(o)
    ensures var store := SettledStore(s.store, FINALIZER, k, o, Delivered);
            && !SettleErrs(s.store, FINALIZER, k, o, Delivered)
            && (forall c :: c != k ==> Versions(store, c) == Versions(s.store, c))
            && (Current(store, k).None? ==> o.deleting)
            && (Current(store, k).Some? ==>
                  Current(store, k).value.deleting == o.deleting && Current(store, k).value.payload == o.payload)
  {
    if NeedsUpdate(o, FINALIZER) {
      if o.deleting {
        StripKeeps(s.store, FINALIZER, k, o);
      } else {
        AddKeeps(s.store, FINALIZER, k, o);
      }
    }
  }

  lemma UndisturbedResult(s: State, k: Key, o: OAuth)
    requires s.phase.Idle? && View(s.store, k) == Some(o) && !SettleErrs(s.store, FINALIZER, k, o, Delivered)
    ensures var m := s.providerMap;
            Undisturbed(s, k) ==
            State(SettledStore(s.store, FINALIZER, k, o, Delivered), Idle,
                  if o.deleting then m - {ProviderOf(k)} else m[ProviderOf(k) := TypesOf(o.payload)])
  {
  }

  /** The targets depend on the objects, and where there is none, on the entry. */
  lemma TargetsElsewhere(s: State, s': State, k: Key)
    requires forall c :: c != k ==> Versions(s'.store, c) == Versions(s.store, c)
    requires forall p :: p != ProviderOf(k) ==> (p in s'.providerMap <==> p in s.providerMap)
    requires forall p :: p != ProviderOf(k) && p in s.providerMap ==> s'.providerMap[p] == s.providerMap[p]
    ensures forall c :: c != k ==> Entry(s', c) == Entry(s, c) && Target(s', c) == Target(s, c)
  {
    forall c | c != k
      ensures Entry(s', c) == Entry(s, c) && Target(s', c) == Target(s, c)
    {
      assert ProviderOf(c) != ProviderOf(k);
      assert Versions(s'.store, c) == Versions(s.store, c);
    }
  }

  lemma UndisturbedCorrects(s: State, k: Key)
    requires Inv(s) && s.phase.Idle? && View(s.store, k) == Current(s.store, k)
    ensures var s' := Undisturbed(s, k);
            s'.phase.Idle? && Corrects(s, s', k)
  {
    if View(s.store, k).Some? {
      var o := View(s.store, k).value;
      ReadGivesHold(s.store, FINALIZER, k);
      SettleLatest(s, k, o);
      UndisturbedResult(s, k, o);
      var s' := Undisturbed(s, k);
      TargetsElsewhere(s, s', k);
      assert Target(s', k) == Target(s, k) == Entry(s', k);
    }
  }

  lemma CatchingUp(s: State, k: Key)
    requires Inv(s) && s.phase.Idle?
    ensures var s' := CaughtUp(s, k);
            && Inv(s') && s'.phase.Idle? && View(s'.store, k) == Current(s'.store, k)
            && forall c :: Target(s', c) == Target(s, c) && Entry(s', c) == Entry(s, c)
  {
    EnvKeeps(s.store, FINALIZER, AdvanceCache(k, Latest(s.store, k)));
    assert forall c :: Versions(CaughtUp(s, k).store, c) == Versions(s.store, c);
  }

  /** From any state between reconciles that the invariant allows, leftover entries or not. */
  lemma {:induction false} FreshReconcileCorrects(s: State, k: Key)
    requires Inv(s) && s.phase.Idle?
    ensures Inv(FreshReconcile(s, k)) && FreshReconcile(s, k).phase.Idle?
    ensures Corrects(s, FreshReconcile(s, k), k)
  {
    CatchingUp(s, k);
    UndisturbedKeeps(CaughtUp(s, k), k);
    UndisturbedCorrects(CaughtUp(s, k), k);
  }

  /** A marked object that only this controller still holds back is gone after one undisturbed reconcile, with its entry. */
  lemma {:induction false} MarkedObjectGoes(s: State, k: Key)
    requires Inv(s) && s.phase.Idle?
    requires Current(s.store, k).Some? && Current(s.store, k).value.deleting
    requires Current(s.store, k).value.finalizers != []
    requires forall f :: f in Current(s.store, k).value.finalizers ==> f == FINALIZER
    ensures Current(FreshReconcile(s, k).store, k).None?
    ensures ProviderOf(k) !in FreshReconcile(s, k).providerMap
  {
    var s1, o := CaughtUp(s, k), Current(s.store, k).value;
    CatchingUp(s, k);
    assert Versions(s1.store, k) == Versions(s.store, k);
    assert o.finalizers[0] in o.finalizers;
    ReadGivesHold(s1.store, FINALIZER, k);
    SettleLatest(s1, k, o);
    SettleInWords(s1.store, FINALIZER, k, o, Delivered);
    UndisturbedResult(s1, k, o);
  }

  /** A quiet pass over a list of keys. */
  function QuietPass(s: State, keys: seq<Key>): State {
    if keys == [] then s else FreshReconcile(QuietPass(s, keys[..|keys| - 1]), keys[|keys| - 1])
  }

  lemma {:induction false} QuietPassCorrects(s: State, keys: seq<Key>)
    requires Inv(s) && s.phase.Idle?
    ensures var s' := QuietPass(s, keys);
            && Inv(s') && s'.phase.Idle?
            && forall c :: Target(s', c) == Target(s, c) &&
                           Entry(s', c) == if c in keys then Target(s, c) else Entry(s, c)
  {
    if keys != [] {
      var n := |keys| - 1;
      QuietPassCorrects(s, keys[..n]);
      FreshReconcileCorrects(QuietPass(s, keys[..n]), keys[n]);
      assert keys == keys[..n] + [keys[n]];
    }
  }

  ghost predicate Covers(keys: seq<Key>, store: OAuthStore) {
    forall k :: Current(store, k).Some? ==> k in keys
  }

  /** One quiet pass over the existing objects leaves the live objects, and the leftover entries there were. */
  lemma {:induction false} QuietPassSettles(s: State, keys: seq<Key>)
    requires Inv(s) && s.phase.Idle? && Covers(keys, s.store)
    ensures QuietPass(s, keys).providerMap == LiveMap(s.store) + Leftover(s)
  {
    QuietPassCorrects(s, keys);
    var s' := QuietPass(s, keys);
    var right := s.(providerMap := s'.providerMap);
    forall k
      ensures Entry(right, k) == Target(right, k)
      ensures Current(s.store, k).None? ==> Entry(s', k) == Entry(s, k)
    {
      assert Entry(s', k) == if k in keys then Target(s, k) else Entry(s, k);
    }
    TargetsMet(right);
    SameLeftover(s, right);
  }

  lemma SameLeftover(s: State, s': State)
    requires s'.store == s.store
    requires forall k :: Current(s.store, k).None? ==> Entry(s', k) == Entry(s, k)
    ensures Leftover(s') == Leftover(s)
  {
    forall p: ProviderKey
      ensures Current(s.store, KeyOf(p)).None? ==> (p in s'.providerMap <==> p in s.providerMap)
      ensures Current(s.store, KeyOf(p)).None? && p in s.providerMap ==> s'.providerMap[p] == s.providerMap[p]
    {
      assert ProviderOf(KeyOf(p)) == p;
      if Current(s.store, KeyOf(p)).None? {
        assert Entry(s', KeyOf(p)) == Entry(s, KeyOf(p));
      }
    }
  }

  /**
   After any run, between reconciles, a quiet pass over the existing objects and a tick make the gauge of a known type
   the number of its identity providers over the live objects, plus those of the leftover entries.
   */
  lemma {:induction false} QuietPassConverges(steps: seq<Step>, keys: seq<Key>, t: IdpType)
    requires Exec(INIT, steps).phase.Idle? && Covers(keys, Exec(INIT, steps).store) && t in KNOWN_IDP_TYPES
    ensures var s := Exec(INIT, steps);
            IdpGauges(QuietPass(s, keys).providerMap)[t] == |LiveProviders(s.store, t)| + TypeCount(Leftover(s), t)
  {
    ReachableInv(steps);
    QuietPassSettles(Exec(INIT, steps), keys);
    LiveAndLeftoverCounts(Exec(INIT, steps), t);
  }

  // ---------------------------------------------------------------------------------------------
  // The reconciler
  // ---------------------------------------------------------------------------------------------

  /** What a reconcile does once it has read its object; s is the state just before it settles the finalizer. */
  function StepsOnceRead(s: State, fate: Fate, afterUpdate: seq<EnvStep<seq<IdentityProvider>>>): seq<Step>
    requires s.phase.Got?
  {
    if SettleErrs(s.store, FINALIZER, s.phase.key, s.phase.instance, fate) then [Settle(fate)]
    else [Settle(fate), Others(afterUpdate), SetMetric]
  }

  /** Just before that: the object as it was read, in the store as others have left it by now. */
  function BeforeSettle(s: State, key: Key, afterGet: seq<EnvStep<seq<IdentityProvider>>>): State
    requires View(s.store, key).Some?
  {
    State(EnvRun(s.store, FINALIZER, afterGet), Got(key, View(s.store, key).value), s.providerMap)
  }

  class OAuthReconciler {
    const client: ApiClient<seq<IdentityProvider>>
    const metricsAggregator: AdoptionMetricsAggregator

    constructor (client: ApiClient<seq<IdentityProvider>>, aggregator: AdoptionMetricsAggregator)
      requires client.finalizer == "finalizers.osd.metrics.exporter.openshift.io"
      ensures this.client == client && metricsAggregator == aggregator && client.finalizer == FINALIZER
    {
      this.client := client;
      metricsAggregator := aggregator;
    }

    /** Between reconciles the reconciler holds nothing of its own. */
    ghost function Abstract(): State
      reads client, metricsAggregator
    {
      State(client.store, Idle, metricsAggregator.providerMap)
    }

    /**
     Others act after the read and after the update. The reconcile is this run of the step system, so it keeps safety;
     it fails exactly if its read or its update does, and otherwise the entry becomes that of the object as it was read.
     */
    method Reconcile(key: Key, readFails: bool, afterGet: seq<EnvStep<seq<IdentityProvider>>>,
                     fate: Fate, afterUpdate: seq<EnvStep<seq<IdentityProvider>>>)
      returns (err: bool, ghost steps: seq<Step>)
      requires metricsAggregator.Valid() && client.finalizer == FINALIZER
      modifies client`store, metricsAggregator`providerMap
      ensures metricsAggregator.Valid()
      ensures Abstract() == Exec(old(Abstract()), steps)
      ensures readFails ==> err && steps == []
      ensures !readFails ==>
                match old(View(client.store, key))
                case None => !err && steps == [Get(key)]
                case Some(o) =>
                  var s := BeforeSettle(old(Abstract()), key, afterGet);
                  && (err <==>
                        && (if o.deleting then FINALIZER in o.finalizers else FINALIZER !in o.finalizers)
                        && !(IsCurrent(s.store, key, o) && fate == Delivered))
                  && steps == [Get(key), Others(afterGet)] + StepsOnceRead(s, fate, afterUpdate)
      ensures err ==> metricsAggregator.providerMap == old(metricsAggregator.providerMap)
      ensures !err ==>
                var m, m' := old(metricsAggregator.providerMap), metricsAggregator.providerMap;
                match old(View(client.store, key))
                case None => m' == m
                case Some(o) =>
                  var p := ProviderKey(key.name, key.namespace);
                  m' == if o.deleting then m - {p} else m[p := TypesOf(o.payload)]
    {
      ghost var start := Abstract();
      var read := client.Get(key, readFails);
      if read.ReadFailed? {
        return true, [];
      }
      assert [] + [Get(key)] == [Get(key)];
      ExecStep(start, [], Get(key));
      if read.NotFound? {
        return false, [Get(key)];
      }
      assert [Get(key)] + [Others(afterGet)] == [Get(key), Others(afterGet)];
      ExecStep(start, [Get(key)], Others(afterGet));
      client.Others(afterGet);
      ghost var rest;
      err, rest := ReconcileObject(key, read.value, fate, afterUpdate);
      FoldConcat(Apply, start, [Get(key), Others(afterGet)], rest);
      steps := [Get(key), Others(afterGet)] + rest;
    }

    /** The two branches, for the object as it was read: settle the finalizer first, then the metric. */
    method ReconcileObject(key: Key, o: OAuth, fate: Fate, afterUpdate: seq<EnvStep<seq<IdentityProvider>>>)
      returns (err: bool, ghost steps: seq<Step>)
      requires metricsAggregator.Valid() && client.finalizer == FINALIZER
      modifies client`store, metricsAggregator`providerMap
      ensures metricsAggregator.Valid()
      ensures var s := old(Abstract()).(phase := Got(key, o));
              && Abstract() == Exec(s, steps)
              && (err <==> SettleErrs(s.store, FINALIZER, key, o, fate))
              && steps == StepsOnceRead(s, fate, afterUpdate)
      ensures var m, p := old(metricsAggregator.providerMap), ProviderKey(key.name, key.namespace);
              metricsAggregator.providerMap ==
              if err then m else if o.deleting then m - {p} else m[p := TypesOf(o.payload)]
    {
      ghost var start := Abstract().(phase := Got(key, o));
      err := client.SettleFinalizer(key, o, fate);
      steps := [Settle(fate)];
      assert [] + [Settle(fate)] == steps;
      ExecStep(start, [], Settle(fate));
      if err {
        return;
      }
      ExecStep(start, steps, Others(afterUpdate));
      steps := steps + [Others(afterUpdate)];
      client.Others(afterUpdate);
      ExecStep(start, steps, SetMetric);
      steps := steps + [SetMetric];
      if o.deleting {
        metricsAggregator.DeleteOAuthIDP(key.name, key.namespace);
      } else {
        metricsAggregator.SetOAuthIDP(key.name, key.namespace, o.payload);
      }
    }
  }
}
