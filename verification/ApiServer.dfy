/**
 The API server as the finalizer protocols see it: versioned objects with a deletion mark and a finalizer list, and
 a read cache that lags behind but never goes back. An object that is marked and has no finalizers left is gone.
 */
module ApiServer {
  import opened Options

  datatype Key = Key(name: string, namespace: string)

  datatype Object<T> = Object(version: nat, deleting: bool, finalizers: seq<string>, payload: T)

  /** All that was ever stored under a key, oldest first, starting from nothing; and how far the cache has got. */
  datatype Store<T> = Store(history: map<Key, seq<Option<Object<T>>>>, cached: map<Key, nat>, nextVersion: nat)

  function Versions<T>(s: Store<T>, k: Key): seq<Option<Object<T>>> {
    if k in s.history && s.history[k] != [] then s.history[k] else [None]
  }

  function Latest<T>(s: Store<T>, k: Key): nat {
    |Versions(s, k)| - 1
  }

  function Current<T>(s: Store<T>, k: Key): Option<Object<T>> {
    Versions(s, k)[Latest(s, k)]
  }

  function CacheIndex<T>(s: Store<T>, k: Key): (i: nat)
    ensures i <= Latest(s, k)
  {
    if k in s.cached && s.cached[k] <= Latest(s, k) then s.cached[k] else 0
  }

  /** What a read returns. */
  function View<T>(s: Store<T>, k: Key): Option<Object<T>> {
    Versions(s, k)[CacheIndex(s, k)]
  }

  function Write<T>(s: Store<T>, k: Key, entry: Option<Object<T>>): Store<T> {
    s.(history := s.history[k := Versions(s, k) + [entry]], nextVersion := s.nextVersion + 1)
  }

  /** Stores an object under a fresh version; a marked object without finalizers is removed instead. */
  function Put<T>(s: Store<T>, k: Key, o: Object<T>): Store<T> {
    Write(s, k, if o.deleting && o.finalizers == [] then None else Some(o.(version := s.nextVersion)))
  }

  /** The version check of an update. */
  predicate IsCurrent<T>(s: Store<T>, k: Key, o: Object<T>) {
    Current(s, k).Some? && Current(s, k).value.version == o.version
  }

  predicate HasFinalizer<T>(entry: Option<Object<T>>, fin: string) {
    entry.Some? && fin in entry.value.finalizers
  }

  // ---------------------------------------------------------------------------------------------
  // What everyone else may do
  // ---------------------------------------------------------------------------------------------

  datatype EnvStep<T> =
    | Create(key: Key, finalizers: seq<string>, payload: T)
    | Edit(key: Key, finalizers: seq<string>, payload: T)
    | MarkDeleted(key: Key)
    | AdvanceCache(key: Key, index: nat)

  /** Nobody else strips the controller's finalizer, and the server takes no new finalizers on a marked object. */
  predicate EnvEnabled<T>(s: Store<T>, fin: string, e: EnvStep<T>) {
    match e
    case Create(k, _, _) => Current(s, k).None?
    case Edit(k, finalizers, _) =>
      && Current(s, k).Some?
      && (HasFinalizer(Current(s, k), fin) ==> fin in finalizers)
      && (Current(s, k).value.deleting ==> forall f :: f in finalizers ==> f in Current(s, k).value.finalizers)
    case MarkDeleted(k) => Current(s, k).Some? && !Current(s, k).value.deleting
    case AdvanceCache(k, i) => CacheIndex(s, k) <= i <= Latest(s, k)
  }

  /** A step that is not enabled is refused. */
  function EnvApply<T>(s: Store<T>, fin: string, e: EnvStep<T>): Store<T> {
    if !EnvEnabled(s, fin, e) then s
    else
      match e
      case Create(k, finalizers, payload) => Put(s, k, Object(s.nextVersion, false, finalizers, payload))
      case Edit(k, finalizers, payload) => Put(s, k, Current(s, k).value.(finalizers := finalizers, payload := payload))
      case MarkDeleted(k) => Put(s, k, Current(s, k).value.(deleting := true))
      case AdvanceCache(k, i) => s.(cached := s.cached[k := i])
  }

  function EnvRun<T>(s: Store<T>, fin: string, env: seq<EnvStep<T>>): Store<T> {
    if env == [] then s else EnvApply(EnvRun(s, fin, env[..|env| - 1]), fin, env[|env| - 1])
  }

  lemma EnvRunOne<T>(s: Store<T>, fin: string, e: EnvStep<T>)
    ensures EnvRun(s, fin, [e]) == EnvApply(s, fin, e)
  {
    assert [e][..0] == [];
  }

  // ---------------------------------------------------------------------------------------------
  // What a controller does about its finalizer
  // ---------------------------------------------------------------------------------------------

  function AddFinalizer(finalizers: seq<string>, fin: string): (r: seq<string>)
    ensures forall f :: f in r <==> f in finalizers || f == fin
  {
    if fin in finalizers then finalizers else finalizers + [fin]
  }

  function RemoveFinalizer(finalizers: seq<string>, fin: string): (r: seq<string>)
    ensures forall f :: f in r <==> f in finalizers && f != fin
  {
    if finalizers == [] then []
    else (if finalizers[0] == fin then [] else [finalizers[0]]) + RemoveFinalizer(finalizers[1..], fin)
  }

  /** The controller's own updates. */
  function Added<T>(o: Object<T>, fin: string): Object<T> {
    o.(finalizers := AddFinalizer(o.finalizers, fin))
  }

  function Stripped<T>(o: Object<T>, fin: string): Object<T> {
    o.(finalizers := RemoveFinalizer(o.finalizers, fin))
  }

  predicate NeedsUpdate<T>(o: Object<T>, fin: string) {
    if o.deleting then fin in o.finalizers else fin !in o.finalizers
  }

  function Updated<T>(o: Object<T>, fin: string): Object<T> {
    if o.deleting then Stripped(o, fin) else Added(o, fin)
  }

  /** What becomes of an update call beyond the version check; a lost one is applied, but an error is reported. */
  datatype Fate = Delivered | Refused | Lost

  /** The store after a controller that read o has settled its finalizer; without need the server is not called. */
  function SettledStore<T>(s: Store<T>, fin: string, k: Key, o: Object<T>, fate: Fate): Store<T> {
    if NeedsUpdate(o, fin) && IsCurrent(s, k, o) && fate != Refused then Put(s, k, Updated(o, fin)) else s
  }

  /** The controller is told that its update failed. */
  predicate SettleErrs<T>(s: Store<T>, fin: string, k: Key, o: Object<T>, fate: Fate) {
    NeedsUpdate(o, fin) && !(IsCurrent(s, k, o) && fate == Delivered)
  }

  // ---------------------------------------------------------------------------------------------
  // Invariant
  // ---------------------------------------------------------------------------------------------

  /** Version i carries the finalizer and the next one does not. */
  predicate IsLoss<T>(h: seq<Option<Object<T>>>, i: int, fin: string) {
    0 <= i < |h| - 1 && HasFinalizer(h[i], fin) && !HasFinalizer(h[i + 1], fin)
  }

  ghost predicate VersionsGrow<T>(h: seq<Option<Object<T>>>, next: nat) {
    && (forall i :: 0 <= i < |h| && h[i].Some? ==> h[i].value.version < next)
    && forall i, j :: 0 <= i < j < |h| && h[i].Some? && h[j].Some? ==> h[i].value.version < h[j].value.version
  }

  /** The finalizer was only ever lost from a version that was marked deleted and had already been read. */
  ghost predicate LossesRead<T>(h: seq<Option<Object<T>>>, cached: int, fin: string) {
    forall i :: IsLoss(h, i, fin) ==> h[i].value.deleting && i <= cached
  }

  ghost predicate KeyInv<T>(s: Store<T>, fin: string, k: Key) {
    && (k in s.cached ==> s.cached[k] <= Latest(s, k))
    && VersionsGrow(Versions(s, k), s.nextVersion)
    && LossesRead(Versions(s, k), CacheIndex(s, k), fin)
  }

  ghost predicate StoreInv<T>(s: Store<T>, fin: string) {
    forall k :: KeyInv(s, fin, k)
  }

  /** The controller holds object o, read at version r, and the finalizer was not lost after that version. */
  ghost predicate ReadAt<T>(s: Store<T>, fin: string, k: Key, o: Object<T>, r: nat) {
    && r <= CacheIndex(s, k)
    && Versions(s, k)[r] == Some(o)
    && forall i :: IsLoss(Versions(s, k), i, fin) ==> i <= r
  }

  ghost predicate Holds<T>(s: Store<T>, fin: string, k: Key, o: Object<T>) {
    exists r: nat :: ReadAt(s, fin, k, o, r)
  }

  /** Appending a version adds at most one loss, at the version that was the latest. */
  lemma LossesAfterAppend<T>(h: seq<Option<Object<T>>>, entry: Option<Object<T>>, fin: string, i: int)
    requires h != []
    ensures IsLoss(h + [entry], i, fin) <==>
            IsLoss(h, i, fin) || (i == |h| - 1 && HasFinalizer(h[i], fin) && !HasFinalizer(entry, fin))
  {
  }

  lemma WriteKeepsKey<T>(s: Store<T>, fin: string, k: Key, entry: Option<Object<T>>)
    requires KeyInv(s, fin, k)
    requires entry.Some? ==> entry.value.version == s.nextVersion
    requires HasFinalizer(Current(s, k), fin) && !HasFinalizer(entry, fin) ==>
               Current(s, k).value.deleting && CacheIndex(s, k) == Latest(s, k)
    ensures KeyInv(Write(s, k, entry), fin, k)
  {
    var h, s' := Versions(s, k), Write(s, k, entry);
    assert Versions(s', k) == h + [entry];
    assert CacheIndex(s', k) == CacheIndex(s, k);
    forall i
      ensures IsLoss(h + [entry], i, fin) ==> (h + [entry])[i].value.deleting && i <= CacheIndex(s, k)
    {
      LossesAfterAppend(h, entry, fin, i);
    }
  }

  /** Writing a version touches its own key only; the finalizer may go from a marked version the cache has reached. */
  lemma WriteKeeps<T>(s: Store<T>, fin: string, k: Key, entry: Option<Object<T>>)
    requires StoreInv(s, fin)
    requires entry.Some? ==> entry.value.version == s.nextVersion
    requires HasFinalizer(Current(s, k), fin) && !HasFinalizer(entry, fin) ==>
               Current(s, k).value.deleting && CacheIndex(s, k) == Latest(s, k)
    ensures StoreInv(Write(s, k, entry), fin)
    ensures Current(Write(s, k, entry), k) == entry
    ensures forall c :: c != k ==> Versions(Write(s, k, entry), c) == Versions(s, c)
  {
    WriteKeepsKey(s, fin, k, entry);
    forall c | c != k
      ensures KeyInv(Write(s, k, entry), fin, c)
    {
      assert KeyInv(s, fin, c);
    }
  }

  /** What a controller has read stays read while others write, as long as the finalizer is not lost by that. */
  lemma WriteKeepsHeld<T>(s: Store<T>, fin: string, k: Key, entry: Option<Object<T>>, c: Key, o: Object<T>)
    requires StoreInv(s, fin) && Holds(s, fin, c, o)
    requires HasFinalizer(Current(s, k), fin) ==> HasFinalizer(entry, fin)
    ensures Holds(Write(s, k, entry), fin, c, o)
  {
    var r: nat :| ReadAt(s, fin, c, o, r);
    var s' := Write(s, k, entry);
    assert KeyInv(s, fin, c);
    if c == k {
      assert Versions(s', c) == Versions(s, c) + [entry];
      forall i ensures IsLoss(Versions(s', c), i, fin) ==> i <= r {
        LossesAfterAppend(Versions(s, c), entry, fin, i);
      }
    }
    assert ReadAt(s', fin, c, o, r);
  }

  // ---------------------------------------------------------------------------------------------
  // Steps
  // ---------------------------------------------------------------------------------------------

  lemma CacheKeeps<T>(s: Store<T>, fin: string, k: Key, i: nat)
    requires StoreInv(s, fin) && CacheIndex(s, k) <= i <= Latest(s, k)
    ensures StoreInv(s.(cached := s.cached[k := i]), fin)
    ensures forall c, o :: Holds(s, fin, c, o) ==> Holds(s.(cached := s.cached[k := i]), fin, c, o)
  {
    var s' := s.(cached := s.cached[k := i]);
    forall c ensures KeyInv(s', fin, c) { assert KeyInv(s, fin, c); }
    forall c, o | Holds(s, fin, c, o) ensures Holds(s', fin, c, o) {
      var r: nat :| ReadAt(s, fin, c, o, r);
      assert ReadAt(s', fin, c, o, r);
    }
  }

  /** Whatever others do, the invariant stays, what was read stays read, and no finalizer of the controller is lost. */
  lemma EnvKeeps<T>(s: Store<T>, fin: string, e: EnvStep<T>)
    requires StoreInv(s, fin)
    ensures StoreInv(EnvApply(s, fin, e), fin)
    ensures forall c, o :: Holds(s, fin, c, o) ==> Holds(EnvApply(s, fin, e), fin, c, o)
    ensures forall c :: HasFinalizer(Current(s, c), fin) ==> HasFinalizer(Current(EnvApply(s, fin, e), c), fin)
  {
    var s' := EnvApply(s, fin, e);
    if EnvEnabled(s, fin, e) {
      if e.AdvanceCache? {
        CacheKeeps(s, fin, e.key, e.index);
      } else {
        var entry := Current(s', e.key);
        assert s' == Write(s, e.key, entry);
        WriteKeeps(s, fin, e.key, entry);
        forall c, o | Holds(s, fin, c, o) ensures Holds(s', fin, c, o) {
          WriteKeepsHeld(s, fin, e.key, entry, c, o);
        }
      }
    }
  }

  lemma {:induction false} EnvRunKeeps<T>(s: Store<T>, fin: string, env: seq<EnvStep<T>>)
    requires StoreInv(s, fin)
    ensures StoreInv(EnvRun(s, fin, env), fin)
    ensures forall c, o :: Holds(s, fin, c, o) ==> Holds(EnvRun(s, fin, env), fin, c, o)
    ensures forall c :: HasFinalizer(Current(s, c), fin) ==> HasFinalizer(Current(EnvRun(s, fin, env), c), fin)
  {
    if env != [] {
      var n := |env| - 1;
      EnvRunKeeps(s, fin, env[..n]);
      EnvKeeps(EnvRun(s, fin, env[..n]), fin, env[n]);
    }
  }

  lemma ReadGivesHold<T>(s: Store<T>, fin: string, k: Key)
    requires StoreInv(s, fin) && View(s, k).Some?
    ensures Holds(s, fin, k, View(s, k).value)
  {
    assert KeyInv(s, fin, k);
    assert ReadAt(s, fin, k, View(s, k).value, CacheIndex(s, k));
  }

  lemma {:induction false} KeptToTheEnd<T>(h: seq<Option<Object<T>>>, fin: string, r: nat, n: nat)
    requires r <= n < |h| && HasFinalizer(h[r], fin)
    requires forall i :: r <= i < n ==> !IsLoss(h, i, fin)
    ensures HasFinalizer(h[n], fin)
  {
    if r < n {
      KeptToTheEnd(h, fin, r, n - 1);
      assert !IsLoss(h, n - 1, fin);
    }
  }

  /** Stale or not: an unmarked object read with the finalizer on it still exists, with the finalizer. */
  lemma HeldFinalizerStands<T>(s: Store<T>, fin: string, k: Key, o: Object<T>)
    requires StoreInv(s, fin) && Holds(s, fin, k, o)
    requires !o.deleting && fin in o.finalizers
    ensures HasFinalizer(Current(s, k), fin)
  {
    var r: nat :| ReadAt(s, fin, k, o, r);
    assert KeyInv(s, fin, k);
    KeptToTheEnd(Versions(s, k), fin, r, Latest(s, k));
  }

  /** The version check passes only for the very object the server holds. */
  lemma CurrentIsHeld<T>(s: Store<T>, fin: string, k: Key, o: Object<T>)
    requires StoreInv(s, fin) && Holds(s, fin, k, o) && IsCurrent(s, k, o)
    ensures Current(s, k) == Some(o) && CacheIndex(s, k) == Latest(s, k)
  {
    var r: nat :| ReadAt(s, fin, k, o, r);
    assert KeyInv(s, fin, k);
  }

  lemma AddKeeps<T>(s: Store<T>, fin: string, k: Key, o: Object<T>)
    requires StoreInv(s, fin) && Holds(s, fin, k, o) && IsCurrent(s, k, o) && !o.deleting
    ensures var s' := Put(s, k, Added(o, fin));
            && StoreInv(s', fin)
            && HasFinalizer(Current(s', k), fin)
            && (forall c :: c != k ==> Versions(s', c) == Versions(s, c))
            && Current(s', k) == Some(Added(o, fin).(version := s.nextVersion))
  {
    CurrentIsHeld(s, fin, k, o);
    WriteKeeps(s, fin, k, Some(Added(o, fin).(version := s.nextVersion)));
  }

  lemma StripKeeps<T>(s: Store<T>, fin: string, k: Key, o: Object<T>)
    requires StoreInv(s, fin) && Holds(s, fin, k, o) && IsCurrent(s, k, o) && o.deleting
    ensures var s' := Put(s, k, Stripped(o, fin));
            && StoreInv(s', fin)
            && !HasFinalizer(Current(s', k), fin)
            && (forall c :: c != k ==> Versions(s', c) == Versions(s, c))
            && (Current(s', k).Some? ==> Current(s', k).value == Stripped(o, fin).(version := s.nextVersion))
  {
    CurrentIsHeld(s, fin, k, o);
    WriteKeeps(s, fin, k, Current(Put(s, k, Stripped(o, fin)), k));
  }

  /**
   What settling does to the store. The server is called only if the finalizer is missing from an unmarked object, or
   present on a marked one. A call that takes effect changes that finalizer alone; it removes a marked object that has
   no other.
   */
  lemma SettleInWords<T>(s: Store<T>, fin: string, k: Key, o: Object<T>, fate: Fate)
    ensures var s' := SettledStore(s, fin, k, o, fate);
            var needed := if o.deleting then fin in o.finalizers else fin !in o.finalizers;
            var current := Current(s, k).Some? && Current(s, k).value.version == o.version;
            && (SettleErrs(s, fin, k, o, fate) <==> needed && !(current && fate == Delivered))
            && (!(needed && current && fate != Refused) ==> s' == s)
            && (needed && current && fate != Refused ==>
                  && (forall c :: c != k ==> Versions(s', c) == Versions(s, c))
                  && match Current(s', k)
                     case None => o.deleting && forall f :: f in o.finalizers ==> f == fin
                     case Some(n) =>
                       && n.deleting == o.deleting && n.payload == o.payload && n.version == s.nextVersion
                       && (forall f :: f in n.finalizers <==> if f == fin then !o.deleting else f in o.finalizers)
                       && (o.deleting ==> exists f :: f in o.finalizers && f != fin))
  {
    var n := Updated(o, fin);
    if o.deleting && n.finalizers != [] {
      assert n.finalizers[0] in n.finalizers;
    }
  }

  /**
   Settling the finalizer keeps the invariant and writes nothing else. An unmarked object is guarded if the controller
   is told so; a marked one that is written has lost the finalizer, whatever the controller is told.
   */
  lemma SettleKeeps<T>(s: Store<T>, fin: string, k: Key, o: Object<T>, fate: Fate)
    requires StoreInv(s, fin) && Holds(s, fin, k, o)
    ensures var s' := SettledStore(s, fin, k, o, fate);
            && StoreInv(s', fin)
            && (forall c :: c != k ==> Versions(s', c) == Versions(s, c))
            && (!o.deleting && !SettleErrs(s, fin, k, o, fate) ==> HasFinalizer(Current(s', k), fin))
            && (!o.deleting && HasFinalizer(Current(s, k), fin) ==> HasFinalizer(Current(s', k), fin))
            && (o.deleting && NeedsUpdate(o, fin) && IsCurrent(s, k, o) && fate != Refused ==>
                  !HasFinalizer(Current(s', k), fin))
  {
    if NeedsUpdate(o, fin) && IsCurrent(s, k, o) && fate != Refused {
      if o.deleting {
        StripKeeps(s, fin, k, o);
      } else {
        AddKeeps(s, fin, k, o);
      }
    } else if !o.deleting && !NeedsUpdate(o, fin) {
      HeldFinalizerStands(s, fin, k, o);
    }
  }

  // ---------------------------------------------------------------------------------------------
  // The client a controller calls
  // ---------------------------------------------------------------------------------------------

  datatype ReadResult<T> = Found(value: Object<T>) | NotFound | ReadFailed

  class ApiClient<T> {
    const finalizer: string
    var store: Store<T>

    constructor (finalizer: string)
      ensures this.finalizer == finalizer && store == Store(map[], map[], 0)
    {
      this.finalizer := finalizer;
      store := Store(map[], map[], 0);
    }

    /** Reads through the cache, unless the read itself fails. */
    method Get(k: Key, fails: bool) returns (r: ReadResult<T>)
      ensures r == if fails then ReadFailed else match View(store, k) case None => NotFound case Some(o) => Found(o)
    {
      if fails {
        return ReadFailed;
      }
      var o := View(store, k);
      r := if o.None? then NotFound else Found(o.value);
    }

    /** The object written back carries the version it was read at. */
    method Update(k: Key, o: Object<T>, fate: Fate) returns (ok: bool)
      modifies this`store
      ensures ok <==> IsCurrent(old(store), k, o) && fate == Delivered
      ensures store == if IsCurrent(old(store), k, o) && fate != Refused then Put(old(store), k, o) else old(store)
    {
      if fate == Refused || !IsCurrent(store, k, o) {
        return false;
      }
      store := Put(store, k, o);
      ok := fate == Delivered;
    }

    /** Adds or strips the finalizer in place and writes the object back, if there is anything to do. */
    method SettleFinalizer(k: Key, o: Object<T>, fate: Fate) returns (err: bool)
      modifies this`store
      ensures err <==> SettleErrs(old(store), finalizer, k, o, fate)
      ensures store == SettledStore(old(store), finalizer, k, o, fate)
    {
      var instance := o;
      var hasFinalizer := ContainsString(instance.finalizers, finalizer);
      if !instance.deleting {
        if !hasFinalizer {
          instance := instance.(finalizers := AddFinalizer(instance.finalizers, finalizer));
          var ok := Update(k, instance, fate);
          return !ok;
        }
      } else {
        if hasFinalizer {
          instance := instance.(finalizers := RemoveFinalizer(instance.finalizers, finalizer));
          var ok := Update(k, instance, fate);
          return !ok;
        }
      }
      err := false;
    }

    /** Everyone else, between two steps of the controller. */
    method Others(env: seq<EnvStep<T>>)
      modifies this`store
      ensures store == EnvRun(old(store), finalizer, env)
    {
      for i := 0 to |env|
        invariant store == EnvRun(old(store), finalizer, env[..i])
      {
        assert env[..i + 1][..i] == env[..i];
        store := EnvApply(store, finalizer, env[i]);
      }
      assert env[..|env|] == env;
    }
  }

  method ContainsString(stringArray: seq<string>, candidate: string) returns (found: bool)
    ensures found <==> candidate in stringArray
  {
    for i := 0 to |stringArray|
      invariant candidate !in stringArray[..i]
    {
      if stringArray[i] == candidate {
        return true;
      }
    }
    found := false;
  }
}
