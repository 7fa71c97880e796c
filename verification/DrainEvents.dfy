/** Which event the machine controller acts on: the newest drain failure among a machine's events. */
module DrainEvents {
  import opened Options
  import opened Texts

  /** Times are integers on one clock, as the comparisons of the Go time type see them. */
  datatype Event = Event(involvedObject: string, reason: string, message: string, lastTimestamp: int)

  /** The field selector of the list call: the events about one object, in order. */
  function Involving(items: seq<Event>, name: string): seq<Event> {
    if items == [] then []
    else (if items[0].involvedObject == name then [items[0]] else []) + Involving(items[1..], name)
  }

  lemma {:induction false} InvolvingContent(items: seq<Event>, name: string)
    ensures forall e :: e in Involving(items, name) <==> e in items && e.involvedObject == name
  {
    if items != [] {
      InvolvingContent(items[1..], name);
    }
  }

  /** The order of the list is kept. */
  lemma {:induction false} InvolvingInOrder(items: seq<Event>, more: seq<Event>, name: string)
    ensures Involving(items + more, name) == Involving(items, name) + Involving(more, name)
  {
    if items == [] {
      assert items + more == more;
    } else {
      InvolvingInOrder(items[1..], more, name);
      assert (items + more)[1..] == items[1..] + more;
    }
  }

  predicate IsErrorEvictingPodsEvent(event: Event) {
    event.reason == "DrainRequeued" && Contains(event.message, "error when evicting pods")
  }

  /** Compares two events of a list by index; the first may be nil. */
  function GetMostRecentEvent(items: seq<Event>, a: Option<nat>, b: nat): Option<nat>
    requires b < |items| && (a.Some? ==> a.value < |items|)
  {
    if a.None? then Some(b)
    else if items[a.value].lastTimestamp < items[b].lastTimestamp then Some(b)
    else a
  }

  /** The errNoEvents sentinel, or an optional pointer into the list. */
  datatype Selection = ErrNoEvents | Selected(index: Option<nat>)

  /** Item i is a drain failure, none is newer, and it comes before every other of the same age. */
  ghost predicate IsNewestDrainFailure(items: seq<Event>, i: nat) {
    && i < |items|
    && IsErrorEvictingPodsEvent(items[i])
    && forall j :: 0 <= j < |items| && IsErrorEvictingPodsEvent(items[j]) ==>
                     && items[j].lastTimestamp <= items[i].lastTimestamp
                     && (items[j].lastTimestamp == items[i].lastTimestamp ==> i <= j)
  }

  ghost predicate IsSelection(items: seq<Event>, r: Selection) {
    match r
    case ErrNoEvents => items == []
    case Selected(None) => items != [] && forall j :: 0 <= j < |items| ==> !IsErrorEvictingPodsEvent(items[j])
    case Selected(Some(i)) => IsNewestDrainFailure(items, i)
  }

  /** A drain failure is recognised by its reason and by a text that stands somewhere in its message. */
  lemma DrainFailureInWords(event: Event)
    ensures IsErrorEvictingPodsEvent(event) <==>
            event.reason == "DrainRequeued" && exists i :: OccursAt(event.message, "error when evicting pods", i)
  {
    if event.reason == "DrainRequeued" {
      if i :| OccursAt(event.message, "error when evicting pods", i) {
        assert 0 <= i <= |event.message|;
      }
    }
  }

  method GetMostRecentDrainFailedEvent(items: seq<Event>) returns (r: Selection)
    ensures r == NewestDrainFailure(items)
    ensures r.ErrNoEvents? <==> items == []
    ensures r == Selected(None) <==>
            items != [] && forall j :: 0 <= j < |items| ==> !IsErrorEvictingPodsEvent(items[j])
    ensures r.Selected? && r.index.Some? ==>
              var i := r.index.value;
              && i < |items| && IsErrorEvictingPodsEvent(items[i])
              && (forall j :: 0 <= j < |items| && IsErrorEvictingPodsEvent(items[j]) ==>
                                items[j].lastTimestamp <= items[i].lastTimestamp)
              && (forall j :: 0 <= j < i && IsErrorEvictingPodsEvent(items[j]) ==>
                                items[j].lastTimestamp < items[i].lastTimestamp)
  {
    if |items| == 0 {
      return ErrNoEvents;
    }
    var newest: Option<nat> := None;
    for i := 0 to |items|
      invariant newest.None? ==> forall j :: 0 <= j < i ==> !IsErrorEvictingPodsEvent(items[j])
      invariant newest.Some? ==> newest.value < i && IsNewestDrainFailure(items[..i], newest.value)
    {
      if !IsErrorEvictingPodsEvent(items[i]) {
        continue;
      }
      newest := GetMostRecentEvent(items, newest, i);
    }
    assert items[..|items|] == items;
    r := Selected(newest);
    SelectionUnique(items, r);
  }

  /** The selection is a function of the list. */
  ghost function NewestDrainFailure(items: seq<Event>): (r: Selection)
    ensures IsSelection(items, r)
  {
    SelectionExists(items);
    var r :| IsSelection(items, r);
    r
  }

  lemma {:induction false} SelectionExists(items: seq<Event>)
    ensures exists r :: IsSelection(items, r)
  {
    if items == [] {
      assert IsSelection(items, ErrNoEvents);
    } else {
      var n := |items| - 1;
      var shorter := items[..n];
      SelectionExists(shorter);
      var r :| IsSelection(shorter, r);
      if !IsErrorEvictingPodsEvent(items[n]) {
        var r' := if r.ErrNoEvents? then Selected(None) else r;
        assert IsSelection(items, r');
      } else if r.ErrNoEvents? || r.index.None? || shorter[r.index.value].lastTimestamp < items[n].lastTimestamp {
        assert IsSelection(items, Selected(Some(n)));
      } else {
        assert IsSelection(items, r);
      }
    }
  }

  lemma SelectionUnique(items: seq<Event>, r: Selection)
    requires IsSelection(items, r)
    ensures r == NewestDrainFailure(items)
  {
  }

  // ---------------------------------------------------------------------------------------------
  // Reordering the list
  // ---------------------------------------------------------------------------------------------

  ghost predicate DistinctTimes(items: seq<Event>) {
    forall i, j :: 0 <= i < j < |items| && IsErrorEvictingPodsEvent(items[i]) && IsErrorEvictingPodsEvent(items[j]) ==>
                     items[i].lastTimestamp != items[j].lastTimestamp
  }

  lemma Elsewhere(items: seq<Event>, other: seq<Event>, i: nat) returns (j: nat)
    requires multiset(items) == multiset(other) && i < |items|
    ensures j < |other| && other[j] == items[i]
  {
    assert items[i] in multiset(items);
    assert items[i] in other;
    j :| 0 <= j < |other| && other[j] == items[i];
  }

  lemma NotOlder(items: seq<Event>, other: seq<Event>, i: nat)
    requires multiset(items) == multiset(other)
    requires NewestDrainFailure(items) == Selected(Some(i))
    ensures exists k: nat :: k < |other| && NewestDrainFailure(other) == Selected(Some(k)) &&
                             items[i].lastTimestamp <= other[k].lastTimestamp
  {
    var j := Elsewhere(items, other, i);
    var r := NewestDrainFailure(other);
    assert IsSelection(other, r);
    assert IsErrorEvictingPodsEvent(other[j]);
  }

  /** The list order decides neither whether an event is found nor how old it is; without ties, nor which one. */
  lemma ReorderingEvents(items: seq<Event>, other: seq<Event>)
    requires multiset(items) == multiset(other)
    ensures var r, r' := NewestDrainFailure(items), NewestDrainFailure(other);
            && (r.ErrNoEvents? <==> r'.ErrNoEvents?)
            && (r.Selected? && r'.Selected? ==>
                  && (r.index.Some? <==> r'.index.Some?)
                  && (r.index.Some? && r'.index.Some? ==>
                        && items[r.index.value].lastTimestamp == other[r'.index.value].lastTimestamp
                        && (DistinctTimes(items) ==> items[r.index.value] == other[r'.index.value])))
  {
    var r, r' := NewestDrainFailure(items), NewestDrainFailure(other);
    assert |items| == |multiset(items)| == |multiset(other)| == |other|;
    if r.Selected? && r.index.Some? {
      NotOlder(items, other, r.index.value);
    }
    if r'.Selected? && r'.index.Some? {
      NotOlder(other, items, r'.index.value);
    }
    if r.Selected? && r'.Selected? && r.index.Some? && r'.index.Some? {
      var back := Elsewhere(other, items, r'.index.value);
      assert items[back].lastTimestamp == items[r.index.value].lastTimestamp;
    }
  }
}
