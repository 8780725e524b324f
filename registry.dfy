/** The handler multimap both registries keep: subject -> handlers in registration order. */
module Registry {
  import opened Collections
  import opened Handlers

  /** Every handler is stored under its own subject. */
  ghost predicate SubjectsAreKeys(m: MultiMap<Handler>) {
    forall k, i :: 0 <= i < |m.Get(k)| ==> m.Get(k)[i].subject == k
  }

  ghost predicate WellFormed(m: MultiMap<Handler>) {
    m.Wf() && SubjectsAreKeys(m)
  }

  function HasSubject(subject: string): Handler -> bool {
    (h: Handler) => h.subject == subject
  }

  function NotOwnedBy(listener: string): Handler -> bool {
    (h: Handler) => h.listener != listener
  }

  /**
   * The handlers for a fired class: those registered for the class itself or
   * for one of its ancestors (`is_subclass_of` is strict, hence the equality test).
   */
  function Matching(eventClass: string, isSubclassOf: (string, string) -> bool): Handler -> bool {
    (h: Handler) => h.subject == eventClass || isSubclassOf(eventClass, h.subject)
  }

  lemma PutKeepsWellFormed(m: MultiMap<Handler>, h: Handler)
    requires WellFormed(m)
    ensures WellFormed(m.Put(h.subject, h))
  {
    PutKeepsWf(m, h.subject, h);
    var r := m.Put(h.subject, h);
    forall k, i | 0 <= i < |r.Get(k)|
      ensures r.Get(k)[i].subject == k
    {
      if k == h.subject && i == |m.Get(k)| {
        assert r.Get(k)[i] == h;
      } else if k == h.subject {
        assert r.Get(k)[i] == m.Get(k)[i];
      }
    }
  }

  /** Puts each handler under its subject, in order. */
  function Store(m: MultiMap<Handler>, hs: seq<Handler>): MultiMap<Handler>
    decreases |hs|
  {
    if hs == [] then m else Store(m.Put(hs[0].subject, hs[0]), hs[1..])
  }

  /** Storing adds exactly the given handlers to what the registry holds. */
  lemma {:induction false} StoreAddsExactly(m: MultiMap<Handler>, hs: seq<Handler>)
    requires m.Wf()
    ensures multiset(Store(m, hs).Flatten()) == multiset(m.Flatten()) + multiset(hs)
    decreases |hs|
  {
    if hs != [] {
      var m' := m.Put(hs[0].subject, hs[0]);
      StoreStepAdds(m, hs);
      PutKeepsWf(m, hs[0].subject, hs[0]);
      StoreAddsExactly(m', hs[1..]);
    }
  }

  /** One put's share of `StoreAddsExactly`. */
  lemma StoreStepAdds(m: MultiMap<Handler>, hs: seq<Handler>)
    requires m.Wf() && hs != []
    ensures multiset(m.Put(hs[0].subject, hs[0]).Flatten()) + multiset(hs[1..]) == multiset(m.Flatten()) + multiset(hs)
  {
    PutAddsOne(m, hs[0].subject, hs[0]);
    assert hs == [hs[0]] + hs[1..];
  }

  /** Each group grows by the stored handlers with its subject, in the order they were given. */
  lemma {:induction false} StoreAppendsToGroups(m: MultiMap<Handler>, hs: seq<Handler>, k: string)
    ensures Store(m, hs).Get(k) == m.Get(k) + Filter(hs, HasSubject(k))
    decreases |hs|
  {
    if hs != [] {
      var m' := m.Put(hs[0].subject, hs[0]);
      var p := HasSubject(k);
      var head := if p(hs[0]) then [hs[0]] else [];
      assert m'.Get(k) == m.Get(k) + head;
      assert Filter(hs, p) == head + Filter(hs[1..], p);
      StoreAppendsToGroups(m', hs[1..], k);
      calc {
        Store(m, hs).Get(k);
        Store(m', hs[1..]).Get(k);
        m'.Get(k) + Filter(hs[1..], p);
        m.Get(k) + head + Filter(hs[1..], p);
      }
    }
  }

  /** Storing keeps every handler under its own subject. */
  lemma {:induction false} StoreKeepsWellFormed(m: MultiMap<Handler>, hs: seq<Handler>)
    requires WellFormed(m)
    ensures WellFormed(Store(m, hs))
    decreases |hs|
  {
    if hs != [] {
      PutKeepsWellFormed(m, hs[0]);
      StoreKeepsWellFormed(m.Put(hs[0].subject, hs[0]), hs[1..]);
    }
  }

  /** Drops every handler of `listener` from every group, keeping the others in their order. */
  function RemoveOwner(m: MultiMap<Handler>, listener: string): (r: MultiMap<Handler>)
    requires WellFormed(m)
    ensures WellFormed(r) && r.keys == m.keys
    ensures r.Flatten() == Filter(m.Flatten(), NotOwnedBy(listener))
    ensures forall k :: r.Get(k) == Filter(m.Get(k), NotOwnedBy(listener))
  {
    var r := m.FilterValues(NotOwnedBy(listener));
    FlattenFilter(m, NotOwnedBy(listener));
    forall k, i | 0 <= i < |r.Get(k)|
      ensures r.Get(k)[i].subject == k
    {
      FilterMembers(m.Get(k), NotOwnedBy(listener), r.Get(k)[i]);
    }
    r
  }

  /** Storing one more handler is one more put. */
  lemma {:induction false} StoreSnoc(m: MultiMap<Handler>, hs: seq<Handler>, h: Handler)
    ensures Store(m, hs + [h]) == Store(m, hs).Put(h.subject, h)
    decreases |hs|
  {
    if hs == [] {
      assert hs + [h] == [h];
    } else {
      assert (hs + [h])[1..] == hs[1..] + [h];
      StoreSnoc(m.Put(hs[0].subject, hs[0]), hs[1..], h);
    }
  }

  /** Storing a prefix one handler longer is one more put. */
  lemma StorePrefix(m: MultiMap<Handler>, hs: seq<Handler>, j: nat)
    requires j < |hs|
    ensures Store(m, hs[..j + 1]) == Store(m, hs[..j]).Put(hs[j].subject, hs[j])
  {
    assert hs[..j + 1] == hs[..j] + [hs[j]];
    StoreSnoc(m, hs[..j], hs[j]);
  }

  /** Every stored handler belongs to one of `owners`. */
  ghost predicate OwnedByAny(m: MultiMap<Handler>, owners: seq<string>) {
    forall k, i :: 0 <= i < |m.Get(k)| ==> m.Get(k)[i].listener in owners
  }

  /** Storing handlers of `listener` and then recording `listener` keeps every handler owned. */
  lemma StoreKeepsOwned(m: MultiMap<Handler>, owners: seq<string>, hs: seq<Handler>, listener: string)
    requires OwnedByAny(m, owners)
    requires forall i :: 0 <= i < |hs| ==> hs[i].listener == listener
    ensures OwnedByAny(Store(m, hs), owners + [listener])
  {
    var r := Store(m, hs);
    forall k, i | 0 <= i < |r.Get(k)|
      ensures r.Get(k)[i].listener in owners + [listener]
    {
      StoreAppendsToGroups(m, hs, k);
      var h := r.Get(k)[i];
      if i >= |m.Get(k)| {
        assert h == Filter(hs, HasSubject(k))[i - |m.Get(k)|];
        FilterMembers(hs, HasSubject(k), h);
      } else {
        assert h == m.Get(k)[i];
      }
    }
  }

  /** Dropping a listener's handlers and one occurrence of it from the owners keeps every handler owned. */
  lemma RemoveOwnerKeepsOwned(m: MultiMap<Handler>, owners: seq<string>, listener: string)
    requires WellFormed(m) && OwnedByAny(m, owners) && listener in owners
    ensures OwnedByAny(RemoveOwner(m, listener), RemoveAt(owners, FirstIndex(owners, listener)))
  {
    var r := RemoveOwner(m, listener);
    var rest := RemoveAt(owners, FirstIndex(owners, listener));
    forall k, i | 0 <= i < |r.Get(k)|
      ensures r.Get(k)[i].listener in rest
    {
      var h := r.Get(k)[i];
      FilterMembers(m.Get(k), NotOwnedBy(listener), h);
      assert h.listener in multiset(owners) && h.listener != listener;
      assert h.listener in multiset(rest);
    }
  }

  /**
   * Removing a listener that had no handler undoes storing handlers of that listener:
   * every group reads as before (a group created by the store stays, empty).
   */
  lemma RemoveOwnerUndoesStore(m: MultiMap<Handler>, hs: seq<Handler>, listener: string)
    requires WellFormed(m)
    requires forall k, i :: 0 <= i < |m.Get(k)| ==> m.Get(k)[i].listener != listener
    requires forall i :: 0 <= i < |hs| ==> hs[i].listener == listener
    ensures WellFormed(Store(m, hs))
    ensures forall k :: RemoveOwner(Store(m, hs), listener).Get(k) == m.Get(k)
  {
    StoreKeepsWellFormed(m, hs);
    var r := RemoveOwner(Store(m, hs), listener);
    forall k
      ensures r.Get(k) == m.Get(k)
    {
      var p := NotOwnedBy(listener);
      var added := Filter(hs, HasSubject(k));
      StoreAppendsToGroups(m, hs, k);
      FilterAppend(m.Get(k), added, p);
      FilterKeepsAll(m.Get(k), p);
      forall i | 0 <= i < |added|
        ensures !p(added[i])
      {
        FilterMembers(hs, HasSubject(k), added[i]);
      }
      FilterDropsAll(added, p);
    }
  }
}
