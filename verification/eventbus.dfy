/**
 The global publish/subscribe bus. A listener is a callback identity together with an
 optional `this` context (the source stores a falsy context as `null`, which is `None`
 here). Callbacks themselves are opaque: emitting an event yields the listeners to call,
 in registration order, and the effect of each call is supplied by the caller.
 */
module EventBus {
  import opened Wrappers

  datatype Listener = Listener(callback: nat, context: Option<nat>)

  /** The listener table: event id to the listeners registered for it, oldest first. */
  type Bus = map<string, seq<Listener>>

  /** The table never keeps an event id whose list became empty. */
  ghost predicate Valid(bus: Bus) {
    forall e :: e in bus ==> |bus[e]| > 0
  }

  function Empty(): (bus: Bus)
    ensures Valid(bus) && |bus| == 0
  {
    map[]
  }

  /** Registers a listener at the end of the event's list, creating the list if needed. */
  function On(bus: Bus, e: string, callback: nat, context: Option<nat>): (r: Bus)
    ensures e in r && r[e] == Listeners(bus, e) + [Listener(callback, context)]
    ensures forall k :: k != e ==> (k in r <==> k in bus)
    ensures forall k :: k != e && k in bus ==> r[k] == bus[k]
    ensures Valid(bus) ==> Valid(r)
  {
    bus[e := Listeners(bus, e) + [Listener(callback, context)]]
  }

  /** The listeners registered for an event; an unknown event has none. */
  function Listeners(bus: Bus, e: string): seq<Listener> {
    if e in bus then bus[e] else []
  }

  predicate Matches(l: Listener, callback: nat, context: Option<nat>) {
    l.callback == callback && l.context == context
  }

  /** The list with every entry for this callback and context dropped, order kept. */
  function Without(list: seq<Listener>, callback: nat, context: Option<nat>): (r: seq<Listener>)
    ensures |r| <= |list|
  {
    if |list| == 0 then []
    else (if Matches(list[0], callback, context) then [] else [list[0]])
         + Without(list[1..], callback, context)
  }

  /**
   The removal loop of `Off`: it scans the list from the back and splices out every
   matching entry. The result is the order-preserving filter `Without`.
   */
  method RemoveMatching(list: seq<Listener>, callback: nat, context: Option<nat>)
    returns (r: seq<Listener>)
    ensures r == Without(list, callback, context)
  {
    r := list;
    var i := |list|;
    while i > 0
      invariant 0 <= i <= |list|
      invariant |r| >= i && r[..i] == list[..i]
      invariant r[i..] == Without(list[i..], callback, context)
    {
      i := i - 1;
      WithoutStep(list, i, callback, context);
      ghost var before := r;
      assert before[i..] == [before[i]] + before[i + 1..];
      if Matches(r[i], callback, context) {
        r := r[..i] + r[i + 1..];
        assert r[..i] == before[..i];
        assert r[i..] == before[i + 1..];
      }
    }
    assert list[0..] == list;
  }

  /** `Without` keeps exactly the non-matching members. */
  lemma {:induction false} WithoutMembers(list: seq<Listener>, callback: nat, context: Option<nat>)
    ensures forall l :: l in Without(list, callback, context) <==> l in list && !Matches(l, callback, context)
    decreases |list|
  {
    if |list| > 0 {
      WithoutMembers(list[1..], callback, context);
      assert list == [list[0]] + list[1..];
    }
  }

  lemma WithoutStep(list: seq<Listener>, i: nat, callback: nat, context: Option<nat>)
    requires i < |list|
    ensures Without(list[i..], callback, context)
         == (if Matches(list[i], callback, context) then [] else [list[i]])
            + Without(list[i + 1..], callback, context)
  {
    assert list[i..][1..] == list[i + 1..];
  }

  /**
   Unregisters every entry for the callback and context; an event left without listeners
   is deleted, and an unknown event is ignored.
   */
  function Off(bus: Bus, e: string, callback: nat, context: Option<nat>): (r: Bus)
    ensures Listeners(r, e) == Without(Listeners(bus, e), callback, context)
    ensures forall l :: l in Listeners(r, e) <==> l in Listeners(bus, e) && !Matches(l, callback, context)
    ensures e in bus && |Without(bus[e], callback, context)| == 0 ==> e !in r
    ensures forall k :: k != e ==> (k in r <==> k in bus)
    ensures forall k :: k != e && k in bus ==> r[k] == bus[k]
    ensures e !in bus ==> r == bus
    ensures Valid(bus) ==> Valid(r)
  {
    WithoutMembers(Listeners(bus, e), callback, context);
    if e !in bus then bus
    else
      var rest := Without(bus[e], callback, context);
      if |rest| == 0 then bus - {e} else bus[e := rest]
  }

  /** The listeners an `Emit` calls: a copy of the list taken before the first call. */
  function Emit(bus: Bus, e: string): (snapshot: seq<Listener>)
    ensures e !in bus ==> snapshot == []
    ensures Valid(bus) && e in bus ==> |snapshot| > 0
  {
    Listeners(bus, e)
  }

  /** Removes every listener of every event. */
  function Clear(bus: Bus): (r: Bus)
    ensures forall e :: Emit(r, e) == []
  {
    map[]
  }

  /**
   Delivering an event: each listener of the snapshot is called in turn, and a call may
   change the table (`effect`). Returns the final table and the listeners actually called.
   */
  function Deliver(bus: Bus, pending: seq<Listener>, effect: (Bus, Listener) -> Bus,
                   called: seq<Listener>): (r: (Bus, seq<Listener>))
    ensures r.1 == called + pending
    decreases |pending|
  {
    if |pending| == 0 then (bus, called)
    else Deliver(effect(bus, pending[0]), pending[1..], effect, called + [pending[0]])
  }

  /**
   Because `Emit` iterates over a copy, listeners added or removed by the callbacks
   themselves do not change who is called for this event: exactly the listeners
   registered when the event was emitted, in order.
   */
  function Dispatch(bus: Bus, e: string, effect: (Bus, Listener) -> Bus): (r: (Bus, seq<Listener>))
    ensures r.1 == Listeners(bus, e)
  {
    Deliver(bus, Emit(bus, e), effect, [])
  }

  /**
   A listener unregistered by an earlier callback of the same emit is still called,
   and only afterwards is it gone from the table.
   */
  lemma OffDuringDispatch(bus: Bus, e: string, a: Listener, b: Listener)
    requires Listeners(bus, e) == [a, b]
    ensures var effect := (t: Bus, l: Listener) => if l == a then Off(t, e, b.callback, b.context) else t;
      var r := Dispatch(bus, e, effect);
      r.1 == [a, b] && b !in Listeners(r.0, e)
  {
    var effect := (t: Bus, l: Listener) => if l == a then Off(t, e, b.callback, b.context) else t;
    var t1 := effect(bus, a);
    assert b !in Listeners(t1, e);
    var t2 := effect(t1, b);
    assert b !in Listeners(t2, e);
    assert [a, b][1..] == [b] && [b][1..] == [] && [a] + [b] == [a, b] && [] + [a] == [a];
    assert Deliver(t2, [], effect, [a, b]) == (t2, [a, b]);
    assert Deliver(t1, [b], effect, [a]) == (t2, [a, b]);
    assert Dispatch(bus, e, effect) == Deliver(bus, [a, b], effect, []);
  }

  /** Registering and then unregistering a added listener restores the table. */
  lemma {:induction false} OffUndoesOn(bus: Bus, e: string, callback: nat, context: Option<nat>)
    requires Valid(bus)
    requires forall l :: l in Listeners(bus, e) ==> !Matches(l, callback, context)
    ensures Off(On(bus, e, callback, context), e, callback, context) == bus
  {
    var list := Listeners(bus, e);
    var added := Listener(callback, context);
    WithoutAppend(list, [added], callback, context);
    WithoutNone(list, callback, context);
    assert Without([added], callback, context) == [];
    assert Without(list + [added], callback, context) == list;
    var r := Off(On(bus, e, callback, context), e, callback, context);
    if e in bus {
      assert r == bus[e := list];
    } else {
      assert r == bus;
    }
  }

  lemma {:induction false} WithoutAppend(a: seq<Listener>, b: seq<Listener>, callback: nat, context: Option<nat>)
    ensures Without(a + b, callback, context) == Without(a, callback, context) + Without(b, callback, context)
    decreases |a|
  {
    if |a| == 0 {
      assert a + b == b;
    } else {
      assert (a + b)[1..] == a[1..] + b;
      WithoutAppend(a[1..], b, callback, context);
    }
  }

  lemma {:induction false} WithoutNone(a: seq<Listener>, callback: nat, context: Option<nat>)
    requires forall l :: l in a ==> !Matches(l, callback, context)
    ensures Without(a, callback, context) == a
    decreases |a|
  {
    if |a| > 0 {
      assert forall l :: l in a[1..] ==> l in a;
      WithoutNone(a[1..], callback, context);
    }
  }
}
