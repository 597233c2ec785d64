/** The event registry of src/pylinq/utils/observable.py: a closed set of declared
    event names, each mapped to its bound handlers and the extra arguments bound with
    them. Handlers are opaque identities; `callable` is what Python's `callable()`
    answers for them. Invoking a handler is modelled by the invocation it receives. */
module Observables {
  import opened Wrappers

  datatype Handler = Handler(id: nat, callable: bool)

  /** `UnsupportedEventException` and `HandlerMustBeCallableException`. */
  datatype ObservableException = UnsupportedEvent(event: string) | HandlerMustBeCallable

  /** One call `handler(*args)` made by `trigger`. */
  datatype Invocation<A> = Invocation(handler: Handler, args: seq<A>)

  /** The handlers bound to one event, each with its extra arguments. */
  type Listeners<A> = map<Handler, seq<A>>

  /** The guard `must_have_event` puts in front of `bind`, `unbind` and `trigger`. */
  function MustHaveEvent<A>(events: map<string, Listeners<A>>, event: string)
    : (r: Outcome<ObservableException>)
    ensures r.Pass? <==> event in events
    ensures r.Fail? ==> r.error == UnsupportedEvent(event)
  {
    if event in events then Pass else Fail(UnsupportedEvent(event))
  }

  /** `calls` invokes each handler of `listeners` exactly once, with `args` followed by
      the handler's own extra arguments, and invokes no other handler. */
  ghost predicate InvokesEachOnce<A>(calls: seq<Invocation<A>>, listeners: Listeners<A>, args: seq<A>)
  {
    && (forall i :: 0 <= i < |calls| ==>
          calls[i].handler in listeners && calls[i].args == args + listeners[calls[i].handler])
    && (forall h :: h in listeners ==> exists i :: 0 <= i < |calls| && calls[i].handler == h)
    && (forall i, j :: 0 <= i < j < |calls| ==> calls[i].handler != calls[j].handler)
  }

  /** The invocations a trigger with `args` makes, as a set. */
  ghost function Invocations<A>(listeners: Listeners<A>, args: seq<A>): set<Invocation<A>>
  {
    set h | h in listeners :: Invocation(h, args + listeners[h])
  }

  ghost function HandlersOf<A>(calls: seq<Invocation<A>>): set<Handler>
  {
    set i | 0 <= i < |calls| :: calls[i].handler
  }

  lemma {:induction false} DistinctHandlersCard<A>(calls: seq<Invocation<A>>)
    requires forall i, j :: 0 <= i < j < |calls| ==> calls[i].handler != calls[j].handler
    ensures |HandlersOf(calls)| == |calls|
  {
    if calls != [] {
      var rest := calls[1..];
      DistinctHandlersCard(rest);
      assert HandlersOf(calls) == {calls[0].handler} + HandlersOf(rest) by {
        forall h | h in HandlersOf(calls) ensures h in {calls[0].handler} + HandlersOf(rest) {
          var i :| 0 <= i < |calls| && calls[i].handler == h;
          if i > 0 { assert rest[i - 1].handler == h; }
        }
        forall h | h in HandlersOf(rest) ensures h in HandlersOf(calls) {
          var i :| 0 <= i < |rest| && rest[i].handler == h;
          assert calls[i + 1].handler == h;
        }
      }
      assert calls[0].handler !in HandlersOf(rest);
    } else {
      assert HandlersOf(calls) == {};
    }
  }

  /** A trigger that invokes each handler once makes one call per bound handler, and
      its calls are exactly the invocations the listeners determine. */
  lemma {:induction false} InvokesEachOnceCount<A>(calls: seq<Invocation<A>>, listeners: Listeners<A>, args: seq<A>)
    requires InvokesEachOnce(calls, listeners, args)
    ensures |calls| == |listeners|
    ensures (set c | c in calls) == Invocations(listeners, args)
  {
    DistinctHandlersCard(calls);
    assert HandlersOf(calls) == listeners.Keys;
    forall c | c in Invocations(listeners, args) ensures c in calls {
      var i :| 0 <= i < |calls| && calls[i].handler == c.handler;
    }
  }

  /** A handler bound to the triggered event is invoked exactly once; any other
      handler is not invoked. */
  lemma {:induction false} InvokedOnceIffBound<A>(calls: seq<Invocation<A>>, listeners: Listeners<A>, args: seq<A>, h: Handler)
    requires InvokesEachOnce(calls, listeners, args)
    ensures |set i | 0 <= i < |calls| && calls[i].handler == h| == if h in listeners then 1 else 0
  {
    var hits := set i | 0 <= i < |calls| && calls[i].handler == h;
    if h in listeners {
      var k :| 0 <= k < |calls| && calls[k].handler == h;
      assert hits == {k};
    } else {
      assert hits == {};
    }
  }

  /** Binding a handler that was not bound to `event` and then unbinding it leaves
      the registry as it was. */
  lemma BindThenUnbindRestores<A>(events: map<string, Listeners<A>>, event: string, h: Handler, extra: seq<A>)
    requires event in events && h !in events[event]
    ensures var bound := events[event := events[event][h := extra]];
            bound[event := bound[event] - {h}] == events
  {
    assert events[event][h := extra] - {h} == events[event];
  }

  class Observable<A(==)> {
    var events: map<string, Listeners<A>>

    /** A new registry declares no event. */
    constructor ()
      ensures events == map[]
      ensures GetEvents() == {}
    {
      events := map[];
    }

    /** Replaces the registry: exactly `names` are declared, none with a handler. */
    method AddEvents(names: seq<string>)
      modifies this
      ensures forall e :: HasEvent(e) <==> e in names
      ensures forall e :: e in events ==> events[e] == map[]
      ensures GetEvents() == set e | e in names
    {
      events := map e | e in names :: map[];
    }

    /** An event is declared exactly when the guard of `bind`, `unbind` and
        `trigger` lets it through. */
    function HasEvent(event: string): (r: bool)
      reads this
      ensures r <==> MustHaveEvent(events, event).Pass?
    {
      event in events
    }

    /** The declared events: exactly those `HasEvent` answers true for. */
    function GetEvents(): (r: set<string>)
      reads this
      ensures forall e :: e in r <==> HasEvent(e)
    {
      events.Keys
    }

    /** Binds `handler` to `event` with `extra` (last binding wins); only that event's
        handlers change. */
    method Bind(event: string, handler: Handler, extra: seq<A>) returns (r: Outcome<ObservableException>)
      modifies this
      ensures event !in old(events) ==> r == Fail(UnsupportedEvent(event))
      ensures event in old(events) && !handler.callable ==> r == Fail(HandlerMustBeCallable)
      ensures r.Fail? ==> events == old(events)
      ensures event in old(events) && handler.callable ==>
                r == Pass && events == old(events)[event := old(events)[event][handler := extra]]
    {
      r := MustHaveEvent(events, event);
      if r.Fail? {
        return;
      }
      if !handler.callable {
        return Fail(HandlerMustBeCallable);
      }
      events := events[event := events[event][handler := extra]];
    }

    /** Removes every handler of `event` (no handler given) or only `handler`, which is
        a no-op when it is not bound; only that event's handlers change. */
    method Unbind(event: string, handler: Option<Handler>) returns (r: Outcome<ObservableException>)
      modifies this
      ensures event !in old(events) ==> r == Fail(UnsupportedEvent(event)) && events == old(events)
      ensures event in old(events) && handler.None? ==> r == Pass && events == old(events)[event := map[]]
      ensures event in old(events) && handler.Some? ==>
                r == Pass && events == old(events)[event := old(events)[event] - {handler.value}]
      ensures event in old(events) && handler.Some? && handler.value !in old(events)[event] ==>
                events == old(events)
    {
      r := MustHaveEvent(events, event);
      if r.Fail? {
        return;
      }
      if handler.None? {
        events := events[event := map[]];
      } else if handler.value in events[event] {
        events := events[event := events[event] - {handler.value}];
      } else {
        assert events[event] - {handler.value} == events[event];
        assert events[event := events[event]] == events;
      }
    }

    /** Invokes every handler bound to `event` exactly once, returning the calls made;
        the registry is not changed. */
    method Trigger(event: string, args: seq<A>) returns (r: Result<seq<Invocation<A>>, ObservableException>)
      ensures event !in events ==> r == Failure(UnsupportedEvent(event))
      ensures event in events ==> r.Success? && InvokesEachOnce(r.value, events[event], args)
    {
      var guard := MustHaveEvent(events, event);
      if guard.Fail? {
        return Failure(guard.error);
      }
      var listeners := events[event];
      var pending := listeners.Keys;
      var calls: seq<Invocation<A>> := [];
      while pending != {}
        invariant pending <= listeners.Keys
        invariant forall i :: 0 <= i < |calls| ==>
                    calls[i].handler in listeners && calls[i].handler !in pending
                    && calls[i].args == args + listeners[calls[i].handler]
        invariant forall h :: h in listeners && h !in pending ==>
                    exists i :: 0 <= i < |calls| && calls[i].handler == h
        invariant forall i, j :: 0 <= i < j < |calls| ==> calls[i].handler != calls[j].handler
        decreases pending
      {
        var h :| h in pending;
        ghost var before := calls;
        calls := calls + [Invocation(h, args + listeners[h])];
        pending := pending - {h};
        forall g | g in listeners && g !in pending
          ensures exists i :: 0 <= i < |calls| && calls[i].handler == g
        {
          if g == h {
            assert calls[|calls| - 1].handler == g;
          } else {
            var i :| 0 <= i < |before| && before[i].handler == g;
            assert calls[i].handler == g;
          }
        }
      }
      r := Success(calls);
    }
  }
}
