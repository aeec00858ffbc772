/** The frontend's event bus: a table from event name to the list of its
    callbacks, updated in place, and one shared instance of it.

    Callbacks are compared by identity only, so a callback is an opaque
    identifier here. An event has an entry in the table exactly when the
    truthiness test of the TypeScript code passes: an empty list is an
    entry, an absent one is not. Prototype keys of the JavaScript object
    are not modelled. */
module Events {
  type Callback = nat

  /** The list with every entry identical to `c` removed, the rest in
      order: `filter(listener => listener !== c)`. */
  function RemoveAll(s: seq<Callback>, c: Callback): (r: seq<Callback>)
    ensures |r| <= |s| && c !in r
    decreases |s|
  {
    if s == [] then []
    else
      assert s == [s[0]] + s[1..];
      (if s[0] == c then [] else [s[0]]) + RemoveAll(s[1..], c)
  }

  /** The list of an event, empty when it has none. */
  function ListOf(listeners: map<string, seq<Callback>>, event: string): seq<Callback> {
    if event in listeners then listeners[event] else []
  }

  /** The table after `subscribe`. */
  function Subscribed(listeners: map<string, seq<Callback>>, event: string, c: Callback): (m: map<string, seq<Callback>>)
    ensures event in m && m[event] == ListOf(listeners, event) + [c]
    ensures m.Keys == listeners.Keys + {event}
    ensures forall e | e in listeners && e != event :: m[e] == listeners[e]
  {
    listeners[event := ListOf(listeners, event) + [c]]
  }

  /** The table after `unsubscribe`. */
  function Unsubscribed(listeners: map<string, seq<Callback>>, event: string, c: Callback): (m: map<string, seq<Callback>>)
    ensures m.Keys == listeners.Keys
    ensures event in m ==> m[event] == RemoveAll(listeners[event], c)
    ensures forall e | e in listeners && e != event :: m[e] == listeners[e]
  {
    if event in listeners then listeners[event := RemoveAll(listeners[event], c)] else listeners
  }

  /** The table after `unsubscribeAll`. */
  function Cleared(listeners: map<string, seq<Callback>>, event: string): (m: map<string, seq<Callback>>)
    ensures m.Keys == listeners.Keys
    ensures event in m ==> m[event] == []
    ensures forall e | e in listeners && e != event :: m[e] == listeners[e]
  {
    if event in listeners then listeners[event := []] else listeners
  }

  class EventBus {
    var listeners: map<string, seq<Callback>>

    constructor ()
      ensures listeners == map[]
    {
      listeners := map[];
    }

    method Subscribe(event: string, callback: Callback)
      modifies this
      ensures listeners == Subscribed(old(listeners), event, callback)
    {
      if event !in listeners {
        listeners := listeners[event := []];
      }
      listeners := listeners[event := listeners[event] + [callback]];
    }

    /** `publish`: the callbacks of the event, in the order they are
        invoked. What they do when invoked is not modelled. */
    method Publish(event: string) returns (invoked: seq<Callback>)
      ensures invoked == ListOf(listeners, event)
    {
      invoked := [];
      if event in listeners {
        var list := listeners[event];
        for i := 0 to |list|
          invariant invoked == list[..i]
        {
          invoked := invoked + [list[i]];
        }
        assert list[..|list|] == list;
      }
    }

    method Unsubscribe(event: string, callback: Callback)
      modifies this
      ensures listeners == Unsubscribed(old(listeners), event, callback)
    {
      if event in listeners {
        listeners := listeners[event := RemoveAll(listeners[event], callback)];
      }
    }

    method UnsubscribeAll(event: string)
      modifies this
      ensures listeners == Cleared(old(listeners), event)
    {
      if event in listeners {
        listeners := listeners[event := []];
      }
    }
  }

  /** The class's static field: the shared instance, once made. */
  class Registry {
    var instance: EventBus?

    constructor ()
      ensures instance == null
    {
      instance := null;
    }

    method GetInstance() returns (bus: EventBus)
      modifies this
      ensures instance == bus
      ensures old(instance) != null ==> bus == old(instance)
      ensures old(instance) == null ==> fresh(bus) && bus.listeners == map[]
    {
      if instance == null {
        instance := new EventBus();
      }
      bus := instance;
    }
  }

  /** Every call of `getInstance` returns the same bus. */
  method GetInstanceTwice(registry: Registry) returns (first: EventBus, second: EventBus)
    modifies registry
    ensures first == second
  {
    first := registry.GetInstance();
    second := registry.GetInstance();
  }

  // ---------------------------------------------------------------------
  // Properties of the table operations

  /** Filtering distributes over concatenation: the order of the entries
      that stay is the order they had. */
  lemma {:induction false} RemoveAllAppend(a: seq<Callback>, b: seq<Callback>, c: Callback)
    ensures RemoveAll(a + b, c) == RemoveAll(a, c) + RemoveAll(b, c)
    decreases |a|
  {
    if a != [] {
      var head := if a[0] == c then [] else [a[0]];
      RemoveAllAppend(a[1..], b, c);
      assert (a + b)[0] == a[0] && (a + b)[1..] == a[1..] + b;
      assert RemoveAll(a + b, c) == head + RemoveAll(a[1..] + b, c);
      assert RemoveAll(a, c) == head + RemoveAll(a[1..], c);
      assert head + (RemoveAll(a[1..], c) + RemoveAll(b, c))
          == (head + RemoveAll(a[1..], c)) + RemoveAll(b, c);
    } else {
      assert a + b == b;
    }
  }

  /** Filtering drops every occurrence of the callback and keeps every
      other callback as often as it was listed. */
  lemma {:induction false} RemoveAllCounts(s: seq<Callback>, c: Callback)
    ensures multiset(RemoveAll(s, c)) == multiset(s)[c := 0]
    ensures forall x :: x in RemoveAll(s, c) <==> x in s && x != c
    decreases |s|
  {
    if s != [] {
      RemoveAllCounts(s[1..], c);
      assert s == [s[0]] + s[1..];
      assert multiset(s) == multiset([s[0]]) + multiset(s[1..]);
    }
  }

  /** A list without the callback is left as it is. */
  lemma {:induction false} RemoveAllAbsent(s: seq<Callback>, c: Callback)
    requires c !in s
    ensures RemoveAll(s, c) == s
    decreases |s|
  {
    if s != [] {
      RemoveAllAbsent(s[1..], c);
      assert s == [s[0]] + s[1..];
    }
  }

  /** Unsubscribing twice is unsubscribing once. */
  lemma UnsubscribeIdempotent(m: map<string, seq<Callback>>, event: string, c: Callback)
    ensures Unsubscribed(Unsubscribed(m, event, c), event, c) == Unsubscribed(m, event, c)
  {
    if event in m {
      RemoveAllAbsent(RemoveAll(m[event], c), c);
    }
  }

  /** Unsubscribing removes what subscribing added, and every other entry
      identical to it, and keeps the rest in order. */
  lemma SubscribeThenUnsubscribe(m: map<string, seq<Callback>>, event: string, c: Callback)
    ensures var after := Unsubscribed(Subscribed(m, event, c), event, c);
      after[event] == RemoveAll(ListOf(m, event), c)
      && forall e | e in m && e != event :: after[e] == m[e]
  {
    RemoveAllAppend(ListOf(m, event), [c], c);
    assert RemoveAll([c], c) == [];
  }

  /** Subscribing keeps duplicates: the same callback twice is listed twice. */
  lemma SubscribeKeepsDuplicates(m: map<string, seq<Callback>>, event: string, c: Callback)
    ensures var after := Subscribed(Subscribed(m, event, c), event, c);
      after[event] == ListOf(m, event) + [c, c]
      && multiset(after[event])[c] == multiset(ListOf(m, event))[c] + 2
  {
    assert ListOf(m, event) + [c] + [c] == ListOf(m, event) + [c, c];
  }

  /** The operations on an unknown event make no entry for it. */
  lemma UnknownEventStaysUnknown(m: map<string, seq<Callback>>, event: string, c: Callback)
    requires event !in m
    ensures Unsubscribed(m, event, c) == m && Cleared(m, event) == m
    ensures ListOf(m, event) == []
  {
  }
}
