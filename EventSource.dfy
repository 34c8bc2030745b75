/**
 * `EventSourceImpl`: fans `onActivityResult` and `onRequestPermissionsResult` events out to
 * every subscribed listener and ORs their "consumed" answers. Listeners are arbitrary
 * objects; what a listener answers is an oracle argument of the dispatch methods.
 */
module EventSources {
  import opened Android

  /** One invocation of a listener's handler during a dispatch. */
  datatype Call =
    | ActivityResultCall(listener: object, event: ActivityResult)
    | PermissionsResultCall(listener: object, permissionsEvent: PermissionsResult)

  /** `List.remove(Object)`: drops the first element equal to `x`, if there is one. */
  function RemoveFirst<T(==)>(s: seq<T>, x: T): (r: seq<T>)
    ensures |r| == if x in s then |s| - 1 else |s|
    ensures x !in s ==> r == s
  {
    if s == [] then []
    else if s[0] == x then s[1..]
    else [s[0]] + RemoveFirst(s[1..], x)
  }

  /** Removal takes out one occurrence of `x`, when there is one, and keeps everything else. */
  lemma {:induction false} RemoveFirstMultiset<T>(s: seq<T>, x: T)
    ensures multiset(RemoveFirst(s, x)) == multiset(s) - multiset{x}
  {
    if s != [] {
      assert s == [s[0]] + s[1..];
      if s[0] != x {
        RemoveFirstMultiset(s[1..], x);
      }
    }
  }

  /** The position of the first element equal to `x`. */
  function IndexOf<T(==)>(s: seq<T>, x: T): (k: nat)
    requires x in s
    ensures k < |s| && s[k] == x && x !in s[..k]
  {
    if s[0] == x then 0 else 1 + IndexOf(s[1..], x)
  }

  /** Removal takes out the first occurrence only and keeps the order of the rest. */
  lemma {:induction false} RemoveFirstAt<T>(s: seq<T>, x: T)
    requires x in s
    ensures RemoveFirst(s, x) == s[..IndexOf(s, x)] + s[IndexOf(s, x) + 1..]
  {
    if s[0] != x {
      RemoveFirstAt(s[1..], x);
      var k := IndexOf(s[1..], x);
      assert s[..k + 1] == [s[0]] + s[1..][..k];
      assert s[k + 2..] == s[1..][k + 1..];
    }
  }

  class EventSourceImpl {
    /** The subscribed listeners, in subscription order. */
    var listeners: seq<object>

    constructor ()
      ensures listeners == []
    {
      listeners := [];
    }

    /** Every listener, in list order, gets the event; the result is true iff one of them consumed it. */
    method OnActivityResult(event: ActivityResult, respond: (object, ActivityResult) -> bool)
      returns (consumed: bool, calls: seq<Call>)
      ensures |calls| == |listeners|
      ensures forall i :: 0 <= i < |listeners| ==> calls[i] == ActivityResultCall(listeners[i], event)
      ensures consumed <==> exists i :: 0 <= i < |listeners| && respond(listeners[i], event)
    {
      var snapshot := listeners;
      consumed, calls := false, [];
      var i := 0;
      while i < |snapshot|
        invariant 0 <= i <= |snapshot|
        invariant |calls| == i
        invariant forall k :: 0 <= k < i ==> calls[k] == ActivityResultCall(snapshot[k], event)
        invariant consumed <==> exists k :: 0 <= k < i && respond(snapshot[k], event)
      {
        var answer := respond(snapshot[i], event);
        calls := calls + [ActivityResultCall(snapshot[i], event)];
        consumed := consumed || answer;
        i := i + 1;
      }
    }

    /** The same fan-out for permission results. */
    method OnRequestPermissionsResult(event: PermissionsResult, respond: (object, PermissionsResult) -> bool)
      returns (consumed: bool, calls: seq<Call>)
      ensures |calls| == |listeners|
      ensures forall i :: 0 <= i < |listeners| ==> calls[i] == PermissionsResultCall(listeners[i], event)
      ensures consumed <==> exists i :: 0 <= i < |listeners| && respond(listeners[i], event)
    {
      var snapshot := listeners;
      consumed, calls := false, [];
      var i := 0;
      while i < |snapshot|
        invariant 0 <= i <= |snapshot|
        invariant |calls| == i
        invariant forall k :: 0 <= k < i ==> calls[k] == PermissionsResultCall(snapshot[k], event)
        invariant consumed <==> exists k :: 0 <= k < i && respond(snapshot[k], event)
      {
        var answer := respond(snapshot[i], event);
        calls := calls + [PermissionsResultCall(snapshot[i], event)];
        consumed := consumed || answer;
        i := i + 1;
      }
    }

    /** Appends the listener and hands back the handle that removes it. */
    method Subscribe(listener: object) returns (subscription: Subscription)
      modifies this
      ensures fresh(subscription)
      ensures subscription.source == this && subscription.listener == listener
      ensures listeners == old(listeners) + [listener]
    {
      subscription := new Subscription(this, listener);
    }
  }

  /** `SubscriptionImpl`: remembers its listener until the first `unsubscribe`. */
  class Subscription {
    const source: EventSourceImpl
    var listener: object?

    constructor (source: EventSourceImpl, listener: object)
      modifies source
      ensures this.source == source && this.listener == listener
      ensures source.listeners == old(source.listeners) + [listener]
    {
      this.source := source;
      this.listener := listener;
      new;
      source.listeners := source.listeners + [listener];
    }

    /** The first call removes the listener from the source; later calls change nothing. */
    method Unsubscribe()
      modifies this, source
      ensures listener == null
      ensures old(listener) == null ==> source.listeners == old(source.listeners)
      ensures old(listener) != null ==>
        var removed: object := old(listener); source.listeners == RemoveFirst(old(source.listeners), removed)
    {
      if listener != null {
        var removed: object := listener;
        source.listeners := RemoveFirst(source.listeners, removed);
        listener := null;
      }
    }
  }
}
