/**
 * `RequirementImpl`: walks an ordered list of cases, one attached case at a time, on behalf
 * of every listener that asked for the current run.
 *
 * The concrete cases are not modelled: what a case's `meetsRequirement` answers and what
 * its event handlers answer are oracle arguments. A case that resolves itself calls back
 * through `deliverResult`; here that call is `OnRequirementCaseResult`, made by the
 * environment after the method that triggered it has returned. Nothing in Java follows
 * `startResolution`, so for a result delivered from there the order of effects is the same.
 * A result delivered from an event handler is different: the event source goes on to call
 * its remaining listeners, which in Java happens after the walk resumed and here before.
 */
module Requirements {
  import opened Wrappers
  import opened Android
  import opened EventSources
  import opened RequirementCases

  /** A `Requirement.Listener` handed to `validate`: an opaque identity. */
  datatype Listener = Listener(id: nat)

  /** What a listener is told. */
  datatype Outcome = RequirementSuccess | RequirementFailure(payload: Option<Payload>)

  /** What a requirement does that can be observed from outside, in order. */
  datatype Event =
    | Attached(attached: RequirementCase)
    | ResolutionStarted(started: RequirementCase)
    | Detached(detached: RequirementCase)
    | Subscribed
    | Unsubscribed
    | Notified(listener: Listener, outcome: Outcome)

  /** `d` is what is left of `s` after popping some elements from its front. */
  ghost predicate IsSuffix<T>(d: seq<T>, s: seq<T>) {
    |d| <= |s| && d == s[|s| - |d|..]
  }

  lemma AppendAssoc<T>(a: seq<T>, b: seq<T>, c: seq<T>)
    ensures a + b + c == a + (b + c)
  {
  }

  // ---------------------------------------------------------------------------
  // Listener notifications

  /** One notification per registration, in registration order. */
  function Broadcast(listeners: seq<Listener>, outcome: Outcome): (calls: seq<Event>)
    ensures |calls| == |listeners|
  {
    if listeners == [] then [] else [Notified(listeners[0], outcome)] + Broadcast(listeners[1..], outcome)
  }

  lemma {:induction false} BroadcastAppend(listeners: seq<Listener>, l: Listener, outcome: Outcome)
    ensures Broadcast(listeners + [l], outcome) == Broadcast(listeners, outcome) + [Notified(l, outcome)]
  {
    if listeners != [] {
      assert (listeners + [l])[1..] == listeners[1..] + [l];
      BroadcastAppend(listeners[1..], l, outcome);
    }
  }

  /**
   * Every registration is told the outcome exactly once: a listener registered n times is
   * notified n times, is never told anything else, and nothing but notifications happen.
   */
  lemma {:induction false} BroadcastOncePerRegistration(listeners: seq<Listener>, outcome: Outcome, l: Listener, o: Outcome)
    ensures multiset(Broadcast(listeners, outcome))[Notified(l, o)] == if o == outcome then multiset(listeners)[l] else 0
    ensures forall e :: e in Broadcast(listeners, outcome) ==> e.Notified? && e.outcome == outcome
  {
    if listeners != [] {
      BroadcastOncePerRegistration(listeners[1..], outcome, l, o);
      assert listeners == [listeners[0]] + listeners[1..];
    }
  }

  /** Giving up the subscription is observable only when one is held. */
  function Unsubscription(held: bool): seq<Event> {
    if held then [Unsubscribed] else []
  }

  /** What `end(success)` does: unsubscribe when subscribed, then tell every registration about a success. */
  function EndTrace(held: bool, success: bool, listeners: seq<Listener>): seq<Event> {
    Unsubscription(held) + if success then Broadcast(listeners, RequirementSuccess) else []
  }

  /** How a walk that ran out of pending cases ends the run: `end(true)`, while subscribed. */
  function SuccessEnd(finished: bool, listeners: seq<Listener>): seq<Event> {
    if finished then EndTrace(true, true, listeners) else []
  }

  // ---------------------------------------------------------------------------
  // The walk over the pending cases

  /** The pending cases when the walk stops: it pops every satisfied case at the front. */
  function Pending(deque: seq<RequirementCase>, meets: RequirementCase -> bool): seq<RequirementCase> {
    if deque == [] then []
    else if !meets(deque[0]) then deque
    else Pending(deque[1..], meets)
  }

  /** What the walk does: attach the head, then detach it when satisfied or start its resolution. */
  function WalkTrace(deque: seq<RequirementCase>, meets: RequirementCase -> bool): seq<Event> {
    if deque == [] then []
    else if !meets(deque[0]) then [Attached(deque[0]), ResolutionStarted(deque[0])]
    else [Attached(deque[0]), Detached(deque[0])] + WalkTrace(deque[1..], meets)
  }

  /** The walk stops at the first unsatisfied case, having popped only satisfied ones. */
  lemma {:induction false} PendingIsFirstUnmet(deque: seq<RequirementCase>, meets: RequirementCase -> bool)
    ensures IsSuffix(Pending(deque, meets), deque)
    ensures forall i :: 0 <= i < |deque| - |Pending(deque, meets)| ==> meets(deque[i])
    ensures Pending(deque, meets) != [] ==> !meets(Pending(deque, meets)[0])
  {
    if deque != [] && meets(deque[0]) {
      PendingIsFirstUnmet(deque[1..], meets);
      forall i | 0 <= i < |deque| - |Pending(deque, meets)|
        ensures meets(deque[i])
      {
        if i > 0 {
          assert deque[i] == deque[1..][i - 1];
        }
      }
    }
  }

  /** The walk ends the run with success exactly when every pending case is satisfied. */
  lemma {:induction false} PendingEmptyIffAllMet(deque: seq<RequirementCase>, meets: RequirementCase -> bool)
    ensures Pending(deque, meets) == [] <==> forall i :: 0 <= i < |deque| ==> meets(deque[i])
  {
    PendingIsFirstUnmet(deque, meets);
  }

  /** Which case a trace leaves attached, or `Clash` when it attaches or resolves out of turn. */
  datatype Attachment = Clash | Holding(current: Option<RequirementCase>)

  /**
   * Replays a trace from `current`: attaching while a case is attached, detaching a case that
   * is not the attached one, or starting the resolution of a case that is not attached, clashes.
   */
  function Replay(current: Option<RequirementCase>, trace: seq<Event>): Attachment
    decreases |trace|
  {
    if trace == [] then Holding(current)
    else match trace[0]
      case Attached(c) => if current.Some? then Clash else Replay(Some(c), trace[1..])
      case Detached(c) => if current != Some(c) then Clash else Replay(None, trace[1..])
      case ResolutionStarted(c) => if current != Some(c) then Clash else Replay(current, trace[1..])
      case _ => Replay(current, trace[1..])
  }

  /**
   * The walk never has two cases attached, starts a resolution only on the attached case, and
   * leaves attached exactly the head of the pending cases (none when the run is over).
   */
  lemma {:induction false} WalkAttachesOneAtATime(deque: seq<RequirementCase>, meets: RequirementCase -> bool)
    ensures Replay(None, WalkTrace(deque, meets))
            == Holding(if Pending(deque, meets) == [] then None else Some(Pending(deque, meets)[0]))
  {
    if deque != [] {
      var c := deque[0];
      if meets(c) {
        var t := WalkTrace(deque[1..], meets);
        var w := [Attached(c), Detached(c)] + t;
        assert WalkTrace(deque, meets) == w;
        assert w[0] == Attached(c) && w[1..] == [Detached(c)] + t;
        assert Replay(None, w) == Replay(Some(c), [Detached(c)] + t);
        assert ([Detached(c)] + t)[1..] == t;
        WalkAttachesOneAtATime(deque[1..], meets);
      } else {
        var w := [Attached(c), ResolutionStarted(c)];
        assert Replay(None, w) == Replay(Some(c), w[1..]);
        assert Replay(Some(c), w[1..]) == Replay(Some(c), []);
      }
    }
  }

  /** A resolution is started at most once per walk, only for the first unsatisfied case. */
  lemma {:induction false} WalkStartsOnlyFirstUnmet(deque: seq<RequirementCase>, meets: RequirementCase -> bool)
    ensures forall i :: 0 <= i < |WalkTrace(deque, meets)| && WalkTrace(deque, meets)[i].ResolutionStarted? ==>
              i == |WalkTrace(deque, meets)| - 1 && Pending(deque, meets) != []
              && WalkTrace(deque, meets)[i].started == Pending(deque, meets)[0]
    ensures Pending(deque, meets) != [] ==>
              WalkTrace(deque, meets)[|WalkTrace(deque, meets)| - 1] == ResolutionStarted(Pending(deque, meets)[0])
              && !meets(Pending(deque, meets)[0])
  {
    if deque != [] && meets(deque[0]) {
      WalkStartsOnlyFirstUnmet(deque[1..], meets);
      var t := WalkTrace(deque[1..], meets);
      assert WalkTrace(deque, meets) == [Attached(deque[0]), Detached(deque[0])] + t;
      forall i | 2 <= i < |WalkTrace(deque, meets)|
        ensures WalkTrace(deque, meets)[i] == t[i - 2]
      {
      }
    }
  }

  // ---------------------------------------------------------------------------
  // ListenerSource

  /** The listeners registered for the current run, in registration order. */
  class ListenerSource {
    var listeners: seq<Listener>

    constructor ()
      ensures listeners == []
    {
      listeners := [];
    }

    method Add(listener: Listener)
      modifies this
      ensures listeners == old(listeners) + [listener]
    {
      listeners := listeners + [listener];
    }

    method Clear()
      modifies this
      ensures listeners == []
    {
      listeners := [];
    }

    /** Tells every registration, in order, that the requirement is satisfied. */
    method OnRequirementSuccess() returns (calls: seq<Event>)
      ensures calls == Broadcast(listeners, RequirementSuccess)
    {
      calls := Notify(RequirementSuccess);
    }

    /** Tells every registration, in order, that the requirement failed with `payload`. */
    method OnRequirementFailure(payload: Option<Payload>) returns (calls: seq<Event>)
      ensures calls == Broadcast(listeners, RequirementFailure(payload))
    {
      calls := Notify(RequirementFailure(payload));
    }

    method Notify(outcome: Outcome) returns (calls: seq<Event>)
      ensures calls == Broadcast(listeners, outcome)
    {
      calls := [];
      var i := 0;
      while i < |listeners|
        invariant 0 <= i <= |listeners|
        invariant calls == Broadcast(listeners[..i], outcome)
      {
        BroadcastAppend(listeners[..i], listeners[i], outcome);
        assert listeners[..i + 1] == listeners[..i] + [listeners[i]];
        calls := calls + [Notified(listeners[i], outcome)];
        i := i + 1;
      }
      assert listeners[..i] == listeners;
    }
  }

  // ---------------------------------------------------------------------------
  // RequirementImpl

  class RequirementImpl {
    var activity: Option<Activity>
    var eventSource: EventSourceImpl?
    var requirementCases: Option<seq<RequirementCase>>
    var deque: seq<RequirementCase>
    const listenerSource: ListenerSource
    var subscription: Subscription?

    /** Whether the activity-destroyed listener is still registered with the application. */
    ghost var lifecycleRegistered: bool
    /** Everything observable this requirement has done, in order. */
    ghost var trace: seq<Event>
    /** The cases of the list given at construction. */
    ghost const Cases: set<RequirementCase>

    /** A run is in progress exactly while a subscription is held. */
    ghost predicate IsInProgress()
      reads this
    {
      subscription != null
    }

    /** The references and their relations, whatever the run state. */
    ghost predicate Wired()
      reads this, subscription
    {
      (subscription != null ==> subscription.source == eventSource && subscription.listener == this)
      && (requirementCases.None? <==> activity.None?)
      && (activity.None? <==> eventSource == null)
      && (requirementCases.Some? ==> forall i :: 0 <= i < |requirementCases.value| ==> requirementCases.value[i] in Cases)
      && (forall i :: 0 <= i < |deque| ==> deque[i] in Cases)
    }

    /** No case of the list is attached to this requirement. */
    ghost predicate NoCaseAttached()
      reads Cases
    {
      forall c :: c in Cases ==> c.callback != Some(this)
    }

    /** No case of the list other than `head` is attached to this requirement. */
    ghost predicate OnlyAttached(head: RequirementCase)
      reads Cases
    {
      forall c :: c in Cases && c != head ==> c.callback != Some(this)
    }

    /**
     * Idle: nothing pending, no case attached and, unless destroyed, nobody waiting. In
     * progress: the pending cases are what is left of the list, and the head, and only the
     * head, is attached to this requirement.
     */
    ghost predicate Valid()
      reads this, listenerSource, subscription, Cases
    {
      Wired()
      && (subscription == null ==>
            deque == [] && NoCaseAttached() && (requirementCases.Some? ==> listenerSource.listeners == []))
      && (subscription != null ==>
            requirementCases.Some? && deque != [] && IsSuffix(deque, requirementCases.value)
            && deque[0].activity == activity && deque[0].callback == Some(this) && OnlyAttached(deque[0]))
    }

    /**
     * What the cases look like after this requirement walked over `popped` and stopped at
     * `rest`: a popped case ends detached, every other case keeps the state it had before.
     * The head of `rest`, which the walk may have left attached, is the exception.
     */
    twostate predicate CasesAfter(new popped: seq<RequirementCase>, new rest: seq<RequirementCase>)
      reads Cases
    {
      (forall c :: c in Cases && c in popped && (rest == [] || c != rest[0]) ==>
         c.activity.None? && c.callback.None?)
      && (forall c :: c in Cases && c !in popped && (rest == [] || c != rest[0]) ==>
            c.activity == old(c.activity) && c.callback == old(c.callback))
    }

    /** Between two steps of the walk: subscribed, and no case attached to this requirement. */
    ghost predicate Walking()
      reads this, subscription, Cases
    {
      Wired() && subscription != null && requirementCases.Some? && IsSuffix(deque, requirementCases.value)
      && NoCaseAttached()
    }

    /** A new requirement is idle and registered for the activity-destroyed event. */
    constructor (activity: Activity, eventSource: EventSourceImpl, requirementCases: seq<RequirementCase>)
      ensures Valid() && fresh(listenerSource)
      ensures this.activity == Some(activity) && this.eventSource == eventSource
      ensures this.requirementCases == Some(requirementCases)
      ensures Cases == set c | c in requirementCases
      ensures deque == [] && subscription == null && listenerSource.listeners == []
      ensures lifecycleRegistered && trace == []
    {
      this.activity := Some(activity);
      this.eventSource := eventSource;
      this.requirementCases := Some(requirementCases);
      deque := [];
      listenerSource := new ListenerSource();
      subscription := null;
      lifecycleRegistered := true;
      trace := [];
      Cases := set c | c in requirementCases;
    }

    /**
     * `validate(listener)`: always registers the listener; starts a run (reset the pending
     * cases to the whole list, subscribe once, walk) only when none is in progress.
     */
    method Validate(listener: Listener, meets: RequirementCase -> bool)
      returns (status: Status, ghost popped: seq<RequirementCase>)
      requires Valid()
      modifies this, listenerSource, eventSource, subscription, Cases
      ensures Valid()
      ensures activity == old(activity) && eventSource == old(eventSource)
      ensures requirementCases == old(requirementCases) && lifecycleRegistered == old(lifecycleRegistered)
      ensures old(subscription) != null ==>
        status == Done && subscription == old(subscription) && deque == old(deque) && trace == old(trace)
        && listenerSource.listeners == old(listenerSource.listeners) + [listener]
        && eventSource.listeners == old(eventSource.listeners) && unchanged(Cases)
      ensures old(subscription) == null && old(requirementCases).None? ==>
        status == Threw(NullPointerException) && subscription == null && deque == [] && trace == old(trace)
        && listenerSource.listeners == old(listenerSource.listeners) + [listener] && unchanged(Cases)
      ensures old(subscription) == null && old(requirementCases).Some? ==>
        status == Done && deque == Pending(old(requirementCases).value, meets)
        && (subscription == null <==> deque == [])
        && (subscription != null ==> fresh(subscription))
        && eventSource.listeners == (if subscription != null then old(eventSource.listeners) + [this]
                                     else RemoveFirst(old(eventSource.listeners) + [this], this))
        && listenerSource.listeners == (if deque == [] then [] else [listener])
        && trace == old(trace) + [Subscribed] + WalkTrace(old(requirementCases).value, meets)
                    + SuccessEnd(deque == [], [listener])
      ensures old(subscription) == null && old(requirementCases).Some? ==>
        old(requirementCases).value == popped + deque && CasesAfter(popped, deque)
    {
      popped := [];
      listenerSource.Add(listener);
      if subscription == null {
        deque := [];
        if requirementCases.None? {
          // deque.addAll(null) after the requirement was torn down
          return Threw(NullPointerException), [];
        }
        deque := requirementCases.value;
        subscription := eventSource.Subscribe(this);
        trace := trace + [Subscribed];
        popped := Advance(meets);
      }
      status := Done;
    }

    /** `currentCase()`: the head of the pending cases, which is the case attached to this requirement. */
    method CurrentCase() returns (current: RequirementCase?)
      requires Valid()
      ensures current == (if deque == [] then null else deque[0])
      ensures current != null <==> IsInProgress()
      ensures current != null ==> current.callback == Some(this) && current.activity == activity
    {
      current := if deque == [] then null else deque[0];
    }

    /** Forwards an activity result to the attached case; false when none is attached. */
    method OnActivityResult(event: ActivityResult, respond: (RequirementCase, ActivityResult) -> bool)
      returns (consumed: bool)
      requires Valid()
      ensures consumed <==> deque != [] && respond(deque[0], event)
      ensures consumed <==> exists c :: c in Cases && c.callback == Some(this) && respond(c, event)
    {
      var current := CurrentCase();
      consumed := current != null && respond(current, event);
    }

    /**
     * Forwards a permission result to the attached case; false when none is attached. The
     * Java body is the same as that of `onActivityResult`, and so is this one.
     */
    method OnRequestPermissionsResult(event: PermissionsResult, respond: (RequirementCase, PermissionsResult) -> bool)
      returns (consumed: bool)
      requires Valid()
      ensures consumed <==> deque != [] && respond(deque[0], event)
      ensures consumed <==> exists c :: c in Cases && c.callback == Some(this) && respond(c, event)
    {
      var current := CurrentCase();
      consumed := current != null && respond(current, event);
    }

    /**
     * One step of the walk: attach the head; if it is satisfied detach it and pop it,
     * otherwise start its resolution (`startResolution()`) and suspend the walk.
     */
    method Step(meets: RequirementCase -> bool) returns (suspended: bool)
      requires Walking() && deque != []
      modifies this, deque[0]
      ensures suspended == !meets(old(deque)[0])
      ensures activity == old(activity) && eventSource == old(eventSource) && subscription == old(subscription)
      ensures requirementCases == old(requirementCases) && lifecycleRegistered == old(lifecycleRegistered)
      ensures suspended ==>
        Valid() && deque == old(deque) && trace == old(trace) + [Attached(deque[0]), ResolutionStarted(deque[0])]
      ensures !suspended ==>
        Walking() && deque == old(deque)[1..] && trace == old(trace) + [Attached(old(deque)[0]), Detached(old(deque)[0])]
      ensures !suspended ==> old(deque)[0].activity.None? && old(deque)[0].callback.None?
      ensures forall c :: c in Cases && c != old(deque)[0] ==> c.activity == old(c.activity) && c.callback == old(c.callback)
    {
      var current := deque[0];
      current.Attach(activity.value, this);
      if !meets(current) {
        trace := trace + [Attached(current), ResolutionStarted(current)];
        return true;
      }
      current.Detach();
      trace := trace + [Attached(current), Detached(current)];
      deque := deque[1..];
      suspended := false;
    }

    /**
     * The recursion of the private `validate()`: attach the head; if it is satisfied, detach
     * and pop it and recur on the rest; otherwise start its resolution and stop. `finished`
     * says that nothing is left pending; `popped` is the prefix walked over.
     */
    method Walk(meets: RequirementCase -> bool) returns (finished: bool, ghost popped: seq<RequirementCase>)
      requires Walking()
      modifies this, Cases
      ensures finished <==> deque == []
      ensures finished ==> Walking()
      ensures !finished ==> Valid()
      ensures activity == old(activity) && eventSource == old(eventSource) && subscription == old(subscription)
      ensures requirementCases == old(requirementCases) && lifecycleRegistered == old(lifecycleRegistered)
      ensures deque == Pending(old(deque), meets)
      ensures trace == old(trace) + WalkTrace(old(deque), meets)
      ensures unchanged(listenerSource, eventSource, subscription)
      ensures old(deque) == popped + deque && CasesAfter(popped, deque)
      decreases |deque|
    {
      if deque == [] {
        return true, [];
      }
      ghost var d := deque;
      var suspended := Step(meets);
      if suspended {
        return false, [];
      }
      ghost var rest;
      finished, rest := Walk(meets);
      popped := [d[0]] + rest;
    }

    /** The private `validate()`: walk, and end the run with success when nothing is left pending. */
    method Advance(meets: RequirementCase -> bool) returns (ghost popped: seq<RequirementCase>)
      requires Walking()
      modifies this, listenerSource, eventSource, subscription, Cases
      ensures Valid()
      ensures activity == old(activity) && eventSource == old(eventSource)
      ensures requirementCases == old(requirementCases) && lifecycleRegistered == old(lifecycleRegistered)
      ensures deque == Pending(old(deque), meets)
      ensures subscription == (if deque == [] then null else old(subscription))
      ensures listenerSource.listeners == (if deque == [] then [] else old(listenerSource.listeners))
      ensures eventSource.listeners
              == if deque == [] then RemoveFirst(old(eventSource.listeners), this) else old(eventSource.listeners)
      ensures trace == old(trace) + WalkTrace(old(deque), meets) + SuccessEnd(deque == [], old(listenerSource.listeners))
      ensures old(deque) == popped + deque && CasesAfter(popped, deque)
    {
      var finished;
      finished, popped := Walk(meets);
      if finished {
        ghost var walked := trace;
        End(true);
        assert trace == walked + SuccessEnd(true, old(listenerSource.listeners));
      }
    }

    /** Gives up the subscription to the activity's events, when one is held. */
    method ReleaseSubscription()
      requires Wired()
      modifies this, eventSource, subscription
      ensures Wired() && subscription == null
      ensures activity == old(activity) && eventSource == old(eventSource) && requirementCases == old(requirementCases)
      ensures deque == old(deque) && lifecycleRegistered == old(lifecycleRegistered)
      ensures old(subscription) != null ==> eventSource.listeners == RemoveFirst(old(eventSource.listeners), this)
      ensures old(subscription) == null && eventSource != null ==> eventSource.listeners == old(eventSource.listeners)
      ensures trace == old(trace) + Unsubscription(old(subscription) != null)
    {
      if subscription != null {
        subscription.Unsubscribe();
        subscription, trace := null, trace + [Unsubscribed];
      }
    }

    /**
     * `end(success)`: clears the pending cases, gives up the subscription if one is held, tells
     * every registration about a success, and forgets the listeners.
     */
    method End(success: bool)
      requires Wired() && NoCaseAttached()
      modifies this, listenerSource, eventSource, subscription
      ensures Valid()
      ensures activity == old(activity) && eventSource == old(eventSource)
      ensures requirementCases == old(requirementCases) && lifecycleRegistered == old(lifecycleRegistered)
      ensures deque == [] && subscription == null && listenerSource.listeners == []
      ensures old(subscription) != null ==> eventSource.listeners == RemoveFirst(old(eventSource.listeners), this)
      ensures old(subscription) == null && eventSource != null ==> eventSource.listeners == old(eventSource.listeners)
      ensures trace == old(trace) + EndTrace(old(subscription) != null, success, old(listenerSource.listeners))
    {
      deque := [];
      ReleaseSubscription();
      ghost var told: seq<Event> := [];
      if success {
        var calls := listenerSource.OnRequirementSuccess();
        trace, told := trace + calls, calls;
      }
      listenerSource.Clear();
      AppendAssoc(old(trace), Unsubscription(old(subscription) != null), told);
    }

    /** Detaches the attached case, which is the head of the pending cases. */
    method DetachHead()
      requires Valid() && subscription != null
      modifies this, deque[0]
      ensures Walking() && deque == old(deque) && deque[0].activity.None? && deque[0].callback.None?
      ensures forall c :: c in Cases && c != deque[0] ==> c.activity == old(c.activity) && c.callback == old(c.callback)
      ensures activity == old(activity) && eventSource == old(eventSource) && subscription == old(subscription)
      ensures requirementCases == old(requirementCases) && lifecycleRegistered == old(lifecycleRegistered)
      ensures trace == old(trace) + [Detached(deque[0])]
    {
      deque[0].Detach();
      trace := trace + [Detached(deque[0])];
    }

    /**
     * `onRequirementCaseResult(result, payload)`: a result with nothing pending is an error.
     * Otherwise the head is detached; a success pops it and resumes the walk, a failure tells
     * every registration and ends the run.
     */
    method OnRequirementCaseResult(result: Result, payload: Option<Payload>, meets: RequirementCase -> bool)
      returns (status: Status, ghost popped: seq<RequirementCase>)
      requires Valid()
      modifies this, listenerSource, eventSource, subscription, Cases
      ensures Valid()
      ensures activity == old(activity) && eventSource == old(eventSource)
      ensures requirementCases == old(requirementCases) && lifecycleRegistered == old(lifecycleRegistered)
      ensures old(deque) == [] ==>
        status == Threw(IllegalStateException) && deque == [] && subscription == old(subscription)
        && listenerSource.listeners == old(listenerSource.listeners) && trace == old(trace)
        && (eventSource != null ==> eventSource.listeners == old(eventSource.listeners)) && unchanged(Cases)
      ensures old(deque) != [] && result == Success ==>
        status == Done && deque == Pending(old(deque)[1..], meets)
        && subscription == (if deque == [] then null else old(subscription))
        && listenerSource.listeners == (if deque == [] then [] else old(listenerSource.listeners))
        && eventSource.listeners
           == (if deque == [] then RemoveFirst(old(eventSource.listeners), this) else old(eventSource.listeners))
        && trace == old(trace) + [Detached(old(deque)[0])] + WalkTrace(old(deque)[1..], meets)
                    + SuccessEnd(deque == [], old(listenerSource.listeners))
      ensures old(deque) != [] && result == Failure ==>
        status == Done && deque == [] && subscription == null && listenerSource.listeners == []
        && eventSource.listeners == RemoveFirst(old(eventSource.listeners), this)
        && trace == old(trace) + [Detached(old(deque)[0])]
                    + Broadcast(old(listenerSource.listeners), RequirementFailure(payload)) + [Unsubscribed]
      ensures old(deque) != [] && result == Success ==> old(deque) == popped + deque && CasesAfter(popped, deque)
      ensures old(deque) != [] && result == Failure ==> popped == [old(deque)[0]] && CasesAfter(popped, [])
    {
      if deque == [] {
        return Threw(IllegalStateException), [];
      }
      if result == Success {
        popped := Resume(meets);
      } else {
        popped := Fail(payload);
      }
      status := Done;
    }

    /** The `SUCCESS` branch: detach the head, pop it and resume the walk. */
    method Resume(meets: RequirementCase -> bool) returns (ghost popped: seq<RequirementCase>)
      requires Valid() && subscription != null
      modifies this, listenerSource, eventSource, subscription, Cases
      ensures Valid()
      ensures activity == old(activity) && eventSource == old(eventSource)
      ensures requirementCases == old(requirementCases) && lifecycleRegistered == old(lifecycleRegistered)
      ensures deque == Pending(old(deque)[1..], meets)
      ensures subscription == (if deque == [] then null else old(subscription))
      ensures listenerSource.listeners == (if deque == [] then [] else old(listenerSource.listeners))
      ensures eventSource.listeners
              == if deque == [] then RemoveFirst(old(eventSource.listeners), this) else old(eventSource.listeners)
      ensures trace == old(trace) + [Detached(old(deque)[0])] + WalkTrace(old(deque)[1..], meets)
                       + SuccessEnd(deque == [], old(listenerSource.listeners))
      ensures old(deque) == popped + deque
      ensures CasesAfter(popped, deque)
    {
      ghost var head := deque[0];
      DetachHead();
      deque := deque[1..];
      ghost var rest := deque;
      ghost var walked := Advance(meets);
      popped := [head] + walked;
      assert old(deque) == [head] + rest == [head] + (walked + deque);
      AppendAssoc([head], walked, deque);
    }

    /** The `FAILURE` branch: detach the head, tell every registration and end the run. */
    method Fail(payload: Option<Payload>) returns (ghost popped: seq<RequirementCase>)
      requires Valid() && subscription != null
      modifies this, listenerSource, eventSource, subscription, Cases
      ensures Valid()
      ensures activity == old(activity) && eventSource == old(eventSource)
      ensures requirementCases == old(requirementCases) && lifecycleRegistered == old(lifecycleRegistered)
      ensures deque == [] && subscription == null && listenerSource.listeners == []
      ensures eventSource.listeners == RemoveFirst(old(eventSource.listeners), this)
      ensures trace == old(trace) + [Detached(old(deque)[0])]
                       + Broadcast(old(listenerSource.listeners), RequirementFailure(payload)) + [Unsubscribed]
      ensures popped == [old(deque)[0]] && CasesAfter(popped, [])
    {
      popped := [deque[0]];
      DetachHead();
      var calls := listenerSource.OnRequirementFailure(payload);
      trace := trace + calls;
      End(false);
    }

    /**
     * The activity-destroyed listener: for another activity nothing happens; for the owning
     * one the requirement unregisters itself, gives up its subscription, detaches the attached
     * case and drops every list and reference. Listeners are not told anything.
     */
    method OnActivityDestroyed(a: Activity)
      requires Valid()
      modifies this, listenerSource, eventSource, subscription, Cases
      ensures Valid()
      ensures old(activity) != Some(a) ==>
        activity == old(activity) && eventSource == old(eventSource) && requirementCases == old(requirementCases)
        && deque == old(deque) && subscription == old(subscription) && lifecycleRegistered == old(lifecycleRegistered)
        && listenerSource.listeners == old(listenerSource.listeners) && trace == old(trace)
        && (eventSource != null ==> eventSource.listeners == old(eventSource.listeners)) && unchanged(Cases)
      ensures old(activity) == Some(a) ==>
        !lifecycleRegistered && activity.None? && eventSource == null && requirementCases.None?
        && deque == [] && subscription == null && listenerSource.listeners == [] && !IsInProgress()
        && NoCaseAttached()
        && (old(subscription) != null ==> old(eventSource).listeners == RemoveFirst(old(eventSource.listeners), this))
        && (old(subscription) == null && old(eventSource) != null ==>
              old(eventSource).listeners == old(eventSource.listeners))
        && trace == old(trace) + Unsubscription(old(subscription) != null)
                    + (if old(deque) != [] then [Detached(old(deque)[0])] else [])
      ensures old(activity) == Some(a) && old(deque) != [] ==> CasesAfter([old(deque)[0]], [])
      ensures old(activity) == Some(a) && old(deque) == [] ==> unchanged(Cases)
    {
      if activity == Some(a) {
        TearDown();
      }
    }

    /** The owning activity was destroyed: unsubscribe, detach the attached case, forget everything. */
    method TearDown()
      requires Valid()
      modifies this, listenerSource, eventSource, subscription, Cases
      ensures Valid()
      ensures !lifecycleRegistered && activity.None? && eventSource == null && requirementCases.None?
      ensures deque == [] && subscription == null && listenerSource.listeners == [] && NoCaseAttached()
      ensures old(subscription) != null ==> old(eventSource).listeners == RemoveFirst(old(eventSource.listeners), this)
      ensures old(subscription) == null && old(eventSource) != null ==>
        old(eventSource).listeners == old(eventSource.listeners)
      ensures trace == old(trace) + Unsubscription(old(subscription) != null)
                       + (if old(deque) != [] then [Detached(old(deque)[0])] else [])
      ensures old(deque) != [] ==> CasesAfter([old(deque)[0]], [])
      ensures old(deque) == [] ==> unchanged(Cases)
    {
      ReleaseSubscription();
      if deque != [] {
        deque[0].Detach();
        trace := trace + [Detached(deque[0])];
      }
      listenerSource.Clear();
      deque, lifecycleRegistered, activity, eventSource, requirementCases := [], false, None, null, None;
    }
  }
}
