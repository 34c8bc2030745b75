# Requirements — a Dafny model

The Requirements library for Android resolves a "requirement chain": an ordered list of
requirement cases (a permission is granted, a service is switched on, …) that must all
hold before the application goes on. A `Requirement` walks the list one case at a time.
It attaches the first case that is not yet satisfied to the activity and lets that case
resolve itself. When the case reports back through `deliverResult`, the walk either
continues or fails. Every listener that asked for the current run gets the outcome once.

The model covers the library's core, one Dafny module per Java class:

- `Requirements` models `RequirementImpl` and its `ListenerSource`.
- `EventSources` models `EventSourceImpl` and its `SubscriptionImpl`. This is the
  multiplexer that forwards `onActivityResult` and `onRequestPermissionsResult` events.
- `RequirementBuilders` models `RequirementBuilderImpl`, the single-use builder.
- `RequirementCases` models the library-implemented part of `RequirementCase`:
  - attachment;
  - the guarded accessors;
  - `deliverResult`;
  - the default event hooks;
  - the host helpers.
- `PermissionCases` models `PermissionCase`.
- `RequestCode` models the request-code derivation, with Java `int` arithmetic written out.
- `Flags` and `MutableBools` model the two boolean cells.
- `Android` and `Wrappers` hold the stand-ins these modules share:
  - opaque activities, intents and payloads;
  - platform oracles;
  - recorded host calls;
  - `Option`, `Try` and `Status`.

Each stateful Java class is a Dafny class with the same fields. The orchestrator, the
event source and the builder are proved against specification functions:

- A `RequirementImpl` keeps a ghost `trace` of what it does. The trace records
  attaching, detaching, starting a resolution, subscribing, unsubscribing and notifying a
  listener. Every method states its new trace in terms of the functions `WalkTrace`,
  `Pending`, `Broadcast` and `EndTrace`.
- The walk is a recursive method, as the private `validate()` calls itself
  (`RequirementImpl.java:89-90`).
- Lemmas about those functions give the promised properties:
  - per requirement, at most one case is ever attached;
  - a resolution is started only for the first unsatisfied case;
  - every registered listener is told exactly one outcome.
- A ghost invariant `Valid()` is preserved by every operation of `RequirementImpl`. It
  says:
  - while idle, nothing is pending and no case is attached to this requirement;
  - while a subscription is held, the pending cases are a suffix of the list, and the
    head, and only the head, is attached to this requirement.
- The two-state predicate `CasesAfter(popped, rest)` states what a walk does to the
  cases themselves. Every case it walked over (`popped`) ends with neither an activity
  nor a callback. Every case it did not reach keeps both. The one exception is the head
  of `rest`, the case left attached. A ghost output `popped` names the cases walked over
  by each operation that walks.

Host behaviour enters as parameters:

- `Platform` supplies the answers for a permission check, for the rationale flag, for the
  application context and for the package name.
- A concrete case's `meetsRequirement` is the oracle argument `meets`. What it answers to
  an event is the oracle argument `respond`.
- The calls the library makes on an activity are returned as `HostCall` values.

### Where the model follows the code rather than the declarations or tests

- `EventSourceImpl` calls its listeners in subscription order (`EventSourceImpl.java:24`)
  and ORs every answer without short-circuiting.
- `end` never calls `onComplete` (`RequirementImpl.java:100-114`). The library's tests
  expect it to. The model follows the code: its traces contain no completion event.
- `RequirementImpl.java:117` switches on a `Result` enum, while `RequirementCase.java:152`
  passes a boolean. The model uses one two-valued `Result`. The `default` branch that
  throws for an unknown result therefore cannot be reached and is not modelled.
- Suppose the owning activity was destroyed and `validate(listener)` is then called. The
  listener is registered and the pending cases are cleared. `deque.addAll(null)` then
  throws a `NullPointerException`. `Validate` returns `Threw(NullPointerException)` in
  that state.
- `Preconditions.checkNonNull` throws `IllegalStateException`, not a
  `NullPointerException`. So a null element in `addAll` gives `IllegalStateException`.
  So does an accessor of a detached case.

## Model

| member | source | states |
|---|---|---|
| Requirements.ListenerSource.constructor | library/src/main/java/ru/noties/requirements/RequirementImpl.java:178-180 | a new listener source has no listeners |
| Requirements.ListenerSource.Add | library/src/main/java/ru/noties/requirements/RequirementImpl.java:196-198 | the listener is appended after the earlier registrations, which keep their order |
| Requirements.ListenerSource.Clear | library/src/main/java/ru/noties/requirements/RequirementImpl.java:200-202 | no listener is left |
| Requirements.ListenerSource.OnRequirementSuccess | library/src/main/java/ru/noties/requirements/RequirementImpl.java:182-187 | the notifications made are exactly `Broadcast(listeners, RequirementSuccess)`: one per registration, in registration order |
| Requirements.ListenerSource.OnRequirementFailure | library/src/main/java/ru/noties/requirements/RequirementImpl.java:189-194 | the notifications made are exactly one failure with the given payload per registration, in registration order |
| Requirements.ListenerSource.Notify | library/src/main/java/ru/noties/requirements/RequirementImpl.java:184-186 | the notification loop produces `Broadcast` of the whole listener list |
| Requirements.Broadcast | library/src/main/java/ru/noties/requirements/RequirementImpl.java:184-186 | one notification per registered listener |
| Requirements.BroadcastAppend | library/src/main/java/ru/noties/requirements/RequirementImpl.java:184-186 | registering one more listener appends exactly its notification at the end |
| Requirements.BroadcastOncePerRegistration | library/src/main/java/ru/noties/requirements/RequirementImpl.java:100-114 | a listener registered n times is told the outcome n times and is never told another outcome; a broadcast contains notifications only |
| Requirements.PendingIsFirstUnmet | library/src/main/java/ru/noties/requirements/RequirementImpl.java:80-98 | the walk stops at a suffix of the deque; every case it popped is satisfied; the case it stops at is not |
| Requirements.PendingEmptyIffAllMet | library/src/main/java/ru/noties/requirements/RequirementImpl.java:89-97 | the walk ends the run with success if and only if every pending case is satisfied |
| Requirements.WalkAttachesOneAtATime | library/src/main/java/ru/noties/requirements/RequirementImpl.java:80-98 | replaying the walk never attaches a case while another is attached, never detaches or resolves a case that is not attached, and leaves attached exactly the first unsatisfied case, or none |
| Requirements.WalkStartsOnlyFirstUnmet | library/src/main/java/ru/noties/requirements/RequirementImpl.java:84-85 | a walk starts at most one resolution, as its last step, for the first unsatisfied case; when a case stays pending its resolution is started |
| Requirements.RequirementImpl.constructor | library/src/main/java/ru/noties/requirements/RequirementImpl.java:28-42 | a new requirement is idle, holds the given activity, event source and cases, has no listeners and is registered for the activity-destroyed event |
| Requirements.RequirementImpl.Validate | library/src/main/java/ru/noties/requirements/RequirementImpl.java:45-61 | the listener is always registered. With a subscription held nothing else changes: the event source's listeners, the pending cases, the cases' attachment and the trace are kept. After teardown it fails with a NullPointerException and no case changes. Otherwise it subscribes once, walks the whole list, and ends with success when nothing stays pending. It then stays subscribed exactly while a case is pending. The list is split into the cases walked over and the pending ones: the first end detached, the head of the pending ones is attached, and no other case changes |
| Requirements.RequirementImpl.CurrentCase | library/src/main/java/ru/noties/requirements/RequirementImpl.java:63-66 | the head of the deque, or null; non-null exactly while a run is in progress; the case returned is the one attached to this requirement |
| Requirements.RequirementImpl.OnActivityResult | library/src/main/java/ru/noties/requirements/RequirementImpl.java:68-72 | false when nothing is pending, else the head's answer; equivalently, true iff some case attached to this requirement consumes the event |
| Requirements.RequirementImpl.OnRequestPermissionsResult | library/src/main/java/ru/noties/requirements/RequirementImpl.java:74-78 | the same forwarding for permission results |
| Requirements.RequirementImpl.Step | library/src/main/java/ru/noties/requirements/RequirementImpl.java:81-88 | the head is attached. An unsatisfied head stays attached, its resolution is started and the walk suspends. A satisfied one ends with neither activity nor callback, is popped, and no case is attached to this requirement. No other case changes |
| Requirements.RequirementImpl.Walk | library/src/main/java/ru/noties/requirements/RequirementImpl.java:80-98 | the deque becomes `Pending(deque)` and the trace grows by `WalkTrace(deque)`. It finishes iff nothing is pending. Otherwise the first unsatisfied case is the one attached. Every case walked over ends detached, and no case it did not reach changes. The subscription, the event source and the listeners are untouched |
| Requirements.RequirementImpl.Advance | library/src/main/java/ru/noties/requirements/RequirementImpl.java:80-98 | the walk followed by `end(true)` when it finished. At the end of a run the subscription is released, every registered listener is told of the success, and the listener list is emptied. Otherwise the subscription and the listeners are kept. Every case walked over ends detached, the case it stops at is attached, and no other case changes |
| Requirements.RequirementImpl.ReleaseSubscription | library/src/main/java/ru/noties/requirements/RequirementImpl.java:104-107 | unsubscribes at most once: the requirement is removed from the event source's listeners when a subscription was held, and they are unchanged when none was |
| Requirements.RequirementImpl.End | library/src/main/java/ru/noties/requirements/RequirementImpl.java:100-114 | leaves the deque empty, the subscription null and the listener list empty. It removes itself from the event source's listeners only when subscribed, and leaves them unchanged otherwise. It notifies success only when asked to. The trace grows by exactly `EndTrace` |
| Requirements.RequirementImpl.DetachHead | library/src/main/java/ru/noties/requirements/RequirementImpl.java:123 | the head ends with neither activity nor callback, so no case stays attached to this requirement. No other case and nothing else changes |
| Requirements.RequirementImpl.OnRequirementCaseResult | library/src/main/java/ru/noties/requirements/RequirementImpl.java:116-144 | with nothing pending it throws IllegalStateException and changes nothing, neither the event source's listeners nor any case. On success the head is detached, popped and the walk resumes; when the walk finishes, the requirement is removed from the event source's listeners. On failure the head is detached, every registration is told the failure with its payload once, the requirement is removed from the event source's listeners, and the run ends. Either way the head and every case walked over end detached, and no other case changes except the new head, which is attached |
| Requirements.RequirementImpl.Resume | library/src/main/java/ru/noties/requirements/RequirementImpl.java:123-130 | the `SUCCESS` branch: the head is detached and popped, the deque becomes `Pending` of the rest and the run ends with success when nothing is left. Every case walked over ends detached, the new head is attached, and no other case changes |
| Requirements.RequirementImpl.Fail | library/src/main/java/ru/noties/requirements/RequirementImpl.java:132-135 | the `FAILURE` branch: the head ends detached, every registration is told the failure once, the subscription is released and nothing is left pending; no other case changes |
| Requirements.RequirementImpl.OnActivityDestroyed | library/src/main/java/ru/noties/requirements/RequirementImpl.java:146-171 | another activity changes nothing, neither the event source's listeners nor any case. The owning activity's destruction unregisters the requirement, unsubscribes when subscribed, and detaches the head: it ends with neither activity nor callback and no other case changes. It empties or nulls the deque, the listeners and every reference. No listener is told anything |
| Requirements.RequirementImpl.TearDown | library/src/main/java/ru/noties/requirements/RequirementImpl.java:149-169 | the owning activity's destruction: unregistered, unsubscribed at most once, the head detached with no other case changed, every list and reference dropped, and nobody told |
| EventSources.RemoveFirst | library/src/main/java/ru/noties/requirements/EventSourceImpl.java:63 | `List.remove(o)`: one element shorter when `o` is present, unchanged when it is not |
| EventSources.RemoveFirstMultiset | library/src/main/java/ru/noties/requirements/EventSourceImpl.java:63 | removal takes out exactly one occurrence and keeps every other element |
| EventSources.IndexOf | library/src/main/java/ru/noties/requirements/EventSourceImpl.java:63 | the position of the first occurrence |
| EventSources.RemoveFirstAt | library/src/main/java/ru/noties/requirements/EventSourceImpl.java:63 | removal takes out the first occurrence and keeps the order of the rest |
| EventSources.EventSourceImpl.constructor | library/src/main/java/ru/noties/requirements/EventSourceImpl.java:14-17 | a new event source has no listeners |
| EventSources.EventSourceImpl.OnActivityResult | library/src/main/java/ru/noties/requirements/EventSourceImpl.java:19-29 | every listener, in list order, is called once with the event and only on its activity-result handler; the answer is true iff some listener consumed it (false with no listeners); the listener list is not modified |
| EventSources.EventSourceImpl.OnRequestPermissionsResult | library/src/main/java/ru/noties/requirements/EventSourceImpl.java:31-42 | the same for permission results, which only reach the permission handlers |
| EventSources.EventSourceImpl.Subscribe | library/src/main/java/ru/noties/requirements/EventSourceImpl.java:44-48 | the listener is appended and a fresh handle for it is returned |
| EventSources.Subscription.constructor | library/src/main/java/ru/noties/requirements/EventSourceImpl.java:54-57 | the handle remembers its listener, which is appended to the source's list |
| EventSources.Subscription.Unsubscribe | library/src/main/java/ru/noties/requirements/EventSourceImpl.java:59-66 | the first call removes the listener's first occurrence; later calls change nothing |
| RequirementBuilders.Appended | library/src/main/java/ru/noties/requirements/RequirementBuilderImpl.java:51-54 | what a loop of `add` appends is never longer than the input |
| RequirementBuilders.AppendedIsNullFreePrefix | library/src/main/java/ru/noties/requirements/RequirementBuilderImpl.java:51-54 | what is appended is the input up to its first null, in order, and all of it exactly when there is no null |
| RequirementBuilders.RequirementBuilderImpl.constructor | library/src/main/java/ru/noties/requirements/RequirementBuilderImpl.java:17-19 | a new builder is unbuilt with an empty list |
| RequirementBuilders.RequirementBuilderImpl.CheckState | library/src/main/java/ru/noties/requirements/RequirementBuilderImpl.java:103-109 | throws IllegalStateException exactly when already built |
| RequirementBuilders.RequirementBuilderImpl.Add | library/src/main/java/ru/noties/requirements/RequirementBuilderImpl.java:23-30 | throws and changes nothing after `build`; otherwise appends the case after the earlier ones |
| RequirementBuilders.RequirementBuilderImpl.AddIf | library/src/main/java/ru/noties/requirements/RequirementBuilderImpl.java:34-43 | throws after `build` even when the condition is false; otherwise `add` when the condition holds and no change when it does not |
| RequirementBuilders.RequirementBuilderImpl.AddAll | library/src/main/java/ru/noties/requirements/RequirementBuilderImpl.java:47-57 | throws after `build`. Otherwise it appends the cases in order and throws IllegalStateException iff one is null; the cases before that null stay appended |
| RequirementBuilders.RequirementBuilderImpl.AddAllIf | library/src/main/java/ru/noties/requirements/RequirementBuilderImpl.java:61-70 | throws after `build` even when the condition is false; otherwise `addAll` when the condition holds and no change when it does not |
| RequirementBuilders.RequirementBuilderImpl.Fork | library/src/main/java/ru/noties/requirements/RequirementBuilderImpl.java:74-82 | throws after `build`. Otherwise it returns a fresh, unbuilt builder whose list equals this one. The lists are values, so later changes to either builder do not reach the other |
| RequirementBuilders.RequirementBuilderImpl.Build | library/src/main/java/ru/noties/requirements/RequirementBuilderImpl.java:86-101 | succeeds only once: it marks the builder built, releases its list and returns a fresh, idle requirement holding exactly the collected cases in order; later calls throw |
| RequirementCases.RequirementCase.constructor | library/src/main/java/ru/noties/requirements/RequirementCase.java:39-40 | a new case is detached |
| RequirementCases.RequirementCase.Attach | library/src/main/java/ru/noties/requirements/RequirementCase.java:43-46 | sets both the activity and the callback |
| RequirementCases.RequirementCase.Detach | library/src/main/java/ru/noties/requirements/RequirementCase.java:48-51 | clears both |
| RequirementCases.RequirementCase.OnActivityResult | library/src/main/java/ru/noties/requirements/RequirementCase.java:58-60 | the default hook consumes nothing and changes nothing |
| RequirementCases.RequirementCase.OnRequestPermissionsResult | library/src/main/java/ru/noties/requirements/RequirementCase.java:67-70 | the default hook consumes nothing and changes nothing |
| RequirementCases.RequirementCase.GetActivity | library/src/main/java/ru/noties/requirements/RequirementCase.java:84-88 | the attached activity itself; IllegalStateException exactly while detached |
| RequirementCases.RequirementCase.AppContext | library/src/main/java/ru/noties/requirements/RequirementCase.java:75-79 | the attached activity's application context; IllegalStateException exactly while detached |
| RequirementCases.RequirementCase.GetCallback | library/src/main/java/ru/noties/requirements/RequirementCase.java:90-94 | the attached callback; IllegalStateException exactly while detached |
| RequirementCases.RequirementCase.DeliverResultWithPayload | library/src/main/java/ru/noties/requirements/RequirementCase.java:113-116 | exactly one delivery to the attached callback with the same result and payload; IllegalStateException exactly while detached |
| RequirementCases.RequirementCase.DeliverResult | library/src/main/java/ru/noties/requirements/RequirementCase.java:102-104 | the same as delivering with a null payload |
| RequirementCases.RequirementCase.StartActivityForResult | library/src/main/java/ru/noties/requirements/RequirementCase.java:121-123 | the call made on the attached activity, with the given intent and code; IllegalStateException exactly while detached |
| RequirementCases.RequirementCase.RequestPermission | library/src/main/java/ru/noties/requirements/RequirementCase.java:128-131 | a request for exactly that one permission under the given code on the attached activity; IllegalStateException exactly while detached |
| RequirementCases.RequirementCase.CheckSelfPermission | library/src/main/java/ru/noties/requirements/RequirementCase.java:136-139 | true iff the attached activity reports PERMISSION_GRANTED; IllegalStateException exactly while detached |
| RequirementCases.RequirementCase.ShouldShowRequestPermissionRationale | library/src/main/java/ru/noties/requirements/RequirementCase.java:144-147 | the attached activity's rationale flag; IllegalStateException exactly while detached |
| PermissionCases.PermissionCase.constructor | library/src/main/java/ru/noties/requirements/PermissionCase.java:30-32 | the request code is `createRequestCode(permission)`, so it lies in [0, MAX) |
| PermissionCases.PermissionCase.WithRequestCode | library/src/main/java/ru/noties/requirements/PermissionCase.java:34-37 | keeps the permission and the request code as given |
| PermissionCases.PermissionCase.MeetsRequirement | library/src/main/java/ru/noties/requirements/PermissionCase.java:42-45 | satisfied iff the attached activity holds the permission; throws while detached |
| PermissionCases.PermissionCase.StartResolution | library/src/main/java/ru/noties/requirements/PermissionCase.java:50-57 | shows the rationale exactly when the platform asks for one and otherwise requests this permission under this request code |
| PermissionCases.PermissionCase.RequestPermission | library/src/main/java/ru/noties/requirements/PermissionCase.java:78-80 | requests this permission under this request code |
| PermissionCases.PermissionCase.ShowExplanationOnNever | library/src/main/java/ru/noties/requirements/PermissionCase.java:70-72 | the default delivers a failure without payload |
| PermissionCases.PermissionCase.NavigateToSettingsScreen | library/src/main/java/ru/noties/requirements/PermissionCase.java:87-93 | starts the application-details settings screen of the application's package under this request code |
| PermissionCases.PermissionCase.OnActivityResult | library/src/main/java/ru/noties/requirements/PermissionCase.java:98-108 | consumed iff the code matches. On a match it delivers success exactly when the permission is held, and failure otherwise. On a mismatch nothing is delivered |
| PermissionCases.PermissionCase.OnRequestPermissionsResult | library/src/main/java/ru/noties/requirements/PermissionCase.java:113-131 | on a mismatch: not consumed, nothing delivered. On a match it is always consumed. The outcome is success iff the first grant entry is PERMISSION_GRANTED, and later entries are ignored. Otherwise it is the explanation hook when no rationale is offered, and failure when one is |
| RequestCode.JavaRem | library/src/main/java/ru/noties/requirements/RequestCode.java:23 | Java's `%` as the Java Language Specification defines it: `(a / b) * b + a % b == a` with the quotient truncated toward zero, the remainder smaller than the divisor in magnitude and never of the opposite sign to the dividend |
| RequestCode.CreateRequestCode | library/src/main/java/ru/noties/requirements/RequestCode.java:22-24 | for every tag the code lies in [0, MAX) and equals `|hashCode(tag)| mod MAX`, so equal tags give equal codes |
| RequestCode.CodeOfHash | library/src/main/java/ru/noties/requirements/RequestCode.java:23 | for every 32-bit hash, `Math.abs(h % MAX)` lies in [0, MAX) and equals `|h| mod MAX`; `Math.abs` does not overflow |
| RequestCode.CreateRequestCodeForClass | library/src/main/java/ru/noties/requirements/RequestCode.java:26-28 | the code of a class is the code of its name, and lies in [0, MAX) |
| RequestCode.HashUnitsIsWrappedPolynomial | library/src/main/java/ru/noties/requirements/RequestCode.java:23 | the hash used is the 31-polynomial over the string's UTF-16 units, wrapped once into a Java `int` |
| Flags.Flag.constructor | library/src/main/java/ru/noties/requirements/Flag.java:28-29 | a new flag is not set |
| Flags.Flag.Create | library/src/main/java/ru/noties/requirements/Flag.java:16-19 | a fresh flag that is not set |
| Flags.Flag.Mark | library/src/main/java/ru/noties/requirements/Flag.java:31-33 | the flag is set afterwards, whatever it was, so marking is idempotent |
| Flags.Flag.IsSet | library/src/main/java/ru/noties/requirements/Flag.java:35-37 | reports the flag and changes nothing |
| MutableBools.MutableBool.constructor | library/src/main/java/ru/noties/requirements/MutableBool.java:12-14 | the default value is false |
| MutableBools.MutableBool.WithValue | library/src/main/java/ru/noties/requirements/MutableBool.java:17-19 | holds the given value |
| MutableBools.MutableBool.Value | library/src/main/java/ru/noties/requirements/MutableBool.java:21-23 | reports the value and changes nothing |
| MutableBools.MutableBool.SetValue | library/src/main/java/ru/noties/requirements/MutableBool.java:26-28 | holds the given value afterwards, including false |

## Left out

- The `EventDispatcher` family of classes is not part of this model:
  - `EventDispatcher`;
  - `EventDispatcherActivity`;
  - `EventDispatcherFragment` and `EventDispatcherFragmentCompat`;
  - `fragment/FragmentDispatcher`.

  They forward one call each to the Android `Activity` or `Fragment` APIs. The activity is
  an opaque value, and the answers it gives are the `Platform` oracles.
- `fragment/EventControllerFragment` and `fragment/FragmentEventController` are not part of
  this model. They are Fragment lifecycle and FragmentManager transactions. Their event
  source keeps the same copy-on-write list of listeners as `EventSourceImpl`, but differs
  from it:
  - its own dispatch methods throw `IllegalStateException`
    (`fragment/EventControllerFragment.java:55-62`);
  - the fragment loops over the list itself and ignores the listeners' answers
    (`fragment/EventControllerFragment.java:36-48`);
  - its unsubscribe has no guard against a second call
    (`fragment/EventControllerFragment.java:70-72`).
- The sample application and `BuildUtils` are not part of this model. They are UI dialogs
  and an SDK-level comparison.
- `Flag.SyncFlag` is left out. Its only difference from `Flag` is `synchronized`, and the
  model has no concurrency.
- `Requirement.isValid`, `cancel`, `isInProgress`, `destroy` and `isDestroyed` are declared
  without an implementation in `RequirementImpl`, so they are not modelled. The ghost
  predicate `IsInProgress()` (subscription held) stands for what the library's tests
  expect of `isInProgress`.
- `end` never calls `onComplete`, so no completion event is modelled (see above).
- The concrete cases are oracles. `meetsRequirement` of an arbitrary case is the `meets`
  argument, and its event handlers are the `respond` argument. `startResolution` of an
  arbitrary case is recorded as the `ResolutionStarted` event.
- `PermissionCase.showPermissionRationale` is abstract. It is recorded as the
  `ShowPermissionRationale` resolution. An overridden `showExplanationOnNever` is recorded
  as the `ShowExplanationOnNever` action.
- `Valid()` assumes that a case object belongs to at most one requirement in progress.
  The library allows more: `fork` builds requirements that share cases
  (`RequirementBuilder.java:11-13`). Suppose two forked requirements are validated at
  the same time and both reach a shared case. In Java the second one re-attaches that
  case (`RequirementImpl.java:83`) and overwrites its callback. The first requirement stays
  subscribed with that case at the head of its deque, and it is never told the case's
  result. The model cannot reach that state: every operation of `RequirementImpl`
  requires its own head to be attached to itself.
- Re-entrant calls are modelled as a later call. A case may call `deliverResult`
  synchronously, from inside `startResolution` or from its event handler. In the model,
  the environment makes `OnRequirementCaseResult` after the triggering method returns.
  - For `startResolution` the order of effects is the same: after it returns, the walk
    and `validate(listener)` return without doing anything more.
  - For an event handler it is not. `EventSourceImpl` goes on to call the remaining
    listeners after the requirement's handler returns. So in Java a synchronous result
    resumes the walk, and may end the run and unsubscribe, before those listeners run.
    The model places that result after the whole dispatch. The same listeners are called
    either way, because dispatch works on a snapshot of the listener list, as the
    copy-on-write list does. What the model does not capture is the interleaving of the
    requirement's effects with the later listeners' handlers.
  - Other re-entrancy is not modelled, for example a listener that subscribes or
    unsubscribes during a dispatch.
- Registering with the application's lifecycle callbacks is the ghost field
  `lifecycleRegistered`. The activity-destroyed callback is the method
  `OnActivityDestroyed(a)`.
- `Collections.unmodifiableList` is not modelled as a separate object. The list is a Dafny
  sequence value, which cannot be changed through the requirement.
- The `@IntRange(0, MAX)` annotations of the host helpers are documentation, not checks.
  The helpers accept any `int`, as the code does. `CreateRequestCode` proves that the
  library's own codes lie in range.
- `RequirementBuilder.create()` and the `Requirement.Listener` adapter hold no logic of
  their own and are not modelled.
- String hashing counts characters as UTF-16 code units, as Java does. Android-specific
  string representations are not modelled.
- `RequirementBuilders.Appended`: its own contract states only the length bound. What it
  appends, the longest null-free prefix, is stated by `AppendedIsNullFreePrefix`.
- `RequirementBuilders.RequirementBuilderImpl.Add` and `AddIf` take a non-null case, as the
  `@NonNull` declaration says. Java's `add` does not check
  (`RequirementBuilderImpl.java:23-30`). A null case added there would make `validate`
  throw later, from `ArrayDeque.addAll` (`RequirementImpl.java:55`).
