/**
 * `PermissionCase`: a case satisfied when one Android permission is granted. In the source
 * it extends `RequirementCase`; here the attachment state it inherits is the `base` object,
 * and each of its decisions is a method that reads that state and the platform's answers.
 * The hooks a subclass supplies (`showPermissionRationale`, an overridden
 * `showExplanationOnNever`) are recorded as the actions the handlers choose.
 */
module PermissionCases {
  import opened Wrappers
  import opened Android
  import opened RequestCode
  import opened RequirementCases

  /** What `startResolution` does. */
  datatype Resolution = ShowPermissionRationale | Requested(call: HostCall)

  /** What a result handler does once it has looked at an event. */
  datatype Action = NoAction | Deliver(delivery: Delivery) | ShowExplanationOnNever

  /** A handler's answer: whether the event was consumed, and what it did. */
  datatype Response = Response(consumed: bool, action: Action)

  /** The grant test of `onRequestPermissionsResult`: only the first entry counts. */
  predicate IsGranted(grantResults: seq<int>) {
    |grantResults| > 0 && grantResults[0] == PERMISSION_GRANTED
  }

  class PermissionCase {
    const permission: string
    const requestCode: int
    /** The `RequirementCase` part of this case. */
    const base: RequirementCase

    /** `PermissionCase(permission)`: the request code is derived from the permission name. */
    constructor (permission: string)
      ensures this.permission == permission && requestCode == CreateRequestCode(permission)
      ensures 0 <= requestCode < MAX
      ensures fresh(base) && base.activity.None? && base.callback.None?
    {
      this.permission := permission;
      this.requestCode := CreateRequestCode(permission);
      base := new RequirementCase();
    }

    /** `PermissionCase(permission, requestCode)`. */
    constructor WithRequestCode(permission: string, requestCode: int)
      ensures this.permission == permission && this.requestCode == requestCode
      ensures fresh(base) && base.activity.None? && base.callback.None?
    {
      this.permission := permission;
      this.requestCode := requestCode;
      base := new RequirementCase();
    }

    /** Satisfied iff the attached activity holds the permission; throws while detached. */
    method MeetsRequirement(platform: Platform) returns (r: Try<bool>)
      ensures r.Ok? <==> base.activity.Some?
      ensures r.Ok? ==> (r.value <==> platform.checkSelfPermission(base.activity.value, permission) == PERMISSION_GRANTED)
      ensures r.Throws? ==> r.exception == IllegalStateException
    {
      r := base.CheckSelfPermission(platform, permission);
    }

    /** Shows the rationale exactly when the platform asks for one, and otherwise requests the permission. */
    method StartResolution(platform: Platform) returns (r: Try<Resolution>)
      ensures r.Ok? <==> base.activity.Some?
      ensures r.Ok? ==> (r.value == ShowPermissionRationale
                         <==> platform.shouldShowRequestPermissionRationale(base.activity.value, permission))
      ensures r.Ok? && r.value.Requested? ==> r.value.call == RequestPermissions(base.activity.value, [permission], requestCode)
      ensures r.Throws? ==> r.exception == IllegalStateException
    {
      var rationale := base.ShouldShowRequestPermissionRationale(platform, permission);
      if rationale.Throws? {
        return Throws(rationale.exception);
      }
      if rationale.value {
        r := Ok(ShowPermissionRationale);
      } else {
        var call := RequestPermission();
        r := Ok(Requested(call.value));
      }
    }

    /** `requestPermission()`: asks the attached activity for this permission under this request code. */
    method RequestPermission() returns (r: Try<HostCall>)
      ensures r.Ok? <==> base.activity.Some?
      ensures r.Ok? ==> r.value == RequestPermissions(base.activity.value, [permission], requestCode)
      ensures r.Throws? ==> r.exception == IllegalStateException
    {
      r := base.RequestPermission(permission, requestCode);
    }

    /** The default `showExplanationOnNever`: delivers a failure without a payload. */
    method ShowExplanationOnNever() returns (r: Try<Delivery>)
      ensures r.Ok? <==> base.callback.Some?
      ensures r.Ok? ==> r.value == Delivery(base.callback.value, Failure, None)
      ensures r.Throws? ==> r.exception == IllegalStateException
    {
      r := base.DeliverResult(Failure);
    }

    /** `navigateToSettingsScreen()`: opens this application's settings screen under this request code. */
    method NavigateToSettingsScreen(platform: Platform) returns (r: Try<HostCall>)
      ensures r.Ok? <==> base.activity.Some?
      ensures r.Ok? ==>
        var a := base.activity.value;
        r.value == HostCall.StartActivityForResult(
          a, ApplicationDetailsSettings(platform.packageName(platform.applicationContext(a))), requestCode)
      ensures r.Throws? ==> r.exception == IllegalStateException
    {
      var context := base.AppContext(platform);
      if context.Throws? {
        return Throws(context.exception);
      }
      var intent := ApplicationDetailsSettings(platform.packageName(context.value));
      r := base.StartActivityForResult(intent, requestCode);
    }

    /**
     * An activity result under this request code is consumed and answered with success exactly
     * when the permission is now held; any other request code is left alone.
     */
    method OnActivityResult(event: ActivityResult, platform: Platform) returns (r: Try<Response>)
      ensures event.requestCode != requestCode ==> r == Ok(Response(false, NoAction))
      ensures event.requestCode == requestCode ==>
        (r.Ok? <==> base.activity.Some? && base.callback.Some?)
      ensures event.requestCode == requestCode && r.Ok? ==>
        var granted := platform.checkSelfPermission(base.activity.value, permission) == PERMISSION_GRANTED;
        r.value == Response(true, Deliver(Delivery(base.callback.value, if granted then Success else Failure, None)))
      ensures r.Throws? ==> r.exception == IllegalStateException
    {
      if requestCode == event.requestCode {
        var meets := MeetsRequirement(platform);
        if meets.Throws? {
          return Throws(meets.exception);
        }
        var delivery := base.DeliverResult(if meets.value then Success else Failure);
        if delivery.Throws? {
          return Throws(delivery.exception);
        }
        return Ok(Response(true, Deliver(delivery.value)));
      }
      r := Ok(Response(false, NoAction));
    }

    /**
     * A permission result under this request code is always consumed: success when the first
     * grant entry is PERMISSION_GRANTED; otherwise the explanation hook when the platform no
     * longer offers a rationale (the user chose "never"), and a failure when it does.
     */
    method OnRequestPermissionsResult(event: PermissionsResult, platform: Platform) returns (r: Try<Response>)
      ensures event.requestCode != requestCode ==> r == Ok(Response(false, NoAction))
      ensures event.requestCode == requestCode && r.Ok? ==> r.value.consumed
      ensures event.requestCode == requestCode && IsGranted(event.grantResults) ==>
        r == (if base.callback.None? then Throws(IllegalStateException)
              else Ok(Response(true, Deliver(Delivery(base.callback.value, Success, None)))))
      ensures event.requestCode == requestCode && !IsGranted(event.grantResults) && base.activity.None? ==>
        r == Throws(IllegalStateException)
      ensures event.requestCode == requestCode && !IsGranted(event.grantResults) && base.activity.Some?
              && !platform.shouldShowRequestPermissionRationale(base.activity.value, permission) ==>
        r == Ok(Response(true, Action.ShowExplanationOnNever))
      ensures event.requestCode == requestCode && !IsGranted(event.grantResults) && base.activity.Some?
              && platform.shouldShowRequestPermissionRationale(base.activity.value, permission) ==>
        r == (if base.callback.None? then Throws(IllegalStateException)
              else Ok(Response(true, Deliver(Delivery(base.callback.value, Failure, None)))))
    {
      if requestCode == event.requestCode {
        if |event.grantResults| > 0 && PERMISSION_GRANTED == event.grantResults[0] {
          var delivery := base.DeliverResult(Success);
          if delivery.Throws? {
            return Throws(delivery.exception);
          }
          return Ok(Response(true, Deliver(delivery.value)));
        }
        var rationale := base.ShouldShowRequestPermissionRationale(platform, permission);
        if rationale.Throws? {
          return Throws(rationale.exception);
        }
        if !rationale.value {
          return Ok(Response(true, Action.ShowExplanationOnNever));
        }
        var delivery := base.DeliverResult(Failure);
        if delivery.Throws? {
          return Throws(delivery.exception);
        }
        return Ok(Response(true, Deliver(delivery.value)));
      }
      r := Ok(Response(false, NoAction));
    }
  }
}
