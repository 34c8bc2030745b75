/**
 * `RequirementCase`: the part of a case that the library implements. `attach` and `detach`
 * set and clear the activity and the callback; every accessor that needs them throws
 * `IllegalStateException` while the case is detached. The abstract `meetsRequirement` and
 * `startResolution` belong to each concrete case and are supplied to the orchestrator as
 * oracles. Calls into the activity are returned as `HostCall` values, and a delivered
 * result as the `Delivery` naming the callback that receives it.
 */
module RequirementCases {
  import opened Wrappers
  import opened Android

  /** What a case reports to its callback. */
  datatype Result = Success | Failure

  /** One call of `Callback.onRequirementCaseResult(result, payload)` on `callback`. */
  datatype Delivery = Delivery(callback: object, result: Result, payload: Option<Payload>)

  class RequirementCase {
    var activity: Option<Activity>
    var callback: Option<object>

    /** A new case is detached. */
    constructor ()
      ensures activity == None && callback == None
    {
      activity, callback := None, None;
    }

    ghost predicate IsAttached()
      reads this
    {
      activity.Some? && callback.Some?
    }

    method Attach(activity: Activity, callback: object)
      modifies this
      ensures this.activity == Some(activity) && this.callback == Some(callback)
      ensures IsAttached()
    {
      this.activity, this.callback := Some(activity), Some(callback);
    }

    method Detach()
      modifies this
      ensures activity == None && callback == None
      ensures !IsAttached()
    {
      activity, callback := None, None;
    }

    /** The default handler: consumes nothing. */
    method OnActivityResult(event: ActivityResult) returns (consumed: bool)
      ensures !consumed
    {
      consumed := false;
    }

    /** The default permission handler: consumes nothing, as the activity-result one does. */
    method OnRequestPermissionsResult(event: PermissionsResult) returns (consumed: bool)
      ensures !consumed
    {
      consumed := false;
    }

    /** `activity()`: the attached activity itself; throws while detached. */
    method GetActivity() returns (r: Try<Activity>)
      ensures r.Ok? <==> activity.Some?
      ensures r.Ok? ==> activity == Some(r.value)
      ensures r.Throws? ==> r.exception == IllegalStateException
    {
      if activity.None? {
        return Throws(IllegalStateException);
      }
      r := Ok(activity.value);
    }

    /** `appContext()`: the application context of the attached activity; throws while detached. */
    method AppContext(platform: Platform) returns (r: Try<Context>)
      ensures r.Ok? <==> activity.Some?
      ensures r.Ok? ==> r.value == platform.applicationContext(activity.value)
      ensures r.Throws? ==> r.exception == IllegalStateException
    {
      var a := GetActivity();
      if a.Throws? {
        return Throws(a.exception);
      }
      r := Ok(platform.applicationContext(a.value));
    }

    /** `callback()`: the attached callback; throws while detached. */
    method GetCallback() returns (r: Try<object>)
      ensures r.Ok? <==> callback.Some?
      ensures r.Ok? ==> callback == Some(r.value)
      ensures r.Throws? ==> r.exception == IllegalStateException
    {
      if callback.None? {
        return Throws(IllegalStateException);
      }
      r := Ok(callback.value);
    }

    /** `deliverResult(result, payload)`: one call on the attached callback with exactly these arguments. */
    method DeliverResultWithPayload(result: Result, payload: Option<Payload>) returns (r: Try<Delivery>)
      ensures r.Ok? <==> callback.Some?
      ensures r.Ok? ==> r.value == Delivery(callback.value, result, payload)
      ensures r.Throws? ==> r.exception == IllegalStateException
    {
      var cb := GetCallback();
      if cb.Throws? {
        return Throws(cb.exception);
      }
      r := Ok(Delivery(cb.value, result, payload));
    }

    /** `deliverResult(result)`: the same as delivering with a null payload. */
    method DeliverResult(result: Result) returns (r: Try<Delivery>)
      ensures r.Ok? <==> callback.Some?
      ensures r.Ok? ==> r.value == Delivery(callback.value, result, None)
      ensures r.Throws? ==> r.exception == IllegalStateException
    {
      r := DeliverResultWithPayload(result, None);
    }

    /** `startActivityForResult(intent, requestCode)` on the attached activity. */
    method StartActivityForResult(intent: Intent, requestCode: int) returns (r: Try<HostCall>)
      ensures r.Ok? <==> activity.Some?
      ensures r.Ok? ==> r.value == HostCall.StartActivityForResult(activity.value, intent, requestCode)
      ensures r.Throws? ==> r.exception == IllegalStateException
    {
      var a := GetActivity();
      if a.Throws? {
        return Throws(a.exception);
      }
      r := Ok(HostCall.StartActivityForResult(a.value, intent, requestCode));
    }

    /** `requestPermission(permission, requestCode)`: asks the attached activity for that one permission. */
    method RequestPermission(permission: string, requestCode: int) returns (r: Try<HostCall>)
      ensures r.Ok? <==> activity.Some?
      ensures r.Ok? ==> r.value == RequestPermissions(activity.value, [permission], requestCode)
      ensures r.Throws? ==> r.exception == IllegalStateException
    {
      var a := GetActivity();
      if a.Throws? {
        return Throws(a.exception);
      }
      r := Ok(RequestPermissions(a.value, [permission], requestCode));
    }

    /** `checkSelfPermission(permission)`: true iff the attached activity reports the permission granted. */
    method CheckSelfPermission(platform: Platform, permission: string) returns (r: Try<bool>)
      ensures r.Ok? <==> activity.Some?
      ensures r.Ok? ==> (r.value <==> platform.checkSelfPermission(activity.value, permission) == PERMISSION_GRANTED)
      ensures r.Throws? ==> r.exception == IllegalStateException
    {
      var a := GetActivity();
      if a.Throws? {
        return Throws(a.exception);
      }
      r := Ok(platform.checkSelfPermission(a.value, permission) == PERMISSION_GRANTED);
    }

    /** `shouldShowRequestPermissionRationale(permission)` of the attached activity. */
    method ShouldShowRequestPermissionRationale(platform: Platform, permission: string) returns (r: Try<bool>)
      ensures r.Ok? <==> activity.Some?
      ensures r.Ok? ==> r.value == platform.shouldShowRequestPermissionRationale(activity.value, permission)
      ensures r.Throws? ==> r.exception == IllegalStateException
    {
      var a := GetActivity();
      if a.Throws? {
        return Throws(a.exception);
      }
      r := Ok(platform.shouldShowRequestPermissionRationale(a.value, permission));
    }
  }
}
