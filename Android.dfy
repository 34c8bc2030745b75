/**
 * Stand-ins for the Android platform. Activities, intents, payloads and contexts are
 * opaque identities; the answers the platform gives are oracle functions in `Platform`;
 * the calls the library makes into the platform are recorded as `HostCall` values.
 */
module Android {
  import opened Wrappers

  datatype Activity = Activity(id: nat)

  datatype Context = Context(id: nat)

  /** An `Intent`: an opaque one, or the settings screen of an application package. */
  datatype Intent = Intent(id: nat) | ApplicationDetailsSettings(packageName: string)

  /** An opaque failure reason handed to listeners. */
  datatype Payload = Payload(id: nat)

  /** A `java.lang.Class`, of which only the name matters here. */
  datatype JavaClass = JavaClass(name: string)

  /** `PackageManager.PERMISSION_GRANTED`; any other answer means the permission is not held. */
  const PERMISSION_GRANTED: int := 0

  /** What the platform answers at the moment of a call. */
  datatype Platform = Platform(
    checkSelfPermission: (Activity, string) -> int,
    shouldShowRequestPermissionRationale: (Activity, string) -> bool,
    applicationContext: Activity -> Context,
    packageName: Context -> string)

  /** A call the library makes on an activity. */
  datatype HostCall =
    | StartActivityForResult(activity: Activity, intent: Intent, requestCode: int)
    | RequestPermissions(activity: Activity, permissions: seq<string>, requestCode: int)

  /** The arguments of `onActivityResult(requestCode, resultCode, data)`; `data` may be null. */
  datatype ActivityResult = ActivityResult(requestCode: int, resultCode: int, data: Option<Intent>)

  /** The arguments of `onRequestPermissionsResult(requestCode, permissions, grantResults)`. */
  datatype PermissionsResult = PermissionsResult(requestCode: int, permissions: seq<string>, grantResults: seq<int>)
}
