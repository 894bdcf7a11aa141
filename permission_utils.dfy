/** Runtime permission checks. The permission authority is abstracted as the
    set of permission names currently granted to the application. */
module PermissionUtils {

  // `PackageManager.PERMISSION_*`
  const PermissionGranted := 0
  const PermissionDenied := -1

  /** `ContextCompat.checkSelfPermission`: the platform's answer for one
      permission, read off the granted set. */
  function CheckSelfPermission(granted: set<string>, permission: string): (state: int)
    ensures state == PermissionGranted || state == PermissionDenied
  {
    if permission in granted then PermissionGranted else PermissionDenied
  }

  /** `Context.hasPermission(permission)`: `checkSelfPermission` reports
      PERMISSION_GRANTED, which happens exactly for a granted permission. */
  predicate HasPermission(granted: set<string>, permission: string)
    ensures HasPermission(granted, permission) <==> permission in granted
  {
    CheckSelfPermission(granted, permission) == PermissionGranted
  }

  /** Some permission of the list is granted. */
  predicate AnyGranted(granted: set<string>, permissions: seq<string>) {
    exists i :: 0 <= i < |permissions| && permissions[i] in granted
  }

  /** Every permission of the list is granted. */
  predicate AllGranted(granted: set<string>, permissions: seq<string>) {
    forall i :: 0 <= i < |permissions| ==> permissions[i] in granted
  }

  /** `Context.hasPermissionSome(vararg permissions)`: scans the list and
      returns true at the first granted permission. */
  method HasPermissionSome(granted: set<string>, permissions: seq<string>) returns (b: bool)
    ensures b <==> AnyGranted(granted, permissions)
  {
    for i := 0 to |permissions|
      invariant forall j :: 0 <= j < i ==> permissions[j] !in granted
    {
      if HasPermission(granted, permissions[i]) {
        return true;
      }
    }
    return false;
  }

  /** `Context.hasPermission(vararg permissions)`: scans the list and
      returns false at the first permission that is not granted. */
  method HasPermissions(granted: set<string>, permissions: seq<string>) returns (b: bool)
    ensures b <==> AllGranted(granted, permissions)
  {
    for i := 0 to |permissions|
      invariant forall j :: 0 <= j < i ==> permissions[j] in granted
    {
      if !HasPermission(granted, permissions[i]) {
        return false;
      }
    }
    return true;
  }

  /** `Context.checkPermission(permission, actionGranted, actionDenied)`:
      the actions are state transformers, and exactly one of them is applied,
      `actionGranted` precisely when the permission is granted. */
  function CheckPermission<S>(granted: set<string>, permission: string, state: S,
                              actionGranted: S -> S, actionDenied: S -> S): (next: S)
    ensures permission in granted ==> next == actionGranted(state)
    ensures permission !in granted ==> next == actionDenied(state)
  {
    if HasPermission(granted, permission) then actionGranted(state) else actionDenied(state)
  }

  /** An empty any-of check fails and an empty all-of check succeeds. */
  lemma EmptyPermissionLists(granted: set<string>)
    ensures !AnyGranted(granted, [])
    ensures AllGranted(granted, [])
  {
  }

  /** For a non-empty list, all-of implies any-of. */
  lemma AllGrantedImpliesAnyGranted(granted: set<string>, permissions: seq<string>)
    requires |permissions| > 0
    requires AllGranted(granted, permissions)
    ensures AnyGranted(granted, permissions)
  {
    assert permissions[0] in granted;
  }

  /** Any-of and all-of agree on a single permission with the one-permission
      check. */
  lemma SinglePermissionLists(granted: set<string>, permission: string)
    ensures AnyGranted(granted, [permission]) <==> HasPermission(granted, permission)
    ensures AllGranted(granted, [permission]) <==> HasPermission(granted, permission)
  {
    if HasPermission(granted, permission) {
      assert [permission][0] in granted;
    } else {
      assert [permission][0] !in granted;
    }
  }
}
