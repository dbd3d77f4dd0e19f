/** `IsSelfOrAdmin` and `IsAdmin`, the permission classes of the user view set.
    The object of both object checks is a user account, named by its key. */
module UserPermissions {
  import opened Common
  import opened Api

  /** `IsSelfOrAdmin.has_permission` */
  function IsSelfOrAdminHasPermission(who: Requester): (r: bool)
    ensures r <==> IsAuthenticated(who)
  {
    if who.Authenticated? then true else false
  }

  /** `IsSelfOrAdmin.has_object_permission`: elevated users pass for every
      account, anyone else only for their own (`obj == request.user`). */
  function IsSelfOrAdminHasObjectPermission(who: Requester, target: UserId): (r: bool)
    ensures IsElevated(who) ==> r
    ensures !IsElevated(who) ==> (r <==> who.Authenticated? && who.id == target)
  {
    if who.Authenticated? && (who.isSuperuser || who.isStaff) then true
    else who.Authenticated? && who.id == target
  }

  /** `IsAdmin.has_permission` */
  function IsAdminHasPermission(who: Requester): (r: bool)
    ensures r <==> IsElevated(who)
  {
    if who.Authenticated? && (who.isSuperuser || who.isStaff) then true else false
  }

  /** `IsAdmin.has_object_permission`: the coarse answer, whatever the object. */
  function IsAdminHasObjectPermission(who: Requester, target: UserId): (r: bool)
    ensures r == IsAdminHasPermission(who)
  {
    if who.Authenticated? && (who.isSuperuser || who.isStaff) then true else false
  }

  /** `IsAdmin` on an object is at least as strict as `IsSelfOrAdmin`. */
  lemma AdminObjectImpliesSelfOrAdmin(who: Requester, target: UserId)
    ensures IsAdminHasObjectPermission(who, target) ==> IsSelfOrAdminHasObjectPermission(who, target)
  {
  }

  /** The `IsAdmin` object check does not depend on the object. */
  lemma AdminObjectIgnoresTarget(who: Requester, t1: UserId, t2: UserId)
    ensures IsAdminHasObjectPermission(who, t1) == IsAdminHasObjectPermission(who, t2)
  {
  }
}
