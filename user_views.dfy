/** `UserViewSet`: which accounts a requester sees, which serializer each
    action uses, and which permission classes guard each action. */
module UserViews {
  import opened Common
  import opened Api
  import opened UserModels
  import opened UserPermissions

  /** `get_queryset`: elevated users see every account, others only the active ones. */
  function UserScope(who: Requester, users: map<UserId, User>): (r: map<UserId, User>)
    ensures IsElevated(who) ==> r == users
    ensures !IsElevated(who) ==> forall id :: id in r <==> IsActiveUser(users, id)
    ensures forall id :: id in r ==> id in users && r[id] == users[id]
  {
    if who.Authenticated? && (who.isSuperuser || who.isStaff) then users
    else map id | id in users && users[id].isActive :: users[id]
  }

  /** Every account a plain requester sees, an elevated one sees too. */
  lemma UserScopeGrowsWithElevation(plain: Requester, elevated: Requester, users: map<UserId, User>)
    requires IsElevated(elevated)
    ensures UserScope(plain, users).Keys <= UserScope(elevated, users).Keys
  {
  }

  datatype SerializerClass = UserSerializer | UserListSerializer

  /** `get_serializer_class` */
  function SerializerClassFor(action: Action): (r: SerializerClass)
    ensures r == UserListSerializer <==> action == List
  {
    if action == List then UserListSerializer else UserSerializer
  }

  datatype PermissionClass = IsAuthenticated | IsAdmin | IsSelfOrAdmin

  /** What `get_permissions` assigns for an action. */
  function PermissionClassesFor(action: Action): (r: seq<PermissionClass>)
    ensures |r| == 1
    ensures r[0] == IsAuthenticated <==> action == List
    ensures r[0] == IsAdmin <==> action == Create
  {
    if action == List then [IsAuthenticated]
    else if action == Create then [IsAdmin]
    else [IsSelfOrAdmin]
  }

  /** The coarse check of each class. */
  function HasPermission(p: PermissionClass, who: Requester): bool
  {
    match p
    case IsAuthenticated => Api.IsAuthenticated(who)
    case IsAdmin => IsAdminHasPermission(who)
    case IsSelfOrAdmin => IsSelfOrAdminHasPermission(who)
  }

  /** The object check of each class; the framework's `IsAuthenticated` keeps
      the default, which allows every object. */
  function HasObjectPermission(p: PermissionClass, who: Requester, target: UserId): bool
  {
    match p
    case IsAuthenticated => true
    case IsAdmin => IsAdminHasObjectPermission(who, target)
    case IsSelfOrAdmin => IsSelfOrAdminHasObjectPermission(who, target)
  }

  /** Every configured class passes the coarse check. */
  predicate MayAttempt(action: Action, who: Requester)
  {
    forall p :: p in PermissionClassesFor(action) ==> HasPermission(p, who)
  }

  /** Every configured class passes both checks against account `target`. */
  predicate MayAccess(action: Action, who: Requester, target: UserId)
  {
    MayAttempt(action, who) && forall p :: p in PermissionClassesFor(action) ==> HasObjectPermission(p, who, target)
  }

  /** Listing needs a signed-in requester, creating needs an elevated one, and
      every detail action needs the account's owner or an elevated requester. */
  lemma UserActionRules(action: Action, who: Requester, target: UserId)
    ensures MayAttempt(List, who) <==> Api.IsAuthenticated(who)
    ensures MayAttempt(Create, who) <==> IsElevated(who)
    ensures action != List && action != Create ==>
              (MayAccess(action, who, target) <==> IsElevated(who) || (who.Authenticated? && who.id == target))
  {
    SingleClass(List, who, target);
    SingleClass(Create, who, target);
    SingleClass(action, who, target);
  }

  /** Each action is guarded by exactly one class, so its checks are that class's. */
  lemma SingleClass(action: Action, who: Requester, target: UserId)
    ensures var p := PermissionClassesFor(action)[0];
            && (MayAttempt(action, who) <==> HasPermission(p, who))
            && (MayAccess(action, who, target) <==> HasPermission(p, who) && HasObjectPermission(p, who, target))
  {
    var classes := PermissionClassesFor(action);
    assert |classes| == 1;
    assert forall q :: q in classes <==> q == classes[0];
  }

  /** The user view set, with the field `get_permissions` assigns. */
  class UserViewSet {
    var action: Action
    var permissionClasses: seq<PermissionClass>

    constructor (action: Action, permissionClasses: seq<PermissionClass>)
      ensures this.action == action && this.permissionClasses == permissionClasses
    {
      this.action := action;
      this.permissionClasses := permissionClasses;
    }

    /** `get_permissions`: `IsAuthenticated` for `list`, `IsAdmin` for
        `create`, `IsSelfOrAdmin` for everything else. */
    method GetPermissions() returns (permissions: seq<PermissionClass>)
      modifies this
      ensures action == old(action)
      ensures permissionClasses == PermissionClassesFor(action)
      ensures permissions == permissionClasses
    {
      if action == List {
        permissionClasses := [IsAuthenticated];
      } else if action == Create {
        permissionClasses := [IsAdmin];
      } else {
        permissionClasses := [IsSelfOrAdmin];
      }
      permissions := permissionClasses;
    }
  }
}
