/** The request-side vocabulary shared by the projects and users apps: primary
    keys, the requesting identity, HTTP methods, view-set actions and the
    error kinds a request can end in. */
module Api {
  import opened Common

  type UserId = nat
  type ProjectId = nat
  type IssueId = nat
  type CommentId = nat

  /** A calendar date as a day number; `today - birth` is a count of days. */
  type Day = int

  /** `request.user`: either the anonymous user, or an account with its role
      flags. The anonymous user has `is_staff` and `is_superuser` both false. */
  datatype Requester =
    | Anonymous
    | Authenticated(id: UserId, isStaff: bool, isSuperuser: bool)

  predicate IsAuthenticated(who: Requester)
  {
    who.Authenticated?
  }

  /** `user.is_superuser or user.is_staff` */
  predicate IsElevated(who: Requester)
  {
    who.Authenticated? && (who.isSuperuser || who.isStaff)
  }

  /** `obj.author == request.user` for a nullable author reference. A null
      author equals nobody, and the anonymous user is nobody's author. */
  predicate IsAuthor(who: Requester, author: Option<UserId>)
  {
    who.Authenticated? && author == Some(who.id)
  }

  /** `request.user in <a set of users>`; the anonymous user is in no set. */
  predicate IsMember(who: Requester, users: set<UserId>)
  {
    who.Authenticated? && who.id in users
  }

  datatype Method = GET | HEAD | OPTIONS | POST | PUT | PATCH | DELETE

  /** The framework's SAFE_METHODS. */
  predicate IsSafe(m: Method)
  {
    m == GET || m == HEAD || m == OPTIONS
  }

  /** The actions a model view set routes. */
  datatype Action = List | Create | Retrieve | Update | PartialUpdate | Destroy

  /** How a request can fail. `ValidationError` names the offending payload
      fields; the empty set stands for an error raised outside field
      validation (for instance by a view). */
  datatype ApiError =
    | NotAuthenticated
    | PermissionDenied
    | NotFound
    | ValidationError(fields: set<string>)
}
