# SoftDesk API: authorization and validation policy in Dafny

SoftDesk is a Django REST API for tracking projects, their issues and the
comments on those issues. This project models the API's access and
validation rules and proves properties of them. It does not model the HTTP
and ORM machinery around those rules. The parts modelled are:

- **Permission classes.** `AuthorOrReadOnly` guards projects, issues and
  comments. `IsSelfOrAdmin` and `IsAdmin` guard user accounts. Each is a
  pair of pure predicates: a coarse check and an object check.
- **Visibility.** Each view set's `get_queryset` is a filter over a
  key-ordered table. Staff and superusers ("elevated" users) see
  everything. Other users see:
  - the projects they authored or contribute to;
  - the issues and comments they authored, or whose project they contribute to;
  - only active user accounts.
- **Project membership.** `ProjectSerializer.create` and `update` work on a
  `Project` class whose contributor set changes in a loop:
  - create adds the requester, then each given contributor;
  - PATCH adds the given contributors to the existing members;
  - PUT clears the members, re-adds the author, then adds the given contributors.
  The serializer strips surrounding whitespace from the name and the
  description and refuses blank ones and ones holding a null character. It then checks that the stripped name
  is new and that the type is one of the four codes.
- **Creation gates.** Creating an issue or a comment needs an existing
  parent, and the requester must contribute to the parent's project. An
  assignee who is not the issue's author may only PATCH `status`.
- **Users.** `UserManager` is a class over the users table:
  - `create_user` runs its checks in order: username, then birth date, then
    an age of at least 15 × 365 days;
  - `create_superuser` then raises both role flags.
  `UserSerializer` covers the birth-date rule, the password-confirmation
  rule, and how `create` and `update` handle the two password fields. The
  admin site's `UserCreationForm` covers `clean_password2` and `save`.

Modelling conventions:

- Dates are day numbers, and today's date is a parameter.
- A password hash is opaque: the model records only which raw password was
  last set (`Credential`).
- A requester is `Anonymous` or an authenticated account with its staff and
  superuser flags.
- Tables with an ordering are sequences of rows with strictly increasing
  keys. The users table, which is never ordered, is a map.

`Issue`, `Comment`, `AuthorOrAssignee`, `IssueSerializer`,
`CommentSerializer` and the list serializers are imported by the views but
defined nowhere in `softdeskapi/projects_manager`. Migration 0002 even
deletes the `Issue` and `Comment` tables. Issues and comments therefore
appear only through the fields the views read: project, author and
assignees for an issue; issue and author for a comment. The outcome of their
serializers enters the creation gates as a parameter.

## Model

| member | source | states |
|---|---|---|
| Common.Filter | softdeskapi/projects_manager/views.py:44-48 | a queryset filter keeps exactly the rows satisfying the condition and never adds rows |
| Common.Strip | softdeskapi/projects_manager/models.py:14-15 | the text fields' trimming: the result is the input without its leading and trailing whitespace (Python's `str.isspace` characters), empty iff the input is all whitespace |
| Common.StripIsIdempotent | softdeskapi/projects_manager/models.py:14-15 | stripping an already stripped value changes nothing |
| Common.FilterIncreasing | softdeskapi/projects_manager/views.py:44-48 | filtering a table in key order leaves it in key order with no key repeated (`.distinct().order_by("id")`) |
| ProjectPermissions.AuthorOrReadOnlyHasPermission | softdeskapi/projects_manager/permissions.py:10-13 | the coarse check passes iff the requester is authenticated |
| ProjectPermissions.AuthorOrReadOnlyHasObjectPermission | softdeskapi/projects_manager/permissions.py:15-24 | safe methods always pass; a write passes iff the requester is elevated or is the object's author |
| ProjectPermissions.CoarseIgnoresMethod | softdeskapi/projects_manager/permissions.py:10-13 | the coarse answer is the same for every HTTP method |
| ProjectPermissions.PlainWriteIffAuthor | softdeskapi/projects_manager/permissions.py:20-24 | for a non-elevated requester, a write passes iff `obj.author` is that requester |
| ProjectPermissions.OrphanWritableOnlyByElevated | softdeskapi/projects_manager/permissions.py:20-24 | an object with a null author can be written iff the requester is elevated |
| ProjectPermissions.ElevationIsMonotone | softdeskapi/projects_manager/permissions.py:15-24 | every object permission a plain account has, an elevated account has too |
| UserPermissions.IsSelfOrAdminHasPermission | softdeskapi/users/permissions.py:7-10 | passes iff the requester is authenticated |
| UserPermissions.IsSelfOrAdminHasObjectPermission | softdeskapi/users/permissions.py:12-16 | elevated requesters pass for every account; others pass iff the account is their own |
| UserPermissions.IsAdminHasPermission | softdeskapi/users/permissions.py:22-25 | passes iff the requester is staff or superuser |
| UserPermissions.IsAdminHasObjectPermission | softdeskapi/users/permissions.py:27-30 | equals the coarse `IsAdmin` answer |
| UserPermissions.AdminObjectImpliesSelfOrAdmin | softdeskapi/users/permissions.py:12-30 | passing `IsAdmin` on an account implies passing `IsSelfOrAdmin` on it |
| UserPermissions.AdminObjectIgnoresTarget | softdeskapi/users/permissions.py:27-30 | the `IsAdmin` object answer does not depend on the account |
| ProjectModels.TypeCode | softdeskapi/projects_manager/models.py:8-13 | every project type is stored as one of the four codes |
| ProjectModels.ParseType | softdeskapi/projects_manager/models.py:8-16 | a stored code names a type iff it is one of the four codes, and the type stores back as that code |
| ProjectModels.TypeCodeRoundTrip | softdeskapi/projects_manager/models.py:8-16 | each type's code reads back as that type and fits the 20-character column |
| ProjectModels.OnUserDeleted | softdeskapi/projects_manager/models.py:17-40 | deleting a user keeps every project, in place, with the author nulled and the membership removed |
| ProjectModels.OnProjectDeleted | softdeskapi/projects_manager/models.py:40 | deleting a project removes exactly the rows with that key |
| ProjectModels.ProjectsSurviveAuthorDeletion | softdeskapi/projects_manager/models.py:17-22 | after the author is deleted, each project keeps its key, name, description and type; its author is null if it was that user and otherwise unchanged |
| ProjectModels.UserDeletionCascadesToMemberships | softdeskapi/projects_manager/models.py:39 | deleting a user removes exactly the membership rows naming that user |
| ProjectModels.ProjectDeletionCascadesToMemberships | softdeskapi/projects_manager/models.py:40 | deleting a project removes exactly the membership rows naming that project |
| ProjectModels.Project.constructor | softdeskapi/projects_manager/serializers.py:56 | a newly created project carries the given fields and no members |
| ProjectSerializers.ValidateName | softdeskapi/projects_manager/serializers.py:32-37 | a name is accepted, unchanged, iff no existing project has it; otherwise a `name` field error |
| ProjectSerializers.OwnNameIsRejected | softdeskapi/projects_manager/serializers.py:32-37 | since the instance is not excluded, resubmitting a project's own name fails |
| ProjectSerializers.ValidateType | softdeskapi/projects_manager/serializers.py:39-46 | a type is accepted, unchanged, iff it is one of the `PROJECT_TYPES` codes; otherwise a `type` field error |
| ProjectSerializers.ValidateContributors | softdeskapi/projects_manager/serializers.py:23-30 | the contributor keys are accepted, unchanged, iff every key names an active user |
| ProjectSerializers.ValidateInput | softdeskapi/projects_manager/serializers.py:7-46 | every failing field is reported; a create or PUT must carry all four fields, `contributors` included, since the declared contributors field is required (so the empty-list default of `pop("contributors", [])` only matters for a PATCH); name and description are stripped of surrounding whitespace and must be neither blank nor hold a null character; a valid payload keeps the submitted values, stripped, with a name of at most 100 characters that no project holds, and only active contributors |
| ProjectSerializers.NullCharacterIsRejected | softdeskapi/projects_manager/models.py:14-15 | a name or description that holds a null character is refused with an error on that field |
| ProjectSerializers.PaddedTakenNameIsRejected | softdeskapi/projects_manager/serializers.py:32-37 | a name equal to an existing project's name once stripped is refused with a `name` error, however it is padded |
| ProjectSerializers.PaddedCopyOfApolloIsRejected | softdeskapi/projects_manager/serializers.py:32-37 | a worked example of the lemma above: with a project "Apollo" stored, the submitted name " Apollo " is refused |
| ProjectSerializers.ValidatedNameKeepsNamesUnique | softdeskapi/projects_manager/serializers.py:32-37 | saving a project under a validated name keeps project names unique |
| ProjectSerializers.CreatorIsMember | softdeskapi/projects_manager/serializers.py:54-62 | after create, the requester and every given contributor are members; with no contributors given, the requester is the only member |
| ProjectSerializers.MergeIsAdditive | softdeskapi/projects_manager/serializers.py:76-79 | a PATCH keeps every old member and adds every given contributor; an empty list changes nothing |
| ProjectSerializers.ReplaceKeepsOnlyAuthorAndGiven | softdeskapi/projects_manager/serializers.py:81-87 | after a PUT, the members are exactly the author, if non-null, and the given contributors; with a null author, exactly the given ones |
| ProjectSerializers.CreatedMembersAreActive | softdeskapi/projects_manager/models.py:23-28 | when an active requester creates a project from a validated payload, every member is an active user |
| ProjectSerializers.Create | softdeskapi/projects_manager/serializers.py:48-62 | the saved project has the payload's fields, the given author, and exactly the requester and the given contributors as members |
| ProjectSerializers.Update | softdeskapi/projects_manager/serializers.py:64-88 | the fields present are written; PATCH merges the given contributors into the members; PUT leaves exactly the author and the given contributors |
| ProjectViews.FindProject | softdeskapi/projects_manager/views.py:93 | finds a project with the key iff one exists |
| ProjectViews.FindIssue | softdeskapi/projects_manager/views.py:151 | finds an issue with the key iff one exists |
| ProjectViews.NextIssueId | softdeskapi/projects_manager/views.py:102-104 | a new issue's key exceeds every existing key |
| ProjectViews.NextCommentId | softdeskapi/projects_manager/views.py:160-162 | a new comment's key exceeds every existing key |
| ProjectViews.ProjectScope | softdeskapi/projects_manager/views.py:35-48 | elevated requesters get the whole table; others get exactly the projects they authored or contribute to, once each and in key order |
| ProjectViews.IssueScope | softdeskapi/projects_manager/views.py:73-86 | elevated requesters get every issue; others get exactly the issues they authored or whose project they contribute to, in key order |
| ProjectViews.CommentScope | softdeskapi/projects_manager/views.py:124-139 | elevated requesters get every comment; others get exactly the comments they authored or whose issue's project they contribute to, in key order |
| ProjectViews.ProjectScopeGrowsWithElevation | softdeskapi/projects_manager/views.py:41-48 | every project a plain account sees, an elevated account sees too |
| ProjectViews.ContributorSeesProjectThreads | softdeskapi/projects_manager/views.py:83-135 | a contributor of a project sees all of its issues and every comment on them |
| ProjectViews.IssueCreate | softdeskapi/projects_manager/views.py:88-104 | an unknown project is a validation error; a requester who is not a contributor is denied; the serializer's error passes through; only then is one issue appended, with the requester as author |
| ProjectViews.CommentCreate | softdeskapi/projects_manager/views.py:141-162 | an unresolved or unknown issue is a validation error; a requester who does not contribute to the issue's project is denied; the serializer's error passes through; otherwise exactly one comment is appended, with the requester as author |
| ProjectViews.IssueCreateKeepsStoreValid | softdeskapi/projects_manager/views.py:88-104 | creating an issue keeps every table in key order and every issue's project present |
| ProjectViews.CommentCreateKeepsStoreValid | softdeskapi/projects_manager/views.py:141-162 | creating a comment keeps every table in key order and every comment's issue present |
| ProjectViews.PerformCreate | softdeskapi/projects_manager/views.py:50-52 | a created project has the requester as author and as a member |
| ProjectViews.AssigneeGate | softdeskapi/projects_manager/views.py:106-117 | authors and non-assignees are never stopped; a refusal is a permission denial |
| ProjectViews.AssigneeMayOnlySetStatus | softdeskapi/projects_manager/views.py:112-116 | an assignee who is not the author passes iff the payload's keys are exactly `{status}` |
| ProjectViews.SerializerClassFor | softdeskapi/projects_manager/views.py:23-27 | the list serializer is chosen only for `list`, and then whenever one is configured |
| ProjectViews.ListSerializersOnlyForList | softdeskapi/projects_manager/views.py:30-32 | the project and issue view sets use their list serializers exactly for `list`; the comment view set always uses its one serializer |
| ProjectViews.IssuePermissionClasses | softdeskapi/projects_manager/views.py:65-71 | one class per action: `AuthorOrAssignee` iff the action is `partial_update`, `AuthorOrReadOnly` otherwise |
| ProjectViews.OnlyIssuePatchUsesAssigneeRule | softdeskapi/projects_manager/views.py:65-71 | `AuthorOrAssignee` guards an issue's `partial_update` only; every other issue action, and every project and comment action (lines 33 and 122), uses `AuthorOrReadOnly` |
| ProjectViews.IssueViewSet.constructor | softdeskapi/projects_manager/views.py:61-63 | a view set holds its action and permission classes |
| ProjectViews.IssueViewSet.GetPermissions | softdeskapi/projects_manager/views.py:65-71 | stores the action's permission classes in the view set and returns them |
| UserModels.CheckNewUser | softdeskapi/users/models.py:20-26 | an empty username fails first, then a missing birth date, then an age under 15 × 365 days; everything else passes |
| UserModels.CheckNewUserPasses | softdeskapi/users/models.py:20-26 | the checks pass iff the username is non-empty and the birth date is present and old enough |
| UserModels.UserManager.constructor | softdeskapi/users/models.py:10 | the users table starts empty |
| UserModels.UserManager.Insert | softdeskapi/users/models.py:61 | a new account is stored under a fresh key unless its username is taken, which is refused without change |
| UserModels.UserManager.Put | softdeskapi/users/models.py:61 | an account is re-saved unless another account has its username; usernames stay unique |
| UserModels.UserManager.CreateUser | softdeskapi/users/models.py:13-35 | a failed check returns its error and stores nothing; otherwise it stores the given fields, the given password, not staff, active and not superuser, unless the username is taken |
| UserModels.UserManager.CreateSuperuser | softdeskapi/users/models.py:37-51 | fails exactly where `create_user` fails; on success the stored account is `create_user`'s with staff and superuser set |
| UserSerializers.ValidateBirthDate | softdeskapi/users/serializers.py:28-34 | a birth date is accepted, unchanged, iff it is at least 15 × 365 days before today; otherwise a `birth_date` field error |
| UserSerializers.BirthDateRuleMatchesCreateUser | softdeskapi/users/serializers.py:28-34 | the serializer accepts exactly the birth dates `create_user` accepts |
| UserSerializers.Validate | softdeskapi/users/serializers.py:36-47 | a password without a confirmation fails, a password unequal to its confirmation fails, and data without a password passes unchanged |
| UserSerializers.WithoutPasswords | softdeskapi/users/serializers.py:51-52 | both password fields leave the attribute data and nothing else changes |
| UserSerializers.Create | softdeskapi/users/serializers.py:49-54 | the password is passed to `create_user` on its own; any other attribute set that does not fit `create_user`'s parameters is a call error; otherwise the outcome is `create_user`'s |
| UserSerializers.UpdateTouchesPasswordOnlyWhenConfirmed | softdeskapi/users/serializers.py:58-61 | an update sets the password iff both password fields are truthy, and never writes the superuser flag |
| UserSerializers.ValidatedPasswordIsSet | softdeskapi/users/serializers.py:36-61 | after `validate` passes, a non-empty password always becomes the new password |
| UserSerializers.SelfUpdateCanRaiseStaff | softdeskapi/users/serializers.py:14-26 | `is_staff` is writable and `IsSelfOrAdmin` admits a plain account to its own record, so that account can make itself staff |
| UserSerializers.Update | softdeskapi/users/serializers.py:56-62 | the account is saved with the password changed only when confirmed and the other given attributes written |
| UserViews.UserScope | softdeskapi/users/views.py:10-20 | elevated requesters see every account; others see exactly the active ones, unchanged |
| UserViews.UserScopeGrowsWithElevation | softdeskapi/users/views.py:17-20 | every account a plain requester sees, an elevated one sees too |
| UserViews.SerializerClassFor | softdeskapi/users/views.py:22-26 | `UserListSerializer` is used iff the action is `list` |
| UserViews.PermissionClassesFor | softdeskapi/users/views.py:34-39 | one class per action: `IsAuthenticated` iff `list`, `IsAdmin` iff `create`, otherwise `IsSelfOrAdmin` |
| UserViews.UserActionRules | softdeskapi/users/views.py:28-40 | listing needs authentication, creating needs elevation, and every other action needs elevation or the requester's own account |
| UserViews.SingleClass | softdeskapi/users/views.py:34-40 | each action's checks are exactly those of its one permission class |
| UserViews.UserViewSet.constructor | softdeskapi/users/views.py:9 | a view set holds its action and permission classes |
| UserViews.UserViewSet.GetPermissions | softdeskapi/users/views.py:28-40 | stores the action's permission classes in the view set and returns them |
| UserAdmin.CleanPassword2 | softdeskapi/users/admin.py:26-34 | a missing or empty entry fails first, then unequal entries fail; otherwise the confirmation is returned |
| UserAdmin.CleanedPasswordsAgree | softdeskapi/users/admin.py:26-39 | once clean, `password1` is the returned password |
| UserAdmin.Save | softdeskapi/users/admin.py:36-42 | the account's password comes from `password1`; it is stored only when `commit` is set and the username is free |

## Left out

- HTTP routing, the router and the migrations are framework plumbing and schema history.
- ORM internals (`Q` objects, `.distinct()`, m2m `add`/`clear`) are modelled as sequences, sets and maps.
- Password hashing is a one-way function, recorded only as the raw password last set.
- The admin site configuration (`UserChangeForm`, fieldsets, list and search options, registration) is presentation setup.
- Resolving a comment's issue URL to a key takes the resolver's answer as a parameter (`issueRef`).
- A request with no `project` key, and a URL the resolver cannot match, raise exceptions the views never handle. They are not modelled.
- `AuthorOrAssignee`, `IssueSerializer`, `CommentSerializer` and the list serializers are not part of this model. Only which one each action selects is modelled, and the serializers' outcomes are parameters.
- The `Issue` and `Comment` models (their delete rules and other fields) are not part of this model. Issues and comments carry only the fields the views read.
- The clock is a parameter, and dates are whole day numbers.
- `print` debugging output has no effect on behaviour.
- Concurrent requests and transactions are outside the code.
- `created_time` fields are not modelled. How the database allocates keys is not modelled either: new keys are handed out in increasing order.
- The display labels of the project types are presentation only.
- UserSerializers.Create: the username is passed on as submitted. The framework's stripping, blank check and 150-character limit on the username field are not modelled.
- UserSerializers.Update: the same field rules on the username are not modelled.
- UserSerializers.Validate: the password fields reach it as submitted. The framework strips them and refuses blank ones before this check, and that step is not modelled.
- A view set whose action is unset is not modelled. Every `Action` value names a real action.
- ProjectViews.IssueCreate: an anonymous requester is refused as a non-member. In the running service the coarse `AuthorOrReadOnly` check refuses them earlier, as not authenticated.
- ProjectViews.CommentCreate: anonymous requesters are refused here as non-members, as for issues.
- UserSerializers.Update: the framework's unique-username validator is folded into the save, which refuses a taken username without change.
- UserSerializers.Create: the password is required by the serializer field, so it is always present.
