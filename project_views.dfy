/** The project, issue and comment view sets: who sees which rows, the gates
    that issue and comment creation pass before anything is saved, the
    restriction on assignees' partial updates, and the per-action choice of
    serializer and permission class. */
module ProjectViews {
  import opened Common
  import opened Api
  import opened ProjectModels
  import ProjectSerializers

  /** An issue, reduced to the fields the views read. */
  datatype IssueRow = IssueRow(id: IssueId, project: ProjectId, author: Option<UserId>, assignees: set<UserId>)

  /** A comment, reduced to the fields the views read. */
  datatype CommentRow = CommentRow(id: CommentId, issue: IssueId, author: Option<UserId>)

  function IssueKey(i: IssueRow): int
  {
    i.id
  }

  function CommentKey(c: CommentRow): int
  {
    c.id
  }

  /** A snapshot of the three tables, each in primary-key order. */
  datatype Store = Store(projects: seq<ProjectRow>, issues: seq<IssueRow>, comments: seq<CommentRow>)

  /** Keys increase in every table, and every issue's project and every
      comment's issue exists. */
  ghost predicate Valid(store: Store)
  {
    && Increasing(store.projects, ProjectKey)
    && Increasing(store.issues, IssueKey)
    && Increasing(store.comments, CommentKey)
    && (forall i :: i in store.issues ==> FindProject(store.projects, i.project).Some?)
    && (forall c :: c in store.comments ==> FindIssue(store.issues, c.issue).Some?)
  }

  /** `Project.objects.get(id=pid)` */
  function FindProject(projects: seq<ProjectRow>, pid: ProjectId): (r: Option<ProjectRow>)
    ensures r.Some? ==> r.value in projects && r.value.id == pid
    ensures r.None? <==> forall p :: p in projects ==> p.id != pid
  {
    if projects == [] then None
    else if projects[0].id == pid then Some(projects[0])
    else FindProject(projects[1..], pid)
  }

  /** `Issue.objects.get(id=iid)` */
  function FindIssue(issues: seq<IssueRow>, iid: IssueId): (r: Option<IssueRow>)
    ensures r.Some? ==> r.value in issues && r.value.id == iid
    ensures r.None? <==> forall i :: i in issues ==> i.id != iid
  {
    if issues == [] then None
    else if issues[0].id == iid then Some(issues[0])
    else FindIssue(issues[1..], iid)
  }

  /** `project.contributors.all()` followed through a foreign key. */
  function ContributorsOf(projects: seq<ProjectRow>, pid: ProjectId): set<UserId>
  {
    match FindProject(projects, pid)
    case Some(p) => p.contributors
    case None => {}
  }

  /** `comment.issue.project.contributors.all()` */
  function CommentContributors(store: Store, c: CommentRow): set<UserId>
  {
    match FindIssue(store.issues, c.issue)
    case Some(i) => ContributorsOf(store.projects, i.project)
    case None => {}
  }

  /** The key a new row receives: one past the largest key so far. */
  function NextIssueId(issues: seq<IssueRow>): (r: IssueId)
    ensures Increasing(issues, IssueKey) ==> forall i :: i in issues ==> i.id < r
  {
    if issues == [] then 1 else issues[|issues| - 1].id + 1
  }

  function NextCommentId(comments: seq<CommentRow>): (r: CommentId)
    ensures Increasing(comments, CommentKey) ==> forall c :: c in comments ==> c.id < r
  {
    if comments == [] then 1 else comments[|comments| - 1].id + 1
  }

  // ---------------------------------------------------------------------
  // Visibility (get_queryset)

  /** `ProjectViewSet.get_queryset`: elevated users get the whole table; others
      get exactly the projects they authored or contribute to, once each, in
      key order. */
  function ProjectScope(who: Requester, projects: seq<ProjectRow>): (r: seq<ProjectRow>)
    ensures IsElevated(who) ==> r == projects
    ensures !IsElevated(who) ==>
              forall p :: p in r <==> p in projects && (IsAuthor(who, p.author) || IsMember(who, p.contributors))
    ensures Increasing(projects, ProjectKey) ==> Increasing(r, ProjectKey)
  {
    if who.Authenticated? && (who.isSuperuser || who.isStaff) then projects
    else
      var keep := (p: ProjectRow) => IsAuthor(who, p.author) || IsMember(who, p.contributors);
      FilterIncreasing(projects, keep, ProjectKey);
      Filter(projects, keep)
  }

  /** `IssueViewSet.get_queryset`: others see the issues they authored or whose
      project they contribute to. */
  function IssueScope(who: Requester, store: Store): (r: seq<IssueRow>)
    ensures IsElevated(who) ==> r == store.issues
    ensures !IsElevated(who) ==>
              forall i :: i in r <==> i in store.issues
                                      && (IsAuthor(who, i.author) || IsMember(who, ContributorsOf(store.projects, i.project)))
    ensures Increasing(store.issues, IssueKey) ==> Increasing(r, IssueKey)
  {
    if who.Authenticated? && (who.isSuperuser || who.isStaff) then store.issues
    else
      var keep := (i: IssueRow) => IsAuthor(who, i.author) || IsMember(who, ContributorsOf(store.projects, i.project));
      FilterIncreasing(store.issues, keep, IssueKey);
      Filter(store.issues, keep)
  }

  /** `CommentViewSet.get_queryset`: others see the comments they authored or
      whose issue's project they contribute to. */
  function CommentScope(who: Requester, store: Store): (r: seq<CommentRow>)
    ensures IsElevated(who) ==> r == store.comments
    ensures !IsElevated(who) ==>
              forall c :: c in r <==> c in store.comments
                                      && (IsAuthor(who, c.author) || IsMember(who, CommentContributors(store, c)))
    ensures Increasing(store.comments, CommentKey) ==> Increasing(r, CommentKey)
  {
    if who.Authenticated? && (who.isSuperuser || who.isStaff) then store.comments
    else
      var keep := (c: CommentRow) => IsAuthor(who, c.author) || IsMember(who, CommentContributors(store, c));
      FilterIncreasing(store.comments, keep, CommentKey);
      Filter(store.comments, keep)
  }

  /** Every project a plain account sees, an elevated account sees too. */
  lemma ProjectScopeGrowsWithElevation(plain: Requester, elevated: Requester, projects: seq<ProjectRow>)
    requires IsElevated(elevated)
    ensures forall p :: p in ProjectScope(plain, projects) ==> p in ProjectScope(elevated, projects)
  {
  }

  /** A contributor of a project sees every issue of it, and every comment on
      those issues. */
  lemma ContributorSeesProjectThreads(who: Requester, store: Store, pid: ProjectId)
    requires IsMember(who, ContributorsOf(store.projects, pid))
    ensures forall i :: i in store.issues && i.project == pid ==> i in IssueScope(who, store)
    ensures forall c :: c in store.comments && FindIssue(store.issues, c.issue).Some?
                        && FindIssue(store.issues, c.issue).value.project == pid
                        ==> c in CommentScope(who, store)
  {
  }

  // ---------------------------------------------------------------------
  // Creation gates (create / perform_create)

  /** `IssueViewSet.create`: the project must exist (else a validation error)
      and the requester must contribute to it (else permission denied); only
      then does the serializer run, and `perform_create` saves the issue with
      the requester as author. `serialized` is the outcome of the issue
      serializer, whose rules are not part of this model. */
  function IssueCreate(store: Store, who: Requester, projectRef: ProjectId,
                       serialized: Result<set<UserId>, ApiError>): (r: Result<Store, ApiError>)
    ensures FindProject(store.projects, projectRef).None? ==> r == Err(ValidationError({}))
    ensures FindProject(store.projects, projectRef).Some?
            && !IsMember(who, FindProject(store.projects, projectRef).value.contributors)
            ==> r == Err(PermissionDenied)
    ensures r.Ok? <==> IsMember(who, ContributorsOf(store.projects, projectRef)) && serialized.Ok?
    ensures r.Ok? ==> who.Authenticated?
                      && r.value == store.(issues := store.issues
                           + [IssueRow(NextIssueId(store.issues), projectRef, Some(who.id), serialized.value)])
    ensures r.Err? && IsMember(who, ContributorsOf(store.projects, projectRef)) ==> r == Err(serialized.error)
  {
    match FindProject(store.projects, projectRef)
    case None => Err(ValidationError({}))
    case Some(project) =>
      if !IsMember(who, project.contributors) then Err(PermissionDenied)
      else match serialized
        case Err(e) => Err(e)
        case Ok(assignees) =>
          var issue := IssueRow(NextIssueId(store.issues), projectRef, Some(who.id), assignees);
          Ok(store.(issues := store.issues + [issue]))
  }

  /** `CommentViewSet.create`: the issue reference must resolve to an existing
      issue (else a validation error) and the requester must contribute to its
      project (else permission denied). `issueRef` is what the URL resolver
      yields for the submitted reference; `serialized` is the outcome of the
      comment serializer. */
  function CommentCreate(store: Store, who: Requester, issueRef: Option<IssueId>,
                         serialized: Outcome<ApiError>): (r: Result<Store, ApiError>)
    ensures (issueRef.None? || FindIssue(store.issues, issueRef.value).None?) ==> r == Err(ValidationError({}))
    ensures issueRef.Some? && FindIssue(store.issues, issueRef.value).Some?
            && !IsMember(who, ContributorsOf(store.projects, FindIssue(store.issues, issueRef.value).value.project))
            ==> r == Err(PermissionDenied)
    ensures r.Ok? <==> && issueRef.Some? && FindIssue(store.issues, issueRef.value).Some?
                       && IsMember(who, ContributorsOf(store.projects, FindIssue(store.issues, issueRef.value).value.project))
                       && serialized.Pass?
    ensures r.Ok? ==> && issueRef.Some? && who.Authenticated?
                      && r.value == store.(comments := store.comments
                           + [CommentRow(NextCommentId(store.comments), issueRef.value, Some(who.id))])
    ensures serialized.Fail? && issueRef.Some? && FindIssue(store.issues, issueRef.value).Some?
            && IsMember(who, ContributorsOf(store.projects, FindIssue(store.issues, issueRef.value).value.project))
            ==> r == Err(serialized.error)
  {
    if issueRef.None? then Err(ValidationError({}))
    else match FindIssue(store.issues, issueRef.value)
      case None => Err(ValidationError({}))
      case Some(issue) =>
        if !IsMember(who, ContributorsOf(store.projects, issue.project)) then Err(PermissionDenied)
        else match serialized
          case Fail(e) => Err(e)
          case Pass =>
            var comment := CommentRow(NextCommentId(store.comments), issueRef.value, Some(who.id));
            Ok(store.(comments := store.comments + [comment]))
  }

  lemma IncreasingSnoc<T>(s: seq<T>, x: T, key: T -> int)
    requires Increasing(s, key)
    requires forall y :: y in s ==> key(y) < key(x)
    ensures Increasing(s + [x], key)
  {
    var t := s + [x];
    forall i, j | 0 <= i < j < |t| ensures key(t[i]) < key(t[j]) {
      assert t[i] == s[i];
      if j < |s| {
        assert t[j] == s[j];
      } else {
        assert s[i] in s;
      }
    }
  }

  /** A lookup that succeeds keeps succeeding once rows are appended. */
  lemma FindIssueSnoc(issues: seq<IssueRow>, x: IssueRow, iid: IssueId)
    requires FindIssue(issues, iid).Some?
    ensures FindIssue(issues + [x], iid).Some?
  {
    var i := FindIssue(issues, iid).value;
    assert i in issues + [x];
  }

  /** Creating an issue keeps the store well formed. */
  lemma {:induction false} IssueCreateKeepsStoreValid(store: Store, who: Requester, projectRef: ProjectId,
                                                      serialized: Result<set<UserId>, ApiError>)
    requires Valid(store)
    ensures IssueCreate(store, who, projectRef, serialized).Ok? ==> Valid(IssueCreate(store, who, projectRef, serialized).value)
  {
    var r := IssueCreate(store, who, projectRef, serialized);
    if r.Ok? {
      var x := IssueRow(NextIssueId(store.issues), projectRef, Some(who.id), serialized.value);
      IncreasingSnoc(store.issues, x, IssueKey);
      forall c | c in store.comments ensures FindIssue(store.issues + [x], c.issue).Some? {
        FindIssueSnoc(store.issues, x, c.issue);
      }
    }
  }

  /** Creating a comment keeps the store well formed. */
  lemma {:induction false} CommentCreateKeepsStoreValid(store: Store, who: Requester, issueRef: Option<IssueId>,
                                                        serialized: Outcome<ApiError>)
    requires Valid(store)
    ensures CommentCreate(store, who, issueRef, serialized).Ok? ==> Valid(CommentCreate(store, who, issueRef, serialized).value)
  {
    var r := CommentCreate(store, who, issueRef, serialized);
    if r.Ok? {
      var x := CommentRow(NextCommentId(store.comments), issueRef.value, Some(who.id));
      IncreasingSnoc(store.comments, x, CommentKey);
    }
  }

  /** `ProjectViewSet.perform_create`: the requester is saved as author, and
      the serializer's `create` makes them a member as well. */
  method PerformCreate(id: ProjectId, data: ProjectSerializers.ProjectData, requester: UserId)
    returns (project: Project)
    requires ProjectSerializers.Complete(data)
    ensures fresh(project)
    ensures project.id == id && project.author == Some(requester)
    ensures project.contributors == ProjectSerializers.InitialContributors(requester, ProjectSerializers.Given(data))
    ensures requester in project.contributors
  {
    project := ProjectSerializers.Create(id, data, requester, requester);
  }

  // ---------------------------------------------------------------------
  // IssueViewSet.partial_update

  /** The assignee restriction of `partial_update`: an assignee who is not the
      author may send a payload with one key only, and that key `status`.
      `keys` are the payload's keys. */
  function AssigneeGate(issue: IssueRow, who: Requester, keys: set<string>): (r: Outcome<ApiError>)
    ensures r.Fail? ==> r.error == PermissionDenied
    ensures !IsMember(who, issue.assignees) || IsAuthor(who, issue.author) ==> r == Pass
  {
    if IsMember(who, issue.assignees) && !IsAuthor(who, issue.author) then
      if |keys| > 1 || "status" !in keys then Fail(PermissionDenied) else Pass
    else Pass
  }

  /** An assignee who is not the author passes exactly when the payload's keys
      are `{"status"}`. */
  lemma {:induction false} AssigneeMayOnlySetStatus(issue: IssueRow, who: Requester, keys: set<string>)
    requires IsMember(who, issue.assignees) && !IsAuthor(who, issue.author)
    ensures AssigneeGate(issue, who, keys).Pass? <==> keys == {"status"}
  {
    if keys == {"status"} {
      assert |keys| == 1;
    }
    if |keys| <= 1 && "status" in keys {
      var rest := keys - {"status"};
      assert |rest| == |keys| - 1;
      assert rest == {};
      assert keys == {"status"};
    }
  }

  // ---------------------------------------------------------------------
  // Serializer and permission selection

  datatype SerializerClass =
    | ProjectSerializer | ProjectListSerializer
    | IssueSerializer | IssueListSerializer
    | CommentSerializer

  /** `MultipleSerializerMixin.get_serializer_class`: the list serializer, for
      the `list` action and only when one is configured; the view's default
      serializer otherwise. */
  function SerializerClassFor(action: Action, serializerClass: SerializerClass,
                              listSerializerClass: Option<SerializerClass>): (r: SerializerClass)
    ensures r != serializerClass ==> action == List && listSerializerClass == Some(r)
    ensures action == List && listSerializerClass.Some? ==> r == listSerializerClass.value
  {
    if action == List && listSerializerClass.Some? then listSerializerClass.value
    else serializerClass
  }

  function ProjectViewSetSerializer(action: Action): SerializerClass
  {
    SerializerClassFor(action, ProjectSerializer, Some(ProjectListSerializer))
  }

  function IssueViewSetSerializer(action: Action): SerializerClass
  {
    SerializerClassFor(action, IssueSerializer, Some(IssueListSerializer))
  }

  /** The comment view set does not use the mixin. */
  function CommentViewSetSerializer(action: Action): SerializerClass
  {
    CommentSerializer
  }

  /** Only `list` switches the project and issue view sets to their list serializers. */
  lemma ListSerializersOnlyForList(action: Action)
    ensures ProjectViewSetSerializer(action) == (if action == List then ProjectListSerializer else ProjectSerializer)
    ensures IssueViewSetSerializer(action) == (if action == List then IssueListSerializer else IssueSerializer)
    ensures CommentViewSetSerializer(action) == CommentSerializer
  {
  }

  datatype PermissionClass = AuthorOrReadOnly | AuthorOrAssignee

  /** The project and comment view sets always use `AuthorOrReadOnly`. */
  const ProjectPermissionClasses: seq<PermissionClass> := [AuthorOrReadOnly]
  const CommentPermissionClasses: seq<PermissionClass> := [AuthorOrReadOnly]

  /** What `IssueViewSet.get_permissions` assigns for an action. */
  function IssuePermissionClasses(action: Action): (r: seq<PermissionClass>)
    ensures |r| == 1
    ensures r[0] == AuthorOrAssignee <==> action == PartialUpdate
  {
    if action == PartialUpdate then [AuthorOrAssignee] else [AuthorOrReadOnly]
  }

  /** The assignee rule guards only an issue's `partial_update`; every other
      action of the three view sets is guarded by `AuthorOrReadOnly`. */
  lemma OnlyIssuePatchUsesAssigneeRule(action: Action)
    ensures AuthorOrAssignee in IssuePermissionClasses(action) <==> action == PartialUpdate
    ensures action != PartialUpdate ==> IssuePermissionClasses(action) == [AuthorOrReadOnly]
    ensures ProjectPermissionClasses == CommentPermissionClasses == [AuthorOrReadOnly]
  {
    assert IssuePermissionClasses(action)[0] in IssuePermissionClasses(action);
  }

  /** The issue view set, with the field `get_permissions` assigns. */
  class IssueViewSet {
    var action: Action
    var permissionClasses: seq<PermissionClass>

    constructor (action: Action, permissionClasses: seq<PermissionClass>)
      ensures this.action == action && this.permissionClasses == permissionClasses
    {
      this.action := action;
      this.permissionClasses := permissionClasses;
    }

    /** `get_permissions`: stores the classes for the current action, then
        returns them. */
    method GetPermissions() returns (permissions: seq<PermissionClass>)
      modifies this
      ensures action == old(action)
      ensures permissionClasses == IssuePermissionClasses(action)
      ensures permissions == permissionClasses
    {
      if action == PartialUpdate {
        permissionClasses := [AuthorOrAssignee];
      } else {
        permissionClasses := [AuthorOrReadOnly];
      }
      permissions := permissionClasses;
    }
  }
}
