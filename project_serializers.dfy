/** `ProjectSerializer`: field validation of a project payload, and the
    contributor-set semantics of create, PATCH (merge) and PUT (replace). */
module ProjectSerializers {
  import opened Common
  import opened Api
  import opened ProjectModels
  import opened UserModels

  /** A project payload as submitted; a missing key is `None`. */
  datatype ProjectInput = ProjectInput(
    name: Option<string>,
    description: Option<string>,
    kind: Option<string>,
    contributors: Option<seq<UserId>>)

  /** A validated payload (`validated_data`). */
  datatype ProjectData = ProjectData(
    name: Option<string>,
    description: Option<string>,
    kind: Option<ProjectType>,
    contributors: Option<seq<UserId>>)

  /** Some existing project already has this name. */
  predicate NameTaken(projects: seq<ProjectRow>, value: string)
  {
    exists p :: p in projects && p.name == value
  }

  /** `validate_name`: rejects a name held by any existing project, the one
      being updated included, and otherwise returns it unchanged. */
  function ValidateName(projects: seq<ProjectRow>, value: string): (r: Result<string, ApiError>)
    ensures r.Ok? <==> forall p :: p in projects ==> p.name != value
    ensures r.Ok? ==> r.value == value
    ensures r.Err? ==> r.error == ValidationError({"name"})
  {
    if NameTaken(projects, value) then Err(ValidationError({"name"})) else Ok(value)
  }

  /** Because the instance is not excluded, resubmitting a project's own name fails. */
  lemma OwnNameIsRejected(projects: seq<ProjectRow>, i: nat)
    requires i < |projects|
    ensures ValidateName(projects, projects[i].name).Err?
  {
    assert projects[i] in projects;
  }

  /** `validate_type`: accepts exactly the codes of PROJECT_TYPES, unchanged. */
  function ValidateType(value: string): (r: Result<string, ApiError>)
    ensures r.Ok? <==> ParseType(value).Some?
    ensures r.Ok? ==> r.value == value
    ensures r.Err? ==> r.error == ValidationError({"type"})
  {
    if value !in TypeCodes then Err(ValidationError({"type"})) else Ok(value)
  }

  /** The `contributors` field: every key must name an active user
      (`get_contributors_queryset`); the list is kept as given. */
  function ValidateContributors(users: map<UserId, User>, ids: seq<UserId>): (r: Result<seq<UserId>, ApiError>)
    ensures r.Ok? <==> forall i :: 0 <= i < |ids| ==> IsActiveUser(users, ids[i])
    ensures r.Ok? ==> r.value == ids
    ensures r.Err? ==> r.error == ValidationError({"contributors"})
  {
    if ids == [] then Ok([])
    else if !IsActiveUser(users, ids[0]) then Err(ValidationError({"contributors"}))
    else match ValidateContributors(users, ids[1..])
      case Ok(rest) => Ok([ids[0]] + rest)
      case Err(e) => Err(e)
  }

  /** The fields of `input` that fail validation. A PUT or a create must carry
      every field; a PATCH may leave any of them out. Name and description
      are text fields: they are stripped of surrounding whitespace first,
      must not be blank nor hold a null character, and the name's length and
      uniqueness are checked on the stripped value. The contributors field is
      required like the others, so a create or PUT without it fails. */
  function InvalidFields(projects: seq<ProjectRow>, users: map<UserId, User>, input: ProjectInput, partial: bool): set<string>
  {
    var nameBad := match input.name
      case None => !partial
      case Some(n) => Strip(n) == [] || |Strip(n)| > NameMaxLength || '\0' in Strip(n)
                      || ValidateName(projects, Strip(n)).Err?;
    var descriptionBad := match input.description
      case None => !partial
      case Some(d) => Strip(d) == [] || '\0' in Strip(d);
    var typeBad := match input.kind
      case None => !partial
      case Some(c) => ValidateType(c).Err?;
    var contributorsBad := match input.contributors
      case None => !partial
      case Some(ids) => ValidateContributors(users, ids).Err?;
    (if nameBad then {"name"} else {})
    + (if descriptionBad then {"description"} else {})
    + (if typeBad then {"type"} else {})
    + (if contributorsBad then {"contributors"} else {})
  }

  /** A text field's value after the framework strips it. */
  function Stripped(value: Option<string>): Option<string>
  {
    if value.Some? then Some(Strip(value.value)) else None
  }

  /** A payload with name, description and type, as create and PUT need. */
  predicate Complete(data: ProjectData)
  {
    data.name.Some? && data.description.Some? && data.kind.Some?
  }

  /** `validated_data.pop("contributors", [])` */
  function Given(data: ProjectData): seq<UserId>
  {
    if data.contributors.Some? then data.contributors.value else []
  }

  /** `is_valid()`: every failing field is reported; a valid payload keeps
      what was submitted, with name and description stripped and the type
      code read as a type. */
  function ValidateInput(projects: seq<ProjectRow>, users: map<UserId, User>, input: ProjectInput, partial: bool)
    : (r: Result<ProjectData, ApiError>)
    ensures r.Err? ==> r.error == ValidationError(InvalidFields(projects, users, input, partial))
                       && InvalidFields(projects, users, input, partial) != {}
    ensures r.Ok? <==> InvalidFields(projects, users, input, partial) == {}
    ensures r.Ok? && !partial ==> Complete(r.value)
    ensures r.Ok? ==> && r.value.name == Stripped(input.name)
                      && r.value.description == Stripped(input.description)
                      && r.value.contributors == input.contributors
                      && (r.value.kind.Some? <==> input.kind.Some?)
                      && (r.value.kind.Some? ==> TypeCode(r.value.kind.value) == input.kind.value)
    ensures r.Ok? && input.name.Some? ==>
              var name := Strip(input.name.value);
              name != [] && |name| <= NameMaxLength && '\0' !in name && !NameTaken(projects, name)
    ensures r.Ok? && input.description.Some? ==>
              Strip(input.description.value) != [] && '\0' !in Strip(input.description.value)
    ensures r.Ok? ==> forall u :: u in Elems(Given(r.value)) ==> IsActiveUser(users, u)
  {
    var bad := InvalidFields(projects, users, input, partial);
    if bad != {} then Err(ValidationError(bad))
    else
      var kind := if input.kind.Some? then ParseType(input.kind.value) else None;
      Ok(ProjectData(Stripped(input.name), Stripped(input.description), kind, input.contributors))
  }

  /** A name that matches an existing project once stripped is refused, however
      it is padded. */
  lemma PaddedTakenNameIsRejected(projects: seq<ProjectRow>, users: map<UserId, User>, input: ProjectInput,
                                  partial: bool, i: nat)
    requires i < |projects| && input.name.Some? && Strip(input.name.value) == projects[i].name
    ensures ValidateInput(projects, users, input, partial) == Err(ValidationError(InvalidFields(projects, users, input, partial)))
    ensures "name" in InvalidFields(projects, users, input, partial)
  {
    assert projects[i] in projects;
  }

  /** A name or description holding a null character, once stripped, is refused with a field error. */
  lemma NullCharacterIsRejected(projects: seq<ProjectRow>, users: map<UserId, User>, input: ProjectInput, partial: bool)
    requires (input.name.Some? && '\0' in Strip(input.name.value))
             || (input.description.Some? && '\0' in Strip(input.description.value))
    ensures ValidateInput(projects, users, input, partial).Err?
    ensures input.name.Some? && '\0' in Strip(input.name.value) ==> "name" in InvalidFields(projects, users, input, partial)
    ensures input.description.Some? && '\0' in Strip(input.description.value)
            ==> "description" in InvalidFields(projects, users, input, partial)
  {
  }

  /** A worked example of `PaddedTakenNameIsRejected`: with a project named
      "Apollo" stored, the name " Apollo " is refused. */
  lemma PaddedCopyOfApolloIsRejected(users: map<UserId, User>, input: ProjectInput, partial: bool)
    requires input.name == Some(" Apollo ")
    ensures var projects := [ProjectRow(1, "Apollo", "Rocket", Backend, Some(1), {1})];
            "name" in InvalidFields(projects, users, input, partial)
            && ValidateInput(projects, users, input, partial).Err?
  {
    assert LeadingSpaces(" Apollo ") == 1;
    assert TrailingSpaces(" Apollo ") == 1;
    PaddedTakenNameIsRejected([ProjectRow(1, "Apollo", "Rocket", Backend, Some(1), {1})], users, input, partial, 0);
  }

  /** No two projects share a name. */
  ghost predicate NamesUnique(projects: seq<ProjectRow>)
  {
    forall i, j :: 0 <= i < j < |projects| ==> projects[i].name != projects[j].name
  }

  /** A project saved under a validated name keeps names unique. */
  lemma ValidatedNameKeepsNamesUnique(projects: seq<ProjectRow>, row: ProjectRow)
    requires NamesUnique(projects) && ValidateName(projects, row.name).Ok?
    ensures NamesUnique(projects + [row])
  {
    var s := projects + [row];
    forall i, j | 0 <= i < j < |s| ensures s[i].name != s[j].name {
      if j == |projects| {
        assert s[i] == projects[i] && projects[i] in projects;
      } else {
        assert s[i] == projects[i] && s[j] == projects[j];
      }
    }
  }

  function AuthorSet(author: Option<UserId>): set<UserId>
  {
    if author.Some? then {author.value} else {}
  }

  /** Members after create: the requester, then every given contributor. */
  function InitialContributors(requester: UserId, given: seq<UserId>): set<UserId>
  {
    {requester} + Elems(given)
  }

  /** Members after a PATCH: the old ones and the given ones. */
  function MergedContributors(current: set<UserId>, given: seq<UserId>): set<UserId>
  {
    current + Elems(given)
  }

  /** Members after a PUT: the author, if any, and the given ones. */
  function ReplacedContributors(author: Option<UserId>, given: seq<UserId>): set<UserId>
  {
    AuthorSet(author) + Elems(given)
  }

  /** The requester always becomes a member, even when no contributors are given. */
  lemma CreatorIsMember(requester: UserId, given: seq<UserId>)
    ensures requester in InitialContributors(requester, given)
    ensures Elems(given) <= InitialContributors(requester, given)
    ensures InitialContributors(requester, []) == {requester}
  {
  }

  /** A PATCH never removes a member. */
  lemma MergeIsAdditive(current: set<UserId>, given: seq<UserId>)
    ensures current <= MergedContributors(current, given)
    ensures Elems(given) <= MergedContributors(current, given)
    ensures MergedContributors(current, []) == current
  {
  }

  /** A PUT keeps the author and otherwise only what was given: earlier members are dropped. */
  lemma ReplaceKeepsOnlyAuthorAndGiven(author: Option<UserId>, given: seq<UserId>)
    ensures author.Some? ==> author.value in ReplacedContributors(author, given)
    ensures forall u :: u in ReplacedContributors(author, given) <==> u in given || author == Some(u)
    ensures author.None? ==> ReplacedContributors(author, given) == Elems(given)
  {
  }

  /** When the requester is active, every member of a project created from a
      validated payload is an active user. */
  lemma CreatedMembersAreActive(projects: seq<ProjectRow>, users: map<UserId, User>, input: ProjectInput,
                                requester: UserId)
    requires IsActiveUser(users, requester)
    requires ValidateInput(projects, users, input, false).Ok?
    ensures forall u :: u in InitialContributors(requester, Given(ValidateInput(projects, users, input, false).value))
                        ==> IsActiveUser(users, u)
  {
  }

  /** The simple fields `super().update` writes: those present in the payload. */
  function WithFields(row: ProjectRow, data: ProjectData): ProjectRow
  {
    row.(name := if data.name.Some? then data.name.value else row.name,
         description := if data.description.Some? then data.description.value else row.description,
         kind := if data.kind.Some? then data.kind.value else row.kind)
  }

  /** `create`: the project is saved with the given author, the requester is
      added as a member, then each given contributor in turn. */
  method Create(id: ProjectId, data: ProjectData, author: UserId, requester: UserId) returns (project: Project)
    requires Complete(data)
    ensures fresh(project)
    ensures project.Row() == ProjectRow(id, data.name.value, data.description.value, data.kind.value,
                                        Some(author), InitialContributors(requester, Given(data)))
  {
    var contributors := Given(data);
    project := new Project(id, data.name.value, data.description.value, data.kind.value, Some(author));
    project.contributors := project.contributors + {requester};
    ghost var start := project.Row();
    for i := 0 to |contributors|
      invariant project.Row() == start.(contributors := {requester} + Elems(contributors[..i]))
    {
      assert contributors[..i + 1] == contributors[..i] + [contributors[i]];
      ElemsSnoc(contributors[..i], contributors[i]);
      project.contributors := project.contributors + {contributors[i]};
    }
    assert contributors[..|contributors|] == contributors;
  }

  /** `update`: the simple fields present are written; then a PATCH adds the
      given contributors to the members, while a PUT clears the members,
      re-adds the author if there is one, and adds the given contributors. */
  method Update(instance: Project, data: ProjectData, partial: bool)
    modifies instance
    ensures instance.Row() == WithFields(old(instance.Row()), data).(
              contributors := if partial then MergedContributors(old(instance.contributors), Given(data))
                              else ReplacedContributors(old(instance.author), Given(data)))
  {
    var contributors := Given(data);
    if data.name.Some? {
      instance.name := data.name.value;
    }
    if data.description.Some? {
      instance.description := data.description.value;
    }
    if data.kind.Some? {
      instance.kind := data.kind.value;
    }
    if !partial {
      instance.contributors := {};
      if instance.author.Some? {
        instance.contributors := instance.contributors + {instance.author.value};
      }
    }
    ghost var start := instance.Row();
    for i := 0 to |contributors|
      invariant instance.Row() == start.(contributors := start.contributors + Elems(contributors[..i]))
    {
      assert contributors[..i + 1] == contributors[..i] + [contributors[i]];
      ElemsSnoc(contributors[..i], contributors[i]);
      instance.contributors := instance.contributors + {contributors[i]};
    }
    assert contributors[..|contributors|] == contributors;
  }
}
