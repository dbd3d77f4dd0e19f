/** The `Project` and `Contributor` models: the fixed type enumeration, the
    field limits, the project record, membership rows, and what deleting a
    user or a project does to them. */
module ProjectModels {
  import opened Common
  import opened Api

  const NameMaxLength := 100
  const TypeMaxLength := 20

  /** PROJECT_TYPES */
  datatype ProjectType = Backend | Frontend | Ios | Android

  /** The stored code of each project type, in declaration order. */
  const TypeCodes: seq<string> := ["backend", "frontend", "ios", "android"]

  function TypeCode(t: ProjectType): (code: string)
    ensures code in TypeCodes
  {
    match t
    case Backend => "backend"
    case Frontend => "frontend"
    case Ios => "ios"
    case Android => "android"
  }

  /** Reads a stored code back; only the four codes name a type. */
  function ParseType(code: string): (r: Option<ProjectType>)
    ensures r.Some? <==> code in TypeCodes
    ensures r.Some? ==> TypeCode(r.value) == code
  {
    if code == "backend" then Some(Backend)
    else if code == "frontend" then Some(Frontend)
    else if code == "ios" then Some(Ios)
    else if code == "android" then Some(Android)
    else None
  }

  /** Every type's code reads back as that type and fits the 20-character column. */
  lemma TypeCodeRoundTrip(t: ProjectType)
    ensures ParseType(TypeCode(t)) == Some(t)
    ensures |TypeCode(t)| <= TypeMaxLength
  {
  }

  /** A stored project. `author` is null once the author account is deleted. */
  datatype ProjectRow = ProjectRow(
    id: ProjectId,
    name: string,
    description: string,
    kind: ProjectType,
    author: Option<UserId>,
    contributors: set<UserId>)

  function ProjectKey(p: ProjectRow): int
  {
    p.id
  }

  /** A row of the `Contributor` through table. */
  datatype Contributor = Contributor(user: UserId, project: ProjectId)

  /** All membership rows implied by a projects table. */
  ghost function Memberships(projects: seq<ProjectRow>): set<Contributor>
  {
    set i, u | 0 <= i < |projects| && u in projects[i].contributors :: Contributor(u, projects[i].id)
  }

  /** `on_delete=SET_NULL` on the author and `CASCADE` on the membership's user,
      applied to one project. */
  function AfterUserDeleted(p: ProjectRow, uid: UserId): ProjectRow
  {
    p.(author := if p.author == Some(uid) then None else p.author,
       contributors := p.contributors - {uid})
  }

  /** Deleting user `uid`: every project survives, in place. */
  function OnUserDeleted(projects: seq<ProjectRow>, uid: UserId): (r: seq<ProjectRow>)
    ensures |r| == |projects|
    ensures forall i :: 0 <= i < |r| ==> r[i] == AfterUserDeleted(projects[i], uid)
  {
    seq(|projects|, i requires 0 <= i < |projects| => AfterUserDeleted(projects[i], uid))
  }

  /** Deleting project `pid` removes its row (and with it its memberships). */
  function OnProjectDeleted(projects: seq<ProjectRow>, pid: ProjectId): (r: seq<ProjectRow>)
    ensures forall p :: p in r <==> p in projects && p.id != pid
  {
    Filter(projects, (p: ProjectRow) => p.id != pid)
  }

  /** After the author is deleted each project keeps its key, name,
      description and type; its author is null if it was that user, and
      otherwise unchanged. */
  lemma ProjectsSurviveAuthorDeletion(projects: seq<ProjectRow>, uid: UserId)
    ensures var r := OnUserDeleted(projects, uid);
      && |r| == |projects|
      && forall i :: 0 <= i < |r| ==>
           && r[i].id == projects[i].id
           && r[i].name == projects[i].name
           && r[i].description == projects[i].description
           && r[i].kind == projects[i].kind
           && r[i].author != Some(uid)
           && (projects[i].author != Some(uid) ==> r[i].author == projects[i].author)
  {
  }

  /** Deleting a user deletes exactly the membership rows naming that user. */
  lemma {:induction false} UserDeletionCascadesToMemberships(projects: seq<ProjectRow>, uid: UserId)
    ensures Memberships(OnUserDeleted(projects, uid)) == set c | c in Memberships(projects) && c.user != uid
  {
    var r := OnUserDeleted(projects, uid);
    forall c | c in Memberships(r)
      ensures c in Memberships(projects) && c.user != uid
    {
      var i, u :| 0 <= i < |r| && u in r[i].contributors && c == Contributor(u, r[i].id);
      assert u in projects[i].contributors;
    }
    forall c | c in Memberships(projects) && c.user != uid
      ensures c in Memberships(r)
    {
      var i, u :| 0 <= i < |projects| && u in projects[i].contributors && c == Contributor(u, projects[i].id);
      assert u in r[i].contributors;
    }
  }

  /** Deleting a project deletes exactly the membership rows naming that project. */
  lemma {:induction false} ProjectDeletionCascadesToMemberships(projects: seq<ProjectRow>, pid: ProjectId)
    ensures Memberships(OnProjectDeleted(projects, pid)) == set c | c in Memberships(projects) && c.project != pid
  {
    var r := OnProjectDeleted(projects, pid);
    forall c | c in Memberships(r)
      ensures c in Memberships(projects) && c.project != pid
    {
      var i, u :| 0 <= i < |r| && u in r[i].contributors && c == Contributor(u, r[i].id);
      assert r[i] in r;
      var k :| 0 <= k < |projects| && projects[k] == r[i];
    }
    forall c | c in Memberships(projects) && c.project != pid
      ensures c in Memberships(r)
    {
      var i, u :| 0 <= i < |projects| && u in projects[i].contributors && c == Contributor(u, projects[i].id);
      assert projects[i] in r;
      var k :| 0 <= k < |r| && r[k] == projects[i];
    }
  }

  /** A project instance, whose fields the serializer updates in place. */
  class Project {
    const id: ProjectId
    var name: string
    var description: string
    var kind: ProjectType
    var author: Option<UserId>
    var contributors: set<UserId>

    /** `Project.objects.create(...)`: a new project has no members yet. */
    constructor (id: ProjectId, name: string, description: string, kind: ProjectType, author: Option<UserId>)
      ensures Row() == ProjectRow(id, name, description, kind, author, {})
    {
      this.id := id;
      this.name := name;
      this.description := description;
      this.kind := kind;
      this.author := author;
      this.contributors := {};
    }

    /** The row this instance stores. */
    function Row(): ProjectRow
      reads this
    {
      ProjectRow(id, name, description, kind, author, contributors)
    }
  }
}
