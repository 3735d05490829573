/** The entities of the issue tracker (minimi.py's five dataclasses) and the
    error and optional values the manager's operations produce. */
module Records {
  import opened Lists
  import opened Dicts

  /** Identifiers: every entity kind draws them from the same counter. */
  type Id = int

  /** A reading of the manager's clock: a larger stamp is a later reading.
      Stands in for `datetime.utcnow().isoformat()`. */
  type Stamp = nat

  datatype Option<T> = None | Some(value: T) {
    /** Python's `x.get(key, default)` once the lookup has been made. */
    function GetOr(default: T): T {
      if Some? then value else default
    }
  }

  /** Which kind of record a failed lookup was looking for. */
  datatype Entity = BoardEntity | IssueEntity | SprintEntity

  /** The two ways an operation fails: a `KeyError` on a board, issue or sprint
      id, and a required field missing from an imported payload. */
  datatype Error = NotFound(entity: Entity, key: Id) | MissingField(field: string)

  datatype Result<T> = Ok(value: T) | Err(error: Error)

  /** What an operation that returns `None` in the source reports. */
  datatype Outcome = Done | Failed(error: Error)

  datatype User = User(id: Id, name: string)

  datatype Comment = Comment(id: Id, authorId: Id, body: string, createdAt: Stamp)

  datatype Issue = Issue(
    id: Id,
    title: string,
    description: string,
    status: string,
    assigneeId: Option<Id>,
    labels: seq<string>,
    priority: int,
    comments: seq<Comment>,
    createdAt: Stamp,
    updatedAt: Stamp)

  datatype Sprint = Sprint(
    id: Id,
    name: string,
    startAt: Option<Stamp>,
    endAt: Option<Stamp>,
    issues: seq<Id>,
    active: bool)

  datatype Board = Board(
    id: Id,
    name: string,
    projects: seq<string>,
    issues: Dict<Issue>,
    sprints: Dict<Sprint>)

  /** Issue field defaults (minimi.py:35-39). */
  const DefaultDescription: string := ""
  const DefaultStatus: string := "todo"
  const DefaultPriority: int := 100

  /** The Issue `create_issue` builds: status "todo", no comments, and the two
      clock readings its field defaults take, creation first. */
  function NewIssue(id: Id, title: string, description: string, assigneeId: Option<Id>,
                    labels: seq<string>, priority: int, created: Stamp, updated: Stamp): Issue
  {
    Issue(id, title, description, DefaultStatus, assigneeId, labels, priority, [], created, updated)
  }

  /** The Sprint `create_sprint` builds: not started, not closed, inactive, empty. */
  function NewSprint(id: Id, name: string): Sprint {
    Sprint(id, name, None, None, [], false)
  }

  /** The Board `create_board` builds: no projects, issues or sprints. */
  function NewBoard(id: Id, name: string): Board {
    Board(id, name, [], Empty(), Empty())
  }

  /** The body of `add_project` once the board is found: append the name only
      when it is not listed yet. */
  function AddProject(b: Board, name: string): Board {
    if name in b.projects then b else b.(projects := b.projects + [name])
  }

  /** `board.issues[issue.id] = issue` */
  function PutIssue(b: Board, i: Issue): Board {
    b.(issues := Put(b.issues, i.id, i))
  }

  /** `board.sprints[sprint.id] = sprint` */
  function PutSprint(b: Board, s: Sprint): Board {
    b.(sprints := Put(b.sprints, s.id, s))
  }

  /** After `add_project` the name is listed; the board changes only when it was
      not, and then by that one name at the end; a second call changes nothing;
      a duplicate-free project list stays duplicate-free. */
  lemma AddProjectEffect(b: Board, name: string)
    ensures var r := AddProject(b, name);
      && name in r.projects
      && (name in b.projects ==> r == b)
      && (name !in b.projects ==> r.projects == b.projects + [name])
      && r.(projects := b.projects) == b
      && AddProject(r, name) == r
      && (NoDup(b.projects) ==> NoDup(r.projects))
  {
    if name !in b.projects && NoDup(b.projects) {
      AppendNoDup(b.projects, name);
    }
  }

  /** Every issue and every sprint of the board is stored under its own id.
      Creation and import both store records this way, and no operation
      changes an id, so the manager keeps every board in this shape. */
  ghost predicate KeyedById(b: Board) {
    && (forall k :: k in b.issues.entries ==> b.issues.entries[k].id == k)
    && (forall k :: k in b.sprints.entries ==> b.sprints.entries[k].id == k)
  }

  /** Storing an issue under its own id keeps the board keyed by id. */
  lemma PutIssueKeyed(b: Board, i: Issue)
    requires KeyedById(b)
    ensures KeyedById(PutIssue(b, i))
  {
  }

  /** Storing a sprint under its own id keeps the board keyed by id. */
  lemma PutSprintKeyed(b: Board, s: Sprint)
    requires KeyedById(b)
    ensures KeyedById(PutSprint(b, s))
  {
  }
}
