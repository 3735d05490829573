/** `BoardManager`: the boards and users it owns, the identifier counter every
    new record draws from, and the clock that stamps issues, comments and
    sprints. Each source method that changes state is a method here that states
    its whole new state, the failure it reports for a missing board, issue or
    sprint, and the board rule it keeps; `ImportBoard` alone does not keep
    that rule, since the source does not check imported sprint lists. */
module Manager {
  import opened Lists
  import opened Dicts
  import opened Records
  import opened IssueEdits
  import opened Sprints
  import opened Queries
  import opened Transfer

  /** Every board is stored under its own id, with its issues and sprints
      under theirs. */
  ghost predicate BoardsKeyed(boards: map<Id, Board>) {
    forall k :: k in boards ==> boards[k].id == k && KeyedById(boards[k])
  }

  /** Storing a board keyed by id under its own id keeps every board keyed. */
  lemma StoreKeepsKeyed(boards: map<Id, Board>, b: Board)
    requires BoardsKeyed(boards) && KeyedById(b)
    ensures BoardsKeyed(boards[b.id := b])
  {
  }

  class BoardManager {
    /** `self.boards`; each board is stored under its own id. */
    var boards: map<Id, Board>
    /** `self.users`; each user is stored under its own id. */
    var users: map<Id, User>
    /** The next value `_next_id()` hands out. */
    var nextId: Id
    /** The latest clock reading; a reading is later than every earlier one. */
    var clock: Stamp
    /** Every id `_next_id()` has handed out so far. */
    ghost var issued: set<Id>

    /** Every handed-out id is below the counter, and every board and user is
        stored under its own id, with its issues and sprints under theirs. */
    ghost predicate Valid()
      reads this
    {
      && (forall x :: x in issued ==> x < nextId)
      && BoardsKeyed(boards)
      && (forall k :: k in users ==> users[k].id == k)
    }

    /** `BoardManager()`, with the counter at its first value, 1. */
    constructor()
      ensures Valid()
      ensures boards == map[] && users == map[] && nextId == 1 && clock == 0 && issued == {}
    {
      boards := map[];
      users := map[];
      nextId := 1;
      clock := 0;
      issued := {};
    }

    /** `_next_id()`: the counter's value, which is larger than every id handed
        out before; the counter moves on by one. */
    method FreshId() returns (id: Id)
      requires Valid()
      modifies this
      ensures Valid()
      ensures id == old(nextId) && nextId == id + 1
      ensures id !in old(issued) && issued == old(issued) + {id}
      ensures forall x :: x in old(issued) ==> x < id
      ensures boards == old(boards) && users == old(users) && clock == old(clock)
    {
      id := nextId;
      nextId := nextId + 1;
      issued := issued + {id};
    }

    /** `datetime.utcnow()`: a reading later than every earlier one. */
    method Now() returns (t: Stamp)
      requires Valid()
      modifies this
      ensures Valid()
      ensures t == old(clock) + 1 && clock == t
      ensures boards == old(boards) && users == old(users)
      ensures nextId == old(nextId) && issued == old(issued)
    {
      clock := clock + 1;
      t := clock;
    }

    // Boards, projects and users

    /** `create_board(name)`: a new empty board under a fresh id. */
    method CreateBoard(name: string) returns (b: Board)
      requires Valid()
      modifies this
      ensures Valid()
      ensures b == NewBoard(old(nextId), name)
      ensures boards == old(boards)[b.id := b]
      ensures nextId == old(nextId) + 1 && issued == old(issued) + {b.id}
      ensures forall x :: x in old(issued) ==> x < b.id
      ensures users == old(users) && clock == old(clock)
    {
      var id := FreshId();
      b := NewBoard(id, name);
      boards := boards[id := b];
    }

    /** `add_project(board_id, name)`: fails on an unknown board; otherwise
        lists the name once, and a name already listed changes nothing. */
    method AddProject(bid: Id, name: string) returns (o: Outcome)
      requires Valid()
      modifies this
      ensures Valid()
      ensures bid !in old(boards) ==> o == Failed(NotFound(BoardEntity, bid)) && unchanged(this)
      ensures bid in old(boards) ==>
        && o == Done
        && boards == old(boards)[bid := Records.AddProject(old(boards)[bid], name)]
        && name in boards[bid].projects
        && (name in old(boards)[bid].projects ==> boards == old(boards))
        && (SprintsConsistent(old(boards)[bid]) ==> SprintsConsistent(boards[bid]))
      ensures users == old(users) && nextId == old(nextId) && clock == old(clock) && issued == old(issued)
    {
      if bid !in boards {
        return Failed(NotFound(BoardEntity, bid));
      }
      var b := boards[bid];
      if name !in b.projects {
        boards := boards[bid := b.(projects := b.projects + [name])];
      }
      o := Done;
    }

    /** `create_user(name)`: a new user under a fresh id. */
    method CreateUser(name: string) returns (u: User)
      requires Valid()
      modifies this
      ensures Valid()
      ensures u == User(old(nextId), name)
      ensures users == old(users)[u.id := u]
      ensures nextId == old(nextId) + 1 && issued == old(issued) + {u.id}
      ensures forall x :: x in old(issued) ==> x < u.id
      ensures boards == old(boards) && clock == old(clock)
    {
      var id := FreshId();
      u := User(id, name);
      users := users[id := u];
    }

    // Issues

    /** `get_issue(board_id, issue_id)`: the issue stored under that key, or the
        lookup that fails, the board first. */
    function GetIssue(bid: Id, iid: Id): (r: Result<Issue>)
      reads this
      ensures r.Ok? <==> bid in boards && iid in boards[bid].issues.entries
      ensures bid !in boards ==> r == Err(NotFound(BoardEntity, bid))
      ensures bid in boards && iid !in boards[bid].issues.entries ==> r == Err(NotFound(IssueEntity, iid))
      ensures r.Ok? ==> r.value == boards[bid].issues.entries[iid]
      ensures Valid() && r.Ok? ==> r.value.id == iid
    {
      if bid !in boards then Err(NotFound(BoardEntity, bid))
      else if iid !in boards[bid].issues.entries then Err(NotFound(IssueEntity, iid))
      else Ok(boards[bid].issues.entries[iid])
    }

    /** `create_issue(...)`: fails on an unknown board before drawing an id;
        otherwise stores a new "todo" issue under a fresh id, stamped by two
        readings (creation, then update). The labels are kept as given. */
    method CreateIssue(bid: Id, title: string, description: string, assigneeId: Option<Id>,
                       labels: seq<string>, priority: int) returns (r: Result<Issue>)
      requires Valid()
      modifies this
      ensures Valid()
      ensures bid !in old(boards) ==> r == Err(NotFound(BoardEntity, bid)) && unchanged(this)
      ensures bid in old(boards) ==>
        && r == Ok(NewIssue(old(nextId), title, description, assigneeId, labels, priority,
                            old(clock) + 1, old(clock) + 2))
        && boards == old(boards)[bid := PutIssue(old(boards)[bid], r.value)]
        && nextId == old(nextId) + 1 && issued == old(issued) + {old(nextId)}
        && (forall x :: x in old(issued) ==> x < r.value.id)
        && clock == old(clock) + 2 && users == old(users)
        && (SprintsConsistent(old(boards)[bid]) ==> SprintsConsistent(boards[bid]))
    {
      if bid !in boards {
        return Err(NotFound(BoardEntity, bid));
      }
      var id := FreshId();
      var created := Now();
      var updated := Now();
      var issue := NewIssue(id, title, description, assigneeId, labels, priority, created, updated);
      if SprintsConsistent(boards[bid]) {
        PutIssueKeepsConsistent(boards[bid], issue);
      }
      PutIssueKeyed(boards[bid], issue);
      StoreKeepsKeyed(boards, PutIssue(boards[bid], issue));
      boards := boards[bid := PutIssue(boards[bid], issue)];
      r := Ok(issue);
    }

    /** `update_issue(board_id, issue_id, **fields)`: fails when the lookup
        does; otherwise sets the given fields one by one, then stamps
        `updated_at` with one reading. Nothing else on the board changes. */
    method UpdateIssue(bid: Id, iid: Id, fields: seq<Setting>) returns (r: Result<Issue>)
      requires Valid()
      modifies this
      ensures Valid()
      ensures old(GetIssue(bid, iid)).Err? ==> r == old(GetIssue(bid, iid)) && unchanged(this)
      ensures old(GetIssue(bid, iid)).Ok? ==>
        && r == Ok(ApplyPatch(old(GetIssue(bid, iid)).value, PatchOf(fields), old(clock) + 1))
        && boards == old(boards)[bid := PutIssue(old(boards)[bid], r.value)]
        && clock == old(clock) + 1
        && (SprintsConsistent(old(boards)[bid]) ==> SprintsConsistent(boards[bid]))
      ensures users == old(users) && nextId == old(nextId) && issued == old(issued)
    {
      r := GetIssue(bid, iid);
      if r.Err? {
        return;
      }
      var issue := r.value;
      var cur := issue;
      for k := 0 to |fields|
        invariant cur == ApplyPatch(issue, PatchOf(fields[..k]), issue.updatedAt)
        modifies {}
      {
        assert fields[..k + 1][..k] == fields[..k];
        SupplyStep(issue, PatchOf(fields[..k]), fields[k], issue.updatedAt);
        cur := SetField(cur, fields[k]);
      }
      assert fields[..|fields|] == fields;
      var t := Now();
      cur := cur.(updatedAt := t);
      if SprintsConsistent(boards[bid]) {
        PutIssueKeepsConsistent(boards[bid], cur);
      }
      PutIssueKeyed(boards[bid], cur);
      StoreKeepsKeyed(boards, PutIssue(boards[bid], cur));
      boards := boards[bid := PutIssue(boards[bid], cur)];
      r := Ok(cur);
    }

    /** `delete_issue(board_id, issue_id)`: fails on an unknown board; otherwise
        pops the issue (if there) and then walks the sprints in order, removing
        the id from every list that holds it. */
    method DeleteIssue(bid: Id, iid: Id) returns (o: Outcome)
      requires Valid()
      modifies this
      ensures Valid()
      ensures bid !in old(boards) ==> o == Failed(NotFound(BoardEntity, bid)) && unchanged(this)
      ensures bid in old(boards) ==>
        && o == Done
        && boards == old(boards)[bid := Sprints.DeleteIssue(old(boards)[bid], iid)]
        && iid !in boards[bid].issues.entries
        && (SprintListsDistinct(old(boards)[bid]) ==>
              forall sid :: sid in boards[bid].sprints.entries ==> iid !in boards[bid].sprints.entries[sid].issues)
        && (SprintsConsistent(old(boards)[bid]) ==> SprintsConsistent(boards[bid]))
        && (SprintsConsistent(old(boards)[bid]) && iid !in old(boards)[bid].issues.entries ==>
              boards == old(boards))
      ensures users == old(users) && nextId == old(nextId) && clock == old(clock) && issued == old(issued)
    {
      if bid !in boards {
        return Failed(NotFound(BoardEntity, bid));
      }
      var b := boards[bid];
      var issues := Pop(b.issues, iid);
      var sprints := RemoveFromEverySprint(b.sprints, iid);
      var nb := b.(issues := issues, sprints := sprints);
      assert nb == Sprints.DeleteIssue(b, iid);
      DeleteIssueEffect(b, iid);
      StoreKeepsKeyed(boards, nb);
      boards := boards[bid := nb];
      o := Done;
    }

    /** `list_issues(board_id, ...)`: fails on an unknown board; otherwise
        exactly the board's issues that pass every active filter, in insertion
        order, or in stable ascending priority when asked. */
    function ListIssues(bid: Id, q: IssueQuery): (r: Result<seq<Issue>>)
      reads this
      ensures bid !in boards ==> r == Err(NotFound(BoardEntity, bid))
      ensures bid in boards ==>
        var all := Values(boards[bid].issues);
        && r.Ok?
        && (forall x :: x in r.value <==> x in all && Matches(x, q))
        && (!q.sortByPriority ==> r.value == Select(all, Satisfies(q)))
        && (q.sortByPriority ==>
              && SortedByPriority(r.value)
              && multiset(r.value) == multiset(Select(all, Satisfies(q)))
              && forall p :: Select(r.value, HasPriority(p)) == Select(Select(all, Satisfies(q)), HasPriority(p)))
    {
      if bid !in boards then Err(NotFound(BoardEntity, bid))
      else
        ListIssuesSpec(Values(boards[bid].issues), q);
        Ok(Queries.ListIssues(Values(boards[bid].issues), q))
    }

    // Assignment, labels, comments, workflow

    /** `assign_issue(board_id, issue_id, user_id)`: `update_issue` with the
        assignee alone. The user id is not checked against the users. */
    method AssignIssue(bid: Id, iid: Id, user: Option<Id>) returns (r: Result<Issue>)
      requires Valid()
      modifies this
      ensures Valid()
      ensures old(GetIssue(bid, iid)).Err? ==> r == old(GetIssue(bid, iid)) && unchanged(this)
      ensures old(GetIssue(bid, iid)).Ok? ==>
        && r == Ok(ApplyPatch(old(GetIssue(bid, iid)).value, AssignPatch(user), old(clock) + 1))
        && boards == old(boards)[bid := PutIssue(old(boards)[bid], r.value)]
        && clock == old(clock) + 1
        && (SprintsConsistent(old(boards)[bid]) ==> SprintsConsistent(boards[bid]))
      ensures users == old(users) && nextId == old(nextId) && issued == old(issued)
    {
      WrappersArePatches(user, "", 0);
      r := UpdateIssue(bid, iid, [SetAssignee(user)]);
    }

    /** `add_label(board_id, issue_id, label)`: fails when the lookup does; a
        label already present changes nothing, not even the clock; otherwise
        the label is appended and `updated_at` takes one reading. */
    method AddLabel(bid: Id, iid: Id, tag: string) returns (r: Result<Issue>)
      requires Valid()
      modifies this
      ensures Valid()
      ensures old(GetIssue(bid, iid)).Err? ==> r == old(GetIssue(bid, iid)) && unchanged(this)
      ensures old(GetIssue(bid, iid)).Ok? ==>
        var i := old(GetIssue(bid, iid)).value;
        && r == Ok(IssueEdits.AddLabel(i, tag, old(clock) + 1))
        && boards == old(boards)[bid := PutIssue(old(boards)[bid], r.value)]
        && (tag in i.labels ==> boards == old(boards) && clock == old(clock))
        && (tag !in i.labels ==> clock == old(clock) + 1)
        && (SprintsConsistent(old(boards)[bid]) ==> SprintsConsistent(boards[bid]))
      ensures users == old(users) && nextId == old(nextId) && issued == old(issued)
    {
      r := GetIssue(bid, iid);
      if r.Err? {
        return;
      }
      var issue := r.value;
      if tag !in issue.labels {
        var t := Now();
        issue := issue.(labels := issue.labels + [tag], updatedAt := t);
        if SprintsConsistent(boards[bid]) {
          PutIssueKeepsConsistent(boards[bid], issue);
        }
        PutIssueKeyed(boards[bid], issue);
        StoreKeepsKeyed(boards, PutIssue(boards[bid], issue));
        boards := boards[bid := PutIssue(boards[bid], issue)];
      } else {
        PutSame(boards[bid].issues, iid);
      }
      r := Ok(issue);
    }

    /** `remove_label(board_id, issue_id, label)`: fails when the lookup does; a
        label not present changes nothing, not even the clock; otherwise its
        first occurrence goes and `updated_at` takes one reading. */
    method RemoveLabel(bid: Id, iid: Id, tag: string) returns (r: Result<Issue>)
      requires Valid()
      modifies this
      ensures Valid()
      ensures old(GetIssue(bid, iid)).Err? ==> r == old(GetIssue(bid, iid)) && unchanged(this)
      ensures old(GetIssue(bid, iid)).Ok? ==>
        var i := old(GetIssue(bid, iid)).value;
        && r == Ok(IssueEdits.RemoveLabel(i, tag, old(clock) + 1))
        && boards == old(boards)[bid := PutIssue(old(boards)[bid], r.value)]
        && (tag !in i.labels ==> boards == old(boards) && clock == old(clock))
        && (tag in i.labels ==> clock == old(clock) + 1)
        && (SprintsConsistent(old(boards)[bid]) ==> SprintsConsistent(boards[bid]))
      ensures users == old(users) && nextId == old(nextId) && issued == old(issued)
    {
      r := GetIssue(bid, iid);
      if r.Err? {
        return;
      }
      var issue := r.value;
      if tag in issue.labels {
        var t := Now();
        issue := issue.(labels := RemoveFirst(issue.labels, tag), updatedAt := t);
        if SprintsConsistent(boards[bid]) {
          PutIssueKeepsConsistent(boards[bid], issue);
        }
        PutIssueKeyed(boards[bid], issue);
        StoreKeepsKeyed(boards, PutIssue(boards[bid], issue));
        boards := boards[bid := PutIssue(boards[bid], issue)];
      } else {
        PutSame(boards[bid].issues, iid);
      }
      r := Ok(issue);
    }

    /** `add_comment(board_id, issue_id, author_id, body)`: fails when the
        lookup does, before drawing an id; otherwise a comment under a fresh id,
        stamped by one reading, goes at the end of the issue's comments and
        `updated_at` takes the next reading. The author is not checked. */
    method AddComment(bid: Id, iid: Id, author: Id, body: string) returns (r: Result<Comment>)
      requires Valid()
      modifies this
      ensures Valid()
      ensures old(GetIssue(bid, iid)).Err? ==> r == Err(old(GetIssue(bid, iid)).error) && unchanged(this)
      ensures old(GetIssue(bid, iid)).Ok? ==>
        var i := old(GetIssue(bid, iid)).value;
        && r == Ok(Comment(old(nextId), author, body, old(clock) + 1))
        && boards == old(boards)[bid := PutIssue(old(boards)[bid], IssueEdits.AddComment(i, r.value, old(clock) + 2))]
        && nextId == old(nextId) + 1 && issued == old(issued) + {old(nextId)}
        && (forall x :: x in old(issued) ==> x < r.value.id)
        && clock == old(clock) + 2
        && (SprintsConsistent(old(boards)[bid]) ==> SprintsConsistent(boards[bid]))
      ensures users == old(users)
    {
      var found := GetIssue(bid, iid);
      if found.Err? {
        return Err(found.error);
      }
      var issue := found.value;
      var id := FreshId();
      var created := Now();
      var c := Comment(id, author, body, created);
      var updated := Now();
      issue := issue.(comments := issue.comments + [c], updatedAt := updated);
      if SprintsConsistent(boards[bid]) {
        PutIssueKeepsConsistent(boards[bid], issue);
      }
      PutIssueKeyed(boards[bid], issue);
      StoreKeepsKeyed(boards, PutIssue(boards[bid], issue));
      boards := boards[bid := PutIssue(boards[bid], issue)];
      r := Ok(c);
    }

    /** `move_issue(board_id, issue_id, new_status)`: `update_issue` with the
        status alone; any string is accepted. */
    method MoveIssue(bid: Id, iid: Id, status: string) returns (r: Result<Issue>)
      requires Valid()
      modifies this
      ensures Valid()
      ensures old(GetIssue(bid, iid)).Err? ==> r == old(GetIssue(bid, iid)) && unchanged(this)
      ensures old(GetIssue(bid, iid)).Ok? ==>
        && r == Ok(ApplyPatch(old(GetIssue(bid, iid)).value, MovePatch(status), old(clock) + 1))
        && boards == old(boards)[bid := PutIssue(old(boards)[bid], r.value)]
        && clock == old(clock) + 1
        && (SprintsConsistent(old(boards)[bid]) ==> SprintsConsistent(boards[bid]))
      ensures users == old(users) && nextId == old(nextId) && issued == old(issued)
    {
      WrappersArePatches(None, status, 0);
      r := UpdateIssue(bid, iid, [SetStatus(status)]);
    }

    /** `prioritize_issue(board_id, issue_id, priority)`: `update_issue` with
        the priority alone. */
    method PrioritizeIssue(bid: Id, iid: Id, priority: int) returns (r: Result<Issue>)
      requires Valid()
      modifies this
      ensures Valid()
      ensures old(GetIssue(bid, iid)).Err? ==> r == old(GetIssue(bid, iid)) && unchanged(this)
      ensures old(GetIssue(bid, iid)).Ok? ==>
        && r == Ok(ApplyPatch(old(GetIssue(bid, iid)).value, PrioritizePatch(priority), old(clock) + 1))
        && boards == old(boards)[bid := PutIssue(old(boards)[bid], r.value)]
        && clock == old(clock) + 1
        && (SprintsConsistent(old(boards)[bid]) ==> SprintsConsistent(boards[bid]))
      ensures users == old(users) && nextId == old(nextId) && issued == old(issued)
    {
      WrappersArePatches(None, "", priority);
      r := UpdateIssue(bid, iid, [SetPriority(priority)]);
    }

    // Sprints

    /** `create_sprint(board_id, name)`: fails on an unknown board before
        drawing an id; otherwise stores a new, empty, inactive sprint under a
        fresh id. */
    method CreateSprint(bid: Id, name: string) returns (r: Result<Sprint>)
      requires Valid()
      modifies this
      ensures Valid()
      ensures bid !in old(boards) ==> r == Err(NotFound(BoardEntity, bid)) && unchanged(this)
      ensures bid in old(boards) ==>
        && r == Ok(NewSprint(old(nextId), name))
        && boards == old(boards)[bid := PutSprint(old(boards)[bid], r.value)]
        && nextId == old(nextId) + 1 && issued == old(issued) + {old(nextId)}
        && (forall x :: x in old(issued) ==> x < r.value.id)
        && (SprintsConsistent(old(boards)[bid]) ==> SprintsConsistent(boards[bid]))
      ensures users == old(users) && clock == old(clock)
    {
      if bid !in boards {
        return Err(NotFound(BoardEntity, bid));
      }
      var id := FreshId();
      var s := NewSprint(id, name);
      if SprintsConsistent(boards[bid]) {
        NewSprintKeepsConsistent(boards[bid], id, name);
      }
      PutSprintKeyed(boards[bid], s);
      StoreKeepsKeyed(boards, PutSprint(boards[bid], s));
      boards := boards[bid := PutSprint(boards[bid], s)];
      r := Ok(s);
    }

    /** The sprint a sprint method looks up, or the lookup that fails, the board first. */
    function GetSprint(bid: Id, sid: Id): (r: Result<Sprint>)
      reads this
      ensures r.Ok? <==> bid in boards && sid in boards[bid].sprints.entries
      ensures bid !in boards ==> r == Err(NotFound(BoardEntity, bid))
      ensures bid in boards && sid !in boards[bid].sprints.entries ==> r == Err(NotFound(SprintEntity, sid))
      ensures r.Ok? ==> r.value == boards[bid].sprints.entries[sid]
      ensures Valid() && r.Ok? ==> r.value.id == sid
    {
      if bid !in boards then Err(NotFound(BoardEntity, bid))
      else if sid !in boards[bid].sprints.entries then Err(NotFound(SprintEntity, sid))
      else Ok(boards[bid].sprints.entries[sid])
    }

    /** `add_issue_to_sprint(board_id, sprint_id, issue_id)`: fails when a lookup
        does; otherwise lists the issue once, and only when it is on the board. */
    method AddIssueToSprint(bid: Id, sid: Id, iid: Id) returns (o: Outcome)
      requires Valid()
      modifies this
      ensures Valid()
      ensures old(GetSprint(bid, sid)).Err? ==> o == Failed(old(GetSprint(bid, sid)).error) && unchanged(this)
      ensures old(GetSprint(bid, sid)).Ok? ==>
        && o == Done
        && boards == old(boards)[bid := Sprints.AddIssueToSprint(old(boards)[bid], sid, iid)]
        && (iid in boards[bid].sprints.entries[sid].issues <==>
              iid in old(boards)[bid].issues.entries || iid in old(GetSprint(bid, sid)).value.issues)
        && (SprintsConsistent(old(boards)[bid]) ==> SprintsConsistent(boards[bid]))
      ensures users == old(users) && nextId == old(nextId) && clock == old(clock) && issued == old(issued)
    {
      var found := GetSprint(bid, sid);
      if found.Err? {
        return Failed(found.error);
      }
      var b := boards[bid];
      var s := found.value;
      AddIssueToSprintEffect(b, sid, iid);
      if iid !in s.issues && iid in b.issues.entries {
        var s' := s.(issues := s.issues + [iid]);
        assert s'.id == sid;
        PutSprintKeyed(b, s');
        StoreKeepsKeyed(boards, PutSprint(b, s'));
        boards := boards[bid := PutSprint(b, s')];
      } else {
        PutSame(b.sprints, sid);
      }
      o := Done;
    }

    /** `remove_issue_from_sprint(board_id, sprint_id, issue_id)`: fails when a
        lookup does; otherwise removes the first occurrence of the id, if any. */
    method RemoveIssueFromSprint(bid: Id, sid: Id, iid: Id) returns (o: Outcome)
      requires Valid()
      modifies this
      ensures Valid()
      ensures old(GetSprint(bid, sid)).Err? ==> o == Failed(old(GetSprint(bid, sid)).error) && unchanged(this)
      ensures old(GetSprint(bid, sid)).Ok? ==>
        && o == Done
        && boards == old(boards)[bid := Sprints.RemoveIssueFromSprint(old(boards)[bid], sid, iid)]
        && (NoDup(old(GetSprint(bid, sid)).value.issues) ==> iid !in boards[bid].sprints.entries[sid].issues)
        && (SprintsConsistent(old(boards)[bid]) ==> SprintsConsistent(boards[bid]))
      ensures users == old(users) && nextId == old(nextId) && clock == old(clock) && issued == old(issued)
    {
      var found := GetSprint(bid, sid);
      if found.Err? {
        return Failed(found.error);
      }
      var b := boards[bid];
      var s := found.value;
      RemoveIssueFromSprintEffect(b, sid, iid);
      if iid in s.issues {
        var s' := s.(issues := RemoveFirst(s.issues, iid));
        assert s'.id == sid;
        PutSprintKeyed(b, s');
        StoreKeepsKeyed(boards, PutSprint(b, s'));
        boards := boards[bid := PutSprint(b, s')];
      } else {
        PutSame(b.sprints, sid);
      }
      o := Done;
    }

    /** `start_sprint(board_id, sprint_id)`: fails when a lookup does;
        otherwise the sprint is active, and the clock is read only when the
        sprint has no start stamp yet. */
    method StartSprint(bid: Id, sid: Id) returns (r: Result<Sprint>)
      requires Valid()
      modifies this
      ensures Valid()
      ensures old(GetSprint(bid, sid)).Err? ==> r == old(GetSprint(bid, sid)) && unchanged(this)
      ensures old(GetSprint(bid, sid)).Ok? ==>
        var s := old(GetSprint(bid, sid)).value;
        && r == Ok(Start(s, old(clock) + 1))
        && boards == old(boards)[bid := PutSprint(old(boards)[bid], r.value)]
        && clock == (if s.startAt.Some? then old(clock) else old(clock) + 1)
        && (SprintsConsistent(old(boards)[bid]) ==> SprintsConsistent(boards[bid]))
      ensures users == old(users) && nextId == old(nextId) && issued == old(issued)
    {
      r := GetSprint(bid, sid);
      if r.Err? {
        return;
      }
      var s := r.value;
      s := s.(active := true);
      if s.startAt.None? {
        var t := Now();
        s := s.(startAt := Some(t));
      }
      if SprintsConsistent(boards[bid]) {
        SameListKeepsConsistent(boards[bid], s);
      }
      PutSprintKeyed(boards[bid], s);
      StoreKeepsKeyed(boards, PutSprint(boards[bid], s));
      boards := boards[bid := PutSprint(boards[bid], s)];
      r := Ok(s);
    }

    /** `close_sprint(board_id, sprint_id)`: fails when a lookup does;
        otherwise the sprint is inactive and its end stamp is a new reading. */
    method CloseSprint(bid: Id, sid: Id) returns (r: Result<Sprint>)
      requires Valid()
      modifies this
      ensures Valid()
      ensures old(GetSprint(bid, sid)).Err? ==> r == old(GetSprint(bid, sid)) && unchanged(this)
      ensures old(GetSprint(bid, sid)).Ok? ==>
        && r == Ok(Close(old(GetSprint(bid, sid)).value, old(clock) + 1))
        && boards == old(boards)[bid := PutSprint(old(boards)[bid], r.value)]
        && clock == old(clock) + 1
        && (SprintsConsistent(old(boards)[bid]) ==> SprintsConsistent(boards[bid]))
      ensures users == old(users) && nextId == old(nextId) && issued == old(issued)
    {
      r := GetSprint(bid, sid);
      if r.Err? {
        return;
      }
      var s := r.value;
      var t := Now();
      s := s.(active := false, endAt := Some(t));
      if SprintsConsistent(boards[bid]) {
        SameListKeepsConsistent(boards[bid], s);
      }
      PutSprintKeyed(boards[bid], s);
      StoreKeepsKeyed(boards, PutSprint(boards[bid], s));
      boards := boards[bid := PutSprint(boards[bid], s)];
      r := Ok(s);
    }

    // Search, export, import

    /** `search_issues(board_id, query)`: fails on an unknown board; otherwise
        exactly the issues whose lowercased title or description contains the
        lowercased query, in insertion order. */
    function SearchIssues(bid: Id, query: string): (r: Result<seq<Issue>>)
      reads this
      ensures bid !in boards ==> r == Err(NotFound(BoardEntity, bid))
      ensures bid in boards ==>
        && r.Ok?
        && (forall x :: x in r.value <==>
              (x in Values(boards[bid].issues) &&
               ((exists k :: OccursAt(Lower(x.title), Lower(query), k)) ||
                (exists k :: OccursAt(Lower(x.description), Lower(query), k)))))
        && r.value == Select(Values(boards[bid].issues), Mentions(Lower(query)))
    {
      if bid !in boards then Err(NotFound(BoardEntity, bid))
      else
        SearchIssuesSpec(Values(boards[bid].issues), query);
        Ok(Queries.SearchIssues(Values(boards[bid].issues), query))
    }

    /** `export_board(board_id)`: fails on an unknown board; otherwise the
        payload of the board (see `ExportedBoardImportsBack`). */
    function ExportBoard(bid: Id): (r: Result<BoardData>)
      reads this
      ensures bid !in boards ==> r == Err(NotFound(BoardEntity, bid))
      ensures bid in boards ==> r == Ok(EncodeBoard(boards[bid]))
    {
      if bid !in boards then Err(NotFound(BoardEntity, bid))
      else Ok(EncodeBoard(boards[bid]))
    }

    /** `import_board(data)`: always uses up one id (the fallback for a payload
        without an id); a payload without a name fails; otherwise the decoded
        board, stamped by one reading where a stamp is missing, is stored under
        its id, replacing any board stored there. The counter is not moved past
        the imported ids. */
    method ImportBoard(data: BoardData) returns (r: Result<Board>)
      requires Valid()
      modifies this
      ensures Valid()
      ensures nextId == old(nextId) + 1 && issued == old(issued) + {old(nextId)} && users == old(users)
      ensures data.name.None? ==> r == Err(MissingField("name")) && clock == old(clock)
      ensures data.name.Some? ==> r == DecodeBoard(data, old(nextId), old(clock) + 1) && clock == old(clock) + 1
      ensures r.Ok? ==> r.value.id == data.id.GetOr(old(nextId)) && boards == old(boards)[r.value.id := r.value]
      ensures r.Err? ==> boards == old(boards)
    {
      var fallbackId := FreshId();
      if data.name.None? {
        return Err(MissingField("name"));
      }
      var t := Now();
      r := DecodeBoard(data, fallbackId, t);
      if r.Ok? {
        StoreKeepsKeyed(boards, r.value);
        boards := boards[r.value.id := r.value];
      }
    }
  }

  /** Every board the manager exports imports back as the same board, whatever
      fallback id and clock reading the import is given. */
  lemma ExportedBoardImportsBack(m: BoardManager, bid: Id, fallbackId: Id, now: Stamp)
    requires m.Valid() && bid in m.boards
    ensures m.ExportBoard(bid).Ok?
    ensures DecodeBoard(m.ExportBoard(bid).value, fallbackId, now) == Ok(m.boards[bid])
  {
    BoardRoundTrip(m.boards[bid], fallbackId, now);
  }

  /** Because the import never moves the counter past the ids it brings in, a
      later `create_board` can draw an imported board's id and replace that
      board. */
  method ImportedIdIsReissued() returns (imported: Board, created: Board, stored: Board)
    ensures imported.id == created.id
    ensures stored == created && stored != imported
  {
    var m := new BoardManager();
    var r := m.ImportBoard(BoardData(Some(2), Some("imported"), None, None, None));
    assert r == Ok(Board(2, "imported", [], Empty(), Empty()));
    imported := r.value;
    created := m.CreateBoard("created");
    stored := m.boards[2];
  }
}
