/** Sprints: their membership lists, start and close, and the referential rule
    that ties a board's sprint lists to its issues, including the cascade of
    `delete_issue`. */
module Sprints {
  import opened Lists
  import opened Dicts
  import opened Records

  /** The body of `add_issue_to_sprint` after its lookups: append only when the
      issue is on the board and not yet listed. */
  function AddMember(s: Sprint, iid: Id, onBoard: bool): Sprint {
    if iid !in s.issues && onBoard then s.(issues := s.issues + [iid]) else s
  }

  /** The body of `remove_issue_from_sprint`, and of each step of the sprint
      loop of `delete_issue`: remove the id when listed. */
  function RemoveMember(s: Sprint, iid: Id): Sprint {
    if iid in s.issues then s.(issues := RemoveFirst(s.issues, iid)) else s
  }

  /** `start_sprint`: active, and stamped only if it had never started. */
  function Start(s: Sprint, now: Stamp): Sprint {
    s.(active := true, startAt := if s.startAt.Some? then s.startAt else Some(now))
  }

  /** `close_sprint`: inactive, and the end stamp always overwritten. */
  function Close(s: Sprint, now: Stamp): Sprint {
    s.(active := false, endAt := Some(now))
  }

  /** `add_issue_to_sprint(board, sprint_id, issue_id)` on a board holding the sprint. */
  function AddIssueToSprint(b: Board, sid: Id, iid: Id): Board
    requires sid in b.sprints.entries
  {
    b.(sprints := Put(b.sprints, sid, AddMember(b.sprints.entries[sid], iid, iid in b.issues.entries)))
  }

  /** `remove_issue_from_sprint(board, sprint_id, issue_id)` on a board holding the sprint. */
  function RemoveIssueFromSprint(b: Board, sid: Id, iid: Id): Board
    requires sid in b.sprints.entries
  {
    b.(sprints := Put(b.sprints, sid, RemoveMember(b.sprints.entries[sid], iid)))
  }

  /** Every sprint with the id removed from its list, in the same sprint order. */
  function RemoveEverywhere(d: Dict<Sprint>, iid: Id): Dict<Sprint> {
    RawDict(d.keys, map k | k in d.entries :: RemoveMember(d.entries[k], iid))
  }

  /** The sprint loop of `delete_issue`: visit the sprints in order and remove
      the id from every list that holds it. */
  method RemoveFromEverySprint(sprints: Dict<Sprint>, iid: Id) returns (r: Dict<Sprint>)
    ensures r == RemoveEverywhere(sprints, iid)
  {
    var keys := sprints.keys;
    r := sprints;
    for k := 0 to |keys|
      invariant r.keys == keys
      invariant forall j :: 0 <= j < k ==> r.entries[keys[j]] == RemoveMember(sprints.entries[keys[j]], iid)
      invariant forall j :: k <= j < |keys| ==> r.entries[keys[j]] == sprints.entries[keys[j]]
    {
      var sid := keys[k];
      var s := r.entries[sid];
      if iid in s.issues {
        r := Put(r, sid, s.(issues := RemoveFirst(s.issues, iid)));
      }
      assert forall j :: 0 <= j < |keys| && j != k ==> keys[j] != sid;
    }
    EveryKeyVisited(sprints, r, iid);
  }

  /** A dictionary with the same keys as `d`, holding every sprint of `d`
      with the id removed, is `RemoveEverywhere(d, iid)`. */
  lemma EveryKeyVisited(d: Dict<Sprint>, r: Dict<Sprint>, iid: Id)
    requires r.keys == d.keys
    requires forall j :: 0 <= j < |d.keys| ==> r.entries[d.keys[j]] == RemoveMember(d.entries[d.keys[j]], iid)
    ensures r == RemoveEverywhere(d, iid)
  {
    forall sid | sid in d.entries
      ensures sid in r.entries && r.entries[sid] == RemoveMember(d.entries[sid], iid)
    {
      assert d.keys[IndexOf(d.keys, sid)] == sid;
    }
    assert forall sid :: sid in r.entries ==> sid in d.keys;
  }

  /** `delete_issue(board, issue_id)`: pop the issue, then remove its id from
      the list of every sprint of the board. */
  function DeleteIssue(b: Board, iid: Id): Board {
    b.(issues := Pop(b.issues, iid), sprints := RemoveEverywhere(b.sprints, iid))
  }

  /** Every sprint list is duplicate-free. */
  ghost predicate SprintListsDistinct(b: Board) {
    forall sid :: sid in b.sprints.entries ==> NoDup(b.sprints.entries[sid].issues)
  }

  /** The board's referential rule: every sprint list is duplicate-free and
      names only issues that are on the board. */
  ghost predicate SprintsConsistent(b: Board) {
    && SprintListsDistinct(b)
    && forall sid, x :: sid in b.sprints.entries && x in b.sprints.entries[sid].issues ==>
         x in b.issues.entries
  }

  /** `add_issue_to_sprint` keeps the referential rule. Afterwards the issue is
      listed when it is on the board; an issue not on the board changes nothing,
      so it stays listed only if it already was (a list an import let through). */
  lemma AddIssueToSprintEffect(b: Board, sid: Id, iid: Id)
    requires sid in b.sprints.entries
    ensures var r := AddIssueToSprint(b, sid, iid);
      && r.issues == b.issues
      && r.sprints.keys == b.sprints.keys
      && (iid in r.sprints.entries[sid].issues <==>
            iid in b.issues.entries || iid in b.sprints.entries[sid].issues)
      && (iid !in b.issues.entries ==> r == b)
      && (SprintsConsistent(b) ==> SprintsConsistent(r))
  {
    var s := b.sprints.entries[sid];
    var r := AddIssueToSprint(b, sid, iid);
    if iid !in s.issues && iid in b.issues.entries && SprintListsDistinct(b) {
      AppendNoDup(s.issues, iid);
    }
    if iid !in b.issues.entries {
      assert b.sprints.entries[sid := s] == b.sprints.entries;
    }
  }

  /** `remove_issue_from_sprint` keeps the referential rule and, on a
      duplicate-free list, leaves the issue unlisted and every other entry listed. */
  lemma RemoveIssueFromSprintEffect(b: Board, sid: Id, iid: Id)
    requires sid in b.sprints.entries
    ensures var r := RemoveIssueFromSprint(b, sid, iid);
      && r.issues == b.issues
      && r.sprints.keys == b.sprints.keys
      && (NoDup(b.sprints.entries[sid].issues) ==>
            forall x :: x in r.sprints.entries[sid].issues <==>
                        x in b.sprints.entries[sid].issues && x != iid)
      && (SprintsConsistent(b) ==> SprintsConsistent(r))
  {
    var s := b.sprints.entries[sid];
    if NoDup(s.issues) {
      RemoveFirstKeepsNoDup(s.issues, iid);
      RemoveFirstMembers(s.issues, iid);
    }
  }

  /** After `delete_issue` the issue is off the board and, when every sprint
      list is duplicate-free, in no sprint's list; every other sprint entry stays,
      and the sprints themselves are all kept. */
  lemma DeleteIssueRemovesEverywhere(b: Board, iid: Id)
    requires SprintListsDistinct(b)
    ensures var r := DeleteIssue(b, iid);
      && iid !in r.issues.entries
      && r.sprints.keys == b.sprints.keys
      && forall sid, x :: sid in r.sprints.entries ==>
           (x in r.sprints.entries[sid].issues <==> x in b.sprints.entries[sid].issues && x != iid)
  {
    var r := DeleteIssue(b, iid);
    forall sid | sid in r.sprints.entries
      ensures forall x :: x in r.sprints.entries[sid].issues <==>
                          x in b.sprints.entries[sid].issues && x != iid
    {
      RemoveFirstMembers(b.sprints.entries[sid].issues, iid);
    }
  }

  /** `delete_issue` keeps the referential rule. */
  lemma DeleteIssueKeepsConsistent(b: Board, iid: Id)
    requires SprintsConsistent(b)
    ensures SprintsConsistent(DeleteIssue(b, iid))
  {
    var r := DeleteIssue(b, iid);
    DeleteIssueRemovesEverywhere(b, iid);
    forall sid | sid in r.sprints.entries ensures NoDup(r.sprints.entries[sid].issues) {
      RemoveFirstKeepsNoDup(b.sprints.entries[sid].issues, iid);
    }
  }

  /** On a board that obeys the referential rule, deleting an issue that is
      not there changes nothing. */
  lemma DeleteUnknownIssueIsNoOp(b: Board, iid: Id)
    requires SprintsConsistent(b)
    requires iid !in b.issues.entries
    ensures DeleteIssue(b, iid) == b
  {
    PopValues(b.issues, iid);
    var r := DeleteIssue(b, iid);
    forall k | k in b.sprints.entries ensures r.sprints.entries[k] == b.sprints.entries[k] {
      assert iid !in b.sprints.entries[k].issues;
    }
    assert r.sprints.entries == b.sprints.entries;
  }

  /** Storing an issue (new or replaced) keeps the referential rule. */
  lemma PutIssueKeepsConsistent(b: Board, i: Issue)
    requires SprintsConsistent(b)
    ensures SprintsConsistent(PutIssue(b, i))
  {
  }

  /** Storing a fresh, empty sprint keeps the referential rule, even when it
      replaces a sprint stored under the same id. */
  lemma NewSprintKeepsConsistent(b: Board, id: Id, name: string)
    requires SprintsConsistent(b)
    ensures SprintsConsistent(PutSprint(b, NewSprint(id, name)))
  {
  }

  /** Replacing a sprint by one with the same list (as start and close do)
      keeps the referential rule. */
  lemma SameListKeepsConsistent(b: Board, s: Sprint)
    requires SprintsConsistent(b)
    requires s.id in b.sprints.entries && s.issues == b.sprints.entries[s.id].issues
    ensures SprintsConsistent(PutSprint(b, s))
  {
  }

  /** Everything `delete_issue` promises about the board, in one place: the
      issue is gone, it is in no list when the lists were duplicate-free, the
      referential rule and the keying by id are kept, and an unknown issue
      on a consistent board changes nothing. */
  lemma DeleteIssueEffect(b: Board, iid: Id)
    ensures var r := DeleteIssue(b, iid);
      && iid !in r.issues.entries
      && (SprintListsDistinct(b) ==>
            forall sid :: sid in r.sprints.entries ==> iid !in r.sprints.entries[sid].issues)
      && (SprintsConsistent(b) ==> SprintsConsistent(r))
      && (SprintsConsistent(b) && iid !in b.issues.entries ==> r == b)
      && (KeyedById(b) ==> KeyedById(r))
  {
    if SprintListsDistinct(b) {
      DeleteIssueRemovesEverywhere(b, iid);
    }
    if SprintsConsistent(b) {
      DeleteIssueKeepsConsistent(b, iid);
      if iid !in b.issues.entries {
        DeleteUnknownIssueIsNoOp(b, iid);
      }
    }
  }

  /** Starting twice keeps the first start stamp; a started sprint is active
      and has a start stamp. */
  lemma StartTwice(s: Sprint, t1: Stamp, t2: Stamp)
    ensures Start(Start(s, t1), t2) == Start(s, t1)
    ensures Start(s, t1).active && Start(s, t1).startAt.Some?
    ensures s.startAt.Some? ==> Start(s, t1).startAt == s.startAt
  {
  }

  /** Closing twice moves the end stamp to the second reading. */
  lemma CloseTwice(s: Sprint, t1: Stamp, t2: Stamp)
    ensures Close(Close(s, t1), t2) == Close(s, t2)
    ensures !Close(s, t1).active && Close(s, t1).endAt == Some(t1)
  {
  }
}
