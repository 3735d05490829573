/** The changes the manager makes to one Issue: the field patch behind
    `update_issue` and its three wrappers, label edits and comments. */
module IssueEdits {
  import opened Lists
  import opened Records

  /** The keyword arguments `update_issue` may be given, one slot per field it
      can overwrite; `None` leaves that field alone. */
  datatype Patch = Patch(
    title: Option<string>,
    description: Option<string>,
    status: Option<string>,
    assigneeId: Option<Option<Id>>,
    labels: Option<seq<string>>,
    priority: Option<int>)

  const NoChange: Patch := Patch(None, None, None, None, None, None)

  /** One keyword argument of `update_issue`: a patchable field and its new value. */
  datatype Setting =
    | SetTitle(newTitle: string)
    | SetDescription(newDescription: string)
    | SetStatus(newStatus: string)
    | SetAssignee(newAssignee: Option<Id>)
    | SetLabels(newLabels: seq<string>)
    | SetPriority(newPriority: int)

  /** `setattr(issue, k, v)` for one keyword argument. */
  function SetField(i: Issue, s: Setting): Issue {
    match s
    case SetTitle(v) => i.(title := v)
    case SetDescription(v) => i.(description := v)
    case SetStatus(v) => i.(status := v)
    case SetAssignee(v) => i.(assigneeId := v)
    case SetLabels(v) => i.(labels := v)
    case SetPriority(v) => i.(priority := v)
  }

  /** The patch `p` with the slot of `s` supplied by `s`'s value. */
  function Supply(p: Patch, s: Setting): Patch {
    match s
    case SetTitle(v) => p.(title := Some(v))
    case SetDescription(v) => p.(description := Some(v))
    case SetStatus(v) => p.(status := Some(v))
    case SetAssignee(v) => p.(assigneeId := Some(v))
    case SetLabels(v) => p.(labels := Some(v))
    case SetPriority(v) => p.(priority := Some(v))
  }

  /** The patch the keyword arguments of a call amount to. A Python call names
      each keyword at most once; a sequence of settings generalises that, and a
      field named twice would take its later value. */
  function PatchOf(fields: seq<Setting>): Patch {
    if fields == [] then NoChange
    else Supply(PatchOf(fields[..|fields| - 1]), fields[|fields| - 1])
  }

  /** `assign_issue(user_id)` is `update_issue(assignee_id=user_id)`. */
  function AssignPatch(user: Option<Id>): Patch {
    NoChange.(assigneeId := Some(user))
  }

  /** `move_issue(new_status)` is `update_issue(status=new_status)`. */
  function MovePatch(status: string): Patch {
    NoChange.(status := Some(status))
  }

  /** `prioritize_issue(priority)` is `update_issue(priority=priority)`. */
  function PrioritizePatch(priority: int): Patch {
    NoChange.(priority := Some(priority))
  }

  /** The body of `update_issue`: set every supplied field, then stamp `updated_at`. */
  function ApplyPatch(i: Issue, p: Patch, now: Stamp): Issue {
    i.(title := p.title.GetOr(i.title),
       description := p.description.GetOr(i.description),
       status := p.status.GetOr(i.status),
       assigneeId := p.assigneeId.GetOr(i.assigneeId),
       labels := p.labels.GetOr(i.labels),
       priority := p.priority.GetOr(i.priority),
       updatedAt := now)
  }

  /** The body of `add_label`: append only when absent, and only then stamp. */
  function AddLabel(i: Issue, tag: string, now: Stamp): Issue {
    if tag in i.labels then i
    else i.(labels := i.labels + [tag], updatedAt := now)
  }

  /** The body of `remove_label`: remove only when present, and only then stamp. */
  function RemoveLabel(i: Issue, tag: string, now: Stamp): Issue {
    if tag in i.labels then i.(labels := RemoveFirst(i.labels, tag), updatedAt := now)
    else i
  }

  /** The body of `add_comment` once the Comment is built: append it and stamp. */
  function AddComment(i: Issue, c: Comment, now: Stamp): Issue {
    i.(comments := i.comments + [c], updatedAt := now)
  }

  /** One more `setattr` after a patch is the patch with that slot supplied. */
  lemma SupplyStep(i: Issue, p: Patch, s: Setting, t: Stamp)
    ensures SetField(ApplyPatch(i, p, t), s) == ApplyPatch(i, Supply(p, s), t)
  {
  }

  /** The three wrappers pass one keyword argument each, and that argument is
      their patch. */
  lemma WrappersArePatches(user: Option<Id>, status: string, priority: int)
    ensures PatchOf([SetAssignee(user)]) == AssignPatch(user)
    ensures PatchOf([SetStatus(status)]) == MovePatch(status)
    ensures PatchOf([SetPriority(priority)]) == PrioritizePatch(priority)
  {
    assert [SetAssignee(user)][..0] == [];
    assert [SetStatus(status)][..0] == [];
    assert [SetPriority(priority)][..0] == [];
  }

  /** A patch overwrites exactly the fields it supplies; id, comments and
      creation stamp never change, and `updated_at` is always refreshed. */
  lemma PatchChangesOnlySupplied(i: Issue, p: Patch, now: Stamp)
    ensures var r := ApplyPatch(i, p, now);
      && r.id == i.id && r.comments == i.comments && r.createdAt == i.createdAt
      && r.updatedAt == now
      && (p.title.Some? ==> r.title == p.title.value) && (p.title.None? ==> r.title == i.title)
      && (p.description.Some? ==> r.description == p.description.value)
      && (p.description.None? ==> r.description == i.description)
      && (p.status.Some? ==> r.status == p.status.value) && (p.status.None? ==> r.status == i.status)
      && (p.assigneeId.Some? ==> r.assigneeId == p.assigneeId.value)
      && (p.assigneeId.None? ==> r.assigneeId == i.assigneeId)
      && (p.labels.Some? ==> r.labels == p.labels.value) && (p.labels.None? ==> r.labels == i.labels)
      && (p.priority.Some? ==> r.priority == p.priority.value)
      && (p.priority.None? ==> r.priority == i.priority)
  {
  }

  /** An empty patch still refreshes `updated_at` and touches nothing else. */
  lemma EmptyPatchOnlyStamps(i: Issue, now: Stamp)
    ensures ApplyPatch(i, NoChange, now) == i.(updatedAt := now)
  {
  }

  /** Applying the same patch twice is applying it once, at the later time. */
  lemma PatchIdempotent(i: Issue, p: Patch, t1: Stamp, t2: Stamp)
    ensures ApplyPatch(ApplyPatch(i, p, t1), p, t2) == ApplyPatch(i, p, t2)
  {
  }

  /** `add_label` leaves the label present; it changes the issue, and refreshes
      `updated_at`, exactly when the label was missing; it keeps a duplicate-free
      label list duplicate-free. */
  lemma AddLabelEffect(i: Issue, tag: string, now: Stamp)
    ensures var r := AddLabel(i, tag, now);
      && tag in r.labels
      && (tag in i.labels ==> r == i)
      && (tag !in i.labels ==> r.labels == i.labels + [tag] && r.updatedAt == now)
      && r.(labels := i.labels, updatedAt := i.updatedAt) == i
      && (NoDup(i.labels) ==> NoDup(r.labels))
  {
    if tag !in i.labels && NoDup(i.labels) {
      AppendNoDup(i.labels, tag);
    }
  }

  /** Calling `add_label` twice with the same label equals calling it once. */
  lemma AddLabelIdempotent(i: Issue, tag: string, t1: Stamp, t2: Stamp)
    ensures AddLabel(AddLabel(i, tag, t1), tag, t2) == AddLabel(i, tag, t1)
  {
  }

  /** On a duplicate-free label list, `remove_label` leaves the label absent,
      keeps every other label, and changes the issue only when the label was there. */
  lemma RemoveLabelEffect(i: Issue, tag: string, now: Stamp)
    requires NoDup(i.labels)
    ensures var r := RemoveLabel(i, tag, now);
      && tag !in r.labels
      && NoDup(r.labels)
      && (forall l :: l != tag ==> (l in r.labels <==> l in i.labels))
      && (tag !in i.labels ==> r == i)
      && (tag in i.labels ==> r.updatedAt == now)
      && r.(labels := i.labels, updatedAt := i.updatedAt) == i
  {
    RemoveFirstKeepsNoDup(i.labels, tag);
    RemoveFirstMembers(i.labels, tag);
  }

  /** On a duplicate-free label list, calling `remove_label` twice equals calling it once. */
  lemma RemoveLabelIdempotent(i: Issue, tag: string, t1: Stamp, t2: Stamp)
    requires NoDup(i.labels)
    ensures RemoveLabel(RemoveLabel(i, tag, t1), tag, t2) == RemoveLabel(i, tag, t1)
  {
    RemoveFirstMembers(i.labels, tag);
  }

  /** `remove_label` undoes `add_label` of a label that was absent: the label
      list is back as it was (only `updated_at` moved on). */
  lemma RemoveUndoesAdd(i: Issue, tag: string, t1: Stamp, t2: Stamp)
    requires tag !in i.labels
    ensures RemoveLabel(AddLabel(i, tag, t1), tag, t2) == i.(updatedAt := t2)
  {
    var s := i.labels + [tag];
    assert IndexOf(s, tag) == |i.labels|;
    assert s[..|i.labels|] == i.labels;
  }
}
