# minimi board manager in Dafny

This project models `minimi.py`, an in-memory issue tracker, and proves properties of the model. A `BoardManager` owns boards and users. A board holds projects, issues and sprints. Issues carry labels, comments, a status, an assignee and a priority. Sprints list the ids of the board's issues and can be started and closed. A board can be exported to a payload and imported back. Every board, user, issue, comment and sprint takes its id from one counter that starts at 1.

The modules follow the source's structure:

- `Lists`: duplicate-free lists and `list.remove`, which removes the first occurrence.
- `Dicts`: Python dictionaries that keep insertion order. A map is paired with its keys in the order they were first inserted, and that order is what `.values()` reports.
- `Records`: the five dataclasses as datatypes, the defaults they use, and the error and result values.
- `IssueEdits`: the changes made to one issue: the keyword patch of `update_issue`, labels and comments.
- `Sprints`: sprint membership, start and close, the cascade of `delete_issue`, and the board rule "every sprint list is duplicate-free and names only issues on the board".
- `Queries`: `list_issues` (three filters, then an optional stable sort by priority) and `search_issues`.
- `Transfer`: export and import at the level of the parsed payload, with the round trip.
- `Manager`: the `BoardManager` class. Its fields are `boards`, `users`, the id counter `nextId` and a `clock`. Each source method is a method or function of the class. Each one states the error it reports for a missing board, issue or sprint, and the whole new state. Each method that changes a board states that the board rule is kept when it held before. The import is the exception: it does not check the rule (see `Transfer.ImportSkipsSprintCheck`).

Failures are values. A `KeyError` on a board, issue or sprint id becomes `NotFound`, and on that path the state is unchanged. A required field missing from an imported payload becomes `MissingField`. Clock readings are natural numbers: each reading is one more than the previous one. The model reads the clock exactly where the source calls `utcnow()` on that path, except in `import_board` (see Left out).

The model follows the code in these places:

- The import always uses up one id, because the fallback id is evaluated eagerly, and it never moves the counter past the ids it brings in. `Manager.ImportedIdIsReissued` shows that a later `create_board` can then draw an imported board's id and replace that board.
- The import does not check that sprint lists name issues on the board.
- `create_issue` keeps duplicate labels as given.
- `list_issues` ignores an empty status and an empty label list.

## Model

| member | source | states |
|---|---|---|
| Manager.BoardManager.constructor | minimi.py:74-76 | a new manager has no boards and no users, and its counter is at 1 |
| Manager.BoardManager.FreshId | minimi.py:8-12 | returns the counter's value, which is larger than every id handed out before and so never repeats; the counter moves on by one |
| Manager.BoardManager.Now | minimi.py:125 | a clock reading is later than every earlier one |
| Manager.BoardManager.CreateBoard | minimi.py:79-82 | stores a new empty board under a fresh id, larger than every earlier id; nothing else changes |
| Manager.BoardManager.AddProject | minimi.py:84-87 | fails on an unknown board; otherwise the name is listed afterwards, and a name already listed leaves the state unchanged (so calling twice equals calling once); the board rule is kept |
| Records.AddProjectEffect | minimi.py:84-87 | appends only an absent name, at the end; a second call changes nothing; a duplicate-free project list stays duplicate-free |
| Manager.BoardManager.CreateUser | minimi.py:90-93 | stores a new user under a fresh id, larger than every earlier id |
| Records.NewBoard | minimi.py:80 | a board built by `create_board`: the given id and name, no projects, issues or sprints |
| Records.AddProject | minimi.py:86-87 | appends the project name only when it is not listed (properties in `Records.AddProjectEffect`) |
| Records.NewIssue | minimi.py:106-113 | an issue built by `create_issue`: the given fields, status "todo", no comments, the two stamps |
| Manager.BoardManager.GetIssue | minimi.py:117-118 | succeeds exactly when the board and the issue key both exist (board checked first) and returns the stored issue, whose id is its key |
| Manager.BoardManager.CreateIssue | minimi.py:96-115 | fails on an unknown board without drawing an id; otherwise stores a "todo" issue with no comments under a fresh id, stamped by two readings, and keeps the board rule |
| Manager.BoardManager.UpdateIssue | minimi.py:120-126 | fails when the lookup fails, changing nothing; otherwise applies the keyword arguments in order and stamps `updated_at` with one reading; the board rule is kept |
| IssueEdits.SetField | minimi.py:122-124 | one `setattr` of a patchable field |
| IssueEdits.PatchOf | minimi.py:122-124 | the patch a call's keyword arguments amount to (properties in `IssueEdits.SupplyStep` and `Manager.BoardManager.UpdateIssue`) |
| IssueEdits.ApplyPatch | minimi.py:122-125 | sets every supplied field and stamps `updated_at` (properties in `IssueEdits.PatchChangesOnlySupplied`, `EmptyPatchOnlyStamps`, `PatchIdempotent`) |
| IssueEdits.SupplyStep | minimi.py:122-124 | one more `setattr` after a patch equals the patch with that field supplied |
| IssueEdits.PatchChangesOnlySupplied | minimi.py:120-126 | a patch overwrites exactly the fields it supplies; id, comments and `created_at` never change; `updated_at` is always refreshed |
| IssueEdits.EmptyPatchOnlyStamps | minimi.py:120-126 | with no fields, only `updated_at` changes |
| IssueEdits.PatchIdempotent | minimi.py:120-126 | applying the same patch twice equals applying it once at the later time |
| IssueEdits.WrappersArePatches | minimi.py:156-189 | assign, move and prioritize each pass one keyword argument, and it is their patch |
| Manager.BoardManager.DeleteIssue | minimi.py:128-134 | fails on an unknown board; otherwise the issue key is gone; when sprint lists are duplicate-free, no sprint lists the id any more; the board rule is kept; on a board that obeys the rule, an unknown issue changes nothing |
| Sprints.DeleteIssue | minimi.py:128-134 | pops the issue, then removes its id from every sprint list (properties in `Sprints.DeleteIssueEffect`) |
| Sprints.RemoveEverywhere | minimi.py:132-134 | every sprint with the id removed from its list, in the same sprint order |
| Sprints.RemoveIssueFromSprint | minimi.py:204-210 | `remove_issue_from_sprint` on a board holding the sprint: the first occurrence of the issue leaves the sprint's list (properties in `Sprints.RemoveIssueFromSprintEffect`) |
| Sprints.RemoveMember | minimi.py:133-134 | removes the first occurrence of the id when listed |
| Sprints.RemoveFromEverySprint | minimi.py:132-134 | the loop over the sprints removes the id from each list that holds it and leaves the other sprints and the sprint order alone |
| Sprints.EveryKeyVisited | minimi.py:132-134 | once every sprint key has been visited, each sprint holds its former list with the id removed, under the same keys in the same order |
| Sprints.DeleteIssueEffect | minimi.py:128-134 | the delete removes the issue from the board; on duplicate-free lists no sprint lists it; the board rule and the keying by id are kept; on a board that obeys the rule an unknown issue changes nothing |
| Sprints.DeleteIssueRemovesEverywhere | minimi.py:128-134 | after the delete, the issue is off the board; on duplicate-free lists, every sprint lists exactly its former entries other than the id |
| Sprints.DeleteIssueKeepsConsistent | minimi.py:128-134 | the delete keeps the board rule |
| Sprints.DeleteUnknownIssueIsNoOp | minimi.py:128-134 | on a board that obeys the rule, deleting an absent issue returns the same board |
| Dicts.Pop | minimi.py:130 | `pop(k, None)`: removes a present key and keeps the order of the others (properties in `Dicts.PopValues`) |
| Dicts.Put | minimi.py:114 | `d[k] = v`: a present key keeps its position, a new key goes last (properties in `Dicts.PutExisting`, `Dicts.PutNew`) |
| Dicts.Values | minimi.py:144 | `.values()` in key insertion order |
| Dicts.MapValues | minimi.py:242-243 | the dictionary comprehension over `.items()`: the same keys in the same order |
| Dicts.PopValues | minimi.py:130 | popping a present key drops its value and keeps the order of the others; popping an absent key changes nothing |
| Dicts.PutExisting | minimi.py:114 | assigning to a present key replaces its value in place, in the same position |
| Dicts.PutNew | minimi.py:114 | assigning to a new key appends its value at the end of `.values()` |
| Manager.BoardManager.ListIssues | minimi.py:136-153 | fails on an unknown board; otherwise returns exactly the issues that pass every active filter, in insertion order, or sorted by ascending priority with equal priorities in insertion order |
| Queries.ListIssues | minimi.py:144-153 | the three filter passes in the source's order, then the optional sort (properties in `Queries.ListIssuesSpec`) |
| Queries.Matches | minimi.py:145-150 | the conjunction of the active filters, the independent definition `ListIssuesSpec` compares against |
| Queries.InsertByPriority | minimi.py:152 | inserts an issue ahead of every issue of equal or larger priority (properties in `InsertByPrioritySorted`, `InsertByPriorityStable`) |
| Queries.SortByPriority | minimi.py:152 | `sort(key=priority)` as an insertion sort (properties in `Queries.SortByPriorityIsStableSort`) |
| Queries.Select | minimi.py:146-150 | a comprehension filter keeps exactly the passing elements and never grows the list |
| Queries.ListIssuesIsConjunctive | minimi.py:144-150 | the three successive filters are one filter on the conjunction of the active tests, in insertion order |
| Queries.SelectionSpec | minimi.py:144-152 | the selection holds exactly the board's issues that pass every active filter, and sorting it keeps exactly those issues |
| Queries.InsertByPriorityStable | minimi.py:151-152 | inserting an issue into the sorted list puts it ahead of the issues of its own priority and keeps their order |
| Queries.InsertByPrioritySorted | minimi.py:151-152 | inserting into a list sorted by priority keeps it sorted |
| Queries.SortByPriorityIsStableSort | minimi.py:151-152 | the sort orders by ascending priority, is a permutation, and keeps the relative order of every group of equal priority |
| Queries.ListIssuesSpec | minimi.py:136-153 | membership in the result holds exactly when the issue is on the board and passes every active filter; the unsorted result is the order-preserving filter; the sorted result is a stable sort of it |
| Queries.FalsyFiltersAreOff | minimi.py:145-150 | an empty status or an empty label list filters like a missing argument |
| Queries.StableSortExample | minimi.py:151-152 | issues of priorities 300, 100, 100, 200, created in that order, come back as 100, 100, 200, 300, with the two 100s in creation order |
| Manager.BoardManager.AssignIssue | minimi.py:156-159 | is `UpdateIssue` with the assignee alone; the board rule is kept |
| IssueEdits.AddLabel | minimi.py:163-165 | appends an absent label and stamps; a present label changes nothing (properties in `IssueEdits.AddLabelEffect`) |
| IssueEdits.RemoveLabel | minimi.py:170-172 | removes the first occurrence of a present label and stamps; an absent label changes nothing (properties in `IssueEdits.RemoveLabelEffect`) |
| Lists.RemoveFirstMultiset | minimi.py:171 | `list.remove` takes exactly one copy of the value out of the list, duplicates included, and keeps every other element |
| IssueEdits.AddComment | minimi.py:180-181 | appends the comment and stamps `updated_at` |
| Manager.BoardManager.AddLabel | minimi.py:161-166 | fails when the lookup fails; a present label changes nothing, not even the clock; otherwise the label is appended and `updated_at` takes one reading |
| IssueEdits.AddLabelEffect | minimi.py:161-166 | the label is present afterwards; the issue changes exactly when it was absent, and only the labels and `updated_at` change; a duplicate-free label list stays duplicate-free |
| IssueEdits.AddLabelIdempotent | minimi.py:161-166 | adding the same label twice equals adding it once |
| Manager.BoardManager.RemoveLabel | minimi.py:168-173 | fails when the lookup fails; an absent label changes nothing, not even the clock; otherwise its first occurrence is removed and `updated_at` takes one reading |
| Lists.RemoveFirst | minimi.py:171 | `list.remove` on a present element removes its first occurrence and keeps the rest in order; an absent element leaves the list unchanged |
| IssueEdits.RemoveLabelEffect | minimi.py:168-173 | on duplicate-free labels, the label is absent afterwards and every other label is kept; the issue changes only when the label was present |
| IssueEdits.RemoveLabelIdempotent | minimi.py:168-173 | on duplicate-free labels, removing twice equals removing once |
| IssueEdits.RemoveUndoesAdd | minimi.py:161-173 | removing a label just added (one that was absent) restores the labels |
| Manager.BoardManager.AddComment | minimi.py:175-182 | fails when the lookup fails, before drawing an id; otherwise a comment under a fresh id, stamped by one reading, goes at the end of the comments, and `updated_at` takes the next reading |
| Manager.BoardManager.MoveIssue | minimi.py:185-186 | is `UpdateIssue` with the status alone; the board rule is kept |
| Manager.BoardManager.PrioritizeIssue | minimi.py:188-189 | is `UpdateIssue` with the priority alone; the board rule is kept |
| Manager.BoardManager.CreateSprint | minimi.py:192-196 | fails on an unknown board without drawing an id; otherwise stores an empty, inactive sprint under a fresh id and keeps the board rule |
| Records.NewSprint | minimi.py:194 | a sprint built by `create_sprint`: the given id and name, no stamps, no issues, inactive |
| Sprints.NewSprintKeepsConsistent | minimi.py:194-195 | storing a new empty sprint keeps the board rule |
| Records.PutIssue | minimi.py:114 | `board.issues[issue.id] = issue` (properties in `Records.PutIssueKeyed`, `Sprints.PutIssueKeepsConsistent`) |
| Records.PutSprint | minimi.py:195 | `board.sprints[s.id] = s` (properties in `Records.PutSprintKeyed`, `Sprints.NewSprintKeepsConsistent`, `Sprints.SameListKeepsConsistent`) |
| Records.PutIssueKeyed | minimi.py:114 | storing an issue under its own id keeps every issue and sprint of the board under its own id |
| Records.PutSprintKeyed | minimi.py:195 | storing a sprint under its own id keeps every issue and sprint of the board under its own id |
| Sprints.PutIssueKeepsConsistent | minimi.py:114 | storing an issue keeps the board rule |
| Manager.BoardManager.GetSprint | minimi.py:199-200 | succeeds exactly when the board and the sprint key both exist (board checked first) and returns the stored sprint, whose id is its key |
| Manager.BoardManager.AddIssueToSprint | minimi.py:198-202 | fails on an unknown board or sprint; otherwise the issue is listed afterwards exactly when it is on the board or was already listed; the board rule is kept |
| Sprints.AddIssueToSprint | minimi.py:198-202 | `add_issue_to_sprint` on a board holding the sprint: the sprint's list gains the issue only when the issue is on the board and not yet listed (properties in `Sprints.AddIssueToSprintEffect`) |
| Sprints.AddMember | minimi.py:201-202 | appends the issue only when it is not listed and is on the board |
| Sprints.AddIssueToSprintEffect | minimi.py:198-202 | appends only an issue that is on the board and not yet listed; an issue not on the board leaves the board unchanged; the board rule is kept |
| Manager.BoardManager.RemoveIssueFromSprint | minimi.py:204-210 | fails on an unknown board or sprint; otherwise, on a duplicate-free list, the issue is unlisted afterwards; the board rule is kept |
| Sprints.RemoveIssueFromSprintEffect | minimi.py:204-210 | on a duplicate-free list, every entry other than the issue stays listed and the issue does not; the board rule is kept |
| Manager.BoardManager.StartSprint | minimi.py:212-217 | fails on an unknown board or sprint; otherwise the sprint is active, and the clock is read and stored only when there was no start stamp |
| Sprints.Start | minimi.py:215-216 | active, with the start stamp kept or, when unset, the new reading (properties in `Sprints.StartTwice`) |
| Sprints.StartTwice | minimi.py:212-217 | a second start changes nothing; a started sprint is active with a start stamp; an existing start stamp is kept |
| Manager.BoardManager.CloseSprint | minimi.py:219-224 | fails on an unknown board or sprint; otherwise the sprint is inactive and its end stamp is a new reading |
| Sprints.Close | minimi.py:222-223 | inactive, with the end stamp set to the new reading (properties in `Sprints.CloseTwice`) |
| Sprints.CloseTwice | minimi.py:219-224 | a second close moves the end stamp to the later reading; a closed sprint is inactive |
| Sprints.SameListKeepsConsistent | minimi.py:212-224 | replacing a sprint by one with the same list, as start and close do, keeps the board rule |
| Manager.BoardManager.SearchIssues | minimi.py:227-233 | fails on an unknown board; otherwise returns exactly the issues whose lowercased title or description contains the lowercased query, in insertion order |
| Queries.SearchIssues | minimi.py:229-233 | the comprehension of `search_issues` over the issues in insertion order (properties in `Queries.SearchIssuesSpec`) |
| Queries.Contains | minimi.py:232 | Python's `q in s` on strings (properties in `Queries.ContainsIsSubstring`) |
| Queries.Lower | minimi.py:228 | `str.lower()` on ASCII letters (properties in `Queries.LowerIdempotent`) |
| Queries.SearchIssuesSpec | minimi.py:227-233 | an issue is in the result exactly when the lowercased query occurs in its lowercased title or description; the query's case does not matter |
| Queries.ContainsIsSubstring | minimi.py:232 | the `in` test holds exactly when the query occurs at some position of the text |
| Queries.LowerIdempotent | minimi.py:228 | lowercasing twice equals lowercasing once |
| Queries.EmptySearchReturnsAll | minimi.py:227-233 | the empty query returns every issue |
| Queries.SearchFindsTitle | minimi.py:227-233 | "auth" finds an issue titled "Fix auth bug" |
| Queries.SearchFindsDescription | minimi.py:227-233 | "AUTH" finds an issue whose description is "refactor the auth module" |
| Queries.SearchSkipsUnrelated | minimi.py:227-233 | "auth" does not find an issue with title "Billing" and an empty description |
| Manager.BoardManager.ExportBoard | minimi.py:235-245 | fails on an unknown board; otherwise returns the board's payload |
| Transfer.EncodeBoard | minimi.py:238-244 | the payload `export_board` builds: the board's fields, and every issue and sprint as `asdict` writes it, in dictionary order (properties in `Transfer.BoardRoundTrip`) |
| Transfer.EncodeComment | minimi.py:242 | `asdict` of a comment, nested in its issue (properties in `Transfer.CommentsRoundTrip`) |
| Transfer.EncodeComments | minimi.py:242 | `asdict` of every comment of an issue, in order (properties in `Transfer.CommentsRoundTrip`) |
| Transfer.EncodeIssue | minimi.py:242 | `asdict` of an issue, comments included |
| Transfer.EncodeSprint | minimi.py:243 | `asdict` of a sprint |
| Manager.ExportedBoardImportsBack | minimi.py:235-282 | every board the manager exports imports back as the same board, whatever fallback id and clock reading the import uses |
| Transfer.BoardRoundTrip | minimi.py:235-282 | for a board whose issues and sprints are keyed by their ids, export then import gives the same id, name and projects, and the same issues and sprints in the same order, with every field equal, including comments, labels and stamps |
| Transfer.EntriesRoundTrip | minimi.py:251-280 | the import loop rebuilds an exported dictionary with the same keys in the same order, when each entry decodes back to itself |
| Transfer.CommentsRoundTrip | minimi.py:261 | exported comments rebuild to the same list |
| Transfer.DecodeComment | minimi.py:261 | `Comment(**c)`: id, author and body required, a missing stamp takes the current reading |
| Transfer.DecodeComments | minimi.py:261 | the comprehension over the comments; the first failing comment fails it (properties in `Transfer.CommentsRoundTrip`) |
| Transfer.IssueRoundTrip | minimi.py:253-268 | an exported issue rebuilds to itself under its own key |
| Transfer.DecodeIssue | minimi.py:253-268 | an imported issue takes its id from its key |
| Transfer.DecodeSprint | minimi.py:271-279 | an imported sprint takes its id from its key |
| Transfer.DecodeEntries | minimi.py:251-280 | on success every payload entry from the current one on is in the result, decoded, under its own key, and the entries already built stay; every entry of the result is a decoded payload entry or one already built |
| Transfer.DecodeEntriesOutcome | minimi.py:251-280 | the loop succeeds exactly when every remaining entry decodes; otherwise it fails with the error of the first entry, in payload order, that does not |
| Transfer.DecodeEntriesKeepsOrder | minimi.py:251-280 | the rebuilt dictionary lists the payload's keys in the payload's order |
| Transfer.DecodedByKey | minimi.py:251-280 | the whole loop, key by key: it succeeds exactly when every entry decodes, and then it holds exactly the payload's keys, in order, each with its decoded entry |
| Transfer.DecodeBoard | minimi.py:249-281 | a payload without a name fails; otherwise the import succeeds exactly when every issue and every sprint decodes; the board then has the payload's id (or the fallback when there is none), name and projects, and exactly the payload's issues and sprints, in the payload's order, each decoded under its own key |
| Transfer.ImportSkipsSprintCheck | minimi.py:277 | a payload whose sprint lists an issue the board lacks still imports, and the result breaks the board rule |
| Manager.BoardManager.ImportBoard | minimi.py:247-282 | always uses up exactly one id; a payload without a name fails and changes no board; otherwise the decoded board is stored under its id, replacing any board there |
| Manager.ImportedIdIsReissued | minimi.py:249 | after importing a board with id 2 into a fresh manager, `create_board` draws id 2 and replaces the imported board |

## Left out

- JSON text is not part of this model. `json.dumps`, `json.loads` and the turning of integer keys into strings and back with `int()` are left out. The model works on the parsed payload, with integer keys.
- Timestamps are abstract. A reading is a natural number one larger than the previous reading. ISO-8601 formatting and the wall clock are not modelled.
- Manager.BoardManager.ImportBoard: takes one clock reading for the whole import and gives it to every missing stamp. The source reads the clock twice for every imported issue, because the `.get` defaults are evaluated eagerly, and once more for every comment without a stamp.
- Queries.Lower: lowercases ASCII letters only, not the full Unicode `str.lower()`.
- Manager.BoardManager.UpdateIssue: accepts only the six patchable fields: title, description, status, assignee, labels and priority. The source's `setattr` can also overwrite `id`, `comments` and `created_at`. Keyword names the issue does not have are ignored by the source; the model cannot express them.
- Returned records are values, not shared objects. In the source, the caller's `labels` list is shared with the new issue. In the source, an object returned by `get_issue` or a create method aliases the stored one. Changing either afterwards is not modelled.
- The id counter is a field of each manager. In the source it is module-global, so separate managers share one sequence. With a single manager the two behave the same.
- Payload values of the wrong type, and `null` where a value is required, are not modelled. An absent key and a `null` value are both `None`. So where the source reads a key with `.get` and a default other than `None`, the model uses the default for a `null` value. For `id`, `projects`, `description`, `status`, `labels`, `priority`, `created_at` and `updated_at` of an issue or of a comment, and a sprint's `issues` and `active`, the source stores `None` instead: a payload `{"id": null, "name": "x"}` is stored under the key `None` by the source and under the fallback id by the model, and `"labels": null`, `"priority": null` and `"status": null` give `None` in the source but `[]`, `100` and `"todo"` in the model. For `"issues": null`, `"sprints": null` and an issue's `"comments": null`, the source raises instead (`AttributeError` from `.items()` on `None` at minimi.py:251 and minimi.py:270, `TypeError` from iterating `None` at minimi.py:261), while the model imports an empty dict or list. An extra key in a comment object raises `TypeError` in the source; it is not modelled.
- An empty-string `start_at` counts as unset in the source's `or` test. The model has no empty stamp, so this is not modelled.
- `MissingField` stands for the source's `KeyError`, raised for a missing required payload key, and for its `TypeError`, raised for a missing comment constructor argument.
- `esempi/matroid.py` (a random workflow simulator) and `esempi/engine.py` (a terminal keystroke loop) are not part of this model: they are I/O and randomness with no board state.
- Concurrency is not modelled: the source is single-threaded.
