/** The read-only queries over a board's issues: `list_issues` (three
    successive filters and an optional stable sort by priority) and
    `search_issues` (case-insensitive substring match on title or description). */
module Queries {
  import opened Records

  /** The arguments of `list_issues` after the board id. `None`, an empty
      status and an empty label list all switch their filter off. */
  datatype IssueQuery = IssueQuery(
    status: Option<string>,
    assignee: Option<Id>,
    labels: Option<seq<string>>,
    sortByPriority: bool)

  /** One test an issue can pass; kept first-order so that filters compare as values. */
  datatype Criterion =
    | HasStatus(status: string)
    | AssignedTo(user: Id)
    | HasLabels(labels: seq<string>)
    | HasPriority(priority: int)
    | Mentions(text: string)
    | Satisfies(query: IssueQuery)

  /** ASCII `str.lower()` on one character. */
  function LowerChar(c: char): char {
    if 'A' <= c <= 'Z' then (c as int + 32) as char else c
  }

  /** ASCII `str.lower()`. */
  function Lower(s: string): string {
    seq(|s|, i requires 0 <= i < |s| => LowerChar(s[i]))
  }

  /** `q` occurs in `s` starting at position `k`. */
  predicate OccursAt(s: string, q: string, k: int) {
    0 <= k && k + |q| <= |s| && s[k..k + |q|] == q
  }

  /** Python's `q in s` on strings, scanning the start positions from the left. */
  function Contains(s: string, q: string): bool
    decreases |s|
  {
    if |q| > |s| then false
    else if s[..|q|] == q then true
    else if s == [] then false
    else Contains(s[1..], q)
  }

  /** The conjunction of the active filters of `list_issues`. */
  predicate Matches(i: Issue, q: IssueQuery) {
    && (q.status.Some? && q.status.value != "" ==> i.status == q.status.value)
    && (q.assignee.Some? ==> i.assigneeId == q.assignee)
    && (q.labels.Some? ==> forall l :: l in q.labels.value ==> l in i.labels)
  }

  /** Every label of `tags` is on the issue. */
  predicate HasAllLabels(i: Issue, tags: seq<string>) {
    forall l :: l in tags ==> l in i.labels
  }

  /** The lowercased query occurs in the lowercased title or description. */
  predicate MentionsText(i: Issue, q: string) {
    Contains(Lower(i.title), Lower(q)) || Contains(Lower(i.description), Lower(q))
  }

  predicate Holds(c: Criterion, i: Issue) {
    match c
    case HasStatus(st) => i.status == st
    case AssignedTo(u) => i.assigneeId == Some(u)
    case HasLabels(ls) => HasAllLabels(i, ls)
    case HasPriority(p) => i.priority == p
    case Mentions(q) => MentionsText(i, q)
    case Satisfies(q) => Matches(i, q)
  }

  /** `[i for i in s if c(i)]`: the issues passing `c`, each once, in their order in `s`. */
  function Select(s: seq<Issue>, c: Criterion): (r: seq<Issue>)
    ensures forall x :: x in r <==> x in s && Holds(c, x)
    ensures |r| <= |s|
  {
    if s == [] then []
    else (if Holds(c, s[0]) then [s[0]] else []) + Select(s[1..], c)
  }

  predicate SortedByPriority(s: seq<Issue>) {
    forall i, j :: 0 <= i < j < |s| ==> s[i].priority <= s[j].priority
  }

  /** Insert `x` into a priority-sorted list in front of every issue of equal or
      larger priority, so that `x` stays ahead of the equal-priority issues
      that came after it in the input. */
  function InsertByPriority(x: Issue, s: seq<Issue>): seq<Issue> {
    if s == [] || x.priority <= s[0].priority then [x] + s
    else [s[0]] + InsertByPriority(x, s[1..])
  }

  /** `issues.sort(key=lambda i: i.priority)`: Python's sort is stable. */
  function SortByPriority(s: seq<Issue>): seq<Issue> {
    if s == [] then [] else InsertByPriority(s[0], SortByPriority(s[1..]))
  }

  /** `list_issues` on the board's issues in insertion order: the status,
      assignee and label passes in the source's order, then the optional sort. */
  function ListIssues(issues: seq<Issue>, q: IssueQuery): seq<Issue> {
    var byStatus :=
      if q.status.Some? && q.status.value != "" then Select(issues, HasStatus(q.status.value))
      else issues;
    var byAssignee :=
      if q.assignee.Some? then Select(byStatus, AssignedTo(q.assignee.value)) else byStatus;
    var byLabels :=
      if q.labels.Some? && q.labels.value != [] then Select(byAssignee, HasLabels(q.labels.value))
      else byAssignee;
    if q.sortByPriority then SortByPriority(byLabels) else byLabels
  }

  /** `search_issues` on the board's issues in insertion order. */
  function SearchIssues(issues: seq<Issue>, query: string): seq<Issue> {
    Select(issues, Mentions(query))
  }

  // Selection

  /** Selecting with a test that every issue passes keeps the whole list. */
  lemma {:induction false} SelectAll(s: seq<Issue>, c: Criterion)
    requires forall x :: x in s ==> Holds(c, x)
    ensures Select(s, c) == s
  {
    if s != [] {
      SelectAll(s[1..], c);
    }
  }

  /** Two tests that agree on every issue of the list select the same sublist. */
  lemma {:induction false} SelectSame(s: seq<Issue>, c1: Criterion, c2: Criterion)
    requires forall x :: x in s ==> (Holds(c1, x) <==> Holds(c2, x))
    ensures Select(s, c1) == Select(s, c2)
  {
    if s != [] {
      SelectSame(s[1..], c1, c2);
    }
  }

  /** Filtering by `c1` and then by `c2` is filtering once by their conjunction `c`. */
  lemma {:induction false} SelectSelect(s: seq<Issue>, c1: Criterion, c2: Criterion, c: Criterion)
    requires forall x :: Holds(c, x) <==> Holds(c1, x) && Holds(c2, x)
    ensures Select(Select(s, c1), c2) == Select(s, c)
  {
    if s != [] {
      SelectSelect(s[1..], c1, c2, c);
      var head := if Holds(c1, s[0]) then [s[0]] else [];
      SelectAppend(head, Select(s[1..], c1), c2);
      if Holds(c1, s[0]) {
        assert ([s[0]] + [])[1..] == [];
      }
    }
  }

  /** Selection distributes over concatenation. */
  lemma {:induction false} SelectAppend(a: seq<Issue>, b: seq<Issue>, c: Criterion)
    ensures Select(a + b, c) == Select(a, c) + Select(b, c)
  {
    if a == [] {
      assert a + b == b;
    } else {
      var ab := a + b;
      assert ab[0] == a[0] && ab[1..] == a[1..] + b;
      SelectAppend(a[1..], b, c);
    }
  }

  // list_issues

  /** The status pass selects the issues that pass the status filter alone. */
  lemma StatusPass(issues: seq<Issue>, q: IssueQuery)
    ensures (if q.status.Some? && q.status.value != "" then Select(issues, HasStatus(q.status.value))
             else issues) == Select(issues, Satisfies(q.(assignee := None, labels := None)))
  {
    var q1 := q.(assignee := None, labels := None);
    if q.status.Some? && q.status.value != "" {
      SelectSame(issues, HasStatus(q.status.value), Satisfies(q1));
    } else {
      SelectAll(issues, Satisfies(q1));
    }
  }

  /** After the status pass, the assignee pass selects the issues that pass both filters. */
  lemma AssigneePass(issues: seq<Issue>, q: IssueQuery)
    ensures var before := Select(issues, Satisfies(q.(assignee := None, labels := None)));
      (if q.assignee.Some? then Select(before, AssignedTo(q.assignee.value)) else before)
        == Select(issues, Satisfies(q.(labels := None)))
  {
    var q1 := q.(assignee := None, labels := None);
    var q2 := q.(labels := None);
    if q.assignee.Some? {
      SelectSelect(issues, Satisfies(q1), AssignedTo(q.assignee.value), Satisfies(q2));
    } else {
      SelectSame(issues, Satisfies(q1), Satisfies(q2));
    }
  }

  /** After the first two passes, the label pass selects the issues that pass all three. */
  lemma LabelsPass(issues: seq<Issue>, q: IssueQuery)
    ensures var before := Select(issues, Satisfies(q.(labels := None)));
      (if q.labels.Some? && q.labels.value != [] then Select(before, HasLabels(q.labels.value))
       else before) == Select(issues, Satisfies(q))
  {
    var q2 := q.(labels := None);
    if q.labels.Some? && q.labels.value != [] {
      SelectSelect(issues, Satisfies(q2), HasLabels(q.labels.value), Satisfies(q));
    } else {
      SelectSame(issues, Satisfies(q2), Satisfies(q));
    }
  }

  /** The three successive passes of `list_issues` select exactly the issues
      that pass every active filter, in insertion order; the sort, when asked
      for, is applied to that selection. */
  lemma ListIssuesIsConjunctive(issues: seq<Issue>, q: IssueQuery)
    ensures ListIssues(issues, q) ==
      var selected := Select(issues, Satisfies(q));
      if q.sortByPriority then SortByPriority(selected) else selected
  {
    StatusPass(issues, q);
    AssigneePass(issues, q);
    LabelsPass(issues, q);
  }

  // Sorting

  /** Insertion adds exactly one copy of `x`. */
  lemma {:induction false} InsertByPriorityCounts(x: Issue, s: seq<Issue>)
    ensures multiset(InsertByPriority(x, s)) == multiset{x} + multiset(s)
  {
    if s != [] && x.priority > s[0].priority {
      InsertByPriorityCounts(x, s[1..]);
      assert s == [s[0]] + s[1..];
    }
  }

  /** Insertion keeps a sorted list sorted; the head is `x` or the old head. */
  lemma {:induction false} InsertByPrioritySorted(x: Issue, s: seq<Issue>)
    requires SortedByPriority(s)
    ensures SortedByPriority(InsertByPriority(x, s))
    ensures InsertByPriority(x, s)[0] == if s == [] || x.priority <= s[0].priority then x else s[0]
  {
    if s != [] && x.priority > s[0].priority {
      var rest := InsertByPriority(x, s[1..]);
      InsertByPrioritySorted(x, s[1..]);
      assert s[0].priority <= rest[0].priority by {
        if |s| > 1 { assert s[1..][0] == s[1]; }
      }
      var r := [s[0]] + rest;
      assert r == InsertByPriority(x, s);
      forall i, j | 0 <= i < j < |r| ensures r[i].priority <= r[j].priority {
        assert r[j] == rest[j - 1];
        if i > 0 {
          assert r[i] == rest[i - 1];
        } else if j > 1 {
          assert rest[0].priority <= rest[j - 1].priority;
        }
      }
    }
  }

  /** Selecting from a one-element list. */
  lemma SelectSingle(y: Issue, c: Criterion)
    ensures Select([y], c) == if Holds(c, y) then [y] else []
  {
    assert [y][1..] == [];
  }

  /** Insertion puts `x` ahead of every issue of its own priority: per
      priority, `x` comes first and the rest keep their order. (Insertion only
      passes over issues of lower priority than `x`.) */
  lemma {:induction false} InsertByPriorityStable(x: Issue, s: seq<Issue>, p: int)
    ensures Select(InsertByPriority(x, s), HasPriority(p)) ==
            Select([x], HasPriority(p)) + Select(s, HasPriority(p))
  {
    if s == [] || x.priority <= s[0].priority {
      assert InsertByPriority(x, s) == [x] + s;
      SelectAppend([x], s, HasPriority(p));
    } else {
      InsertByPriorityStable(x, s[1..], p);
      PassOver(s[0], x, InsertByPriority(x, s[1..]), s[1..], p);
      assert InsertByPriority(x, s) == [s[0]] + InsertByPriority(x, s[1..]);
      assert [s[0]] + s[1..] == s;
    }
  }

  /** One step of insertion: passing over an issue `y` of lower priority than
      `x` keeps the per-priority order. */
  lemma PassOver(y: Issue, x: Issue, rest: seq<Issue>, tail: seq<Issue>, p: int)
    requires y.priority < x.priority
    requires Select(rest, HasPriority(p)) == Select([x], HasPriority(p)) + Select(tail, HasPriority(p))
    ensures Select([y] + rest, HasPriority(p)) == Select([x], HasPriority(p)) + Select([y] + tail, HasPriority(p))
  {
    var c := HasPriority(p);
    if x.priority == p {
      SelectSingle(y, c);
    } else {
      SelectSingle(x, c);
    }
    SwapPastEmpty(Select([y], c), Select([x], c), Select(tail, c));
    SelectAppend([y], rest, c);
    SelectAppend([y], tail, c);
  }

  /** Two sequences one of which is empty can be swapped in front of a third. */
  lemma SwapPastEmpty<T>(a: seq<T>, b: seq<T>, t: seq<T>)
    requires a == [] || b == []
    ensures a + (b + t) == b + (a + t)
  {
  }

  /** The priority sort returns a permutation of its input in ascending
      priority, and it is stable: for every priority, the issues of that
      priority come out in the order they went in. */
  lemma SortByPriorityIsStableSort(s: seq<Issue>)
    ensures SortedByPriority(SortByPriority(s))
    ensures multiset(SortByPriority(s)) == multiset(s)
    ensures forall p :: Select(SortByPriority(s), HasPriority(p)) == Select(s, HasPriority(p))
  {
    SortIsSorted(s);
    SortCounts(s);
    forall p ensures Select(SortByPriority(s), HasPriority(p)) == Select(s, HasPriority(p)) {
      SortIsStable(s, p);
    }
  }

  lemma {:induction false} SortIsSorted(s: seq<Issue>)
    ensures SortedByPriority(SortByPriority(s))
  {
    if s != [] {
      SortIsSorted(s[1..]);
      InsertByPrioritySorted(s[0], SortByPriority(s[1..]));
    }
  }

  lemma {:induction false} SortCounts(s: seq<Issue>)
    ensures multiset(SortByPriority(s)) == multiset(s)
  {
    if s != [] {
      SortCounts(s[1..]);
      InsertByPriorityCounts(s[0], SortByPriority(s[1..]));
      assert s == [s[0]] + s[1..];
    }
  }

  lemma {:induction false} SortIsStable(s: seq<Issue>, p: int)
    ensures Select(SortByPriority(s), HasPriority(p)) == Select(s, HasPriority(p))
  {
    if s != [] {
      SortIsStable(s[1..], p);
      InsertByPriorityStable(s[0], SortByPriority(s[1..]), p);
      SelectAppend([s[0]], s[1..], HasPriority(p));
      assert s == [s[0]] + s[1..];
    }
  }

  /** The selection `list_issues` sorts holds exactly the issues that pass
      every active filter, and sorting it keeps exactly those issues. */
  lemma SelectionSpec(issues: seq<Issue>, q: IssueQuery)
    ensures forall x :: x in Select(issues, Satisfies(q)) <==> x in issues && Matches(x, q)
    ensures forall x :: x in SortByPriority(Select(issues, Satisfies(q))) <==> x in issues && Matches(x, q)
  {
    SortKeepsMembers(Select(issues, Satisfies(q)));
  }

  /** Sorting keeps exactly the issues it was given. */
  lemma SortKeepsMembers(s: seq<Issue>)
    ensures forall x :: x in SortByPriority(s) <==> x in s
  {
    SortByPriorityIsStableSort(s);
    forall x ensures x in SortByPriority(s) <==> x in s {
      assert x in SortByPriority(s) <==> x in multiset(SortByPriority(s));
    }
  }

  /** `list_issues` returns exactly the board's issues that pass every active
      filter. Without sorting they come in insertion order; with sorting they
      are in ascending priority, and issues of equal priority keep their
      insertion order. */
  lemma ListIssuesSpec(issues: seq<Issue>, q: IssueQuery)
    ensures var r := ListIssues(issues, q);
      && (forall x :: x in r <==> x in issues && Matches(x, q))
      && (!q.sortByPriority ==> r == Select(issues, Satisfies(q)))
      && (q.sortByPriority ==>
            && SortedByPriority(r)
            && multiset(r) == multiset(Select(issues, Satisfies(q)))
            && forall p :: Select(r, HasPriority(p)) == Select(Select(issues, Satisfies(q)), HasPriority(p)))
  {
    ListIssuesIsConjunctive(issues, q);
    SelectionSpec(issues, q);
    SortByPriorityIsStableSort(Select(issues, Satisfies(q)));
  }

  /** An empty status and an empty label list filter nothing, exactly like
      leaving those arguments out. */
  lemma FalsyFiltersAreOff(issues: seq<Issue>, q: IssueQuery)
    requires q.status == Some("") || q.labels == Some([])
    ensures ListIssues(issues, q) ==
      ListIssues(issues, q.(status := if q.status == Some("") then None else q.status,
                            labels := if q.labels == Some([]) then None else q.labels))
  {
  }

  /** Issues of priorities 300, 100, 100, 200, in creation order, come back as 100, 100, 200, 300 with the two 100s in creation order. */
  lemma StableSortExample(a: Issue, b: Issue, c: Issue, d: Issue)
    requires a.priority == 300 && b.priority == 100 && c.priority == 100 && d.priority == 200
    ensures SortByPriority([a, b, c, d]) == [b, c, d, a]
  {
    assert [a, b, c, d][1..] == [b, c, d];
    assert [b, c, d][1..] == [c, d];
    assert [c, d][1..] == [d];
    assert [d][1..] == [];
    assert SortByPriority([d]) == [d];
    assert SortByPriority([c, d]) == [c, d];
    assert SortByPriority([b, c, d]) == [b, c, d];
    assert InsertByPriority(a, []) == [a];
    assert InsertByPriority(a, [d]) == [d, a];
    assert [c, d][1..] == [d];
    assert InsertByPriority(a, [c, d]) == [c, d, a];
    assert InsertByPriority(a, [b, c, d]) == [b, c, d, a];
  }

  // search_issues

  /** `Contains` is substring containment: `q` occurs in `s` at some position. */
  lemma {:induction false} ContainsIsSubstring(s: string, q: string)
    ensures Contains(s, q) <==> exists k :: OccursAt(s, q, k)
    decreases |s|
  {
    if |q| > |s| {
    } else if s[..|q|] == q {
      assert OccursAt(s, q, 0);
    } else if s == [] {
    } else {
      ContainsIsSubstring(s[1..], q);
      if exists k :: OccursAt(s, q, k) {
        var k :| OccursAt(s, q, k);
        assert k != 0;
        assert s[1..][k - 1..k - 1 + |q|] == s[k..k + |q|];
        assert OccursAt(s[1..], q, k - 1);
      }
      if exists k :: OccursAt(s[1..], q, k) {
        var k :| OccursAt(s[1..], q, k);
        assert s[k + 1..k + 1 + |q|] == s[1..][k..k + |q|];
        assert OccursAt(s, q, k + 1);
      }
    }
  }

  lemma LowerIdempotent(s: string)
    ensures Lower(Lower(s)) == Lower(s)
  {
  }

  /** `search_issues` returns exactly the issues whose lowercased title or
      description contains the lowercased query, in insertion order, and the
      case of the query does not matter. */
  lemma SearchIssuesSpec(issues: seq<Issue>, query: string)
    ensures var r := SearchIssues(issues, query);
      && (forall x :: x in r <==>
            (x in issues &&
             ((exists k :: OccursAt(Lower(x.title), Lower(query), k)) ||
              (exists k :: OccursAt(Lower(x.description), Lower(query), k)))))
      && r == SearchIssues(issues, Lower(query))
  {
    forall x | x in issues
      ensures Holds(Mentions(query), x) <==>
        ((exists k :: OccursAt(Lower(x.title), Lower(query), k)) ||
         (exists k :: OccursAt(Lower(x.description), Lower(query), k)))
    {
      ContainsIsSubstring(Lower(x.title), Lower(query));
      ContainsIsSubstring(Lower(x.description), Lower(query));
    }
    LowerIdempotent(query);
    SelectSame(issues, Mentions(query), Mentions(Lower(query)));
  }

  /** The empty query is contained in every text, so it returns every issue. */
  lemma EmptySearchReturnsAll(issues: seq<Issue>)
    ensures SearchIssues(issues, "") == issues
  {
    forall x | x in issues ensures Holds(Mentions(""), x) {
      ContainsIsSubstring(Lower(x.title), "");
      assert OccursAt(Lower(x.title), "", 0);
    }
    SelectAll(issues, Mentions(""));
  }

  /** For instance, "auth" finds an issue titled "Fix auth bug" by its title. */
  lemma SearchFindsTitle(i: Issue)
    requires i.title == "Fix auth bug"
    ensures Holds(Mentions("auth"), i)
  {
    var t := Lower(i.title);
    assert Lower("auth") == "auth";
    assert t[4] == 'a' && t[5] == 'u' && t[6] == 't' && t[7] == 'h';
    assert t[4..8] == "auth";
    assert OccursAt(t, "auth", 4);
    ContainsIsSubstring(t, "auth");
  }

  /** For instance, "AUTH" finds an issue whose description is "refactor the
      auth module", whatever the case of the query. */
  lemma SearchFindsDescription(i: Issue)
    requires i.description == "refactor the auth module"
    ensures Holds(Mentions("AUTH"), i)
  {
    var d := Lower(i.description);
    assert Lower("AUTH") == "auth";
    assert d[13] == 'a' && d[14] == 'u' && d[15] == 't' && d[16] == 'h';
    assert d[13..17] == "auth";
    assert OccursAt(d, "auth", 13);
    ContainsIsSubstring(d, "auth");
  }

  /** For instance, "auth" does not find an issue titled "Billing" with an
      empty description. */
  lemma SearchSkipsUnrelated(i: Issue)
    requires i.title == "Billing" && i.description == ""
    ensures !Holds(Mentions("auth"), i)
  {
    var t := Lower(i.title);
    assert Lower("auth") == "auth";
    assert forall k :: 0 <= k < |t| ==> t[k] != 'a';
    forall k | 0 <= k && k + 4 <= |t| ensures !OccursAt(t, "auth", k) {
      assert t[k..k + 4][0] == t[k];
    }
    ContainsIsSubstring(t, "auth");
  }
}
