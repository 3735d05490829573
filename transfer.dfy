/** `export_board` and `import_board` at the level of the parsed payload: the
    object `json.dumps` writes and `json.loads` reads back, with integer keys
    for the issue and sprint objects. A field the import reads with `.get` is an
    `Option` (`None` when the key is absent); a field it reads with `[...]` is an
    `Option` too, and its absence is an error. */
module Transfer {
  import opened Lists
  import opened Dicts
  import opened Records
  import Sprints

  datatype CommentData = CommentData(
    id: Option<Id>,
    authorId: Option<Id>,
    body: Option<string>,
    createdAt: Option<Stamp>)

  datatype IssueData = IssueData(
    id: Option<Id>,
    title: Option<string>,
    description: Option<string>,
    status: Option<string>,
    assigneeId: Option<Id>,
    labels: Option<seq<string>>,
    priority: Option<int>,
    comments: Option<seq<CommentData>>,
    createdAt: Option<Stamp>,
    updatedAt: Option<Stamp>)

  datatype SprintData = SprintData(
    id: Option<Id>,
    name: Option<string>,
    startAt: Option<Stamp>,
    endAt: Option<Stamp>,
    issues: Option<seq<Id>>,
    active: Option<bool>)

  datatype BoardData = BoardData(
    id: Option<Id>,
    name: Option<string>,
    projects: Option<seq<string>>,
    issues: Option<Dict<IssueData>>,
    sprints: Option<Dict<SprintData>>)

  // Export: `asdict` writes every field.

  function EncodeComment(c: Comment): CommentData {
    CommentData(Some(c.id), Some(c.authorId), Some(c.body), Some(c.createdAt))
  }

  function EncodeComments(cs: seq<Comment>): seq<CommentData> {
    if cs == [] then [] else [EncodeComment(cs[0])] + EncodeComments(cs[1..])
  }

  function EncodeIssue(i: Issue): IssueData {
    IssueData(Some(i.id), Some(i.title), Some(i.description), Some(i.status), i.assigneeId,
              Some(i.labels), Some(i.priority), Some(EncodeComments(i.comments)),
              Some(i.createdAt), Some(i.updatedAt))
  }

  function EncodeSprint(s: Sprint): SprintData {
    SprintData(Some(s.id), Some(s.name), s.startAt, s.endAt, Some(s.issues), Some(s.active))
  }

  /** `export_board` once the board is found: the board's fields, and its
      issues and sprints in their dictionary order. */
  function EncodeBoard(b: Board): BoardData {
    BoardData(Some(b.id), Some(b.name), Some(b.projects),
              Some(MapValues(b.issues, EncodeIssue)), Some(MapValues(b.sprints, EncodeSprint)))
  }

  // Import.

  /** `Comment(**c)`: id, author and body are required; a missing creation
      stamp takes the current reading. */
  function DecodeComment(c: CommentData, now: Stamp): Result<Comment> {
    if c.id.None? then Err(MissingField("id"))
    else if c.authorId.None? then Err(MissingField("author_id"))
    else if c.body.None? then Err(MissingField("body"))
    else Ok(Comment(c.id.value, c.authorId.value, c.body.value, c.createdAt.GetOr(now)))
  }

  /** The comment list comprehension: the first failing comment fails it. */
  function DecodeComments(cs: seq<CommentData>, now: Stamp): Result<seq<Comment>> {
    if cs == [] then Ok([])
    else
      match DecodeComment(cs[0], now)
      case Err(e) => Err(e)
      case Ok(c) =>
        match DecodeComments(cs[1..], now)
        case Err(e) => Err(e)
        case Ok(rest) => Ok([c] + rest)
  }

  /** One entry of the issues loop: the issue takes its id from the key (the
      payload's own `id` field is not read), the title is required, and every
      other field falls back to the dataclass default or the current reading. */
  function DecodeIssue(key: Id, d: IssueData, now: Stamp): (r: Result<Issue>)
    ensures r.Ok? ==> r.value.id == key
  {
    if d.title.None? then Err(MissingField("title"))
    else
      match DecodeComments(d.comments.GetOr([]), now)
      case Err(e) => Err(e)
      case Ok(comments) =>
        Ok(Issue(key, d.title.value, d.description.GetOr(DefaultDescription),
                 d.status.GetOr(DefaultStatus), d.assigneeId, d.labels.GetOr([]),
                 d.priority.GetOr(DefaultPriority), comments,
                 d.createdAt.GetOr(now), d.updatedAt.GetOr(now)))
  }

  function IssueDecoder(now: Stamp): (Id, IssueData) -> Result<Issue> {
    (key, d) => DecodeIssue(key, d, now)
  }

  /** One entry of the sprints loop: id from the key, name required; the member
      list is taken as it is, without checking it against the board's issues. */
  function DecodeSprint(key: Id, d: SprintData): (r: Result<Sprint>)
    ensures r.Ok? ==> r.value.id == key
  {
    if d.name.None? then Err(MissingField("name"))
    else Ok(Sprint(key, d.name.value, d.startAt, d.endAt, d.issues.GetOr([]), d.active.GetOr(false)))
  }

  /** The loop `for k, v in d.items(): target[int(k)] = decode(k, v)`, from the
      `i`-th entry on, into `acc`; the first failing entry fails it. On success
      every entry from the `i`-th on is in the result as decoded, under its own
      key, and every entry of `acc` stays; every entry of the result is a
      decoded payload entry, or was already in `acc`. */
  function DecodeEntries<V, W>(d: Dict<V>, decode: (Id, V) -> Result<W>, i: nat, acc: Dict<W>)
    : (r: Result<Dict<W>>)
    requires i <= |d.keys|
    ensures r.Ok? ==> forall j :: i <= j < |d.keys| ==>
      d.keys[j] in r.value.entries && decode(d.keys[j], d.entries[d.keys[j]]) == Ok(r.value.entries[d.keys[j]])
    ensures r.Ok? ==> forall k :: k in acc.entries ==> k in r.value.entries
    ensures r.Ok? ==> forall k :: k in r.value.entries ==>
      || (k in d.entries && decode(k, d.entries[k]) == Ok(r.value.entries[k]))
      || (k in acc.entries && r.value.entries[k] == acc.entries[k])
    decreases |d.keys| - i
  {
    if i == |d.keys| then Ok(acc)
    else
      var k := d.keys[i];
      match decode(k, d.entries[k])
      case Err(e) => Err(e)
      case Ok(w) => DecodeEntries(d, decode, i + 1, Put(acc, k, w))
  }

  /** The import loop succeeds exactly when every entry from the `i`-th on
      decodes; otherwise it fails with the error of the first entry that does not. */
  lemma {:induction false} DecodeEntriesOutcome<V, W>(d: Dict<V>, decode: (Id, V) -> Result<W>, i: nat, acc: Dict<W>)
    requires i <= |d.keys|
    ensures var r := DecodeEntries(d, decode, i, acc);
      && (r.Ok? <==> forall j :: i <= j < |d.keys| ==> decode(d.keys[j], d.entries[d.keys[j]]).Ok?)
      && (r.Err? ==> exists j :: && i <= j < |d.keys|
                                && decode(d.keys[j], d.entries[d.keys[j]]) == Err(r.error)
                                && forall j' :: i <= j' < j ==> decode(d.keys[j'], d.entries[d.keys[j']]).Ok?)
    decreases |d.keys| - i
  {
    if i < |d.keys| {
      var k := d.keys[i];
      match decode(k, d.entries[k])
      case Err(e) =>
      case Ok(w) =>
        DecodeEntriesOutcome(d, decode, i + 1, Put(acc, k, w));
    }
  }

  /** Started from the entries before the `i`-th, in order, the import loop
      lists the payload's keys in the payload's order. */
  lemma {:induction false} DecodeEntriesKeepsOrder<V, W>(d: Dict<V>, decode: (Id, V) -> Result<W>, i: nat, acc: Dict<W>)
    requires i <= |d.keys| && acc.keys == d.keys[..i]
    ensures var r := DecodeEntries(d, decode, i, acc);
      r.Ok? ==> r.value.keys == d.keys
    decreases |d.keys| - i
  {
    if i == |d.keys| {
      assert d.keys[..i] == d.keys;
    } else {
      var k := d.keys[i];
      match decode(k, d.entries[k])
      case Err(e) =>
      case Ok(w) =>
        assert k !in d.keys[..i];
        assert d.keys[..i] + [k] == d.keys[..i + 1];
        DecodeEntriesKeepsOrder(d, decode, i + 1, Put(acc, k, w));
    }
  }

  /** The whole import loop, stated key by key: it succeeds exactly when every
      entry decodes, and then lists the payload's keys in order, each holding
      its decoded entry. */
  lemma DecodedByKey<V, W>(d: Dict<V>, decode: (Id, V) -> Result<W>)
    ensures var r := DecodeEntries(d, decode, 0, Empty());
      && (r.Ok? <==> forall k :: k in d.entries ==> decode(k, d.entries[k]).Ok?)
      && (r.Ok? ==> r.value.keys == d.keys)
      && (r.Ok? ==> forall k :: k in d.entries ==> decode(k, d.entries[k]) == Ok(r.value.entries[k]))
  {
    var r := DecodeEntries(d, decode, 0, Empty());
    assert Empty<W>().keys == d.keys[..0];
    DecodeEntriesOutcome(d, decode, 0, Empty());
    DecodeEntriesKeepsOrder(d, decode, 0, Empty());
    if forall k :: k in d.entries ==> decode(k, d.entries[k]).Ok? {
      assert forall j :: 0 <= j < |d.keys| ==> d.keys[j] in d.entries;
    }
    if r.Ok? {
      forall k | k in d.entries ensures decode(k, d.entries[k]) == Ok(r.value.entries[k]) {
        assert d.keys[IndexOf(d.keys, k)] == k;
      }
    }
  }

  /** `import_board` once the fallback id has been drawn: a payload without a
      name fails; otherwise the import succeeds exactly when every issue and
      every sprint of the payload decodes. The board then keeps the payload's
      id, or takes the fallback when the payload has none; it has the payload's
      name and projects; and it holds exactly the payload's issues and sprints,
      each decoded under its own key, in the payload's order. */
  function DecodeBoard(data: BoardData, fallbackId: Id, now: Stamp): (r: Result<Board>)
    ensures data.name.None? ==> r == Err(MissingField("name"))
    ensures data.name.Some? ==>
      (r.Ok? <==> && (forall k :: k in data.issues.GetOr(Empty()).entries ==>
                        DecodeIssue(k, data.issues.GetOr(Empty()).entries[k], now).Ok?)
                  && (forall k :: k in data.sprints.GetOr(Empty()).entries ==>
                        DecodeSprint(k, data.sprints.GetOr(Empty()).entries[k]).Ok?))
    ensures r.Ok? ==>
      && data.name.Some?
      && r.value.id == data.id.GetOr(fallbackId)
      && r.value.name == data.name.value
      && r.value.projects == data.projects.GetOr([])
      && r.value.issues.keys == data.issues.GetOr(Empty()).keys
      && r.value.sprints.keys == data.sprints.GetOr(Empty()).keys
      && (forall k :: k in data.issues.GetOr(Empty()).entries ==>
            DecodeIssue(k, data.issues.GetOr(Empty()).entries[k], now) == Ok(r.value.issues.entries[k]))
      && (forall k :: k in data.sprints.GetOr(Empty()).entries ==>
            DecodeSprint(k, data.sprints.GetOr(Empty()).entries[k]) == Ok(r.value.sprints.entries[k]))
      && KeyedById(r.value)
  {
    var issueData := data.issues.GetOr(Empty());
    var sprintData := data.sprints.GetOr(Empty());
    DecodedByKey(issueData, IssueDecoder(now));
    DecodedByKey(sprintData, DecodeSprint);
    if data.name.None? then Err(MissingField("name"))
    else
      match DecodeEntries(issueData, IssueDecoder(now), 0, Empty())
      case Err(e) => Err(e)
      case Ok(issues) =>
        match DecodeEntries(sprintData, DecodeSprint, 0, Empty())
        case Err(e) => Err(e)
        case Ok(sprints) =>
          Ok(Board(data.id.GetOr(fallbackId), data.name.value, data.projects.GetOr([]), issues, sprints))
  }

  // Round trip.

  lemma {:induction false} CommentsRoundTrip(cs: seq<Comment>, now: Stamp)
    ensures DecodeComments(EncodeComments(cs), now) == Ok(cs)
  {
    if cs != [] {
      CommentsRoundTrip(cs[1..], now);
      assert [cs[0]] + cs[1..] == cs;
    }
  }

  lemma IssueRoundTrip(key: Id, i: Issue, now: Stamp)
    requires i.id == key
    ensures DecodeIssue(key, EncodeIssue(i), now) == Ok(i)
  {
    CommentsRoundTrip(i.comments, now);
  }

  /** The first `i` entries of `d`, as the import loop has rebuilt them. */
  function Prefix<V>(d: Dict<V>, i: nat): Dict<V>
    requires i <= |d.keys|
  {
    assert forall a, b :: 0 <= a < b < i ==> d.keys[..i][a] != d.keys[..i][b];
    RawDict(d.keys[..i], map k | k in d.keys[..i] :: d.entries[k])
  }

  /** Decoding what `MapValues(d, encode)` wrote, entry by entry from the `i`-th
      on, rebuilds `d` exactly, keys in the same order, when `decode` undoes
      `encode` on every entry. */
  lemma {:induction false} EntriesRoundTrip<V, W>(d: Dict<W>, encode: W -> V,
                                                  decode: (Id, V) -> Result<W>, i: nat)
    requires i <= |d.keys|
    requires forall k :: k in d.entries ==> decode(k, encode(d.entries[k])) == Ok(d.entries[k])
    ensures DecodeEntries(MapValues(d, encode), decode, i, Prefix(d, i)) == Ok(d)
    decreases |d.keys| - i
  {
    var m := MapValues(d, encode);
    if i == |d.keys| {
      assert d.keys[..i] == d.keys;
      forall k ensures k in Prefix(d, i).entries <==> k in d.entries {
        assert k in d.keys <==> k in d.entries;
      }
      assert Prefix(d, i).entries == d.entries;
    } else {
      var k := d.keys[i];
      assert k !in d.keys[..i];
      assert d.keys[..i] + [k] == d.keys[..i + 1];
      assert Put(Prefix(d, i), k, d.entries[k]) == Prefix(d, i + 1);
      EntriesRoundTrip(d, encode, decode, i + 1);
    }
  }

  /** Exporting a board and importing the payload gives back the same board:
      same id, name and projects, and the same issues and sprints in the same
      order with every field equal, comments, labels and stamps included. The
      fallback id and the current reading are not used. */
  lemma BoardRoundTrip(b: Board, fallbackId: Id, now: Stamp)
    requires KeyedById(b)
    ensures DecodeBoard(EncodeBoard(b), fallbackId, now) == Ok(b)
  {
    forall k | k in b.issues.entries
      ensures IssueDecoder(now)(k, EncodeIssue(b.issues.entries[k])) == Ok(b.issues.entries[k])
    {
      IssueRoundTrip(k, b.issues.entries[k], now);
    }
    EntriesRoundTrip(b.issues, EncodeIssue, IssueDecoder(now), 0);
    EntriesRoundTrip(b.sprints, EncodeSprint, DecodeSprint, 0);
    assert Prefix(b.issues, 0) == Empty();
    assert Prefix(b.sprints, 0) == Empty();
  }

  /** The import takes sprint lists as they come: a sprint may list an issue
      the board does not have, so an imported board can break the rule that
      the manager's own sprint operations keep. */
  lemma ImportSkipsSprintCheck(fallbackId: Id, now: Stamp)
    ensures
      var sprint := SprintData(None, Some("sprint"), None, None, Some([99]), None);
      var data := BoardData(None, Some("board"), None, None, Some(RawDict([7], map[7 := sprint])));
      var r := DecodeBoard(data, fallbackId, now);
      && r.Ok?
      && 7 in r.value.sprints.entries && 99 in r.value.sprints.entries[7].issues
      && 99 !in r.value.issues.entries
      && !Sprints.SprintsConsistent(r.value)
  {
    var sprint := SprintData(None, Some("sprint"), None, None, Some([99]), None);
    var d: Dict<SprintData> := RawDict([7], map[7 := sprint]);
    var decoded := Sprint(7, "sprint", None, None, [99], false);
    assert DecodeEntries(d, DecodeSprint, 1, Put(Empty(), 7, decoded)) == Ok(Put(Empty(), 7, decoded));
    assert DecodeEntries(d, DecodeSprint, 0, Empty()) == Ok(Put(Empty(), 7, decoded));
  }
}
