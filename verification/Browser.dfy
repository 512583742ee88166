/** The browser's task list: kept up to date by hand after each request, instead of listing again. */
module Browser {
  import opened Base
  import opened TaskTable
  import TasksService
  import Strconv
  import Sse

  const TOASTS: nat := 8

  // ---------- what the page does with its list ----------

  function Replaced(tasks: seq<Task>, id: int, updated: Task): seq<Task> {
    seq(|tasks|, i requires 0 <= i < |tasks| => if tasks[i].id == id then updated else tasks[i])
  }

  function Without(tasks: seq<Task>, id: int): seq<Task> {
    if tasks == [] then []
    else (if tasks[0].id == id then [] else [tasks[0]]) + Without(tasks[1..], id)
  }

  predicate IsSpace(c: char) {
    c == ' ' || '\t' <= c <= '\r' || c == '\U{A0}' || c == '\U{FEFF}'
    || c == '\U{1680}' || '\U{2000}' <= c <= '\U{200A}' || c == '\U{2028}' || c == '\U{2029}' || c == '\U{202F}'
    || c == '\U{205F}' || c == '\U{3000}'
  }

  /** Trimming leaves nothing. */
  predicate Blank(s: string) {
    forall i :: 0 <= i < |s| ==> IsSpace(s[i])
  }

  function Shown(tasks: seq<Task>, id: int): Option<Task> {
    if tasks == [] then None
    else if tasks[0].id == id then Some(tasks[0])
    else Shown(tasks[1..], id)
  }

  function ToggleRequest(t: Task): Request {
    Update(Strconv.FormatInt(t.id), Some(Patch(None, Some(!t.done))))
  }

  /** The table and the list one browser shows for one user. */
  datatype Session = Session(table: Table, tasks: seq<Task>)

  /** What happens in a session: the page's four requests, the answers always coming back (except
      that a listing may fail to arrive), and requests of other users in between. */
  datatype Act =
    | Load(delivered: bool, db: Db)
    | Add(name: string, now: int, db: Db)
    | Toggle(id: int, db: Db)
    | Remove(id: int, db: Db)
    | Other(call: Call)

  function AfterLoad(tasks: seq<Task>, resp: Response): seq<Task> {
    if resp.Listed? then resp.tasks else []
  }

  function AfterAdd(tasks: seq<Task>, resp: Response): seq<Task> {
    if resp.Created? then [resp.task] + tasks else tasks
  }

  function AfterToggle(tasks: seq<Task>, id: int, resp: Response): seq<Task> {
    if resp.Updated? then Replaced(tasks, id, resp.task) else tasks
  }

  function AfterRemove(tasks: seq<Task>, id: int, resp: Response): seq<Task> {
    if resp.Deleted? then Without(tasks, id) else tasks
  }

  function Step(uid: int, s: Session, a: Act): Session {
    match a
    case Load(delivered, db) =>
      if delivered then s.(tasks := AfterLoad(s.tasks, Exec(s.table, uid, 0, List, db).1)) else s
    case Add(name, now, db) =>
      if Blank(name) then s
      else
        var (t, resp) := Exec(s.table, uid, now, Create(Some(name)), db);
        Session(t, AfterAdd(s.tasks, resp))
    case Toggle(id, db) =>
      (match Shown(s.tasks, id)
       case None => s
       case Some(row) =>
         var (t, resp) := Exec(s.table, uid, 0, ToggleRequest(row), db);
         Session(t, AfterToggle(s.tasks, id, resp)))
    case Remove(id, db) =>
      if Shown(s.tasks, id).None? then s
      else
        var (t, resp) := Exec(s.table, uid, 0, Delete(Strconv.FormatInt(id)), db);
        Session(t, AfterRemove(s.tasks, id, resp))
    case Other(c) =>
      if c.uid == uid then s else s.(table := Exec(s.table, c.uid, c.now, c.req, c.db).0)
  }

  function Run(uid: int, s: Session, acts: seq<Act>): Session
    decreases acts
  {
    if acts == [] then s else Run(uid, Step(uid, s, acts[0]), acts[1..])
  }

  /** The code points that trim takes for white space. */
  const SPACES: set<int> :=
    {9, 10, 11, 12, 13, 32, 160, 5760, 8192, 8193, 8194, 8195, 8196, 8197, 8198, 8199, 8200, 8201, 8202,
     8232, 8233, 8239, 8287, 12288, 65279}

  lemma SpaceCodes(c: char)
    ensures IsSpace(c) <==> c as int in SPACES
  {
  }

  /** What the page shows after a fetch: the newest two hundred of its user's rows; nothing after an error
      answer; what it showed before when the fetch never came back. */
  lemma LoadIs(uid: int, s: Session, db: Db)
    ensures Step(uid, s, Load(true, Up)) == s.(tasks := First(FullList(s.table.rows, uid), 200))
    ensures db.Down? ==> Step(uid, s, Load(true, db)) == s.(tasks := [])
    ensures Step(uid, s, Load(false, db)) == s
  {
  }

  /** Adding: a name of nothing but white space sends nothing; any other is stored exactly as typed and
      shown in front; after an error answer the list stays. */
  lemma AddOnce(uid: int, s: Session, name: string, now: int, db: Db)
    ensures Blank(name) <==> forall i :: 0 <= i < |name| ==> name[i] as int in SPACES
    ensures Blank(name) ==> Step(uid, s, Add(name, now, db)) == s
    ensures !Blank(name) && s.table.nextId <= 9223372036854775807 && !db.Down? ==>
              var row := Task(s.table.nextId, uid, name, false, now);
              Step(uid, s, Add(name, now, db))
              == Session(Table(s.table.rows[s.table.nextId := row], s.table.nextId + 1), [row] + s.tasks)
    ensures db.Down? || s.table.nextId > 9223372036854775807 ==>
              var s' := Step(uid, s, Add(name, now, db));
              s'.tasks == s.tasks && s'.table.rows == s.table.rows
  {
    CreateIs(s.table, uid, now, Some(name), db);
    assert name == "" ==> Blank(name);
    forall c: char
      ensures IsSpace(c) <==> c as int in SPACES
    {
      SpaceCodes(c);
    }
  }

  lemma ShownDescends(uid: int, s: Session, hidden: seq<Task>)
    requires Agrees(uid, s, hidden)
    ensures forall i, j :: 0 <= i < j < |s.tasks| ==> s.tasks[i].id > s.tasks[j].id
  {
    FullListIsFull(s.table, uid);
    var full := FullList(s.table.rows, uid);
    assert forall i :: 0 <= i < |s.tasks| ==> s.tasks[i] == full[i];
  }

  lemma RemoveStep(uid: int, s: Session, hidden: seq<Task>, id: int)
    requires Agrees(uid, s, hidden) && Shown(s.tasks, id).Some?
    ensures Step(uid, s, Remove(id, Up))
         == Session(s.table.(rows := s.table.rows - {id}), Without(s.tasks, id))
  {
    ShownIsStored(uid, s, hidden, id);
  }

  /** Removing a shown row: gone from table and list, everything else as it was. */
  lemma RemoveOnce(uid: int, s: Session, hidden: seq<Task>, id: int)
    requires Agrees(uid, s, hidden)
    ensures Shown(s.tasks, id).None? ==> Step(uid, s, Remove(id, Up)) == s
    ensures Shown(s.tasks, id).Some? ==>
              var s' := Step(uid, s, Remove(id, Up));
              && s'.table == s.table.(rows := s.table.rows - {id})
              && (forall x :: x in s'.tasks <==> x in s.tasks && x.id != id)
              && forall i, j :: 0 <= i < j < |s'.tasks| ==> s'.tasks[i].id > s'.tasks[j].id
  {
    if Shown(s.tasks, id).Some? {
      RemoveStep(uid, s, hidden, id);
      ShownDescends(uid, s, hidden);
      WithoutIs(s.tasks, id);
    }
  }

  // ---------- how the full listing moves ----------

  lemma {:induction false} ShownIs(tasks: seq<Task>, id: int)
    ensures Shown(tasks, id).Some? <==> exists i :: 0 <= i < |tasks| && tasks[i].id == id
    ensures Shown(tasks, id).Some? ==> Shown(tasks, id).value in tasks && Shown(tasks, id).value.id == id
  {
    if tasks != [] {
      ShownIs(tasks[1..], id);
      assert forall i :: 1 <= i < |tasks| ==> tasks[i] == tasks[1..][i - 1];
      if tasks[0].id != id && exists i :: 0 <= i < |tasks| && tasks[i].id == id {
        var i :| 0 <= i < |tasks| && tasks[i].id == id;
        assert tasks[1..][i - 1].id == id;
      }
    }
  }

  lemma {:induction false} WithoutHas(tasks: seq<Task>, id: int)
    ensures forall x :: x in Without(tasks, id) <==> x in tasks && x.id != id
  {
    if tasks != [] {
      WithoutHas(tasks[1..], id);
      assert forall x :: x in tasks <==> x == tasks[0] || x in tasks[1..];
    }
  }

  lemma {:induction false} WithoutIs(tasks: seq<Task>, id: int)
    requires forall i, j :: 0 <= i < j < |tasks| ==> tasks[i].id > tasks[j].id
    ensures var w := Without(tasks, id);
            && (forall i, j :: 0 <= i < j < |w| ==> w[i].id > w[j].id)
            && (forall x :: x in w <==> x in tasks && x.id != id)
  {
    WithoutHas(tasks, id);
    if tasks != [] {
      WithoutIs(tasks[1..], id);
      var w := Without(tasks[1..], id);
      forall i | 0 <= i < |w|
        ensures tasks[0].id > w[i].id
      {
        assert w[i] in tasks[1..];
      }
    }
  }

  lemma {:induction false} WithoutAppend(a: seq<Task>, b: seq<Task>, id: int)
    ensures Without(a + b, id) == Without(a, id) + Without(b, id)
  {
    if a == [] {
      assert a + b == b;
    } else {
      assert (a + b)[1..] == a[1..] + b;
      WithoutAppend(a[1..], b, id);
    }
  }

  lemma {:induction false} WithoutAbsent(a: seq<Task>, id: int)
    requires forall i :: 0 <= i < |a| ==> a[i].id != id
    ensures Without(a, id) == a
  {
    if a != [] {
      WithoutAbsent(a[1..], id);
    }
  }

  lemma ListIs(t: Table, uid: int, l: seq<Task>)
    requires WellFormed(t) && IsFullList(l, t.rows, uid)
    ensures FullList(t.rows, uid) == l
  {
    FullListIsFull(t, uid);
    FullListUnique(FullList(t.rows, uid), l, t.rows, uid);
  }

  lemma CreateKeepsFull(l: seq<Task>, t: Table, uid: int, row: Task)
    requires WellFormed(t) && IsFullList(l, t.rows, uid)
    requires row.id == t.nextId && row.userId == uid
    ensures IsFullList([row] + l, t.rows[t.nextId := row], uid)
  {
  }

  lemma UpdateKeepsFull(l: seq<Task>, rows: map<int, Task>, uid: int, id: int, row: Task)
    requires IsFullList(l, rows, uid) && Owns(rows, uid, id) && row.id == id && row.userId == uid
    requires forall k :: k in rows ==> rows[k].id == k
    ensures IsFullList(Replaced(l, id, row), rows[id := row], uid)
  {
    var r := Replaced(l, id, row);
    var after := rows[id := row];
    assert forall i :: 0 <= i < |l| ==> r[i].id == l[i].id;
    forall k | Owns(after, uid, k)
      ensures after[k] in r
    {
      assert Owns(rows, uid, k);
      var i :| 0 <= i < |l| && l[i] == rows[k];
      assert r[i] == after[k];
    }
  }

  lemma DeleteKeepsFull(l: seq<Task>, rows: map<int, Task>, uid: int, id: int)
    requires IsFullList(l, rows, uid)
    requires forall k :: k in rows ==> rows[k].id == k
    ensures IsFullList(Without(l, id), rows - {id}, uid)
  {
    WithoutIs(l, id);
    var w := Without(l, id);
    var after := rows - {id};
    forall i | 0 <= i < |w|
      ensures Owns(after, uid, w[i].id) && after[w[i].id] == w[i]
    {
      assert w[i] in w;
    }
    forall k | Owns(after, uid, k)
      ensures after[k] in w
    {
      assert Owns(rows, uid, k);
    }
  }

  /** A create puts the new row in front. */
  lemma CreateMovesList(t: Table, uid: int, now: int, name: string)
    requires WellFormed(t) && t.nextId <= Strconv.MAX_INT64
    ensures var row := Task(t.nextId, uid, name, false, now);
            FullList(t.rows[t.nextId := row], uid) == [row] + FullList(t.rows, uid)
  {
    var row := Task(t.nextId, uid, name, false, now);
    FullListIsFull(t, uid);
    CreateKeepsFull(FullList(t.rows, uid), t, uid, row);
    ListIs(Table(t.rows[t.nextId := row], t.nextId + 1), uid, [row] + FullList(t.rows, uid));
  }

  /** An update of one row replaces it where it stands. */
  lemma UpdateMovesList(t: Table, uid: int, id: int, row: Task)
    requires WellFormed(t) && Owns(t.rows, uid, id) && row.id == id && row.userId == uid
    ensures FullList(t.rows[id := row], uid) == Replaced(FullList(t.rows, uid), id, row)
  {
    FullListIsFull(t, uid);
    UpdateKeepsFull(FullList(t.rows, uid), t.rows, uid, id, row);
    ListIs(t.(rows := t.rows[id := row]), uid, Replaced(FullList(t.rows, uid), id, row));
  }

  /** A delete takes the row out and leaves the rest. */
  lemma DeleteMovesList(t: Table, uid: int, id: int)
    requires WellFormed(t) && Owns(t.rows, uid, id)
    ensures FullList(t.rows - {id}, uid) == Without(FullList(t.rows, uid), id)
  {
    FullListIsFull(t, uid);
    DeleteKeepsFull(FullList(t.rows, uid), t.rows, uid, id);
    ListIs(t.(rows := t.rows - {id}), uid, Without(FullList(t.rows, uid), id));
  }

  lemma SameRowsSameList(t: Table, t': Table, uid: int)
    requires WellFormed(t) && WellFormed(t') && SameRowsOf(uid, t.rows, t'.rows)
    ensures FullList(t'.rows, uid) == FullList(t.rows, uid)
  {
    FullListIsFull(t, uid);
    FullListIsFull(t', uid);
    var l := FullList(t.rows, uid);
    forall id | Owns(t'.rows, uid, id)
      ensures t'.rows[id] in l
    {
      assert Owns(t.rows, uid, id);
    }
    FullListUnique(FullList(t'.rows, uid), l, t'.rows, uid);
  }

  // ---------- agreement ----------

  /** The list is a prefix of the user's rows, newest first; `hidden` are the rows it lacks. */
  ghost predicate Agrees(uid: int, s: Session, hidden: seq<Task>) {
    WellFormed(s.table) && FullList(s.table.rows, uid) == s.tasks + hidden
  }

  lemma PrefixAgrees(uid: int, s: Session)
    requires WellFormed(s.table) && s.tasks <= FullList(s.table.rows, uid)
    ensures Agrees(uid, s, FullList(s.table.rows, uid)[|s.tasks|..])
  {
  }

  lemma LoadAgrees(uid: int, s: Session, hidden: seq<Task>, delivered: bool, db: Db)
    requires Agrees(uid, s, hidden)
    ensures var s' := Step(uid, s, Load(delivered, db));
            s'.tasks <= FullList(s'.table.rows, uid)
            && Agrees(uid, s', FullList(s'.table.rows, uid)[|s'.tasks|..])
  {
    var s' := Step(uid, s, Load(delivered, db));
    ListAnswersPrefix(s.table, uid, 0, db);
    assert s'.table == s.table && s'.tasks <= FullList(s.table.rows, uid);
    PrefixAgrees(uid, s');
  }

  lemma AddAgrees(uid: int, s: Session, hidden: seq<Task>, name: string, now: int, db: Db)
    requires Agrees(uid, s, hidden)
    ensures Agrees(uid, Step(uid, s, Add(name, now, db)), hidden)
  {
    var s' := Step(uid, s, Add(name, now, db));
    ExecKeepsWellFormed(s.table, Call(uid, now, Create(Some(name)), db));
    if !Blank(name) && s.table.nextId <= Strconv.MAX_INT64 && !db.Down? {
      CreateMovesList(s.table, uid, now, name);
      assert s'.tasks + hidden == [s'.tasks[0]] + (s.tasks + hidden);
    }
  }

  /** A shown row is the stored one, and no hidden row has its id. */
  lemma ShownIsStored(uid: int, s: Session, hidden: seq<Task>, id: int)
    requires Agrees(uid, s, hidden) && Shown(s.tasks, id).Some?
    ensures Owns(s.table.rows, uid, id) && s.table.rows[id] == Shown(s.tasks, id).value
    ensures Strconv.ParseInt(Strconv.FormatInt(id)) == Some(id)
    ensures forall i :: 0 <= i < |hidden| ==> hidden[i].id != id
  {
    var full := FullList(s.table.rows, uid);
    FullListIsFull(s.table, uid);
    ShownIs(s.tasks, id);
    var i :| 0 <= i < |s.tasks| && s.tasks[i] == Shown(s.tasks, id).value;
    assert full[i] == s.tasks[i];
    assert forall j :: 0 <= j < |hidden| ==> full[|s.tasks| + j] == hidden[j];
    Strconv.ParseFormat(id);
  }

  lemma ToggleAgrees(uid: int, s: Session, hidden: seq<Task>, id: int, db: Db)
    requires Agrees(uid, s, hidden)
    ensures Agrees(uid, Step(uid, s, Toggle(id, db)), hidden)
  {
    if Shown(s.tasks, id).Some? && !db.Down? {
      ShownIsStored(uid, s, hidden, id);
      var row := Shown(s.tasks, id).value;
      UpdateMovesList(s.table, uid, id, row.(done := !row.done));
      assert Replaced(s.tasks + hidden, id, row.(done := !row.done)) ==
             Replaced(s.tasks, id, row.(done := !row.done)) + hidden;
    }
  }

  lemma RemoveAgrees(uid: int, s: Session, hidden: seq<Task>, id: int, db: Db)
    requires Agrees(uid, s, hidden)
    ensures Agrees(uid, Step(uid, s, Remove(id, db)), hidden)
  {
    if Shown(s.tasks, id).Some? && !db.Down? {
      ShownIsStored(uid, s, hidden, id);
      DeleteMovesList(s.table, uid, id);
      WithoutAppend(s.tasks, hidden, id);
      WithoutAbsent(hidden, id);
    }
  }

  lemma OtherAgrees(uid: int, s: Session, hidden: seq<Task>, c: Call)
    requires Agrees(uid, s, hidden)
    ensures Agrees(uid, Step(uid, s, Other(c)), hidden)
  {
    if c.uid != uid {
      ExecKeepsWellFormed(s.table, c);
      OtherLeavesRowsAlone(s.table, c, uid);
      SameRowsSameList(s.table, Exec(s.table, c.uid, c.now, c.req, c.db).0, uid);
    }
  }

  /** Between two listings the rows the browser lacks never change: every add, toggle and remove
      moves the list exactly as it moves the table, whatever other users do meanwhile. */
  lemma {:induction false} HiddenRowsStay(uid: int, s: Session, hidden: seq<Task>, acts: seq<Act>)
    requires Agrees(uid, s, hidden)
    requires forall i :: 0 <= i < |acts| ==> !acts[i].Load?
    ensures Agrees(uid, Run(uid, s, acts), hidden)
    decreases acts
  {
    if acts != [] {
      match acts[0] {
        case Add(name, now, db) => AddAgrees(uid, s, hidden, name, now, db);
        case Toggle(id, db) => ToggleAgrees(uid, s, hidden, id, db);
        case Remove(id, db) => RemoveAgrees(uid, s, hidden, id, db);
        case Other(c) => OtherAgrees(uid, s, hidden, c);
      }
      HiddenRowsStay(uid, Step(uid, s, acts[0]), hidden, acts[1..]);
    }
  }

  /** In every session that starts with an empty list, listings succeeding, failing, or cut short at
      will, the list shown is always a prefix of the user's rows, newest first. */
  lemma {:induction false} ListIsPrefix(uid: int, s: Session, hidden: seq<Task>, acts: seq<Act>)
    requires Agrees(uid, s, hidden)
    ensures var s' := Run(uid, s, acts);
            s'.tasks <= FullList(s'.table.rows, uid)
    decreases acts
  {
    if acts == [] {
    } else if acts[0].Load? {
      var s1 := Step(uid, s, acts[0]);
      LoadAgrees(uid, s, hidden, acts[0].delivered, acts[0].db);
      ListIsPrefix(uid, s1, FullList(s1.table.rows, uid)[|s1.tasks|..], acts[1..]);
    } else {
      assert [acts[0]][1..] == [];
      HiddenRowsStay(uid, s, hidden, [acts[0]]);
      assert Run(uid, s, [acts[0]]) == Step(uid, s, acts[0]);
      ListIsPrefix(uid, Step(uid, s, acts[0]), hidden, acts[1..]);
    }
  }

  /** When the list may stand in for a fresh listing: after a listing and any acts of the page, it is
      the whole of the user's rows exactly when that listing was, and it equals what listTasks would
      answer now exactly when it shows two hundred rows, or fewer with none missing. */
  lemma CacheAgreesWithQuery(uid: int, t: Table, shown: seq<Task>, db: Db, acts: seq<Act>)
    requires WellFormed(t)
    requires forall i :: 0 <= i < |acts| ==> !acts[i].Load?
    ensures var loaded := Step(uid, Session(t, shown), Load(true, db));
            var s' := Run(uid, loaded, acts);
            var complete := loaded.tasks == FullList(t.rows, uid);
            && (s'.tasks == FullList(s'.table.rows, uid) <==> complete)
            && (s'.tasks == ListQuery(s'.table.rows, uid) <==>
                  |s'.tasks| == LIST_LIMIT || (|s'.tasks| < LIST_LIMIT && complete))
            && (db == Up ==> (complete <==> |FullList(t.rows, uid)| <= LIST_LIMIT))
  {
    var loaded := Step(uid, Session(t, shown), Load(true, db));
    ListAnswersPrefix(t, uid, 0, db);
    var full := FullList(t.rows, uid);
    assert loaded.tasks <= full;
    var hidden := full[|loaded.tasks|..];
    HiddenRowsStay(uid, loaded, hidden, acts);
  }

  /** A create whose answer never arrives leaves the prefix property standing only if nothing is shown. */
  lemma LostAnswerBreaksPrefix(uid: int, s: Session, hidden: seq<Task>, name: string, now: int)
    requires Agrees(uid, s, hidden) && name != "" && s.table.nextId <= Strconv.MAX_INT64
    ensures var t' := Exec(s.table, uid, now, Create(Some(name)), Up).0;
            s.tasks <= FullList(t'.rows, uid) <==> s.tasks == []
  {
    CreateMovesList(s.table, uid, now, name);
    NewIdNotShown(uid, s, hidden);
    var t' := Exec(s.table, uid, now, Create(Some(name)), Up).0;
    assert FullList(t'.rows, uid)[0].id == s.table.nextId;
    if s.tasks != [] {
      assert s.tasks[0].id != s.table.nextId;
    }
  }

  // ---------- what undoes what ----------

  lemma {:induction false} ShownReplaced(tasks: seq<Task>, id: int, row: Task)
    requires row.id == id
    ensures Shown(Replaced(tasks, id, row), id) == if Shown(tasks, id).Some? then Some(row) else None
  {
    if tasks != [] {
      assert Replaced(tasks, id, row)[1..] == Replaced(tasks[1..], id, row);
      ShownReplaced(tasks[1..], id, row);
    }
  }

  /** One toggle on a healthy database, in full. */
  lemma ToggleOnce(uid: int, s: Session, hidden: seq<Task>, id: int)
    requires Agrees(uid, s, hidden) && Shown(s.tasks, id).Some?
    ensures var row := Shown(s.tasks, id).value;
            var flipped := row.(done := !row.done);
            && Step(uid, s, Toggle(id, Up))
               == Session(s.table.(rows := s.table.rows[id := flipped]), Replaced(s.tasks, id, flipped))
            && Shown(Replaced(s.tasks, id, flipped), id) == Some(flipped)
            && s.table.rows[id := row] == s.table.rows
            && Replaced(s.tasks, id, row) == s.tasks
  {
    ShownIsStored(uid, s, hidden, id);
    ShownIs(s.tasks, id);
    var row := Shown(s.tasks, id).value;
    ShownReplaced(s.tasks, id, row.(done := !row.done));
    FullListIsFull(s.table, uid);
    var full := FullList(s.table.rows, uid);
    forall j | 0 <= j < |s.tasks| && s.tasks[j].id == id
      ensures s.tasks[j] == row
    {
      assert full[j] == s.tasks[j];
    }
  }

  /** A toggle sets nothing but the done flag, to the opposite of what is shown, even of a row that
      meanwhile differs from the shown one. */
  lemma ToggleWrites(uid: int, s: Session, id: int)
    requires Shown(s.tasks, id).Some? && Strconv.IsInt64(id) && Owns(s.table.rows, uid, id)
    ensures Step(uid, s, Toggle(id, Up)).table
         == s.table.(rows := s.table.rows[id := s.table.rows[id].(done := !Shown(s.tasks, id).value.done)])
  {
    ShownIs(s.tasks, id);
    Strconv.ParseFormat(id);
  }

  /** Toggling a shown row twice on a healthy database restores table and list. */
  lemma ToggleTwice(uid: int, s: Session, hidden: seq<Task>, id: int)
    requires Agrees(uid, s, hidden)
    ensures Step(uid, Step(uid, s, Toggle(id, Up)), Toggle(id, Up)) == s
  {
    if Shown(s.tasks, id).Some? {
      var s1 := Step(uid, s, Toggle(id, Up));
      var row := Shown(s.tasks, id).value;
      ToggleOnce(uid, s, hidden, id);
      ToggleAgrees(uid, s, hidden, id, Up);
      ToggleOnce(uid, s1, hidden, id);
      assert s1.table.rows[id := row] == s.table.rows[id := row];
      assert Replaced(s1.tasks, id, row) == Replaced(s.tasks, id, row);
    }
  }

  /** Removing what was just added restores rows and list; only the id is used up. */
  lemma AddThenRemove(uid: int, s: Session, hidden: seq<Task>, name: string, now: int)
    requires Agrees(uid, s, hidden) && !Blank(name) && s.table.nextId <= Strconv.MAX_INT64
    ensures Step(uid, Step(uid, s, Add(name, now, Up)), Remove(s.table.nextId, Up))
         == s.(table := s.table.(nextId := s.table.nextId + 1))
  {
    var id := s.table.nextId;
    var row := Task(id, uid, name, false, now);
    var s1 := Step(uid, s, Add(name, now, Up));
    assert s1 == Session(Table(s.table.rows[id := row], id + 1), [row] + s.tasks);
    Strconv.ParseFormat(id);
    assert ([row] + s.tasks)[1..] == s.tasks;
    NewIdNotShown(uid, s, hidden);
    WithoutAbsent(s.tasks, id);
    assert s1.table.rows - {id} == s.table.rows;
  }

  lemma NewIdNotShown(uid: int, s: Session, hidden: seq<Task>)
    requires Agrees(uid, s, hidden)
    ensures forall i :: 0 <= i < |s.tasks| ==> s.tasks[i].id != s.table.nextId
  {
    FullListIsFull(s.table, uid);
    var full := FullList(s.table.rows, uid);
    assert forall i :: 0 <= i < |s.tasks| ==> full[i] == s.tasks[i];
  }

  // ---------- the page itself ----------

  function Newest(toasts: seq<string>, data: seq<string>): seq<string>
    decreases data
  {
    if data == [] then toasts else Newest(First([data[0]] + toasts, TOASTS), data[1..])
  }

  function Reversed(s: seq<string>): seq<string> {
    if s == [] then [] else Reversed(s[1..]) + [s[0]]
  }

  lemma {:induction false} ReversedAt(s: seq<string>)
    ensures |Reversed(s)| == |s|
    ensures forall i :: 0 <= i < |s| ==> Reversed(s)[i] == s[|s| - 1 - i]
  {
    if s != [] {
      ReversedAt(s[1..]);
    }
  }

  /** Place by place: the newest message first, the messages before it behind, then what was shown
      already, eight in all. */
  lemma ToastAt(toasts: seq<string>, data: seq<string>, i: nat)
    requires |toasts| <= 8
    ensures |Newest(toasts, data)| == if |data| + |toasts| <= 8 then |data| + |toasts| else 8
    ensures i < |Newest(toasts, data)| ==>
              Newest(toasts, data)[i] == if i < |data| then data[|data| - 1 - i] else toasts[i - |data|]
  {
    ToastsAreNewest(toasts, data);
    ReversedAt(data);
  }

  /** The toasts are the eight newest messages, newest first, over whatever was shown before. */
  lemma {:induction false} ToastsAreNewest(toasts: seq<string>, data: seq<string>)
    requires |toasts| <= TOASTS
    ensures Newest(toasts, data) == First(Reversed(data) + toasts, TOASTS)
    decreases data
  {
    if data != [] {
      var next := First([data[0]] + toasts, TOASTS);
      ToastsAreNewest(next, data[1..]);
      var ahead := Reversed(data[1..]);
      assert Reversed(data) + toasts == ahead + ([data[0]] + toasts);
    }
  }

  /** The component state, next to the service it talks to. */
  class Home {
    const server: TasksService.App
    const uid: int
    var tasks: seq<Task>
    var toasts: seq<string>

    constructor (server: TasksService.App, uid: int)
      ensures this.server == server && this.uid == uid && tasks == [] && toasts == []
    {
      this.server, this.uid, tasks, toasts := server, uid, [], [];
    }

    function State(): Session
      reads this, server
    {
      Session(server.State(), tasks)
    }

    method LoadTasks(delivered: bool, db: Db)
      modifies this`tasks
      ensures State() == Step(uid, old(State()), Load(delivered, db))
    {
      if !delivered {
        return;
      }
      var resp := server.ListTasks(uid, db);
      tasks := if resp.Listed? then resp.tasks else [];
    }

    method AddTask(name: string, now: int, db: Db, how: Publishing)
      modifies this`tasks, server
      ensures State() == Step(uid, old(State()), Add(name, now, db))
    {
      if Blank(name) {
        return;
      }
      var resp := server.CreateTask(uid, now, Some(name), db, how);
      if resp.Created? {
        tasks := [resp.task] + tasks;
      }
    }

    method ToggleTask(id: int, db: Db, how: Publishing)
      modifies this`tasks, server
      ensures State() == Step(uid, old(State()), Toggle(id, db))
    {
      var t := Shown(tasks, id);
      if t.None? {
        return;
      }
      var patch := Patch(None, Some(!t.value.done));
      var resp := server.UpdateTask(uid, Strconv.FormatInt(t.value.id), Some(patch), db, how);
      if resp.Updated? {
        tasks := Replaced(tasks, id, resp.task);
      }
    }

    method RemoveTask(id: int, db: Db)
      modifies this`tasks, server
      ensures State() == Step(uid, old(State()), Remove(id, db))
    {
      if Shown(tasks, id).None? {
        return;
      }
      var resp := server.DeleteTask(uid, Strconv.FormatInt(id), db);
      if resp.Deleted? {
        tasks := Without(tasks, id);
      }
    }

    /** The event source's messages, one toast each. */
    method Listen(stream: string)
      requires |toasts| <= TOASTS
      modifies this`toasts
      ensures toasts == First(Reversed(Sse.Decode(stream)) + old(toasts), TOASTS)
    {
      var data := Sse.Decode(stream);
      ToastsAreNewest(toasts, data);
      var i := 0;
      while i < |data|
        invariant 0 <= i <= |data|
        invariant Newest(toasts, data[i..]) == Newest(old(toasts), data)
      {
        assert data[i..][1..] == data[i + 1..];
        toasts := First([data[i]] + toasts, TOASTS);
        i := i + 1;
      }
    }

    method SignOut()
      modifies this`tasks, this`toasts
      ensures tasks == [] && toasts == []
    {
      tasks, toasts := [], [];
    }
  }
}
