/** The tasks table and the four requests tasks-svc serves on it, as functions on values. */
module TaskTable {
  import opened Base
  import Strconv

  const LIST_LIMIT: nat := 200

  datatype Task = Task(id: int, userId: int, name: string, done: bool, createdAt: int)

  /** Rows by primary key, and the next value of the id sequence. */
  datatype Table = Table(rows: map<int, Task>, nextId: int)

  /** The body of a PATCH: an absent field stays as it is. */
  datatype Patch = Patch(name: Option<string>, done: Option<bool>)

  /** A body of None is one that does not decode. */
  datatype Request =
    | List
    | Create(body: Option<string>)
    | Update(idText: string, patch: Option<Patch>)
    | Delete(idText: string)

  /** What the database does with the statement of one request. A failed INSERT may still have
      taken a sequence value; a result set may end early without the handler noticing, or hold a
      row that does not scan. */
  datatype Db = Up | Down(burned: bool) | CutAfter(after: nat) | ScanFails(row: nat)

  /** How the publish that follows a written row ends: stored, stored with an empty document because
      encoding failed, or gone, by an error or because the handler died before it. */
  datatype Publishing = Stored | StoredEmpty | Gone

  datatype Response =
    | Listed(tasks: seq<Task>)
    | Created(task: Task)
    | Updated(task: Task)
    | Deleted
    | BadBody
    | BadId
    | NotFound
    | DbError
    | ScanError

  // ---------- the SQL statements ----------

  function Coalesce<T>(given: Option<T>, current: T): T {
    if given.Some? then given.value else current
  }

  function PatchRow(row: Task, p: Patch): Task {
    row.(name := Coalesce(p.name, row.name), done := Coalesce(p.done, row.done))
  }

  predicate Owns(rows: map<int, Task>, uid: int, id: int) {
    id in rows && rows[id].userId == uid
  }

  function OwnedIds(rows: map<int, Task>, uid: int): set<int> {
    set id | id in rows && rows[id].userId == uid
  }

  lemma {:induction false} HasMax(ids: set<int>)
    requires ids != {}
    ensures exists m :: m in ids && forall x :: x in ids ==> x <= m
  {
    if forall x :: x !in ids {
      assert false;
    }
    var a :| a in ids;
    if ids - {a} != {} {
      HasMax(ids - {a});
      var m :| m in ids - {a} && forall x :: x in ids - {a} ==> x <= m;
      var top := if a > m then a else m;
      assert forall x :: x in ids ==> x == a || x in ids - {a};
      assert top in ids && forall x :: x in ids ==> x <= top;
    } else {
      assert ids == {a};
    }
  }

  function Max(ids: set<int>): (m: int)
    requires ids != {}
    ensures m in ids && forall x :: x in ids ==> x <= m
  {
    HasMax(ids);
    var m :| m in ids && forall x :: x in ids ==> x <= m;
    m
  }

  function Descending(ids: set<int>): (s: seq<int>)
    ensures forall i, j :: 0 <= i < j < |s| ==> s[i] > s[j]
    ensures forall x :: x in s <==> x in ids
  {
    if ids == {} then []
    else
      var m := Max(ids);
      [m] + Descending(ids - {m})
  }

  /** All of a user's rows, ORDER BY id DESC. */
  function FullList(rows: map<int, Task>, uid: int): (l: seq<Task>)
    ensures |l| == |Descending(OwnedIds(rows, uid))|
  {
    var owned := OwnedIds(rows, uid);
    var ids := Descending(owned);
    seq(|ids|, i requires 0 <= i < |ids| => assert ids[i] in ids; rows[ids[i]])
  }

  function ListQuery(rows: map<int, Task>, uid: int): seq<Task> {
    First(FullList(rows, uid), LIST_LIMIT)
  }

  // ---------- the requests ----------

  function ListResponse(rows: map<int, Task>, uid: int, db: Db): Response {
    match db
    case Down(_) => DbError
    case ScanFails(k) => if k < |ListQuery(rows, uid)| then ScanError else Listed(ListQuery(rows, uid))
    case CutAfter(k) => Listed(First(ListQuery(rows, uid), k))
    case Up => Listed(ListQuery(rows, uid))
  }

  function Exec(t: Table, uid: int, now: int, req: Request, db: Db): (Table, Response) {
    match req
    case List => (t, ListResponse(t.rows, uid, db))
    case Create(body) =>
      if body.None? || body.value == "" then (t, BadBody)
      else if t.nextId > Strconv.MAX_INT64 then (t, DbError)
      else if db.Down? then (if db.burned then t.(nextId := t.nextId + 1) else t, DbError)
      else
        var row := Task(t.nextId, uid, body.value, false, now);
        (Table(t.rows[t.nextId := row], t.nextId + 1), Created(row))
    case Update(idText, patch) =>
      var id := Strconv.ParseInt(idText);
      if id.None? then (t, BadId)
      else if patch.None? then (t, BadBody)
      else if db.Down? then (t, DbError)
      else if !Owns(t.rows, uid, id.value) then (t, NotFound)
      else
        var row := PatchRow(t.rows[id.value], patch.value);
        (t.(rows := t.rows[id.value := row]), Updated(row))
    case Delete(idText) =>
      var id := Strconv.ParseInt(idText);
      if id.None? then (t, BadId)
      else if db.Down? then (t, DbError)
      else if !Owns(t.rows, uid, id.value) then (t, NotFound)
      else (t.(rows := t.rows - {id.value}), Deleted)
  }

  /** One request as it reaches a handler: the uid authMW attached, the clock, the request, the database. */
  datatype Call = Call(uid: int, now: int, req: Request, db: Db)

  function Run(t: Table, calls: seq<Call>): (r: (Table, seq<Response>))
    ensures |r.1| == |calls|
    decreases calls
  {
    if calls == [] then (t, [])
    else
      var c := calls[0];
      var (t1, resp) := Exec(t, c.uid, c.now, c.req, c.db);
      var (t2, resps) := Run(t1, calls[1..]);
      (t2, [resp] + resps)
  }

  // ---------- what every request keeps ----------

  /** Each row sits under its own id, and no id has reached the next sequence value. */
  ghost predicate WellFormed(t: Table) {
    && 1 <= t.nextId <= Strconv.MAX_INT64 + 1
    && forall id :: id in t.rows ==> t.rows[id].id == id && 1 <= id < t.nextId
  }

  lemma ExecKeepsWellFormed(t: Table, c: Call)
    requires WellFormed(t)
    ensures WellFormed(Exec(t, c.uid, c.now, c.req, c.db).0)
  {
  }

  lemma {:induction false} RunKeepsWellFormed(t: Table, calls: seq<Call>)
    requires WellFormed(t)
    ensures WellFormed(Run(t, calls).0)
    ensures t.nextId <= Run(t, calls).0.nextId
    decreases calls
  {
    if calls != [] {
      var c := calls[0];
      ExecKeepsWellFormed(t, c);
      RunKeepsWellFormed(Exec(t, c.uid, c.now, c.req, c.db).0, calls[1..]);
    }
  }

  /** Over any run: a surviving row keeps its id, owner and creation time; an id that is gone, or was
      never given to a row before the sequence passed it, never comes back. */
  lemma {:induction false} RowsKeepIdentity(t: Table, calls: seq<Call>, id: int)
    requires WellFormed(t)
    ensures var after := Run(t, calls).0.rows;
            && (id in t.rows && id in after ==>
                  && after[id].id == id
                  && after[id].userId == t.rows[id].userId
                  && after[id].createdAt == t.rows[id].createdAt)
            && (id !in t.rows && id < t.nextId ==> id !in after)
    decreases calls
  {
    if calls != [] {
      var c := calls[0];
      var t1 := Exec(t, c.uid, c.now, c.req, c.db).0;
      ExecKeepsWellFormed(t, c);
      RowsKeepIdentity(t1, calls[1..], id);
      if id in t.rows && id !in t1.rows {
        assert id < t1.nextId;
      }
    }
  }

  /** Ids handed out by creates grow strictly along any run, so none is handed out twice,
      deletions and failed inserts notwithstanding. */
  lemma {:induction false} CreatedIdsIncrease(t: Table, calls: seq<Call>, i: nat, j: nat)
    requires WellFormed(t)
    requires i < j < |calls|
    requires Run(t, calls).1[i].Created? && Run(t, calls).1[j].Created?
    ensures t.nextId <= Run(t, calls).1[i].task.id < Run(t, calls).1[j].task.id
    decreases calls
  {
    var c := calls[0];
    var t1 := Exec(t, c.uid, c.now, c.req, c.db).0;
    ExecKeepsWellFormed(t, c);
    if i == 0 {
      CreatedIdsAreNew(t1, calls[1..], j - 1);
    } else {
      CreatedIdsIncrease(t1, calls[1..], i - 1, j - 1);
    }
  }

  lemma {:induction false} CreatedIdsAreNew(t: Table, calls: seq<Call>, j: nat)
    requires WellFormed(t)
    requires j < |calls| && Run(t, calls).1[j].Created?
    ensures t.nextId <= Run(t, calls).1[j].task.id
    decreases calls
  {
    var c := calls[0];
    ExecKeepsWellFormed(t, c);
    if j > 0 {
      CreatedIdsAreNew(Exec(t, c.uid, c.now, c.req, c.db).0, calls[1..], j - 1);
    }
  }

  /** The rows of uid are the same in both. */
  ghost predicate SameRowsOf(uid: int, before: map<int, Task>, after: map<int, Task>) {
    forall id :: && Owns(before, uid, id) == Owns(after, uid, id)
                 && (Owns(after, uid, id) ==> after[id] == before[id])
  }

  lemma OtherLeavesRowsAlone(t: Table, c: Call, uid: int)
    requires WellFormed(t) && c.uid != uid
    ensures SameRowsOf(uid, t.rows, Exec(t, c.uid, c.now, c.req, c.db).0.rows)
  {
  }

  /** Requests of other users leave a user's rows exactly as they are. */
  lemma {:induction false} OthersLeaveRowsAlone(t: Table, calls: seq<Call>, uid: int)
    requires WellFormed(t)
    requires forall i :: 0 <= i < |calls| ==> calls[i].uid != uid
    ensures SameRowsOf(uid, t.rows, Run(t, calls).0.rows)
    decreases calls
  {
    if calls != [] {
      var c := calls[0];
      ExecKeepsWellFormed(t, c);
      OtherLeavesRowsAlone(t, c, uid);
      OthersLeaveRowsAlone(Exec(t, c.uid, c.now, c.req, c.db).0, calls[1..], uid);
    }
  }

  // ---------- listTasks ----------

  /** l holds exactly the rows of uid, by strictly descending id. */
  ghost predicate IsFullList(l: seq<Task>, rows: map<int, Task>, uid: int) {
    && (forall i, j :: 0 <= i < j < |l| ==> l[i].id > l[j].id)
    && (forall i :: 0 <= i < |l| ==> Owns(rows, uid, l[i].id) && rows[l[i].id] == l[i])
    && (forall id :: Owns(rows, uid, id) ==> rows[id] in l)
  }

  lemma FullListIsFull(t: Table, uid: int)
    requires WellFormed(t)
    ensures IsFullList(FullList(t.rows, uid), t.rows, uid)
  {
    var ids := Descending(OwnedIds(t.rows, uid));
    var l := FullList(t.rows, uid);
    assert forall i :: 0 <= i < |l| ==> ids[i] in OwnedIds(t.rows, uid) && l[i] == t.rows[ids[i]];
    forall id | Owns(t.rows, uid, id)
      ensures t.rows[id] in l
    {
      assert id in ids;
      var i :| 0 <= i < |ids| && ids[i] == id;
      assert l[i] == t.rows[id];
    }
  }

  /** The full listing is unique: two lists that meet the description are equal. */
  lemma {:induction false} FullListUnique(a: seq<Task>, b: seq<Task>, rows: map<int, Task>, uid: int)
    requires IsFullList(a, rows, uid) && IsFullList(b, rows, uid)
    ensures a == b
  {
    DescendingUnique(a, b);
  }

  lemma {:induction false} DescendingUnique(a: seq<Task>, b: seq<Task>)
    requires forall i, j :: 0 <= i < j < |a| ==> a[i].id > a[j].id
    requires forall i, j :: 0 <= i < j < |b| ==> b[i].id > b[j].id
    requires forall x :: x in a <==> x in b
    ensures a == b
    decreases a
  {
    assert b != [] ==> b[0] in a;
    if a != [] {
      assert a[0] in b;
      assert a[0] == b[0];
      forall x
        ensures x in a[1..] <==> x in b[1..]
      {
        assert x in a[1..] ==> x in a && x != a[0];
        assert x in b[1..] ==> x in b && x != b[0];
        assert x in a && x != a[0] ==> x in a[1..];
        assert x in b && x != b[0] ==> x in b[1..];
      }
      DescendingUnique(a[1..], b[1..]);
      assert a == [a[0]] + a[1..] && b == [b[0]] + b[1..];
    }
  }

  /** listTasks on a healthy database answers the at most 200 largest ids of the caller,
      strictly descending: a row of the caller is missing only when 200 newer ones are listed. */
  lemma ListIsNewest(t: Table, uid: int, now: int)
    requires WellFormed(t)
    ensures var (t', resp) := Exec(t, uid, now, List, Up);
            && t' == t
            && resp.Listed?
            && |resp.tasks| <= 200
            && (forall i, j :: 0 <= i < j < |resp.tasks| ==> resp.tasks[i].id > resp.tasks[j].id)
            && (forall i :: 0 <= i < |resp.tasks| ==>
                  Owns(t.rows, uid, resp.tasks[i].id) && t.rows[resp.tasks[i].id] == resp.tasks[i])
            && (forall id :: Owns(t.rows, uid, id) && t.rows[id] !in resp.tasks ==>
                  && |resp.tasks| == 200
                  && forall i :: 0 <= i < 200 ==> resp.tasks[i].id > id)
  {
    FullListIsFull(t, uid);
    var l := FullList(t.rows, uid);
    var resp := Exec(t, uid, now, List, Up).1;
    assert forall i :: 0 <= i < |resp.tasks| ==> resp.tasks[i] == l[i];
    forall id | Owns(t.rows, uid, id) && t.rows[id] !in resp.tasks
      ensures |resp.tasks| == 200 && forall i :: 0 <= i < 200 ==> resp.tasks[i].id > id
    {
      var k :| 0 <= k < |l| && l[k] == t.rows[id];
      assert k >= |resp.tasks|;
    }
  }

  /** With any database behaviour a listing that is answered at all is a prefix of the full list.
      It is the whole query result unless the result set was cut: the handler does not look at the
      cursor's error after its loop. */
  lemma ListAnswersPrefix(t: Table, uid: int, now: int, db: Db)
    ensures var resp := Exec(t, uid, now, List, db).1;
            && (resp.Listed? ==> resp.tasks <= ListQuery(t.rows, uid) <= FullList(t.rows, uid))
            && (resp == Listed(ListQuery(t.rows, uid)) <==>
                  match db
                  case Up => true
                  case Down(_) => false
                  case CutAfter(k) => k >= |ListQuery(t.rows, uid)|
                  case ScanFails(k) => k >= |ListQuery(t.rows, uid)|)
            && (resp == DbError <==> db.Down?)
            && (resp == ScanError <==> db.ScanFails? && db.row < |ListQuery(t.rows, uid)|)
            && (db.CutAfter? && db.after <= |ListQuery(t.rows, uid)| ==>
                  resp == Listed(ListQuery(t.rows, uid)[..db.after]))
  {
  }

  /** A user with a task gets an empty list, and no error, when the cursor breaks off at once. */
  lemma CutListingExample()
    ensures var row := Task(1, 7, "a", false, 0);
            var t := Table(map[1 := row], 2);
            && ListQuery(t.rows, 7) == [row]
            && Exec(t, 7, 0, List, CutAfter(0)).1 == Listed([])
  {
    var row := Task(1, 7, "a", false, 0);
    assert OwnedIds(map[1 := row], 7) == {1};
    assert Descending({1}) == [1] + Descending({1} - {1});
  }

  // ---------- what each request answers and leaves behind ----------

  /** The text names a 64-bit integer: an optional sign and digits, nothing else. */
  ghost predicate NamesId(idText: string, id: int) {
    && -9223372036854775808 <= id <= 9223372036854775807
    && exists sign, d :: Strconv.Spells(idText, sign, d, id)
  }

  /** A create is answered 201 exactly for a body with a nonempty name, an id left in the sequence, and
      a database that is up; then one row is added, with the next id, the caller, the name as given,
      not done, and the time. Otherwise no row changes. */
  lemma CreateIs(t: Table, uid: int, now: int, body: Option<string>, db: Db)
    ensures var (t', resp) := Exec(t, uid, now, Create(body), db);
            && (resp.Created? <==>
                  body.Some? && body.value != "" && t.nextId <= 9223372036854775807 && !db.Down?)
            && (resp.Created? ==>
                  && resp.task == Task(t.nextId, uid, body.value, false, now)
                  && t' == Table(t.rows[t.nextId := resp.task], t.nextId + 1))
            && (!resp.Created? ==> t'.rows == t.rows)
            && (resp == BadBody ==> t' == t)
            && (resp == DbError ==>
                  t'.nextId == t.nextId + if db == Down(true) && t.nextId <= 9223372036854775807 then 1 else 0)
            && (resp == BadBody <==> body.None? || body.value == "")
            && (resp.Created? || resp == BadBody || resp == DbError)
  {
  }

  /** Which answer a request for one task gets before its row is looked at. */
  ghost predicate Refused(idText: string, readable: bool, db: Db, resp: Response) {
    && (resp == BadId <==> forall id :: !NamesId(idText, id))
    && (resp == BadBody <==> resp != BadId && !readable)
    && (resp == DbError <==> resp != BadId && readable && db.Down?)
  }

  lemma ReadId(idText: string)
    ensures Strconv.ParseInt(idText).None? <==> forall id :: !NamesId(idText, id)
    ensures forall id :: NamesId(idText, id) <==> Strconv.ParseInt(idText) == Some(id)
  {
    forall id
      ensures NamesId(idText, id) <==> Strconv.ParseInt(idText) == Some(id)
    {
      Strconv.ParseIntIff(idText, id);
    }
    if Strconv.ParseInt(idText).Some? {
      assert NamesId(idText, Strconv.ParseInt(idText).value);
    }
  }

  /** An update: a text that names no id is refused with 400 and changes nothing; so is a body that
      does not decode; a row that is missing or another user's is 404; otherwise the fields given are
      stored as given, the others and every other row stay. */
  lemma UpdateIs(t: Table, uid: int, now: int, idText: string, patch: Option<Patch>, db: Db)
    ensures var (t', resp) := Exec(t, uid, now, Update(idText, patch), db);
            && Refused(idText, patch.Some?, db, resp)
            && t'.nextId == t.nextId
            && (!resp.Updated? ==> t' == t)
            && (resp.Updated? || resp == NotFound || resp == BadId || resp == BadBody || resp == DbError)
            && forall id :: NamesId(idText, id) && patch.Some? && !db.Down? ==>
                 && (resp == NotFound <==> id !in t.rows || t.rows[id].userId != uid)
                 && (resp != NotFound ==>
                       && id in t.rows && patch.Some?
                       && var was, now' := t.rows[id], resp.task;
                          && resp == Updated(now')
                          && t'.rows == t.rows[id := now']
                          && now'.id == was.id && now'.userId == was.userId && now'.createdAt == was.createdAt
                          && (patch.value.name.None? ==> now'.name == was.name)
                          && (patch.value.name.Some? ==> now'.name == patch.value.name.value)
                          && (patch.value.done.None? ==> now'.done == was.done)
                          && (patch.value.done.Some? ==> now'.done == patch.value.done.value))
  {
    ReadId(idText);
  }

  /** A delete: an id text that names none is 400, a row that is missing or another user's 404, and
      neither changes anything; otherwise exactly that row goes. */
  lemma DeleteIs(t: Table, uid: int, now: int, idText: string, db: Db)
    ensures var (t', resp) := Exec(t, uid, now, Delete(idText), db);
            && Refused(idText, true, db, resp)
            && t'.nextId == t.nextId
            && (resp != Deleted ==> t' == t)
            && (resp == Deleted || resp == NotFound || resp == BadId || resp == DbError)
            && forall id :: NamesId(idText, id) && !db.Down? ==>
                 && (resp == NotFound <==> id !in t.rows || t.rows[id].userId != uid)
                 && (resp == Deleted <==> id in t.rows && t.rows[id].userId == uid)
                 && (resp == Deleted ==> t'.rows == t.rows - {id})
  {
    ReadId(idText);
  }

  /** "2x" names no task, so deleting it is refused. */
  lemma BadIdExample(t: Table, uid: int, now: int, db: Db)
    ensures Exec(t, uid, now, Delete("2x"), db) == (t, BadId)
  {
    Strconv.ParseDigitsIff("2x", 0);
    assert "2x"[1] == 'x';
  }

  // ---------- partial updates ----------

  /** q after p, as one patch: the later present field wins. */
  function Merge(p: Patch, q: Patch): Patch {
    Patch(if q.name.Some? then q.name else p.name, if q.done.Some? then q.done else p.done)
  }

  function MergeAll(ps: seq<Patch>): Patch {
    if ps == [] then Patch(None, None) else Merge(ps[0], MergeAll(ps[1..]))
  }

  function Patches(uid: int, idText: string, ps: seq<Patch>): seq<Call> {
    seq(|ps|, i requires 0 <= i < |ps| => Call(uid, 0, Update(idText, Some(ps[i])), Up))
  }

  /** Any sequence of updates of one task leaves the table as a single update by their
      right-biased merge does, whatever the id text and whoever asks. */
  lemma {:induction false} UpdatesCompose(t: Table, uid: int, idText: string, ps: seq<Patch>)
    ensures Run(t, Patches(uid, idText, ps)).0 == Exec(t, uid, 0, Update(idText, Some(MergeAll(ps))), Up).0
    decreases ps
  {
    if ps == [] {
      var id := Strconv.ParseInt(idText);
      if id.Some? && Owns(t.rows, uid, id.value) {
        assert t.rows[id.value := t.rows[id.value]] == t.rows;
      }
    } else {
      assert Patches(uid, idText, ps)[1..] == Patches(uid, idText, ps[1..]);
      UpdatesCompose(Exec(t, uid, 0, Update(idText, Some(ps[0])), Up).0, uid, idText, ps[1..]);
    }
  }

  /** Two updates that set different fields of one task commute. */
  lemma DisjointUpdatesCommute(t: Table, uid: int, idText: string, p: Patch, q: Patch)
    requires p.name.None? || q.name.None?
    requires p.done.None? || q.done.None?
    ensures Run(t, Patches(uid, idText, [p, q])).0 == Run(t, Patches(uid, idText, [q, p])).0
  {
    UpdatesCompose(t, uid, idText, [p, q]);
    UpdatesCompose(t, uid, idText, [q, p]);
    assert MergeAll([p, q]) == MergeAll([q, p]);
  }

  // ---------- empty names ----------

  ghost predicate NamesPresent(t: Table) {
    forall id :: id in t.rows ==> t.rows[id].name != ""
  }

  /** createTask refuses an empty name but updateTask does not: a request keeps every name
      nonempty exactly when it is not an owner's update of a task to the empty name that reaches a
      working database. */
  lemma NamesStayPresent(t: Table, c: Call)
    requires WellFormed(t) && NamesPresent(t)
    ensures var t' := Exec(t, c.uid, c.now, c.req, c.db).0;
            NamesPresent(t') <==>
            !(&& c.req.Update? && !c.db.Down?
              && c.req.patch.Some? && c.req.patch.value.name == Some("")
              && Strconv.ParseInt(c.req.idText).Some?
              && Owns(t.rows, c.uid, Strconv.ParseInt(c.req.idText).value))
  {
    var (t', resp) := Exec(t, c.uid, c.now, c.req, c.db);
    if resp.Updated? {
      var id := Strconv.ParseInt(c.req.idText).value;
      assert id in t'.rows && t'.rows[id] == PatchRow(t.rows[id], c.req.patch.value);
    }
  }

  lemma EmptyNameExample()
    ensures var t := Run(Table(map[], 1), [Call(7, 0, Create(Some("a")), Up),
                                           Call(7, 1, Update("1", Some(Patch(Some(""), None))), Up)]).0;
            1 in t.rows && t.rows[1].name == ""
  {
  }
}
