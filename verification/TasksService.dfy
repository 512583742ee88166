/** The handlers of tasks-svc: each changes the table in place, then publishes, then answers. */
module TasksService {
  import opened Base
  import opened TaskTable
  import Strconv

  /** A message in the stream; data of None stands for bytes that are not a task document. */
  datatype Message = Message(subject: string, data: Option<Task>)

  function Emit(subject: string, payload: Task, how: Publishing): seq<Message> {
    match how
    case Stored => [Message(subject, Some(payload))]
    case StoredEmpty => [Message(subject, None)]
    case Gone => []
  }

  /** What one answered request adds to the stream. */
  function Announced(resp: Response, how: Publishing): seq<Message> {
    match resp
    case Created(t) => Emit("tasks.created", t, how)
    case Updated(t) => Emit("tasks.updated", t, how)
    case _ => []
  }

  class App {
    var rows: map<int, Task>
    var nextId: int
    var stream: seq<Message>

    constructor ()
      ensures State() == Table(map[], 1) && stream == []
    {
      rows, nextId, stream := map[], 1, [];
    }

    function State(): Table
      reads this
    {
      Table(rows, nextId)
    }

    method Publish(subject: string, payload: Task, how: Publishing)
      modifies this`stream
      ensures stream == old(stream) + Emit(subject, payload, how)
    {
      match how {
        case Stored => stream := stream + [Message(subject, Some(payload))];
        case StoredEmpty => stream := stream + [Message(subject, None)];
        case Gone =>
      }
    }

    /** The handler reads the result set row by row; the database decides where it ends. */
    method ListTasks(uid: int, db: Db) returns (resp: Response)
      ensures resp == ListResponse(rows, uid, db)
    {
      if db.Down? {
        return DbError;
      }
      var cursor := ListQuery(rows, uid);
      var out: seq<Task> := [];
      var i := 0;
      while i < |cursor| && !(db.CutAfter? && i == db.after)
        invariant 0 <= i <= |cursor|
        invariant db.CutAfter? ==> i <= db.after
        invariant db.ScanFails? ==> i <= db.row
        invariant out == cursor[..i]
      {
        if db.ScanFails? && i == db.row {
          return ScanError;
        }
        out := out + [cursor[i]];
        i := i + 1;
      }
      assert cursor[..|cursor|] == cursor;
      resp := Listed(out);
    }

    method CreateTask(uid: int, now: int, body: Option<string>, db: Db, how: Publishing) returns (resp: Response)
      modifies this
      ensures (State(), resp) == Exec(old(State()), uid, now, Create(body), db)
      ensures stream == old(stream) + Announced(resp, how)
    {
      if body.None? || body.value == "" {
        return BadBody;
      }
      if nextId > Strconv.MAX_INT64 {
        return DbError;
      }
      var id := nextId;
      if db.Down? {
        if db.burned {
          nextId := nextId + 1;
        }
        return DbError;
      }
      var t := Task(id, uid, body.value, false, now);
      nextId := nextId + 1;
      rows := rows[id := t];
      Publish("tasks.created", t, how);
      resp := Created(t);
    }

    method UpdateTask(uid: int, idText: string, req: Option<Patch>, db: Db, how: Publishing) returns (resp: Response)
      modifies this
      ensures (State(), resp) == Exec(old(State()), uid, 0, Update(idText, req), db)
      ensures stream == old(stream) + Announced(resp, how)
    {
      var id := Strconv.ParseInt(idText);
      if id.None? {
        return BadId;
      }
      if req.None? {
        return BadBody;
      }
      if db.Down? {
        return DbError;
      }
      if !(id.value in rows && rows[id.value].userId == uid) {
        return NotFound;
      }
      var t := rows[id.value];
      if req.value.name.Some? {
        t := t.(name := req.value.name.value);
      }
      if req.value.done.Some? {
        t := t.(done := req.value.done.value);
      }
      rows := rows[id.value := t];
      Publish("tasks.updated", t, how);
      resp := Updated(t);
    }

    method DeleteTask(uid: int, idText: string, db: Db) returns (resp: Response)
      modifies this
      ensures (State(), resp) == Exec(old(State()), uid, 0, Delete(idText), db)
      ensures stream == old(stream)
    {
      var id := Strconv.ParseInt(idText);
      if id.None? {
        return BadId;
      }
      if db.Down? {
        return DbError;
      }
      var affected := if Owns(rows, uid, id.value) then 1 else 0;
      if affected == 0 {
        return NotFound;
      }
      rows := rows - {id.value};
      resp := Deleted;
    }
  }
}
