/** Where notifications come from, and that events are handed off at least once, in every run. */
module EventSafety {
  import opened Base
  import TaskTable
  import TasksService
  import opened Notification
  import opened Pipeline
  import Tokens

  lemma {:induction false} ReplicasStay(v: Tokens.Signer, s: State, steps: seq<Step>)
    ensures |Run(v, s, steps).replicas| == |s.replicas|
    decreases steps
  {
    if steps != [] {
      ReplicasStay(v, Apply(v, s, steps[0]), steps[1..]);
    }
  }

  ghost function Reached(v: Tokens.Signer, replicas: nat, steps: seq<Step>): (s: State)
    ensures Inv(v, s) && |s.replicas| == replicas
  {
    InitInv(v, replicas);
    ReplicasStay(v, Init(replicas), steps);
    RunKeepsInv(v, Init(replicas), steps);
    Run(v, Init(replicas), steps)
  }

  lemma RunCons(v: Tokens.Signer, s: State, a: Step, rest: seq<Step>)
    ensures Run(v, s, [a] + rest) == Run(v, Apply(v, s, a), rest)
  {
  }

  lemma {:induction false} RunSnoc(v: Tokens.Signer, s: State, steps: seq<Step>, last: Step)
    ensures Run(v, s, steps + [last]) == Apply(v, Run(v, s, steps), last)
    decreases steps
  {
    if steps == [] {
      assert [] + [last] == [last] && [last][1..] == [];
    } else {
      assert (steps + [last])[1..] == steps[1..] + [last];
      RunSnoc(v, Apply(v, s, steps[0]), steps[1..], last);
    }
  }

  // ---------- where notifications come from ----------

  /** Notification k goes back through its delivery and event to commit c. */
  ghost predicate Traces(s: State, k: nat, e: nat, c: nat) {
    && k < |s.sources| && s.sources[k] < |s.deliveries|
    && s.deliveries[s.sources[k]].event == e
    && e < |s.log|
    && s.log[e].origin == c
    && c < |s.commits|
  }

  /** Distinct events come from distinct commits, and distinct notifications from distinct deliveries. */
  lemma OriginsDistinct(v: Tokens.Signer, replicas: nat, steps: seq<Step>)
    ensures var s := Reached(v, replicas, steps);
            && (forall e, f :: 0 <= e < f < |s.log| ==> s.log[e].origin != s.log[f].origin)
            && |s.sources| == |s.rows|
            && (forall j, k :: 0 <= j < k < |s.rows| ==> s.sources[j] != s.sources[k])
  {
  }

  /** The request passes authMW and is answered with a created or updated row. */
  predicate WritesRow(v: Tokens.Signer, s: State, a: Step)
    requires a.Http?
  {
    match Tokens.AuthMw(v, a.header, a.now)
    case None => false
    case Some(uid) => var resp := TaskTable.Exec(s.table, uid, a.now, a.req, a.db).1; resp.Created? || resp.Updated?
  }

  /** A commit is recorded exactly for an authenticated create or update that succeeds, with the row
      as the table then holds it. */
  lemma CommitRecordsRow(v: Tokens.Signer, s: State, a: Step)
    requires a.Http? && TaskTable.WellFormed(s.table)
    ensures WritesRow(v, s, a) <==> Apply(v, s, a).commits != s.commits
    ensures var s' := Apply(v, s, a);
            s'.commits == s.commits ||
            exists com: Commit ::
              && s'.commits == s.commits + [com]
              && com.fate == Pending
              && Tokens.AuthMw(v, a.header, a.now) == Some(com.uid)
              && TaskTable.Owns(s'.table.rows, com.uid, com.row.id)
              && s'.table.rows[com.row.id] == com.row
              && (com.subject == "tasks.created" <==> a.req.Create?)
  {
  }

  /** The row is what the request asked for: for a create a new one with the given name, for an update
      the one it names with the given fields set and the others as they were. */
  ghost predicate AsAsked(before: TaskTable.Table, a: Step, uid: int, row: TaskTable.Task)
    requires a.Http?
  {
    && (a.req.Create? ==>
          a.req.body.Some? && row == TaskTable.Task(before.nextId, uid, a.req.body.value, false, a.now))
    && (a.req.Update? ==>
          && a.req.patch.Some? && TaskTable.NamesId(a.req.idText, row.id)
          && row.id in before.rows
          && var was := before.rows[row.id];
             && row.userId == was.userId == uid && row.createdAt == was.createdAt
             && row.name == (if a.req.patch.value.name.Some? then a.req.patch.value.name.value else was.name)
             && row.done == (if a.req.patch.value.done.Some? then a.req.patch.value.done.value else was.done))
    && (a.req.Create? || a.req.Update?)
  }

  /** Step i of the run is the request behind the c-th commit: an Http step with the commit's header
      and time, passed by authMW with the commit's uid and answered with a written row, which is as
      the request asked and which the table held right after it. */
  ghost predicate MadeBy(v: Tokens.Signer, s: State, steps: seq<Step>, c: nat, com: Commit, i: nat) {
    && i < |steps|
    && var before, a := Run(v, s, steps[..i]), steps[i];
       && |before.commits| == c
       && a.Http? && a.header == com.header && a.now == com.at
       && Tokens.AuthMw(v, a.header, a.now) == Some(com.uid)
       && WritesRow(v, before, a)
       && AsAsked(before.table, a, com.uid, com.row)
       && (com.subject == "tasks.created" <==> a.req.Create?)
       && var rows := Run(v, s, steps[..i + 1]).table.rows;
          TaskTable.Owns(rows, com.uid, com.row.id) && rows[com.row.id] == com.row
  }

  /** Commits are only added, and of one that is there only the fate changes. */
  lemma CommitsStay(v: Tokens.Signer, s: State, a: Step)
    ensures var s' := Apply(v, s, a);
            && |s.commits| <= |s'.commits|
            && forall c :: 0 <= c < |s.commits| ==> s'.commits[c] == s.commits[c].(fate := s'.commits[c].fate)
  {
  }

  lemma WrittenAsAsked(v: Tokens.Signer, s: State, a: Step)
    requires TaskTable.WellFormed(s.table) && a.Http? && WritesRow(v, s, a)
    ensures Tokens.AuthMw(v, a.header, a.now).Some?
    ensures |Apply(v, s, a).commits| == |s.commits| + 1
    ensures AsAsked(s.table, a, Tokens.AuthMw(v, a.header, a.now).value, Apply(v, s, a).commits[|s.commits|].row)
  {
    var uid := Tokens.AuthMw(v, a.header, a.now).value;
    match a.req {
      case Create(body) => TaskTable.CreateIs(s.table, uid, a.now, body, a.db);
      case Update(idText, patch) =>
        TaskTable.ReadId(idText);
        TaskTable.UpdateIs(s.table, uid, a.now, idText, patch, a.db);
      case _ =>
    }
  }

  lemma MadeNow(v: Tokens.Signer, s: State, steps: seq<Step>, a: Step, c: nat)
    requires Inv(v, Run(v, s, steps))
    requires |Run(v, s, steps).commits| <= c < |Run(v, s, steps + [a]).commits|
    ensures MadeBy(v, s, steps + [a], c, Run(v, s, steps + [a]).commits[c], |steps|)
  {
    RunSnoc(v, s, steps, a);
    assert (steps + [a])[..|steps|] == steps;
    assert (steps + [a])[..|steps| + 1] == steps + [a];
    if a.Http? {
      CommitRecordsRow(v, Run(v, s, steps), a);
      WrittenAsAsked(v, Run(v, s, steps), a);
    }
  }

  lemma {:induction false} CommitHappened(v: Tokens.Signer, s: State, steps: seq<Step>, c: nat) returns (i: nat)
    requires Inv(v, s)
    requires |s.commits| <= c < |Run(v, s, steps).commits|
    ensures MadeBy(v, s, steps, c, Run(v, s, steps).commits[c], i)
    decreases |steps|
  {
    var m := |steps| - 1;
    assert steps == steps[..m] + [steps[m]];
    var before := Run(v, s, steps[..m]);
    RunSnoc(v, s, steps[..m], steps[m]);
    RunKeepsInv(v, s, steps[..m]);
    CommitsStay(v, before, steps[m]);
    if c < |before.commits| {
      i := CommitHappened(v, s, steps[..m], c);
      assert steps[..m][..i] == steps[..i] && steps[..m][..i + 1] == steps[..i + 1];
    } else {
      i := m;
      MadeNow(v, s, steps[..m], steps[m], c);
    }
  }

  /** In every run each notification traces to exactly one stored event and one commit, and that to a
      step of the run: an authenticated request after which the table held the row the event carries.
      The notification is addressed to the uid authMW read from that request. */
  lemma Provenance(v: Tokens.Signer, replicas: nat, steps: seq<Step>, k: nat)
    requires k < |Reached(v, replicas, steps).rows|
    ensures var s := Reached(v, replicas, steps);
            exists e: nat, c: nat, i: nat ::
              && Traces(s, k, e, c)
              && MadeBy(v, Init(replicas), steps, c, s.commits[c], i)
              && s.log[e].data == Some(s.commits[c].row)
              && s.log[e].subject == s.commits[c].subject
              && s.rows[k] == Row(s.commits[c].uid, s.commits[c].subject,
                                  Body(s.commits[c].subject, s.commits[c].row.name))
  {
    var s := Reached(v, replicas, steps);
    var e := s.deliveries[s.sources[k]].event;
    var c := s.log[e].origin;
    assert Traces(s, k, e, c);
    InitInv(v, replicas);
    var i := CommitHappened(v, Init(replicas), steps, c);
  }

  // ---------- the table inside the pipeline ----------

  /** The requests of a run that got past authMW, as the table sees them. */
  ghost function Calls(v: Tokens.Signer, steps: seq<Step>): seq<TaskTable.Call> {
    if steps == [] then []
    else
      var rest := Calls(v, steps[1..]);
      match steps[0]
      case Http(header, now, req, db) =>
        (match Tokens.AuthMw(v, header, now)
         case None => rest
         case Some(uid) => [TaskTable.Call(uid, now, req, db)] + rest)
      case _ => rest
  }

  /** Nothing but those requests touches the tasks table, so every property of request sequences
      holds of the table in every run of the pipeline. */
  lemma {:induction false} TableIsRunOfCalls(v: Tokens.Signer, s: State, steps: seq<Step>)
    ensures Run(v, s, steps).table == TaskTable.Run(s.table, Calls(v, steps)).0
    decreases steps
  {
    if steps != [] {
      TableIsRunOfCalls(v, Apply(v, s, steps[0]), steps[1..]);
      var rest := Calls(v, steps[1..]);
      if steps[0].Http? && Tokens.AuthMw(v, steps[0].header, steps[0].now).Some? {
        assert Calls(v, steps)[1..] == rest;
      } else {
        assert Calls(v, steps) == rest;
      }
    }
  }

  function Published(log: seq<Event>): seq<TasksService.Message> {
    seq(|log|, i requires 0 <= i < |log| => TasksService.Message(log[i].subject, log[i].data))
  }

  /** The handlers and the pipeline agree: an authenticated request and the publish of the commit it
      may make leave the table and the stream as the handler leaves its table and its stream. */
  lemma HandlersMatchPipeline(v: Tokens.Signer, s: State, a: Step, how: TaskTable.Publishing)
    requires a.Http? && Tokens.AuthMw(v, a.header, a.now).Some?
    ensures var uid := Tokens.AuthMw(v, a.header, a.now).value;
            var (table, resp) := TaskTable.Exec(s.table, uid, a.now, a.req, a.db);
            var s' := Apply(v, Apply(v, s, a), Publish(|s.commits|, how));
            && s'.table == table
            && Published(s'.log) == Published(s.log) + TasksService.Announced(resp, how)
            && TasksService.Announced(resp, how) ==
                 (if how.Gone? || !(resp.Created? || resp.Updated?) then []
                  else [TasksService.Message(if resp.Created? then "tasks.created" else "tasks.updated",
                                             if how.Stored? then Some(resp.task) else None)])
  {
    var s' := Apply(v, Apply(v, s, a), Publish(|s.commits|, how));
    if s'.log != s.log {
      assert s'.log[..|s.log|] == s.log;
    }
  }

  // ---------- hand-off at least once ----------

  /** An acknowledged event has had a handle call that returned. */
  lemma AckedWasHandled(v: Tokens.Signer, replicas: nat, steps: seq<Step>, e: nat)
    requires e < |Reached(v, replicas, steps).log| && Reached(v, replicas, steps).log[e].acked
    ensures HandedOff(Reached(v, replicas, steps), e)
  {
  }

  /** The five steps in which a replica that just crashed takes an event up again. */
  function Redelivery(r: nat, e: nat): seq<Step> {
    [Crash(r), Fetch(r, [e]), Handle(r, Good), Fan(r), Ack(r, false)]
  }

  lemma RunFive(v: Tokens.Signer, s: State, a: Step, b: Step, c: Step, d: Step, f: Step)
    ensures Run(v, s, [a, b, c, d, f]) == Apply(v, Apply(v, Apply(v, Apply(v, Apply(v, s, a), b), c), d), f)
  {
    var s1 := Apply(v, s, a);
    var s2 := Apply(v, s1, b);
    var s3 := Apply(v, s2, c);
    var s4 := Apply(v, s3, d);
    assert [a, b, c, d, f] == [a] + ([b] + ([c] + ([d] + ([f] + []))));
    RunCons(v, s, a, [b] + ([c] + ([d] + ([f] + []))));
    RunCons(v, s1, b, [c] + ([d] + ([f] + [])));
    RunCons(v, s2, c, [d] + ([f] + []));
    RunCons(v, s3, d, [f] + []);
    RunCons(v, s4, f, []);
  }

  /** A replica that has just restarted and fetched e alone faces a fresh delivery of it. */
  ghost predicate FreshlyFetched(s: State, s2: State, r: nat, e: nat) {
    && r < |s.replicas| && e < |s.log|
    && s2 == s.(deliveries := s.deliveries + [Delivery(e, Waiting, false)],
                replicas := s.replicas[r := FreshReplica().(batch := [|s.deliveries|])])
  }

  lemma CrashAndFetch(v: Tokens.Signer, s: State, r: nat, e: nat)
    requires r < |s.replicas| && e < |s.log| && !s.log[e].acked
    ensures FreshlyFetched(s, Apply(v, Apply(v, s, Crash(r)), Fetch(r, [e])), r, e)
  {
    var s1 := Apply(v, s, Crash(r));
    assert CanFetch(s1, r, [e]);
    var n := |s.deliveries|;
    assert seq(|[e]|, i => n + i) == [n];
    assert seq(|[e]|, i requires 0 <= i < |[e]| => Delivery([e][i], Waiting, false)) == [Delivery(e, Waiting, false)];
    assert s1.replicas[r := FreshReplica().(batch := [n])] == s.replicas[r := FreshReplica().(batch := [n])];
  }

  lemma HandleFanAck(v: Tokens.Signer, s: State, s2: State, r: nat, e: nat)
    requires FreshlyFetched(s, s2, r, e)
    ensures var s' := Apply(v, Apply(v, Apply(v, s2, Handle(r, Good)), Fan(r)), Ack(r, false));
            && s'.log == s.log[e := s.log[e].(acked := true)]
            && s'.rows == s.rows + (if s.log[e].data.Some? then [RowFor(s.log[e].subject, s.log[e].data.value)] else [])
            && |s'.replicas| == |s.replicas| && s'.replicas[r].batch == []
            && s'.commits == s.commits && s'.table == s.table
  {
  }

  /** No unacknowledged event is ever stuck: from every reachable state, whatever its earlier
      consumers did, any replica can crash, fetch it again, and bring it to an acknowledgement, with
      a new notification when it decodes. */
  lemma UnackedCanBeRedelivered(v: Tokens.Signer, replicas: nat, steps: seq<Step>, e: nat, r: nat)
    requires r < |Reached(v, replicas, steps).replicas|
    requires e < |Reached(v, replicas, steps).log| && !Reached(v, replicas, steps).log[e].acked
    ensures var s := Reached(v, replicas, steps);
            var s' := Run(v, s, Redelivery(r, e));
            && s'.log == s.log[e := s.log[e].(acked := true)]
            && s'.rows == s.rows + (if s.log[e].data.Some? then [RowFor(s.log[e].subject, s.log[e].data.value)] else [])
            && |s'.replicas| == |s.replicas| && s'.replicas[r].batch == []
            && s'.commits == s.commits && s'.table == s.table
  {
    var s := Reached(v, replicas, steps);
    RunFive(v, s, Crash(r), Fetch(r, [e]), Handle(r, Good), Fan(r), Ack(r, false));
    CrashAndFetch(v, s, r, e);
    HandleFanAck(v, s, Apply(v, Apply(v, s, Crash(r)), Fetch(r, [e])), r, e);
  }

  // ---------- how many notifications an event gets ----------

  function RowsOf(s: State, e: nat): set<nat>
    requires |s.sources| == |s.rows|
    requires forall k :: 0 <= k < |s.sources| ==> s.sources[k] < |s.deliveries|
  {
    set k: nat | k < |s.rows| && s.deliveries[s.sources[k]].event == e
  }

  function DeliveriesOf(s: State, e: nat): set<nat> {
    set d: nat | d < |s.deliveries| && s.deliveries[d].event == e
  }

  function WrittenDeliveriesOf(s: State, e: nat): set<nat> {
    set d: nat | d < |s.deliveries| && s.deliveries[d].event == e && s.deliveries[d].verdict.Inserted?
  }

  lemma {:induction false} InjectionBound(xs: set<nat>, ys: set<nat>, f: seq<nat>)
    requires forall x :: x in xs ==> x < |f| && f[x] in ys
    requires forall x, y :: x in xs && y in xs && x != y ==> f[x] != f[y]
    ensures |xs| <= |ys|
  {
    if xs != {} {
      if forall x :: x !in xs {
        assert false;
      }
      var x :| x in xs;
      InjectionBound(xs - {x}, ys - {f[x]}, f);
    }
  }

  lemma RowsFitDeliveries(v: Tokens.Signer, s: State, e: nat)
    requires Inv(v, s)
    ensures |RowsOf(s, e)| <= |WrittenDeliveriesOf(s, e)|
  {
    forall x | x in RowsOf(s, e)
      ensures s.deliveries[s.sources[x]].verdict == Inserted(x)
    {
    }
    InjectionBound(RowsOf(s, e), WrittenDeliveriesOf(s, e), s.sources);
  }

  lemma DeliveriesFitRows(v: Tokens.Signer, s: State, e: nat)
    requires Inv(v, s)
    ensures |WrittenDeliveriesOf(s, e)| <= |RowsOf(s, e)|
  {
    var back := seq(|s.deliveries|, d requires 0 <= d < |s.deliveries| =>
                      if s.deliveries[d].verdict.Inserted? then s.deliveries[d].verdict.row else 0);
    forall d | d in WrittenDeliveriesOf(s, e)
      ensures back[d] == s.deliveries[d].verdict.row && s.sources[back[d]] == d
    {
    }
    InjectionBound(WrittenDeliveriesOf(s, e), RowsOf(s, e), back);
  }

  /** The notifications of an event are as many as its deliveries whose insert took effect: at most
      one per delivery, whatever was retried. */
  lemma RowsPerEvent(v: Tokens.Signer, replicas: nat, steps: seq<Step>, e: nat)
    ensures var s := Reached(v, replicas, steps);
            && |RowsOf(s, e)| == |WrittenDeliveriesOf(s, e)|
            && |RowsOf(s, e)| <= |DeliveriesOf(s, e)|
  {
    var s := Reached(v, replicas, steps);
    RowsFitDeliveries(v, s, e);
    DeliveriesFitRows(v, s, e);
    SubsetSize(WrittenDeliveriesOf(s, e), DeliveriesOf(s, e));
  }

  lemma SubsetSize(xs: set<nat>, ys: set<nat>)
    requires xs <= ys
    ensures |xs| <= |ys|
  {
    assert ys == xs + (ys - xs);
    assert |xs + (ys - xs)| == |xs| + |ys - xs|;
  }
}
