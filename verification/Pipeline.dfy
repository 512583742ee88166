/** The task-event pipeline as a transition system: tasks-svc handlers commit a row and publish it
    in a second step; replicas of notifier-svc share one durable consumer, and for each delivery
    insert a notification, fan it out, and acknowledge it. Steps of different parties interleave
    freely; publishes and acknowledgements get lost, inserts fail, replicas crash. */
module Pipeline {
  import opened Base
  import opened TaskTable
  import opened Notification
  import Hub
  import Tokens

  const BATCH: nat := 10

  /** What became of the publish that follows a commit. */
  datatype Fate = Pending | Announced(event: nat) | Dropped

  /** History: a create or update, the request behind it, and the row as it left it. */
  datatype Commit = Commit(header: string, at: int, uid: int, subject: string, row: Task, fate: Fate)

  /** A stored message. `data` of None does not decode. `origin` (the commit) is history. */
  datatype Event = Event(subject: string, data: Option<Task>, origin: nat, acked: bool)

  /** How far one delivery of an event got. `handled`: handle has returned. */
  datatype Verdict = Waiting | Inserted(row: nat) | Refused | Skipped
  datatype Delivery = Delivery(event: nat, verdict: Verdict, handled: bool)

  /** Where a replica stands with the first delivery of its batch. */
  datatype Phase = Ready | MustFan(row: nat) | MustAck

  /** `fannedRows` (the rows behind the hub's fanouts) is history. */
  datatype Replica = Replica(batch: seq<nat>, phase: Phase, processed: nat, hub: Hub.Hub<string>, fannedRows: seq<nat>)

  /** `sources` (the delivery behind each notification row) is history. */
  datatype State = State(
    table: Table,
    commits: seq<Commit>,
    log: seq<Event>,
    deliveries: seq<Delivery>,
    rows: seq<Row>,
    sources: seq<nat>,
    replicas: seq<Replica>)

  /** How an insert ends; an error may hide a row that was written after all. */
  datatype Insert = Good | Error(written: bool)

  datatype Step =
    | Http(header: string, now: int, req: Request, db: Db)
    | Publish(commit: nat, how: Publishing)
    | Fetch(replica: nat, events: seq<nat>)
    | Handle(replica: nat, insert: Insert)
    | Fan(replica: nat)
    | Ack(replica: nat, lost: bool)
    | Crash(replica: nat)
    | Stream(replica: nat, act: Hub.Step<string>)

  function FreshReplica(): Replica {
    Replica([], Ready, 0, Hub.Hub([], map[]), [])
  }

  function Init(replicas: nat): State {
    State(Table(map[], 1), [], [], [], [], [], seq(replicas, i => FreshReplica()))
  }

  // ---------- steps; one that is not enabled changes nothing ----------

  function Subject(resp: Response): string {
    if resp.Created? then "tasks.created" else "tasks.updated"
  }

  function DoHttp(v: Tokens.Signer, s: State, a: Step): State
    requires a.Http?
  {
    match Tokens.AuthMw(v, a.header, a.now)
    case None => s
    case Some(uid) =>
      var (t, resp) := Exec(s.table, uid, a.now, a.req, a.db);
      var s1 := s.(table := t);
      if resp.Created? || resp.Updated?
      then s1.(commits := s.commits + [Commit(a.header, a.now, uid, Subject(resp), resp.task, Pending)])
      else s1
  }

  function DoPublish(s: State, c: nat, how: Publishing): State {
    if c >= |s.commits| || s.commits[c].fate != Pending then s
    else
      var com := s.commits[c];
      if how.Gone? then s.(commits := s.commits[c := com.(fate := Dropped)])
      else
        s.(commits := s.commits[c := com.(fate := Announced(|s.log|))],
           log := s.log + [Event(com.subject, if how.Stored? then Some(com.row) else None, c, false)])
  }

  /** Up to ten messages that are not acknowledged yet, redeliveries included. */
  predicate CanFetch(s: State, r: nat, events: seq<nat>) {
    && r < |s.replicas|
    && s.replicas[r].batch == []
    && 0 < |events| <= BATCH
    && forall i :: 0 <= i < |events| ==> events[i] < |s.log| && !s.log[events[i]].acked
  }

  function DoFetch(s: State, r: nat, events: seq<nat>): State {
    if !CanFetch(s, r, events) then s
    else
      var n := |s.deliveries|;
      var fetched := seq(|events|, i requires 0 <= i < |events| => Delivery(events[i], Waiting, false));
      s.(deliveries := s.deliveries + fetched,
         replicas := s.replicas[r := s.replicas[r].(batch := seq(|events|, i => n + i), phase := Ready)])
  }

  /** The replica is at the given phase of the first delivery in its batch. */
  predicate Facing(s: State, r: nat) {
    r < |s.replicas| && s.replicas[r].batch != []
    && s.replicas[r].batch[0] < |s.deliveries|
    && s.deliveries[s.replicas[r].batch[0]].event < |s.log|
  }

  function DoHandle(s: State, r: nat, insert: Insert): State {
    if !Facing(s, r) || s.replicas[r].phase != Ready then s
    else
      var rep := s.replicas[r];
      var d := rep.batch[0];
      var del := s.deliveries[d];
      var e := s.log[del.event];
      if e.data.None? then
        s.(deliveries := s.deliveries[d := Delivery(del.event, Skipped, true)],
           replicas := s.replicas[r := rep.(phase := MustAck)])
      else if insert == Error(false) then
        s.(deliveries := s.deliveries[d := Delivery(del.event, Refused, true)],
           replicas := s.replicas[r := rep.(phase := MustAck)])
      else
        s.(deliveries := s.deliveries[d := Delivery(del.event, Inserted(|s.rows|), insert.Error?)],
           rows := s.rows + [RowFor(e.subject, e.data.value)],
           sources := s.sources + [d],
           replicas := s.replicas[r := rep.(phase := if insert.Good? then MustFan(|s.rows|) else MustAck)])
  }

  function DoFan(s: State, r: nat): State {
    if !Facing(s, r) || !s.replicas[r].phase.MustFan? || s.replicas[r].phase.row >= |s.rows| then s
    else
      var rep := s.replicas[r];
      var d := rep.batch[0];
      var k := rep.phase.row;
      s.(deliveries := s.deliveries[d := s.deliveries[d].(handled := true)],
         replicas := s.replicas[r := rep.(phase := MustAck,
                                          processed := rep.processed + 1,
                                          hub := Hub.Apply(rep.hub, Hub.Fanout(s.rows[k].body)),
                                          fannedRows := rep.fannedRows + [k])])
  }

  function DoAck(s: State, r: nat, lost: bool): State {
    if !Facing(s, r) || s.replicas[r].phase != MustAck then s
    else
      var rep := s.replicas[r];
      var e := s.deliveries[rep.batch[0]].event;
      s.(log := if lost then s.log else s.log[e := s.log[e].(acked := true)],
         replicas := s.replicas[r := rep.(batch := rep.batch[1..], phase := Ready)])
  }

  /** Everything a replica holds in memory goes; it starts over. */
  function DoCrash(s: State, r: nat): State {
    if r < |s.replicas| then s.(replicas := s.replicas[r := FreshReplica()]) else s
  }

  function DoStream(s: State, r: nat, act: Hub.Step<string>): State {
    if r >= |s.replicas| || act.Fanout? then s
    else s.(replicas := s.replicas[r := s.replicas[r].(hub := Hub.Apply(s.replicas[r].hub, act))])
  }

  function Apply(v: Tokens.Signer, s: State, a: Step): State {
    match a
    case Http(_, _, _, _) => DoHttp(v, s, a)
    case Publish(c, how) => DoPublish(s, c, how)
    case Fetch(r, events) => DoFetch(s, r, events)
    case Handle(r, insert) => DoHandle(s, r, insert)
    case Fan(r) => DoFan(s, r)
    case Ack(r, lost) => DoAck(s, r, lost)
    case Crash(r) => DoCrash(s, r)
    case Stream(r, act) => DoStream(s, r, act)
  }

  function Run(v: Tokens.Signer, s: State, steps: seq<Step>): State
    decreases steps
  {
    if steps == [] then s else Run(v, Apply(v, s, steps[0]), steps[1..])
  }

  // ---------- the invariant ----------

  ghost predicate CommitsSound(v: Tokens.Signer, s: State) {
    forall c :: 0 <= c < |s.commits| ==>
      var com := s.commits[c];
      && Tokens.AuthMw(v, com.header, com.at) == Some(com.uid)
      && com.row.userId == com.uid
      && (com.subject == "tasks.created" || com.subject == "tasks.updated")
      && (com.fate.Announced? ==> com.fate.event < |s.log| && s.log[com.fate.event].origin == c)
  }

  ghost predicate LogSound(s: State) {
    forall e :: 0 <= e < |s.log| ==>
      var ev := s.log[e];
      && ev.origin < |s.commits|
      && s.commits[ev.origin].fate == Announced(e)
      && ev.subject == s.commits[ev.origin].subject
      && (ev.data.Some? ==> ev.data.value == s.commits[ev.origin].row)
  }

  /** Some handle call for event e has returned. */
  ghost predicate HandedOff(s: State, e: nat) {
    exists d :: 0 <= d < |s.deliveries| && s.deliveries[d].event == e && s.deliveries[d].handled
  }

  ghost predicate AcksSound(s: State) {
    forall e :: 0 <= e < |s.log| && s.log[e].acked ==> HandedOff(s, e)
  }

  ghost predicate DeliveriesSound(s: State) {
    forall d :: 0 <= d < |s.deliveries| ==>
      var del := s.deliveries[d];
      && del.event < |s.log|
      && (del.verdict.Skipped? <==> del.handled && s.log[del.event].data.None?)
      && (del.handled ==> !del.verdict.Waiting?)
      && (del.verdict.Refused? ==> del.handled)
      && (del.verdict.Inserted? ==> del.verdict.row < |s.sources| && s.sources[del.verdict.row] == d)
  }

  ghost predicate RowsSound(s: State) {
    && |s.sources| == |s.rows|
    && forall k :: 0 <= k < |s.rows| ==>
         && s.sources[k] < |s.deliveries|
         && var del := s.deliveries[s.sources[k]];
         && del.verdict == Inserted(k)
         && del.event < |s.log|
         && s.log[del.event].data.Some?
         && s.rows[k] == RowFor(s.log[del.event].subject, s.log[del.event].data.value)
  }

  /** A replica's memory: its batch is of at most ten known deliveries, each once; the first one is as far along
      as the phase says and the others have not been touched; the counter counts the fanouts; every
      fanned frame is the body of a stored row. */
  ghost predicate ReplicaSound(s: State, rep: Replica) {
    && |rep.batch| <= 10
    && (forall i :: 0 <= i < |rep.batch| ==> rep.batch[i] < |s.deliveries|)
    && (forall i, j :: 0 <= i < j < |rep.batch| ==> rep.batch[i] != rep.batch[j])
    && (forall i :: 0 <= i < |rep.batch| && (i > 0 || rep.phase == Ready) ==>
          s.deliveries[rep.batch[i]].verdict == Waiting)
    && (rep.phase != Ready ==> rep.batch != [])
    && (rep.phase == MustAck ==> s.deliveries[rep.batch[0]].handled)
    && (rep.phase.MustFan? ==>
          && s.deliveries[rep.batch[0]].verdict == Inserted(rep.phase.row)
          && !s.deliveries[rep.batch[0]].handled)
    && rep.processed == |rep.fannedRows|
    && |rep.hub.fanned| == |rep.fannedRows|
    && (forall i :: 0 <= i < |rep.fannedRows| ==>
          rep.fannedRows[i] < |s.rows| && rep.hub.fanned[i] == s.rows[rep.fannedRows[i]].body)
    && Hub.Sound(rep.hub)
  }

  /** No delivery is in the hands of two replicas. */
  ghost predicate BatchesApart(s: State) {
    forall p, q :: 0 <= p < |s.replicas| && 0 <= q < |s.replicas| && p != q ==>
      forall i, j :: 0 <= i < |s.replicas[p].batch| && 0 <= j < |s.replicas[q].batch| ==>
        s.replicas[p].batch[i] != s.replicas[q].batch[j]
  }

  ghost predicate ReplicasSound(s: State) {
    forall r :: 0 <= r < |s.replicas| ==> ReplicaSound(s, s.replicas[r])
  }

  ghost predicate Inv(v: Tokens.Signer, s: State) {
    && TaskTable.WellFormed(s.table)
    && CommitsSound(v, s)
    && LogSound(s)
    && AcksSound(s)
    && DeliveriesSound(s)
    && RowsSound(s)
    && ReplicasSound(s)
    && BatchesApart(s)
  }

  lemma InitInv(v: Tokens.Signer, replicas: nat)
    ensures Inv(v, Init(replicas))
  {
  }

  // ---------- what a step does not touch ----------

  /** Deliveries keep their event, and a handled one stays handled. */
  ghost predicate DeliveriesGrow(s: State, s': State) {
    && |s.deliveries| <= |s'.deliveries|
    && forall d :: 0 <= d < |s.deliveries| ==>
         && s'.deliveries[d].event == s.deliveries[d].event
         && (s.deliveries[d].handled ==> s'.deliveries[d].handled)
  }

  lemma AcksStay(s: State, s': State)
    requires AcksSound(s) && DeliveriesGrow(s, s')
    requires |s.log| <= |s'.log|
    requires forall e :: 0 <= e < |s'.log| && s'.log[e].acked ==>
               (e < |s.log| && s.log[e].acked) || HandedOff(s', e)
    ensures AcksSound(s')
  {
  }

  /** From s to s' only replica r changed, and of the old deliveries only d, which no other replica
      holds; notification rows were at most added. */
  ghost predicate Local(s: State, s': State, r: nat, d: nat) {
    && |s'.replicas| == |s.replicas|
    && (forall q :: 0 <= q < |s.replicas| && q != r ==> s'.replicas[q] == s.replicas[q])
    && |s.deliveries| <= |s'.deliveries|
    && (forall i :: 0 <= i < |s.deliveries| && i != d ==> s'.deliveries[i] == s.deliveries[i])
    && (forall q, i :: 0 <= q < |s.replicas| && q != r && 0 <= i < |s.replicas[q].batch| ==>
          s.replicas[q].batch[i] != d)
    && |s.rows| <= |s'.rows|
    && (forall k :: 0 <= k < |s.rows| ==> s'.rows[k] == s.rows[k])
  }

  lemma OthersKeep(s: State, s': State, r: nat, d: nat)
    requires ReplicasSound(s) && Local(s, s', r, d)
    requires r < |s.replicas| ==> ReplicaSound(s', s'.replicas[r])
    ensures ReplicasSound(s')
  {
  }

  /** A step that leaves deliveries, rows and replicas alone. */
  lemma ReplicasUnmoved(s: State, s': State)
    requires ReplicasSound(s)
    requires s'.deliveries == s.deliveries && s'.rows == s.rows && s'.replicas == s.replicas
    ensures ReplicasSound(s')
  {
  }

  // ---------- every step keeps the invariant ----------

  lemma HttpKeeps(v: Tokens.Signer, s: State, a: Step)
    requires Inv(v, s) && a.Http?
    ensures Inv(v, DoHttp(v, s, a))
  {
    var s' := DoHttp(v, s, a);
    var auth := Tokens.AuthMw(v, a.header, a.now);
    if auth.Some? {
      TaskTable.ExecKeepsWellFormed(s.table, Call(auth.value, a.now, a.req, a.db));
    }
    AcksStay(s, s');
    ReplicasUnmoved(s, s');
  }

  lemma PublishKeeps(v: Tokens.Signer, s: State, c: nat, how: Publishing)
    requires Inv(v, s)
    ensures Inv(v, DoPublish(s, c, how))
  {
    var s' := DoPublish(s, c, how);
    AcksStay(s, s');
    ReplicasUnmoved(s, s');
  }

  lemma FetchKeepsReplica(s: State, r: nat, events: seq<nat>)
    requires ReplicasSound(s) && CanFetch(s, r, events)
    ensures ReplicaSound(DoFetch(s, r, events), DoFetch(s, r, events).replicas[r])
  {
  }

  lemma FetchKeeps(v: Tokens.Signer, s: State, r: nat, events: seq<nat>)
    requires Inv(v, s)
    ensures Inv(v, DoFetch(s, r, events))
  {
    var s' := DoFetch(s, r, events);
    if CanFetch(s, r, events) {
      AcksStay(s, s');
      FetchKeepsReplica(s, r, events);
      OthersKeep(s, s', r, |s.deliveries|);
    }
  }

  lemma HandleKeepsLog(v: Tokens.Signer, s: State, r: nat, insert: Insert)
    requires CommitsSound(v, s) && LogSound(s)
    ensures CommitsSound(v, DoHandle(s, r, insert)) && LogSound(DoHandle(s, r, insert))
  {
  }

  lemma HandleKeepsDeliveries(s: State, r: nat, insert: Insert)
    requires DeliveriesSound(s) && RowsSound(s) && ReplicasSound(s)
    requires Facing(s, r) && s.replicas[r].phase == Ready
    ensures DeliveriesSound(DoHandle(s, r, insert))
  {
  }

  lemma HandleKeepsRows(s: State, r: nat, insert: Insert)
    requires DeliveriesSound(s) && RowsSound(s) && ReplicasSound(s)
    requires Facing(s, r) && s.replicas[r].phase == Ready
    ensures RowsSound(DoHandle(s, r, insert))
  {
  }

  lemma HandleKeepsReplica(s: State, r: nat, insert: Insert)
    requires ReplicasSound(s) && Facing(s, r) && s.replicas[r].phase == Ready
    ensures ReplicaSound(DoHandle(s, r, insert), DoHandle(s, r, insert).replicas[r])
  {
  }

  lemma HandleKeeps(v: Tokens.Signer, s: State, r: nat, insert: Insert)
    requires Inv(v, s)
    ensures Inv(v, DoHandle(s, r, insert))
  {
    if Facing(s, r) && s.replicas[r].phase == Ready {
      HandleKeepsLog(v, s, r, insert);
      HandleKeepsDeliveries(s, r, insert);
      HandleKeepsRows(s, r, insert);
      HandleKeepsReplica(s, r, insert);
      HandleKeepsRest(s, r, insert);
    }
  }

  lemma HandleKeepsRest(s: State, r: nat, insert: Insert)
    requires DeliveriesSound(s) && AcksSound(s) && ReplicasSound(s) && BatchesApart(s)
    requires Facing(s, r) && s.replicas[r].phase == Ready
    requires ReplicaSound(DoHandle(s, r, insert), DoHandle(s, r, insert).replicas[r])
    ensures var s' := DoHandle(s, r, insert);
            AcksSound(s') && ReplicasSound(s') && BatchesApart(s')
  {
    var s' := DoHandle(s, r, insert);
    assert ReplicaSound(s, s.replicas[r]);
    AcksStay(s, s');
    OthersKeep(s, s', r, s.replicas[r].batch[0]);
  }

  lemma FanKeepsReplica(s: State, r: nat)
    requires ReplicasSound(s) && Facing(s, r) && s.replicas[r].phase.MustFan?
    requires s.replicas[r].phase.row < |s.rows|
    ensures ReplicaSound(DoFan(s, r), DoFan(s, r).replicas[r])
  {
    var rep := s.replicas[r];
    assert ReplicaSound(s, rep);
    Hub.ApplyKeepsSound(rep.hub, Hub.Fanout(s.rows[rep.phase.row].body));
  }

  lemma FanKeeps(v: Tokens.Signer, s: State, r: nat)
    requires Inv(v, s)
    ensures Inv(v, DoFan(s, r))
  {
    var s' := DoFan(s, r);
    if s' != s {
      assert ReplicaSound(s, s.replicas[r]);
      AcksStay(s, s');
      FanKeepsReplica(s, r);
      OthersKeep(s, s', r, s.replicas[r].batch[0]);
    }
  }

  lemma AckKeepsReplica(s: State, r: nat, lost: bool)
    requires ReplicasSound(s) && Facing(s, r) && s.replicas[r].phase == MustAck
    ensures ReplicaSound(DoAck(s, r, lost), DoAck(s, r, lost).replicas[r])
  {
  }

  lemma AckKeepsReplicas(s: State, r: nat, lost: bool)
    requires ReplicasSound(s) && BatchesApart(s)
    requires Facing(s, r) && s.replicas[r].phase == MustAck
    ensures ReplicasSound(DoAck(s, r, lost)) && BatchesApart(DoAck(s, r, lost))
  {
    var s' := DoAck(s, r, lost);
    assert ReplicaSound(s, s.replicas[r]);
    AckKeepsReplica(s, r, lost);
    OthersKeep(s, s', r, |s.deliveries|);
  }

  lemma AckKeeps(v: Tokens.Signer, s: State, r: nat, lost: bool)
    requires Inv(v, s)
    ensures Inv(v, DoAck(s, r, lost))
  {
    var s' := DoAck(s, r, lost);
    if Facing(s, r) && s.replicas[r].phase == MustAck {
      assert ReplicaSound(s, s.replicas[r]);
      assert HandedOff(s', s.deliveries[s.replicas[r].batch[0]].event);
      AcksStay(s, s');
      AckKeepsReplicas(s, r, lost);
    }
  }

  lemma CrashKeeps(v: Tokens.Signer, s: State, r: nat)
    requires Inv(v, s)
    ensures Inv(v, DoCrash(s, r))
  {
  }

  lemma StreamKeeps(v: Tokens.Signer, s: State, r: nat, act: Hub.Step<string>)
    requires Inv(v, s)
    ensures Inv(v, DoStream(s, r, act))
  {
    var s' := DoStream(s, r, act);
    AcksStay(s, s');
    if r < |s.replicas| && !act.Fanout? {
      StreamKeepsReplica(s, r, act);
      OthersKeep(s, s', r, |s.deliveries|);
    }
  }

  lemma StreamKeepsReplica(s: State, r: nat, act: Hub.Step<string>)
    requires ReplicasSound(s) && r < |s.replicas| && !act.Fanout?
    ensures ReplicaSound(DoStream(s, r, act), DoStream(s, r, act).replicas[r])
  {
    assert ReplicaSound(s, s.replicas[r]);
    Hub.ApplyKeepsSound(s.replicas[r].hub, act);
  }

  lemma ApplyKeepsInv(v: Tokens.Signer, s: State, a: Step)
    requires Inv(v, s)
    ensures Inv(v, Apply(v, s, a))
  {
    match a
    case Http(_, _, _, _) => HttpKeeps(v, s, a);
    case Publish(c, how) => PublishKeeps(v, s, c, how);
    case Fetch(r, events) => FetchKeeps(v, s, r, events);
    case Handle(r, insert) => HandleKeeps(v, s, r, insert);
    case Fan(r) => FanKeeps(v, s, r);
    case Ack(r, lost) => AckKeeps(v, s, r, lost);
    case Crash(r) => CrashKeeps(v, s, r);
    case Stream(r, act) => StreamKeeps(v, s, r, act);
  }

  /** The invariant holds in every reachable state. */
  lemma {:induction false} RunKeepsInv(v: Tokens.Signer, s: State, steps: seq<Step>)
    requires Inv(v, s)
    ensures Inv(v, Run(v, s, steps))
    decreases steps
  {
    if steps != [] {
      ApplyKeepsInv(v, s, steps[0]);
      RunKeepsInv(v, Apply(v, s, steps[0]), steps[1..]);
    }
  }
}
