/** What the subscribers of a replica get in runs of the whole pipeline. */
module Streams {
  import opened Base
  import TaskTable
  import opened Notification
  import opened Pipeline
  import opened EventSafety
  import Hub
  import Sse
  import Tokens

  // ---------- the hub inside a replica ----------

  /** What step a adds to the hub steps replica r has made since it last started. */
  ghost function Traced(s: State, a: Step, r: nat, trace: seq<Hub.Step<string>>): seq<Hub.Step<string>>
    requires r < |s.replicas|
  {
    match a
    case Crash(q) => if q == r then [] else trace
    case Stream(q, act) => if q == r && !act.Fanout? then trace + [act] else trace
    case Fan(q) =>
      if q == r && Facing(s, r) && s.replicas[r].phase.MustFan? && s.replicas[r].phase.row < |s.rows|
      then trace + [Hub.Fanout(s.rows[s.replicas[r].phase.row].body)]
      else trace
    case _ => trace
  }

  ghost function Trace(v: Tokens.Signer, s: State, steps: seq<Step>, r: nat, trace: seq<Hub.Step<string>>)
    : seq<Hub.Step<string>>
    requires r < |s.replicas|
    decreases steps
  {
    if steps == [] then trace
    else Trace(v, Apply(v, s, steps[0]), steps[1..], r, Traced(s, steps[0], r, trace))
  }

  lemma StepKeepsTrace(v: Tokens.Signer, s: State, a: Step, r: nat, trace: seq<Hub.Step<string>>)
    requires r < |s.replicas|
    requires s.replicas[r].hub == Hub.Run(Hub.Hub([], map[]), trace)
    ensures |Apply(v, s, a).replicas| == |s.replicas|
    ensures Apply(v, s, a).replicas[r].hub == Hub.Run(Hub.Hub([], map[]), Traced(s, a, r, trace))
  {
    match a
    case Stream(_, act) => Hub.RunAppend(Hub.Hub([], map[]), trace, act);
    case Fan(_) =>
      if Traced(s, a, r, trace) != trace {
        Hub.RunAppend(Hub.Hub([], map[]), trace, Hub.Fanout(s.rows[s.replicas[r].phase.row].body));
      }
    case _ =>
  }

  lemma {:induction false} RunKeepsTrace(v: Tokens.Signer, s: State, steps: seq<Step>, r: nat,
                                         trace: seq<Hub.Step<string>>)
    requires r < |s.replicas|
    requires s.replicas[r].hub == Hub.Run(Hub.Hub([], map[]), trace)
    ensures r < |Run(v, s, steps).replicas|
    ensures Run(v, s, steps).replicas[r].hub == Hub.Run(Hub.Hub([], map[]), Trace(v, s, steps, r, trace))
    decreases steps
  {
    if steps != [] {
      StepKeepsTrace(v, s, steps[0], r, trace);
      RunKeepsTrace(v, Apply(v, s, steps[0]), steps[1..], r, Traced(s, steps[0], r, trace));
    }
  }

  /** In every run of the pipeline a replica's subscribers are a run of the hub over its own stream
      steps and fanouts since it last started: registered are exactly the calls entered and not left
      since then, and each is what its own steps and those fanouts make of it. */
  lemma ReplicaIsHubRun(v: Tokens.Signer, replicas: nat, steps: seq<Step>, r: nat, id: nat)
    requires r < replicas
    ensures r < |Reached(v, replicas, steps).replicas|
    ensures var hub := Reached(v, replicas, steps).replicas[r].hub;
            var trace := Trace(v, Init(replicas), steps, r, []);
            && hub == Hub.Run(Hub.Hub([], map[]), trace)
            && (id in hub.subs <==> Hub.EnteredNotLeft(trace, id))
            && Hub.Lookup(hub, id) == Hub.Replay(None, Hub.Project(trace, id))
  {
    RunKeepsTrace(v, Init(replicas), steps, r, []);
    var trace := Trace(v, Init(replicas), steps, r, []);
    var empty: Hub.Hub<string> := Hub.Hub([], map[]);
    Hub.NoLeaks(trace);
    Hub.Independence(empty, trace, id);
  }

  // ---------- what reaches a browser ----------

  lemma WrittenBodiesAreStored(rep: Replica, s: State, id: nat)
    requires ReplicaSound(s, rep) && id in rep.hub.subs
    ensures forall body :: body in Hub.Frames(rep.hub.subs[id].written) ==>
              exists k :: 0 <= k < |s.rows| && s.rows[k].body == body
  {
    var sub := rep.hub.subs[id];
    var at := Hub.SelectPositions(sub.offered, sub.kept);
    var since := |rep.hub.fanned| - |sub.offered|;
    forall body | body in Hub.Frames(sub.written)
      ensures exists k :: 0 <= k < |s.rows| && s.rows[k].body == body
    {
      var i :| 0 <= i < |Hub.Frames(sub.written)| && Hub.Frames(sub.written)[i] == body;
      assert (Hub.Frames(sub.written) + sub.queue)[i] == body;
      assert sub.offered[at[i]] == body;
      assert rep.hub.fanned[since + at[i]] == body;
      assert s.rows[rep.fannedRows[since + at[i]]].body == body;
    }
  }

  /** In every run, on every replica: the processed counter counts the fanouts since the replica
      started; what a stream call wrote and still holds is a subsequence of the bodies of stored
      notifications fanned out since it registered, all of them but the dropped ones; and each of
      those was dropped exactly when sixteen were queued at the step that offered it. */
  lemma StreamsCarryRows(v: Tokens.Signer, replicas: nat, steps: seq<Step>, r: nat, id: nat)
    requires r < |Reached(v, replicas, steps).replicas|
    requires id in Reached(v, replicas, steps).replicas[r].hub.subs
    ensures var s := Reached(v, replicas, steps);
            var rep := s.replicas[r];
            var sub := rep.hub.subs[id];
            && rep.processed == |rep.hub.fanned|
            && Hub.OfferedSince(rep.hub.fanned, sub)
            && Hub.Subsequence(Hub.Frames(sub.written) + sub.queue, sub.offered)
            && |sub.offered| == |Hub.Frames(sub.written)| + |sub.queue| + Hub.Count(sub.kept, false)
            && |sub.queue| <= Hub.CAPACITY
            && (forall body :: body in Hub.Frames(sub.written) ==>
                  exists k :: 0 <= k < |s.rows| && s.rows[k].body == body)
            && forall i: nat :: i < |sub.offered| ==> Hub.OfferAccounted(Trace(v, Init(replicas), steps, r, []), id, i)
  {
    var s := Reached(v, replicas, steps);
    var rep := s.replicas[r];
    assert ReplicaSound(s, rep);
    ReplicaIsHubRun(v, replicas, steps, r, id);
    Hub.DeliveryAccount(Trace(v, Init(replicas), steps, r, []), id);
    WrittenBodiesAreStored(rep, s, id);
  }

  // ---------- a create reaches an open stream ----------

  lemma CreateAndPublish(v: Tokens.Signer, s: State, header: string, now: int, uid: int, name: string)
    requires Tokens.AuthMw(v, header, now) == Some(uid)
    requires name != "" && s.table.nextId <= 9223372036854775807
    ensures var s1 := Apply(v, s, Http(header, now, TaskTable.Create(Some(name)), TaskTable.Up));
            var s2 := Apply(v, s1, Publish(|s.commits|, TaskTable.Stored));
            var row := TaskTable.Task(s.table.nextId, uid, name, false, now);
            && s2.log == s.log + [Event("tasks.created", Some(row), |s.commits|, false)]
            && s2.deliveries == s.deliveries && s2.rows == s.rows && s2.replicas == s.replicas
  {
  }

  lemma FetchOne(v: Tokens.Signer, s: State, r: nat, e: nat)
    requires r < |s.replicas| && s.replicas[r].batch == [] && e < |s.log| && !s.log[e].acked
    ensures Apply(v, s, Fetch(r, [e]))
         == s.(deliveries := s.deliveries + [Delivery(e, Waiting, false)],
               replicas := s.replicas[r := s.replicas[r].(batch := [|s.deliveries|], phase := Ready)])
  {
    assert CanFetch(s, r, [e]);
    var n := |s.deliveries|;
    assert seq(|[e]|, i => n + i) == [n];
    assert seq(|[e]|, i requires 0 <= i < |[e]| => Delivery([e][i], Waiting, false)) == [Delivery(e, Waiting, false)];
  }

  lemma HandleAndFan(v: Tokens.Signer, s: State, r: nat, e: nat, t: TaskTable.Task)
    requires r < |s.replicas| && e < |s.log| && s.log[e].data == Some(t)
    requires |s.deliveries| > 0 && s.deliveries[|s.deliveries| - 1] == Delivery(e, Waiting, false)
    requires s.replicas[r].batch == [|s.deliveries| - 1] && s.replicas[r].phase == Ready
    ensures var body := "event=" + s.log[e].subject + " task=" + t.name;
            var s2 := Apply(v, Apply(v, s, Handle(r, Good)), Fan(r));
            && s2.rows == s.rows + [Row(t.userId, s.log[e].subject, body)]
            && r < |s2.replicas|
            && s2.replicas[r].processed == s.replicas[r].processed + 1
            && s2.replicas[r].hub == Hub.Apply(s.replicas[r].hub, Hub.Fanout(body))
  {
    var s1 := Apply(v, s, Handle(r, Good));
    assert s1.rows[|s.rows|].body == Body(s.log[e].subject, t.name);
  }

  lemma CreatedText(name: string)
    ensures "event=" + "tasks.created" + " task=" + name == "event=tasks.created task=" + name
  {
    assert "event=" + "tasks.created" + " task=" == "event=tasks.created task=";
  }

  /** The state once the create is published, delivered and fanned out. */
  lemma CreateIsFanned(v: Tokens.Signer, s: State, header: string, now: int, uid: int, name: string, r: nat)
    requires Tokens.AuthMw(v, header, now) == Some(uid)
    requires name != "" && s.table.nextId <= 9223372036854775807
    requires r < |s.replicas| && s.replicas[r].batch == []
    ensures var s' := Run(v, s, [Http(header, now, TaskTable.Create(Some(name)), TaskTable.Up),
                                 Publish(|s.commits|, TaskTable.Stored), Fetch(r, [|s.log|]),
                                 Handle(r, Good), Fan(r)]);
            var body := "event=tasks.created task=" + name;
            && s'.rows == s.rows + [Row(uid, "tasks.created", body)]
            && r < |s'.replicas|
            && s'.replicas[r].hub == Hub.Apply(s.replicas[r].hub, Hub.Fanout(body))
  {
    var a, b := Http(header, now, TaskTable.Create(Some(name)), TaskTable.Up), Publish(|s.commits|, TaskTable.Stored);
    var e := |s.log|;
    CreatedText(name);
    CreateAndPublish(v, s, header, now, uid, name);
    var s2 := Apply(v, Apply(v, s, a), b);
    FetchOne(v, s2, r, e);
    HandleAndFan(v, Apply(v, s2, Fetch(r, [e])), r, e, TaskTable.Task(s.table.nextId, uid, name, false, now));
    RunFive(v, s, a, b, Fetch(r, [e]), Handle(r, Good), Fan(r));
  }

  lemma FannedThenDrained(h: Hub.Hub<string>, id: nat, body: string)
    requires id in h.subs && h.subs[id].queue == []
    ensures var h' := Hub.Apply(Hub.Apply(h, Hub.Fanout(body)), Hub.Drain(id));
            id in h'.subs && h'.subs[id].written == h.subs[id].written + [Hub.Frame(body)]
  {
  }

  /** From any state: an authenticated create, its publish, one delivery to a replica, and a receive by a
      stream call open there with nothing queued: the notification is stored, and the call has written
      exactly its text. */
  lemma CreateReachesStream(v: Tokens.Signer, s: State, header: string, now: int, uid: int, name: string,
                            r: nat, id: nat)
    requires Tokens.AuthMw(v, header, now) == Some(uid)
    requires name != "" && s.table.nextId <= 9223372036854775807
    requires r < |s.replicas| && s.replicas[r].batch == []
    requires id in s.replicas[r].hub.subs && s.replicas[r].hub.subs[id].queue == []
    ensures var body := "event=tasks.created task=" + name;
            var s' := Run(v, s, [Http(header, now, TaskTable.Create(Some(name)), TaskTable.Up),
                                 Publish(|s.commits|, TaskTable.Stored), Fetch(r, [|s.log|]),
                                 Handle(r, Good), Fan(r)] + [Stream(r, Hub.Drain(id))]);
            && s'.rows == s.rows + [Row(uid, "tasks.created", body)]
            && r < |s'.replicas| && id in s'.replicas[r].hub.subs
            && s'.replicas[r].hub.subs[id].written == s.replicas[r].hub.subs[id].written + [Hub.Frame(body)]
  {
    CreateIsFanned(v, s, header, now, uid, name, r);
    FannedThenDrained(s.replicas[r].hub, id, "event=tasks.created task=" + name);
    RunSnoc(v, s, [Http(header, now, TaskTable.Create(Some(name)), TaskTable.Up),
                   Publish(|s.commits|, TaskTable.Stored), Fetch(r, [|s.log|]),
                   Handle(r, Good), Fan(r)], Stream(r, Hub.Drain(id)));
  }

  /** The task name in the commit behind notification k. */
  ghost function NameBehind(v: Tokens.Signer, s: State, k: nat): string
    requires RowsSound(s) && LogSound(s) && k < |s.rows|
  {
    s.commits[s.log[s.deliveries[s.sources[k]].event].origin].row.name
  }

  lemma StoredBodyOneLine(v: Tokens.Signer, s: State, k: nat)
    requires CommitsSound(v, s) && RowsSound(s) && LogSound(s) && k < |s.rows|
    ensures OneLine(s.rows[k].body) <==> OneLine(NameBehind(v, s, k))
  {
    var com := s.commits[s.log[s.deliveries[s.sources[k]].event].origin];
    assert OneLine("tasks.created") && OneLine("tasks.updated");
    BodyOneLine(com.subject, com.row.name);
  }

  /** In every run a browser decodes exactly the bodies its stream call wrote, in order, if and only
      if every notification among them was made from a task name without line breaks. */
  lemma BrowserSeesBodies(v: Tokens.Signer, replicas: nat, steps: seq<Step>, r: nat, id: nat)
    requires r < |Reached(v, replicas, steps).replicas|
    requires id in Reached(v, replicas, steps).replicas[r].hub.subs
    ensures var s := Reached(v, replicas, steps);
            var written := s.replicas[r].hub.subs[id].written;
            Sse.Decode(Sse.Wire(written)) == Hub.Frames(written) <==>
            forall k :: 0 <= k < |s.rows| && s.rows[k].body in Hub.Frames(written) ==> OneLine(NameBehind(v, s, k))
  {
    var s := Reached(v, replicas, steps);
    var written := s.replicas[r].hub.subs[id].written;
    StreamsCarryRows(v, replicas, steps, r, id);
    Sse.RoundTrip(written);
    forall k | 0 <= k < |s.rows|
      ensures OneLine(s.rows[k].body) <==> OneLine(NameBehind(v, s, k))
    {
      StoredBodyOneLine(v, s, k);
    }
    if forall k :: 0 <= k < |s.rows| && s.rows[k].body in Hub.Frames(written) ==> OneLine(NameBehind(v, s, k)) {
      forall body | body in Hub.Frames(written)
        ensures OneLine(body)
      {
        var k :| 0 <= k < |s.rows| && s.rows[k].body == body;
      }
    }
  }
}
