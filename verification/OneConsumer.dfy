/** One replica with nothing going wrong, inside the full pipeline: publishes, stream calls and the
    consumer's steps interleave freely, and its fetches cut the stream up anyhow. */
module OneConsumer {
  import opened Base
  import opened Notification
  import opened Pipeline
  import TaskTable
  import NotifierService
  import Hub
  import Tokens

  /** A step with no failed insert, lost ack or crash; a fetch takes the next undelivered messages. */
  predicate Quiet(s: State, a: Step) {
    match a
    case Fetch(_, events) => forall i :: 0 <= i < |events| ==> events[i] == |s.deliveries| + i
    case Handle(_, insert) => insert == Good
    case Ack(_, lost) => !lost
    case Crash(_) => false
    case _ => true
  }

  ghost predicate QuietRun(v: Tokens.Signer, s: State, steps: seq<Step>)
    decreases steps
  {
    steps == [] || (Quiet(s, steps[0]) && QuietRun(v, Apply(v, s, steps[0]), steps[1..]))
  }

  /** How many events the consumer is through with. */
  function Done(s: State): int
    requires |s.replicas| == 1
  {
    |s.deliveries| - |s.replicas[0].batch|
  }

  /** How many events it has put to the database: those, and the one at hand once that is past its insert. */
  function Put(s: State): int
    requires |s.replicas| == 1
  {
    Done(s) + if s.replicas[0].phase == Ready then 0 else 1
  }

  /** The notifications already fanned out: all of them but one that is just stored. */
  function Out(s: State): seq<Row>
    requires |s.replicas| == 1
  {
    if s.replicas[0].phase.MustFan? && s.rows != [] then s.rows[..|s.rows| - 1] else s.rows
  }

  /** The deliveries are the stream's events in order, and the batch is the last stretch of them. */
  ghost predicate InOrder(s: State) {
    && |s.replicas| == 1
    && 0 <= Done(s) <= Put(s) <= |s.deliveries| <= |s.log|
    && (forall d :: 0 <= d < |s.deliveries| ==> s.deliveries[d].event == d)
    && (forall i :: 0 <= i < |s.replicas[0].batch| ==> s.replicas[0].batch[i] == Done(s) + i)
    && (forall e :: 0 <= e < |s.log| ==> (s.log[e].acked <==> e < Done(s)))
  }

  ghost predicate Refines(s: State) {
    && InOrder(s)
    && var rep := s.replicas[0];
       && (rep.phase.MustFan? ==> s.rows != [] && rep.phase.row == |s.rows| - 1)
       && s.rows == NotifierService.RowsFor(s.log[..Put(s)])
       && rep.hub.fanned == NotifierService.BodiesOf(Out(s))
       && rep.processed == |Out(s)|
  }

  lemma {:induction false} RowsForSame(a: seq<Event>, b: seq<Event>)
    requires |a| == |b|
    requires forall i :: 0 <= i < |a| ==> a[i].subject == b[i].subject && a[i].data == b[i].data
    ensures NotifierService.RowsFor(a) == NotifierService.RowsFor(b)
  {
    if a != [] {
      RowsForSame(a[1..], b[1..]);
    }
  }

  function RowIn(e: Event): seq<Row> {
    if e.data.Some? then [RowFor(e.subject, e.data.value)] else []
  }

  lemma {:induction false} RowsForLonger(a: seq<Event>, e: Event)
    ensures NotifierService.RowsFor(a + [e]) == NotifierService.RowsFor(a) + RowIn(e)
  {
    if a != [] {
      assert (a + [e])[1..] == a[1..] + [e];
      RowsForLonger(a[1..], e);
    }
  }

  lemma HttpRefines(v: Tokens.Signer, s: State, a: Step)
    requires Refines(s) && a.Http?
    ensures Refines(DoHttp(v, s, a))
  {
    var s' := DoHttp(v, s, a);
    assert s'.log == s.log && s'.deliveries == s.deliveries && s'.replicas == s.replicas && s'.rows == s.rows;
  }

  lemma PublishInOrder(s: State, c: nat, how: TaskTable.Publishing)
    requires InOrder(s)
    ensures InOrder(DoPublish(s, c, how))
  {
  }

  lemma PublishRefines(s: State, c: nat, how: TaskTable.Publishing)
    requires Refines(s)
    ensures Refines(DoPublish(s, c, how))
  {
    var s' := DoPublish(s, c, how);
    PublishInOrder(s, c, how);
    assert s'.log[..|s.log|] == s.log;
    assert s'.log[..Put(s)] == s.log[..Put(s)];
  }

  lemma FetchInOrder(s: State, r: nat, events: seq<nat>)
    requires InOrder(s) && Quiet(s, Fetch(r, events))
    ensures InOrder(DoFetch(s, r, events))
  {
    if CanFetch(s, r, events) {
      assert events[|events| - 1] < |s.log|;
    }
  }

  lemma FetchRefines(s: State, r: nat, events: seq<nat>)
    requires Refines(s) && Quiet(s, Fetch(r, events))
    ensures Refines(DoFetch(s, r, events))
  {
    FetchInOrder(s, r, events);
  }

  lemma HandleInOrder(s: State, r: nat)
    requires InOrder(s)
    ensures InOrder(DoHandle(s, r, Good))
  {
  }

  lemma HandleRefines(s: State, r: nat)
    requires Refines(s)
    ensures Refines(DoHandle(s, r, Good))
  {
    if Facing(s, r) && s.replicas[r].phase == Ready {
      var k := Done(s);
      var s' := DoHandle(s, r, Good);
      HandleInOrder(s, r);
      assert s.log[..k + 1] == s.log[..k] + [s.log[k]];
      RowsForLonger(s.log[..k], s.log[k]);
      assert s'.rows == s.rows + RowIn(s.log[k]);
      assert Out(s') == s.rows;
    }
  }

  lemma FanRefines(s: State, r: nat)
    requires Refines(s)
    ensures Refines(DoFan(s, r))
  {
    var s' := DoFan(s, r);
    if s' != s {
      assert s.rows == Out(s) + [s.rows[|s.rows| - 1]];
      assert NotifierService.BodiesOf(s.rows) ==
             NotifierService.BodiesOf(Out(s)) + [s.rows[|s.rows| - 1].body];
    }
  }

  lemma AckRefines(s: State, r: nat)
    requires Refines(s)
    ensures Refines(DoAck(s, r, false))
  {
    var s' := DoAck(s, r, false);
    if Facing(s, r) && s.replicas[r].phase == MustAck {
      RowsForSame(s.log[..Put(s)], s'.log[..Put(s)]);
    }
  }

  lemma StreamRefines(s: State, r: nat, act: Hub.Step<string>)
    requires Refines(s)
    ensures Refines(DoStream(s, r, act))
  {
  }

  lemma QuietStep(v: Tokens.Signer, s: State, a: Step)
    requires Refines(s) && Quiet(s, a)
    ensures Refines(Apply(v, s, a))
  {
    match a
    case Http(_, _, _, _) => HttpRefines(v, s, a);
    case Publish(c, how) => PublishRefines(s, c, how);
    case Fetch(r, events) => FetchRefines(s, r, events);
    case Handle(r, _) => HandleRefines(s, r);
    case Fan(r) => FanRefines(s, r);
    case Ack(r, _) => AckRefines(s, r);
    case Crash(_) =>
    case Stream(r, act) => StreamRefines(s, r, act);
  }

  lemma {:induction false} QuietKeeps(v: Tokens.Signer, s: State, steps: seq<Step>)
    requires Refines(s) && QuietRun(v, s, steps)
    ensures Refines(Run(v, s, steps))
    decreases steps
  {
    if steps != [] {
      QuietStep(v, s, steps[0]);
      QuietKeeps(v, Apply(v, s, steps[0]), steps[1..]);
    }
  }

  lemma StartRefines()
    ensures Refines(Init(1))
  {
  }

  /** In every quiet run, at every moment: the notifications are the per-event rows of a prefix of the
      stream, the frames their bodies and the counter their number, and exactly the events behind the
      consumer are acknowledged, wherever batches were cut and whatever was published meanwhile. Once
      nothing is left undelivered and the batch is done, that prefix is the whole stream. */
  lemma BatchesRefineMap(v: Tokens.Signer, steps: seq<Step>)
    requires QuietRun(v, Init(1), steps)
    ensures var s := Run(v, Init(1), steps);
            && Refines(s)
            && (s.replicas[0].batch == [] && |s.deliveries| == |s.log| ==>
                  && s.rows == NotifierService.RowsFor(s.log)
                  && s.replicas[0].hub.fanned == NotifierService.BodiesOf(s.rows)
                  && s.replicas[0].processed == |s.rows|
                  && forall e :: 0 <= e < |s.log| ==> s.log[e].acked)
  {
    assert Refines(Init(1)) by {
      StartRefines();
    }
    QuietKeeps(v, Init(1), steps);
    var s := Run(v, Init(1), steps);
    assert s.log[..|s.log|] == s.log;
  }
}
