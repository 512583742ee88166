/** When a notification or an event is lost, exactly, and that a loss is final. */
module Losses {
  import opened Base
  import TaskTable
  import opened Notification
  import opened Pipeline
  import opened EventSafety
  import Tokens

  // ---------- events that are lost after all ----------

  ghost predicate HasRow(s: State, e: nat) {
    exists k :: 0 <= k < |s.sources| && s.sources[k] < |s.deliveries| && s.deliveries[s.sources[k]].event == e
  }

  /** Step a is a handle call for event e. */
  predicate Handles(s: State, a: Step, e: nat) {
    && a.Handle? && Facing(s, a.replica) && s.replicas[a.replica].phase == Ready
    && s.deliveries[s.replicas[a.replica].batch[0]].event == e
  }

  /** Step a is a handle call for e that decodes it and whose insert takes effect. */
  predicate Writes(s: State, a: Step, e: nat) {
    Handles(s, a, e) && s.log[e].data.Some? && a.insert != Error(false)
  }

  ghost predicate SomeHandle(v: Tokens.Signer, s: State, steps: seq<Step>, e: nat)
    decreases steps
  {
    steps != [] && (Handles(s, steps[0], e) || SomeHandle(v, Apply(v, s, steps[0]), steps[1..], e))
  }

  ghost predicate SomeWrite(v: Tokens.Signer, s: State, steps: seq<Step>, e: nat)
    decreases steps
  {
    steps != [] && (Writes(s, steps[0], e) || SomeWrite(v, Apply(v, s, steps[0]), steps[1..], e))
  }

  /** Every handle call for e in the run meets a failing insert. */
  ghost predicate EveryInsertFails(v: Tokens.Signer, s: State, steps: seq<Step>, e: nat)
    decreases steps
  {
    steps == [] || (&& (Handles(s, steps[0], e) ==> steps[0].insert == Error(false))
                    && EveryInsertFails(v, Apply(v, s, steps[0]), steps[1..], e))
  }

  ghost predicate Touched(s: State, e: nat) {
    exists d :: 0 <= d < |s.deliveries| && s.deliveries[d].event == e && !s.deliveries[d].verdict.Waiting?
  }

  lemma HandleRows(s: State, r: nat, insert: Insert, e: nat)
    requires ReplicasSound(s) && RowsSound(s)
    ensures var a, s' := Handle(r, insert), DoHandle(s, r, insert);
            && (HasRow(s', e) <==> HasRow(s, e) || Writes(s, a, e))
            && (Touched(s', e) <==> Touched(s, e) || Handles(s, a, e))
  {
    var s' := DoHandle(s, r, insert);
    if Facing(s, r) && s.replicas[r].phase == Ready {
      var d := s.replicas[r].batch[0];
      assert forall x :: 0 <= x < |s.deliveries| && x != d ==> s'.deliveries[x] == s.deliveries[x];
      assert s'.deliveries[d].event == s.deliveries[d].event && !s'.deliveries[d].verdict.Waiting?;
      if Writes(s, Handle(r, insert), e) {
        assert s'.sources[|s.sources|] == d;
      }
      forall k | 0 <= k < |s.sources|
        ensures s'.sources[k] == s.sources[k] && s'.deliveries[s.sources[k]].event == s.deliveries[s.sources[k]].event
      {
      }
    }
  }

  lemma OtherRows(v: Tokens.Signer, s: State, a: Step, e: nat)
    requires RowsSound(s) && !a.Handle?
    ensures HasRow(Apply(v, s, a), e) <==> HasRow(s, e)
  {
  }

  lemma OtherTouches(v: Tokens.Signer, s: State, a: Step, e: nat)
    requires !a.Handle? && !a.Fetch?
    ensures Touched(Apply(v, s, a), e) <==> Touched(s, e)
  {
    var s' := Apply(v, s, a);
    assert |s'.deliveries| == |s.deliveries|;
    assert forall d :: 0 <= d < |s.deliveries| ==>
        s'.deliveries[d].event == s.deliveries[d].event && s'.deliveries[d].verdict == s.deliveries[d].verdict;
  }

  lemma FetchTouches(s: State, r: nat, events: seq<nat>, e: nat)
    ensures Touched(DoFetch(s, r, events), e) <==> Touched(s, e)
  {
    var s' := DoFetch(s, r, events);
    assert forall d :: 0 <= d < |s.deliveries| ==> s'.deliveries[d] == s.deliveries[d];
    assert forall d :: |s.deliveries| <= d < |s'.deliveries| ==> s'.deliveries[d].verdict == Waiting;
  }

  lemma RowsByStep(v: Tokens.Signer, s: State, a: Step, e: nat)
    requires Inv(v, s)
    ensures HasRow(Apply(v, s, a), e) <==> HasRow(s, e) || Writes(s, a, e)
    ensures Touched(Apply(v, s, a), e) <==> Touched(s, e) || Handles(s, a, e)
  {
    match a {
      case Handle(r, insert) => HandleRows(s, r, insert, e);
      case Fetch(r, events) =>
        FetchTouches(s, r, events, e);
        OtherRows(v, s, a, e);
      case _ =>
        OtherTouches(v, s, a, e);
        OtherRows(v, s, a, e);
    }
  }

  /** From any sound state: an event gets a notification exactly by a handle call of the run that
      decodes it and whose insert takes effect, and is touched exactly by a handle call. */
  lemma {:induction false} RowIffWritten(v: Tokens.Signer, s: State, steps: seq<Step>, e: nat)
    requires Inv(v, s)
    ensures HasRow(Run(v, s, steps), e) <==> HasRow(s, e) || SomeWrite(v, s, steps, e)
    ensures Touched(Run(v, s, steps), e) <==> Touched(s, e) || SomeHandle(v, s, steps, e)
    decreases steps
  {
    if steps != [] {
      ApplyKeepsInv(v, s, steps[0]);
      RowsByStep(v, s, steps[0], e);
      RowIffWritten(v, Apply(v, s, steps[0]), steps[1..], e);
    }
  }

  /** Stored messages never change. */
  lemma PayloadsStay(v: Tokens.Signer, s: State, a: Step)
    ensures var s' := Apply(v, s, a);
            && |s.log| <= |s'.log|
            && forall e :: 0 <= e < |s.log| ==>
                 s'.log[e].data == s.log[e].data && s'.log[e].subject == s.log[e].subject
                 && s'.log[e].origin == s.log[e].origin
  {
  }

  lemma {:induction false} RunPayloadsStay(v: Tokens.Signer, s: State, steps: seq<Step>, e: nat)
    requires e < |s.log|
    ensures e < |Run(v, s, steps).log| && Run(v, s, steps).log[e].data == s.log[e].data
    decreases steps
  {
    if steps != [] {
      PayloadsStay(v, s, steps[0]);
      RunPayloadsStay(v, Apply(v, s, steps[0]), steps[1..], e);
    }
  }

  lemma {:induction false} WriteOrFail(v: Tokens.Signer, s: State, steps: seq<Step>, e: nat)
    requires e < |Run(v, s, steps).log| && Run(v, s, steps).log[e].data.Some?
    ensures EveryInsertFails(v, s, steps, e) <==> !SomeWrite(v, s, steps, e)
    decreases steps
  {
    if steps != [] {
      if Handles(s, steps[0], e) {
        RunPayloadsStay(v, s, steps, e);
      }
      WriteOrFail(v, Apply(v, s, steps[0]), steps[1..], e);
    }
  }

  /** handle's error path returns to the loop, which acknowledges. So an acknowledged event that
      decodes, for which the run then has at least one handle call, is without a notification exactly
      when the insert failed in every one of them. */
  lemma AckedWithoutRow(v: Tokens.Signer, replicas: nat, steps: seq<Step>, e: nat)
    requires e < |Reached(v, replicas, steps).log|
    requires Reached(v, replicas, steps).log[e].acked && Reached(v, replicas, steps).log[e].data.Some?
    ensures SomeHandle(v, Init(replicas), steps, e)
    ensures !HasRow(Reached(v, replicas, steps), e) <==> EveryInsertFails(v, Init(replicas), steps, e)
  {
    var s := Reached(v, replicas, steps);
    InitInv(v, replicas);
    RowIffWritten(v, Init(replicas), steps, e);
    WriteOrFail(v, Init(replicas), steps, e);
    assert HandedOff(s, e);
    var d :| 0 <= d < |s.deliveries| && s.deliveries[d].event == e && s.deliveries[d].handled;
    assert !s.deliveries[d].verdict.Waiting?;
  }

  lemma {:induction false} NoFailingHandle(v: Tokens.Signer, s: State, steps: seq<Step>, e: nat)
    requires forall i :: 0 <= i < |steps| ==> !(steps[i].Handle? && steps[i].insert == Error(false))
    requires SomeHandle(v, s, steps, e)
    ensures !EveryInsertFails(v, s, steps, e)
    decreases steps
  {
    assert !(steps[0].Handle? && steps[0].insert == Error(false));
    if !Handles(s, steps[0], e) {
      NoFailingHandle(v, Apply(v, s, steps[0]), steps[1..], e);
    }
  }

  /** In a run in which no insert fails, every acknowledged event that decodes has a notification. */
  lemma NoFailureNoLoss(v: Tokens.Signer, replicas: nat, steps: seq<Step>, e: nat)
    requires forall i :: 0 <= i < |steps| ==> !(steps[i].Handle? && steps[i].insert == Error(false))
    requires e < |Reached(v, replicas, steps).log|
    requires Reached(v, replicas, steps).log[e].acked && Reached(v, replicas, steps).log[e].data.Some?
    ensures HasRow(Reached(v, replicas, steps), e)
  {
    AckedWithoutRow(v, replicas, steps, e);
    NoFailingHandle(v, Init(replicas), steps, e);
  }

  /** Step a acknowledges event e. */
  predicate Acknowledges(s: State, a: Step, e: nat) {
    && a.Ack? && !a.lost
    && Facing(s, a.replica) && s.replicas[a.replica].phase == MustAck
    && s.deliveries[s.replicas[a.replica].batch[0]].event == e
  }

  ghost predicate SomeAck(v: Tokens.Signer, s: State, steps: seq<Step>, e: nat)
    decreases steps
  {
    steps != [] && (Acknowledges(s, steps[0], e) || SomeAck(v, Apply(v, s, steps[0]), steps[1..], e))
  }

  lemma LogOnlyGrows(v: Tokens.Signer, s: State, a: Step)
    ensures |s.log| <= |Apply(v, s, a).log|
    ensures forall e :: 0 <= e < |Apply(v, s, a).log| ==>
              (Apply(v, s, a).log[e].acked <==> (e < |s.log| && s.log[e].acked) || Acknowledges(s, a, e))
  {
  }

  /** An event is acknowledged exactly when some replica reached the end of handling it and that
      acknowledgement was not lost: a lost one leaves the event to be delivered again. */
  lemma {:induction false} AckedExactlyByAcks(v: Tokens.Signer, s: State, steps: seq<Step>, e: nat)
    requires e < |Run(v, s, steps).log|
    ensures Run(v, s, steps).log[e].acked <==> (e < |s.log| && s.log[e].acked) || SomeAck(v, s, steps, e)
    decreases steps
  {
    if steps != [] {
      LogOnlyGrows(v, s, steps[0]);
      AckedExactlyByAcks(v, Apply(v, s, steps[0]), steps[1..], e);
      if Acknowledges(s, steps[0], e) {
        assert e < |s.log|;
      }
    }
  }

  // ---------- nothing fails, nothing is lost ----------

  /** A step at which neither a publish nor an insert fails. */
  predicate Smooth(a: Step) {
    (a.Publish? ==> a.how == TaskTable.Stored) && (a.Handle? ==> a.insert != Error(false))
  }

  ghost predicate NothingDropped(s: State) {
    && (forall c :: 0 <= c < |s.commits| ==> s.commits[c].fate != Dropped)
    && (forall e :: 0 <= e < |s.log| ==> s.log[e].data.Some?)
  }

  lemma SmoothStep(v: Tokens.Signer, s: State, a: Step)
    requires NothingDropped(s) && Smooth(a)
    ensures NothingDropped(Apply(v, s, a))
  {
  }

  lemma {:induction false} SmoothRun(v: Tokens.Signer, s: State, steps: seq<Step>)
    requires NothingDropped(s) && forall i :: 0 <= i < |steps| ==> Smooth(steps[i])
    ensures NothingDropped(Run(v, s, steps))
    decreases steps
  {
    if steps != [] {
      SmoothStep(v, s, steps[0]);
      SmoothRun(v, Apply(v, s, steps[0]), steps[1..]);
    }
  }

  /** End to end: in any run without failed publishes and inserts, with any crashes, lost acks and
      redeliveries, a commit whose publish is done has an event, and once that event is acknowledged
      there is a notification of the commit's row, subject and owner. */
  lemma EveryCommitIsNotified(v: Tokens.Signer, replicas: nat, steps: seq<Step>, c: nat)
    requires forall i :: 0 <= i < |steps| ==> Smooth(steps[i])
    requires c < |Reached(v, replicas, steps).commits|
    requires Reached(v, replicas, steps).commits[c].fate != Pending
    ensures var s := Reached(v, replicas, steps);
            var com := s.commits[c];
            && com.fate.Announced? && com.fate.event < |s.log|
            && (s.log[com.fate.event].acked ==>
                  exists k: nat :: k < |s.rows| && Traces(s, k, com.fate.event, c)
                                   && s.rows[k] == Row(com.uid, com.subject, Body(com.subject, com.row.name)))
  {
    var s := Reached(v, replicas, steps);
    SmoothRun(v, Init(replicas), steps);
    var e := s.commits[c].fate.event;
    if s.log[e].acked {
      NoFailureNoLoss(v, replicas, steps, e);
      var k :| 0 <= k < |s.sources| && s.sources[k] < |s.deliveries| && s.deliveries[s.sources[k]].event == e;
      assert Traces(s, k, e, c);
    }
  }

  // ---------- losses are final ----------

  /** Acknowledged, and every delivery of it is past its insert: no replica can look at e again. */
  ghost predicate Settled(s: State, e: nat) {
    && e < |s.log| && s.log[e].acked
    && forall d :: 0 <= d < |s.deliveries| && s.deliveries[d].event == e ==> !s.deliveries[d].verdict.Waiting?
  }

  /** A step adds no row for e and takes none away. */
  ghost predicate SameRowsFor(s: State, s': State, e: nat) {
    && |s.sources| <= |s'.sources|
    && |s.deliveries| <= |s'.deliveries|
    && (forall k :: 0 <= k < |s.sources| ==> s'.sources[k] == s.sources[k])
    && (forall d :: 0 <= d < |s.deliveries| ==> s'.deliveries[d].event == s.deliveries[d].event)
    && (forall k :: |s.sources| <= k < |s'.sources| ==>
          s'.sources[k] < |s'.deliveries| && s'.deliveries[s'.sources[k]].event != e)
  }

  lemma SameRowsSameVerdict(v: Tokens.Signer, s: State, s': State, e: nat)
    requires Inv(v, s) && SameRowsFor(s, s', e)
    ensures HasRow(s', e) <==> HasRow(s, e)
  {
  }

  lemma SettledHandle(s: State, r: nat, insert: Insert, e: nat)
    requires ReplicasSound(s) && Settled(s, e)
    ensures Settled(DoHandle(s, r, insert), e) && SameRowsFor(s, DoHandle(s, r, insert), e)
  {
  }

  lemma SettledFetch(s: State, r: nat, events: seq<nat>, e: nat)
    requires Settled(s, e)
    ensures Settled(DoFetch(s, r, events), e) && SameRowsFor(s, DoFetch(s, r, events), e)
  {
  }

  lemma SettledFanAck(s: State, r: nat, lost: bool, e: nat)
    requires Settled(s, e)
    ensures Settled(DoFan(s, r), e) && SameRowsFor(s, DoFan(s, r), e)
    ensures Settled(DoAck(s, r, lost), e) && SameRowsFor(s, DoAck(s, r, lost), e)
  {
  }

  lemma SettledOther(v: Tokens.Signer, s: State, a: Step, e: nat)
    requires Settled(s, e)
    requires a.Http? || a.Publish? || a.Crash? || a.Stream?
    ensures Settled(Apply(v, s, a), e) && SameRowsFor(s, Apply(v, s, a), e)
  {
  }

  lemma SettledStep(v: Tokens.Signer, s: State, a: Step, e: nat)
    requires Inv(v, s) && Settled(s, e)
    ensures Settled(Apply(v, s, a), e)
    ensures HasRow(Apply(v, s, a), e) <==> HasRow(s, e)
  {
    match a {
      case Fetch(r, events) => SettledFetch(s, r, events, e);
      case Handle(r, insert) => SettledHandle(s, r, insert, e);
      case Fan(r) => SettledFanAck(s, r, false, e);
      case Ack(r, lost) => SettledFanAck(s, r, lost, e);
      case _ => SettledOther(v, s, a, e);
    }
    SameRowsSameVerdict(v, s, Apply(v, s, a), e);
  }

  /** A loss is final: once settled without a notification, an event never gets one, whatever the
      system does from there. */
  lemma {:induction false} SettledIsFinal(v: Tokens.Signer, s: State, steps: seq<Step>, e: nat)
    requires Inv(v, s) && Settled(s, e)
    ensures Settled(Run(v, s, steps), e)
    ensures HasRow(Run(v, s, steps), e) <==> HasRow(s, e)
    decreases steps
  {
    if steps != [] {
      ApplyKeepsInv(v, s, steps[0]);
      SettledStep(v, s, steps[0], e);
      SettledIsFinal(v, Apply(v, s, steps[0]), steps[1..], e);
    }
  }

  /** The table and history after one accepted create in a new system. */
  lemma FirstCreate(v: Tokens.Signer, header: string, now: int, uid: int)
    requires Tokens.AuthMw(v, header, now) == Some(uid)
    ensures var row := TaskTable.Task(1, uid, "a", false, now);
            Apply(v, Init(1), Http(header, now, TaskTable.Create(Some("a")), TaskTable.Up))
            == Init(1).(table := TaskTable.Table(map[1 := row], 2),
                        commits := [Commit(header, now, uid, "tasks.created", row, Pending)])
  {
  }

  /** A create that is committed, published, delivered, and acknowledged over a failed insert. */
  lemma FailedInsertExample(v: Tokens.Signer, header: string, now: int, uid: int)
    requires Tokens.AuthMw(v, header, now) == Some(uid)
    ensures var s := Reached(v, 1, [Http(header, now, TaskTable.Create(Some("a")), TaskTable.Up),
                                    Publish(0, TaskTable.Stored), Fetch(0, [0]), Handle(0, Error(false)),
                                    Ack(0, false)]);
            Settled(s, 0) && s.log[0].data.Some? && !HasRow(s, 0)
  {
    var s0 := Init(1);
    var a := Http(header, now, TaskTable.Create(Some("a")), TaskTable.Up);
    FirstCreate(v, header, now, uid);
    RunFive(v, s0, a, Publish(0, TaskTable.Stored), Fetch(0, [0]), Handle(0, Error(false)), Ack(0, false));
    AckOverFailure(v, Apply(v, Apply(v, s0, a), Publish(0, TaskTable.Stored)));
  }

  lemma AckOverFailure(v: Tokens.Signer, s: State)
    requires |s.log| == 1 && s.log[0].data.Some? && !s.log[0].acked
    requires s.deliveries == [] && s.sources == [] && s.replicas == [FreshReplica()]
    ensures var s' := Apply(v, Apply(v, Apply(v, s, Fetch(0, [0])), Handle(0, Error(false))), Ack(0, false));
            Settled(s', 0) && s'.log[0].data.Some? && !HasRow(s', 0)
  {
  }

  // ---------- commits that are never announced ----------

  ghost predicate HasEvent(s: State, c: nat) {
    exists e :: 0 <= e < |s.log| && s.log[e].origin == c
  }

  /** Step a is the publish that belongs to commit c, and the stream stores the message. */
  predicate Publishes(s: State, a: Step, c: nat) {
    a.Publish? && a.commit == c && a.how != TaskTable.Gone && c < |s.commits| && s.commits[c].fate == Pending
  }

  ghost predicate SomePublish(v: Tokens.Signer, s: State, steps: seq<Step>, c: nat)
    decreases steps
  {
    steps != [] && (Publishes(s, steps[0], c) || SomePublish(v, Apply(v, s, steps[0]), steps[1..], c))
  }

  lemma EventsByStep(v: Tokens.Signer, s: State, a: Step, c: nat)
    ensures HasEvent(Apply(v, s, a), c) <==> HasEvent(s, c) || Publishes(s, a, c)
  {
    var s' := Apply(v, s, a);
    PayloadsStay(v, s, a);
    if Publishes(s, a, c) {
      assert s'.log[|s.log|].origin == c;
    }
    if HasEvent(s, c) {
      var e :| 0 <= e < |s.log| && s.log[e].origin == c;
      assert s'.log[e].origin == c;
    }
  }

  lemma {:induction false} RunEvents(v: Tokens.Signer, s: State, steps: seq<Step>, c: nat)
    ensures HasEvent(Run(v, s, steps), c) <==> HasEvent(s, c) || SomePublish(v, s, steps, c)
    decreases steps
  {
    if steps != [] {
      EventsByStep(v, s, steps[0], c);
      RunEvents(v, Apply(v, s, steps[0]), steps[1..], c);
    }
  }

  /** In every run a commit has an event in the stream exactly when the run holds its publish and the
      stream stored it; and it never has two. */
  lemma EventIffPublished(v: Tokens.Signer, replicas: nat, steps: seq<Step>, c: nat)
    ensures var s := Reached(v, replicas, steps);
            && (HasEvent(s, c) <==> SomePublish(v, Init(replicas), steps, c))
            && forall e, f :: 0 <= e < |s.log| && 0 <= f < |s.log| && s.log[e].origin == s.log[f].origin == c ==> e == f
  {
    RunEvents(v, Init(replicas), steps, c);
  }

  lemma DroppedStays(v: Tokens.Signer, s: State, a: Step, c: nat)
    requires c < |s.commits| && s.commits[c].fate == Dropped
    ensures c < |Apply(v, s, a).commits| && Apply(v, s, a).commits[c] == s.commits[c]
  {
  }

  lemma DroppedHasNoEvent(v: Tokens.Signer, s: State, c: nat)
    requires Inv(v, s) && c < |s.commits| && s.commits[c].fate == Dropped
    ensures forall e :: 0 <= e < |s.log| ==> s.log[e].origin != c
    ensures forall k: nat, e: nat :: !Traces(s, k, e, c)
  {
  }

  /** A publish that failed is never made up for: in every continuation the commit has no event, and
      so no notification, although the row it wrote stands. */
  lemma {:induction false} LostPublishIsFinal(v: Tokens.Signer, s: State, steps: seq<Step>, c: nat)
    requires Inv(v, s) && c < |s.commits| && s.commits[c].fate == Dropped
    ensures var s' := Run(v, s, steps);
            && c < |s'.commits| && s'.commits[c] == s.commits[c]
            && (forall e :: 0 <= e < |s'.log| ==> s'.log[e].origin != c)
            && (forall k: nat, e: nat :: !Traces(s', k, e, c))
    decreases steps
  {
    if steps == [] {
      DroppedHasNoEvent(v, s, c);
    } else {
      ApplyKeepsInv(v, s, steps[0]);
      DroppedStays(v, s, steps[0], c);
      LostPublishIsFinal(v, Apply(v, s, steps[0]), steps[1..], c);
    }
  }

  lemma LostPublishExample(v: Tokens.Signer, header: string, now: int, uid: int)
    requires Tokens.AuthMw(v, header, now) == Some(uid)
    ensures var s := Run(v, Init(1), [Http(header, now, TaskTable.Create(Some("a")), TaskTable.Up),
                                      Publish(0, TaskTable.Gone)]);
            && TaskTable.Owns(s.table.rows, uid, 1)
            && |s.commits| == 1 && s.commits[0].fate == Dropped
            && s.log == []
  {
    var a, b := Http(header, now, TaskTable.Create(Some("a")), TaskTable.Up), Publish(0, TaskTable.Gone);
    FirstCreate(v, header, now, uid);
    var s1 := Apply(v, Init(1), a);
    assert [a, b] == [a] + ([b] + []);
    RunCons(v, Init(1), a, [b] + []);
    RunCons(v, s1, b, []);
  }
}
