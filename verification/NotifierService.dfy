/** notifier-svc as it runs: the consumer loop, the handling of one message, the fan-out under the
    mutex, and one SSE stream call. */
module NotifierService {
  import opened Base
  import opened Notification
  import opened Pipeline
  import TaskTable
  import Hub
  import Sse

  /** A fetched message and what the environment makes of handling it. */
  datatype Message = Message(number: nat, subject: string, data: Option<TaskTable.Task>, insert: Insert, ackLost: bool)

  datatype Fetched = Timeout | Failed | Batch(messages: seq<Message>)

  // ---------- one message, and many ----------

  function Persisted(m: Message): seq<Row> {
    if m.data.None? || m.insert == Error(false) then [] else [RowFor(m.subject, m.data.value)]
  }

  function Fanned(m: Message): seq<string> {
    if m.data.None? || m.insert.Error? then [] else [Sse.FrameOf(Body(m.subject, m.data.value.name))]
  }

  function AckOf(m: Message): seq<nat> {
    if m.ackLost then [] else [m.number]
  }

  function AllPersisted(ms: seq<Message>): seq<Row> {
    if ms == [] then [] else Persisted(ms[0]) + AllPersisted(ms[1..])
  }

  function AllFanned(ms: seq<Message>): seq<string> {
    if ms == [] then [] else Fanned(ms[0]) + AllFanned(ms[1..])
  }

  function AllAcks(ms: seq<Message>): seq<nat> {
    if ms == [] then [] else AckOf(ms[0]) + AllAcks(ms[1..])
  }

  function AcceptAll(queue: seq<string>, frames: seq<string>): seq<string>
    decreases frames
  {
    if frames == [] then queue else AcceptAll(Hub.Accept(queue, frames[0]), frames[1..])
  }

  /** A channel takes frames in order up to its sixteenth; the rest are dropped. */
  lemma {:induction false} AcceptAllIs(queue: seq<string>, frames: seq<string>)
    ensures AcceptAll(queue, frames) == First(queue + frames, if |queue| > 16 then |queue| else 16)
    decreases frames
  {
    if frames != [] {
      AcceptAllIs(Hub.Accept(queue, frames[0]), frames[1..]);
      assert queue + frames == queue + [frames[0]] + frames[1..];
    }
  }

  /** A subscriber's queue after these messages, if nothing is received meanwhile. */
  function After(queue: seq<string>, ms: seq<Message>): seq<string> {
    AcceptAll(queue, AllFanned(ms))
  }

  /** The messages of a sequence of fetches, batch boundaries forgotten. */
  function Messages(fetches: seq<Fetched>): seq<Message> {
    if fetches == [] then [] else Contents(fetches[0]) + Messages(fetches[1..])
  }

  function Contents(f: Fetched): seq<Message> {
    if f.Batch? then f.messages else []
  }

  /** What one message comes to: nothing if it does not decode or its insert fails without effect; a
      notification of the task's owner, and unless the insert reported an error its frame. */
  lemma MessageIs(m: Message)
    ensures m.data.None? ==> Persisted(m) == [] && Fanned(m) == []
    ensures m.data.Some? ==>
              var body := "event=" + m.subject + " task=" + m.data.value.name;
              && Persisted(m) == (if m.insert == Error(false) then [] else [Row(m.data.value.userId, m.subject, body)])
              && Fanned(m) == (if m.insert == Good then ["data: " + body + "\n\n"] else [])
    ensures AckOf(m) == if m.ackLost then [] else [m.number]
  {
  }

  lemma AcceptOne(queue: seq<string>, m: Message)
    ensures AcceptAll(queue, Fanned(m)) ==
            if m.data.Some? && m.insert == Good && |queue| < 16
            then queue + ["data: " + ("event=" + m.subject + " task=" + m.data.value.name) + "\n\n"]
            else queue
  {
    MessageIs(m);
    if Fanned(m) != [] {
      assert AcceptAll(queue, Fanned(m)) == AcceptAll(Hub.Accept(queue, Fanned(m)[0]), []);
    }
  }

  lemma {:induction false} MessagesAppend(fetches: seq<Fetched>, more: seq<Fetched>)
    ensures Messages(fetches + more) == Messages(fetches) + Messages(more)
  {
    if fetches == [] {
      assert fetches + more == more;
    } else {
      assert (fetches + more)[1..] == fetches[1..] + more;
      MessagesAppend(fetches[1..], more);
      Regroup(Contents(fetches[0]), Messages(fetches[1..]), Messages(more));
    }
  }

  /** Every message of every batch counts, in order; timeouts and fetch errors add none. */
  lemma MessagesAre(fetches: seq<Fetched>, ms: seq<Message>)
    ensures Messages([]) == []
    ensures Messages(fetches + [Batch(ms)]) == Messages(fetches) + ms
    ensures Messages(fetches + [Timeout]) == Messages(fetches) == Messages(fetches + [Failed])
  {
    MessagesAppend(fetches, [Batch(ms)]);
    MessagesAppend(fetches, [Timeout]);
    MessagesAppend(fetches, [Failed]);
    assert [Batch(ms)][1..] == [] && [Timeout][1..] == [] && [Failed][1..] == [];
  }

  lemma {:induction false} AcceptInTurn(queue: seq<string>, frames: seq<string>, more: seq<string>)
    ensures AcceptAll(queue, frames + more) == AcceptAll(AcceptAll(queue, frames), more)
    decreases frames
  {
    if frames == [] {
      assert frames + more == more;
    } else {
      assert (frames + more)[1..] == frames[1..] + more;
      AcceptInTurn(Hub.Accept(queue, frames[0]), frames[1..], more);
    }
  }

  lemma {:induction false} PersistInTurn(ms: seq<Message>, more: seq<Message>)
    ensures AllPersisted(ms + more) == AllPersisted(ms) + AllPersisted(more)
  {
    if ms == [] {
      assert ms + more == more;
    } else {
      assert (ms + more)[1..] == ms[1..] + more;
      PersistInTurn(ms[1..], more);
    }
  }

  lemma {:induction false} FanInTurn(ms: seq<Message>, more: seq<Message>)
    ensures AllFanned(ms + more) == AllFanned(ms) + AllFanned(more)
  {
    if ms == [] {
      assert ms + more == more;
    } else {
      assert (ms + more)[1..] == ms[1..] + more;
      FanInTurn(ms[1..], more);
    }
  }

  lemma {:induction false} AckInTurn(ms: seq<Message>, more: seq<Message>)
    ensures AllAcks(ms + more) == AllAcks(ms) + AllAcks(more)
  {
    if ms == [] {
      assert ms + more == more;
    } else {
      assert (ms + more)[1..] == ms[1..] + more;
      AckInTurn(ms[1..], more);
    }
  }

  lemma NextMessage(batch: seq<Message>, j: nat)
    requires j < |batch|
    ensures AllPersisted(batch[j..]) == Persisted(batch[j]) + AllPersisted(batch[j + 1..])
    ensures AllFanned(batch[j..]) == Fanned(batch[j]) + AllFanned(batch[j + 1..])
    ensures AllAcks(batch[j..]) == AckOf(batch[j]) + AllAcks(batch[j + 1..])
    ensures forall queue :: After(queue, batch[j..]) == After(AcceptAll(queue, Fanned(batch[j])), batch[j + 1..])
  {
    assert batch[j..][1..] == batch[j + 1..];
    forall queue
      ensures After(queue, batch[j..]) == After(AcceptAll(queue, Fanned(batch[j])), batch[j + 1..])
    {
      AcceptInTurn(queue, Fanned(batch[j]), AllFanned(batch[j + 1..]));
    }
  }

  lemma Regroup<T>(a: seq<T>, b: seq<T>, c: seq<T>)
    ensures (a + b) + c == a + (b + c)
  {
  }

  lemma InTurn(ms: seq<Message>, more: seq<Message>)
    ensures AllPersisted(ms + more) == AllPersisted(ms) + AllPersisted(more)
    ensures AllFanned(ms + more) == AllFanned(ms) + AllFanned(more)
    ensures AllAcks(ms + more) == AllAcks(ms) + AllAcks(more)
    ensures forall queue :: After(queue, ms + more) == After(After(queue, ms), more)
  {
    PersistInTurn(ms, more);
    FanInTurn(ms, more);
    AckInTurn(ms, more);
    forall queue
      ensures After(queue, ms + more) == After(After(queue, ms), more)
    {
      AcceptInTurn(queue, AllFanned(ms), AllFanned(more));
    }
  }

  // ---------- the service ----------

  class Channel {
    var queue: seq<string>

    constructor ()
      ensures queue == []
    {
      queue := [];
    }

    method TrySend(b: string) returns (sent: bool)
      modifies this
      ensures queue == Hub.Accept(old(queue), b)
      ensures sent <==> |old(queue)| < Hub.CAPACITY
    {
      sent := |queue| < Hub.CAPACITY;
      if sent {
        queue := queue + [b];
      }
    }

    method Receive() returns (b: string)
      requires queue != []
      modifies this
      ensures [b] + queue == old(queue)
    {
      b := queue[0];
      queue := queue[1..];
    }
  }

  /** What wakes a stream loop, and the fan-outs that reach its channel in between. */
  datatype Wake = Arrived(body: string) | Receivable | TimerFired | ClientGone

  function ActOf(w: Wake): Hub.Act<string>
    requires !w.ClientGone?
  {
    match w
    case Arrived(body) => Hub.Offered(body)
    case Receivable => Hub.Taken
    case TimerFired => Hub.Warmed
  }

  /** The wakes of one call as the hub's record of the call has them; the first Done ends it. */
  function Acts(wakes: seq<Wake>): seq<Hub.Act<string>> {
    if wakes == [] || wakes[0].ClientGone? then [] else [ActOf(wakes[0])] + Acts(wakes[1..])
  }

  /** The bytes the hub's record of such a call amounts to. */
  function Written(wakes: seq<Wake>): Option<string> {
    match Hub.Replay(Some(Hub.NewSub()), Acts(wakes))
    case Some(sub) => Some(Sse.Wire(sub.written))
    case None => None
  }

  function Framed(bodies: seq<string>): seq<string> {
    seq(|bodies|, i requires 0 <= i < |bodies| => Sse.FrameOf(bodies[i]))
  }

  /** What is queued for such a call after these wakes. */
  function Queued(wakes: seq<Wake>): seq<string> {
    match Hub.Replay(Some(Hub.NewSub()), Acts(wakes))
    case Some(sub) => sub.queue
    case None => []
  }

  lemma {:induction false} ReplayMore(s: Hub.Sub<string>, wakes: seq<Wake>, w: Wake)
    requires ClientGone !in wakes && !w.ClientGone?
    ensures Hub.Replay(Some(s), Acts(wakes)).Some?
    ensures Hub.Replay(Some(s), Acts(wakes + [w])) == Hub.Do(Hub.Replay(Some(s), Acts(wakes)), ActOf(w))
    decreases wakes
  {
    if wakes == [] {
      assert [] + [w] == [w] && [w][1..] == [];
      assert Acts([w])[1..] == [];
    } else {
      assert wakes[0] in wakes && forall x :: x in wakes[1..] ==> x in wakes;
      assert (wakes + [w])[1..] == wakes[1..] + [w];
      assert Acts(wakes)[1..] == Acts(wakes[1..]);
      assert Acts(wakes + [w])[1..] == Acts(wakes[1..] + [w]);
      ReplayMore(Hub.Do(Some(s), ActOf(wakes[0])).value, wakes[1..], w);
    }
  }

  lemma {:induction false} GoneEnds(wakes: seq<Wake>, more: seq<Wake>)
    requires ClientGone !in wakes
    ensures Acts(wakes + [ClientGone] + more) == Acts(wakes)
  {
    if wakes != [] {
      assert wakes[0] in wakes && forall x :: x in wakes[1..] ==> x in wakes;
      assert (wakes + [ClientGone] + more)[1..] == wakes[1..] + [ClientGone] + more;
      GoneEnds(wakes[1..], more);
    }
  }

  lemma ArriveQueues(wakes: seq<Wake>, body: string)
    requires ClientGone !in wakes
    ensures Written(wakes + [Arrived(body)]) == Written(wakes)
    ensures Queued(wakes + [Arrived(body)]) ==
            if |Queued(wakes)| < 16 then Queued(wakes) + [body] else Queued(wakes)
  {
    ReplayMore(Hub.NewSub(), wakes, Arrived(body));
  }

  lemma ReceiveWrites(wakes: seq<Wake>)
    requires ClientGone !in wakes
    ensures Written(wakes).Some?
    ensures Queued(wakes) == [] ==>
              Written(wakes + [Receivable]) == Written(wakes) && Queued(wakes + [Receivable]) == []
    ensures Queued(wakes) != [] ==>
              && Written(wakes + [Receivable]) == Some(Written(wakes).value + ("data: " + Queued(wakes)[0] + "\n\n"))
              && Queued(wakes + [Receivable]) == Queued(wakes)[1..]
  {
    ReplayMore(Hub.NewSub(), wakes, Receivable);
    var sub := Hub.Replay(Some(Hub.NewSub()), Acts(wakes)).value;
    if sub.queue != [] {
      Sse.WireIs(sub.written, sub.queue[0]);
    }
  }

  lemma TimerWrites(wakes: seq<Wake>)
    requires ClientGone !in wakes
    ensures Written(wakes).Some?
    ensures Written(wakes + [TimerFired]) == Some(Written(wakes).value + ": keepalive\n\n")
    ensures Queued(wakes + [TimerFired]) == Queued(wakes)
  {
    ReplayMore(Hub.NewSub(), wakes, TimerFired);
    Sse.WireIs(Hub.Replay(Some(Hub.NewSub()), Acts(wakes)).value.written, "");
  }

  /** The bytes and the queue of a stream call, wake by wake: an arriving frame is queued behind the
      others if fewer than sixteen are; a receive writes the oldest queued frame if there is one; the
      timer writes a keepalive comment; and nothing is written once the client is gone. */
  lemma WakeWrites(wakes: seq<Wake>, body: string, more: seq<Wake>)
    requires ClientGone !in wakes
    ensures Written([]) == Some("") && Queued([]) == []
    ensures Written(wakes).Some?
    ensures Written(wakes + [Arrived(body)]) == Written(wakes)
    ensures Queued(wakes + [Arrived(body)]) ==
            if |Queued(wakes)| < 16 then Queued(wakes) + [body] else Queued(wakes)
    ensures Queued(wakes) == [] ==>
              Written(wakes + [Receivable]) == Written(wakes) && Queued(wakes + [Receivable]) == []
    ensures Queued(wakes) != [] ==>
              && Written(wakes + [Receivable]) == Some(Written(wakes).value + ("data: " + Queued(wakes)[0] + "\n\n"))
              && Queued(wakes + [Receivable]) == Queued(wakes)[1..]
    ensures Written(wakes + [TimerFired]) == Some(Written(wakes).value + ": keepalive\n\n")
    ensures Queued(wakes + [TimerFired]) == Queued(wakes)
    ensures Written(wakes + [ClientGone] + more) == Written(wakes)
  {
    ArriveQueues(wakes, body);
    ReceiveWrites(wakes);
    TimerWrites(wakes);
    GoneEnds(wakes, more);
  }

  function Arrivals(bodies: seq<string>): seq<Wake> {
    seq(|bodies|, i requires 0 <= i < |bodies| => Arrived(bodies[i]))
  }

  function Receives(n: nat): seq<Wake> {
    seq(n, i => Receivable)
  }

  /** The frames of these bodies, one after the other. */
  function Bytes(bodies: seq<string>): string {
    if bodies == [] then "" else Bytes(bodies[..|bodies| - 1]) + ("data: " + bodies[|bodies| - 1] + "\n\n")
  }

  lemma {:induction false} ArrivalsQueue(bodies: seq<string>)
    requires |bodies| <= 16
    ensures Queued(Arrivals(bodies)) == bodies && Written(Arrivals(bodies)) == Some("")
  {
    if bodies != [] {
      var n := |bodies| - 1;
      ArrivalsQueue(bodies[..n]);
      assert Arrivals(bodies) == Arrivals(bodies[..n]) + [Arrived(bodies[n])];
      ArriveQueues(Arrivals(bodies[..n]), bodies[n]);
    }
  }

  lemma {:induction false} ReceivesWrite(bodies: seq<string>, n: nat)
    requires n <= |bodies| <= 16
    ensures Queued(Arrivals(bodies) + Receives(n)) == bodies[n..]
    ensures Written(Arrivals(bodies) + Receives(n)) == Some(Bytes(bodies[..n]))
  {
    if n == 0 {
      ArrivalsQueue(bodies);
      assert Arrivals(bodies) + Receives(0) == Arrivals(bodies);
    } else {
      ReceivesWrite(bodies, n - 1);
      var before := Arrivals(bodies) + Receives(n - 1);
      assert Arrivals(bodies) + Receives(n) == before + [Receivable];
      ReceiveWrites(before);
      assert bodies[..n][..n - 1] == bodies[..n - 1];
    }
  }

  /** Up to sixteen frames that arrive, then as many receives: the client is sent exactly those frames,
      in order. */
  lemma BurstIsWritten(bodies: seq<string>)
    requires |bodies| <= 16
    ensures Written(Arrivals(bodies) + Receives(|bodies|)) == Some(Bytes(bodies))
  {
    ReceivesWrite(bodies, |bodies|);
    assert bodies[..|bodies|] == bodies;
  }

  /** The state of one stream call; `record` is the hub's view of it. */
  class StreamCall {
    const ch: Channel
    var out: string
    ghost var record: Hub.Sub<string>

    ghost predicate Valid()
      reads this, ch
    {
      ch.queue == Framed(record.queue) && out == Sse.Wire(record.written)
    }

    constructor ()
      ensures Valid() && fresh(ch) && record == Hub.NewSub()
    {
      ch := new Channel();
      out := "";
      record := Hub.NewSub();
    }

    /** One turn of the select loop, or a fan-out reaching the channel between two turns. */
    method Turn(w: Wake)
      requires Valid() && !w.ClientGone?
      modifies this, ch
      ensures Valid() && Hub.Do(Some(old(record)), ActOf(w)) == Some(record)
      ensures w.Receivable? && old(ch.queue) != [] ==>
                out == old(out) + old(ch.queue)[0] && ch.queue == old(ch.queue)[1..]
      ensures w.Receivable? && old(ch.queue) == [] ==> out == old(out) && ch.queue == []
      ensures w.TimerFired? ==> out == old(out) + ": keepalive\n\n" && ch.queue == old(ch.queue)
      ensures w.Arrived? ==>
                && out == old(out)
                && ch.queue == if |old(ch.queue)| < 16 then old(ch.queue) + ["data: " + w.body + "\n\n"]
                               else old(ch.queue)
    {
      match w {
        case Arrived(body) =>
          var sent := ch.TrySend(Sse.FrameOf(body));
        case Receivable =>
          if ch.queue != [] {
            assert ch.queue[0] == Sse.FrameOf(record.queue[0]);
            assert ch.queue[1..] == Framed(record.queue[1..]);
            var b := ch.Receive();
            assert b == Sse.FrameOf(record.queue[0]) && ch.queue == Framed(record.queue[1..]);
            out := out + b;
            Sse.WireAppend(record.written, Hub.Frame(record.queue[0]));
          }
        case TimerFired =>
          out := out + Sse.KEEPALIVE;
          Sse.WireAppend(record.written, Hub.KeepAlive);
      }
      record := Hub.Do(Some(record), ActOf(w)).value;
    }
  }

  class App {
    var notifications: seq<Row>
    var processed: nat
    var acks: seq<nat>
    var subscribers: set<Channel>

    constructor ()
      ensures notifications == [] && processed == 0 && acks == [] && subscribers == {}
    {
      notifications, processed, acks, subscribers := [], 0, [], {};
    }

    /** Every registered channel gets the frame or drops it, in whatever order the map is walked. */
    method Fanout(b: string)
      modifies subscribers
      ensures forall ch :: ch in subscribers ==> ch.queue == Hub.Accept(old(ch.queue), b)
    {
      var todo := subscribers;
      while todo != {}
        invariant todo <= subscribers
        invariant forall ch :: ch in todo ==> ch.queue == old(ch.queue)
        invariant forall ch :: ch in subscribers - todo ==> ch.queue == Hub.Accept(old(ch.queue), b)
        decreases |todo|
      {
        if forall c :: c !in todo {
          assert false;
        }
        var ch :| ch in todo;
        var sent := ch.TrySend(b);
        todo := todo - {ch};
      }
    }

    method Handle(m: Message)
      modifies this`notifications, this`processed, subscribers
      ensures notifications == old(notifications) +
                if m.data.None? || m.insert == Error(false) then []
                else [Row(m.data.value.userId, m.subject, "event=" + m.subject + " task=" + m.data.value.name)]
      ensures processed == old(processed) + if m.data.Some? && m.insert == Good then 1 else 0
      ensures forall ch :: ch in subscribers ==>
                ch.queue ==
                if m.data.Some? && m.insert == Good && |old(ch.queue)| < 16
                then old(ch.queue) + ["data: " + ("event=" + m.subject + " task=" + m.data.value.name) + "\n\n"]
                else old(ch.queue)
    {
      if m.data.None? {
        return;
      }
      var task := m.data.value;
      var body := Body(m.subject, task.name);
      if m.insert != Error(false) {
        notifications := notifications + [Row(task.userId, m.subject, body)];
      }
      if m.insert.Error? {
        return;
      }
      processed := processed + 1;
      Fanout(Sse.FrameOf(body));
    }

    /** The acknowledgement is sent however handling went. */
    method HandleAndAck(m: Message)
      modifies this`notifications, this`processed, this`acks, subscribers
      ensures notifications == old(notifications) + Persisted(m)
      ensures processed == old(processed) + |Fanned(m)|
      ensures acks == old(acks) + AckOf(m)
      ensures forall ch :: ch in subscribers ==> ch.queue == AcceptAll(old(ch.queue), Fanned(m))
    {
      MessageIs(m);
      Handle(m);
      if !m.ackLost {
        acks := acks + [m.number];
      }
      forall ch | ch in subscribers
        ensures ch.queue == AcceptAll(old(ch.queue), Fanned(m))
      {
        AcceptOne(old(ch.queue), m);
      }
    }

    /** One fetched batch: each message is handled, then acknowledged. */
    method HandleBatch(batch: seq<Message>)
      modifies this`notifications, this`processed, this`acks, subscribers
      ensures notifications == old(notifications) + AllPersisted(batch)
      ensures processed == old(processed) + |AllFanned(batch)|
      ensures acks == old(acks) + AllAcks(batch)
      ensures forall ch :: ch in subscribers ==> ch.queue == After(old(ch.queue), batch)
    {
      var j := 0;
      while j < |batch|
        invariant 0 <= j <= |batch|
        invariant notifications + AllPersisted(batch[j..]) == old(notifications) + AllPersisted(batch)
        invariant processed + |AllFanned(batch[j..])| == old(processed) + |AllFanned(batch)|
        invariant acks + AllAcks(batch[j..]) == old(acks) + AllAcks(batch)
        invariant forall ch :: ch in subscribers ==>
                    After(ch.queue, batch[j..]) == After(old(ch.queue), batch)
      {
        var m := batch[j];
        NextMessage(batch, j);
        Regroup(notifications, Persisted(m), AllPersisted(batch[j + 1..]));
        Regroup(acks, AckOf(m), AllAcks(batch[j + 1..]));
        HandleAndAck(m);
        j := j + 1;
      }
    }

    /** One turn of the pull loop, seen from the messages that are still to come. */
    method HandleFetch(f: Fetched, ghost rest: seq<Message>)
      modifies this`notifications, this`processed, this`acks, subscribers
      ensures notifications + AllPersisted(rest) == old(notifications) + AllPersisted(Contents(f) + rest)
      ensures processed + |AllFanned(rest)| == old(processed) + |AllFanned(Contents(f) + rest)|
      ensures acks + AllAcks(rest) == old(acks) + AllAcks(Contents(f) + rest)
      ensures forall ch :: ch in subscribers ==> After(ch.queue, rest) == After(old(ch.queue), Contents(f) + rest)
    {
      if f.Batch? {
        InTurn(f.messages, rest);
        Regroup(notifications, AllPersisted(f.messages), AllPersisted(rest));
        Regroup(acks, AllAcks(f.messages), AllAcks(rest));
        HandleBatch(f.messages);
      } else {
        assert Contents(f) + rest == rest;
      }
    }

    /** The loop's effect depends on the messages alone, in their order: timeouts, fetch errors and
        the cuts between batches leave no trace. */
    method Subscribe(fetches: seq<Fetched>)
      modifies this`notifications, this`processed, this`acks, subscribers
      ensures notifications == old(notifications) + AllPersisted(Messages(fetches))
      ensures processed == old(processed) + |AllFanned(Messages(fetches))|
      ensures acks == old(acks) + AllAcks(Messages(fetches))
      ensures forall ch :: ch in subscribers ==> ch.queue == After(old(ch.queue), Messages(fetches))
      ensures forall ch :: ch in subscribers && |old(ch.queue)| <= 16 ==>
                ch.queue == First(old(ch.queue) + AllFanned(Messages(fetches)), 16)
    {
      var i := 0;
      ghost var all := Messages(fetches);
      ghost var left := all;
      while i < |fetches|
        invariant 0 <= i <= |fetches|
        invariant left == Messages(fetches[i..])
        invariant notifications + AllPersisted(left) == old(notifications) + AllPersisted(all)
        invariant processed + |AllFanned(left)| == old(processed) + |AllFanned(all)|
        invariant acks + AllAcks(left) == old(acks) + AllAcks(all)
        invariant forall ch :: ch in subscribers ==> After(ch.queue, left) == After(old(ch.queue), all)
      {
        assert fetches[i..][1..] == fetches[i + 1..];
        left := Messages(fetches[i + 1..]);
        HandleFetch(fetches[i], left);
        i := i + 1;
      }
      forall ch | ch in subscribers && |old(ch.queue)| <= 16
        ensures ch.queue == First(old(ch.queue) + AllFanned(all), 16)
      {
        AcceptAllIs(old(ch.queue), AllFanned(all));
      }
    }

    /** One stream call from its registration to its deferred removal. It writes what the hub's
        record of the call says, byte for byte, and leaves the subscriber set as it found it. */
    method Stream(flushable: bool, wakes: seq<Wake>) returns (status: nat, out: string)
      modifies this`subscribers
      ensures subscribers == old(subscribers)
      ensures !flushable ==> status == 500 && out == "streaming unsupported"
      ensures flushable ==> status == 200 && Written(wakes) == Some(out)
    {
      if !flushable {
        return 500, "streaming unsupported";
      }
      var call := new StreamCall();
      assert call.ch !in subscribers;
      subscribers := subscribers + {call.ch};
      var i := 0;
      while i < |wakes| && !wakes[i].ClientGone?
        invariant 0 <= i <= |wakes|
        invariant subscribers == old(subscribers) + {call.ch}
        invariant call.Valid() && fresh(call) && fresh(call.ch)
        invariant Hub.Replay(Some(call.record), Acts(wakes[i..])) == Hub.Replay(Some(Hub.NewSub()), Acts(wakes))
      {
        assert wakes[i..][1..] == wakes[i + 1..];
        assert Acts(wakes[i..])[1..] == Acts(wakes[i + 1..]);
        call.Turn(wakes[i]);
        i := i + 1;
      }
      subscribers := subscribers - {call.ch};
      status, out := 200, call.out;
    }
  }

  // ---------- the undisturbed case ----------

  /** The stream's events as one consumer gets them when no insert fails and no ack is lost. */
  function Undisturbed(log: seq<Event>, from: nat): seq<Message> {
    seq(|log|, i requires 0 <= i < |log| => Message(from + i, log[i].subject, log[i].data, Good, false))
  }

  function RowsFor(log: seq<Event>): seq<Row> {
    if log == [] then []
    else (if log[0].data.Some? then [RowFor(log[0].subject, log[0].data.value)] else []) + RowsFor(log[1..])
  }

  function BodiesOf(rows: seq<Row>): seq<string> {
    seq(|rows|, i requires 0 <= i < |rows| => rows[i].body)
  }

  lemma {:induction false} UndisturbedRows(log: seq<Event>, from: nat)
    ensures AllPersisted(Undisturbed(log, from)) == RowsFor(log)
    ensures AllAcks(Undisturbed(log, from)) == seq(|log|, i => from + i)
    decreases log
  {
    if log != [] {
      UndisturbedRows(log[1..], from + 1);
      assert Undisturbed(log, from)[1..] == Undisturbed(log[1..], from + 1);
    }
  }

  lemma FramedCons(row: Row, rows: seq<Row>)
    ensures Framed(BodiesOf([row] + rows)) == [Sse.FrameOf(row.body)] + Framed(BodiesOf(rows))
  {
  }

  lemma {:induction false} UndisturbedFrames(log: seq<Event>, from: nat)
    ensures AllFanned(Undisturbed(log, from)) == Framed(BodiesOf(RowsFor(log)))
    decreases log
  {
    if log != [] {
      UndisturbedFrames(log[1..], from + 1);
      assert Undisturbed(log, from)[1..] == Undisturbed(log[1..], from + 1);
      if log[0].data.Some? {
        FramedCons(RowFor(log[0].subject, log[0].data.value), RowsFor(log[1..]));
      }
    }
  }

  /** However an undisturbed consumer's fetches cut the log up, Subscribe stores one notification per
      event that decodes, fans out exactly their bodies, counts them, and acknowledges every event,
      all in log order. */
  lemma BatchesDoNotMatter(log: seq<Event>, fetches: seq<Fetched>)
    requires Messages(fetches) == Undisturbed(log, 0)
    ensures AllPersisted(Messages(fetches)) == RowsFor(log)
    ensures AllFanned(Messages(fetches)) == Framed(BodiesOf(RowsFor(log)))
    ensures |AllFanned(Messages(fetches))| == |RowsFor(log)|
    ensures AllAcks(Messages(fetches)) == seq(|log|, i => i)
  {
    UndisturbedRows(log, 0);
    UndisturbedFrames(log, 0);
  }

  /** The handler here and the pipeline's two steps for one delivery store the same row. */
  lemma HandlerMatchesPipeline(s: State, r: nat, insert: Insert)
    requires Facing(s, r) && s.replicas[r].phase == Ready
    ensures var e := s.log[s.deliveries[s.replicas[r].batch[0]].event];
            var m := Message(0, e.subject, e.data, insert, false);
            var s' := DoHandle(s, r, insert);
            && s'.rows == s.rows + Persisted(m)
            && (s'.replicas[r].phase.MustFan? <==> Fanned(m) != [])
            && (Fanned(m) != [] ==> Fanned(m) == Framed([s'.rows[s'.replicas[r].phase.row].body]))
  {
  }
}
