/** The fan-out of one notifier replica: live stream calls, each with a bounded queue that is
    filled without blocking and drained by its own stream loop. */
module Hub {
  import opened Base

  const CAPACITY: nat := 16

  /** What a stream call writes to its client. */
  datatype Item<T> = Frame(frame: T) | KeepAlive

  /** One stream call. `offered` (the fanouts since it registered) and `kept` (which of them were
      queued) are history: no step reads them. */
  datatype Sub<T> = Sub(offered: seq<T>, kept: seq<bool>, queue: seq<T>, written: seq<Item<T>>)

  datatype Hub<T> = Hub(fanned: seq<T>, subs: map<nat, Sub<T>>)

  datatype Step<T> =
    | Register(id: nat)
    | Deregister(id: nat)
    | Fanout(frame: T)
    | Drain(id: nat)
    | Beat(id: nat)

  function NewSub<T>(): Sub<T> {
    Sub([], [], [], [])
  }

  /** The non-blocking send: a full queue stays as it is. */
  function Accept<T>(queue: seq<T>, b: T): seq<T> {
    if |queue| < CAPACITY then queue + [b] else queue
  }

  function Offer<T>(s: Sub<T>, b: T): Sub<T> {
    Sub(s.offered + [b], s.kept + [|s.queue| < CAPACITY], Accept(s.queue, b), s.written)
  }

  /** The loop takes one frame from its queue and writes it; with an empty queue it keeps waiting. */
  function Take<T>(s: Sub<T>): Sub<T> {
    if s.queue == [] then s
    else s.(queue := s.queue[1..], written := s.written + [Frame(s.queue[0])])
  }

  function KeepWarm<T>(s: Sub<T>): Sub<T> {
    s.(written := s.written + [KeepAlive])
  }

  function Apply<T>(h: Hub<T>, a: Step<T>): Hub<T> {
    match a
    case Register(id) => if id in h.subs then h else h.(subs := h.subs[id := NewSub()])
    case Deregister(id) => h.(subs := h.subs - {id})
    case Fanout(b) => Hub(h.fanned + [b], map id | id in h.subs :: Offer(h.subs[id], b))
    case Drain(id) => if id in h.subs then h.(subs := h.subs[id := Take(h.subs[id])]) else h
    case Beat(id) => if id in h.subs then h.(subs := h.subs[id := KeepWarm(h.subs[id])]) else h
  }

  function Run<T>(h: Hub<T>, steps: seq<Step<T>>): Hub<T>
    decreases steps
  {
    if steps == [] then h else Run(Apply(h, steps[0]), steps[1..])
  }

  lemma {:induction false} RunAppend<T>(h: Hub<T>, steps: seq<Step<T>>, last: Step<T>)
    ensures Run(h, steps + [last]) == Apply(Run(h, steps), last)
    decreases steps
  {
    if steps == [] {
      assert [] + [last] == [last];
      assert [last][1..] == [];
    } else {
      assert (steps + [last])[1..] == steps[1..] + [last];
      RunAppend(Apply(h, steps[0]), steps[1..], last);
    }
  }

  // ---------- order and conservation ----------

  /** The elements of xs whose flag is set, in their order. */
  function Select<T>(xs: seq<T>, flags: seq<bool>): seq<T>
    requires |xs| == |flags|
  {
    if xs == [] then []
    else
      var n := |xs| - 1;
      Select(xs[..n], flags[..n]) + if flags[n] then [xs[n]] else []
  }

  function Count(flags: seq<bool>, flag: bool): nat {
    if flags == [] then 0
    else Count(flags[..|flags| - 1], flag) + if flags[|flags| - 1] == flag then 1 else 0
  }

  /** The frames among the items written, in order. */
  function Frames<T>(items: seq<Item<T>>): seq<T> {
    if items == [] then []
    else (match items[0] case Frame(b) => [b] case KeepAlive => []) + Frames(items[1..])
  }

  lemma {:induction false} FramesAppend<T>(items: seq<Item<T>>, last: Item<T>)
    ensures Frames(items + [last]) == Frames(items) + match last case Frame(b) => [b] case KeepAlive => []
  {
    if items != [] {
      FramesAppend(items[1..], last);
      assert (items + [last])[1..] == items[1..] + [last];
    }
  }

  /** Written frames, then queued ones, are the offered frames that were kept, in order; the queue
      is bounded; and whatever was dropped had sixteen kept frames ahead of it. */
  ghost predicate Conserves<T>(s: Sub<T>) {
    && |s.kept| == |s.offered|
    && Select(s.offered, s.kept) == Frames(s.written) + s.queue
    && |s.queue| <= CAPACITY
    && DropsBehindFull(s.kept)
  }

  /** s was offered exactly the fanouts since some moment. */
  predicate OfferedSince<T(==)>(fanned: seq<T>, s: Sub<T>) {
    |s.offered| <= |fanned| && s.offered == fanned[|fanned| - |s.offered|..]
  }

  ghost predicate Sound<T>(h: Hub<T>) {
    forall id :: id in h.subs ==> Conserves(h.subs[id]) && OfferedSince(h.fanned, h.subs[id])
  }

  lemma {:induction false} SelectLength<T>(xs: seq<T>, flags: seq<bool>)
    requires |xs| == |flags|
    ensures |Select(xs, flags)| == Count(flags, true)
    ensures Count(flags, true) + Count(flags, false) == |xs|
  {
    if xs != [] {
      SelectLength(xs[..|xs| - 1], flags[..|xs| - 1]);
    }
  }

  /** Dropped frames had a queueful of kept ones ahead of them. */
  ghost predicate DropsBehindFull(kept: seq<bool>) {
    forall i :: 0 <= i < |kept| && !kept[i] ==> Count(kept[..i], true) >= CAPACITY
  }

  lemma DropsExtend(kept: seq<bool>, flag: bool)
    requires DropsBehindFull(kept)
    requires flag || Count(kept, true) >= CAPACITY
    ensures DropsBehindFull(kept + [flag])
  {
    var longer := kept + [flag];
    forall i | 0 <= i < |longer| && !longer[i]
      ensures Count(longer[..i], true) >= CAPACITY
    {
      assert longer[..i] == kept[..i];
    }
  }

  lemma OfferConserves<T>(s: Sub<T>, b: T)
    requires Conserves(s)
    ensures Conserves(Offer(s, b))
  {
    var s' := Offer(s, b);
    assert s'.offered[..|s.offered|] == s.offered && s'.kept[..|s.kept|] == s.kept;
    SelectLength(s.offered, s.kept);
    DropsExtend(s.kept, |s.queue| < CAPACITY);
  }

  lemma TakeConserves<T>(s: Sub<T>)
    requires Conserves(s)
    ensures Conserves(Take(s))
  {
    if s.queue != [] {
      FramesAppend(s.written, Frame(s.queue[0]));
      MoveOver(Frames(s.written), s.queue);
    }
  }

  lemma MoveOver<T>(done: seq<T>, queue: seq<T>)
    requires queue != []
    ensures done + [queue[0]] + queue[1..] == done + queue
  {
  }

  lemma KeepWarmConserves<T>(s: Sub<T>)
    requires Conserves(s)
    ensures Conserves(KeepWarm(s))
  {
    FramesAppend(s.written, KeepAlive);
  }

  lemma FanoutKeepsSince<T>(fanned: seq<T>, s: Sub<T>, b: T)
    requires OfferedSince(fanned, s)
    ensures OfferedSince(fanned + [b], Offer(s, b))
  {
  }

  lemma ApplyKeepsSound<T>(h: Hub<T>, a: Step<T>)
    requires Sound(h)
    ensures Sound(Apply(h, a))
  {
    match a {
      case Register(id) =>
        assert OfferedSince(h.fanned, NewSub<T>());
      case Deregister(_) =>
      case Fanout(b) =>
        forall id | id in h.subs
          ensures Conserves(Offer(h.subs[id], b)) && OfferedSince(h.fanned + [b], Offer(h.subs[id], b))
        {
          OfferConserves(h.subs[id], b);
          FanoutKeepsSince(h.fanned, h.subs[id], b);
        }
      case Drain(id) =>
        if id in h.subs {
          TakeConserves(h.subs[id]);
        }
      case Beat(id) =>
        if id in h.subs {
          KeepWarmConserves(h.subs[id]);
        }
    }
  }

  /** Every subscriber, in every run, keeps order and conserves frames. */
  lemma {:induction false} RunKeepsSound<T>(h: Hub<T>, steps: seq<Step<T>>)
    requires Sound(h)
    ensures Sound(Run(h, steps))
    decreases steps
  {
    if steps != [] {
      ApplyKeepsSound(h, steps[0]);
      RunKeepsSound(Apply(h, steps[0]), steps[1..]);
    }
  }

  /** got is a subsequence of xs, found at the strictly increasing positions at. */
  ghost predicate Embeds<T>(at: seq<nat>, got: seq<T>, xs: seq<T>) {
    && |at| == |got|
    && (forall i, j :: 0 <= i < j < |at| ==> at[i] < at[j])
    && forall i :: 0 <= i < |at| ==> at[i] < |xs| && xs[at[i]] == got[i]
  }

  ghost predicate Subsequence<T>(got: seq<T>, xs: seq<T>) {
    exists at :: Embeds(at, got, xs)
  }

  lemma EmbedsLonger<T>(at: seq<nat>, got: seq<T>, xs: seq<T>, x: T)
    requires Embeds(at, got, xs)
    ensures Embeds(at, got, xs + [x]) && Embeds(at + [|xs|], got + [x], xs + [x])
  {
  }

  lemma {:induction false} SelectPositions<T>(xs: seq<T>, flags: seq<bool>) returns (at: seq<nat>)
    requires |xs| == |flags|
    ensures Embeds(at, Select(xs, flags), xs)
  {
    at := [];
    if xs != [] {
      var n := |xs| - 1;
      var before := SelectPositions(xs[..n], flags[..n]);
      EmbedsLonger(before, Select(xs[..n], flags[..n]), xs[..n], xs[n]);
      assert xs[..n] + [xs[n]] == xs;
      assert Select(xs[..n], flags[..n]) + [] == Select(xs[..n], flags[..n]);
      at := if flags[n] then before + [n] else before;
    }
  }

  /** Step n of the run offered subscriber id its i-th frame, which was kept exactly when its queue
      had room at that moment. */
  ghost predicate OfferedAt<T(!new)>(steps: seq<Step<T>>, id: nat, i: nat, n: nat) {
    && n < |steps|
    && id in Run(Hub([], map[]), steps).subs
    && id in Run(Hub([], map[]), steps[..n]).subs
    && var now, before := Run(Hub([], map[]), steps).subs[id], Run(Hub([], map[]), steps[..n]).subs[id];
       && |before.offered| == i < |now.offered|
       && i < |now.kept|
       && steps[n] == Fanout(now.offered[i])
       && (now.kept[i] <==> |before.queue| < 16)
  }

  ghost predicate OfferAccounted<T(!new)>(steps: seq<Step<T>>, id: nat, i: nat) {
    exists n: nat :: OfferedAt(steps, id, i, n)
  }

  /** A step that is not a fresh registration keeps what was offered and kept so far. */
  lemma StepKeepsOffers<T>(h: Hub<T>, a: Step<T>, id: nat)
    requires Sound(h) && id in h.subs && id in Apply(h, a).subs
    ensures var s, s' := h.subs[id], Apply(h, a).subs[id];
            && |s'.offered| == |s'.kept|
            && s.offered <= s'.offered && s.kept <= s'.kept
            && (if a.Fanout? then s'.offered == s.offered + [a.frame] && s'.kept == s.kept + [|s.queue| < CAPACITY]
                else s'.offered == s.offered && s'.kept == s.kept)
  {
  }

  /** Every frame ever offered to a live call was offered by some step, and dropped there exactly
      when sixteen frames were queued at that step. */
  lemma {:induction false} EveryOfferHasItsStep<T(!new)>(steps: seq<Step<T>>, id: nat, i: nat) returns (n: nat)
    requires id in Run(Hub([], map[]), steps).subs
    requires i < |Run(Hub([], map[]), steps).subs[id].offered|
    ensures OfferedAt(steps, id, i, n)
    decreases |steps|
  {
    var m := |steps| - 1;
    var h := Run<T>(Hub([], map[]), steps[..m]);
    assert steps == steps[..m] + [steps[m]];
    RunAppend<T>(Hub([], map[]), steps[..m], steps[m]);
    RunKeepsSound<T>(Hub([], map[]), steps[..m]);
    assert id in h.subs;
    StepKeepsOffers(h, steps[m], id);
    if i == |h.subs[id].offered| {
      n := m;
    } else {
      n := EveryOfferHasItsStep(steps[..m], id, i);
      assert steps[..m][..n] == steps[..n];
    }
  }

  lemma {:induction false} RunSplit<T>(h: Hub<T>, a: seq<Step<T>>, b: seq<Step<T>>)
    ensures Run(h, a + b) == Run(Run(h, a), b)
    decreases a
  {
    if a == [] {
      assert a + b == b;
    } else {
      assert (a + b)[1..] == a[1..] + b;
      RunSplit(Apply(h, a[0]), a[1..], b);
    }
  }

  lemma {:induction false} OffersStay<T>(h: Hub<T>, steps: seq<Step<T>>, id: nat)
    requires Sound(h) && id in h.subs && Deregister(id) !in steps
    ensures var h' := Run(h, steps);
            && id in h'.subs
            && h.subs[id].offered <= h'.subs[id].offered && h.subs[id].kept <= h'.subs[id].kept
    decreases steps
  {
    if steps != [] {
      assert steps[0] in steps && forall x :: x in steps[1..] ==> x in steps;
      ApplyKeepsSound(h, steps[0]);
      StepKeepsOffers(h, steps[0], id);
      OffersStay(Apply(h, steps[0]), steps[1..], id);
    }
  }

  /** A frame fanned out to a call is dropped exactly when sixteen are queued there at that moment,
      whatever led up to it and whatever follows while the call lasts. */
  lemma DropIffFull<T>(pre: seq<Step<T>>, b: T, post: seq<Step<T>>, id: nat)
    requires id in Run(Hub([], map[]), pre).subs && Deregister(id) !in post
    ensures var before := Run(Hub([], map[]), pre).subs[id];
            var h := Run(Hub([], map[]), pre + [Fanout(b)] + post);
            && id in h.subs
            && |before.offered| < |h.subs[id].offered| && |before.offered| < |h.subs[id].kept|
            && h.subs[id].offered[|before.offered|] == b
            && (!h.subs[id].kept[|before.offered|] <==> |before.queue| == 16)
  {
    var empty: Hub<T> := Hub([], map[]);
    var h := Run(empty, pre);
    RunSplit(empty, pre + [Fanout(b)], post);
    RunAppend(empty, pre, Fanout(b));
    RunKeepsSound(empty, pre);
    ApplyKeepsSound(h, Fanout(b));
    StepKeepsOffers(h, Fanout(b), id);
    OffersStay(Apply(h, Fanout(b)), post, id);
  }

  /** The frames fanned out in some steps, in order. */
  function FannedIn<T>(steps: seq<Step<T>>): seq<T> {
    if steps == [] then []
    else (if steps[0].Fanout? then [steps[0].frame] else []) + FannedIn(steps[1..])
  }

  lemma {:induction false} RunFans<T>(h: Hub<T>, steps: seq<Step<T>>)
    ensures Run(h, steps).fanned == h.fanned + FannedIn(steps)
    decreases steps
  {
    if steps != [] {
      RunFans(Apply(h, steps[0]), steps[1..]);
    }
  }

  /** In every run: offered = written + queued + dropped; written then queued frames are the kept ones
      of those offered, in order, and so a subsequence of the fanouts since the call registered; and
      a frame was dropped exactly when sixteen were queued as it was offered. */
  lemma DeliveryAccount<T(!new)>(steps: seq<Step<T>>, id: nat)
    requires id in Run(Hub([], map[]), steps).subs
    ensures var h := Run(Hub([], map[]), steps);
            var s := h.subs[id];
            && |s.queue| <= 16
            && |s.kept| == |s.offered| == |Frames(s.written)| + |s.queue| + Count(s.kept, false)
            && h.fanned == FannedIn(steps)
            && OfferedSince(h.fanned, s)
            && Select(s.offered, s.kept) == Frames(s.written) + s.queue
            && Subsequence(Frames(s.written) + s.queue, h.fanned[|h.fanned| - |s.offered|..])
            && forall i: nat :: i < |s.offered| ==> OfferAccounted(steps, id, i)
  {
    var h := Run(Hub([], map[]), steps);
    RunKeepsSound<T>(Hub([], map[]), steps);
    var s := h.subs[id];
    SelectLength(s.offered, s.kept);
    RunFans<T>(Hub([], map[]), steps);
    var at := SelectPositions(s.offered, s.kept);
    forall i: nat | i < |s.offered|
      ensures OfferAccounted(steps, id, i)
    {
      var n := EveryOfferHasItsStep(steps, id, i);
    }
  }

  // ---------- what each step of a call does ----------

  /** A drain of a nonempty queue writes exactly its oldest frame, after all that was written, and
      leaves the others queued; other calls and the fan-outs stay. */
  lemma DrainWritesOldest<T>(pre: seq<Step<T>>, id: nat)
    requires id in Run(Hub([], map[]), pre).subs
    ensures var h, h' := Run(Hub([], map[]), pre), Run(Hub([], map[]), pre + [Drain(id)]);
            && id in h'.subs
            && var q, s, s' := h.subs[id].queue, h.subs[id], h'.subs[id];
            && (q != [] ==> s'.queue == q[1..] && s'.written == s.written + [Frame(q[0])]
                            && Frames(s'.written) == Frames(s.written) + [q[0]])
            && (q == [] ==> s' == s)
            && s'.offered == s.offered && s'.kept == s.kept
            && h'.fanned == h.fanned && h'.subs - {id} == h.subs - {id}
  {
    RunAppend<T>(Hub([], map[]), pre, Drain(id));
    var s := Run<T>(Hub([], map[]), pre).subs[id];
    if s.queue != [] {
      FramesAppend(s.written, Frame(s.queue[0]));
    }
  }

  /** A timer writes exactly one keepalive comment and moves no frame. */
  lemma BeatWritesKeepAlive<T>(pre: seq<Step<T>>, id: nat)
    requires id in Run(Hub([], map[]), pre).subs
    ensures var h, h' := Run(Hub([], map[]), pre), Run(Hub([], map[]), pre + [Beat(id)]);
            && id in h'.subs
            && h'.subs[id] == h.subs[id].(written := h.subs[id].written + [KeepAlive])
            && Frames(h'.subs[id].written) == Frames(h.subs[id].written)
            && h'.fanned == h.fanned && h'.subs - {id} == h.subs - {id}
  {
    RunAppend<T>(Hub([], map[]), pre, Beat(id));
    FramesAppend(Run<T>(Hub([], map[]), pre).subs[id].written, KeepAlive);
  }

  lemma {:induction false} DrainAll<T>(pre: seq<Step<T>>, id: nat, n: nat)
    requires id in Run(Hub([], map[]), pre).subs
    requires n <= |Run(Hub([], map[]), pre).subs[id].queue|
    ensures var s := Run(Hub([], map[]), pre).subs[id];
            var h' := Run(Hub([], map[]), pre + seq(n, i => Drain(id)));
            && id in h'.subs
            && h'.subs[id].queue == s.queue[n..]
            && Frames(h'.subs[id].written) == Frames(s.written) + s.queue[..n]
            && h'.subs[id].offered == s.offered && h'.subs[id].kept == s.kept
  {
    var s := Run<T>(Hub([], map[]), pre).subs[id];
    if n == 0 {
      assert pre + seq(0, i => Drain(id)) == pre;
    } else {
      DrainAll(pre, id, n - 1);
      var most := pre + seq(n - 1, i => Drain(id));
      assert pre + seq(n, i => Drain(id)) == most + [Drain(id)];
      DrainWritesOldest(most, id);
      assert s.queue[..n] == s.queue[..n - 1] + [s.queue[n - 1]];
    }
  }

  /** A call that keeps draining catches up: after as many drains as frames are queued, and no
      fan-out in between, every frame it kept since it registered has been written, in order. */
  lemma DrainsCatchUp<T>(pre: seq<Step<T>>, id: nat)
    requires id in Run(Hub([], map[]), pre).subs
    ensures var n := |Run(Hub([], map[]), pre).subs[id].queue|;
            var h' := Run(Hub([], map[]), pre + seq(n, i => Drain(id)));
            && n <= 16
            && id in h'.subs && h'.subs[id].queue == []
            && |h'.subs[id].kept| == |h'.subs[id].offered|
            && Frames(h'.subs[id].written) == Select(h'.subs[id].offered, h'.subs[id].kept)
  {
    var s := Run<T>(Hub([], map[]), pre).subs[id];
    RunKeepsSound<T>(Hub([], map[]), pre);
    DrainAll(pre, id, |s.queue|);
    assert s.queue[..|s.queue|] == s.queue;
  }

  lemma {:induction false} RunOffers<T>(h: Hub<T>, steps: seq<Step<T>>, id: nat)
    requires id in h.subs && Deregister(id) !in steps
    ensures id in Run(h, steps).subs
    ensures Run(h, steps).subs[id].offered == h.subs[id].offered + FannedIn(steps)
    decreases steps
  {
    if steps != [] {
      assert steps[0] in steps && forall x :: x in steps[1..] ==> x in steps;
      RunOffers(Apply(h, steps[0]), steps[1..], id);
    }
  }

  /** A call starts with nothing queued or written, and from then on it is offered exactly the frames
      fanned out while it lasts. */
  lemma OfferedWhileOpen<T>(pre: seq<Step<T>>, post: seq<Step<T>>, id: nat)
    requires id !in Run(Hub([], map[]), pre).subs && Deregister(id) !in post
    ensures var start, h := Run(Hub([], map[]), pre + [Register(id)]), Run(Hub([], map[]), pre + [Register(id)] + post);
            && id in start.subs && start.subs[id] == Sub([], [], [], [])
            && id in h.subs && h.subs[id].offered == FannedIn(post)
  {
    RunAppend<T>(Hub([], map[]), pre, Register(id));
    RunSplit<T>(Hub([], map[]), pre + [Register(id)], post);
    RunOffers(Run<T>(Hub([], map[]), pre + [Register(id)]), post, id);
  }

  // ---------- what one subscriber sees ----------

  /** The steps of a run as one stream call sees them. */
  datatype Act<T> = Open | Close | Offered(frame: T) | Taken | Warmed

  function View<T>(a: Step<T>, id: nat): Option<Act<T>> {
    match a
    case Register(i) => if i == id then Some(Open) else None
    case Deregister(i) => if i == id then Some(Close) else None
    case Fanout(b) => Some(Offered(b))
    case Drain(i) => if i == id then Some(Taken) else None
    case Beat(i) => if i == id then Some(Warmed) else None
  }

  function Project<T>(steps: seq<Step<T>>, id: nat): seq<Act<T>> {
    if steps == [] then []
    else (match View(steps[0], id) case Some(a) => [a] case None => []) + Project(steps[1..], id)
  }

  function Do<T>(s: Option<Sub<T>>, a: Act<T>): Option<Sub<T>> {
    match a
    case Open => if s.Some? then s else Some(NewSub())
    case Close => None
    case Offered(b) => if s.Some? then Some(Offer(s.value, b)) else None
    case Taken => if s.Some? then Some(Take(s.value)) else None
    case Warmed => if s.Some? then Some(KeepWarm(s.value)) else None
  }

  function Replay<T>(s: Option<Sub<T>>, acts: seq<Act<T>>): Option<Sub<T>>
    decreases acts
  {
    if acts == [] then s else Replay(Do(s, acts[0]), acts[1..])
  }

  function Lookup<T>(h: Hub<T>, id: nat): Option<Sub<T>> {
    if id in h.subs then Some(h.subs[id]) else None
  }

  lemma StepAsSeen<T>(h: Hub<T>, a: Step<T>, id: nat)
    ensures Lookup(Apply(h, a), id)
         == match View(a, id) case Some(x) => Do(Lookup(h, id), x) case None => Lookup(h, id)
  {
  }

  /** A stream call's whole state after any run is what its own steps and the fanouts alone make of
      it: no other subscriber, however slow, can change what it receives. */
  lemma {:induction false} Independence<T>(h: Hub<T>, steps: seq<Step<T>>, id: nat)
    ensures Lookup(Run(h, steps), id) == Replay(Lookup(h, id), Project(steps, id))
    decreases steps
  {
    if steps != [] {
      StepAsSeen(h, steps[0], id);
      Independence(Apply(h, steps[0]), steps[1..], id);
      var rest := Project(steps[1..], id);
      match View(steps[0], id)
      case Some(a) =>
        assert Project(steps, id) == [a] + rest;
        assert Project(steps, id)[1..] == rest;
      case None =>
        assert Project(steps, id) == rest;
    }
  }

  /** Some step entered call id, and no later one left it. */
  ghost predicate EnteredNotLeft<T(!new)>(steps: seq<Step<T>>, id: nat) {
    exists i :: 0 <= i < |steps| && steps[i] == Register(id) && Deregister(id) !in steps[i..]
  }

  lemma EnteredLater<T(!new)>(steps: seq<Step<T>>, id: nat)
    requires steps != []
    ensures EnteredNotLeft(steps, id) <==>
            EnteredNotLeft(steps[1..], id) || (steps[0] == Register(id) && Deregister(id) !in steps)
  {
    forall i | 1 <= i < |steps|
      ensures steps[i..] == steps[1..][i - 1..] && steps[i] == steps[1..][i - 1]
    {
    }
    assert steps[0..] == steps;
    if EnteredNotLeft(steps[1..], id) {
      var i :| 0 <= i < |steps[1..]| && steps[1..][i] == Register(id) && Deregister(id) !in steps[1..][i..];
      assert steps[i + 1] == Register(id) && Deregister(id) !in steps[i + 1..];
    }
  }

  lemma {:induction false} RegisteredIff<T(!new)>(h: Hub<T>, steps: seq<Step<T>>, id: nat)
    ensures id in Run(h, steps).subs <==>
            (id in h.subs && Deregister(id) !in steps) || EnteredNotLeft(steps, id)
    decreases steps
  {
    if steps != [] {
      RegisteredIff(Apply(h, steps[0]), steps[1..], id);
      EnteredLater(steps, id);
      assert Deregister(id) in steps <==> steps[0] == Deregister(id) || Deregister(id) in steps[1..];
    }
  }

  /** The registered set is exactly the set of stream calls that were entered and not yet left. */
  lemma NoLeaks<T(!new)>(steps: seq<Step<T>>)
    ensures forall id: nat :: id in Run(Hub([], map[]), steps).subs <==> EnteredNotLeft(steps, id)
  {
    forall id: nat
      ensures id in Run(Hub([], map[]), steps).subs <==> EnteredNotLeft(steps, id)
    {
      RegisteredIff<T>(Hub([], map[]), steps, id);
    }
  }

  // ---------- when nothing is dropped ----------

  function Lag<T>(s: Sub<T>): int {
    |s.offered| - |Frames(s.written)|
  }

  ghost predicate Lossless<T>(s: Sub<T>) {
    Frames(s.written) + s.queue == s.offered
  }

  ghost predicate StaysOpen<T>(acts: seq<Act<T>>) {
    forall i :: 0 <= i < |acts| ==> !acts[i].Open? && !acts[i].Close?
  }

  /** At every moment of the replay the call trails the fanouts by at most a queueful. */
  ghost predicate StaysClose<T>(s: Sub<T>, acts: seq<Act<T>>)
    requires StaysOpen(acts)
    decreases acts
  {
    Lag(s) <= CAPACITY && (acts == [] || StaysClose(Do(Some(s), acts[0]).value, acts[1..]))
  }

  /** A call that stays open loses nothing exactly when, at every moment, it trails the fanouts by
      at most sixteen frames. */
  lemma {:induction false} LosslessWhileClose<T>(s: Sub<T>, acts: seq<Act<T>>)
    requires Conserves(s) && StaysOpen(acts)
    ensures Replay(Some(s), acts).Some?
    ensures Lossless(Replay(Some(s), acts).value) <==> Lossless(s) && StaysClose(s, acts)
    decreases acts
  {
    LosslessIff(s);
    if acts != [] {
      var s1 := Do(Some(s), acts[0]).value;
      DoConserves(s, acts[0]);
      LosslessIff(s1);
      LosslessWhileClose(s1, acts[1..]);
    }
  }

  /** Being lossless is having dropped nothing, and keeps the lag within the queue. */
  lemma LosslessIff<T>(s: Sub<T>)
    requires Conserves(s)
    ensures Lossless(s) <==> Count(s.kept, false) == 0
    ensures Lag(s) == |s.queue| + Count(s.kept, false)
  {
    SelectLength(s.offered, s.kept);
    if Count(s.kept, false) == 0 {
      SelectAll(s.offered, s.kept);
    }
  }

  lemma {:induction false} SelectAll<T>(xs: seq<T>, flags: seq<bool>)
    requires |xs| == |flags| && Count(flags, false) == 0
    ensures Select(xs, flags) == xs
  {
    if xs != [] {
      SelectAll(xs[..|xs| - 1], flags[..|xs| - 1]);
    }
  }

  lemma DoConserves<T>(s: Sub<T>, a: Act<T>)
    requires Conserves(s) && !a.Open? && !a.Close?
    ensures var s1 := Do(Some(s), a).value;
            && Conserves(s1)
            && Count(s1.kept, false) >= Count(s.kept, false)
            && (Count(s1.kept, false) > Count(s.kept, false) ==> |s1.queue| == CAPACITY)
  {
    TakeConserves(s);
    KeepWarmConserves(s);
    if a.Offered? {
      OfferConserves(s, a.frame);
      assert Offer(s, a.frame).kept[..|s.kept|] == s.kept;
    }
  }
}
