/** The protocol and the storage of a FreeRTOS queue together: whatever tasks and
    interrupts do, the count of the protocol is the number of items in the storage, and
    what is taken out is what was put in, in order. */
module QueueDelivery {
  import opened QueueProtocol
  import QueueCalls
  import RingQueue

  type Item = RingQueue.Item

  /** What a send in some event would put in, and at which end. */
  datatype Payload = Payload(x: Item, front: bool)

  function Position(overwrite: bool, front: bool): RingQueue.Position {
    if overwrite then RingQueue.Overwrite else if front then RingQueue.Front else RingQueue.Back
  }

  /** What a call does to the items once it finds room. */
  function Served(q: seq<Item>, call: Call, p: Payload): seq<Item> {
    match call
    case Send(overwrite) => RingQueue.Sent(q, p.x, Position(overwrite, p.front))
    case Receive(peek) => if peek then q else RingQueue.Tail(q)
  }

  /** The call an event completes, if it completes one. */
  datatype Completed = Nothing | Completed(call: Call)

  function CompletedBy(s: State, e: Event): Completed {
    match e
    case Attempt(t, _) => if Enabled(s, e) && HasRoom(s, s.tasks[t].call) then Completed(s.tasks[t].call) else Nothing
    case IsrSend(overwrite) =>
      if Enabled(s, e) && HasRoom(s, Send(overwrite)) then Completed(Send(overwrite)) else Nothing
    case IsrReceive => if HasRoom(s, Receive(false)) then Completed(Receive(false)) else Nothing
    case _ => Nothing
  }

  function FirstOf(q: seq<Item>): seq<Item> {
    if q == [] then [] else [q[0]]
  }

  /** The items after a step in which p is what a sender would put in. */
  function ItemsAfter(q: seq<Item>, s: State, e: Event, p: Payload): seq<Item> {
    if e.Reset? && Enabled(s, e) then []
    else match CompletedBy(s, e)
      case Nothing => q
      case Completed(call) => Served(q, call, p)
  }

  /** The count is the number of items, after every kind of step. */
  lemma CountsItems(q: seq<Item>, s: State, e: Event, p: Payload)
    requires |q| == s.n <= s.length
    ensures |ItemsAfter(q, s, e, p)| == Next(s, e).n <= Next(s, e).length == s.length
  {
    hide Rank, PlaceByPriority;
    if e.Unlock? && Enabled(s, e) {
      QueueCalls.UnlockingKeepsCount(At(s, e.t, UnlockRx(s.tasks[e.t].pc.a)), s.tx);
      QueueCalls.UnlockingKeepsCount(At(s, e.t, Resume(s.tasks[e.t].pc.a)), s.rx);
    }
  }

  /** What a completed call does to the items: a send puts its own at the end it names, or
      in the place of the only one; a receive takes the first, a peek none. */
  lemma CompletedMeans(q: seq<Item>, s: State, e: Event, p: Payload)
    requires |q| == s.n <= s.length && CompletedBy(s, e).Completed?
    ensures var r := ItemsAfter(q, s, e, p);
            match CompletedBy(s, e).call
            case Send(overwrite) =>
              && (!overwrite && p.front ==> r == [p.x] + q)
              && (!overwrite && !p.front ==> r == q + [p.x])
              && (overwrite && s.length == 1 ==> r == [p.x])
            case Receive(peek) => q != [] && (if peek then r == q else [q[0]] + r == q)
  {
  }

  // --- any run, on the byte ring ---

  /** The items after k events: `payload[i]` is what a send in event i sends. */
  function ItemsRun(q: seq<Item>, s: State, events: seq<Event>, payload: seq<Payload>, k: nat): seq<Item>
    requires k <= |events| == |payload|
  {
    if k == 0 then q
    else ItemsAfter(ItemsRun(q, s, events, payload, k - 1), After(s, events, k - 1), events[k - 1], payload[k - 1])
  }

  lemma {:induction false} RunCounts(q: seq<Item>, s: State, events: seq<Event>, payload: seq<Payload>, k: nat)
    requires k <= |events| == |payload| && |q| == s.n <= s.length
    ensures |ItemsRun(q, s, events, payload, k)| == After(s, events, k).n <= After(s, events, k).length == s.length
  {
    hide ItemsAfter, Next;
    if k > 0 {
      RunCounts(q, s, events, payload, k - 1);
      CountsItems(ItemsRun(q, s, events, payload, k - 1), After(s, events, k - 1), events[k - 1], payload[k - 1]);
    }
  }

  /** The calls the events complete, made on the queue in memory. */
  method ExecuteOne(queue: RingQueue.Queue, s: State, e: Event, p: Payload) returns (y: seq<Item>)
    requires queue.Valid() && queue.length == s.length && |queue.Contents()| == s.n && |p.x| == queue.itemSize
    requires queue.itemSize == 0 ==> PlainTasks(s) && Plain(e)
    modifies queue, queue.storage
    ensures queue.Valid() && queue.Contents() == ItemsAfter(old(queue.Contents()), s, e, p)
    ensures y == match CompletedBy(s, e)
                 case Completed(Receive(false)) => FirstOf(old(queue.Contents()))
                 case _ => []
  {
    y := [];
    if e.Reset? && Enabled(s, e) {
      queue.Reset();
    } else {
      match CompletedBy(s, e)
      case Nothing =>
      case Completed(Send(overwrite)) =>
        var _ := queue.Send(p.x, Position(overwrite, p.front));
      case Completed(Receive(peek)) =>
        var x := queue.Receive(peek);
        if !peek { y := [x.value]; }
    }
  }

  /** In every interleaving the queue in memory holds what the items of the run are,
      and as many as the protocol counts. */
  method Execute(queue: RingQueue.Queue, s: State, events: seq<Event>, payload: seq<Payload>) returns (taken: seq<Item>)
    requires queue.Valid() && queue.length == s.length && |queue.Contents()| == s.n
    requires |events| == |payload| && forall p :: p in payload ==> |p.x| == queue.itemSize
    requires queue.itemSize == 0 ==> PlainTasks(s) && forall i :: 0 <= i < |events| ==> Plain(events[i])
    modifies queue, queue.storage
    ensures queue.Valid() && queue.messages == After(s, events, |events|).n
    ensures queue.Contents() == ItemsRun(old(queue.Contents()), s, events, payload, |events|)
    ensures PlainRun(s, events, payload) ==>
              && taken == Delivered(old(queue.Contents()), s, events, payload, |events|).taken
              && taken + queue.Contents()
                 == old(queue.Contents()) + Delivered(old(queue.Contents()), s, events, payload, |events|).sent
  {
    ghost var q := queue.Contents();
    var state := s;
    taken := [];
    for k := 0 to |events|
      invariant queue.Valid() && state == After(s, events, k) && queue.length == state.length
      invariant queue.Contents() == ItemsRun(q, s, events, payload, k) && |queue.Contents()| == state.n
      invariant queue.itemSize == 0 ==> PlainTasks(state)
      invariant PlainRun(s, events, payload) ==> taken == Delivered(q, s, events, payload, k).taken
    {
      hide ItemsAfter, Next, PlainTasks, Plain, Enabled, CompletedBy, Delivered, PlainRun;
      var y := ExecuteOne(queue, state, events[k], payload[k]);
      RunCounts(q, s, events, payload, k + 1);
      if queue.itemSize == 0 { StaysPlain(state, events[k]); }
      DeliveredStep(q, s, events, payload, k);
      taken := taken + y;
      state := Next(state, events[k]);
    }
    if PlainRun(s, events, payload) { DeliveredInOrder(q, s, events, payload, |events|); }
  }

  // --- runs without resets and overwriting ---

  predicate Plain(e: Event) {
    match e
    case Reset => false
    case Begin(_, call) => call != Send(true)
    case IsrSend(overwrite) => !overwrite
    case _ => true
  }

  predicate PlainTasks(s: State) {
    forall t :: 0 <= t < |s.tasks| ==> s.tasks[t].call != Send(true)
  }

  lemma StaysPlain(s: State, e: Event)
    requires PlainTasks(s) && Plain(e)
    ensures PlainTasks(Next(s, e))
  {
    if e.Attempt? {
      AttemptStaysPlain(s, e);
    } else {
      hide Rank, PlaceByPriority, Attempted;
      if e.Unlock? && Enabled(s, e) {
        UnlockingKeepsCalls(At(s, e.t, UnlockRx(s.tasks[e.t].pc.a)), s.tx);
        UnlockingKeepsCalls(At(s, e.t, Resume(s.tasks[e.t].pc.a)), s.rx);
      }
    }
  }

  lemma AttemptStaysPlain(s: State, e: Event)
    requires PlainTasks(s) && e.Attempt?
    ensures PlainTasks(Next(s, e))
  {
  }

  lemma {:induction false} UnlockingKeepsCalls(s: State, count: int)
    requires PlainTasks(s)
    ensures PlainTasks(WakeReceivers(s, count)) && PlainTasks(WakeSenders(s, count))
    decreases |s.toReceive| + |s.toSend|
  {
    if count > 0 && s.toReceive != [] { UnlockingKeepsCalls(WakeReceiver(s), count - 1); }
    if count > 0 && s.toSend != [] { UnlockingKeepsCalls(WakeSender(s), count - 1); }
  }

  /** No resets, no overwriting, no sends to the front. */
  predicate PlainRun(s: State, events: seq<Event>, payload: seq<Payload>)
    requires |events| == |payload|
  {
    PlainTasks(s) && forall i :: 0 <= i < |events| ==> Plain(events[i]) && !payload[i].front
  }

  /** What has been put in and taken out. */
  function Delivered(q: seq<Item>, s: State, events: seq<Event>, payload: seq<Payload>, k: nat): RingQueue.Trace
    requires k <= |events| == |payload|
  {
    if k == 0 then RingQueue.Trace(q, [], [])
    else
      var tr := Delivered(q, s, events, payload, k - 1);
      match CompletedBy(After(s, events, k - 1), events[k - 1])
      case Nothing => tr
      case Completed(call) => RingQueue.Step(tr, OpOf(call, payload[k - 1].x), s.length)
  }

  function OpOf(call: Call, x: Item): RingQueue.Op {
    match call
    case Send(_) => RingQueue.SendBack(x)
    case Receive(peek) => if peek then RingQueue.Look else RingQueue.Take
  }

  /** In every interleaving of tasks and interrupts: the items taken, followed by those
      still queued, are those queued at first followed by those sent. */
  lemma {:induction false} DeliveredInOrder(q: seq<Item>, s: State, events: seq<Event>, payload: seq<Payload>, k: nat)
    requires k <= |events| == |payload| && |q| == s.n <= s.length && PlainRun(s, events, payload)
    ensures var tr := Delivered(q, s, events, payload, k);
            && tr.taken + tr.q == q + tr.sent
            && tr.q == ItemsRun(q, s, events, payload, k)
            && |tr.q| == After(s, events, k).n <= After(s, events, k).length == s.length
            && PlainTasks(After(s, events, k))
  {
    hide Next, Enabled, HasRoom;
    if k == 0 {
      assert [] + q == q + [];
    } else {
      DeliveredInOrder(q, s, events, payload, k - 1);
      var tr := Delivered(q, s, events, payload, k - 1);
      var r, e, p := After(s, events, k - 1), events[k - 1], payload[k - 1];
      CountsItems(tr.q, r, e, p);
      StaysPlain(r, e);
      OneDelivery(tr, r, e, p);
      match CompletedBy(r, e)
      case Nothing =>
      case Completed(call) => RingQueue.StepInOrder(tr, OpOf(call, p.x), s.length, q);
    }
  }

  lemma OneDelivery(tr: RingQueue.Trace, s: State, e: Event, p: Payload)
    requires |tr.q| == s.n && PlainTasks(s) && Plain(e) && !p.front
    ensures match CompletedBy(s, e)
            case Nothing => ItemsAfter(tr.q, s, e, p) == tr.q
            case Completed(call) => RingQueue.Step(tr, OpOf(call, p.x), s.length).q == ItemsAfter(tr.q, s, e, p)
  {
  }

  /** What a step adds to the items taken. */
  lemma DeliveredStep(q: seq<Item>, s: State, events: seq<Event>, payload: seq<Payload>, k: nat)
    requires k < |events| == |payload| && |q| == s.n <= s.length
    ensures PlainRun(s, events, payload) ==>
              Delivered(q, s, events, payload, k + 1).taken
              == Delivered(q, s, events, payload, k).taken
                 + match CompletedBy(After(s, events, k), events[k])
                   case Completed(Receive(false)) => FirstOf(ItemsRun(q, s, events, payload, k))
                   case _ => []
  {
    hide ItemsRun, Next, Enabled, PlainTasks;
    if PlainRun(s, events, payload) { DeliveredInOrder(q, s, events, payload, k); }
  }
}
