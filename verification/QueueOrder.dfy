/** Who is woken first when tasks block on a FreeRTOS queue, and the unlocking loops. */
module QueueOrder {
  import opened QueueProtocol
  import opened QueueSafety

  // --- priority order ---

  /** Highest priority first. */
  predicate Ranked(tasks: seq<Task>, list: seq<nat>) {
    forall i, j :: 0 <= i < j < |list| ==> Priority(tasks, list[i]) >= Priority(tasks, list[j])
  }

  predicate RankedLists(s: State) {
    Ranked(s.tasks, s.toSend) && Ranked(s.tasks, s.toReceive)
  }

  predicate SamePriorities(a: seq<Task>, b: seq<Task>) {
    |a| == |b| && forall t :: 0 <= t < |a| ==> a[t].priority == b[t].priority
  }

  /** Position p parts those of t's own or a higher priority from the rest. */
  predicate Parts(tasks: seq<Task>, list: seq<nat>, t: nat, p: nat) {
    forall i :: 0 <= i < |list| ==> (i < p <==> Priority(tasks, list[i]) >= Priority(tasks, t))
  }

  lemma {:induction false} RankParts(tasks: seq<Task>, list: seq<nat>, t: nat)
    requires Ranked(tasks, list)
    ensures Parts(tasks, list, t, Rank(tasks, list, t))
  {
    if list != [] && Priority(tasks, list[0]) >= Priority(tasks, t) {
      var tail := list[1..];
      RankParts(tasks, tail, t);
      forall i | 0 <= i < |list|
        ensures i < 1 + Rank(tasks, tail, t) <==> Priority(tasks, list[i]) >= Priority(tasks, t)
      {
        if i > 0 { assert list[i] == tail[i - 1]; }
      }
    }
  }

  /** A newcomer waits behind everyone of its own or a higher priority and ahead of
      all others, who keep their order. */
  lemma PlacedInOrder(tasks: seq<Task>, list: seq<nat>, t: nat)
    requires Ranked(tasks, list)
    ensures Ranked(tasks, PlaceByPriority(tasks, list, t))
    ensures var p := Rank(tasks, list, t);
            Parts(tasks, list, t, p) && PlaceByPriority(tasks, list, t) == list[..p] + [t] + list[p..]
  {
    hide Rank;
    RankParts(tasks, list, t);
  }

  lemma RankedSame(a: seq<Task>, b: seq<Task>, list: seq<nat>)
    requires SamePriorities(a, b) && Ranked(a, list)
    ensures Ranked(b, list)
  {
    forall i, j | 0 <= i < j < |list| ensures Priority(b, list[i]) >= Priority(b, list[j]) {
      assert Priority(a, list[i]) >= Priority(a, list[j]);
    }
  }

  lemma RankedDrop(tasks: seq<Task>, list: seq<nat>, t: nat)
    requires Ranked(tasks, list)
    ensures Ranked(tasks, Drop(list, t))
  {
    if list != [] && list[0] != t {
      RankedDrop(tasks, list[1..], t);
      DropElements(list[1..], t);
      var d := Drop(list[1..], t);
      forall j | 0 <= j < |d| ensures Priority(tasks, list[0]) >= Priority(tasks, d[j]) {
        assert d[j] in d;
        assert d[j] in list[1..];
        var i :| 0 <= i < |list[1..]| && list[1..][i] == d[j];
        assert list[i + 1] == d[j];
      }
    }
  }

  // --- steps and runs keep the order ---

  lemma WakesKeepOrder(s: State)
    requires RankedLists(s)
    ensures RankedLists(WakeReceiver(s)) && SamePriorities(s.tasks, WakeReceiver(s).tasks)
    ensures RankedLists(WakeSender(s)) && SamePriorities(s.tasks, WakeSender(s).tasks)
  {
    var r, w := WakeReceiver(s), WakeSender(s);
    RankedSame(s.tasks, r.tasks, s.toSend);
    RankedSame(s.tasks, r.tasks, s.toReceive);
    RankedSame(s.tasks, w.tasks, s.toSend);
    RankedSame(s.tasks, w.tasks, s.toReceive);
  }

  lemma {:induction false} UnlockingKeepsOrder(s: State, count: int)
    requires RankedLists(s)
    ensures RankedLists(WakeReceivers(s, count))
    ensures RankedLists(WakeSenders(s, count))
    decreases |s.toReceive| + |s.toSend|
  {
    hide RankedLists;
    WakesKeepOrder(s);
    if count > 0 && s.toReceive != [] { UnlockingKeepsOrder(WakeReceiver(s), count - 1); }
    if count > 0 && s.toSend != [] { UnlockingKeepsOrder(WakeSender(s), count - 1); }
  }

  lemma ChangedTaskKeepsOrder(s: State, t: nat, x: Task)
    requires RankedLists(s) && t < |s.tasks| && x.priority == s.tasks[t].priority
    ensures RankedLists(s.(tasks := s.tasks[t := x]))
  {
    RankedSame(s.tasks, s.tasks[t := x], s.toSend);
    RankedSame(s.tasks, s.tasks[t := x], s.toReceive);
  }

  lemma MoveKeepsOrder(s: State, e: Event)
    requires RankedLists(s) && IsMove(e) && Enabled(s, e)
    ensures RankedLists(Next(s, e))
  {
    hide Ranked;
    var t := Mover(e);
    ChangedTaskKeepsOrder(s, t, Next(s, e).tasks[t]);
    assert Next(s, e).tasks == s.tasks[t := Next(s, e).tasks[t]];
  }

  lemma TaskStepKeepsOrder(s: State, e: Event)
    requires RankedLists(s) && (e.Attempt? || e.Place? || e.Unlock?) && Enabled(s, e)
    ensures RankedLists(Next(s, e))
  {
    hide Ranked, Rank, PlaceByPriority;
    match e
    case Attempt(t, mayBlock) =>
      var pc := if HasRoom(s, s.tasks[t].call) || !mayBlock then Idle else Failed;
      var rest := s.(tasks := s.tasks[t := s.tasks[t].(woken := false, pc := pc)]);
      ChangedTaskKeepsOrder(s, t, rest.tasks[t]);
      if s.tasks[t].call.Send? { WakesKeepOrder(rest.(n := Added(s.n, s.tasks[t].call.overwrite))); }
      WakesKeepOrder(rest);
      if s.n > 0 { WakesKeepOrder(rest.(n := s.n - 1)); }
    case Place(t) =>
      var x := s.tasks[t].(pc := UnlockTx(Block));
      ChangedTaskKeepsOrder(s, t, x);
      PlacedInOrder(s.tasks, s.toSend, t);
      PlacedInOrder(s.tasks, s.toReceive, t);
      RankedSame(s.tasks, s.tasks[t := x], PlaceByPriority(s.tasks, s.toSend, t));
      RankedSame(s.tasks, s.tasks[t := x], PlaceByPriority(s.tasks, s.toReceive, t));
    case Unlock(t) =>
      if s.tasks[t].pc.UnlockTx? {
        ChangedTaskKeepsOrder(s, t, s.tasks[t].(pc := UnlockRx(s.tasks[t].pc.a)));
        UnlockingKeepsOrder(At(s, t, UnlockRx(s.tasks[t].pc.a)), s.tx);
      } else {
        ChangedTaskKeepsOrder(s, t, s.tasks[t].(pc := Resume(s.tasks[t].pc.a)));
        UnlockingKeepsOrder(At(s, t, Resume(s.tasks[t].pc.a)), s.rx);
      }
  }

  lemma StepKeepsOrder(s: State, e: Event)
    requires RankedLists(s)
    ensures RankedLists(Next(s, e))
  {
    hide Ranked, Rank;
    if Enabled(s, e) {
      if IsMove(e) { MoveKeepsOrder(s, e); }
      else {
        match e
        case Timeout(t) => RankedDrop(s.tasks, s.toSend, t); RankedDrop(s.tasks, s.toReceive, t);
        case Reset => WakesKeepOrder(s.(n := 0, tx := UNLOCKED, rx := UNLOCKED));
        case IsrSend(overwrite) => WakesKeepOrder(s.(n := Added(s.n, overwrite)));
        case IsrReceive => if s.n > 0 { WakesKeepOrder(s.(n := s.n - 1)); }
        case _ => TaskStepKeepsOrder(s, e);
      }
    }
  }

  /** In every run the tasks blocked on either side stand in priority order. */
  lemma {:induction false} RunOrdered(s: State, events: seq<Event>, k: nat)
    requires Initial(s) && k <= |events|
    ensures RankedLists(After(s, events, k))
  {
    if k > 0 {
      hide Next, RankedLists;
      RunOrdered(s, events, k - 1);
      StepKeepsOrder(After(s, events, k - 1), events[k - 1]);
    }
  }

  // --- the highest priority is woken first ---

  predicate IsTail(a: seq<nat>, b: seq<nat>) {
    |a| <= |b| && a == b[|b| - |a|..]
  }

  lemma {:induction false} ReceiversTakeTurns(s: State, count: int)
    ensures IsTail(WakeReceivers(s, count).toReceive, s.toReceive) && WakeReceivers(s, count).toSend == s.toSend
    decreases |s.toReceive|
  {
    if count > 0 && s.toReceive != [] { ReceiversTakeTurns(WakeReceiver(s), count - 1); }
  }

  lemma {:induction false} SendersTakeTurns(s: State, count: int)
    ensures IsTail(WakeSenders(s, count).toSend, s.toSend) && WakeSenders(s, count).toReceive == s.toReceive
    decreases |s.toSend|
  {
    if count > 0 && s.toSend != [] { SendersTakeTurns(WakeSender(s), count - 1); }
  }

  lemma TakesHeads(s: State, e: Event)
    requires Enabled(s, e) && !e.Timeout? && !e.Place?
    ensures IsTail(Next(s, e).toReceive, s.toReceive) && IsTail(Next(s, e).toSend, s.toSend)
  {
    hide Rank;
    if e.Unlock? {
      var pc := s.tasks[e.t].pc;
      ReceiversTakeTurns(At(s, e.t, UnlockRx(pc.a)), s.tx);
      SendersTakeTurns(At(s, e.t, Resume(pc.a)), s.rx);
    }
  }

  lemma HeadsRankHighest(tasks: seq<Task>, list: seq<nat>, rest: seq<nat>, u: nat, v: nat)
    requires Ranked(tasks, list) && IsTail(rest, list) && u in list && u !in rest && v in rest
    ensures Priority(tasks, u) >= Priority(tasks, v)
  {
    var k := |list| - |rest|;
    assert list == list[..k] + rest;
    var i :| 0 <= i < k && list[i] == u;
    var j :| 0 <= j < |rest| && rest[j] == v;
    assert rest[j] == list[k + j];
  }

  /** Whoever an event takes off a list has a priority at least that of everyone it
      leaves there: on the receivers' list and on the senders'. */
  lemma HighestPriorityWoken(s: State, e: Event, u: nat, v: nat)
    requires RankedLists(s) && Enabled(s, e) && !e.Timeout?
    ensures u in s.toReceive && u !in Next(s, e).toReceive && v in Next(s, e).toReceive
            ==> Priority(s.tasks, u) >= Priority(s.tasks, v)
    ensures u in s.toSend && u !in Next(s, e).toSend && v in Next(s, e).toSend
            ==> Priority(s.tasks, u) >= Priority(s.tasks, v)
  {
    hide Ranked, IsTail, Rank, Enabled;
    var s' := Next(s, e);
    if e.Place? {
      PlacedElements(s.tasks, s.toSend, e.t);
      PlacedElements(s.tasks, s.toReceive, e.t);
    } else {
      TakesHeads(s, e);
      if u in s.toReceive && u !in s'.toReceive && v in s'.toReceive {
        HeadsRankHighest(s.tasks, s.toReceive, s'.toReceive, u, v);
      }
      if u in s.toSend && u !in s'.toSend && v in s'.toSend {
        HeadsRankHighest(s.tasks, s.toSend, s'.toSend, u, v);
      }
    }
  }

  // --- the loops of prvUnlockQueue ---

  /** The first critical section: hand out the sends made while the queue was locked. */
  method UnlockSends(s: State, t: nat) returns (r: State)
    requires Enabled(s, Unlock(t)) && s.tasks[t].pc.UnlockTx?
    ensures r == Next(s, Unlock(t))
  {
    var count := s.tx;
    ghost var s0 := At(s, t, UnlockRx(s.tasks[t].pc.a));
    r := At(s, t, UnlockRx(s.tasks[t].pc.a));
    while count > 0
      invariant WakeReceivers(r, count) == WakeReceivers(s0, s.tx)
    {
      if r.toReceive != [] {
        r := WakeReceiver(r);
      } else {
        break;
      }
      count := count - 1;
    }
    r := r.(tx := UNLOCKED);
  }

  /** The second: hand out the receives. */
  method UnlockReceives(s: State, t: nat) returns (r: State)
    requires Enabled(s, Unlock(t)) && s.tasks[t].pc.UnlockRx?
    ensures r == Next(s, Unlock(t))
  {
    var count := s.rx;
    ghost var s0 := At(s, t, Resume(s.tasks[t].pc.a));
    r := At(s, t, Resume(s.tasks[t].pc.a));
    while count > 0
      invariant WakeSenders(r, count) == WakeSenders(s0, s.rx)
    {
      if r.toSend != [] {
        r := WakeSender(r);
        count := count - 1;
      } else {
        break;
      }
    }
    r := r.(rx := UNLOCKED);
  }
}
