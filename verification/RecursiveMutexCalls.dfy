/** Recursive mutexes (arm/FreeRTOS/queue.c): what whole calls come to. A call that finds
    the mutex free or its own gets through by its own steps, whatever others do between
    them, and one that comes back with nothing had a reason. */
module RecursiveMutexCalls {
  import opened RecursiveMutex

  // --- a call by itself ---

  /** A call of t and its next n instructions, with nobody else moving. */
  function Alone(call: Event, n: nat): seq<Event> {
    [call] + seq(n, _ => Step(call.t))
  }

  function Outcome(s: State, call: Event, n: nat): State {
    After(s, Alone(call, n), n + 1)
  }

  lemma {:induction false} AloneTwice(s: State, call: Event, n: nat, k: nat)
    requires k <= n + 1
    ensures After(s, Alone(call, n + 1), k) == After(s, Alone(call, n), k)
  {
    hide Next;
    if k > 0 { AloneTwice(s, call, n, k - 1); }
  }

  /** One more instruction. */
  lemma OneMore(s: State, call: Event, n: nat)
    ensures Outcome(s, call, 0) == Next(s, call)
    ensures Outcome(s, call, n + 1) == Next(Outcome(s, call, n), Step(call.t))
  {
    hide Next;
    AloneTwice(s, call, n, n + 1);
    assert After(s, Alone(call, 0), 1) == Next(After(s, Alone(call, 0), 0), Alone(call, 0)[0]);
  }

  /** The state with the mutex and the task of t changed. */
  function With(s: State, holder: Holder, count: Count, t: nat, task: Task): State
    requires t < |s.tasks|
  {
    State(if holder == Nobody then 1 else 0, holder, count, s.tasks[t := task])
  }

  predicate Rests(s: State, t: nat) {
    Invariant(s) && t < |s.tasks| && s.tasks[t].pc == Idle
  }

  /** Someone other than t holds the mutex. */
  predicate HeldByOther(s: State, t: nat) {
    s.holder.Held? && s.holder.t != t
  }

  /** A take of a free mutex: the caller holds it, one deep, and has returned. */
  lemma TakesFree(s: State, t: nat)
    requires Rests(s, t) && s.holder == Nobody
    ensures Outcome(s, CallTake(t), 4)
            == With(s, Held(t), 1, t, Task(Idle, s.tasks[t].takes + 1, s.tasks[t].gives))
  {
    hide Outcome;
    var x := s.tasks[t];
    var e := CallTake(t);
    OneMore(s, e, 0);
    OneMore(s, e, 1);
    OneMore(s, e, 2);
    OneMore(s, e, 3);
    assert Outcome(s, e, 0) == With(s, Nobody, 0, t, x.(pc := TakeTest));
    assert Outcome(s, e, 1) == With(s, Nobody, 0, t, x.(pc := TakeReceive));
    assert Outcome(s, e, 2) == With(s, Held(t), 0, t, x.(pc := TakeLoad));
    assert Outcome(s, e, 3) == With(s, Held(t), 0, t, x.(pc := TakeStore(0)));
  }

  /** A take of a mutex t holds already, nested less deep than the count can tell. */
  lemma TakesOwn(s: State, t: nat)
    requires Rests(s, t) && s.holder == Held(t) && s.count + 1 < COUNT_LIMIT
    ensures Outcome(s, CallTake(t), 3)
            == With(s, Held(t), s.count + 1, t, Task(Idle, s.tasks[t].takes + 1, s.tasks[t].gives))
  {
    hide Outcome;
    var x := s.tasks[t];
    var e := CallTake(t);
    OneMore(s, e, 0);
    OneMore(s, e, 1);
    OneMore(s, e, 2);
    assert Outcome(s, e, 0) == With(s, Held(t), s.count, t, x.(pc := TakeTest));
    assert Outcome(s, e, 1) == With(s, Held(t), s.count, t, x.(pc := TakeLoad));
    assert Outcome(s, e, 2) == With(s, Held(t), s.count, t, x.(pc := TakeStore(s.count)));
  }

  /** A give by the holder: one less deep, and free if and only if that was the last. */
  lemma GivesOwn(s: State, t: nat)
    requires Rests(s, t) && s.holder == Held(t)
    ensures Outcome(s, CallGive(t), if s.count == 1 then 5 else 4)
            == With(s, if s.count == 1 then Nobody else Held(t), s.count - 1, t,
                    Task(Idle, s.tasks[t].takes, s.tasks[t].gives + 1))
  {
    hide Outcome;
    var x, c := s.tasks[t], s.count;
    var e := CallGive(t);
    OneMore(s, e, 0);
    OneMore(s, e, 1);
    OneMore(s, e, 2);
    OneMore(s, e, 3);
    OneMore(s, e, 4);
    assert Outcome(s, e, 0) == With(s, Held(t), c, t, x.(pc := GiveTest));
    assert Outcome(s, e, 1) == With(s, Held(t), c, t, x.(pc := GiveLoad));
    assert Outcome(s, e, 2) == With(s, Held(t), c, t, x.(pc := GiveStore(c)));
    assert Outcome(s, e, 3) == With(s, Held(t), c - 1, t, x.(pc := GiveCheck));
    if c == 1 {
      assert Outcome(s, e, 4) == With(s, Held(t), 0, t, x.(pc := GiveRelease));
    }
  }

  // --- a call among others ---

  /** Exactly when a call comes back with nothing taken and nothing given: a take whose
      wait ends while another task holds the mutex, or a give by a task that does not
      hold it. */
  lemma ComesBackWithNothing(s: State, e: Event, t: nat)
    requires Invariant(s) && t < |s.tasks| && s.tasks[t].pc != Idle
    ensures Next(s, e).tasks[t] == s.tasks[t].(pc := Idle) <==>
              || (e == TakeFails(t) && s.tasks[t].pc == TakeReceive && HeldByOther(s, t))
              || (e == Step(t) && s.tasks[t].pc == GiveTest && s.holder != Held(t))
  {
    OtherIs(s, t);
  }

  /** The wait of a take ends as soon as t moves and the mutex is free, and t holds it then. */
  lemma WaitEnds(s: State, t: nat)
    requires Invariant(s) && t < |s.tasks| && s.tasks[t].pc == TakeReceive
    ensures Next(s, Step(t)).holder == Held(t) <==> s.holder == Nobody
    ensures s.holder == Nobody ==> Next(s, Step(t)).tasks[t] == s.tasks[t].(pc := TakeLoad)
    ensures s.holder != Nobody ==> Next(s, Step(t)) == s
  {
    OtherIs(s, t);
  }

  function OwnSteps(events: seq<Event>, t: nat, k: nat): nat
    requires k <= |events|
  {
    if k == 0 then 0 else OwnSteps(events, t, k - 1) + (if events[k - 1] == Step(t) then 1 else 0)
  }

  /** At most how many of its own instructions a call of the holder still has to go. */
  function Remaining(pc: Pc): nat {
    match pc
    case Idle => 0
    case TakeTest => 3
    case TakeReceive => 3
    case TakeLoad => 2
    case TakeStore(_) => 1
    case GiveTest => 5
    case GiveLoad => 4
    case GiveStore(_) => 3
    case GiveCheck => 2
    case GiveRelease => 1
  }

  predicate IsTake(pc: Pc) {
    pc == TakeTest || pc == TakeReceive || pc == TakeLoad || pc.TakeStore?
  }

  /** The task once its call has succeeded. */
  function Done(x: Task): Task {
    if IsTake(x.pc) then Task(Idle, x.takes + 1, x.gives) else Task(Idle, x.takes, x.gives + 1)
  }

  /** A call on its way that began as x, with the mutex held. */
  predicate Underway(s: State, t: nat, x: Task) {
    && t < |s.tasks| && s.holder == Held(t) && s.tasks[t].pc != Idle && IsTake(s.tasks[t].pc) == IsTake(x.pc)
    && s.tasks[t].takes == x.takes && s.tasks[t].gives == x.gives
  }

  lemma HolderStep(s: State, e: Event, t: nat, x: Task)
    requires Invariant(s) && !Wraps(s, e) && Underway(s, t, x)
    ensures var s' := Next(s, e);
            if e == Step(t) then
              || (Underway(s', t, x) && Remaining(s'.tasks[t].pc) < Remaining(s.tasks[t].pc))
              || (t < |s'.tasks| && s'.tasks[t] == Done(x))
            else Underway(s', t, x) && s'.tasks[t] == s.tasks[t]
  {
    if e.t != t { OtherIs(s, e.t); }
  }

  lemma RestsOn(s: State, e: Event, t: nat)
    requires t < |s.tasks| && s.tasks[t].pc == Idle && e != CallTake(t) && e != CallGive(t)
    ensures t < |Next(s, e).tasks| && Next(s, e).tasks[t] == s.tasks[t]
  {
  }

  /** No new call by t in the first k events. */
  predicate NoCall(events: seq<Event>, t: nat, k: nat)
    requires k <= |events|
  {
    forall i :: 0 <= i < k ==> events[i] != CallTake(t) && events[i] != CallGive(t)
  }

  /** Whatever the others do in between, a call of the holder has succeeded once it has
      had as many instructions as it had to go: at most three for a take, five for a give. */
  lemma {:induction false} HolderGetsThrough(s: State, events: seq<Event>, k: nat, t: nat)
    requires k <= |events| && Invariant(s) && NeverWraps(s, events, k) && NoCall(events, t, k)
    requires t < |s.tasks| && s.holder == Held(t) && s.tasks[t].pc != Idle
    ensures var r := After(s, events, k); var x := s.tasks[t];
            && Invariant(r)
            && ((Underway(r, t, x) && Remaining(r.tasks[t].pc) + OwnSteps(events, t, k) <= Remaining(x.pc))
                || (t < |r.tasks| && r.tasks[t] == Done(x)))
            && (OwnSteps(events, t, k) >= Remaining(x.pc) ==> t < |r.tasks| && r.tasks[t] == Done(x))
  {
    hide Invariant, Next, Wraps, Done;
    var x := s.tasks[t];
    if k > 0 {
      HolderGetsThrough(s, events, k - 1, t);
      var r, e := After(s, events, k - 1), events[k - 1];
      StepExact(r, e);
      DoneRests(x);
      if Underway(r, t, x) {
        HolderStep(r, e, t, x);
      } else {
        RestsOn(r, e, t);
      }
    }
  }

  lemma DoneRests(x: Task)
    ensures Done(x).pc == Idle
  {
  }
}
