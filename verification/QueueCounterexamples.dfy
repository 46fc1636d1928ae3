/** Two runs of the queue protocol that leave a task blocked for good: a reset with
    several senders blocked, and the 128th interrupt while the queue is locked. */
module QueueCounterexamples {
  import opened QueueProtocol
  import opened QueueSafety
  import opened QueueCalls

  /** A task is blocked although the queue could serve it, and nobody is on the way
      to see that. */
  predicate Stranded(s: State) {
    && s.owner == -1 && Woken(s.tasks, Sender) == 0 && Woken(s.tasks, Receiver) == 0
    && ((s.toReceive != [] && s.n > 0) || (s.toSend != [] && s.n < s.length))
  }

  // --- the 128th interrupt ---

  function Sends(): seq<Event> {
    seq(128, i => IsrSend(false))
  }

  lemma {:induction false} Burst(s: State, k: nat)
    requires s.tx == 0 && k <= 128 && s.n + 128 <= s.length
    ensures After(s, Sends(), k) == s.(n := s.n + k, tx := if k < 128 then k else -128)
  {
    if k > 0 { Burst(s, k - 1); }
  }

  const ONE_READER := State(128, 0, UNLOCKED, UNLOCKED, [], [], [Task(Receive(false), Idle, false, 1)], -1)

  function OverflowRun(): seq<Event> {
    Joining(0, Receive(false)) + Sends() + Leaving(0)
  }

  /** A receiver joins the list of an empty queue; 128 interrupts fill the queue before
      it is unlocked; the count has wrapped, and the receiver sleeps on. */
  lemma OverflowStrands()
    ensures Initial(ONE_READER) && Stranded(After(ONE_READER, OverflowRun(), |OverflowRun()|))
  {
    hide After, Next;
    var s := ONE_READER;
    var a, b, c := Joining(0, Receive(false)), Sends(), Leaving(0);
    var x := Task(Receive(false), UnlockTx(Block), false, 1);
    AfterConcat(s, a + b, c, 3);
    AfterConcat(s, a, b, 128);
    Joins(s, 0, Receive(false));
    assert After(s, a, 7) == State(128, 0, 0, 0, [], [0], [x], 0);
    Burst(After(s, a, 7), 128);
    assert After(s, a + b, 135) == State(128, 128, -128, 0, [], [0], [x], 0);
    Leaves(After(s, a + b, 135), 0, Block);
    assert After(s, a + b + c, 138) == State(128, 128, UNLOCKED, UNLOCKED, [], [0], [x.(pc := Waiting)], -1);
    NoneAwake(x.(pc := Waiting));
  }

  lemma NoneAwake(task: Task)
    requires !task.woken
    ensures Woken([task], Sender) == 0 && Woken([task], Receiver) == 0
  {
    assert [task][..0] == [];
  }

  lemma NeitherAwake(a: Task, b: Task)
    requires !a.woken && !b.woken
    ensures Woken([a, b], Sender) == 0 && Woken([a, b], Receiver) == 0
  {
    NoneAwake(a);
    assert [a, b][..1] == [a];
  }

  // --- a reset with two senders blocked ---

  const TWO_WRITERS :=
    State(2, 2, UNLOCKED, UNLOCKED, [], [], [Task(Send(false), Idle, false, 1), Task(Send(false), Idle, false, 1)], -1)

  function ResetRun(): seq<Event> {
    Joining(0, Send(false)) + Leaving(0) + (Joining(1, Send(false)) + Leaving(1))
          + [Reset, Dispatch(0), Attempt(0, true)]
  }

  /** Two senders wait for room; a reset makes room for both but wakes only one, and
      once that one has sent, the other sleeps beside a free slot. */
  lemma ResetStrands()
    ensures Initial(TWO_WRITERS) && Stranded(After(TWO_WRITERS, ResetRun(), |ResetRun()|))
  {
    hide After, Next;
    var s := TWO_WRITERS;
    var a, b, c, d := Joining(0, Send(false)), Leaving(0), Joining(1, Send(false)), Leaving(1);
    var e := [Reset, Dispatch(0), Attempt(0, true)];
    var w, x := Task(Send(false), Waiting, false, 1), Task(Send(false), UnlockTx(Block), false, 1);
    AfterConcat(s, a, b, 3);
    Joins(s, 0, Send(false));
    assert After(s, a, 7) == State(2, 2, 0, 0, [0], [], [x, s.tasks[1]], 0);
    Leaves(After(s, a, 7), 0, Block);
    var s1 := After(s, a + b, 10);
    assert s1 == State(2, 2, UNLOCKED, UNLOCKED, [0], [], [w, s.tasks[1]], -1);
    AfterConcat(s1, c, d, 3);
    Joins(s1, 1, Send(false));
    assert After(s1, c, 7) == State(2, 2, 0, 0, [0, 1], [], [w, x], 1);
    Leaves(After(s1, c, 7), 1, Block);
    var s2 := After(s1, c + d, 10);
    assert s2 == State(2, 2, UNLOCKED, UNLOCKED, [0, 1], [], [w, w], -1);
    AfterConcat(s, a + b, c + d, 10);
    AfterConcat(s, a + b + (c + d), e, 3);
    OneLeft(s2);
  }

  lemma OneLeft(s: State)
    requires s == State(2, 2, UNLOCKED, UNLOCKED, [0, 1], [],
                        [Task(Send(false), Waiting, false, 1), Task(Send(false), Waiting, false, 1)], -1)
    ensures Stranded(After(s, [Reset, Dispatch(0), Attempt(0, true)], 3))
  {
    hide After, Unlocked, Resumed, Interrupted, Placed;
    var e := [Reset, Dispatch(0), Attempt(0, true)];
    var w := Task(Send(false), Waiting, false, 1);
    AfterOne(s, e, 0);
    AfterOne(s, e, 1);
    AfterOne(s, e, 2);
    assert After(s, e, 1) == s.(n := 0, toSend := [1], tasks := [w.(woken := true), w]);
    assert After(s, e, 2) == s.(n := 0, toSend := [1], tasks := [w.(woken := true, pc := Try), w]);
    assert After(s, e, 3) == s.(n := 1, toSend := [1], tasks := [w.(pc := Idle), w]);
    NeitherAwake(w.(pc := Idle), w);
  }
}
