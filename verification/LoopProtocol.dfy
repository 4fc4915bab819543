/** The functor queue of EventLoop.cpp as a state machine: other threads push and then wake the
    loop, the loop thread polls, handles events, runs a batch of functors and expires timers. */
module LoopProtocol {
  import opened Wrappers

  type Thread = nat

  /** The thread that owns the loop. */
  const LOOP: Thread := 0

  datatype Task = Task(owner: Thread, id: nat)

  /** Where the loop thread is (EventLoop.cpp:95-107); Done is behind the loop. */
  datatype Phase = Poll | Events | Batch | Expire | Done

  /** pending is pendingFunctors_, batch the rest of the local vector of doPendingFunctors.  The
      eventfd is its counter and whether epoll still owes an edge for it; mustRead says that the
      current round has been told about it.  gap holds the threads between push, or setting quit_, and
      wakeup.
      executed, history and mark (the length of history at the last swap) record the run. */
  datatype State = State(phase: Phase, pending: seq<Task>, batch: seq<Task>, counter: nat, edge: bool,
                         mustRead: bool, gap: set<Thread>, quit: bool,
                         executed: seq<Task>, history: seq<Task>, mark: nat)

  const START := State(Poll, [], [], 0, false, false, {}, false, [], [], 0)

  // ---------------------------------------------------------------- the steps

  /** The locked part of queueInLoop; the thread still has to decide about the wakeup. */
  function Push(s: State, t: Task): State {
    s.(pending := s.pending + [t], history := s.history + [t])
  }

  /** The test behind the lock (EventLoop.cpp:85); callingPendingFunctors_ is set during Batch. */
  predicate MustWake(s: State, thread: Thread) {
    thread != LOOP || s.phase == Batch
  }

  /** Every write to the eventfd adds to its counter and raises an edge. */
  function Signal(s: State): State {
    s.(counter := s.counter + 1, edge := true)
  }

  function PollReturns(s: State, seen: bool): State {
    s.(phase := Events, edge := s.edge && !seen, mustRead := seen)
  }

  function ReadWakeup(s: State): State {
    s.(counter := 0, mustRead := false)
  }

  function BeginBatch(s: State): State {
    s.(phase := Batch, batch := s.pending, pending := [], mark := |s.history|)
  }

  function RunTask(s: State): State
    requires s.batch != []
  {
    s.(executed := s.executed + [s.batch[0]], batch := s.batch[1..])
  }

  datatype Action =
    | Enqueue(t: Task)
    | Wake(thread: Thread)
    | Quit(thread: Thread)
    | Return(seen: bool)
    | Read
    | Swap
    | Run
    | EndBatch
    | EndRound

  /** The loop thread queues from event handlers and functors only, and goes on only when it has
      finished queueInLoop. */
  predicate Enabled(s: State, a: Action) {
    match a
    case Enqueue(t) => t.owner !in s.gap && (t.owner == LOOP ==> s.phase == Events || s.phase == Batch)
    case Wake(thread) => thread in s.gap
    case Quit(thread) => thread !in s.gap && (thread == LOOP ==> s.phase == Events || s.phase == Batch)
    case Return(seen) => s.phase == Poll && (seen ==> s.edge && s.counter > 0)
    case Read => s.phase == Events && s.mustRead
    case Swap => s.phase == Events && !s.mustRead
    case Run => s.phase == Batch && s.batch != [] && LOOP !in s.gap
    case EndBatch => s.phase == Batch && s.batch == [] && LOOP !in s.gap
    case EndRound => s.phase == Expire
  }

  function Step(s: State, a: Action): State
    requires Enabled(s, a)
  {
    match a
    case Enqueue(t) =>
      var u := Push(s, t);
      if MustWake(s, t.owner) then u.(gap := u.gap + {t.owner}) else u
    case Wake(thread) => Signal(s).(gap := s.gap - {thread})
    case Quit(thread) =>
      var u := s.(quit := true);
      if thread != LOOP then u.(gap := u.gap + {thread}) else u
    case Return(seen) => PollReturns(s, seen)
    case Read => ReadWakeup(s)
    case Swap => BeginBatch(s)
    case Run => RunTask(s)
    case EndBatch => s.(phase := Expire)
    case EndRound => s.(phase := if s.quit then Done else Poll)
  }

  function Exec(acts: seq<Action>): Option<State> {
    if acts == [] then Some(START)
    else
      var r := Exec(acts[..|acts| - 1]);
      var a := acts[|acts| - 1];
      if r.Some? && Enabled(r.value, a) then Some(Step(r.value, a)) else None
  }

  // ---------------------------------------------------------------- the invariant

  /** A queued functor will be seen: by the swap of this round, by a signal, or by a thread that is
      about to signal. */
  predicate Covered(s: State) {
    s.pending == [] || s.phase == Events || s.counter > 0 || s.gap != {}
  }

  /** The flag is set while the loop waits: a signal will end the wait, or a thread is about to raise one. */
  predicate QuitCovered(s: State) {
    s.quit && s.phase == Poll ==> s.counter > 0 || s.gap != {}
  }

  predicate SignalsOk(s: State) {
    && Covered(s) && QuitCovered(s)
    && (s.counter > 0 ==> s.edge || s.mustRead)
    && (s.mustRead ==> s.phase == Events)
    && (LOOP in s.gap ==> s.phase == Batch)
  }

  predicate OrderOk(s: State) {
    && s.executed + s.batch + s.pending == s.history
    && (if s.phase == Batch then s.mark == |s.executed| + |s.batch| else s.batch == [])
  }

  predicate Inv(s: State) {
    SignalsOk(s) && OrderOk(s)
  }

  lemma StepKeepsSignals(s: State, a: Action)
    requires SignalsOk(s) && Enabled(s, a)
    ensures SignalsOk(Step(s, a))
  {
  }

  lemma StepKeepsOrder(s: State, a: Action)
    requires OrderOk(s) && Enabled(s, a)
    ensures OrderOk(Step(s, a))
  {
    match a
    case Enqueue(t) =>
      assert s.executed + s.batch + (s.pending + [t]) == s.history + [t];
    case Swap =>
      assert s.executed + [] + s.pending == s.executed + s.pending + [];
    case Run =>
      assert s.batch == [s.batch[0]] + s.batch[1..];
      assert s.executed + [s.batch[0]] + s.batch[1..] == s.executed + s.batch;
    case _ =>
  }

  lemma {:induction false} ReachableInv(acts: seq<Action>)
    requires Exec(acts).Some?
    ensures Inv(Exec(acts).value)
  {
    if acts != [] {
      ReachableInv(acts[..|acts| - 1]);
      var s, a := Exec(acts[..|acts| - 1]).value, acts[|acts| - 1];
      StepKeepsSignals(s, a);
      StepKeepsOrder(s, a);
    }
  }

  // ---------------------------------------------------------------- what every run keeps

  /** No lost wakeup: when the loop is about to poll with functors pending and no thread stands
      between its push and its wakeup, the eventfd is readable and epoll owes an edge for it.  So
      poll can return it, and the swap of that round takes every pending functor. */
  lemma NoLostWakeup(acts: seq<Action>)
    requires Exec(acts).Some?
    ensures var s := Exec(acts).value;
            s.phase == Poll && s.pending != [] && s.gap == {} ==>
              && s.counter > 0 && s.edge
              && Enabled(s, Return(true))
              && var r := Step(s, Return(true));
                 Enabled(r, Read) && Enabled(Step(r, Read), Swap)
                 && Step(Step(r, Read), Swap).batch == s.pending
  {
    ReachableInv(acts);
  }

  /** Conservation: the executed functors, the rest of the batch and the pending ones are exactly
      the queued ones in lock order.  So each runs at most once, and in that order. */
  lemma Conservation(acts: seq<Action>)
    requires Exec(acts).Some?
    ensures var s := Exec(acts).value;
            s.executed + s.batch + s.pending == s.history && s.executed <= s.history
  {
    ReachableInv(acts);
    var s := Exec(acts).value;
    assert s.history[..|s.executed|] == s.executed;
  }

  /** The functors of one producer. */
  function Of(tasks: seq<Task>, owner: Thread): seq<Task> {
    if tasks == [] then []
    else
      Of(tasks[..|tasks| - 1], owner) +
      if tasks[|tasks| - 1].owner == owner then [tasks[|tasks| - 1]] else []
  }

  lemma {:induction false} OfSplit(a: seq<Task>, b: seq<Task>, owner: Thread)
    ensures Of(a + b, owner) == Of(a, owner) + Of(b, owner)
  {
    if b == [] {
      assert a + b == a;
    } else {
      OfSplit(a, b[..|b| - 1], owner);
      assert (a + b)[..|a + b| - 1] == a + b[..|b| - 1];
    }
  }

  lemma PrefixOfSum(a: seq<Task>, b: seq<Task>)
    ensures a <= a + b
  {
  }

  /** First in, first out for every producer: what has run of its functors is a first part of what
      it queued. */
  lemma FifoPerProducer(acts: seq<Action>, owner: Thread)
    requires Exec(acts).Some?
    ensures Of(Exec(acts).value.executed, owner) <= Of(Exec(acts).value.history, owner)
  {
    hide Of;
    Conservation(acts);
    var s := Exec(acts).value;
    var rest := s.batch + s.pending;
    assert s.history == s.executed + rest;
    OfSplit(s.executed, rest, owner);
    PrefixOfSum(Of(s.executed, owner), Of(rest, owner));
  }

  /** While a batch runs, it is the queue as of its swap; whatever is queued meanwhile, also by the
      functors of the batch, waits for the next one. */
  lemma BatchIsFixed(acts: seq<Action>)
    requires Exec(acts).Some? && Exec(acts).value.phase == Batch
    ensures var s := Exec(acts).value;
            && s.mark <= |s.history|
            && s.executed + s.batch == s.history[..s.mark]
            && s.pending == s.history[s.mark..]
  {
    ReachableInv(acts);
    var s := Exec(acts).value;
    assert s.history == (s.executed + s.batch) + s.pending;
  }

  predicate QuitCalled(acts: seq<Action>) {
    exists k :: 0 <= k < |acts| && acts[k].Quit?
  }

  lemma QuitCalledSnoc(acts: seq<Action>)
    requires acts != []
    ensures QuitCalled(acts) <==> QuitCalled(acts[..|acts| - 1]) || acts[|acts| - 1].Quit?
  {
    var init := acts[..|acts| - 1];
    assert forall k :: 0 <= k < |init| ==> acts[k] == init[k];
  }

  lemma OnlyQuitSetsFlag(s: State, a: Action)
    requires Enabled(s, a)
    ensures Step(s, a).quit <==> s.quit || a.Quit?
  {
  }

  /** The flag says whether quit() has been called since loop() began. */
  lemma {:induction false} FlagIff(acts: seq<Action>)
    requires Exec(acts).Some?
    ensures Exec(acts).value.quit <==> QuitCalled(acts)
  {
    if acts != [] {
      hide Enabled, Step, QuitCalled;
      var init := acts[..|acts| - 1];
      FlagIff(init);
      QuitCalledSnoc(acts);
      OnlyQuitSetsFlag(Exec(init).value, acts[|acts| - 1]);
    }
  }

  /** No lost quit: when the flag is set while the loop waits and no thread stands in front of its wakeup, the
      eventfd is readable with an edge due, and the round that poll's return begins is the last one. */
  lemma NoLostQuit(acts: seq<Action>)
    requires Exec(acts).Some?
    ensures var s := Exec(acts).value;
            s.quit && s.phase == Poll && s.gap == {} ==> s.counter > 0 && s.edge && Enabled(s, Return(true))
  {
    ReachableInv(acts);
  }

  /** How often the eventfd is written to in a schedule, and how often poll reports it. */
  function Signals(acts: seq<Action>): nat {
    if acts == [] then 0 else Signals(acts[..|acts| - 1]) + if acts[|acts| - 1].Wake? then 1 else 0
  }

  function Reports(acts: seq<Action>): nat {
    if acts == [] then 0
    else Reports(acts[..|acts| - 1]) + if acts[|acts| - 1].Return? && acts[|acts| - 1].seen then 1 else 0
  }

  /** The registration is edge-triggered: poll reports a write at most once, and an edge that is due has its own. */
  lemma {:induction false} ReportsAreSignals(acts: seq<Action>)
    requires Exec(acts).Some?
    ensures Reports(acts) + (if Exec(acts).value.edge then 1 else 0) <= Signals(acts)
  {
    if acts != [] {
      ReportsAreSignals(acts[..|acts| - 1]);
    }
  }

  /** How often poll returns in a schedule. */
  function Returns(acts: seq<Action>): nat {
    if acts == [] then 0 else Returns(acts[..|acts| - 1]) + if acts[|acts| - 1].Return? then 1 else 0
  }

  /** Once the flag is set the loop comes back to poll no more: from a wait poll returns at most once, and from
      anywhere else never. */
  lemma {:induction false} QuitEndsLoop(acts: seq<Action>, more: seq<Action>)
    requires Exec(acts).Some? && Exec(acts).value.quit && Exec(acts + more).Some?
    ensures var s, u := Exec(acts).value, Exec(acts + more).value;
            && u.quit && (u.phase == Poll ==> s.phase == Poll && Returns(more) == 0)
            && Returns(more) <= if s.phase == Poll then 1 else 0
    decreases |more|
  {
    hide Step, Enabled;
    if more == [] {
      assert acts + more == acts;
    } else {
      var init, a := more[..|more| - 1], more[|more| - 1];
      assert (acts + more)[..|acts + more| - 1] == acts + init && (acts + more)[|acts + more| - 1] == a;
      QuitEndsLoop(acts, init);
      StepWithQuit(Exec(acts + init).value, a);
    }
  }

  lemma StepWithQuit(s: State, a: Action)
    requires s.quit && Enabled(s, a)
    ensures Step(s, a).quit && (Step(s, a).phase == Poll ==> s.phase == Poll && !a.Return?)
    ensures a.Return? ==> s.phase == Poll
  {
  }

  // ---------------------------------------------------------------- what other threads do meanwhile

  /** A step of another thread. */
  predicate Foreign(a: Action) {
    (a.Enqueue? && a.t.owner != LOOP) || (a.Wake? && a.thread != LOOP) || (a.Quit? && a.thread != LOOP)
  }

  /** The other thread takes its step if it can. */
  function Meanwhile(s: State, a: Action): State {
    if Foreign(a) && Enabled(s, a) then Step(s, a) else s
  }

  function Others(s: State, acts: seq<Action>): State
    decreases |acts|
  {
    if acts == [] then s else Others(Meanwhile(s, acts[0]), acts[1..])
  }

  /** Whatever other threads do, the loop thread stays where it is; they can only add functors to the queue,
      signals, a quit, and themselves. */
  predicate OnlyAdds(s: State, u: State, added: seq<Task>) {
    && u == s.(pending := s.pending + added, history := s.history + added,
               counter := u.counter, edge := u.edge, gap := u.gap, quit := u.quit)
    && s.counter <= u.counter && (s.edge ==> u.edge) && (s.quit ==> u.quit) && (LOOP in u.gap <==> LOOP in s.gap)
  }

  lemma AddsTwice(s: State, t: State, u: State, first: seq<Task>, second: seq<Task>)
    requires OnlyAdds(s, t, first) && OnlyAdds(t, u, second)
    ensures OnlyAdds(s, u, first + second)
  {
    assert s.pending + first + second == s.pending + (first + second);
    assert s.history + first + second == s.history + (first + second);
  }

  lemma MeanwhileAdds(s: State, a: Action) returns (added: seq<Task>)
    ensures OnlyAdds(s, Meanwhile(s, a), added) && (Inv(s) ==> Inv(Meanwhile(s, a)))
  {
    added := [];
    if Foreign(a) && Enabled(s, a) {
      if Inv(s) {
        StepKeepsSignals(s, a);
        StepKeepsOrder(s, a);
      }
      if a.Enqueue? {
        added := [a.t];
      }
    }
  }

  lemma {:induction false} OthersAdd(s: State, acts: seq<Action>) returns (added: seq<Task>)
    ensures OnlyAdds(s, Others(s, acts), added) && (Inv(s) ==> Inv(Others(s, acts)))
    decreases |acts|
  {
    hide OnlyAdds, Meanwhile;
    if acts == [] {
      added := [];
      SameAdds(s);
    } else {
      var first := MeanwhileAdds(s, acts[0]);
      var rest := OthersAdd(Meanwhile(s, acts[0]), acts[1..]);
      AddsTwice(s, Meanwhile(s, acts[0]), Others(s, acts), first, rest);
      added := first + rest;
    }
  }

  lemma SameAdds(s: State)
    ensures OnlyAdds(s, s, [])
  {
  }

  // ---------------------------------------------------------------- where the loop thread may queue

  /** queueInLoop called and finished by the loop thread, wherever it is in its round. */
  function QueueOnLoop(s: State, id: nat): State {
    var u := Push(s, Task(LOOP, id));
    if MustWake(s, LOOP) then Signal(u) else u
  }

  /** Without a wakeup the functor is covered by the swap that is still to come.  So the loop thread
      may queue at any time if and only if it is handling events or running functors, unless a signal
      is pending anyway or another thread is about to raise one: a functor queued while timers
      expire, or before the first poll, would wait for an unrelated event. */
  lemma QueueOnLoopIff(s: State, id: nat)
    requires Inv(s)
    ensures Covered(QueueOnLoop(s, id)) <==>
            (s.phase == Events || s.phase == Batch || s.counter > 0 || s.gap != {})
  {
  }
}
