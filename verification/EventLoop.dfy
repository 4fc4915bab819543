/** EventLoop.cpp in its own form.  Every method is one step of the protocol or is made of such steps, and
    between any two of them other threads may do whatever they can. */
module EventLoop {
  import P = LoopProtocol

  type Thread = P.Thread
  type Task = P.Task

  /** What a functor or a handler does to its own loop: it queues functors, and may call quit. */
  datatype Effect = Effect(queued: seq<nat>, quits: bool)

  type Effects = Task -> Effect

  /** What one return of poll brings: whether the eventfd is among the ready descriptors, and what
      the other handlers do. */
  datatype Ready = Ready(seen: bool, effect: Effect)

  /** others says what the other threads do at the k-th point at which the loop thread can be overtaken;
      moment counts these points.  gap holds the threads that have pushed and not yet woken the loop. */
  class EventLoop {
    const effects: Effects
    const others: nat -> seq<P.Action>
    var moment: nat
    var phase: P.Phase
    var pendingFunctors: seq<Task>
    var functors: seq<Task>
    var callingPendingFunctors: bool
    var quit: bool
    var wakeupCounter: nat
    var edge: bool
    var toRead: bool
    var gap: set<Thread>
    ghost var executed: seq<Task>
    ghost var history: seq<Task>
    ghost var mark: nat

    /** How often other threads have called quit(). */
    ghost var asked: nat

    /** The state of the protocol; functors is the part of the batch that has not run. */
    ghost function Model(): P.State
      reads this`phase, this`pendingFunctors, this`functors, this`wakeupCounter, this`edge, this`toRead, this`gap
      reads this`quit, this`executed, this`history, this`mark
    {
      P.State(phase, pendingFunctors, functors, wakeupCounter, edge, toRead, gap, quit, executed, history, mark)
    }

    ghost predicate Valid()
      reads this`phase, this`pendingFunctors, this`functors, this`wakeupCounter, this`edge, this`toRead, this`gap
      reads this`quit, this`executed, this`history, this`mark, this`callingPendingFunctors
    {
      P.Inv(Model()) && (callingPendingFunctors <==> phase == P.Batch)
    }

    constructor (effects: Effects, others: nat -> seq<P.Action>)
      ensures Valid() && Model() == P.START && moment == 0 && this.effects == effects && this.others == others
    {
      this.effects, this.others, moment := effects, others, 0;
      phase, pendingFunctors, functors, callingPendingFunctors, quit := P.Poll, [], [], false, false;
      wakeupCounter, edge, toRead := 0, false, false;
      gap, executed, history, mark, asked := {}, [], [], 0, 0;
    }

    // ---------------------------------------------------------------- the steps

    /** The locked part of queueInLoop and the test behind it. */
    method Push(cb: Task) returns (mustWake: bool)
      requires Valid() && P.Enabled(Model(), P.Enqueue(cb))
      modifies this`pendingFunctors, this`history, this`gap
      ensures Valid() && Model() == P.Step(old(Model()), P.Enqueue(cb))
      ensures mustWake == P.MustWake(old(Model()), cb.owner)
    {
      P.StepKeepsSignals(Model(), P.Enqueue(cb));
      P.StepKeepsOrder(Model(), P.Enqueue(cb));
      pendingFunctors, history := pendingFunctors + [cb], history + [cb];
      mustWake := cb.owner != P.LOOP || callingPendingFunctors;
      if mustWake {
        gap := gap + {cb.owner};
      }
    }

    /** wakeup by a thread that has pushed. */
    method Wakeup(thread: Thread)
      requires Valid() && P.Enabled(Model(), P.Wake(thread))
      modifies this`wakeupCounter, this`edge, this`gap
      ensures Valid() && Model() == P.Step(old(Model()), P.Wake(thread))
    {
      wakeupCounter, edge := wakeupCounter + 1, true;
      gap := gap - {thread};
    }

    /** quit up to its wakeup, which is for another thread to raise. */
    method Quit(thread: Thread) returns (mustWake: bool)
      requires Valid() && P.Enabled(Model(), P.Quit(thread))
      modifies this`quit, this`gap, this`asked
      ensures Valid() && Model() == P.Step(old(Model()), P.Quit(thread)) && quit
      ensures mustWake == (thread != P.LOOP) && asked == old(asked) + if mustWake then 1 else 0
    {
      quit, mustWake := true, thread != P.LOOP;
      if mustWake {
        gap, asked := gap + {thread}, asked + 1;
      }
    }

    /** poll returns, perhaps with the eventfd. */
    method PollReturns(seen: bool)
      requires Valid() && P.Enabled(Model(), P.Return(seen))
      modifies this`phase, this`edge, this`toRead
      ensures Valid() && Model() == P.Step(old(Model()), P.Return(seen))
    {
      phase, edge, toRead := P.Events, edge && !seen, seen;
    }

    method HandleRead()
      requires Valid() && P.Enabled(Model(), P.Read)
      modifies this`wakeupCounter, this`toRead
      ensures Valid() && Model() == P.Step(old(Model()), P.Read)
    {
      wakeupCounter, toRead := 0, false;
    }

    /** The beginning of doPendingFunctors. */
    method SwapFunctors()
      requires Valid() && P.Enabled(Model(), P.Swap)
      modifies this`phase, this`functors, this`pendingFunctors, this`callingPendingFunctors, this`mark
      ensures Valid() && Model() == P.Step(old(Model()), P.Swap)
    {
      P.StepKeepsOrder(Model(), P.Swap);
      callingPendingFunctors := true;
      functors, pendingFunctors := pendingFunctors, [];
      phase, mark := P.Batch, |history|;
    }

    /** functors[i](), without what the functor queues. */
    method RunNext() returns (functor: Task)
      requires Valid() && P.Enabled(Model(), P.Run)
      modifies this`executed, this`functors
      ensures Valid() && Model() == P.Step(old(Model()), P.Run) && functor == old(functors[0])
    {
      P.StepKeepsOrder(Model(), P.Run);
      functor := functors[0];
      executed, functors := executed + [functor], functors[1..];
    }

    method EndBatch()
      requires Valid() && P.Enabled(Model(), P.EndBatch)
      modifies this`phase, this`callingPendingFunctors
      ensures Valid() && Model() == P.Step(old(Model()), P.EndBatch)
    {
      callingPendingFunctors := false;
      phase := P.Expire;
    }

    /** The test of the flag, and back to poll or out of the loop. */
    method EndRound()
      requires Valid() && P.Enabled(Model(), P.EndRound)
      modifies this`phase
      ensures Valid() && Model() == P.Step(old(Model()), P.EndRound)
    {
      phase := if quit then P.Done else P.Poll;
    }

    // ---------------------------------------------------------------- other threads

    /** One step of another thread, if it can take it. */
    method Meanwhile(a: P.Action)
      requires Valid()
      modifies this`pendingFunctors, this`history, this`gap, this`wakeupCounter, this`edge, this`quit
      modifies this`asked
      ensures Valid() && Model() == P.Meanwhile(old(Model()), a)
      ensures asked >= old(asked) && quit == (old(quit) || asked > old(asked))
    {
      match a
      case Enqueue(t) =>
        if t.owner != P.LOOP && t.owner !in gap {
          var _ := Push(t);
        }
      case Wake(thread) =>
        if thread != P.LOOP && thread in gap {
          Wakeup(thread);
        }
      case Quit(thread) =>
        if thread != P.LOOP && thread !in gap {
          var _ := Quit(thread);
        }
      case _ =>
    }

    /** The loop thread is overtaken; added is what the others have queued. */
    method Overtaken() returns (ghost added: seq<Task>)
      requires Valid()
      modifies this`moment, this`pendingFunctors, this`history, this`gap, this`wakeupCounter, this`edge, this`quit
      modifies this`asked
      ensures Valid() && moment == old(moment) + 1
      ensures Model() == P.Others(old(Model()), others(old(moment)))
      ensures P.OnlyAdds(old(Model()), Model(), added)
      ensures asked >= old(asked) && quit == (old(quit) || asked > old(asked))
    {
      hide Valid;
      var acts, i := others(moment), 0;
      moment := moment + 1;
      added := P.OthersAdd(Model(), acts);
      assert acts[0..] == acts;
      while i < |acts|
        invariant 0 <= i <= |acts| && Valid() && moment == old(moment) + 1
        invariant P.Others(Model(), acts[i..]) == P.Others(old(Model()), acts)
        invariant asked >= old(asked) && quit == (old(quit) || asked > old(asked))
      {
        Meanwhile(acts[i]);
        assert acts[i..][1..] == acts[i + 1..];
        i := i + 1;
      }
      assert acts[i..] == [];
    }

    // ---------------------------------------------------------------- the loop thread

    /** The loop thread is in its own code, with no wakeup outstanding. */
    ghost predicate AtWork(where: P.Phase)
      reads this`phase, this`pendingFunctors, this`functors, this`wakeupCounter, this`edge, this`toRead, this`gap
      reads this`quit, this`executed, this`history, this`mark, this`callingPendingFunctors
    {
      Valid() && phase == where && P.LOOP !in gap
    }

    /** Between two moments the loop thread has queued functors at most, and was overtaken: added is what
        has come to the queue from all sides. */
    twostate predicate Queued(added: seq<Task>)
      reads this
    {
      && phase == old(phase) && functors == old(functors) && executed == old(executed)
      && pendingFunctors == old(pendingFunctors) + added && history == old(history) + added
      && toRead == old(toRead)
      && moment >= old(moment) && asked >= old(asked) && quit == (old(quit) || asked > old(asked))
    }

    /** All of these functors of the loop thread are in the queue. */
    predicate Holds(tasks: seq<Task>, ids: seq<nat>) {
      forall id :: id in ids ==> P.Task(P.LOOP, id) in tasks
    }

    /** The loop thread is overtaken at its work. */
    method Pause() returns (ghost added: seq<Task>)
      requires AtWork(phase)
      modifies this`moment, this`pendingFunctors, this`history, this`gap, this`wakeupCounter, this`edge, this`quit
      modifies this`asked
      ensures AtWork(phase) && Queued(added) && moment == old(moment) + 1
    {
      added := Overtaken();
    }

    /** queueInLoop on the loop thread. */
    method QueueHere(cb: Task) returns (ghost added: seq<Task>)
      requires (AtWork(P.Events) || AtWork(P.Batch)) && cb.owner == P.LOOP
      modifies this`moment, this`pendingFunctors, this`history, this`gap, this`wakeupCounter, this`edge, this`quit
      modifies this`asked
      ensures AtWork(phase) && Queued(added) && cb in added
    {
      hide Valid, P.Others;
      var first := Pause();
      var mustWake := Push(cb);
      added := first + [cb];
      Associative(old(pendingFunctors), first, [cb]);
      Associative(old(history), first, [cb]);
      if mustWake {
        var second := Overtaken();
        Wakeup(P.LOOP);
        Associative(old(pendingFunctors), added, second);
        Associative(old(history), added, second);
        added := added + second;
      }
    }

    /** What the handlers of an event or a functor queue. */
    method QueueAll(ids: seq<nat>) returns (ghost added: seq<Task>)
      requires AtWork(P.Events) || AtWork(P.Batch)
      modifies this`moment, this`pendingFunctors, this`history, this`gap, this`wakeupCounter, this`edge, this`quit
      modifies this`asked
      ensures AtWork(phase) && Queued(added) && Holds(added, ids)
      decreases |ids|
    {
      hide Valid;
      added := [];
      if ids != [] {
        var first := QueueHere(P.Task(P.LOOP, ids[0]));
        var rest := QueueAll(ids[1..]);
        added := first + rest;
        Associative(old(pendingFunctors), first, rest);
        Associative(old(history), first, rest);
      }
    }

    /** What the handlers of an event or a functor do. */
    method Perform(effect: Effect) returns (ghost added: seq<Task>)
      requires AtWork(P.Events) || AtWork(P.Batch)
      modifies this`moment, this`pendingFunctors, this`history, this`gap, this`wakeupCounter, this`edge, this`quit
      modifies this`asked
      ensures AtWork(phase) && phase == old(phase) && Holds(added, effect.queued)
      ensures pendingFunctors == old(pendingFunctors) + added && history == old(history) + added
      ensures moment >= old(moment) && asked >= old(asked) && quit == (old(quit) || asked > old(asked) || effect.quits)
    {
      hide Valid;
      added := QueueAll(effect.queued);
      if effect.quits {
        var _ := Quit(P.LOOP);
      }
    }

    /** One of these functors calls quit. */
    predicate SomeQuits(tasks: seq<Task>) {
      exists f :: f in tasks && effects(f).quits
    }

    lemma SomeQuitsInSum(a: seq<Task>, b: seq<Task>)
      ensures SomeQuits(a + b) <==> SomeQuits(a) || SomeQuits(b)
    {
      if SomeQuits(a) {
        var f :| f in a && effects(f).quits;
        assert f in a + b;
      }
      if SomeQuits(b) {
        var f :| f in b && effects(f).quits;
        assert f in a + b;
      }
    }

    /** Between two batches nothing is lost, and in front of poll what is pending comes with a signal. */
    lemma Settled()
      requires Valid() && (phase == P.Expire || phase == P.Poll)
      ensures history == executed + pendingFunctors
      ensures phase == P.Poll && pendingFunctors != [] && gap == {} ==> wakeupCounter > 0 && edge
    {
    }

    static lemma Associative(a: seq<Task>, b: seq<Task>, c: seq<Task>)
      ensures a + b + c == a + (b + c)
    {
    }

    static lemma PrefixOfSum(a: seq<Task>, b: seq<Task>, c: seq<Task>)
      requires b <= c
      ensures a + b <= a + c
    {
    }

    /** One turn of the loop over the batch: the functor runs, and what it queues waits. */
    method RunFunctor() returns (ghost added: seq<Task>)
      requires AtWork(P.Batch) && functors != []
      modifies this`executed, this`functors
      modifies this`moment, this`pendingFunctors, this`history, this`gap, this`wakeupCounter, this`edge, this`quit
      modifies this`asked
      ensures AtWork(P.Batch) && functors == old(functors[1..]) && executed == old(executed + [functors[0]])
      ensures pendingFunctors == old(pendingFunctors) + added && history == old(history) + added
      ensures Holds(added, effects(old(functors[0])).queued) && moment >= old(moment) && asked >= old(asked)
      ensures quit == (old(quit) || asked > old(asked) || effects(old(functors[0])).quits)
    {
      var first := Pause();
      var functor := RunNext();
      var rest := Perform(effects(functor));
      added := first + rest;
      Associative(old(pendingFunctors), first, rest);
      Associative(old(history), first, rest);
    }

    /** The loop over the batch. */
    method RunBatch() returns (ghost added: seq<Task>)
      requires AtWork(P.Batch)
      modifies this`executed, this`functors
      modifies this`moment, this`pendingFunctors, this`history, this`gap, this`wakeupCounter, this`edge, this`quit
      modifies this`asked
      ensures AtWork(P.Batch) && functors == []
      ensures executed == old(executed + functors)
      ensures pendingFunctors == old(pendingFunctors) + added && history == old(history) + added
      ensures forall f :: f in old(functors) ==> Holds(added, effects(f).queued)
      ensures moment >= old(moment) && asked >= old(asked)
      ensures quit == (old(quit) || asked > old(asked) || SomeQuits(old(functors)))
    {
      hide AtWork;
      added := [];
      ghost var ran: seq<Task> := [];
      while functors != []
        invariant AtWork(P.Batch) && old(functors) == ran + functors
        invariant executed == old(executed) + ran
        invariant pendingFunctors == old(pendingFunctors) + added && history == old(history) + added
        invariant forall f :: f in ran ==> Holds(added, effects(f).queued)
        invariant moment >= old(moment) && asked >= old(asked)
        invariant quit == (old(quit) || asked > old(asked) || SomeQuits(ran))
        decreases |functors|
      {
        ghost var functor := functors[0];
        var more := RunFunctor();
        Associative(old(executed), ran, [functor]);
        Associative(old(pendingFunctors), added, more);
        Associative(old(history), added, more);
        SomeQuitsInSum(ran, [functor]);
        ran, added := ran + [functor], added + more;
      }
      assert ran == old(functors);
    }

    /** doPendingFunctors: everything that was pending before runs, and what comes meanwhile waits, together with
        all that the functors queue. */
    method DoPendingFunctors()
      requires AtWork(P.Events) && !toRead
      modifies this
      ensures AtWork(P.Expire) && history == executed + pendingFunctors
      ensures old(executed + pendingFunctors) <= executed && old(history) <= history
      ensures forall f :: f in executed[|old(executed)|..] ==> Holds(pendingFunctors, effects(f).queued)
      ensures moment >= old(moment) && asked >= old(asked)
      ensures quit == (old(quit) || asked > old(asked) || SomeQuits(executed[|old(executed)|..]))
    {
      hide Valid;
      var first := Pause();
      SwapFunctors();
      Associative(old(executed), old(pendingFunctors), first);
      assert executed + functors == old(executed + pendingFunctors) + first;
      var added := RunBatch();
      assert executed[|old(executed)|..] == old(pendingFunctors) + first;
      EndBatch();
      Settled();
    }

    /** The handlers of a return of poll. */
    method HandleEvents(ready: Ready)
      requires AtWork(P.Poll)
      modifies this`phase, this`toRead
      modifies this`moment, this`pendingFunctors, this`history, this`gap, this`wakeupCounter, this`edge, this`quit
      modifies this`asked
      ensures AtWork(P.Events) && !toRead && functors == old(functors) && executed == old(executed)
      ensures old(pendingFunctors) <= pendingFunctors && Holds(pendingFunctors, ready.effect.queued)
      ensures moment > old(moment) && asked >= old(asked)
      ensures quit == (old(quit) || asked > old(asked) || ready.effect.quits)
    {
      hide Valid;
      var first := Pause();
      PollReturns(ready.seen && edge && wakeupCounter > 0);
      if toRead {
        HandleRead();
      }
      var added := Perform(ready.effect);
    }

    /** The flag is set while the loop waits, and nobody stands in front of its wakeup: poll is about to return. */
    lemma QuitIsDue()
      requires Valid() && phase == P.Poll && quit && gap == {}
      ensures wakeupCounter > 0 && edge && P.Enabled(Model(), P.Return(true))
    {
    }

    /** One round of loop().  All that was pending before it, or was queued by its handlers, has run at its end,
        whatever other threads do.  When functors are pending then and no thread stands between its push and its
        wakeup, the next poll returns at once.  With the flag set there is no next poll. */
    method Round(ready: Ready)
      requires AtWork(P.Poll)
      modifies this
      ensures AtWork(if quit then P.Done else P.Poll)
      ensures old(executed + pendingFunctors) <= executed && history == executed + pendingFunctors
      ensures Holds(executed, ready.effect.queued)
      ensures pendingFunctors != [] && gap == {} && !quit ==> wakeupCounter > 0 && edge
      ensures moment > old(moment) && asked >= old(asked)
      ensures quit == (old(quit) || asked > old(asked)
                       || ready.effect.quits || SomeQuits(executed[|old(executed)|..]))
    {
      hide Valid;
      HandleEvents(ready);
      ghost var due := executed + pendingFunctors;
      PrefixOfSum(executed, old(pendingFunctors), pendingFunctors);
      DoPendingFunctors();
      assert forall t :: t in due ==> t in executed;
      var late := Pause();
      Settled();
      EndRound();
      if !quit {
        Settled();
      }
    }

    static predicate HandlerQuits(rounds: seq<Ready>) {
      exists k :: 0 <= k < |rounds| && rounds[k].effect.quits
    }

    static lemma HandlerQuitsSnoc(rounds: seq<Ready>, k: nat)
      requires k < |rounds|
      ensures HandlerQuits(rounds[..k + 1]) <==> HandlerQuits(rounds[..k]) || rounds[k].effect.quits
    {
      if HandlerQuits(rounds[..k]) {
        var i :| 0 <= i < k && rounds[..k][i].effect.quits;
        assert rounds[..k + 1][i].effect.quits;
      }
      assert rounds[..k + 1][k] == rounds[k];
    }

    lemma NoQuitYet()
      ensures !SomeQuits([]) && !HandlerQuits([])
    {
    }

    static lemma NewlyExecuted(a: seq<Task>, b: seq<Task>, c: seq<Task>)
      requires a <= b <= c
      ensures c[|a|..] == b[|a|..] + c[|b|..]
    {
    }

    /** The beginning of loop(). */
    method ForgetQuit()
      requires AtWork(P.Poll)
      modifies this`quit
      ensures AtWork(P.Poll) && !quit
    {
      quit := false;
    }

    /** loop(), for at most as many rounds as are given.  The flag is set at its end if and only if another
        thread, a handler or a functor has called quit() since it began; a call before that is lost.  It ends early
        only then, and with the very round: nobody had called quit() when its last round began.  askedThen and
        executedThen are what they were at that moment. */
    method Loop(rounds: seq<Ready>) returns (ran: nat, ghost askedThen: nat, ghost executedThen: seq<Task>)
      requires AtWork(P.Poll)
      modifies this
      ensures AtWork(if quit then P.Done else P.Poll) && ran <= |rounds|
      ensures old(executed) <= executed && (ran > 0 ==> old(executed + pendingFunctors) <= executed)
      ensures quit <==>
              asked > old(asked) || SomeQuits(executed[|old(executed)|..]) || HandlerQuits(rounds[..ran])
      ensures ran < |rounds| ==> quit
      ensures ran > 0 ==>
                && askedThen == old(asked) && old(executed) <= executedThen <= executed
                && !SomeQuits(executedThen[|old(executed)|..]) && !HandlerQuits(rounds[..ran - 1])
    {
      hide Valid, SomeQuits, HandlerQuits;
      ForgetQuit();
      ran, askedThen, executedThen := 0, asked, executed;
      NoQuitYet();
      assert executed[|executed|..] == [] && rounds[..0] == [];
      while !quit && ran < |rounds|
        invariant AtWork(if quit then P.Done else P.Poll) && ran <= |rounds| && asked >= old(asked)
        invariant ran == 0 ==> executed == old(executed) && pendingFunctors == old(pendingFunctors)
        invariant old(executed) <= executed && (ran > 0 ==> old(executed + pendingFunctors) <= executed)
        invariant quit <==>
                  asked > old(asked) || SomeQuits(executed[|old(executed)|..]) || HandlerQuits(rounds[..ran])
        invariant ran > 0 ==>
                    && askedThen == old(asked) && old(executed) <= executedThen <= executed
                    && !SomeQuits(executedThen[|old(executed)|..]) && !HandlerQuits(rounds[..ran - 1])
        decreases |rounds| - ran
      {
        askedThen, executedThen := asked, executed;
        Round(rounds[ran]);
        NewlyExecuted(old(executed), executedThen, executed);
        SomeQuitsInSum(executedThen[|old(executed)|..], executed[|executedThen|..]);
        HandlerQuitsSnoc(rounds, ran);
        ran := ran + 1;
      }
    }
  }
}
