/** One round of the event loop takes all events of a poll out of the tables before it handles the first
    one (Epoll.cpp:78-117, EventLoop.cpp:96-101).  Here that is shown to be the same as handling them one
    after another, which is how Reactor counts them. */
module Batch {
  import opened Connection
  import opened Reactor

  // ---------------------------------------------------------------- the two forms

  predicate TablesFit(w: World) {
    w.chan <= w.conns.Keys
  }

  /** An event is handed out and its channel is collected. */
  ghost function Prepare(w: World, id: Id): World
    requires id in w.kernel && TablesFit(w)
  {
    Quiet(Deliver(w, id), id)
  }

  /** The dispatch of one collected channel. */
  ghost function Turn(w: World, a: Action): World
    requires a.Event? && TablesFit(w) && (a.id in w.chan ==> Manageable(w.conns[a.id].conn, a))
  {
    if a.id in w.chan then Handle(w, a) else w
  }

  // ---------------------------------------------------------------- different connections do not meet

  lemma PrepareFrame(w: World, j: Id)
    requires j in w.kernel && TablesFit(w)
    ensures var u := Prepare(w, j);
            && TablesFit(u) && u.conns.Keys == w.conns.Keys && u.kernel.Keys == w.kernel.Keys
            && u == w.(conns := u.conns, kernel := u.kernel)
            && forall i :: i in w.conns && i != j ==> u.conns[i] == w.conns[i]
  {
  }

  lemma DetachCommutes(w: World, id: Id, j: Id)
    requires j in w.kernel && TablesFit(w) && id in w.conns && id != j
    ensures Detach(Prepare(w, j), id) == Prepare(Detach(w, id), j)
  {
  }

  lemma SetConnCommutes(w: World, id: Id, c: Conn, j: Id)
    requires j in w.kernel && TablesFit(w) && id in w.conns && id != j
    ensures SetConn(Prepare(w, j), id, c) == Prepare(SetConn(w, id, c), j)
  {
  }

  lemma AddTimerCommutes(w: World, id: Id, timeout: nat, now: nat, j: Id)
    requires j in w.kernel && TablesFit(w) && id in w.conns && id != j
    ensures AddTimer(Prepare(w, j), id, timeout, now) == Prepare(AddTimer(w, id, timeout, now), j)
  {
  }

  lemma RememberCommutes(w: World, id: Id, j: Id)
    requires j in w.kernel && TablesFit(w) && id in w.conns && id != j
    ensures Remember(Prepare(w, j), id) == Prepare(Remember(w, id), j)
  {
  }

  lemma ModifyCommutes(w: World, id: Id, ok: bool, j: Id)
    requires j in w.kernel && TablesFit(w) && id in w.conns && id != j
    ensures Modify(Prepare(w, j), id, ok) == Prepare(Modify(w, id, ok), j)
  {
  }

  lemma EpollModCommutes(w: World, id: Id, ok: bool, j: Id)
    requires j in w.kernel && TablesFit(w) && id in w.conns && id != j
    ensures EpollMod(Prepare(w, j), id, ok) == Prepare(EpollMod(w, id, ok), j)
  {
    hide Remember, Modify, Prepare;
    PrepareFrame(w, j);
    RememberFrame(w, id);
    RememberCommutes(w, id, j);
    ModifyCommutes(Remember(w, id), id, ok, j);
  }

  lemma RememberFrame(w: World, id: Id)
    requires id in w.conns && TablesFit(w)
    ensures var u := Remember(w, id); TablesFit(u) && u.kernel == w.kernel && u.conns.Keys == w.conns.Keys
  {
  }

  lemma CloseCommutes(w: World, id: Id, j: Id)
    requires j in w.kernel && TablesFit(w) && id in w.conns && id != j
    ensures CloseConn(Prepare(w, j), id) == Prepare(CloseConn(w, id), j)
  {
    var u, v := CloseConn(Prepare(w, j), id), Prepare(CloseConn(w, id), j);
    assert u.conns == v.conns;
    assert u.kernel == v.kernel;
  }

  lemma ApplyCommutes(w: World, id: Id, request: Request, ok: bool, now: nat, j: Id)
    requires j in w.kernel && TablesFit(w) && id in w.conns && id != j
    ensures Apply(Prepare(w, j), id, request, ok, now) == Prepare(Apply(w, id, request, ok, now), j)
  {
    hide EpollMod, AddTimer, CloseConn, Prepare;
    PrepareFrame(w, j);
    match request
    case Update(timeout) =>
      AddTimerFrame(w, id, timeout, now);
      AddTimerCommutes(w, id, timeout, now, j);
      EpollModCommutes(AddTimer(w, id, timeout, now), id, ok, j);
    case Leave =>
    case Close =>
      CloseCommutes(w, id, j);
  }

  lemma AddTimerFrame(w: World, id: Id, timeout: nat, now: nat)
    requires id in w.conns && TablesFit(w)
    ensures var u := AddTimer(w, id, timeout, now); TablesFit(u) && u.kernel == w.kernel && u.conns.Keys == w.conns.Keys
  {
  }

  lemma DetachFrame(w: World, id: Id, c: Conn)
    requires id in w.conns && TablesFit(w)
    ensures var u := Detach(w, id); TablesFit(u) && u.kernel == w.kernel && u.conns.Keys == w.conns.Keys
    ensures var u := SetConn(Detach(w, id), id, c); TablesFit(u) && u.kernel == w.kernel && u.conns.Keys == w.conns.Keys
  {
  }

  lemma ApplyFrame(w: World, id: Id, request: Request, ok: bool, now: nat, j: Id)
    requires id in w.conns && TablesFit(w) && id != j
    ensures var u := Apply(w, id, request, ok, now);
            TablesFit(u) && (j in u.kernel <==> j in w.kernel) && u.conns.Keys == w.conns.Keys
  {
  }

  lemma HandleCommutes(w: World, a: Action, j: Id)
    requires a.Event? && j in w.kernel && TablesFit(w) && a.id != j && a.id in w.conns
    requires Manageable(w.conns[a.id].conn, a)
    ensures TablesFit(Prepare(w, j)) && a.id in Prepare(w, j).conns && Prepare(w, j).conns[a.id] == w.conns[a.id]
    ensures TablesFit(Handle(w, a)) && j in Handle(w, a).kernel
    ensures Handle(Prepare(w, j), a) == Prepare(Handle(w, a), j)
  {
    hide HandleEvents, Prepare, Detach, SetConn, Apply, EpollMod, CloseConn;
    PrepareFrame(w, j);
    var r := HandleEvents(w.conns[a.id].conn, a.revents, a.net, a.plan, 0);
    DetachFrame(w, a.id, r.conn);
    SetConnFrame(w, a.id, r.conn);
    SetConnCommutes(w, a.id, r.conn, j);
    if r.Done? {
      DetachCommutes(w, a.id, j);
      SetConnCommutes(Detach(w, a.id), a.id, r.conn, j);
      ApplyFrame(SetConn(Detach(w, a.id), a.id, r.conn), a.id, r.request, a.ok, a.now, j);
      ApplyCommutes(SetConn(Detach(w, a.id), a.id, r.conn), a.id, r.request, a.ok, a.now, j);
    }
  }

  lemma SetConnFrame(w: World, id: Id, c: Conn)
    requires id in w.conns && TablesFit(w)
    ensures var u := SetConn(w, id, c); TablesFit(u) && u.kernel == w.kernel
  {
  }

  lemma TurnCommutes(w: World, a: Action, j: Id)
    requires a.Event? && j in w.kernel && TablesFit(w) && a.id != j
    requires a.id in w.chan ==> Manageable(w.conns[a.id].conn, a)
    ensures TablesFit(Prepare(w, j)) && j in Turn(w, a).kernel && TablesFit(Turn(w, a))
    ensures a.id in w.chan ==> Manageable(Prepare(w, j).conns[a.id].conn, a)
    ensures Turn(Prepare(w, j), a) == Prepare(Turn(w, a), j)
  {
    hide HandleEvents, Manageable, Prepare, Handle;
    PrepareFrame(w, j);
    if a.id in w.chan {
      HandleCommutes(w, a, j);
    }
  }

  // ---------------------------------------------------------------- a whole poll

  ghost predicate Events(evs: seq<Action>) {
    && (forall k :: 0 <= k < |evs| ==> evs[k].Event?)
    && (forall j, k :: 0 <= j < k < |evs| ==> evs[j].id != evs[k].id)
  }

  ghost predicate Known(w: World, evs: seq<Action>)
    requires Events(evs)
  {
    TablesFit(w) && forall k :: 0 <= k < |evs| ==> evs[k].id in w.kernel
  }

  /** Every event of the poll could be handled first. */
  ghost predicate AllEnabled(w: World, evs: seq<Action>)
    requires Events(evs)
  {
    TablesFit(w) && forall k :: 0 <= k < |evs| ==> Enabled(w, evs[k])
  }

  ghost function PrepareAll(w: World, evs: seq<Action>): (u: World)
    requires Events(evs) && Known(w, evs)
    ensures TablesFit(u) && u.chan == w.chan && u.kernel.Keys == w.kernel.Keys && u.conns.Keys == w.conns.Keys
    decreases |evs|
  {
    if evs == [] then w
    else
      PrepareFrame(w, evs[0].id);
      PrepareAll(Prepare(w, evs[0].id), evs[1..])
  }

  ghost predicate CanTurn(w: World, evs: seq<Action>)
    requires Events(evs)
  {
    TablesFit(w) && forall k :: 0 <= k < |evs| && evs[k].id in w.chan ==> Manageable(w.conns[evs[k].id].conn, evs[k])
  }

  /** Nothing about connection j is different. */
  ghost predicate Kept(w: World, u: World, j: Id) {
    && (j in u.chan <==> j in w.chan)
    && (j in w.conns ==> j in u.conns && u.conns[j] == w.conns[j])
    && (j in w.kernel ==> j in u.kernel && u.kernel[j] == w.kernel[j])
  }

  lemma ApplyKeepsOthers(w: World, id: Id, request: Request, ok: bool, now: nat, j: Id)
    requires id in w.conns && id != j
    ensures Kept(w, Apply(w, id, request, ok, now), j)
  {
  }

  lemma TurnKeepsOthers(w: World, a: Action, j: Id)
    requires a.Event? && TablesFit(w) && a.id != j
    requires a.id in w.chan ==> Manageable(w.conns[a.id].conn, a)
    ensures TablesFit(Turn(w, a)) && Kept(w, Turn(w, a), j)
  {
    hide HandleEvents, Apply;
    if a.id in w.chan {
      var r := HandleEvents(w.conns[a.id].conn, a.revents, a.net, a.plan, 0);
      if r.Done? {
        DetachFrame(w, a.id, r.conn);
        var x := SetConn(Detach(w, a.id), a.id, r.conn);
        assert Kept(w, x, j);
        ApplyFrame(x, a.id, r.request, a.ok, a.now, j);
        ApplyKeepsOthers(x, a.id, r.request, a.ok, a.now, j);
      }
    }
  }

  lemma TurnLeavesRest(w: World, evs: seq<Action>)
    requires evs != [] && Events(evs) && CanTurn(w, evs)
    ensures Events(evs[1..]) && CanTurn(Turn(w, evs[0]), evs[1..])
  {
    hide Manageable, Turn;
    TurnFits(w, evs[0]);
    forall k | 0 <= k < |evs[1..]| ensures Kept(w, Turn(w, evs[0]), evs[1..][k].id) {
      TurnKeepsOthers(w, evs[0], evs[k + 1].id);
    }
  }

  lemma TurnFits(w: World, a: Action)
    requires a.Event? && TablesFit(w) && (a.id in w.chan ==> Manageable(w.conns[a.id].conn, a))
    ensures TablesFit(Turn(w, a))
  {
    TurnKeepsOthers(w, a, a.id + 1);
  }

  ghost function TurnAll(w: World, evs: seq<Action>): World
    requires Events(evs) && CanTurn(w, evs)
    decreases |evs|
  {
    if evs == [] then w
    else
      TurnLeavesRest(w, evs);
      TurnAll(Turn(w, evs[0]), evs[1..])
  }

  /** One turn of the dispatching loop. */
  lemma DispatchOneMore(w: World, found: seq<Action>)
    requires found != [] && Events(found) && CanTurn(w, found) && forall k :: 0 <= k < |found| ==> found[k].id in w.chan
    ensures var u, rest := Turn(w, found[0]), found[1..];
            && Events(rest) && CanTurn(u, rest) && TurnAll(u, rest) == TurnAll(w, found)
            && forall k :: 0 <= k < |rest| ==> rest[k].id in u.chan
    ensures TablesFit(w) && Manageable(w.conns[found[0].id].conn, found[0])
  {
    hide Manageable, Turn;
    TurnLeavesRest(w, found);
    forall k | 0 <= k < |found[1..]| ensures found[1..][k].id in Turn(w, found[0]).chan {
      TurnKeepsOthers(w, found[0], found[k + 1].id);
    }
  }

  lemma DispatchDone(w: World)
    ensures Events([]) && (CanTurn(w, []) ==> TurnAll(w, []) == w)
  {
  }

  /** A turn may come before or after the preparation of all the other events. */
  lemma {:induction false} TurnPastOthers(w: World, a: Action, evs: seq<Action>)
    requires a.Event? && Events(evs) && Known(w, evs) && (a.id in w.chan ==> Manageable(w.conns[a.id].conn, a))
    requires forall k :: 0 <= k < |evs| ==> evs[k].id != a.id
    ensures var u := PrepareAll(w, evs); a.id in u.chan ==> Manageable(u.conns[a.id].conn, a)
    ensures Known(Turn(w, a), evs) && Turn(PrepareAll(w, evs), a) == PrepareAll(Turn(w, a), evs)
    decreases |evs|
  {
    hide Manageable, Turn, Prepare;
    TurnFits(w, a);
    if evs != [] {
      var j := evs[0].id;
      PrepareFrame(w, j);
      TurnCommutes(w, a, j);
      forall k | 0 <= k < |evs| ensures evs[k].id in Turn(w, a).kernel {
        TurnCommutes(w, a, evs[k].id);
      }
      TurnPastOthers(Prepare(w, j), a, evs[1..]);
    }
  }

  /** An event by itself: prepared and handled is one step. */
  lemma TurnIsStep(w: World, a: Action)
    requires a.Event? && TablesFit(w) && Enabled(w, a)
    ensures a.id in w.kernel && TablesFit(Prepare(w, a.id))
    ensures a.id in w.chan ==> Manageable(Prepare(w, a.id).conns[a.id].conn, a)
    ensures Turn(Prepare(w, a.id), a) == Step(w, a)
  {
    hide HandleEvents, Handle;
    if a.id in w.chan {
      QuietIsHandled(Deliver(w, a.id), a);
    }
  }

  lemma StepLeavesRest(w: World, evs: seq<Action>)
    requires evs != [] && Events(evs) && AllEnabled(w, evs)
    ensures Events(evs[1..]) && AllEnabled(Step(w, evs[0]), evs[1..])
  {
    hide Manageable, Turn, Step;
    var a := evs[0];
    PrepareFrame(w, a.id);
    TurnIsStep(w, a);
    TurnFits(Prepare(w, a.id), a);
    forall k | 0 <= k < |evs[1..]| ensures Enabled(Step(w, a), evs[1..][k]) {
      var j := evs[k + 1].id;
      assert Kept(w, Prepare(w, a.id), j);
      TurnKeepsOthers(Prepare(w, a.id), a, j);
      assert Enabled(w, evs[k + 1]);
    }
  }

  /** One event after the other. */
  ghost function Steps(w: World, evs: seq<Action>): World
    requires Events(evs) && AllEnabled(w, evs)
    decreases |evs|
  {
    if evs == [] then w
    else
      StepLeavesRest(w, evs);
      Steps(Step(w, evs[0]), evs[1..])
  }

  /** The poll in two phases, first all preparations and then all turns, is the same as its events one
      after the other. */
  lemma {:induction false} BatchIsSteps(w: World, evs: seq<Action>)
    requires Events(evs) && AllEnabled(w, evs)
    ensures Known(w, evs) && CanTurn(PrepareAll(w, evs), evs)
    ensures TurnAll(PrepareAll(w, evs), evs) == Steps(w, evs)
    decreases |evs|
  {
    hide Manageable, Turn, Step, Prepare;
    if evs != [] {
      var a, rest := evs[0], evs[1..];
      var p := Prepare(w, a.id);
      PrepareFrame(w, a.id);
      TurnIsStep(w, a);
      StepLeavesRest(w, evs);
      BatchIsSteps(Step(w, a), rest);
      forall k | 0 <= k < |evs| ensures evs[k].id in w.kernel {
        assert Enabled(w, evs[k]);
      }
      TurnPastOthers(p, a, rest);
      CanTurnFirst(PrepareAll(w, evs), evs);
    }
  }

  /** Whoever comes first can turn, and the others can after it: all can turn now. */
  lemma CanTurnFirst(w: World, evs: seq<Action>)
    requires evs != [] && Events(evs) && TablesFit(w)
    requires evs[0].id in w.chan ==> Manageable(w.conns[evs[0].id].conn, evs[0])
    requires CanTurn(Turn(w, evs[0]), evs[1..])
    ensures CanTurn(w, evs)
  {
    hide Manageable, Turn;
    forall k | 0 <= k < |evs| && evs[k].id in w.chan ensures Manageable(w.conns[evs[k].id].conn, evs[k]) {
      if k > 0 {
        TurnKeepsOthers(w, evs[0], evs[k].id);
        assert evs[1..][k - 1] == evs[k];
      }
    }
  }

  // ---------------------------------------------------------------- the loops of the code

  function One(chan: set<Id>, a: Action): seq<Action>
    requires a.Event?
  {
    if a.id in chan then [a] else []
  }

  /** The events whose descriptors have a channel in the table. */
  ghost function Found(chan: set<Id>, evs: seq<Action>): (found: seq<Action>)
    requires forall k :: 0 <= k < |evs| ==> evs[k].Event?
    ensures forall k :: 0 <= k < |found| ==> found[k] in evs && found[k].Event? && found[k].id in chan
  {
    if evs == [] then [] else
      var init, last := evs[..|evs| - 1], evs[|evs| - 1];
      Found(chan, init) + One(chan, last)
  }

  lemma {:induction false} PrepareSnoc(w: World, evs: seq<Action>)
    requires evs != [] && Events(evs) && Known(w, evs)
    ensures PrepareAll(w, evs) == Prepare(PrepareAll(w, evs[..|evs| - 1]), evs[|evs| - 1].id)
    decreases |evs|
  {
    hide Prepare;
    var init, last := evs[..|evs| - 1], evs[|evs| - 1];
    PrepareFrame(w, evs[0].id);
    if |evs| > 1 {
      PrepareSnoc(Prepare(w, evs[0].id), evs[1..]);
      assert evs[1..][..|evs| - 2] == init[1..];
    }
  }

  /** One turn of the collecting loop. */
  lemma CollectOneMore(w: World, evs: seq<Action>, i: nat)
    requires Events(evs) && Known(w, evs) && i < |evs|
    ensures Events(evs[..i]) && Known(w, evs[..i]) && Events(evs[..i + 1]) && Known(w, evs[..i + 1])
    ensures evs[i].id in PrepareAll(w, evs[..i]).kernel
    ensures PrepareAll(w, evs[..i + 1]) == Prepare(PrepareAll(w, evs[..i]), evs[i].id)
    ensures Found(w.chan, evs[..i + 1]) == Found(w.chan, evs[..i]) + One(w.chan, evs[i])
    ensures forall k :: 0 <= k < |Found(w.chan, evs[..i])| ==> Found(w.chan, evs[..i])[k].id != evs[i].id
  {
    hide Prepare;
    assert evs[..i + 1][..i] == evs[..i];
    PrepareSnoc(w, evs[..i + 1]);
  }

  lemma FoundNone(chan: set<Id>)
    ensures Found(chan, []) == []
  {
  }

  lemma FoundSnoc(chan: set<Id>, evs: seq<Action>)
    requires evs != [] && forall k :: 0 <= k < |evs| ==> evs[k].Event?
    ensures Found(chan, evs) == Found(chan, evs[..|evs| - 1]) + One(chan, evs[|evs| - 1])
  {
  }

  lemma {:induction false} FoundFront(chan: set<Id>, evs: seq<Action>)
    requires evs != [] && forall k :: 0 <= k < |evs| ==> evs[k].Event?
    ensures Found(chan, evs) == One(chan, evs[0]) + Found(chan, evs[1..])
    decreases |evs|
  {
    hide Found;
    FoundSnoc(chan, evs);
    if |evs| > 1 {
      var init := evs[..|evs| - 1];
      FoundFront(chan, init);
      FoundSnoc(chan, evs[1..]);
      assert evs[1..][..|evs| - 2] == init[1..];
      Associative(One(chan, evs[0]), Found(chan, init[1..]), One(chan, evs[|evs| - 1]));
    } else {
      FoundNone(chan);
      assert evs[..0] == [] && evs[1..] == [];
    }
  }

  lemma Associative(a: seq<Action>, b: seq<Action>, c: seq<Action>)
    ensures a + b + c == a + (b + c)
  {
  }

  lemma {:induction false} FoundSame(chan: set<Id>, other: set<Id>, evs: seq<Action>)
    requires forall k :: 0 <= k < |evs| ==> evs[k].Event? && (evs[k].id in chan <==> evs[k].id in other)
    ensures Found(chan, evs) == Found(other, evs)
    decreases |evs|
  {
    if evs != [] {
      FoundSame(chan, other, evs[..|evs| - 1]);
    }
  }

  lemma {:induction false} FoundIsEvents(chan: set<Id>, evs: seq<Action>)
    requires Events(evs)
    ensures Events(Found(chan, evs))
    decreases |evs|
  {
    if evs != [] {
      FoundIsEvents(chan, evs[..|evs| - 1]);
    }
  }

  lemma FoundCanTurn(w: World, evs: seq<Action>)
    requires Events(evs) && CanTurn(w, evs)
    ensures Events(Found(w.chan, evs)) && CanTurn(w, Found(w.chan, evs))
  {
    hide Manageable;
    FoundIsEvents(w.chan, evs);
  }

  /** After the first turn the same channels are found among the others. */
  lemma FoundNext(w: World, evs: seq<Action>)
    requires evs != [] && Events(evs) && CanTurn(w, evs)
    ensures Found(w.chan, evs) == One(w.chan, evs[0]) + Found(Turn(w, evs[0]).chan, evs[1..])
  {
    hide Manageable, Turn;
    var u := Turn(w, evs[0]);
    FoundFront(w.chan, evs);
    forall k | 0 <= k < |evs[1..]| ensures evs[1..][k].id in w.chan <==> evs[1..][k].id in u.chan {
      TurnKeepsOthers(w, evs[0], evs[k + 1].id);
    }
    FoundSame(w.chan, u.chan, evs[1..]);
  }

  /** Dispatching the found channels is dispatching all: the others have nobody to turn to. */
  lemma {:induction false} FoundIsEnough(w: World, evs: seq<Action>)
    requires Events(evs) && CanTurn(w, evs)
    ensures Events(Found(w.chan, evs)) && CanTurn(w, Found(w.chan, evs))
    ensures TurnAll(w, Found(w.chan, evs)) == TurnAll(w, evs)
    decreases |evs|
  {
    hide Manageable, Turn, Found;
    FoundCanTurn(w, evs);
    if evs == [] {
      FoundNone(w.chan);
    } else {
      TurnLeavesRest(w, evs);
      FoundNext(w, evs);
      FoundIsEnough(Turn(w, evs[0]), evs[1..]);
      if evs[0].id in w.chan {
        assert Found(w.chan, evs)[1..] == Found(Turn(w, evs[0]).chan, evs[1..]);
      } else {
        NoTurn(w, evs[0]);
        assert Found(w.chan, evs) == Found(w.chan, evs[1..]);
      }
    }
  }

  lemma NoTurn(w: World, a: Action)
    requires a.Event? && TablesFit(w) && a.id !in w.chan
    ensures Turn(w, a) == w
  {
  }

  /** What holds before the dispatching loop. */
  lemma ReadyToDispatch(w: World, evs: seq<Action>)
    requires Events(evs) && AllEnabled(w, evs)
    ensures Known(w, evs)
    ensures var p := PrepareAll(w, evs); var found := Found(w.chan, evs);
            && p.chan == w.chan && Events(found) && CanTurn(p, found) && TurnAll(p, found) == Poll(w, evs)
            && forall k :: 0 <= k < |found| ==> found[k].id in p.chan && found[k] in evs
  {
    hide Manageable, Turn, Prepare;
    BatchIsSteps(w, evs);
    FoundIsEnough(PrepareAll(w, evs), evs);
  }

  /** One poll as the code handles it: all events are taken out first, then the channels that were
      found are dispatched. */
  ghost function Poll(w: World, evs: seq<Action>): World
    requires Events(evs) && AllEnabled(w, evs)
  {
    BatchIsSteps(w, evs);
    var p := PrepareAll(w, evs);
    FoundIsEnough(p, evs);
    TurnAll(p, Found(p.chan, evs))
  }

  /** Events whose descriptors have no channel only take one-shot registrations with them. */
  lemma {:induction false} PrepareDropped(w: World, evs: seq<Action>)
    requires Events(evs) && Known(w, evs) && forall k :: 0 <= k < |evs| ==> evs[k].id !in w.chan
    ensures PrepareAll(w, evs) == w.(kernel := PrepareAll(w, evs).kernel)
    decreases |evs|
  {
    if evs != [] {
      PrepareFrame(w, evs[0].id);
      PrepareDropped(Prepare(w, evs[0].id), evs[1..]);
    }
  }

  lemma {:induction false} NoneFoundNoneThere(chan: set<Id>, evs: seq<Action>)
    requires forall k :: 0 <= k < |evs| ==> evs[k].Event?
    ensures Found(chan, evs) == [] ==> forall k :: 0 <= k < |evs| ==> evs[k].id !in chan
    decreases |evs|
  {
    if evs != [] {
      NoneFoundNoneThere(chan, evs[..|evs| - 1]);
    }
  }

  /** A poll that finds no channel changes nothing else. */
  lemma IdlePoll(w: World, evs: seq<Action>)
    requires Events(evs) && AllEnabled(w, evs)
    ensures Found(w.chan, evs) == [] ==> Poll(w, evs) == w.(kernel := Poll(w, evs).kernel)
  {
    hide Prepare, Turn, Manageable;
    ReadyToDispatch(w, evs);
    if Found(w.chan, evs) == [] {
      NoneFoundNoneThere(w.chan, evs);
      PrepareDropped(w, evs);
    }
  }

  /** A run goes on with a poll, event by event. */
  lemma PollExtendsRun(worlds: seq<World>, acts: seq<Action>, evs: seq<Action>) returns (after: seq<World>)
    requires IsRun(worlds, acts) && Events(evs) && AllEnabled(worlds[|acts|], evs)
    ensures IsRun(after, acts + evs) && worlds <= after
    ensures after[|acts + evs|] == Poll(worlds[|acts|], evs)
  {
    hide Step, Enabled, Turn, Prepare;
    BatchIsSteps(worlds[|acts|], evs);
    FoundIsEnough(PrepareAll(worlds[|acts|], evs), evs);
    after := StepsExtendRun(worlds, acts, evs);
  }

  lemma {:induction false} StepsExtendRun(worlds: seq<World>, acts: seq<Action>, evs: seq<Action>)
    returns (after: seq<World>)
    requires IsRun(worlds, acts) && Events(evs) && AllEnabled(worlds[|acts|], evs)
    ensures IsRun(after, acts + evs) && worlds <= after && after[|acts + evs|] == Steps(worlds[|acts|], evs)
    decreases |evs|
  {
    hide Step;
    if evs == [] {
      after := worlds;
      assert acts + evs == acts;
    } else {
      var w, a := worlds[|acts|], evs[0];
      StepLeavesRest(w, evs);
      RunExtends(worlds, acts, a);
      after := StepsExtendRun(worlds + [Step(w, a)], acts + [a], evs[1..]);
      assert acts + [a] + evs[1..] == acts + evs;
    }
  }
}
