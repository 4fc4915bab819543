/** One event loop with its connections: the epoll tables of Epoll.cpp, the lazy timer queue of
    Timer.cpp and the handlers of HttpData.cpp, over whole runs. */
module Reactor {
  import opened Wrappers
  import opened Text
  import opened Connection
  import T = Timers

  type Id = nat

  /** What the kernel knows of a descriptor; a one-shot registration is disarmed by its first event. */
  datatype Reg = Reg(mask: Mask, armed: bool)

  /** A connection object, its channel's lastEvents_ and the node its weak timer_ was linked to. */
  datatype Entry = Entry(conn: Conn, last: Mask, timer: Option<nat>)

  /** conns are all connection objects ever made; chan and http are the non-null entries of fd2chan_
      and fd2http_; closed counts the calls of handleClose. */
  datatype World = World(conns: map<Id, Entry>, chan: set<Id>, http: set<Id>, kernel: map<Id, Reg>,
                         queue: T.Queue, nextNode: nat, closed: multiset<Id>)

  const START := World(map[], {}, {}, map[], {}, 0, multiset{})

  // ---------------------------------------------------------------- operations

  /** addTimer: a new node holds the connection, and the connection is linked to it. */
  function AddTimer(w: World, id: Id, timeout: nat, now: nat): World
    requires id in w.conns
  {
    var e := w.conns[id];
    w.(queue := T.Add(w.queue, w.nextNode, now + timeout, id), nextNode := w.nextNode + 1,
       conns := w.conns[id := e.(conn := e.conn.(linked := true), timer := Some(w.nextNode))])
  }

  /** seperateTimer: the linked node, if it is still alive, is cleared. */
  function Detach(w: World, id: Id): World
    requires id in w.conns
  {
    var e := w.conns[id];
    match e.timer
    case None => w
    case Some(n) => w.(queue := T.Clear(w.queue, n),
                       conns := w.conns[id := e.(conn := e.conn.(linked := false), timer := None)])
  }

  /** EqualAndUpdateLastEvents of the connection's channel. */
  function Remember(w: World, id: Id): World
    requires id in w.conns
  {
    var e := w.conns[id];
    w.(conns := w.conns[id := e.(last := e.conn.events)])
  }

  /** epoll_add behind its timer part. */
  function EpollAdd(w: World, id: Id, ok: bool): World
    requires id in w.conns
  {
    var u := Remember(w, id).(http := w.http + {id});
    if ok then u.(chan := u.chan + {id}, kernel := u.kernel[id := Reg(w.conns[id].conn.events, true)])
    else u.(chan := u.chan - {id})
  }

  /** EPOLL_CTL_MOD; a failure drops the channel from the table. */
  function Modify(w: World, id: Id, ok: bool): World
    requires id in w.conns
  {
    if ok then w.(kernel := w.kernel[id := Reg(w.conns[id].conn.events, true)]) else w.(chan := w.chan - {id})
  }

  /** epoll_mod behind its timer part: the call is left out when the mask has not changed. */
  function EpollMod(w: World, id: Id, ok: bool): World
    requires id in w.conns
  {
    if w.conns[id].last == w.conns[id].conn.events then Remember(w, id) else Modify(Remember(w, id), id, ok)
  }

  /** The simple form: the call is always made. */
  function AlwaysMod(w: World, id: Id, ok: bool): World
    requires id in w.conns
  {
    Modify(Remember(w, id), id, ok)
  }

  /** handleClose with epoll_del. */
  function CloseConn(w: World, id: Id): World
    requires id in w.conns
  {
    var e := w.conns[id];
    w.(conns := w.conns[id := e.(conn := e.conn.(link := Disconnected))], chan := w.chan - {id}, http := w.http - {id},
       kernel := w.kernel - {id}, closed := w.closed + multiset{id})
  }

  /** newEvent, run by the loop for a new connection. */
  function Accept(w: World, id: Id, ok: bool, now: nat): World {
    var e := Entry(FRESH.(events := DEFAULT_EVENT), {}, None);
    EpollAdd(AddTimer(w.(conns := w.conns[id := e]), id, DEFAULT_EXPIRED_TIME, now), id, ok)
  }

  /** The kernel hands out an event. */
  function Deliver(w: World, id: Id): World
    requires id in w.kernel
  {
    var r := w.kernel[id];
    w.(kernel := w.kernel[id := r.(armed := r.armed && ONESHOT !in r.mask)])
  }

  function SetConn(w: World, id: Id, c: Conn): World
    requires id in w.conns
  {
    w.(conns := w.conns[id := w.conns[id].(conn := c)])
  }

  /** What handleConn has asked for. */
  function Apply(w: World, id: Id, request: Request, ok: bool, now: nat): World
    requires id in w.conns
  {
    match request
    case Update(timeout) => EpollMod(AddTimer(w, id, timeout, now), id, ok)
    case Leave => w
    case Close => CloseConn(w, id)
  }

  // ---------------------------------------------------------------- runs

  /** A new connection; an event for a registered descriptor, with the bytes in its socket and what
      the surroundings do; and one turn of handleExpiredEvent. */
  datatype Action =
    | New(id: Id, ok: bool, now: nat)
    | Event(id: Id, revents: Mask, net: string, plan: Plan, ok: bool, now: nat)
    | Pop(n: T.Node, now: nat)

  /** The kernel reports what was asked for, and errors. */
  predicate Reportable(revents: Mask, mask: Mask) {
    revents != {} && revents <= (mask - {ET, ONESHOT}) + {HUP, ERR}
  }

  /** When an action can happen: a descriptor not in use, an armed registration, the top of the
      queue.  A crash of a handler ends the run. */
  ghost predicate Offered(w: World, a: Action) {
    match a
    case New(id, _, _) => id !in w.conns
    case Event(id, revents, _, _, _, _) =>
      id in w.kernel && w.kernel[id].armed && Reportable(revents, w.kernel[id].mask)
    case Pop(n, now) => T.IsTop(w.queue, n) && (n.holder.None? || n.key <= now)
  }

  /** The handlers can be called: the connection is in order, its input fits into memory, and stoi does
      not throw. */
  ghost predicate Manageable(c: Conn, a: Action)
    requires a.Event?
  {
    Steady(c) && |c.inBuf| + |a.net| < NPOS && !HandleEvents(c, a.revents, a.net, a.plan, 0).Crash?
  }

  /** Whoever the action concerns can act. */
  ghost predicate Callable(w: World, a: Action) {
    match a
    case New(_, _, _) => true
    case Event(id, _, _, _, _, _) => id in w.chan ==> id in w.conns && Manageable(w.conns[id].conn, a)
    case Pop(n, _) => n.holder.Some? ==> n.holder.value in w.conns
  }

  ghost predicate Enabled(w: World, a: Action) {
    Offered(w, a) && Callable(w, a)
  }

  /** handleEvents of one channel. */
  ghost function Handle(w: World, a: Action): World
    requires a.Event? && a.id in w.conns && Manageable(w.conns[a.id].conn, a)
  {
    match HandleEvents(w.conns[a.id].conn, a.revents, a.net, a.plan, 0)
    case Early(c) => SetConn(w, a.id, c)
    case Done(c, _, _, request) => Apply(SetConn(Detach(w, a.id), a.id, c), a.id, request, a.ok, a.now)
  }

  /** getEventsRequest clears the events of the channel that it finds. */
  ghost function Quiet(w: World, id: Id): World
    requires w.chan <= w.conns.Keys
  {
    if id in w.chan then SetConn(w, id, w.conns[id].conn.(events := {})) else w
  }

  lemma QuietDetach(w: World, id: Id, c: Conn)
    requires id in w.chan && w.chan <= w.conns.Keys
    ensures SetConn(Detach(Quiet(w, id), id), id, c) == SetConn(Detach(w, id), id, c)
  {
  }

  /** handleEvents clears them once more: it makes no difference. */
  lemma QuietIsHandled(w: World, a: Action)
    requires a.Event? && a.id in w.chan && w.chan <= w.conns.Keys && Manageable(w.conns[a.id].conn, a)
    ensures Manageable(Quiet(w, a.id).conns[a.id].conn, a) && Handle(Quiet(w, a.id), a) == Handle(w, a)
  {
    var c := w.conns[a.id].conn;
    var r := HandleEvents(c, a.revents, a.net, a.plan, 0);
    assert c.(events := {}).(events := {}) == c.(events := {});
    QuietDetach(w, a.id, r.conn);
  }

  /** One event of one descriptor; without a channel it is dropped. */
  ghost function HandleEvent(w: World, a: Action): World
    requires a.Event? && Enabled(w, a)
  {
    var d := Deliver(w, a.id);
    if a.id in w.chan then Handle(d, a) else d
  }

  ghost function Step(w: World, a: Action): World
    requires Enabled(w, a)
  {
    match a
    case New(id, ok, now) => Accept(w, id, ok, now)
    case Event(_, _, _, _, _, _) => HandleEvent(w, a)
    case Pop(n, _) =>
      var u := w.(queue := w.queue - {n});
      if n.holder.Some? then CloseConn(u, n.holder.value) else u
  }

  /** worlds[k] is the state before action k. */
  ghost predicate IsRun(worlds: seq<World>, acts: seq<Action>) {
    && |worlds| == |acts| + 1 && worlds[0] == START
    && forall k :: 0 <= k < |acts| ==> Enabled(worlds[k], acts[k]) && worlds[k + 1] == Step(worlds[k], acts[k])
  }

  lemma RunExtends(worlds: seq<World>, acts: seq<Action>, a: Action)
    requires IsRun(worlds, acts) && Enabled(worlds[|acts|], a)
    ensures IsRun(worlds + [Step(worlds[|acts|], a)], acts + [a])
  {
    hide Step, Enabled;
  }

  // ---------------------------------------------------------------- the invariant

  /** Some node has this identity and holds this connection. */
  ghost predicate HeldBy(q: T.Queue, id: Id, node: nat) {
    exists n :: n in q && n.id == node && n.holder == Some(id)
  }

  /** The timer of a connection: the linked node and no other one holds it. */
  ghost predicate TimerOk(w: World, id: Id, e: Entry) {
    && (e.timer.Some? ==> HeldBy(w.queue, id, e.timer.value))
    && (forall n :: n in w.queue && n.holder == Some(id) ==> e.timer == Some(n.id))
    && (e.conn.linked <==> e.timer.Some?)
  }

  /** The registration of a connection whose channel is in the table. */
  ghost predicate RegisteredOk(w: World, id: Id, e: Entry) {
    && id in w.kernel && w.kernel[id].mask == e.last
    && (e.last == DEFAULT_EVENT || (Rearmed(e.last) && w.kernel[id].armed))
    && (e.conn.link == Connected && e.conn.outBuf != "" ==> e.last == WRITE_EVENT)
  }

  ghost predicate OpenOk(w: World, id: Id, e: Entry) {
    && Steady(e.conn) && id in w.http
    && (e.conn.link == Connected <==> e.timer.Some?)
    && (id in w.chan ==> RegisteredOk(w, id, e))
    && (e.conn.link == Disconnecting ==> id in w.chan && HalfClosedOk(w, id, e.last))
  }

  /** The event that found a peer half closed has spent a one-shot registration, and left any other one; the
      mask for writing cannot have been it. */
  ghost predicate HalfClosedOk(w: World, id: Id, last: Mask) {
    last != WRITE_EVENT && (last == DEFAULT_EVENT ==> id in w.kernel && !w.kernel[id].armed)
  }

  ghost predicate ClosedOk(w: World, id: Id, e: Entry) {
    && w.closed[id] == 1 && e.conn.link == Disconnected
    && id !in w.chan && id !in w.http && id !in w.kernel && !T.Held(w.queue, id)
  }

  ghost predicate EntryOk(w: World, id: Id)
    requires id in w.conns
  {
    var e := w.conns[id];
    if id in w.closed then ClosedOk(w, id, e) else TimerOk(w, id, e) && OpenOk(w, id, e)
  }

  /** Node identities are used once, and the tables know only connections. */
  ghost predicate Base(w: World) {
    && T.QueueOk(w.queue)
    && (forall n :: n in w.queue ==> n.id < w.nextNode && (n.holder.Some? ==> n.holder.value in w.conns))
    && w.chan <= w.conns.Keys && w.http <= w.conns.Keys && w.kernel.Keys <= w.conns.Keys
    && (forall j :: j in w.closed ==> j in w.conns)
  }

  /** The invariant, but for the entry of one connection. */
  ghost predicate Others(w: World, id: Id) {
    Base(w) && forall j :: j in w.conns && j != id ==> EntryOk(w, j)
  }

  ghost predicate Inv(w: World) {
    Base(w) && forall j :: j in w.conns ==> EntryOk(w, j)
  }

  /** No node holds the connection, and it is not linked to one. */
  ghost predicate Detached(w: World, id: Id)
    requires id in w.conns
  {
    !T.Held(w.queue, id) && w.conns[id].timer == None && !w.conns[id].conn.linked
  }

  lemma DetachKeepsOther(w: World, id: Id, j: Id)
    requires T.QueueOk(w.queue) && id in w.conns && TimerOk(w, id, w.conns[id])
    requires j in w.conns && j != id && EntryOk(w, j)
    ensures EntryOk(Detach(w, id), j)
  {
    hide T.Clear, Steady;
    if w.conns[id].timer.Some? {
      T.LiveAfterClear(w.queue, w.conns[id].timer.value);
    }
  }

  lemma DetachKeepsBase(w: World, id: Id)
    requires Base(w) && id in w.conns
    ensures Base(Detach(w, id))
  {
    hide T.Clear, T.QueueOk;
    if w.conns[id].timer.Some? {
      T.ClearKeepsQueueOk(w.queue, w.conns[id].timer.value);
      T.LiveAfterClear(w.queue, w.conns[id].timer.value);
    }
  }

  lemma DetachFrees(w: World, id: Id)
    requires id in w.conns && TimerOk(w, id, w.conns[id])
    ensures var u := Detach(w, id); id in u.conns && Detached(u, id)
  {
    hide T.Clear;
    if w.conns[id].timer.Some? {
      T.LiveAfterClear(w.queue, w.conns[id].timer.value);
    }
  }

  lemma DetachKeeps(w: World, id: Id)
    requires id in w.conns && Others(w, id) && TimerOk(w, id, w.conns[id])
    ensures var u := Detach(w, id);
            && Others(u, id) && id in u.conns && Detached(u, id)
            && u == w.(queue := u.queue, conns := w.conns[id := u.conns[id]])
            && u.conns[id] == w.conns[id].(conn := w.conns[id].conn.(linked := false), timer := None)
  {
    hide EntryOk, Detached;
    DetachKeepsBase(w, id);
    DetachFrees(w, id);
    var u := Detach(w, id);
    forall j | j in u.conns && j != id ensures EntryOk(u, j) {
      DetachKeepsOther(w, id, j);
    }
  }

  lemma AddTimerKeeps(w: World, id: Id, timeout: nat, now: nat)
    requires id in w.conns && Others(w, id) && Detached(w, id)
    ensures var u := AddTimer(w, id, timeout, now);
            && Others(u, id) && id in u.conns && TimerOk(u, id, u.conns[id])
            && u == w.(queue := u.queue, nextNode := u.nextNode, conns := w.conns[id := u.conns[id]])
            && u.conns[id] == w.conns[id].(conn := w.conns[id].conn.(linked := true), timer := Some(w.nextNode))
  {
    var u := AddTimer(w, id, timeout, now);
    assert T.Node(w.nextNode, now + timeout, Some(id)) in u.queue;
    forall j | j in u.conns && j != id ensures EntryOk(u, j) {
      assert EntryOk(w, j);
    }
  }

  /** A registration through epoll_mod: the kernel has the channel's mask, armed, or the channel is dropped. */
  lemma EpollModKeeps(w: World, id: Id, ok: bool)
    requires id in w.conns && Others(w, id)
    requires id in w.chan ==> id in w.kernel && w.kernel[id].mask == w.conns[id].last
    requires id in w.chan && w.conns[id].last == w.conns[id].conn.events ==> w.kernel[id].armed
    ensures var u := EpollMod(w, id, ok); var e := w.conns[id];
            && Others(u, id) && id in u.conns && u.conns[id] == e.(last := e.conn.events)
            && u == w.(conns := w.conns[id := u.conns[id]], kernel := u.kernel, chan := u.chan)
            && u.chan <= w.chan && (ok ==> u.chan == w.chan)
            && (id in u.chan ==> id in u.kernel && u.kernel[id] == Reg(e.conn.events, true))
  {
    var u := EpollMod(w, id, ok);
    forall j | j in u.conns && j != id ensures EntryOk(u, j) {
      assert EntryOk(w, j);
    }
  }

  lemma CloseKeeps(w: World, id: Id)
    requires id in w.conns && Others(w, id) && id !in w.closed && !T.Held(w.queue, id)
    ensures Inv(CloseConn(w, id))
  {
    var u := CloseConn(w, id);
    forall j | j in u.conns ensures EntryOk(u, j) {
      if j != id {
        assert EntryOk(w, j);
      }
    }
  }

  lemma DeliverKeeps(w: World, id: Id)
    requires Inv(w) && id in w.kernel
    ensures var u := Deliver(w, id);
            && Others(u, id)
            && u == w.(kernel := w.kernel[id := u.kernel[id]])
            && u.kernel[id] == Reg(w.kernel[id].mask, w.kernel[id].armed && ONESHOT !in w.kernel[id].mask)
  {
    var u := Deliver(w, id);
    forall j | j in u.conns && j != id ensures EntryOk(u, j) {
      assert EntryOk(w, j);
    }
  }

  lemma SetConnKeeps(w: World, id: Id, c: Conn)
    requires id in w.conns && Others(w, id)
    ensures Others(SetConn(w, id, c), id)
  {
    var u := SetConn(w, id, c);
    forall j | j in u.conns && j != id ensures EntryOk(u, j) {
      assert EntryOk(w, j);
    }
  }

  // ---------------------------------------------------------------- every action keeps it

  lemma EpollAddKeeps(w: World, id: Id, ok: bool)
    requires id in w.conns && Others(w, id) && id !in w.chan
    ensures var u := EpollAdd(w, id, ok); var e := w.conns[id];
            && Others(u, id) && id in u.conns && u.conns[id] == e.(last := e.conn.events)
            && u == w.(conns := w.conns[id := u.conns[id]], http := w.http + {id}, kernel := u.kernel, chan := u.chan)
            && (id in u.chan <==> ok)
            && (ok ==> id in u.kernel && u.kernel[id] == Reg(e.conn.events, true))
  {
    var u := EpollAdd(w, id, ok);
    forall j | j in u.conns && j != id ensures EntryOk(u, j) {
      assert EntryOk(w, j);
    }
  }

  lemma NewEntryKeeps(w: World, id: Id, e: Entry)
    requires Inv(w) && id !in w.conns && e.timer == None && !e.conn.linked
    ensures var v := w.(conns := w.conns[id := e]);
            Others(v, id) && Detached(v, id) && id !in v.chan && id !in v.closed
  {
    var v := w.(conns := w.conns[id := e]);
    forall j | j in v.conns && j != id ensures EntryOk(v, j) {
      assert EntryOk(w, j);
    }
  }

  lemma NewKeeps(w: World, id: Id, ok: bool, now: nat)
    requires Inv(w) && id !in w.conns
    ensures Inv(Accept(w, id, ok, now))
  {
    var e := Entry(FRESH.(events := DEFAULT_EVENT), {}, None);
    var v := w.(conns := w.conns[id := e]);
    NewEntryKeeps(w, id, e);
    AddTimerKeeps(v, id, DEFAULT_EXPIRED_TIME, now);
    var x := AddTimer(v, id, DEFAULT_EXPIRED_TIME, now);
    EpollAddKeeps(x, id, ok);
    var u := Accept(w, id, ok, now);
    assert Steady(u.conns[id].conn);
    assert EntryOk(u, id);
  }

  lemma PopKeeps(w: World, n: T.Node)
    requires Inv(w) && n in w.queue
    ensures var u := w.(queue := w.queue - {n});
            Inv(if n.holder.Some? then CloseConn(u, n.holder.value) else u)
  {
    var u := w.(queue := w.queue - {n});
    forall j | j in u.conns && Some(j) != n.holder ensures EntryOk(u, j) {
      assert EntryOk(w, j);
    }
    if n.holder.Some? {
      var id := n.holder.value;
      assert EntryOk(w, id);
      CloseKeeps(u, id);
    }
  }

  /** In every reachable state the handlers of an offered event can be called. */
  lemma RegisteredIsSteady(w: World, id: Id)
    requires Inv(w) && id in w.chan
    ensures id in w.conns && id !in w.closed && Steady(w.conns[id].conn)
    ensures TimerOk(w, id, w.conns[id]) && RegisteredOk(w, id, w.conns[id]) && id in w.http
  {
    assert EntryOk(w, id);
  }

  lemma EarlyKeeps(w: World, id: Id)
    requires Inv(w) && id in w.chan && w.kernel[id].armed
    ensures Inv(SetConn(Deliver(w, id), id, w.conns[id].conn.(events := {})))
  {
    RegisteredIsSteady(w, id);
    DeliverKeeps(w, id);
    var d := Deliver(w, id);
    var u := SetConn(d, id, w.conns[id].conn.(events := {}));
    SetConnKeeps(d, id, w.conns[id].conn.(events := {}));
    assert EntryOk(w, id);
    assert EntryOk(u, id);
  }

  /** An event that the registered mask allows, and that is not dropped early, reaches a handler. */
  lemma EventHasHandler(revents: Mask, mask: Mask)
    requires Reportable(revents, mask) && (mask == DEFAULT_EVENT || Rearmed(mask))
    requires !(HUP in revents && IN !in revents) && ERR !in revents
    ensures revents * {IN, PRI, RDHUP, OUT} != {}
  {
    var f :| f in revents;
    assert f == IN || f == OUT || f == HUP;
    if f == HUP {
      assert IN in revents;
    }
    assert IN in revents * {IN, PRI, RDHUP, OUT} || OUT in revents * {IN, PRI, RDHUP, OUT};
  }

  /** With the mask for writing no event reads, so no peer is found to have closed its side. */
  lemma WritingKeepsLink(c: Conn, revents: Mask, net: string, plan: Plan)
    requires Steady(c) && |c.inBuf| + |net| < NPOS && Reportable(revents, WRITE_EVENT)
    ensures var r := HandleEvents(c, revents, net, plan, 0); r.Done? ==> r.conn.link == c.link
  {
    hide HandleRead;
    assert IN !in revents && PRI !in revents && RDHUP !in revents;
  }

  /** The state in which handleConn's request is carried out. */
  ghost predicate Handled(x: World, id: Id, mask: Mask) {
    && id in x.conns && Others(x, id) && Detached(x, id) && id !in x.closed && id in x.http && id in x.chan
    && id in x.kernel && x.kernel[id].mask == x.conns[id].last == mask
    && (x.kernel[id].armed <==> Rearmed(mask))
  }

  lemma ApplyKeeps(x: World, id: Id, mask: Mask, request: Request, ok: bool, now: nat)
    requires Handled(x, id, mask) && (mask == DEFAULT_EVENT || Rearmed(mask))
    requires x.conns[id].conn.link != Disconnected
    requires !request.Close? ==> Steady(x.conns[id].conn)
    requires request.Update? <==> !x.conns[id].conn.error && x.conns[id].conn.link == Connected
    requires request.Update? ==> Rearmed(x.conns[id].conn.events)
    requires request.Update? && x.conns[id].conn.outBuf != "" ==> x.conns[id].conn.events == WRITE_EVENT
    requires request.Leave? ==> mask != WRITE_EVENT
    ensures Inv(Apply(x, id, request, ok, now))
  {
    match request
    case Update(timeout) =>
      AddTimerKeeps(x, id, timeout, now);
      var y := AddTimer(x, id, timeout, now);
      EpollModKeeps(y, id, ok);
      assert EntryOk(EpollMod(y, id, ok), id);
    case Leave =>
      assert EntryOk(x, id);
    case Close =>
      CloseKeeps(x, id);
  }

  lemma HandledAfter(w: World, a: Action)
    requires Inv(w) && a.Event? && Enabled(w, a) && a.id in w.chan
    requires HandleEvents(w.conns[a.id].conn, a.revents, a.net, a.plan, 0).Done?
    ensures var r := HandleEvents(w.conns[a.id].conn, a.revents, a.net, a.plan, 0);
            var x := SetConn(Detach(Deliver(w, a.id), a.id), a.id, r.conn);
            Handled(x, a.id, w.conns[a.id].last) && x.conns[a.id].conn == r.conn
  {
    hide HandleEvents, Steady, Others, EntryOk;
    RegisteredIsSteady(w, a.id);
    DeliverKeeps(w, a.id);
    var d := Deliver(w, a.id);
    DetachKeeps(d, a.id);
    var r := HandleEvents(w.conns[a.id].conn, a.revents, a.net, a.plan, 0);
    HandleEventsKeeps(w.conns[a.id].conn, a.revents, a.net, a.plan, 0);
    SetConnKeeps(Detach(d, a.id), a.id, r.conn);
  }

  lemma EventKeeps(w: World, a: Action)
    requires Inv(w) && a.Event? && Enabled(w, a)
    ensures Inv(Step(w, a))
  {
    var id := a.id;
    if id !in w.chan {
      DeliverKeeps(w, id);
      assert id in w.conns ==> EntryOk(w, id);
    } else {
      RegisteredIsSteady(w, id);
      var c := w.conns[id].conn;
      HandleEventsKeeps(c, a.revents, a.net, a.plan, 0);
      match HandleEvents(c, a.revents, a.net, a.plan, 0)
      case Early(_) => EarlyKeeps(w, id);
      case Crash =>
      case Done(f, _, _, request) =>
        HandledAfter(w, a);
        EventHasHandler(a.revents, w.conns[id].last);
        if w.conns[id].last == WRITE_EVENT {
          WritingKeepsLink(c, a.revents, a.net, a.plan);
        }
        ApplyKeeps(SetConn(Detach(Deliver(w, id), id), id, f), id, w.conns[id].last, request, a.ok, a.now);
    }
  }

  lemma StepKeepsInv(w: World, a: Action)
    requires Inv(w) && Enabled(w, a)
    ensures Inv(Step(w, a))
  {
    match a
    case New(id, ok, now) => NewKeeps(w, id, ok, now);
    case Event(_, _, _, _, _, _) => EventKeeps(w, a);
    case Pop(n, _) => PopKeeps(w, n);
  }

  lemma {:induction false} ReachableInv(worlds: seq<World>, acts: seq<Action>, k: nat)
    requires IsRun(worlds, acts) && k <= |acts|
    ensures Inv(worlds[k])
  {
    if k > 0 {
      ReachableInv(worlds, acts, k - 1);
      StepKeepsInv(worlds[k - 1], acts[k - 1]);
    }
  }

  // ---------------------------------------------------------------- what every run keeps

  /** One timer per connection: at any time of any run at most one node holds a connection, it is the
      node that its timer_ is linked to, and there is one exactly while the connection is open and
      connected. */
  lemma OneTimer(worlds: seq<World>, acts: seq<Action>, k: nat, id: Id)
    requires IsRun(worlds, acts) && k <= |acts| && id in worlds[k].conns
    ensures var w := worlds[k];
            && (forall a, b :: a in w.queue && b in w.queue && a.holder == Some(id) == b.holder ==> a == b)
            && (forall n :: n in w.queue && n.holder == Some(id) ==> w.conns[id].timer == Some(n.id))
            && (T.Held(w.queue, id) <==> id !in w.closed && w.conns[id].conn.link == Connected)
  {
    ReachableInv(worlds, acts, k);
    var w := worlds[k];
    assert EntryOk(w, id);
    if id !in w.closed && w.conns[id].conn.link == Connected {
      var n :| n in w.queue && n.id == w.conns[id].timer.value && n.holder == Some(id);
      assert T.Held(w.queue, id);
    }
  }

  /** handleClose runs at most once for a connection, whether it expires, fails or hangs up; it has run
      exactly when the connection is disconnected, and then no table and no node knows it any more. */
  lemma CloseOnce(worlds: seq<World>, acts: seq<Action>, k: nat, id: Id)
    requires IsRun(worlds, acts) && k <= |acts| && id in worlds[k].conns
    ensures var w := worlds[k];
            && w.closed[id] <= 1
            && (w.closed[id] == 1 <==> w.conns[id].conn.link == Disconnected)
            && (w.closed[id] == 1 ==> id !in w.chan && id !in w.http && id !in w.kernel && !T.Held(w.queue, id))
  {
    ReachableInv(worlds, acts, k);
    assert EntryOk(worlds[k], id);
  }

  /** Between two events every open connection is in order: no error, one of the three waiting stages,
      a POST while a body is awaited. */
  lemma OpenIsSteady(worlds: seq<World>, acts: seq<Action>, k: nat, id: Id)
    requires IsRun(worlds, acts) && k <= |acts| && id in worlds[k].conns && id !in worlds[k].closed
    ensures Steady(worlds[k].conns[id].conn) && id in worlds[k].http
  {
    ReachableInv(worlds, acts, k);
    assert EntryOk(worlds[k], id);
  }

  /** The kernel's mask is the channel's last mask; only the one-shot mask of a new connection can be
      disarmed; and unsent output of a connected peer waits for EPOLLOUT. */
  lemma KernelAgrees(worlds: seq<World>, acts: seq<Action>, k: nat, id: Id)
    requires IsRun(worlds, acts) && k <= |acts| && id in worlds[k].chan
    ensures var w := worlds[k];
            && id in w.conns && id in w.kernel && w.kernel[id].mask == w.conns[id].last
            && (w.conns[id].last == DEFAULT_EVENT || (Rearmed(w.conns[id].last) && w.kernel[id].armed))
            && (w.conns[id].conn.link == Connected && w.conns[id].conn.outBuf != "" ==> w.conns[id].last == WRITE_EVENT)
  {
    ReachableInv(worlds, acts, k);
    RegisteredIsSteady(worlds[k], id);
    MasksDiffer();
  }

  /** In every run every half-closed peer is abandoned: its connection is open and has a channel, but no timer,
      and nothing waits for EPOLLOUT.  Its registration is spent, or is armed for reading only. */
  lemma HalfClosedIsAbandoned(worlds: seq<World>, acts: seq<Action>, k: nat, id: Id)
    requires IsRun(worlds, acts) && k <= |acts|
    ensures var w := worlds[k];
            && (Abandoned(w, id) <==> id in w.conns && w.conns[id].conn.link == Disconnecting)
            && (Abandoned(w, id) ==> w.kernel[id] == Reg(DEFAULT_EVENT, false) || w.kernel[id] == Reg(READ_EVENT, true))
  {
    ReachableInv(worlds, acts, k);
    var w := worlds[k];
    if id in w.conns {
      assert EntryOk(w, id);
      MasksDiffer();
    }
  }

  /** After handleConn of a connected connection without error, whose system call succeeds, the
      descriptor is armed for EPOLLIN or EPOLLOUT, whether the call was left out or not. */
  lemma ArmedAfterHandleConn(w: World, a: Action)
    requires Inv(w) && a.Event? && Enabled(w, a) && a.id in w.chan && a.ok
    requires HandleEvents(w.conns[a.id].conn, a.revents, a.net, a.plan, 0).Done?
    ensures var c := HandleEvents(w.conns[a.id].conn, a.revents, a.net, a.plan, 0).conn;
            !c.error && c.link == Connected ==>
              var u := Step(w, a);
              && a.id in u.chan && a.id in u.kernel && u.kernel[a.id].armed
              && Rearmed(u.kernel[a.id].mask) && u.kernel[a.id].mask == c.events
  {
    var r := HandleEvents(w.conns[a.id].conn, a.revents, a.net, a.plan, 0);
    HandleEventsKeeps(w.conns[a.id].conn, a.revents, a.net, a.plan, 0);
    HandledAfter(w, a);
    if r.request.Update? {
      var x := SetConn(Detach(Deliver(w, a.id), a.id), a.id, r.conn);
      AddTimerKeeps(x, a.id, r.request.timeout, a.now);
      EpollModKeeps(AddTimer(x, a.id, r.request.timeout, a.now), a.id, true);
    }
  }

  /** Leaving out EPOLL_CTL_MOD for an unchanged mask loses nothing: wherever handleConn registers, the
      state is the same as if the call were always made. */
  lemma ElisionIsSound(x: World, id: Id, mask: Mask, timeout: nat, now: nat)
    requires Handled(x, id, mask) && (mask == DEFAULT_EVENT || Rearmed(mask)) && Rearmed(x.conns[id].conn.events)
    ensures EpollMod(AddTimer(x, id, timeout, now), id, true) == AlwaysMod(AddTimer(x, id, timeout, now), id, true)
  {
    AddTimerKeeps(x, id, timeout, now);
    var y := AddTimer(x, id, timeout, now);
    MasksDiffer();
    if mask == y.conns[id].conn.events {
      assert Rearmed(mask);
      assert y.kernel[id := Reg(mask, true)] == y.kernel;
    }
  }

  /** The step with the simple form of epoll_mod. */
  ghost function StepAlways(w: World, a: Action): World
    requires a.Event? && Enabled(w, a) && a.id in w.chan
  {
    match HandleEvents(w.conns[a.id].conn, a.revents, a.net, a.plan, 0)
    case Early(c) => SetConn(Deliver(w, a.id), a.id, c)
    case Done(c, _, _, Update(timeout)) =>
      AlwaysMod(AddTimer(SetConn(Detach(Deliver(w, a.id), a.id), a.id, c), a.id, timeout, a.now), a.id, a.ok)
    case _ => Step(w, a)
  }

  /** In every reachable state, and for every event whose system calls succeed. */
  lemma ElidedRunIsAlwaysRun(worlds: seq<World>, acts: seq<Action>, k: nat)
    requires IsRun(worlds, acts) && k < |acts|
    requires acts[k].Event? && acts[k].id in worlds[k].chan && acts[k].ok
    ensures StepAlways(worlds[k], acts[k]) == worlds[k + 1]
  {
    ReachableInv(worlds, acts, k);
    var w, a := worlds[k], acts[k];
    RegisteredIsSteady(w, a.id);
    var r := HandleEvents(w.conns[a.id].conn, a.revents, a.net, a.plan, 0);
    HandleEventsKeeps(w.conns[a.id].conn, a.revents, a.net, a.plan, 0);
    if r.Done? && r.request.Update? {
      HandledAfter(w, a);
      var x := SetConn(Detach(Deliver(w, a.id), a.id), a.id, r.conn);
      ElisionIsSound(x, a.id, w.conns[a.id].last, r.request.timeout, a.now);
    }
  }

  /** An offered action can be carried out whenever its handlers neither throw nor run out of memory:
      nothing else stands in the way. */
  lemma OfferedIsCallable(worlds: seq<World>, acts: seq<Action>, k: nat, a: Action)
    requires IsRun(worlds, acts) && k <= |acts| && Offered(worlds[k], a)
    requires a.Event? && a.id in worlds[k].conns ==> |worlds[k].conns[a.id].conn.inBuf| + |a.net| < NPOS
    ensures a.New? || a.Pop? ==> Enabled(worlds[k], a)
    ensures a.Event? && a.id in worlds[k].chan ==>
              a.id in worlds[k].conns && Steady(worlds[k].conns[a.id].conn)
              && (Enabled(worlds[k], a) <==>
                  !HandleEvents(worlds[k].conns[a.id].conn, a.revents, a.net, a.plan, 0).Crash?)
  {
    ReachableInv(worlds, acts, k);
    if a.Event? && a.id in worlds[k].chan {
      RegisteredIsSteady(worlds[k], a.id);
    }
  }

  // ---------------------------------------------------------------- the lazy queue against a simple map

  /** What an action does to a map from connections to deadlines that is kept up to date at once:
      registering sets a deadline, detaching and expiry remove it. */
  ghost function EagerStep(deadlines: map<Id, nat>, w: World, a: Action): map<Id, nat>
    requires Enabled(w, a)
  {
    match a
    case New(id, _, now) => deadlines[id := now + DEFAULT_EXPIRED_TIME]
    case Event(id, revents, net, plan, _, now) =>
      if id !in w.chan then deadlines
      else
        match HandleEvents(w.conns[id].conn, revents, net, plan, 0) {
          case Early(_) => deadlines
          case Done(_, _, _, Update(timeout)) => deadlines[id := now + timeout]
          case Done(_, _, _, _) => deadlines - {id}
        }
    case Pop(n, _) => if n.holder.Some? then deadlines - {n.holder.value} else deadlines
  }

  ghost function Deadlines(worlds: seq<World>, acts: seq<Action>, k: nat): map<Id, nat>
    requires IsRun(worlds, acts) && k <= |acts|
  {
    if k == 0 then map[] else EagerStep(Deadlines(worlds, acts, k - 1), worlds[k - 1], acts[k - 1])
  }

  lemma NotHeldNotMapped(q: T.Queue, deadlines: map<Id, nat>, id: Id)
    requires T.Refines(q, deadlines)
    ensures id in deadlines <==> T.Held(q, id)
  {
  }

  lemma DetachRefines(w: World, id: Id, deadlines: map<Id, nat>)
    requires id in w.conns && TimerOk(w, id, w.conns[id]) && T.Refines(w.queue, deadlines)
    ensures T.Refines(Detach(w, id).queue, deadlines - {id})
  {
    NotHeldNotMapped(w.queue, deadlines, id);
    match w.conns[id].timer
    case None =>
      assert deadlines - {id} == deadlines;
    case Some(t) =>
      var n :| n in w.queue && n.id == t && n.holder == Some(id);
      T.ClearIsRemoval(w.queue, n, deadlines);
  }

  lemma AddRefines(q: T.Queue, next: nat, key: nat, id: Id, deadlines: map<Id, nat>)
    requires T.Refines(q, deadlines - {id}) && forall n :: n in q ==> n.id < next
    ensures T.Refines(T.Add(q, next, key, id), deadlines[id := key])
  {
    T.AddIsInsertion(q, next, key, id, deadlines - {id});
    assert (deadlines - {id})[id := key] == deadlines[id := key];
  }

  lemma PopRefines(q: T.Queue, n: T.Node, deadlines: map<Id, nat>)
    requires T.Refines(q, deadlines) && n in q
    ensures T.Refines(q - {n}, if n.holder.Some? then deadlines - {n.holder.value} else deadlines)
  {
    var after := if n.holder.Some? then deadlines - {n.holder.value} else deadlines;
    forall c | c in after ensures T.Held(q - {n}, c) {
      var m :| m in q && m.holder == Some(c);
      assert m in q - {n};
    }
  }

  lemma DetachKeepsNumbers(w: World, id: Id)
    requires id in w.conns && forall n :: n in w.queue ==> n.id < w.nextNode
    ensures forall n :: n in Detach(w, id).queue ==> n.id < w.nextNode
  {
    var timer := w.conns[id].timer;
    if timer.Some? {
      forall m | m in T.Clear(w.queue, timer.value) ensures m.id < w.nextNode {
        T.ClearAt(w.queue, timer.value, m);
      }
    }
  }

  /** Where the queue comes from in an event that reaches its channel. */
  lemma QueueAfter(w: World, a: Action)
    requires a.Event? && Enabled(w, a) && a.id in w.chan
    ensures var r := HandleEvents(w.conns[a.id].conn, a.revents, a.net, a.plan, 0);
            Step(w, a).queue ==
              if r.Early? then w.queue
              else if r.request.Update? then T.Add(Detach(w, a.id).queue, w.nextNode, a.now + r.request.timeout, a.id)
              else Detach(w, a.id).queue
  {
    hide HandleEvents;
    assert Detach(Deliver(w, a.id), a.id).queue == Detach(w, a.id).queue;
  }

  lemma EventRefines(w: World, a: Action, deadlines: map<Id, nat>)
    requires a.Event? && Enabled(w, a) && a.id in w.chan && T.Refines(w.queue, deadlines)
    requires TimerOk(w, a.id, w.conns[a.id]) && forall n :: n in w.queue ==> n.id < w.nextNode
    ensures T.Refines(Step(w, a).queue, EagerStep(deadlines, w, a))
  {
    hide HandleEvents, T.Refines, Step, TimerOk;
    QueueAfter(w, a);
    DetachRefines(w, a.id, deadlines);
    DetachKeepsNumbers(w, a.id);
    var r := HandleEvents(w.conns[a.id].conn, a.revents, a.net, a.plan, 0);
    if r.Done? && r.request.Update? {
      AddRefines(Detach(w, a.id).queue, w.nextNode, a.now + r.request.timeout, a.id, deadlines);
    }
  }

  lemma NewRefines(w: World, id: Id, ok: bool, now: nat, deadlines: map<Id, nat>)
    requires id !in w.conns && T.Refines(w.queue, deadlines)
    requires forall n :: n in w.queue ==> n.id < w.nextNode && n.holder != Some(id)
    ensures T.Refines(Accept(w, id, ok, now).queue, deadlines[id := now + DEFAULT_EXPIRED_TIME])
  {
    NotHeldNotMapped(w.queue, deadlines, id);
    assert deadlines - {id} == deadlines;
    AddRefines(w.queue, w.nextNode, now + DEFAULT_EXPIRED_TIME, id, deadlines);
  }

  lemma StepRefines(w: World, a: Action, deadlines: map<Id, nat>)
    requires Inv(w) && Enabled(w, a) && T.Refines(w.queue, deadlines)
    ensures T.Refines(Step(w, a).queue, EagerStep(deadlines, w, a))
  {
    hide HandleEvents, T.Refines, EntryOk, Accept;
    match a
    case New(id, ok, now) => NewRefines(w, id, ok, now, deadlines);
    case Event(id, _, _, _, _, _) =>
      if id in w.chan {
        RegisteredIsSteady(w, id);
        EventRefines(w, a, deadlines);
      }
    case Pop(n, _) => PopRefines(w.queue, n, deadlines);
  }

  /** In every run the lazy queue stands for the map: its undeleted nodes are exactly the deadlines that
      registering has set and that neither detaching nor expiry has removed. */
  lemma {:induction false} LazyRefinesEager(worlds: seq<World>, acts: seq<Action>, k: nat)
    requires IsRun(worlds, acts) && k <= |acts|
    ensures T.Refines(worlds[k].queue, Deadlines(worlds, acts, k))
  {
    if k > 0 {
      LazyRefinesEager(worlds, acts, k - 1);
      ReachableInv(worlds, acts, k - 1);
      StepRefines(worlds[k - 1], acts[k - 1], Deadlines(worlds, acts, k - 1));
    }
  }

  /** The connections whose nodes were taken out of q. */
  ghost function Gone(q: T.Queue, after: T.Queue): set<Id> {
    set n | n in q && n !in after && n.holder.Some? :: n.holder.value
  }

  /** handleExpiredEvent at work: its turns so far were actions i to j, with clock readings up to high. */
  ghost predicate Popping(worlds: seq<World>, acts: seq<Action>, i: nat, j: nat, high: nat) {
    && IsRun(worlds, acts) && i <= j <= |acts|
    && forall t :: i <= t < j ==> acts[t].Pop? && acts[t].now <= high
  }

  lemma PoppingOneMore(worlds: seq<World>, acts: seq<Action>, i: nat, n: T.Node, now: nat, last: nat, next: nat)
    requires Popping(worlds, acts, i, |acts|, last) && Enabled(worlds[|acts|], Pop(n, now)) && now <= next
    requires last <= next
    ensures var a := Pop(n, now);
            Popping(worlds + [Step(worlds[|acts|], a)], acts + [a], i, |acts| + 1, next)
  {
    RunExtends(worlds, acts, Pop(n, now));
  }

  lemma GoneGrows(q: T.Queue, after: T.Queue, n: T.Node)
    requires T.QueueOk(q) && after <= q && n in after
    ensures n.holder.None? ==> Gone(q, after - {n}) == Gone(q, after)
    ensures n.holder.Some? ==>
              n.holder.value !in Gone(q, after) && Gone(q, after - {n}) == Gone(q, after) + {n.holder.value}
  {
    if n.holder.Some? {
      assert n in q && n !in after - {n};
    }
  }

  /** `from` is where handleExpiredEvent began and w how far it has come: dead nodes and expired ones are
      taken out, and what these held is closed. */
  ghost predicate PoppedFrom(from: World, w: World, last: nat) {
    && w.queue <= from.queue
    && (forall n :: n in from.queue && n !in w.queue ==> n.holder.None? || n.key <= last)
    && w.closed == from.closed + multiset(Gone(from.queue, w.queue))
  }

  lemma PopOne(from: World, w: World, n: T.Node, now: nat, last: nat)
    requires T.QueueOk(from.queue) && PoppedFrom(from, w, last) && Enabled(w, Pop(n, now)) && now <= last
    ensures PoppedFrom(from, Step(w, Pop(n, now)), last)
  {
    GoneGrows(from.queue, w.queue, n);
  }

  lemma {:induction false} PoppedSoFar(worlds: seq<World>, acts: seq<Action>, i: nat, j: nat, last: nat)
    requires Popping(worlds, acts, i, j, last)
    ensures PoppedFrom(worlds[i], worlds[j], last)
  {
    hide PoppedFrom, Step, EntryOk;
    if i < j {
      PoppedSoFar(worlds, acts, i, j - 1, last);
      ReachableInv(worlds, acts, i);
      PopOne(worlds[i], worlds[j - 1], acts[j - 1].n, acts[j - 1].now, last);
    } else {
      PoppedNothing(worlds[i], last);
    }
  }

  lemma PoppedNothing(w: World, last: nat)
    ensures PoppedFrom(w, w, last)
  {
    assert Gone(w.queue, w.queue) == {};
  }

  lemma RefinesOne(q: T.Queue, m: map<Id, nat>, n: map<Id, nat>)
    requires T.Refines(q, m) && T.Refines(q, n)
    ensures m == n
  {
    forall c ensures c in m <==> c in n {
      NotHeldNotMapped(q, m, c);
      NotHeldNotMapped(q, n, c);
    }
    forall c | c in m ensures m[c] == n[c] {
      var x :| x in q && x.holder == Some(c);
    }
  }

  /** The clock was read at `last` when handleExpiredEvent stopped: it found a live node that has not
      expired on top, or nothing. */
  ghost predicate Stopped(q: T.Queue, last: nat) {
    q == {} || exists n :: T.IsTop(q, n) && n.holder.Some? && last < n.key
  }

  lemma GoneIsRemoved(q: T.Queue, after: T.Queue, deadlines: map<Id, nat>)
    requires T.Refines(q, deadlines) && after <= q
    ensures T.Refines(after, deadlines - Gone(q, after))
  {
    var left := deadlines - Gone(q, after);
    forall n | n in after && n.holder.Some? ensures n.holder.value in left && left[n.holder.value] == n.key {
    }
    forall c | c in left ensures T.Held(after, c) {
      var n :| n in q && n.holder == Some(c);
      assert n in after;
    }
  }

  /** Whatever the clock does during one call of handleExpiredEvent: what it closes includes every
      connection whose deadline is at or before its last reading, and none whose deadline is behind all its
      readings; the other deadlines stay. */
  lemma SweepBounds(worlds: seq<World>, acts: seq<Action>, i: nat, j: nat, high: nat, last: nat) returns (gone: set<Id>)
    requires Popping(worlds, acts, i, j, high) && Stopped(worlds[j].queue, last)
    ensures var before := Deadlines(worlds, acts, i);
            && worlds[j].closed == worlds[i].closed + multiset(gone) && gone <= before.Keys
            && Deadlines(worlds, acts, j) == before - gone
            && (forall c :: c in before && before[c] <= last ==> c in gone)
            && (forall c :: c in gone ==> before[c] <= high)
            && forall n :: n in worlds[j].queue ==> last < n.key
  {
    hide Step, EagerStep, Enabled;
    PoppedSoFar(worlds, acts, i, j, high);
    LazyRefinesEager(worlds, acts, i);
    LazyRefinesEager(worlds, acts, j);
    var before := Deadlines(worlds, acts, i);
    gone := GoneWithin(worlds[i], worlds[j], high, last, before, Deadlines(worlds, acts, j));
  }

  lemma GoneWithin(from: World, w: World, high: nat, last: nat, before: map<Id, nat>, after: map<Id, nat>)
    returns (gone: set<Id>)
    requires T.Refines(from.queue, before) && T.Refines(w.queue, after)
    requires PoppedFrom(from, w, high) && Stopped(w.queue, last)
    ensures gone == Gone(from.queue, w.queue) && gone <= before.Keys && after == before - gone
    ensures forall c :: c in before && before[c] <= last ==> c in gone
    ensures forall c :: c in gone ==> before[c] <= high
    ensures forall n :: n in w.queue ==> last < n.key
  {
    gone := Gone(from.queue, w.queue);
    GoneIsRemoved(from.queue, w.queue, before);
    RefinesOne(w.queue, before - gone, after);
    forall c | c in before && before[c] <= last ensures c in gone {
      var n :| n in from.queue && n.holder == Some(c);
      assert before[c] == n.key;
    }
  }

  /** One call of handleExpiredEvent, anywhere in a run, with a clock that does not run backwards: it closes
      exactly the connections whose deadline is at or before its last reading, each once; the other deadlines
      stay, and no node with such a key is left, deleted or not. */
  lemma SweepClosesExpired(worlds: seq<World>, acts: seq<Action>, i: nat, j: nat, last: nat)
    requires Popping(worlds, acts, i, j, last) && Stopped(worlds[j].queue, last)
    ensures var before := Deadlines(worlds, acts, i);
            var due := set c | c in before && before[c] <= last;
            && worlds[j].closed == worlds[i].closed + multiset(due)
            && Deadlines(worlds, acts, j) == before - due
            && forall n :: n in worlds[j].queue ==> last < n.key
  {
    hide Step, EagerStep, Enabled, Stopped;
    var before := Deadlines(worlds, acts, i);
    var gone := SweepBounds(worlds, acts, i, j, last, last);
    assert gone == set c | c in before && before[c] <= last;
  }

  // ---------------------------------------------------------------- a connection that is left behind

  /** Open and half closed, without a timer, and not waiting for EPOLLOUT: its registration is spent, or
      asks for EPOLLIN only. */
  ghost predicate Abandoned(w: World, id: Id) {
    && id in w.conns && id !in w.closed && w.conns[id].conn.link == Disconnecting && !T.Held(w.queue, id)
    && id in w.chan && id in w.kernel && !(w.kernel[id].armed && OUT in w.kernel[id].mask)
  }

  /** A half-closed connection that handleConn leaves alone is abandoned, whatever it was registered for: with
      the one-shot mask of a new connection its registration is spent, with the mask for reading it stays armed
      for nothing. */
  lemma LeaveAbandons(w: World, a: Action)
    requires Inv(w) && a.Event? && Enabled(w, a) && a.id in w.chan
    requires HandleEvents(w.conns[a.id].conn, a.revents, a.net, a.plan, 0).Done?
    requires HandleEvents(w.conns[a.id].conn, a.revents, a.net, a.plan, 0).request.Leave?
    ensures var u := Step(w, a);
            && Abandoned(u, a.id)
            && u.conns[a.id].conn == HandleEvents(w.conns[a.id].conn, a.revents, a.net, a.plan, 0).conn
            && (w.conns[a.id].last == DEFAULT_EVENT || w.conns[a.id].last == READ_EVENT)
            && u.kernel[a.id] == Reg(w.conns[a.id].last, w.conns[a.id].last == READ_EVENT)
  {
    hide HandleEvents;
    HandleEventsKeeps(w.conns[a.id].conn, a.revents, a.net, a.plan, 0);
    HandledAfter(w, a);
    RegisteredIsSteady(w, a.id);
    if w.conns[a.id].last == WRITE_EVENT {
      WritingKeepsLink(w.conns[a.id].conn, a.revents, a.net, a.plan);
    }
    assert EntryOk(w, a.id);
    MasksDiffer();
  }

  lemma MasksDiffer()
    ensures ONESHOT in DEFAULT_EVENT && ONESHOT !in READ_EVENT && ONESHOT !in WRITE_EVENT
    ensures OUT in WRITE_EVENT && OUT !in READ_EVENT && OUT !in DEFAULT_EVENT
  {
  }

  /** Nothing about the connection is different in u. */
  ghost predicate Untouched(w: World, u: World, id: Id)
    requires id in w.conns && id in w.kernel
  {
    && id in u.conns && u.conns[id] == w.conns[id] && id in u.kernel && u.kernel[id] == w.kernel[id]
    && (id in u.chan <==> id in w.chan) && (id in u.closed <==> id in w.closed)
    && (!T.Held(w.queue, id) ==> !T.Held(u.queue, id))
  }

  lemma DetachTouchesOne(w: World, other: Id, id: Id)
    requires id in w.conns && id in w.kernel && other in w.conns && other != id && T.QueueOk(w.queue)
    ensures Untouched(w, Detach(w, other), id)
  {
    if w.conns[other].timer.Some? {
      T.ClearKeepsQueueOk(w.queue, w.conns[other].timer.value);
    }
  }

  lemma ApplyTouchesOne(w: World, other: Id, request: Request, ok: bool, now: nat, id: Id)
    requires id in w.conns && id in w.kernel && other in w.conns && other != id
    ensures Untouched(w, Apply(w, other, request, ok, now), id)
  {
    match request
    case Update(timeout) =>
      var y := AddTimer(w, other, timeout, now);
      assert Untouched(w, y, id);
      assert Untouched(y, EpollMod(y, other, ok), id);
    case Leave =>
    case Close =>
  }

  lemma EventTouchesOne(w: World, a: Action, id: Id)
    requires Inv(w) && a.Event? && Enabled(w, a) && a.id != id && id in w.conns && id in w.kernel
    ensures Untouched(w, HandleEvent(w, a), id)
  {
    var d := Deliver(w, a.id);
    assert Untouched(w, d, id);
    if a.id in w.chan {
      RegisteredIsSteady(w, a.id);
      var r := HandleEvents(w.conns[a.id].conn, a.revents, a.net, a.plan, 0);
      if r.Done? {
        DetachTouchesOne(d, a.id, id);
        var x := SetConn(Detach(d, a.id), a.id, r.conn);
        assert Untouched(d, x, id);
        ApplyTouchesOne(x, a.id, r.request, a.ok, a.now, id);
      }
    }
  }

  lemma OthersLeaveAbandoned(w: World, a: Action, id: Id)
    requires Inv(w) && Abandoned(w, id) && Enabled(w, a) && !(a.Event? && a.id == id)
    ensures Abandoned(Step(w, a), id)
    ensures Step(w, a).conns[id] == w.conns[id] && Step(w, a).kernel[id] == w.kernel[id]
  {
    match a
    case New(other, ok, now) =>
      var e := Entry(FRESH.(events := DEFAULT_EVENT), {}, None);
      var v := w.(conns := w.conns[other := e]);
      var y := AddTimer(v, other, DEFAULT_EXPIRED_TIME, now);
      assert Untouched(v, y, id);
      assert Untouched(y, EpollAdd(y, other, ok), id);
    case Event(_, _, _, _, _, _) =>
      EventTouchesOne(w, a, id);
    case Pop(n, _) =>
      assert n.holder != Some(id);
  }

  /** Without EPOLLIN an event can only be a hang-up or an error, which handleEvents drops; an error is
      dropped with EPOLLIN too. */
  lemma DroppedLeavesAbandoned(w: World, a: Action)
    requires Inv(w) && a.Event? && Abandoned(w, a.id) && Enabled(w, a)
    requires IN !in a.revents || ERR in a.revents
    ensures Abandoned(Step(w, a), a.id)
    ensures Step(w, a).conns[a.id].conn == w.conns[a.id].conn.(events := {})
  {
    RegisteredIsSteady(w, a.id);
    MasksDiffer();
    var f :| f in a.revents;
    assert ERR !in a.revents ==> f == HUP;
  }

  /** As long as epoll reports no EPOLLIN for it without EPOLLERR, nothing that can happen closes an abandoned
      connection or sends its output. */
  lemma {:induction false} AbandonedForEver(worlds: seq<World>, acts: seq<Action>, j: nat, k: nat, id: Id)
    requires IsRun(worlds, acts) && j <= k <= |acts| && Abandoned(worlds[j], id)
    requires forall t :: j <= t < k && acts[t].Event? && acts[t].id == id ==>
                             IN !in acts[t].revents || ERR in acts[t].revents
    ensures Abandoned(worlds[k], id) && worlds[k].conns[id].conn.outBuf == worlds[j].conns[id].conn.outBuf
  {
    hide Step;
    if j < k {
      AbandonedForEver(worlds, acts, j, k - 1, id);
      ReachableInv(worlds, acts, k - 1);
      var a := acts[k - 1];
      if a.Event? && a.id == id {
        DroppedLeavesAbandoned(worlds[k - 1], a);
      } else {
        OthersLeaveAbandoned(worlds[k - 1], a, id);
      }
    }
  }

  /** With a spent registration epoll reports nothing, so nothing at all happens to the connection. */
  lemma {:induction false} SpentForEver(worlds: seq<World>, acts: seq<Action>, j: nat, k: nat, id: Id)
    requires IsRun(worlds, acts) && j <= k <= |acts| && Abandoned(worlds[j], id) && !worlds[j].kernel[id].armed
    ensures Abandoned(worlds[k], id) && !worlds[k].kernel[id].armed && worlds[k].conns[id] == worlds[j].conns[id]
  {
    hide Step;
    if j < k {
      SpentForEver(worlds, acts, j, k - 1, id);
      ReachableInv(worlds, acts, k - 1);
      OthersLeaveAbandoned(worlds[k - 1], acts[k - 1], id);
    }
  }
}
