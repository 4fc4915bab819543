/** What the events of a run do to the deadlines, the registrations and the lives of connections
    (HttpData.cpp:151-185, Epoll.cpp:28-76). */
module Deadline {
  import opened Wrappers
  import opened Text
  import opened Connection
  import opened Reactor
  import H = HeaderGrammar
  import L = Response
  import O = Outcome
  import R = RequestLine
  import T = Timers
  import X = Exchange

  /** Action k is an event that reaches the channel of a connection; e is how its handlers end. */
  ghost predicate Reaches(worlds: seq<World>, acts: seq<Action>, k: nat, c: Conn, e: Dispatch) {
    && IsRun(worlds, acts) && k < |acts| && acts[k].Event? && acts[k].id in worlds[k].chan
    && acts[k].id in worlds[k].conns && worlds[k].conns[acts[k].id].conn == c
    && Steady(c) && |c.inBuf| + |acts[k].net| < NPOS
    && e == HandleEvents(c, acts[k].revents, acts[k].net, acts[k].plan, 0) && !e.Crash?
  }

  /** There is one for every such event. */
  lemma EventReaches(worlds: seq<World>, acts: seq<Action>, k: nat) returns (c: Conn, e: Dispatch)
    requires IsRun(worlds, acts) && k < |acts| && acts[k].Event? && acts[k].id in worlds[k].chan
    ensures Reaches(worlds, acts, k, c, e)
  {
    hide HandleEvents;
    ReachableInv(worlds, acts, k);
    RegisteredIsSteady(worlds[k], acts[k].id);
    assert Enabled(worlds[k], acts[k]);
    c := worlds[k].conns[acts[k].id].conn;
    e := HandleEvents(c, acts[k].revents, acts[k].net, acts[k].plan, 0);
  }

  // ---------------------------------------------------------------- deadlines

  /** A new connection has two seconds. */
  lemma DeadlineOfNew(worlds: seq<World>, acts: seq<Action>, k: nat)
    requires IsRun(worlds, acts) && k < |acts| && acts[k].New?
    ensures Deadlines(worlds, acts, k + 1) == Deadlines(worlds, acts, k)[acts[k].id := acts[k].now + 2000]
  {
    hide Step;
  }

  /** A dropped event leaves the deadline alone, a registration sets it from its timeout, and otherwise there is
      none any more. */
  lemma DeadlineAfterEvent(worlds: seq<World>, acts: seq<Action>, k: nat, c: Conn, e: Dispatch)
    requires Reaches(worlds, acts, k, c, e)
    ensures var before, after, a := Deadlines(worlds, acts, k), Deadlines(worlds, acts, k + 1), acts[k];
            && (e.Early? ==> after == before)
            && (e.Done? && e.request.Update? ==> after == before[a.id := a.now + e.request.timeout])
            && (e.Done? && !e.request.Update? ==> after == before - {a.id})
  {
    hide HandleEvents, Step;
  }

  /** After an event with something to read: five minutes for a connection that is kept alive; otherwise two seconds
      while a request is half read or output was left unsent, and two and a half minutes when all requests are
      answered completely. */
  lemma DeadlineAfterRead(worlds: seq<World>, acts: seq<Action>, k: nat, c: Conn, e: Dispatch)
    requires Reaches(worlds, acts, k, c, e) && e.Done? && e.request.Update?
    requires O.Reading(acts[k].revents) && OUT !in acts[k].revents
    ensures var after, a := Deadlines(worlds, acts, k + 1), acts[k];
            var rounds := L.Rounds(c.(events := {}), a.net, a.plan, 0);
            a.id in after && after[a.id] == a.now + (if e.conn.keepAlive then 300000
                                                     else if e.conn.stage != ParseUri || L.Stalled(rounds) then 2000
                                                     else 150000)
  {
    hide HandleEvents, L.Rounds, L.Stalled, Step, Deadlines;
    DeadlineAfterEvent(worlds, acts, k, c, e);
    L.TimeoutAfterRead(c, acts[k].revents, acts[k].net, acts[k].plan);
  }

  /** After an event that only writes. */
  lemma DeadlineAfterWrite(worlds: seq<World>, acts: seq<Action>, k: nat, c: Conn, e: Dispatch)
    requires Reaches(worlds, acts, k, c, e) && e.Done? && e.request.Update? && acts[k].revents == {OUT}
    ensures var after, a := Deadlines(worlds, acts, k + 1), acts[k];
            a.id in after && after[a.id] == a.now + (if c.keepAlive then 300000 else if e.conn.outBuf != "" then 2000
                                                     else 150000)
  {
    hide HandleEvents, Step, Deadlines;
    DeadlineAfterEvent(worlds, acts, k, c, e);
    L.TimeoutAfterWrite(c, acts[k].net, acts[k].plan);
  }

  /** An event that brings any number of requests with answers, in terms of the requests: the header lines decide
      about five minutes, and what was left unsent about the rest. */
  lemma DeadlineAfterRequests(worlds: seq<World>, acts: seq<Action>, k: nat, c: Conn, e: Dispatch,
                              qs: seq<X.Call>, fillers: string)
    requires Reaches(worlds, acts, k, c, e) && acts[k].revents == {IN}
    requires X.Waiting(c) && c.link == Connected && qs != [] && |fillers| == |qs| - 1
    requires c.inBuf + acts[k].net == L.Chain(qs, fillers)
    requires X.ReadsAll(acts[k].plan(0), acts[k].net) && L.AllAnswerable(qs, acts[k].plan, 0)
    ensures var after, a := Deadlines(worlds, acts, k + 1), acts[k];
            var rounds := L.Rounds(c.(events := {}), a.net, a.plan, 0);
            a.id in after && after[a.id] == a.now + (if c.keepAlive || L.SomeKeepsAlive(qs) then 300000
                                                     else if L.Stalled(rounds) then 2000
                                                     else 150000)
  {
    hide HandleRead, HandleConn, L.Rounds, L.Stalled, L.Chain, L.AllAnswerable, L.SomeKeepsAlive;
    hide Step, Deadlines, X.Waiting;
    var a, d := acts[k], c.(events := {});
    L.WaitingWithout(c);
    L.ChainIsAnswered(d, a.net, a.plan, 0, qs, fillers);
    HandleReadKeeps(d, a.net, a.plan, 0);
    var r := HandleRead(d, a.net, a.plan, 0);
    HandleConnKeeps(r.conn);
    StageOfWaiting(r.conn);
    DeadlineAfterRead(worlds, acts, k, c, e);
  }

  lemma StageOfWaiting(c: Conn)
    requires X.Waiting(c)
    ensures c.stage == ParseUri
  {
  }

  // ---------------------------------------------------------------- closing

  /** A close that an event asks for is carried out. */
  lemma CloseIsClosed(worlds: seq<World>, acts: seq<Action>, k: nat, c: Conn, e: Dispatch)
    requires Reaches(worlds, acts, k, c, e) && e.Done? && e.request.Close?
    ensures var u, id := worlds[k + 1], acts[k].id;
            u.closed[id] == 1 && id in u.conns && u.conns[id].conn.link == Disconnected
            && id !in u.chan && id !in u.kernel && !T.Held(u.queue, id)
  {
    hide HandleEvents, Detach;
    var w, a := worlds[k], acts[k];
    assert Enabled(w, a) && worlds[k + 1] == Step(w, a);
    DetachKeepsClosed(Deliver(w, a.id), a.id);
    var x := SetConn(Detach(Deliver(w, a.id), a.id), a.id, e.conn);
    assert worlds[k + 1] == CloseConn(x, a.id);
    CloseOnce(worlds, acts, k + 1, a.id);
  }

  lemma DetachKeepsClosed(w: World, id: Id)
    requires id in w.conns
    ensures Detach(w, id).closed == w.closed && id in Detach(w, id).conns
  {
  }

  /** A connection whose read or write fails, at any depth of pipelining, or that sends something the server refuses,
      is closed by that event. */
  lemma WrongIsClosed(worlds: seq<World>, acts: seq<Action>, k: nat, c: Conn, e: Dispatch)
    requires Reaches(worlds, acts, k, c, e) && e.Done? && c.link == Connected
    ensures var a, d := acts[k], c.(events := {});
            var r := RunHandlers(d, a.revents - {OUT}, a.net, a.plan, 0);
            var wrong := L.Wrong(L.EventRounds(d, a.revents, a.net, a.plan, 0), a.plan, 0)
                         || (OUT in a.revents && r.Ran? && r.conn.outBuf != "" && a.plan(r.turn).writeFails);
            wrong ==> worlds[k + 1].closed[a.id] == 1
  {
    hide HandleRead, L.EventRounds, L.Wrong, Step;
    var a := acts[k];
    O.DroppedIff(c, a.revents, a.net, a.plan);
    L.WrongCloses(c, a.revents, a.net, a.plan);
    if e.request.Close? {
      CloseIsClosed(worlds, acts, k, c, e);
    }
  }

  /** A connection whose header lines can be completed to no block is closed by the event that brings them. */
  lemma RefusedIsClosed(worlds: seq<World>, acts: seq<Action>, k: nat, c: Conn, e: Dispatch, u: Conn, text: string)
    requires Reaches(worlds, acts, k, c, e) && c.link == Connected && O.Reading(acts[k].revents)
    requires var t, taken := acts[k].plan(0), O.FirstRead(acts[k].net, acts[k].plan);
             O.ReadsOn(t, taken) && O.Enters(O.WithRead(c.(events := {}), t, taken), u, text)
    requires O.Refused(text)
    ensures worlds[k + 1].closed[acts[k].id] == 1
  {
    hide HandleEvents, Step, O.Enters;
    assert text + "" == text;
    O.HeadersDecide(c, acts[k].revents, acts[k].net, acts[k].plan, u, text);
    CloseIsClosed(worlds, acts, k, c, e);
  }

  // ---------------------------------------------------------------- registrations

  /** A registration whose mask has not changed cannot fail; any other one takes the channel with it exactly when
      its system call fails. */
  lemma DroppedIffFailed(worlds: seq<World>, acts: seq<Action>, k: nat, c: Conn, e: Dispatch)
    requires Reaches(worlds, acts, k, c, e) && e.Done? && e.request.Update?
    ensures var w, u, a := worlds[k], worlds[k + 1], acts[k];
            a.id in u.chan <==> a.ok || e.conn.events == w.conns[a.id].last
  {
    hide HandleEvents, Detach;
    var w, a := worlds[k], acts[k];
    assert Enabled(w, a) && worlds[k + 1] == Step(w, a);
    ReachableInv(worlds, acts, k);
    HandledAfter(w, a);
  }

  /** A new connection is served exactly when its system call succeeds; it has its timer in any case. */
  lemma ServedIffAdded(worlds: seq<World>, acts: seq<Action>, k: nat)
    requires IsRun(worlds, acts) && k < |acts| && acts[k].New?
    ensures var u, a := worlds[k + 1], acts[k];
            (a.id in u.chan <==> a.ok) && (a.ok ==> u.kernel[a.id] == Reg({IN, ET, ONESHOT}, true))
            && T.Held(u.queue, a.id) && u.nextNode == worlds[k].nextNode + 1
  {
    var a := acts[k];
    assert Enabled(worlds[k], a) && worlds[k + 1] == Step(worlds[k], a);
    ReachableInv(worlds, acts, k);
    assert T.Node(worlds[k].nextNode, a.now + DEFAULT_EXPIRED_TIME, Some(a.id)) in worlds[k + 1].queue;
  }
}
