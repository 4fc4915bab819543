/** Epoll.cpp and the timer queue of Timer.cpp in their own form: an object that updates its tables.
    Models says which state of the protocol in Reactor its objects stand for; every method is proved to
    take one step of that protocol, so what is proved there over whole runs holds of the objects. */
module Epoll {
  import opened Wrappers
  import opened Text
  import opened Connection
  import C = Connection
  import D = HttpData
  import T = Timers
  import W = Reactor
  import B = Batch

  /** One element of what epoll_wait fills in. */
  datatype Ready = Ready(fd: nat, revents: Mask)

  /** What happens to a connection while its event is handled: the bytes in its socket, reading, writing
      and the disk, the success of its system calls, and the clock. */
  datatype Input = Input(net: string, plan: Plan, ok: bool, now: T.Time)

  type Surroundings = nat -> Input

  function Max(a: nat, b: nat): nat {
    if a < b then b else a
  }

  ghost function ActionOf(r: Ready, env: Surroundings): W.Action {
    W.Event(r.fd, r.revents, env(r.fd).net, env(r.fd).plan, env(r.fd).ok, T.Stamp(env(r.fd).now))
  }

  ghost function ActionsOf(ready: seq<Ready>, env: Surroundings): (evs: seq<W.Action>)
    ensures |evs| == |ready| && forall k :: 0 <= k < |ready| ==> evs[k] == ActionOf(ready[k], env)
  {
    seq(|ready|, k requires 0 <= k < |ready| => ActionOf(ready[k], env))
  }

  ghost function EntryOf(http: D.HttpData): W.Entry
    reads http, http.channel
  {
    W.Entry(http.View(), http.channel.lastEvents, if http.timer == null then None else Some(http.timer.id))
  }

  /** The fd tables hold the entries that are not null; kernel is what epoll_ctl has built up behind
      epollFd_.  conns and nodes are all connections and all timer nodes ever made. */
  class Epoll {
    var fd2chan: map<nat, D.Channel>
    var fd2http: map<nat, D.HttpData>
    var timerNodeQueue: set<D.TimerNode>
    var kernel: map<nat, W.Reg>
    ghost var conns: map<nat, D.HttpData>
    ghost var nodes: map<nat, D.TimerNode>

    // ---------------------------------------------------------------- which state the objects stand for

    ghost predicate Known(http: D.HttpData)
      reads this`conns
    {
      http.fd in conns && conns[http.fd] == http
    }

    ghost predicate KnownNode(node: D.TimerNode)
      reads this`nodes
    {
      node.id in nodes && nodes[node.id] == node
    }

    static ghost predicate ChannelOk(http: D.HttpData)
      reads http.channel
    {
      http.channel.fd == http.fd && http.channel.holder == http
    }

    ghost predicate EntriesOk(es: map<nat, W.Entry>)
      reads this`conns, conns.Values, set c | c in conns :: conns[c].channel
    {
      && (forall c :: c in conns <==> c in es)
      && (forall c :: c in conns ==> conns[c].fd == c && ChannelOk(conns[c]) && EntryOf(conns[c]) == es[c])
    }

    ghost predicate LinksOk()
      reads this`conns, this`nodes, conns.Values`timer
    {
      forall c :: c in conns && conns[c].timer != null ==> KnownNode(conns[c].timer)
    }

    ghost predicate TablesOk(chan: set<nat>, http: set<nat>, regs: map<nat, W.Reg>)
      reads this`conns, this`fd2chan, this`fd2http, this`kernel
    {
      && fd2chan.Keys == chan && fd2http.Keys == http && kernel == regs
      && (forall c :: c in fd2chan ==> c in conns && fd2chan[c] == conns[c].channel)
      && (forall c :: c in fd2http ==> c in conns && fd2http[c] == conns[c])
    }

    ghost predicate NodesOk(q: T.Queue, next: nat)
      reads this`conns, this`nodes, this`timerNodeQueue, timerNodeQueue
    {
      && (forall i :: i in nodes ==> i < next)
      && (forall n :: n in timerNodeQueue ==>
           && KnownNode(n) && n.View() in q
           && (n.deleted <==> n.http == null) && (n.http != null ==> Known(n.http)))
      && (forall m :: m in q ==> m.id in nodes && nodes[m.id] in timerNodeQueue && nodes[m.id].View() == m)
    }

    ghost predicate Models(w: W.World)
      reads this, conns.Values, timerNodeQueue, set c | c in conns :: conns[c].channel
    {
      EntriesOk(w.conns) && LinksOk() && TablesOk(w.chan, w.http, w.kernel) && NodesOk(w.queue, w.nextNode)
    }

    lemma EntryAgrees(es: map<nat, W.Entry>, http: D.HttpData)
      requires EntriesOk(es) && Known(http)
      ensures http.fd in es && es[http.fd] == EntryOf(http) && ChannelOk(http)
      ensures forall c :: c in conns && c != http.fd ==> conns[c] != http && conns[c].channel != http.channel
    {
    }

    /** Only one connection object was changed. */
    twostate lemma EntriesAfter(http: D.HttpData, new es: map<nat, W.Entry>)
      requires conns == old(conns) && old(EntriesOk(es)) && Known(http) && ChannelOk(http)
      requires forall c :: c in conns && c != http.fd ==> unchanged(conns[c]) && unchanged(conns[c].channel)
      ensures EntriesOk(es[http.fd := EntryOf(http)])
    {
    }

    /** Only one link was changed. */
    twostate lemma LinksAfter(http: D.HttpData)
      requires conns == old(conns) && old(LinksOk())
      requires forall i :: i in old(nodes) ==> i in nodes && nodes[i] == old(nodes[i])
      requires forall c :: c in conns && conns[c] != http ==> conns[c].timer == old(conns[c].timer)
      requires http.timer == null || KnownNode(http.timer)
      ensures LinksOk()
    {
    }

    constructor ()
      ensures Models(W.START)
    {
      fd2chan, fd2http, timerNodeQueue, kernel := map[], map[], {}, map[];
      conns, nodes := map[], map[];
    }

    // ---------------------------------------------------------------- timers

    /** push of the priority queue. */
    method Push(ghost q: T.Queue, ghost next: nat, http: D.HttpData, timeout: nat, now: T.Time)
      returns (node: D.TimerNode)
      requires NodesOk(q, next) && Known(http)
      modifies this`timerNodeQueue, this`nodes
      ensures NodesOk(T.Add(q, next, T.Stamp(now) + timeout, http.fd), next + 1)
      ensures node.id == next && KnownNode(node) && fresh(nodes.Values - old(nodes.Values))
      ensures forall i :: i in old(nodes) ==> i in nodes && nodes[i] == old(nodes[i])
    {
      node := new D.TimerNode(next, http, timeout, now);
      timerNodeQueue := timerNodeQueue + {node};
      nodes := nodes[next := node];
    }

    /** linkTimer. */
    method Link(ghost es: map<nat, W.Entry>, http: D.HttpData, node: D.TimerNode)
      requires EntriesOk(es) && Known(http)
      modifies http`timer
      ensures http.timer == node
      ensures var e := es[http.fd];
              EntriesOk(es[http.fd := e.(conn := e.conn.(linked := true), timer := Some(node.id))])
    {
      hide EntriesOk;
      EntryAgrees(es, http);
      http.timer := node;
      EntriesAfter(http, es);
    }

    /** add_timer and addTimer: a new node in the queue, linked to the connection. */
    method AddTimer(ghost w: W.World, http: D.HttpData, timeout: nat, now: T.Time)
      requires Models(w) && Known(http)
      modifies this`timerNodeQueue, this`nodes, http`timer
      ensures fresh(nodes.Values - old(nodes.Values))
      ensures Models(W.AddTimer(w, http.fd, timeout, T.Stamp(now)))
    {
      hide EntriesOk, LinksOk, TablesOk, NodesOk;
      var node := Push(w.queue, w.nextNode, http, timeout, now);
      Link(w.conns, http, node);
      LinksAfter(http);
    }

    // ---------------------------------------------------------------- registration

    /** EqualAndUpdateLastEvents of the connection's channel. */
    method Remember(ghost w: W.World, http: D.HttpData) returns (equal: bool)
      requires EntriesOk(w.conns) && Known(http)
      modifies http.channel`lastEvents
      ensures equal <==> w.conns[http.fd].last == w.conns[http.fd].conn.events
      ensures EntriesOk(W.Remember(w, http.fd).conns)
    {
      hide EntriesOk;
      EntryAgrees(w.conns, http);
      equal := http.channel.EqualAndUpdateLastEvents();
      EntriesAfter(http, w.conns);
    }

    lemma EventsAgree(es: map<nat, W.Entry>, http: D.HttpData)
      requires EntriesOk(es) && Known(http)
      ensures http.fd in es && es[http.fd].conn.events == http.channel.events
    {
    }

    /** EPOLL_CTL_MOD, unless the mask has not changed. */
    method Control(ghost w: W.World, http: D.HttpData, equal: bool, ok: bool)
      requires TablesOk(w.chan, w.http, w.kernel) && Known(http) && http.fd in w.conns
      requires http.channel.events == w.conns[http.fd].conn.events
      modifies this`kernel, this`fd2chan
      ensures var u := if equal then w else W.Modify(w, http.fd, ok); TablesOk(u.chan, u.http, u.kernel)
    {
      if !equal {
        if ok {
          kernel := kernel[http.fd := W.Reg(http.channel.events, true)];
        } else {
          fd2chan := fd2chan - {http.fd};
        }
      }
    }

    /** epoll_mod behind its timer part. */
    method Update(ghost w: W.World, http: D.HttpData, ok: bool)
      requires Models(w) && Known(http)
      modifies this`kernel, this`fd2chan, http.channel`lastEvents
      ensures Models(W.EpollMod(w, http.fd, ok))
    {
      hide EntriesOk, LinksOk, TablesOk, NodesOk;
      EventsAgree(w.conns, http);
      var equal := Remember(w, http);
      Control(W.Remember(w, http.fd), http, equal, ok);
    }

    method EpollMod(ghost w: W.World, http: D.HttpData, timeout: nat, ok: bool, now: T.Time)
      requires Models(w) && Known(http)
      modifies this`timerNodeQueue, this`nodes, this`kernel, this`fd2chan, http`timer, http.channel`lastEvents
      ensures fresh(nodes.Values - old(nodes.Values))
      ensures Models(W.EpollMod(if timeout > 0 then W.AddTimer(w, http.fd, timeout, T.Stamp(now)) else w, http.fd, ok))
    {
      hide EntriesOk, LinksOk, TablesOk, NodesOk;
      EventsAgree(w.conns, http);
      if timeout > 0 {
        AddTimer(w, http, timeout, now);
        Update(W.AddTimer(w, http.fd, timeout, T.Stamp(now)), http, ok);
      } else {
        Update(w, http, ok);
      }
    }

    /** EPOLL_CTL_ADD with the two tables; an entry of fd2http comes with a timer. */
    method Enter(ghost w: W.World, http: D.HttpData, timeout: nat, ok: bool)
      requires TablesOk(w.chan, w.http, w.kernel) && Known(http) && http.fd in w.conns
      requires http.channel.events == w.conns[http.fd].conn.events
      modifies this`kernel, this`fd2chan, this`fd2http
      ensures var u := W.EpollAdd(w, http.fd, ok); TablesOk(u.chan, if timeout > 0 then u.http else w.http, u.kernel)
    {
      if timeout > 0 {
        fd2http := fd2http[http.fd := http];
      }
      fd2chan := fd2chan[http.fd := http.channel];
      if ok {
        kernel := kernel[http.fd := W.Reg(http.channel.events, true)];
      } else {
        fd2chan := fd2chan - {http.fd};
      }
    }

    /** epoll_add behind its timer part. */
    method Register(ghost w: W.World, http: D.HttpData, timeout: nat, ok: bool)
      requires Models(w) && Known(http)
      modifies this`kernel, this`fd2chan, this`fd2http, http.channel`lastEvents
      ensures var u := W.EpollAdd(w, http.fd, ok); Models(u.(http := if timeout > 0 then u.http else w.http))
    {
      hide EntriesOk, LinksOk, TablesOk, NodesOk;
      EventsAgree(w.conns, http);
      var _ := Remember(w, http);
      Enter(w, http, timeout, ok);
    }

    method EpollAdd(ghost w: W.World, http: D.HttpData, timeout: nat, ok: bool, now: T.Time)
      requires Models(w) && Known(http)
      modifies this`timerNodeQueue, this`nodes, this`kernel, this`fd2chan, this`fd2http
      modifies http`timer, http.channel`lastEvents
      ensures timeout > 0 ==> Models(W.EpollAdd(W.AddTimer(w, http.fd, timeout, T.Stamp(now)), http.fd, ok))
      ensures timeout == 0 ==> Models(W.EpollAdd(w, http.fd, ok).(http := w.http))
    {
      hide EntriesOk, LinksOk, TablesOk, NodesOk;
      EventsAgree(w.conns, http);
      if timeout > 0 {
        AddTimer(w, http, timeout, now);
        Register(W.AddTimer(w, http.fd, timeout, T.Stamp(now)), http, timeout, ok);
      } else {
        Register(w, http, timeout, ok);
      }
    }

    /** The channel is forgotten; the registration ends. */
    method EpollDel(ghost w: W.World, http: D.HttpData)
      requires TablesOk(w.chan, w.http, w.kernel) && Known(http)
      modifies this`kernel, this`fd2chan, this`fd2http
      ensures TablesOk(w.chan - {http.fd}, w.http - {http.fd}, w.kernel - {http.fd})
    {
      kernel := kernel - {http.fd};
      fd2chan := fd2chan - {http.fd};
      fd2http := fd2http - {http.fd};
    }

    method Disconnect(ghost w: W.World, http: D.HttpData)
      requires EntriesOk(w.conns) && LinksOk() && Known(http) && http.fd in w.conns
      modifies http`connectionState
      ensures EntriesOk(W.CloseConn(w, http.fd).conns) && LinksOk()
    {
      hide EntriesOk, LinksOk;
      EntryAgrees(w.conns, http);
      http.connectionState := Disconnected;
      EntriesAfter(http, w.conns);
    }

    /** handleClose. */
    method HandleClose(ghost w: W.World, http: D.HttpData)
      requires Models(w) && Known(http) && http.fd in w.conns
      modifies this`kernel, this`fd2chan, this`fd2http, http`connectionState
      ensures Models(W.CloseConn(w, http.fd))
    {
      hide EntriesOk, LinksOk, TablesOk, NodesOk;
      Disconnect(w, http);
      EpollDel(w, http);
    }

    // ---------------------------------------------------------------- a new connection

    twostate predicate Grown(http: D.HttpData)
      reads this
    {
      && http.fd !in old(conns) && conns == old(conns)[http.fd := http]
      && fd2chan == old(fd2chan) && fd2http == old(fd2http) && kernel == old(kernel)
      && timerNodeQueue == old(timerNodeQueue) && nodes == old(nodes)
    }

    twostate lemma EntriesGrow(http: D.HttpData, new es: map<nat, W.Entry>)
      requires Grown(http) && old(EntriesOk(es)) && ChannelOk(http)
      requires forall c :: c in old(conns) ==> unchanged(conns[c]) && unchanged(conns[c].channel)
      ensures EntriesOk(es[http.fd := EntryOf(http)])
    {
    }

    twostate lemma LinksGrow(http: D.HttpData)
      requires Grown(http) && old(LinksOk()) && http.timer == null
      requires forall c :: c in old(conns) ==> unchanged(conns[c])
      ensures LinksOk()
    {
    }

    twostate lemma TablesGrow(http: D.HttpData, new w: W.World)
      requires Grown(http) && old(TablesOk(w.chan, w.http, w.kernel))
      ensures TablesOk(w.chan, w.http, w.kernel)
    {
    }

    twostate lemma NodesKeep(http: D.HttpData, new q: T.Queue, new next: nat)
      requires Grown(http) && old(NodesOk(q, next)) && forall n :: n in timerNodeQueue ==> unchanged(n)
      ensures NodesOk(q, next)
    {
    }

    lemma NewOne(es: map<nat, W.Entry>, fd: nat)
      requires EntriesOk(es) && fd !in es
      ensures fd !in conns
    {
    }

    method Adopt(ghost w: W.World, http: D.HttpData)
      requires Models(w) && http.fd !in w.conns && ChannelOk(http) && http.timer == null
      modifies this`conns
      ensures Models(w.(conns := w.conns[http.fd := EntryOf(http)])) && Known(http)
    {
      hide EntriesOk, LinksOk, TablesOk, NodesOk;
      NewOne(w.conns, http.fd);
      conns := conns[http.fd := http];
      EntriesGrow(http, w.conns);
      LinksGrow(http);
      TablesGrow(http, w);
      NodesKeep(http, w.queue, w.nextNode);
    }

    /** newEvent for a connection that was just made. */
    method NewEvent(ghost w: W.World, http: D.HttpData, ok: bool, now: T.Time)
      requires Models(w) && http.fd !in w.conns && ChannelOk(http) && http.timer == null
      requires http.View() == FRESH && http.channel.lastEvents == {}
      modifies this, http`timer, http.channel`lastEvents, http.channel`events
      ensures Models(W.Accept(w, http.fd, ok, T.Stamp(now)))
    {
      hide EntriesOk, LinksOk, TablesOk, NodesOk;
      Adopt(w, http);
      ghost var es := w.conns[http.fd := EntryOf(http)];
      SetEvents(es, http);
      assert es[http.fd := EntryOf(http)] == w.conns[http.fd := EntryOf(http)];
      EpollAdd(w.(conns := w.conns[http.fd := EntryOf(http)]), http, DEFAULT_EXPIRED_TIME, ok, now);
    }

    method SetEvents(ghost es: map<nat, W.Entry>, http: D.HttpData)
      requires EntriesOk(es) && Known(http)
      modifies http.channel`events
      ensures EntriesOk(es[http.fd := EntryOf(http)]) && http.channel.events == DEFAULT_EVENT
    {
      hide EntriesOk;
      EntryAgrees(es, http);
      http.channel.events := DEFAULT_EVENT;
      EntriesAfter(http, es);
    }

    // ---------------------------------------------------------------- one event

    /** The node of a detached timer is cleared in the queue. */
    twostate lemma NodesAfter(http: D.HttpData, new q: T.Queue, new next: nat)
      requires conns == old(conns) && nodes == old(nodes) && timerNodeQueue == old(timerNodeQueue)
      requires old(NodesOk(q, next)) && http.TimerKept(old(http.timer))
      requires forall n :: n in timerNodeQueue && n != old(http.timer) ==> unchanged(n)
      requires old(http.timer) != null ==> old(KnownNode(http.timer))
      ensures NodesOk(if old(http.timer) != null && http.timer == null then T.Clear(q, old(http.timer.id)) else q, next)
    {
    }

    /** The kernel hands out an event. */
    method Deliver(ghost w: W.World, fd: nat)
      requires TablesOk(w.chan, w.http, w.kernel) && fd in w.kernel
      modifies this`kernel
      ensures TablesOk(w.chan, w.http, W.Deliver(w, fd).kernel)
    {
      var reg := kernel[fd];
      kernel := kernel[fd := reg.(armed := reg.armed && ONESHOT !in reg.mask)];
    }

    /** The channel of an event gets the event's bits and loses its own. */
    method Collect(ghost w: W.World, ghost http: D.HttpData, curReq: D.Channel, revents: Mask)
      requires EntriesOk(w.conns) && Known(http) && curReq == http.channel
      modifies curReq`revents, curReq`events
      ensures http.fd in w.conns
      ensures EntriesOk(w.conns[http.fd := w.conns[http.fd].(conn := w.conns[http.fd].conn.(events := {}))])
      ensures curReq.revents == revents
    {
      hide EntriesOk;
      EntryAgrees(w.conns, http);
      curReq.revents := revents;
      curReq.events := {};
      EntriesAfter(http, w.conns);
    }

    lemma ChannelInTable(w: W.World, fd: nat)
      requires Models(w)
      ensures (fd in fd2chan <==> fd in w.chan) && w.chan <= w.conns.Keys && (fd in kernel <==> fd in w.kernel)
      ensures fd in fd2chan ==>
                fd in conns && Known(conns[fd]) && conns[fd].fd == fd && fd2chan[fd] == conns[fd].channel
    {
    }

    lemma ChannelsDiffer(es: map<nat, W.Entry>)
      requires EntriesOk(es)
      ensures forall c, d :: c in conns && d in conns && c != d ==> conns[c].channel != conns[d].channel
    {
    }

    /** One turn of the loop in getEventsRequest, with the kernel's part of the event. */
    method TakeOne(ghost w: W.World, r: Ready) returns (curReq: D.Channel?)
      requires Models(w) && r.fd in w.kernel && B.TablesFit(w)
      modifies this`kernel, if r.fd in fd2chan then {fd2chan[r.fd]} else {}
      ensures Models(B.Prepare(w, r.fd))
      ensures r.fd in w.chan <==> curReq != null
      ensures curReq != null ==> r.fd in conns && curReq == conns[r.fd].channel && curReq.revents == r.revents
    {
      hide EntriesOk, LinksOk, TablesOk, NodesOk;
      ChannelInTable(w, r.fd);
      Deliver(w, r.fd);
      curReq := null;
      if r.fd in fd2chan {
        curReq := fd2chan[r.fd];
        Collect(w, conns[r.fd], curReq, r.revents);
      }
    }

    /** reqData holds the channels of these events, with their bits set. */
    ghost predicate Matching(reqData: seq<D.Channel>, found: seq<W.Action>)
      reads this`conns, reqData
    {
      && |reqData| == |found|
      && forall k :: 0 <= k < |found| ==>
           && found[k].Event? && found[k].id in conns
           && reqData[k] == conns[found[k].id].channel && reqData[k].revents == found[k].revents
    }

    lemma TimerKnown(http: D.HttpData)
      requires LinksOk() && Known(http)
      ensures http.timer != null ==> KnownNode(http.timer)
    {
    }

    lemma NoNodeLost(w: W.World, fd: nat, e: W.Entry, c: Conn)
      requires fd in w.conns && w.conns[fd] == e
      ensures W.SetConn(w, fd, c).conns == w.conns[fd := e.(conn := c)]
      ensures W.SetConn(W.Detach(w, fd), fd, c).conns == w.conns[fd := e.(conn := c, timer := None)]
    {
    }

    /** handleEvents up to what handleConn asks of the loop. */
    method RunHandlers(ghost w: W.World, http: D.HttpData, net: string, plan: Plan) returns (r: Dispatch)
      requires Models(w) && Known(http)
      requires Steady(http.View()) && |http.inBuffer| + |net| < NPOS
      modifies http, http.channel`events, http.timer
      ensures http.fd in w.conns && old(http.View()) == w.conns[http.fd].conn
      ensures r == C.HandleEvents(old(http.View()), http.channel.revents, net, plan, 0)
      ensures r.Early? ==> Models(W.SetConn(w, http.fd, r.conn))
      ensures r.Done? ==> Models(W.SetConn(W.Detach(w, http.fd), http.fd, r.conn))
    {
      hide EntriesOk, LinksOk, TablesOk, NodesOk;
      EntryAgrees(w.conns, http);
      TimerKnown(http);
      r := http.HandleEvents(net, plan, 0);
      EntriesAfter(http, w.conns);
      LinksAfter(http);
      NodesAfter(http, w.queue, w.nextNode);
      if !r.Crash? {
        NoNodeLost(w, http.fd, w.conns[http.fd], r.conn);
      }
    }

    /** What handleConn has asked for. */
    method Apply(ghost w: W.World, http: D.HttpData, request: Request, ok: bool, now: T.Time)
      requires Models(w) && Known(http) && http.fd in w.conns && (request.Update? ==> request.timeout > 0)
      modifies this`timerNodeQueue, this`nodes, this`kernel, this`fd2chan, this`fd2http
      modifies http`timer, http`connectionState, http.channel`lastEvents
      ensures fresh(nodes.Values - old(nodes.Values))
      ensures Models(W.Apply(w, http.fd, request, ok, T.Stamp(now)))
    {
      hide EntriesOk, LinksOk, TablesOk, NodesOk;
      match request
      case Update(timeout) => EpollMod(w, http, timeout, ok, now);
      case Leave =>
      case Close => HandleClose(w, http);
    }

    /** handleEvents of one channel, with what it asks of the loop. */
    method HandleEvents(ghost w: W.World, http: D.HttpData, net: string, plan: Plan, ok: bool, now: T.Time)
      requires Models(w) && Known(http) && http.fd in w.conns
      requires W.Manageable(w.conns[http.fd].conn, W.Event(http.fd, http.channel.revents, net, plan, ok, T.Stamp(now)))
      modifies this`timerNodeQueue, this`nodes, this`kernel, this`fd2chan, this`fd2http
      modifies http, http.channel`events, http.channel`lastEvents, http.timer
      ensures fresh(nodes.Values - old(nodes.Values))
      ensures Models(W.Handle(w, W.Event(http.fd, http.channel.revents, net, plan, ok, T.Stamp(now))))
    {
      hide EntriesOk, LinksOk, TablesOk, NodesOk, C.HandleEvents, W.Apply;
      EntryAgrees(w.conns, http);
      HandleEventsKeeps(w.conns[http.fd].conn, http.channel.revents, net, plan, 0);
      var r := RunHandlers(w, http, net, plan);
      if r.Done? {
        Apply(W.SetConn(W.Detach(w, http.fd), http.fd, r.conn), http, r.request, ok, now);
      }
    }

    /** getEventsRequest for what epoll_wait has filled in, one entry for a descriptor. */
    method GetEventsRequest(ghost w: W.World, ready: seq<Ready>, ghost env: Surroundings)
      returns (reqData: seq<D.Channel>)
      requires Models(w) && B.Events(ActionsOf(ready, env)) && B.Known(w, ActionsOf(ready, env))
      modifies this`kernel, fd2chan.Values
      ensures Models(B.PrepareAll(w, ActionsOf(ready, env)))
      ensures Matching(reqData, B.Found(w.chan, ActionsOf(ready, env)))
    {
      hide EntriesOk, LinksOk, TablesOk, NodesOk, B.Prepare, B.PrepareAll, B.Found;
      ghost var evs := ActionsOf(ready, env);
      reqData := [];
      var i := 0;
      NothingCollected(w, evs);
      while i < |ready|
        invariant 0 <= i <= |ready|
        invariant B.Events(evs[..i]) && B.Known(w, evs[..i]) && Models(B.PrepareAll(w, evs[..i]))
        invariant Matching(reqData, B.Found(w.chan, evs[..i]))
      {
        B.CollectOneMore(w, evs, i);
        reqData := CollectNext(B.PrepareAll(w, evs[..i]), ready[i], reqData, B.Found(w.chan, evs[..i]), evs[i]);
        i := i + 1;
      }
      assert evs[..i] == evs;
    }

    lemma NothingCollected(w: W.World, evs: seq<W.Action>)
      requires B.TablesFit(w)
      ensures B.PrepareAll(w, evs[..0]) == w && B.Found(w.chan, evs[..0]) == []
    {
    }

    /** One turn of the loop: a channel that is in the table is appended. */
    method CollectNext(ghost w: W.World, r: Ready, before: seq<D.Channel>,
                       ghost found: seq<W.Action>, ghost a: W.Action)
      returns (reqData: seq<D.Channel>)
      requires Models(w) && r.fd in w.kernel && B.TablesFit(w) && a.Event? && a.id == r.fd && a.revents == r.revents
      requires Matching(before, found) && forall k :: 0 <= k < |found| ==> found[k].id != r.fd
      modifies this`kernel, if r.fd in fd2chan then {fd2chan[r.fd]} else {}
      ensures Models(B.Prepare(w, r.fd))
      ensures Matching(reqData, found + B.One(w.chan, a))
    {
      hide EntriesOk, LinksOk, TablesOk, NodesOk, B.Prepare;
      ChannelInTable(w, r.fd);
      ChannelsDiffer(w.conns);
      var curReq := TakeOne(w, r);
      reqData := if curReq != null then before + [curReq] else before;
    }

    ghost function Channels(): set<D.Channel>
      reads this`conns
    {
      set c | c in conns :: conns[c].channel
    }

    /** handleEvents of one collected channel. */
    method DispatchOne(ghost w: W.World, curReq: D.Channel, env: Surroundings, ghost a: W.Action)
      requires Models(w) && a.Event? && a.id in conns && curReq == conns[a.id].channel && curReq.revents == a.revents
      requires B.TablesFit(w) && a.id in w.chan && W.Manageable(w.conns[a.id].conn, a)
      requires a == ActionOf(Ready(a.id, a.revents), env)
      modifies this`timerNodeQueue, this`nodes, this`kernel, this`fd2chan, this`fd2http
      modifies conns[a.id], curReq`events, curReq`lastEvents, nodes.Values
      ensures fresh(nodes.Values - old(nodes.Values))
      ensures Models(B.Turn(w, a))
    {
      hide EntriesOk, LinksOk, TablesOk, NodesOk, W.Handle, W.Manageable;
      ChannelInTable(w, a.id);
      ghost var known := conns[a.id];
      EntryAgrees(w.conns, known);
      TimerKnown(known);
      var http := curReq.holder;
      HandleEvents(w, http, env(http.fd).net, env(http.fd).plan, env(http.fd).ok, env(http.fd).now);
    }

    /** The loop over the collected channels. */
    method DispatchAll(ghost w: W.World, reqData: seq<D.Channel>, env: Surroundings, ghost found: seq<W.Action>)
      requires Models(w) && Matching(reqData, found) && B.Events(found) && B.CanTurn(w, found)
      requires forall k :: 0 <= k < |found| ==> found[k].id in w.chan
      requires forall k :: 0 <= k < |found| ==> found[k] == ActionOf(Ready(found[k].id, found[k].revents), env)
      modifies this`timerNodeQueue, this`nodes, this`kernel, this`fd2chan, this`fd2http
      modifies conns.Values, Channels()`events, Channels()`lastEvents, nodes.Values
      ensures Models(B.TurnAll(w, found)) && fresh(nodes.Values - old(nodes.Values))
    {
      hide Models, B.Turn, B.TurnAll, B.CanTurn, B.Events, W.Manageable;
      ghost var u, rest := w, found;
      var i := 0;
      while i < |reqData|
        invariant 0 <= i <= |reqData| && rest == found[i..]
        invariant Models(u) && B.Events(rest) && B.CanTurn(u, rest) && B.TurnAll(u, rest) == B.TurnAll(w, found)
        invariant forall k :: 0 <= k < |rest| ==> rest[k].id in u.chan
        invariant Matching(reqData, found) && fresh(nodes.Values - old(nodes.Values))
      {
        B.DispatchOneMore(u, rest);
        DispatchOne(u, reqData[i], env, rest[0]);
        u, rest := B.Turn(u, rest[0]), rest[1..];
        i := i + 1;
      }
      assert rest == [];
      B.DispatchDone(u);
    }

    // ---------------------------------------------------------------- expiry

    /** top of the priority queue: some node with the least deadline. */
    method Top(ghost w: W.World) returns (top: D.TimerNode)
      requires NodesOk(w.queue, w.nextNode) && timerNodeQueue != {}
      ensures top in timerNodeQueue && T.IsTop(w.queue, top.View())
    {
      LeastNode(timerNodeQueue);
      top :| top in timerNodeQueue && forall n :: n in timerNodeQueue ==> top.expiredTime <= n.expiredTime;
    }

    lemma {:induction false} LeastNode(q: set<D.TimerNode>)
      requires q != {}
      ensures exists top :: top in q && forall n :: n in q ==> top.expiredTime <= n.expiredTime
    {
      var x :| x in q;
      if q != {x} {
        LeastNode(q - {x});
        var y :| y in q - {x} && forall n :: n in q - {x} ==> y.expiredTime <= n.expiredTime;
        var top := if x.expiredTime <= y.expiredTime then x else y;
        assert top in q && forall n :: n in q ==> top.expiredTime <= n.expiredTime;
      }
    }

    /** pop of a deleted node: its destructor finds nothing to close. */
    method PopDeleted(ghost w: W.World, top: D.TimerNode)
      requires NodesOk(w.queue, w.nextNode) && top in timerNodeQueue && top.deleted
      modifies this`timerNodeQueue
      ensures NodesOk(w.queue - {top.View()}, w.nextNode) && top.http == null
      ensures timerNodeQueue == old(timerNodeQueue) - {top}
    {
      timerNodeQueue := timerNodeQueue - {top};
    }

    /** isValid on the top, and pop if it has expired. */
    method PopExpired(ghost w: W.World, top: D.TimerNode, now: T.Time) returns (expired: bool)
      requires NodesOk(w.queue, w.nextNode) && top in timerNodeQueue && !top.deleted
      modifies this`timerNodeQueue, top`deleted
      ensures expired <==> top.expiredTime <= T.Stamp(now)
      ensures NodesOk(if expired then w.queue - {top.View()} else w.queue, w.nextNode)
      ensures timerNodeQueue == if expired then old(timerNodeQueue) - {top} else old(timerNodeQueue)
      ensures top.http != null && Known(top.http)
    {
      var valid := top.IsValid(now);
      expired := !valid;
      if expired {
        timerNodeQueue := timerNodeQueue - {top};
      }
    }

    /** One turn of the loop on a top that is not deleted. */
    method Expire(ghost w: W.World, top: D.TimerNode, now: T.Time) returns (expired: bool)
      requires Models(w) && top in timerNodeQueue && !top.deleted && T.IsTop(w.queue, top.View())
      modifies this`timerNodeQueue, this`kernel, this`fd2chan, this`fd2http, top`deleted
      modifies if top.http == null then {} else {top.http}
      ensures expired <==> top.expiredTime <= T.Stamp(now)
      ensures top.http == old(top.http) && top.http != null
      ensures timerNodeQueue == if expired then old(timerNodeQueue) - {top} else old(timerNodeQueue)
      ensures expired ==> W.Enabled(w, W.Pop(top.View(), T.Stamp(now)))
      ensures Models(if expired then W.Step(w, W.Pop(top.View(), T.Stamp(now))) else w)
    {
      hide EntriesOk, LinksOk, TablesOk, NodesOk;
      expired := PopExpired(w, top, now);
      EntryAgrees(w.conns, top.http);
      if expired {
        HandleClose(w.(queue := w.queue - {top.View()}), top.http);
      }
    }

    /** One turn of the loop on a deleted top. */
    method Drop(ghost w: W.World, top: D.TimerNode, ghost now: nat)
      requires Models(w) && top in timerNodeQueue && top.deleted && T.IsTop(w.queue, top.View())
      modifies this`timerNodeQueue
      ensures timerNodeQueue == old(timerNodeQueue) - {top}
      ensures W.Enabled(w, W.Pop(top.View(), now)) && Models(W.Step(w, W.Pop(top.View(), now)))
    {
      hide EntriesOk, LinksOk, TablesOk, NodesOk;
      PopDeleted(w, top);
    }

    lemma HolderIsKnown(w: W.World, node: D.TimerNode)
      requires NodesOk(w.queue, w.nextNode) && node in timerNodeQueue && node.http != null
      ensures node.http in conns.Values
    {
    }

    /** One turn of the loop in handleExpiredEvent, as an extension of a run; high is the largest reading of
        the clock that has taken a node out. */
    method ExpireTop(ghost worlds: seq<W.World>, ghost acts: seq<W.Action>, ghost i: nat, now: T.Time, ghost high: nat)
      returns (popped: bool, read: bool, ghost after: seq<W.World>, ghost made: seq<W.Action>, ghost top: nat)
      requires W.Popping(worlds, acts, i, |acts|, high) && Models(worlds[|acts|]) && timerNodeQueue != {}
      modifies this`timerNodeQueue, this`kernel, this`fd2chan, this`fd2http, timerNodeQueue, conns.Values
      ensures W.Popping(after, made, i, |made|, top) && worlds <= after && acts <= made
      ensures Models(after[|made|])
      ensures top == if popped && read then Max(high, T.Stamp(now)) else high
      ensures popped ==> timerNodeQueue < old(timerNodeQueue)
      ensures !popped ==> read && W.Stopped(after[|made|].queue, T.Stamp(now))
    {
      hide EntriesOk, LinksOk, TablesOk, NodesOk, W.Step, W.Enabled;
      ghost var w := worlds[|acts|];
      var node := Top(w);
      ghost var n := node.View();
      top := high;
      if node.deleted {
        Drop(w, node, high);
        W.PoppingOneMore(worlds, acts, i, n, high, high, high);
        after, made := worlds + [W.Step(w, W.Pop(n, high))], acts + [W.Pop(n, high)];
        return true, false, after, made, top;
      }
      HolderOfLive(w, node);
      HolderIsKnown(w, node);
      popped := Expire(w, node, now);
      read := true;
      if popped {
        top := Max(high, T.Stamp(now));
        W.PoppingOneMore(worlds, acts, i, n, T.Stamp(now), high, top);
        after, made := worlds + [W.Step(w, W.Pop(n, T.Stamp(now)))], acts + [W.Pop(n, T.Stamp(now))];
      } else {
        after, made := worlds, acts;
      }
    }

    lemma HolderOfLive(w: W.World, node: D.TimerNode)
      requires NodesOk(w.queue, w.nextNode) && node in timerNodeQueue && !node.deleted
      ensures node.http != null
    {
    }

    /** The clock does not run backwards, which it does only at the end of a window of 10000 seconds. */
    static ghost predicate Forward(clock: nat -> T.Time) {
      forall i, j :: i <= j ==> T.Stamp(clock(i)) <= T.Stamp(clock(j))
    }

    /** handleExpiredEvent; clock(k) is what its k-th reading of the clock yields.  Its turns extend the run
        that the objects have made so far, up to a live top that has not expired at the last reading.  No node
        is taken out for a later reading than the last one, unless the clock runs backwards. */
    method HandleExpiredEvent(ghost worlds: seq<W.World>, ghost acts: seq<W.Action>, clock: nat -> T.Time)
      returns (last: nat, ghost high: nat, ghost after: seq<W.World>, ghost made: seq<W.Action>)
      requires W.IsRun(worlds, acts) && Models(worlds[|acts|])
      modifies this`timerNodeQueue, this`kernel, this`fd2chan, this`fd2http, timerNodeQueue, conns.Values
      ensures W.Popping(after, made, |acts|, |made|, high) && worlds <= after && acts <= made
      ensures Models(after[|made|]) && W.Stopped(after[|made|].queue, last)
      ensures Forward(clock) ==> high <= last
    {
      hide EntriesOk, LinksOk, TablesOk, NodesOk, W.Step, W.Enabled;
      after, made, last, high := worlds, acts, 0, 0;
      var readings: nat := 0;
      while timerNodeQueue != {}
        invariant W.Popping(after, made, |acts|, |made|, high) && worlds <= after && acts <= made
        invariant Models(after[|made|])
        invariant Forward(clock) ==> high <= last <= T.Stamp(clock(readings))
        invariant timerNodeQueue <= old(timerNodeQueue)
        decreases timerNodeQueue
      {
        var now := clock(readings);
        var popped, read;
        popped, read, after, made, high := ExpireTop(after, made, |acts|, now, high);
        if read {
          last, readings := T.Stamp(now), readings + 1;
        }
        if !popped {
          return;
        }
      }
      NothingQueued(after[|made|]);
    }

    lemma NothingQueued(w: W.World)
      requires NodesOk(w.queue, w.nextNode) && timerNodeQueue == {}
      ensures w.queue == {}
    {
    }

    // ---------------------------------------------------------------- one round of the loop

    lemma FoundAreActions(ready: seq<Ready>, env: Surroundings, found: seq<W.Action>)
      requires forall k :: 0 <= k < |found| ==> found[k] in ActionsOf(ready, env)
      ensures forall k :: 0 <= k < |found| ==>
                found[k].Event? && found[k] == ActionOf(Ready(found[k].id, found[k].revents), env)
    {
    }

    /** One epoll_wait and the handlers of all its events; found says whether it brought a channel. */
    method HandlePoll(ghost w: W.World, ready: seq<Ready>, env: Surroundings) returns (found: bool)
      requires Models(w) && B.Events(ActionsOf(ready, env)) && B.AllEnabled(w, ActionsOf(ready, env))
      modifies this`timerNodeQueue, this`nodes, this`kernel, this`fd2chan, this`fd2http
      modifies conns.Values, Channels(), nodes.Values
      ensures Models(B.Poll(w, ActionsOf(ready, env))) && fresh(nodes.Values - old(nodes.Values))
      ensures found <==> B.Found(w.chan, ActionsOf(ready, env)) != []
    {
      hide EntriesOk, LinksOk, TablesOk, NodesOk;
      hide B.Found, B.PrepareAll, B.TurnAll, B.CanTurn, B.Poll, B.AllEnabled, B.Known;
      ghost var evs := ActionsOf(ready, env);
      B.ReadyToDispatch(w, evs);
      ChannelsAreKnown(w);
      var reqData := GetEventsRequest(w, ready, env);
      ghost var channels := B.Found(w.chan, evs);
      FoundAreActions(ready, env, channels);
      found := |reqData| > 0;
      DispatchAll(B.PrepareAll(w, evs), reqData, env, channels);
    }

    lemma ChannelsAreKnown(w: W.World)
      requires TablesOk(w.chan, w.http, w.kernel)
      ensures fd2chan.Values <= Channels()
    {
    }

    lemma QueueIsKnown(w: W.World)
      requires NodesOk(w.queue, w.nextNode)
      ensures timerNodeQueue <= nodes.Values
    {
    }

    /** The events of these waits can be handled, up to the first wait that brings a channel. */
    static ghost predicate CanWait(w: W.World, waits: seq<seq<Ready>>, envs: nat -> Surroundings, i: nat)
      decreases |waits| - i
    {
      i < |waits| ==>
        var evs := ActionsOf(waits[i], envs(i));
        && B.Events(evs) && B.AllEnabled(w, evs)
        && (B.Found(w.chan, evs) == [] ==> CanWait(B.Poll(w, evs), waits, envs, i + 1))
    }

    /** None of these descriptors has a channel. */
    static ghost predicate Silent(chan: set<nat>, ready: seq<Ready>) {
      forall k :: 0 <= k < |ready| ==> ready[k].fd !in chan
    }

    lemma SilentIsNothingFound(chan: set<nat>, ready: seq<Ready>, env: Surroundings)
      ensures Silent(chan, ready) <==> B.Found(chan, ActionsOf(ready, env)) == []
    {
      var evs := ActionsOf(ready, env);
      B.NoneFoundNoneThere(chan, evs);
      if !Silent(chan, ready) {
        var k :| 0 <= k < |ready| && ready[k].fd in chan;
        assert evs[k].id in chan;
      }
      if B.Found(chan, evs) != [] {
        var k :| 0 <= k < |evs| && evs[k] == B.Found(chan, evs)[0];
        assert ready[k].fd in chan;
      }
    }

    /** The events of the first n waits. */
    static ghost function Waited(waits: seq<seq<Ready>>, envs: nat -> Surroundings, n: nat): seq<W.Action>
      requires n <= |waits|
    {
      if n == 0 then [] else Waited(waits, envs, n - 1) + ActionsOf(waits[n - 1], envs(n - 1))
    }

    static lemma OneWaitMore(acts: seq<W.Action>, waits: seq<seq<Ready>>, envs: nat -> Surroundings, n: nat)
      requires n < |waits|
      ensures acts + Waited(waits, envs, n) + ActionsOf(waits[n], envs(n)) == acts + Waited(waits, envs, n + 1)
    {
    }

    static lemma NoWaitYet(acts: seq<W.Action>, waits: seq<seq<Ready>>, envs: nat -> Surroundings)
      ensures acts + Waited(waits, envs, 0) == acts
    {
    }

    static lemma CanWaitOnce(w: W.World, waits: seq<seq<Ready>>, envs: nat -> Surroundings, i: nat)
      requires i < |waits| && CanWait(w, waits, envs, i)
      ensures var evs := ActionsOf(waits[i], envs(i));
              && B.Events(evs) && B.AllEnabled(w, evs)
              && (B.Found(w.chan, evs) == [] ==> CanWait(B.Poll(w, evs), waits, envs, i + 1))
    {
    }

    /** One turn of the loop in poll, with the handlers of what it has found. */
    method WaitOnce(ghost worlds: seq<W.World>, ghost acts: seq<W.Action>, ready: seq<Ready>, env: Surroundings)
      returns (found: bool, ghost after: seq<W.World>)
      requires W.IsRun(worlds, acts) && Models(worlds[|acts|])
      requires B.Events(ActionsOf(ready, env)) && B.AllEnabled(worlds[|acts|], ActionsOf(ready, env))
      modifies this`timerNodeQueue, this`nodes, this`kernel, this`fd2chan, this`fd2http
      modifies conns.Values, Channels(), nodes.Values
      ensures var w, evs := worlds[|acts|], ActionsOf(ready, env);
              && W.IsRun(after, acts + evs) && worlds <= after && Models(after[|acts + evs|])
              && (found <==> !Silent(w.chan, ready))
              && (!found ==> B.Found(w.chan, evs) == [] && after[|acts + evs|] == B.Poll(w, evs))
              && (!found ==> after[|acts + evs|] == w.(kernel := after[|acts + evs|].kernel))
      ensures fresh(nodes.Values - old(nodes.Values))
    {
      hide EntriesOk, LinksOk, TablesOk, NodesOk, B.Poll, B.AllEnabled, B.Events, B.Found, W.Step, W.Enabled, Silent;
      ghost var w, evs := worlds[|acts|], ActionsOf(ready, env);
      after := B.PollExtendsRun(worlds, acts, evs);
      B.IdlePoll(w, evs);
      SilentIsNothingFound(w.chan, ready, env);
      found := HandlePoll(w, ready, env);
    }

    /** poll and the handlers of what it has found: epoll_wait is repeated until it brings a channel.  As long as it
        has not, nothing happens but to registrations whose channels are gone. */
    method PollUntilFound(ghost worlds: seq<W.World>, ghost acts: seq<W.Action>,
                          waits: seq<seq<Ready>>, envs: nat -> Surroundings)
      returns (found: bool, waited: nat, ghost after: seq<W.World>, ghost made: seq<W.Action>)
      requires W.IsRun(worlds, acts) && Models(worlds[|acts|]) && CanWait(worlds[|acts|], waits, envs, 0)
      modifies this`timerNodeQueue, this`nodes, this`kernel, this`fd2chan, this`fd2http
      modifies conns.Values, Channels(), nodes.Values
      ensures waited <= |waits| && made == acts + Waited(waits, envs, waited)
      ensures W.IsRun(after, made) && worlds <= after
      ensures Models(after[|made|]) && fresh(nodes.Values - old(nodes.Values))
      ensures if found then waited > 0 && !Silent(worlds[|acts|].chan, waits[waited - 1]) else waited == |waits|
      ensures forall i :: 0 <= i < (if found then waited - 1 else waited) ==> Silent(worlds[|acts|].chan, waits[i])
      ensures !found ==> after[|made|] == worlds[|acts|].(kernel := after[|made|].kernel)
    {
      hide Models, B.Poll, B.AllEnabled, B.Events, B.Found;
      hide W.Step, W.Enabled, Silent, Waited, CanWait;
      after, made, found, waited := worlds, acts, false, 0;
      NoWaitYet(acts, waits, envs);
      while !found && waited < |waits|
        invariant waited <= |waits| && made == acts + Waited(waits, envs, waited)
        invariant W.IsRun(after, made) && worlds <= after
        invariant found ==> waited > 0 && !Silent(worlds[|acts|].chan, waits[waited - 1])
        invariant forall i :: 0 <= i < (if found then waited - 1 else waited) ==> Silent(worlds[|acts|].chan, waits[i])
        invariant Models(after[|made|]) && fresh(nodes.Values - old(nodes.Values))
        invariant !found ==> CanWait(after[|made|], waits, envs, waited)
        invariant !found ==> after[|made|] == worlds[|acts|].(kernel := after[|made|].kernel)
        decreases |waits| - waited
      {
        ghost var w, evs := after[|made|], ActionsOf(waits[waited], envs(waited));
        CanWaitOnce(w, waits, envs, waited);
        OneWaitMore(acts, waits, envs, waited);
        found, after := WaitOnce(after, made, waits[waited], envs(waited));
        made, waited := made + evs, waited + 1;
      }
    }

    /** One round of EventLoop::loop, but for its functors: poll, handlers, expiry.  The run that the objects
        have made so far goes on with the events of the waits and the turns of handleExpiredEvent.  Without a
        channel the loop does not get as far as handleExpiredEvent: whatever the time is, no deadline is enforced. */
    method Round(ghost worlds: seq<W.World>, ghost acts: seq<W.Action>,
                 waits: seq<seq<Ready>>, envs: nat -> Surroundings, clock: nat -> T.Time)
      returns (done: bool, waited: nat, last: nat, ghost high: nat,
               ghost after: seq<W.World>, ghost made: seq<W.Action>)
      requires W.IsRun(worlds, acts) && Models(worlds[|acts|]) && CanWait(worlds[|acts|], waits, envs, 0)
      modifies this`timerNodeQueue, this`nodes, this`kernel, this`fd2chan, this`fd2http
      modifies conns.Values, Channels(), nodes.Values
      ensures waited <= |waits| && acts + Waited(waits, envs, waited) <= made
      ensures W.IsRun(after, made) && worlds <= after && Models(after[|made|])
      ensures if done then waited > 0 && !Silent(worlds[|acts|].chan, waits[waited - 1]) else waited == |waits|
      ensures forall i :: 0 <= i < (if done then waited - 1 else waited) ==> Silent(worlds[|acts|].chan, waits[i])
      ensures done ==>
                && W.Popping(after, made, |acts + Waited(waits, envs, waited)|, |made|, high)
                && W.Stopped(after[|made|].queue, last) && (Forward(clock) ==> high <= last)
      ensures !done ==> after[|made|] == worlds[|acts|].(kernel := after[|made|].kernel)
    {
      hide EntriesOk, LinksOk, TablesOk, NodesOk, CanWait, Silent, Waited, W.Step, W.Enabled;
      done, waited, after, made := PollUntilFound(worlds, acts, waits, envs);
      last, high := 0, 0;
      if done {
        QueueIsKnown(after[|made|]);
        last, high, after, made := HandleExpiredEvent(after, made, clock);
      }
    }
  }
}
