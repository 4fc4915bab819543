/** Timer.h and Timer.cpp: deadlines on a clock that wraps, and a queue that deletes lazily. */
module Timers {
  import opened Wrappers

  // ---------------------------------------------------------------- the clock

  /** gettimeofday: seconds and microseconds. */
  datatype Time = Time(sec: nat, usec: nat)

  predicate TimeOk(t: Time) {
    t.usec < 1_000_000
  }

  /** The stored clock starts again after this many milliseconds, 10000 seconds. */
  const WINDOW := 10_000_000

  function TrueMs(t: Time): nat {
    t.sec * 1000 + t.usec / 1000
  }

  /** The reading that TimerNode takes (Timer.cpp:16, 36). */
  function Stamp(t: Time): nat {
    (t.sec % 10000) * 1000 + t.usec / 1000
  }

  /** expiredTime_ of a node created at t. */
  function Key(t: Time, timeout: nat): nat {
    Stamp(t) + timeout
  }

  /** isValid: the node has not expired at t. */
  predicate IsValid(t: Time, key: nat) {
    Stamp(t) < key
  }

  lemma StampIsModulo(t: Time)
    requires TimeOk(t)
    ensures Stamp(t) == TrueMs(t) % WINDOW && Stamp(t) < WINDOW
  {
    var q, r := t.sec / 10000, t.sec % 10000;
    assert TrueMs(t) == q * WINDOW + Stamp(t);
    ModOfSum(q, Stamp(t));
  }

  lemma ModOfSum(q: nat, r: nat)
    requires r < WINDOW
    ensures (q * WINDOW + r) % WINDOW == r && (q * WINDOW + r) / WINDOW == q
  {
  }

  /** The window of the stored clock in which t lies. */
  function Window(t: Time): nat {
    t.sec / 10000
  }

  lemma StampInWindow(t: Time)
    ensures TrueMs(t) == Window(t) * WINDOW + Stamp(t)
  {
    assert t.sec == 10000 * (t.sec / 10000) + t.sec % 10000;
  }

  /** Inside one window a deadline means what it says. */
  lemma ExactInWindow(created: Time, timeout: nat, now: Time)
    requires TimeOk(created) && TimeOk(now) && Window(created) == Window(now)
    ensures IsValid(now, Key(created, timeout)) <==> TrueMs(now) < TrueMs(created) + timeout
  {
    StampInWindow(created);
    StampInWindow(now);
  }

  /** At any time after its creation: every window that has ended since then puts the deadline off by the
      length of a window. */
  lemma DeadlineMoves(created: Time, timeout: nat, now: Time)
    requires TimeOk(created) && TimeOk(now) && TrueMs(created) <= TrueMs(now)
    ensures Window(created) <= Window(now)
    ensures IsValid(now, Key(created, timeout))
            <==> TrueMs(now) < TrueMs(created) + timeout + (Window(now) - Window(created)) * WINDOW
  {
    StampInWindow(created);
    StampInWindow(now);
    StampIsModulo(created);
    StampIsModulo(now);
  }

  /** So isValid is right at `now` if and only if no window has ended, or the deadline has not been reached,
      or it lies as many windows back as have ended since. */
  lemma VerdictIsRightIff(created: Time, timeout: nat, now: Time)
    requires TimeOk(created) && TimeOk(now) && TrueMs(created) <= TrueMs(now)
    ensures Window(created) <= Window(now)
    ensures var deadline, ended := TrueMs(created) + timeout, Window(now) - Window(created);
            (IsValid(now, Key(created, timeout)) <==> TrueMs(now) < deadline)
            <==> (ended == 0 || TrueMs(now) < deadline || deadline + ended * WINDOW <= TrueMs(now))
  {
    DeadlineMoves(created, timeout, now);
  }

  lemma StampInFirst(sec: nat)
    requires sec < 10000
    ensures Stamp(Time(sec, 0)) == sec * 1000
  {
  }

  lemma StampInSecond(sec: nat)
    requires sec < 10000
    ensures Stamp(Time(10000 + sec, 0)) == sec * 1000
  {
  }

  /** A node that has expired is valid again when the clock has started again. */
  lemma ExpiredIsValidAgain()
    ensures var created, expired, later := Time(0, 0), Time(2, 0), Time(10001, 0);
            && !IsValid(expired, Key(created, 2000))
            && TrueMs(expired) < TrueMs(later) && IsValid(later, Key(created, 2000))
  {
    hide Stamp;
    StampInFirst(0);
    StampInFirst(2);
    StampInSecond(1);
  }

  /** A node never expires, however much time passes, if and only if its deadline lies behind the
      end of the window in which it was created. */
  lemma NeverExpiresIff(created: Time, timeout: nat)
    requires TimeOk(created)
    ensures (forall now :: TimeOk(now) ==> IsValid(now, Key(created, timeout)))
            <==> TrueMs(created) % WINDOW + timeout >= WINDOW
  {
    StampIsModulo(created);
    var late := Time(9999, 999_000);
    assert TimeOk(late) && Stamp(late) == WINDOW - 1;
    if TrueMs(created) % WINDOW + timeout >= WINDOW {
      forall now | TimeOk(now) ensures IsValid(now, Key(created, timeout)) {
        StampIsModulo(now);
      }
    }
  }

  // ---------------------------------------------------------------- the queue

  /** A node in the queue: holder is SPHttpData, None once clearReq has deleted the node. */
  datatype Node = Node(id: nat, key: nat, holder: Option<nat>)

  type Queue = set<Node>

  /** Node identities are unique, and no connection is held by two nodes. */
  ghost predicate QueueOk(q: Queue) {
    && (forall a, b :: a in q && b in q && a.id == b.id ==> a == b)
    && (forall a, b :: a in q && b in q && a.holder.Some? && a.holder == b.holder ==> a == b)
  }

  ghost predicate Held(q: Queue, c: nat) {
    exists n :: n in q && n.holder == Some(c)
  }

  /** The map from connections to deadlines that a queue stands for. */
  ghost predicate Refines(q: Queue, deadlines: map<nat, nat>) {
    && QueueOk(q)
    && (forall n :: n in q && n.holder.Some? ==> n.holder.value in deadlines && deadlines[n.holder.value] == n.key)
    && (forall c :: c in deadlines ==> Held(q, c))
  }

  /** clearReq on the node with this identity: it stays in the queue, deleted. */
  function Clear(q: Queue, id: nat): Queue {
    set n | n in q :: if n.id == id then n.(holder := None) else n
  }

  function Add(q: Queue, id: nat, key: nat, c: nat): Queue {
    q + {Node(id, key, Some(c))}
  }

  lemma ClearAt(q: Queue, id: nat, m: Node)
    ensures m in Clear(q, id) <==>
            (m.id != id && m in q)
            || (m.id == id && m.holder.None? && exists n :: n in q && n.id == id && n.key == m.key)
  {
    if m.id != id && m in q {
      assert m == if m.id == id then m.(holder := None) else m;
    }
    if n :| n in q && n.id == id && n.key == m.key && m.id == id && m.holder.None? {
      assert m == if n.id == id then n.(holder := None) else n;
    }
  }

  lemma ClearKeepsQueueOk(q: Queue, id: nat)
    requires QueueOk(q)
    ensures QueueOk(Clear(q, id))
    ensures forall c: nat :: Held(Clear(q, id), c) <==> exists n :: n in q && n.id != id && n.holder == Some(c)
  {
    var after := Clear(q, id);
    forall m ensures m in after <==>
      (m.id != id && m in q) || (m.id == id && m.holder.None? && exists n :: n in q && n.id == id && n.key == m.key) {
      ClearAt(q, id, m);
    }
  }

  /** The nodes that hold a connection are the others that did. */
  lemma LiveAfterClear(q: Queue, id: nat)
    ensures forall m: Node :: m.holder.Some? ==> (m in Clear(q, id) <==> m in q && m.id != id)
    ensures forall m :: m in Clear(q, id) ==> exists n :: n in q && n.id == m.id
  {
    forall m: Node ensures m.holder.Some? ==> (m in Clear(q, id) <==> m in q && m.id != id) {
      ClearAt(q, id, m);
    }
    forall m | m in Clear(q, id) ensures exists n :: n in q && n.id == m.id {
      ClearAt(q, id, m);
    }
  }

  /** Detaching a timer is removal from the map. */
  lemma ClearIsRemoval(q: Queue, n: Node, deadlines: map<nat, nat>)
    requires Refines(q, deadlines) && n in q && n.holder.Some?
    ensures Refines(Clear(q, n.id), deadlines - {n.holder.value})
  {
    var after := deadlines - {n.holder.value};
    ClearKeepsQueueOk(q, n.id);
    forall m | m in Clear(q, n.id) && m.holder.Some?
      ensures m.holder.value in after && after[m.holder.value] == m.key
    {
      ClearAt(q, n.id, m);
    }
    forall c | c in after ensures Held(Clear(q, n.id), c) {
      var m :| m in q && m.holder == Some(c);
      assert m.id != n.id;
    }
  }

  /** addTimer is insertion, for a connection that has no timer. */
  lemma AddIsInsertion(q: Queue, id: nat, key: nat, c: nat, deadlines: map<nat, nat>)
    requires Refines(q, deadlines) && c !in deadlines && forall n :: n in q ==> n.id != id
    ensures Refines(Add(q, id, key, c), deadlines[c := key])
  {
    var after := Add(q, id, key, c);
    forall d | d in deadlines[c := key] ensures Held(after, d) {
      if d == c {
        assert Node(id, key, Some(c)) in after;
      } else {
        var m :| m in q && m.holder == Some(d);
        assert m in after;
      }
    }
  }

  /** top() of the priority queue; ties are broken somehow. */
  ghost predicate IsTop(q: Queue, n: Node) {
    n in q && forall m :: m in q ==> n.key <= m.key
  }

  /** What handleExpiredEvent leaves of q when its last clock reading is `last` and the destructors
      of the popped nodes have closed the connections in `closed`. */
  ghost predicate Swept(q: Queue, after: Queue, closed: set<nat>, last: nat) {
    && after <= q
    && (forall n :: n in q && n !in after ==> n.holder.None? || n.key <= last)
    && (forall n :: n in after ==> last < n.key)
    && (after == {} || exists n :: IsTop(after, n) && n.holder.Some?)
    && (forall c :: c in closed <==> exists n :: n in q && n !in after && n.holder == Some(c))
  }

  /** The lazy queue does what the map would do: exactly the connections whose deadline is at or
      before the last clock reading are closed, the others keep their deadlines, no node with such a
      key is left, deleted or not, and the top, if any, is live. */
  lemma SweepIsExact(q: Queue, after: Queue, closed: set<nat>, last: nat, deadlines: map<nat, nat>)
    requires Refines(q, deadlines) && Swept(q, after, closed, last)
    ensures closed == set c | c in deadlines && deadlines[c] <= last
    ensures Refines(after, deadlines - closed)
    ensures forall n :: n in after ==> last < n.key
    ensures after != {} ==> exists n :: IsTop(after, n) && n.holder.Some?
  {
    forall c ensures c in closed <==> c in deadlines && deadlines[c] <= last {
      if c in deadlines {
        var n :| n in q && n.holder == Some(c);
        assert deadlines[c] == n.key;
      }
    }
    forall c | c in deadlines - closed ensures Held(after, c) {
      var n :| n in q && n.holder == Some(c);
      assert n in after;
    }
  }
}
