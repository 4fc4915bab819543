/** The bytes that a connection sends (HttpData.cpp:279-309): what has become of the answers over any number
    of pipelined requests and partial writes. */
module Response {
  import opened Wrappers
  import opened Text
  import opened Connection
  import H = HeaderGrammar
  import R = RequestLine
  import X = Exchange
  import W = Reactor

  /** One call of handleRead: what it sent, the answer that it gave, how many unsent bytes that answer
      overwrote, what it left unsent, what there was to send before its write, and whether it refused what it
      had read. */
  datatype Round = Round(sent: string, answer: string, lost: nat, left: string, ready: string, refused: bool)

  // ---------------------------------------------------------------- one call

  /** The connection that the block of handleRead hands to analysisRequest, if that gives an answer. */
  function Asked(c: Conn, t: Turn, taken: string): Option<Conn>
    requires |c.inBuf| + |taken| < NPOS
  {
    var s := ReadSection(c, t, taken);
    if !s.Go? then None
    else
      var p := ParseSections(s.conn, t);
      if !p.Go? then None
      else
        var b := BodySection(p.conn);
        if b.Go? && b.conn.stage == Analysis && AnalysisRequest(b.conn, t).1 then Some(b.conn) else None
  }

  /** What one write takes. */
  function Taken(c: Conn, sent: nat, fails: bool): string {
    if c.error || c.link == Disconnected || fails then "" else c.outBuf[..Min(sent, |c.outBuf|)]
  }

  function RoundOf(c: Conn, t: Turn, taken: string): Round
    requires |c.inBuf| + |taken| < NPOS
  {
    var sent := match Block(c, t, taken) case Break(d) => Taken(d, t.sent, t.writeFails) case _ => "";
    var left := match Block(c, t, taken) case Break(d) => Flush(d, t).outBuf case _ => "";
    var ready := match Block(c, t, taken) case Break(d) => if d.error then "" else d.outBuf case _ => "";
    var refused := match Block(c, t, taken) case Break(d) => d.error && t.end != Failed case _ => false;
    match Asked(c, t, taken)
    case None => Round(sent, "", 0, left, ready, refused)
    case Some(b) =>
      Round(sent, AnswerOf(b, t), if b.req.fileName == "hello" then |b.outBuf| else 0, left, ready, refused)
  }

  lemma ParsingKeepsOutput(c: Conn, t: Turn)
    requires |c.inBuf| < NPOS
    ensures var p := ParseSections(c, t); !p.Throw? ==> p.conn.outBuf == c.outBuf
  {
    hide H.ParseFrom, R.ParseUri;
  }

  /** In a block that ends without error the output is the old one, or that of the answer. */
  lemma BlockOutput(c: Conn, t: Turn, taken: string)
    requires Steady(c) && |c.inBuf| + |taken| < NPOS
    ensures var b := Block(c, t, taken); var asked := Asked(c, t, taken);
            b.Break? && !b.conn.error ==>
              if asked.Some? then
                && asked.value.outBuf == c.outBuf
                && AnalysisRequest(asked.value, t).1 && b.conn.outBuf == AnalysisRequest(asked.value, t).0.outBuf
              else b.conn.outBuf == c.outBuf
  {
    hide ParseSections, AnalysisRequest;
    var s := ReadSection(c, t, taken);
    if s.Go? {
      ParsingKeepsOutput(s.conn, t);
      ParseSectionsKeep(s.conn, t);
    }
  }

  lemma AnswerLength(c: Conn, t: Turn)
    requires AnalysisRequest(c, t).1
    ensures var lost := if c.req.fileName == "hello" then |c.outBuf| else 0;
            && |AnalysisRequest(c, t).0.outBuf| + lost == |c.outBuf| + |AnswerOf(c, t)|
            && (lost == 0 ==> AnalysisRequest(c, t).0.outBuf == c.outBuf + AnswerOf(c, t))
  {
    hide AnalysisRequest;
    PendingOutputKeptIff(c, t);
    if c.req.fileName == "hello" {
      HelloLength(c, t);
    }
  }

  lemma HelloLength(c: Conn, t: Turn)
    requires AnalysisRequest(c, t).1 && c.req.fileName == "hello"
    ensures AnalysisRequest(c, t).0.outBuf == HELLO == AnswerOf(c, t)
  {
  }

  // ---------------------------------------------------------------- handleRead with its recursion

  /** The connection for which handleRead calls itself once more, if it does. */
  function Again(c: Conn, t: Turn, taken: string): Option<Conn>
    requires |c.inBuf| + |taken| < NPOS
  {
    match Block(c, t, taken)
    case Break(d) =>
      var e := Flush(d, t);
      if !d.error && !e.error && e.stage == Finish && e.inBuf != "" && e.link != Disconnecting then Some(Reset(e))
      else None
    case _ => None
  }

  function TakenBytes(t: Turn, net: string): nat {
    Min(t.take, |net|)
  }

  /** What handleRead does when it calls itself, and what it leaves when it does not. */
  lemma AgainIsHandleRead(c: Conn, net: string, plan: Plan, turn: nat)
    requires Steady(c) && |c.inBuf| + |net| < NPOS
    ensures var t, k := plan(turn), TakenBytes(plan(turn), net); var again := Again(c, t, net[..k]);
            && (again.Some? ==>
                 && Steady(again.value) && |again.value.inBuf| + |net[k..]| < |c.inBuf| + |net|
                 && HandleRead(c, net, plan, turn) == HandleRead(again.value, net[k..], plan, turn + 1))
            && (again.None? ==> var r := HandleRead(c, net, plan, turn);
                 r.Ran? && !r.conn.error ==>
                   var b := Block(c, t, net[..k]);
                   && b.Break? && !b.conn.error && !Flush(b.conn, t).error && r.conn.outBuf == Flush(b.conn, t).outBuf
                   && r.conn.link == b.conn.link && (OUT in r.conn.events <==> OUT in Flush(b.conn, t).events))
  {
    hide Block, Flush;
    var t, k := plan(turn), TakenBytes(plan(turn), net);
    BlockKeeps(c, t, net[..k]);
    var b := Block(c, t, net[..k]);
    if b.Break? && !b.conn.error {
      FlushTouches(b.conn, t);
    }
  }

  lemma FlushTouches(c: Conn, t: Turn)
    requires !c.error && c.link != Disconnected
    ensures var e := Flush(c, t);
            && e == c.(outBuf := e.outBuf, events := e.events, error := e.error)
            && (!e.error ==> Taken(c, t.sent, t.writeFails) + e.outBuf == c.outBuf)
  {
  }

  /** The calls of one handleRead, in order. */
  function Rounds(c: Conn, net: string, plan: Plan, turn: nat): seq<Round>
    requires Steady(c) && |c.inBuf| + |net| < NPOS
    decreases |net| + |c.inBuf|
  {
    AgainIsHandleRead(c, net, plan, turn);
    var t, k := plan(turn), TakenBytes(plan(turn), net);
    var again := Again(c, t, net[..k]);
    [RoundOf(c, t, net[..k])] + if again.Some? then Rounds(again.value, net[k..], plan, turn + 1) else []
  }

  function Sent(rounds: seq<Round>): string {
    if rounds == [] then "" else rounds[0].sent + Sent(rounds[1..])
  }

  function Answers(rounds: seq<Round>): string {
    if rounds == [] then "" else rounds[0].answer + Answers(rounds[1..])
  }

  function Lost(rounds: seq<Round>): nat {
    if rounds == [] then 0 else rounds[0].lost + Lost(rounds[1..])
  }

  lemma {:induction false} NothingLostIff(rounds: seq<Round>)
    ensures Lost(rounds) == 0 <==> forall k :: 0 <= k < |rounds| ==> rounds[k].lost == 0
  {
    if rounds != [] {
      NothingLostIff(rounds[1..]);
      assert forall k :: 1 <= k < |rounds| ==> rounds[k] == rounds[1..][k - 1];
    }
  }

  /** The bytes of one call: sent and kept are what was there and the answer, but for what it overwrote. */
  lemma RoundBalances(c: Conn, t: Turn, taken: string)
    requires Steady(c) && |c.inBuf| + |taken| < NPOS
    ensures var b := Block(c, t, taken);
            b.Break? && !b.conn.error && !Flush(b.conn, t).error ==>
              var r, e := RoundOf(c, t, taken), Flush(b.conn, t);
              && |r.sent| + |e.outBuf| + r.lost == |c.outBuf| + |r.answer|
              && (r.lost == 0 ==> r.sent + e.outBuf == c.outBuf + r.answer)
  {
    hide Block, Flush, Taken, Asked, AnalysisRequest;
    var b := Block(c, t, taken);
    BlockKeeps(c, t, taken);
    BlockOutput(c, t, taken);
    if b.Break? && !b.conn.error {
      FlushTouches(b.conn, t);
      if Asked(c, t, taken).Some? {
        AnswerLength(Asked(c, t, taken).value, t);
      } else {
        assert c.outBuf + "" == c.outBuf;
      }
    }
  }

  lemma Associative(a: string, b: string, c: string)
    ensures a + (b + c) == (a + b) + c
  {
  }

  /** Over all calls of one handleRead. */
  lemma {:induction false} RoundsBalance(c: Conn, net: string, plan: Plan, turn: nat)
    requires Steady(c) && |c.inBuf| + |net| < NPOS
    ensures var r, rounds := HandleRead(c, net, plan, turn), Rounds(c, net, plan, turn);
            r.Ran? && !r.conn.error ==>
              && |Sent(rounds)| + |r.conn.outBuf| + Lost(rounds) == |c.outBuf| + |Answers(rounds)|
              && (Lost(rounds) == 0 ==> Sent(rounds) + r.conn.outBuf == c.outBuf + Answers(rounds))
    decreases |net| + |c.inBuf|
  {
    hide Block, Flush, RoundOf, Again, HandleRead, Steady;
    var t, k := plan(turn), TakenBytes(plan(turn), net);
    var again, r, rounds := Again(c, t, net[..k]), HandleRead(c, net, plan, turn), Rounds(c, net, plan, turn);
    AgainIsHandleRead(c, net, plan, turn);
    RoundBalances(c, t, net[..k]);
    var first := RoundOf(c, t, net[..k]);
    if again.Some? {
      var rest := Rounds(again.value, net[k..], plan, turn + 1);
      RoundsBalance(again.value, net[k..], plan, turn + 1);
      AgainOutput(c, t, net[..k]);
      assert rounds[0] == first && rounds[1..] == rest;
      if r.Ran? {
        Associative(first.sent, Sent(rest), r.conn.outBuf);
      }
      Associative(first.sent, again.value.outBuf, Answers(rest));
      Associative(c.outBuf, first.answer, Answers(rest));
    } else {
      assert rounds == [first];
      OneRound(first);
      NoErrorLeft(c, net, plan, turn);
    }
  }

  lemma OneRound(first: Round)
    ensures Sent([first]) == first.sent && Answers([first]) == first.answer && Lost([first]) == first.lost
  {
    assert first.sent + "" == first.sent && first.answer + "" == first.answer;
  }

  lemma AgainOutput(c: Conn, t: Turn, taken: string)
    requires |c.inBuf| + |taken| < NPOS && Again(c, t, taken).Some?
    ensures var b := Block(c, t, taken);
            b.Break? && !b.conn.error && !Flush(b.conn, t).error
            && Again(c, t, taken).value.outBuf == Flush(b.conn, t).outBuf
            && Again(c, t, taken).value.events == Flush(b.conn, t).events
  {
  }

  lemma NoErrorLeft(c: Conn, net: string, plan: Plan, turn: nat)
    requires Steady(c) && |c.inBuf| + |net| < NPOS
    ensures var t, k := plan(turn), TakenBytes(plan(turn), net); var r := HandleRead(c, net, plan, turn);
            Again(c, t, net[..k]).None? && r.Ran? && !r.conn.error ==>
              var b := Block(c, t, net[..k]); b.Break? && !b.conn.error && !Flush(b.conn, t).error
  {
    hide Block, Flush;
    BlockKeeps(c, plan(turn), net[..TakenBytes(plan(turn), net)]);
  }

  /** Some call has left output unsent. */
  ghost predicate Stalled(rounds: seq<Round>) {
    exists k :: 0 <= k < |rounds| && rounds[k].left != ""
  }

  lemma RoundLeaves(c: Conn, t: Turn, taken: string)
    requires Steady(c) && |c.inBuf| + |taken| < NPOS
    ensures var b, left := Block(c, t, taken), RoundOf(c, t, taken).left;
            b.Break? && !b.conn.error && !Flush(b.conn, t).error ==>
              && Flush(b.conn, t).outBuf == left
              && (OUT in Flush(b.conn, t).events <==> OUT in c.events || left != "")
  {
    hide Block, Asked, Taken, AnswerOf;
    BlockKeeps(c, t, taken);
  }

  /** handleRead asks for EPOLLOUT if and only if some call of it has left output unsent, though a later one
      may have sent it; what is unsent at the end is what the last call has left. */
  lemma {:induction false} AsksIffStalled(c: Conn, net: string, plan: Plan, turn: nat)
    requires Steady(c) && |c.inBuf| + |net| < NPOS
    ensures var r, rounds := HandleRead(c, net, plan, turn), Rounds(c, net, plan, turn);
            r.Ran? && !r.conn.error ==>
              && (OUT in r.conn.events <==> OUT in c.events || Stalled(rounds))
              && rounds != [] && r.conn.outBuf == rounds[|rounds| - 1].left
    decreases |net| + |c.inBuf|
  {
    hide Block, Flush, RoundOf, Again, HandleRead, Steady;
    var t, k := plan(turn), TakenBytes(plan(turn), net);
    var again, first := Again(c, t, net[..k]), RoundOf(c, t, net[..k]);
    AgainIsHandleRead(c, net, plan, turn);
    RoundLeaves(c, t, net[..k]);
    if again.Some? {
      var rest := Rounds(again.value, net[k..], plan, turn + 1);
      AsksIffStalled(again.value, net[k..], plan, turn + 1);
      AgainOutput(c, t, net[..k]);
      StalledInFront(first, rest);
    } else {
      assert Rounds(c, net, plan, turn) == [first];
      StalledInFront(first, []);
      assert [first] + [] == [first];
    }
  }

  lemma StalledInFront(first: Round, rest: seq<Round>)
    ensures Stalled([first] + rest) <==> first.left != "" || Stalled(rest)
  {
    var all := [first] + rest;
    assert all[0] == first;
    if Stalled(rest) {
      var k :| 0 <= k < |rest| && rest[k].left != "";
      assert all[k + 1].left != "";
    }
    if Stalled(all) {
      var k :| 0 <= k < |all| && all[k].left != "";
      assert k > 0 ==> rest[k - 1].left != "";
    }
  }

  /** The response stream of one handleRead, over any pipelining and any partial writes: what was sent and
      what is still unsent are together the earlier output and the answers in their order, if and only if no
      call answered the page "hello" while output was unsent. */
  lemma StreamIsKeptIff(c: Conn, net: string, plan: Plan, turn: nat)
    requires Steady(c) && |c.inBuf| + |net| < NPOS
    ensures var r, rounds := HandleRead(c, net, plan, turn), Rounds(c, net, plan, turn);
            r.Ran? && !r.conn.error ==>
              (Sent(rounds) + r.conn.outBuf == c.outBuf + Answers(rounds)
               <==> forall k :: 0 <= k < |rounds| ==> rounds[k].lost == 0)
  {
    hide HandleRead, Rounds, Sent, Answers, Lost;
    var r, rounds := HandleRead(c, net, plan, turn), Rounds(c, net, plan, turn);
    RoundsBalance(c, net, plan, turn);
    NothingLostIff(rounds);
    if r.Ran? && Sent(rounds) + r.conn.outBuf == c.outBuf + Answers(rounds) {
      assert |Sent(rounds) + r.conn.outBuf| == |c.outBuf + Answers(rounds)|;
    }
  }

  // ---------------------------------------------------------------- a whole event

  /** The calls of handleRead in one event, if epoll reports something to read. */
  function EventRounds(c: Conn, revents: Mask, net: string, plan: Plan, turn: nat): seq<Round>
    requires Steady(c) && |c.inBuf| + |net| < NPOS
  {
    if IN in revents || PRI in revents || RDHUP in revents then Rounds(c, net, plan, turn) else []
  }

  /** What handleWrite sends behind them, if epoll reports EPOLLOUT. */
  function EventWrite(c: Conn, revents: Mask, net: string, plan: Plan, turn: nat): string
    requires Steady(c) && |c.inBuf| + |net| < NPOS
  {
    var r := RunHandlers(c, revents - {OUT}, net, plan, turn);
    if OUT in revents && r.Ran? then Taken(r.conn, plan(r.turn).sent, plan(r.turn).writeFails) else ""
  }

  lemma WriteTakes(c: Conn, sent: nat, fails: bool)
    ensures var e := HandleWrite(c, sent, fails); !e.error ==> !c.error && Taken(c, sent, fails) + e.outBuf == c.outBuf
  {
  }

  lemma ReadPart(c: Conn, revents: Mask, net: string, plan: Plan, turn: nat)
    requires Steady(c) && |c.inBuf| + |net| < NPOS
    ensures var r, w := RunHandlers(c, revents - {OUT}, net, plan, turn), RunHandlers(c, revents, net, plan, turn);
            && (w.Ran? <==> r.Ran?)
            && (w.Ran? && !w.conn.error ==>
                 !r.conn.error && EventWrite(c, revents, net, plan, turn) + w.conn.outBuf == r.conn.outBuf)
            && r == (if IN in revents || PRI in revents || RDHUP in revents then HandleRead(c, net, plan, turn)
                     else Ran(c, net, turn))
  {
    hide HandleRead, HandleWrite, Taken, Steady;
    var r := RunHandlers(c, revents - {OUT}, net, plan, turn);
    if r.Ran? {
      assert "" + r.conn.outBuf == r.conn.outBuf;
      WriteTakes(r.conn, plan(r.turn).sent, plan(r.turn).writeFails);
    }
  }

  /** The response stream over one event with both its handlers. */
  lemma EventStreamIsKeptIff(c: Conn, revents: Mask, net: string, plan: Plan, turn: nat)
    requires Steady(c) && |c.inBuf| + |net| < NPOS
    ensures var w, rounds := RunHandlers(c, revents, net, plan, turn), EventRounds(c, revents, net, plan, turn);
            w.Ran? && !w.conn.error ==>
              (Sent(rounds) + EventWrite(c, revents, net, plan, turn) + w.conn.outBuf == c.outBuf + Answers(rounds)
               <==> forall k :: 0 <= k < |rounds| ==> rounds[k].lost == 0)
  {
    hide HandleRead, RunHandlers, Rounds, EventWrite;
    ReadPart(c, revents, net, plan, turn);
    StreamIsKeptIff(c, net, plan, turn);
    var w, rounds := RunHandlers(c, revents, net, plan, turn), EventRounds(c, revents, net, plan, turn);
    if w.Ran? {
      Associative(Sent(rounds), EventWrite(c, revents, net, plan, turn), w.conn.outBuf);
      if rounds == [] {
        assert "" + c.outBuf == c.outBuf + "";
      }
    }
  }

  /** What an event with nothing to write finds out about a peer that has closed its side: it leads to a close,
      and not to a connection that is left behind, if and only if no call of handleRead left output unsent. */
  lemma LeftIffStalled(c: Conn, revents: Mask, net: string, plan: Plan)
    requires Steady(c) && |c.inBuf| + |net| < NPOS && IN in revents && OUT !in revents
    ensures var r, rounds := HandleEvents(c, revents, net, plan, 0), Rounds(c.(events := {}), net, plan, 0);
            r.Done? && !r.conn.error && r.conn.link == Disconnecting ==>
              (r.request.Leave? <==> Stalled(rounds)) && rounds != [] && r.conn.outBuf == rounds[|rounds| - 1].left
  {
    hide HandleRead, Rounds, Steady;
    var d := c.(events := {});
    SteadyWithout(c);
    AsksIffStalled(d, net, plan, 0);
    HandleReadKeeps(d, net, plan, 0);
    var r := HandleRead(d, net, plan, 0);
    if ERR !in revents && r.Ran? {
      HandleConnKeeps(r.conn);
    }
  }

  lemma SteadyWithout(c: Conn)
    requires Steady(c)
    ensures Steady(c.(events := {}))
  {
  }

  // ---------------------------------------------------------------- what is still awaited

  /** A call that goes on without a finished request is past the request line. */
  lemma BlockMovesOn(c: Conn, t: Turn, taken: string)
    requires Steady(c) && |c.inBuf| + |taken| < NPOS
    ensures var b := Block(c, t, taken);
            b.Break? && !b.conn.error && b.conn.link == Connected ==>
              b.conn.stage != ParseUri && b.conn.events == c.events
  {
    hide UriSection, HeaderSection, AnalysisRequest;
    var s := ReadSection(c, t, taken);
    if s.Go? {
      UriSectionKeeps(s.conn);
      if UriSection(s.conn).Go? {
        HeaderSectionKeeps(UriSection(s.conn).conn, t);
        HeadersMoveOn(UriSection(s.conn).conn, t);
      }
    }
    BlockKeeps(c, t, taken);
  }

  lemma HeadersMoveOn(c: Conn, t: Turn)
    requires c.stage != ParseUri
    ensures var s := HeaderSection(c, t); s.Throw? || s.conn.stage != ParseUri
  {
  }

  lemma FlushAsksNothing(d: Conn, t: Turn)
    ensures var e := Flush(d, t);
            e.stage == d.stage && e.link == d.link && (!e.error ==> (IN in e.events <==> IN in d.events))
  {
  }

  /** handleRead asks for EPOLLIN if and only if it has left a request half read. */
  lemma {:induction false} AwaitsIffUnfinished(c: Conn, net: string, plan: Plan, turn: nat)
    requires Steady(c) && |c.inBuf| + |net| < NPOS && IN !in c.events
    ensures var r := HandleRead(c, net, plan, turn);
            r.Ran? && !r.conn.error && r.conn.link == Connected ==> (IN in r.conn.events <==> r.conn.stage != ParseUri)
    decreases |net| + |c.inBuf|
  {
    hide Block, Flush, Steady;
    var t, k := plan(turn), TakenBytes(plan(turn), net);
    BlockKeeps(c, t, net[..k]);
    BlockMovesOn(c, t, net[..k]);
    var b := Block(c, t, net[..k]);
    if b.Break? && !b.conn.error {
      FlushAsksNothing(b.conn, t);
      FlushTouches(b.conn, t);
      AgainIsHandleRead(c, net, plan, turn);
      if Again(c, t, net[..k]).Some? {
        AwaitsIffUnfinished(Again(c, t, net[..k]).value, net[k..], plan, turn + 1);
      }
    }
  }

  /** The timeout that an event with something to read asks for, in milliseconds: long for a connection that is kept
      alive, and otherwise short while a request is half read or some call has left output unsent. */
  lemma TimeoutAfterRead(c: Conn, revents: Mask, net: string, plan: Plan)
    requires Steady(c) && |c.inBuf| + |net| < NPOS && IN in revents && ERR !in revents && OUT !in revents
    ensures var e, rounds := HandleEvents(c, revents, net, plan, 0), Rounds(c.(events := {}), net, plan, 0);
            e.Done? && e.request.Update? ==>
              e.request.timeout ==
                if e.conn.keepAlive then 300000
                else if e.conn.stage != ParseUri || Stalled(rounds) then 2000
                else 150000
  {
    hide HandleRead, Rounds, Steady, Stalled;
    SteadyWithout(c);
    var d := c.(events := {});
    AsksIffStalled(d, net, plan, 0);
    AwaitsIffUnfinished(d, net, plan, 0);
    HandleReadKeeps(d, net, plan, 0);
    var r := HandleRead(d, net, plan, 0);
    if r.Ran? {
      NothingAsked(r.conn.events);
    }
  }

  lemma NothingAsked(events: Mask)
    requires events <= {IN, OUT}
    ensures events == {} <==> IN !in events && OUT !in events
  {
  }

  /** And that a writable event asks for. */
  lemma TimeoutAfterWrite(c: Conn, net: string, plan: Plan)
    requires Steady(c) && |c.inBuf| + |net| < NPOS
    ensures var e := HandleEvents(c, {OUT}, net, plan, 0);
            e.Done? && e.request.Update? ==>
              && e.conn.keepAlive == c.keepAlive
              && e.request.timeout == if c.keepAlive then 300000 else if e.conn.outBuf != "" then 2000 else 150000
  {
    hide HandleRead, Steady;
    SteadyWithout(c);
    var d := HandleWrite(c.(events := {}), plan(0).sent, plan(0).writeFails);
    if OUT in d.events {
      assert d.events != {};
    }
  }

  // ---------------------------------------------------------------- what goes wrong

  /** Its read or its write fails; a write of nothing does not. */
  predicate Fails(t: Turn, round: Round) {
    t.end == Failed || (t.writeFails && round.ready != "")
  }

  /** Some call fails, or refuses what it has read. */
  ghost predicate Wrong(rounds: seq<Round>, plan: Plan, turn: nat) {
    exists k :: 0 <= k < |rounds| && WrongAt(rounds[k], plan(turn + k))
  }

  predicate WrongAt(round: Round, t: Turn) {
    round.refused || Fails(t, round)
  }

  /** A call ends in an error exactly then. */
  lemma CallErrorIff(c: Conn, t: Turn, taken: string)
    requires Steady(c) && c.link == Connected && |c.inBuf| + |taken| < NPOS
    ensures var b := Block(c, t, taken);
            && (b.Break? ==> (b.conn.error || Flush(b.conn, t).error <==> WrongAt(RoundOf(c, t, taken), t)))
            && (b.Throw? ==> !WrongAt(RoundOf(c, t, taken), t))
  {
    hide ParseSections, AnswerSections, Asked, Taken, AnswerOf;
    BlockKeeps(c, t, taken);
  }

  lemma WrongInFront(first: Round, rest: seq<Round>, plan: Plan, turn: nat)
    ensures Wrong([first] + rest, plan, turn) <==> WrongAt(first, plan(turn)) || Wrong(rest, plan, turn + 1)
  {
    hide WrongAt;
    var all := [first] + rest;
    assert all[0] == first && turn + 0 == turn;
    if WrongAt(first, plan(turn)) {
      assert WrongAt(all[0], plan(turn + 0));
    }
    if Wrong(rest, plan, turn + 1) {
      var k :| 0 <= k < |rest| && WrongAt(rest[k], plan(turn + 1 + k));
      assert all[k + 1] == rest[k] && WrongAt(all[k + 1], plan(turn + (k + 1)));
    }
    if Wrong(all, plan, turn) {
      var k :| 0 <= k < |all| && WrongAt(all[k], plan(turn + k));
      if k > 0 {
        assert all[k] == rest[k - 1] && WrongAt(rest[k - 1], plan(turn + 1 + (k - 1)));
      }
    }
  }

  /** handleRead ends in an error if and only if one of its calls, at any depth of pipelining, has failed to read
      or to write, or has refused what it read. */
  lemma {:induction false} ErrorIffWrong(c: Conn, net: string, plan: Plan, turn: nat)
    requires Steady(c) && c.link == Connected && |c.inBuf| + |net| < NPOS
    ensures var r, rounds := HandleRead(c, net, plan, turn), Rounds(c, net, plan, turn);
            r.Ran? ==> (r.conn.error <==> Wrong(rounds, plan, turn))
    decreases |net| + |c.inBuf|
  {
    hide Block, Flush, RoundOf, Again, HandleRead, Steady, WrongAt, Wrong;
    var t, k := plan(turn), TakenBytes(plan(turn), net);
    var again, first := Again(c, t, net[..k]), RoundOf(c, t, net[..k]);
    AgainIsHandleRead(c, net, plan, turn);
    CallErrorIff(c, t, net[..k]);
    NoMoreCalls(c, net, plan, turn);
    if again.Some? {
      var rest := Rounds(again.value, net[k..], plan, turn + 1);
      AgainLink(c, t, net[..k]);
      ErrorIffWrong(again.value, net[k..], plan, turn + 1);
      WrongInFront(first, rest, plan, turn);
    } else {
      assert Rounds(c, net, plan, turn) == [first];
      WrongInFront(first, [], plan, turn);
      NoneWrong(plan, turn + 1);
      assert [first] + [] == [first];
    }
  }

  lemma NoneWrong(plan: Plan, turn: nat)
    ensures !Wrong([], plan, turn)
  {
  }

  lemma AgainLink(c: Conn, t: Turn, taken: string)
    requires Steady(c) && |c.inBuf| + |taken| < NPOS && Again(c, t, taken).Some?
    ensures Again(c, t, taken).value.link == Connected && Steady(Again(c, t, taken).value)
    ensures var b := Block(c, t, taken); b.Break? && !b.conn.error && !Flush(b.conn, t).error
  {
    hide Block;
    BlockKeeps(c, t, taken);
  }

  lemma NoMoreCalls(c: Conn, net: string, plan: Plan, turn: nat)
    requires Steady(c) && |c.inBuf| + |net| < NPOS
    ensures var t, k := plan(turn), TakenBytes(plan(turn), net); var b := Block(c, t, net[..k]);
            Again(c, t, net[..k]).None? ==>
              var r := HandleRead(c, net, plan, turn);
              && (r.Ran? <==> b.Break?)
              && (r.Ran? ==> (r.conn.error <==> b.conn.error || Flush(b.conn, t).error))
  {
    hide Block;
    BlockKeeps(c, plan(turn), net[..TakenBytes(plan(turn), net)]);
  }

  /** An event with a handler to run is answered with a close if a read or a write of it has failed, or a call
      refused what it read. */
  lemma WrongCloses(c: Conn, revents: Mask, net: string, plan: Plan)
    requires Steady(c) && c.link == Connected && |c.inBuf| + |net| < NPOS
    requires ERR !in revents && (HUP in revents ==> IN in revents)
    ensures var d := c.(events := {});
            var r, w := RunHandlers(d, revents - {OUT}, net, plan, 0), RunHandlers(d, revents, net, plan, 0);
            var wrong := Wrong(EventRounds(d, revents, net, plan, 0), plan, 0)
                         || (OUT in revents && r.Ran? && r.conn.outBuf != "" && plan(r.turn).writeFails);
            w.Ran? ==>
              && (w.conn.error <==> wrong)
              && var e := HandleEvents(c, revents, net, plan, 0);
                 e.Done? && e.conn.error == wrong && (wrong ==> e.request.Close?)
  {
    hide HandleRead, HandleWrite, Rounds, Wrong, Steady;
    SteadyWithout(c);
    var d := c.(events := {});
    ErrorIffWrong(d, net, plan, 0);
    NoneWrong(plan, 0);
    HandleReadKeeps(d, net, plan, 0);
    var r := RunHandlers(d, revents - {OUT}, net, plan, 0);
    if r.Ran? {
      FailedWrite(r.conn, plan(r.turn).sent, plan(r.turn).writeFails);
    }
  }

  lemma FailedWrite(c: Conn, sent: nat, fails: bool)
    requires c.link != Disconnected
    ensures HandleWrite(c, sent, fails).error <==> c.error || (fails && c.outBuf != "")
    ensures HandleWrite(c, sent, fails).link == c.link
  {
  }

  // ---------------------------------------------------------------- any number of requests

  /** Requests one behind the other, with one byte, whichever it is, between any two of them. */
  function Chain(qs: seq<X.Call>, fillers: string): string
    requires qs != [] && |fillers| == |qs| - 1
  {
    if |qs| == 1 then X.Print(qs[0], "") else X.Print(qs[0], [fillers[0]] + Chain(qs[1..], fillers[1..]))
  }

  /** The answer to a request that has one: the page "hello", or the header text, followed by the file unless
      there is none or the method is HEAD. */
  function AnswerTo(q: X.Call, t: Turn): string {
    if R.IsFileOf("hello", q.target) then "HTTP/1.1 200 OK\r\nContent-type: text/plain\r\n\r\nHello World"
    else if R.IsFileOf("favicon.ico", q.target) || q.mthd == R.Head || !t.disk.File? then t.reply
    else t.reply + t.disk.contents
  }

  function AnswersTo(qs: seq<X.Call>, plan: Plan, turn: nat): string {
    if qs == [] then "" else AnswerTo(qs[0], plan(turn)) + AnswersTo(qs[1..], plan, turn + 1)
  }

  /** The server has an answer to the request, and nothing fails at its call. */
  ghost predicate Served(q: X.Call, t: Turn) {
    X.CallOk(q) && X.Answerable(q, t) && t.end == Drained && !t.writeFails
  }

  ghost predicate AllAnswerable(qs: seq<X.Call>, plan: Plan, turn: nat) {
    forall k :: 0 <= k < |qs| ==> Served(qs[k], plan(turn + k))
  }

  lemma AnswerIsAnswerTo(c: Conn, d: Conn, t: Turn, q: X.Call, rest: string)
    requires X.HasParsed(c, d, q, rest) && X.Answerable(q, t)
    ensures AnalysisRequest(d, t).1 && AnswerOf(d, t) == AnswerTo(q, t)
    ensures d.req.fileName == "hello" <==> R.IsFileOf("hello", q.target)
  {
    X.AnswerIsGivenIff(c, d, t, q, rest);
    if R.IsFileOf("hello", q.target) {
      R.OneFile("hello", d.req.fileName, q.target);
    }
    if R.IsFileOf("favicon.ico", q.target) {
      R.OneFile("favicon.ico", d.req.fileName, q.target);
    }
    assert "" + t.reply == t.reply;
    if t.disk.File? {
      assert "" + t.reply + t.disk.contents == t.reply + t.disk.contents;
    }
  }

  /** The last Connection line of the request asks to keep the connection. */
  predicate KeepsAlive(q: X.Call) {
    var value := H.LastValue(q.headers, "Connection");
    value == Some("Keep-Alive") || value == Some("Keep-alive")
  }

  ghost predicate SomeKeepsAlive(qs: seq<X.Call>) {
    exists k :: 0 <= k < |qs| && KeepsAlive(qs[k])
  }

  lemma SomeKeepsAliveInFront(qs: seq<X.Call>)
    requires qs != []
    ensures SomeKeepsAlive(qs) <==> KeepsAlive(qs[0]) || SomeKeepsAlive(qs[1..])
  {
    hide KeepsAlive;
    if SomeKeepsAlive(qs[1..]) {
      var k :| 0 <= k < |qs[1..]| && KeepsAlive(qs[1..][k]);
      assert KeepsAlive(qs[k + 1]);
    }
    if SomeKeepsAlive(qs) {
      var k :| 0 <= k < |qs| && KeepsAlive(qs[k]);
      assert k > 0 ==> KeepsAlive(qs[1..][k - 1]);
    }
  }

  lemma NobodyKeepsAlive()
    ensures !SomeKeepsAlive([])
  {
  }

  lemma KeepAliveIsTaken(c: Conn, d: Conn, t: Turn, q: X.Call, rest: string)
    requires X.HasParsed(c, d, q, rest) && q.mthd != R.Post
    ensures AnalysisRequest(d, t).0.keepAlive == (c.keepAlive || KeepsAlive(q))
  {
    hide H.Merge, H.LastValue, R.IsFileOf;
    H.MergeLooksUp(q.headers, "Connection");
  }

  /** One call with a request in front: its answer is given, and the rest stays. */
  lemma RequestRound(c: Conn, t: Turn, taken: string, q: X.Call, next: string) returns (d: Conn)
    requires X.Waiting(c) && c.link == Connected && X.CallOk(q) && X.Answerable(q, t)
    requires c.inBuf + taken == X.Print(q, next) && |c.inBuf| + |taken| < NPOS && t.end == Drained && !t.writeFails
    ensures Block(c, t, taken) == Break(d)
    ensures !d.error && d.stage == Finish && d.link == Connected && d.inBuf == X.Behind(next)
    ensures RoundOf(c, t, taken).answer == AnswerTo(q, t)
    ensures RoundOf(c, t, taken).lost == if R.IsFileOf("hello", q.target) then |c.outBuf| else 0
    ensures d.keepAlive == (c.keepAlive || KeepsAlive(q))
  {
    hide ParseSections, AnalysisRequest, X.Print, X.HasParsed, X.Answerable, X.CallOk, R.IsFileOf, AnswerTo, AnswerOf;
    hide KeepsAlive;
    var b := c.(inBuf := c.inBuf + taken);
    X.CallIsParsed(b, t, q, next);
    d := X.BlockAnswers(c, t, taken, q, X.Behind(next));
    var p := ParseSections(b, t).conn;
    X.WhatIsParsed(b, p, q, X.Behind(next));
    ParsingKeepsOutput(b, t);
    AnswerIsAnswerTo(b, p, t, q, X.Behind(next));
    AnswerableIsNoPost(q, t);
    KeepAliveIsTaken(b, p, t, q, X.Behind(next));
  }

  lemma AnswerableIsNoPost(q: X.Call, t: Turn)
    requires X.Answerable(q, t)
    ensures q.mthd != R.Post
  {
  }

  lemma WaitsAgain(d: Conn, t: Turn)
    requires !d.error && d.stage == Finish && d.link == Connected && !t.writeFails
    ensures var f := Reset(Flush(d, t));
            && !Flush(d, t).error && X.Waiting(f) && f.link == Connected && f.inBuf == d.inBuf
            && f.keepAlive == d.keepAlive
  {
  }

  /** Behind a finished request handleRead goes on with what is left in the buffer, or ends. */
  lemma RoundGoesOn(c: Conn, net: string, plan: Plan, turn: nat, d: Conn)
    requires Steady(c) && |c.inBuf| + |net| < NPOS && X.ReadsAll(plan(turn), net)
    requires Block(c, plan(turn), net) == Break(d) && |d.inBuf| < |c.inBuf| + |net|
    requires !d.error && d.stage == Finish && d.link == Connected
    ensures var f := Reset(Flush(d, plan(turn)));
            && X.Waiting(f) && f.link == Connected && f.inBuf == d.inBuf && f.keepAlive == d.keepAlive
            && (d.inBuf != "" ==>
                 && HandleRead(c, net, plan, turn) == HandleRead(f, "", plan, turn + 1)
                 && Rounds(c, net, plan, turn) == [RoundOf(c, plan(turn), net)] + Rounds(f, "", plan, turn + 1))
            && (d.inBuf == "" ==>
                 HandleRead(c, net, plan, turn) == Ran(f, "", turn)
                 && Rounds(c, net, plan, turn) == [RoundOf(c, plan(turn), net)])
  {
    hide Block, RoundOf, Flush, X.Waiting, Reset;
    var t := plan(turn);
    assert net[..TakenBytes(t, net)] == net && net[TakenBytes(t, net)..] == "";
    WaitsAgain(d, t);
    FlushKept(d, t);
    BlockKeeps(c, t, net);
    ResetKept(Flush(d, t));
    WaitingIsSteady(Reset(Flush(d, t)));
  }

  lemma FlushKept(d: Conn, t: Turn)
    requires !d.error && d.link == Connected && !t.writeFails
    ensures var e := Flush(d, t); !e.error && e.stage == d.stage && e.link == d.link && e.inBuf == d.inBuf
  {
  }

  lemma ResetKept(e: Conn)
    ensures Reset(e).inBuf == e.inBuf && Reset(e).link == e.link && Reset(e).error == e.error
  {
  }

  lemma WaitingIsSteady(f: Conn)
    requires X.Waiting(f)
    ensures Steady(f) && !f.error
  {
  }

  lemma FirstAndOthers(qs: seq<X.Call>, plan: Plan, turn: nat)
    requires qs != [] && AllAnswerable(qs, plan, turn)
    ensures Served(qs[0], plan(turn)) && AllAnswerable(qs[1..], plan, turn + 1)
  {
    hide Served;
    assert Served(qs[0], plan(turn + 0));
    forall k | 0 <= k < |qs[1..]| ensures Served(qs[1..][k], plan(turn + 1 + k)) {
      assert Served(qs[k + 1], plan(turn + (k + 1)));
    }
  }

  lemma FirstAnswer(qs: seq<X.Call>, plan: Plan, turn: nat)
    requires qs != []
    ensures AnswersTo(qs, plan, turn) == AnswerTo(qs[0], plan(turn)) + AnswersTo(qs[1..], plan, turn + 1)
    ensures |qs| == 1 ==> AnswersTo(qs, plan, turn) == AnswerTo(qs[0], plan(turn))
  {
    hide AnswerTo;
    if |qs| == 1 {
      assert AnswerTo(qs[0], plan(turn)) + "" == AnswerTo(qs[0], plan(turn));
    }
  }

  lemma ChainOfOne(qs: seq<X.Call>, fillers: string)
    requires |qs| == 1 && fillers == ""
    ensures Chain(qs, fillers) == X.Print(qs[0], "")
  {
  }

  lemma ChainIsLonger(qs: seq<X.Call>, fillers: string)
    requires |qs| > 1 && |fillers| == |qs| - 1
    ensures 0 < |Chain(qs[1..], fillers[1..])| < |Chain(qs, fillers)|
    ensures Chain(qs, fillers) == X.Print(qs[0], [fillers[0]] + Chain(qs[1..], fillers[1..]))
    ensures X.Behind([fillers[0]] + Chain(qs[1..], fillers[1..])) == Chain(qs[1..], fillers[1..])
  {
    hide X.Print;
    var rest := Chain(qs[1..], fillers[1..]);
    X.PrintIsLonger(qs[0], [fillers[0]] + rest);
    ChainNotEmpty(qs[1..], fillers[1..]);
    assert ([fillers[0]] + rest)[1..] == rest;
  }

  lemma ChainNotEmpty(qs: seq<X.Call>, fillers: string)
    requires qs != [] && |fillers| == |qs| - 1
    ensures |Chain(qs, fillers)| > 0
  {
    hide X.Print;
    X.PrintIsLonger(qs[0], if |qs| == 1 then "" else [fillers[0]] + Chain(qs[1..], fillers[1..]));
  }

  /** Any number of requests with a byte between them, wherever in buffer and socket they stand when the call
      begins: handleRead calls itself once for each, gives their answers in order, and leaves a connection that
      waits for the next one, and is kept alive if it was or one of the requests asks for it. */
  lemma {:induction false} ChainIsAnswered(c: Conn, net: string, plan: Plan, turn: nat,
                                           qs: seq<X.Call>, fillers: string)
    requires X.Waiting(c) && c.link == Connected && qs != [] && |fillers| == |qs| - 1
    requires c.inBuf + net == Chain(qs, fillers) && |c.inBuf| + |net| < NPOS
    requires X.ReadsAll(plan(turn), net) && AllAnswerable(qs, plan, turn)
    ensures var r, rounds := HandleRead(c, net, plan, turn), Rounds(c, net, plan, turn);
            && r.Ran? && !r.conn.error && r.net == "" && r.turn == turn + |qs| - 1
            && X.Waiting(r.conn) && r.conn.link == Connected && r.conn.inBuf == ""
            && |rounds| == |qs| && Answers(rounds) == AnswersTo(qs, plan, turn)
            && r.conn.keepAlive == (c.keepAlive || SomeKeepsAlive(qs))
    decreases |qs|
  {
    hide KeepsAlive, SomeKeepsAlive, Answers, AnswersTo, Chain;
    SomeKeepsAliveInFront(qs);
    NobodyKeepsAlive();
    FirstAnswer(qs, plan, turn);
    hide Block, RoundOf, Flush, Reset, HandleRead, X.Print, X.Waiting, X.CallOk, X.Answerable, AnswerTo, Rounds;
    hide AllAnswerable, Steady;
    var t := plan(turn);
    WaitingIsSteady(c);
    FirstAndOthers(qs, plan, turn);
    if |qs| == 1 {
      ChainOfOne(qs, fillers);
      X.PrintIsLonger(qs[0], "");
      var d := RequestRound(c, t, net, qs[0], "");
      RoundGoesOn(c, net, plan, turn, d);
      WaitingIsSteady(Reset(Flush(d, t)));
      OneRound(RoundOf(c, t, net));
      assert qs[1..] == [];
    } else {
      var rest := Chain(qs[1..], fillers[1..]);
      ChainIsLonger(qs, fillers);
      var d := RequestRound(c, t, net, qs[0], [fillers[0]] + rest);
      RoundGoesOn(c, net, plan, turn, d);
      var f := Reset(Flush(d, t));
      WaitingIsSteady(f);
      assert f.inBuf + "" == rest;
      FirstAndOthers(qs[1..], plan, turn + 1);
      ChainIsAnswered(f, "", plan, turn + 1, qs[1..], fillers[1..]);
      AnswersInFront(RoundOf(c, t, net), Rounds(f, "", plan, turn + 1));
    }
  }

  /** Their answers go out, or wait to, in that order and completely, if and only if no call answered the page
      "hello" over unsent output. */
  lemma ChainIsSentIff(c: Conn, net: string, plan: Plan, turn: nat, qs: seq<X.Call>, fillers: string)
    requires X.Waiting(c) && c.link == Connected && qs != [] && |fillers| == |qs| - 1
    requires c.inBuf + net == Chain(qs, fillers) && |c.inBuf| + |net| < NPOS
    requires X.ReadsAll(plan(turn), net) && AllAnswerable(qs, plan, turn)
    ensures var r, rounds := HandleRead(c, net, plan, turn), Rounds(c, net, plan, turn);
            && r.Ran?
            && (Sent(rounds) + r.conn.outBuf == c.outBuf + AnswersTo(qs, plan, turn)
                <==> forall k :: 0 <= k < |rounds| ==> rounds[k].lost == 0)
  {
    hide HandleRead, Rounds, Chain, AnswersTo, AllAnswerable;
    WaitingIsSteady(c);
    ChainIsAnswered(c, net, plan, turn, qs, fillers);
    StreamIsKeptIff(c, net, plan, turn);
  }

  lemma AnswersInFront(first: Round, rest: seq<Round>)
    ensures Answers([first] + rest) == first.answer + Answers(rest)
  {
    assert ([first] + rest)[1..] == rest;
  }

  // ---------------------------------------------------------------- the failure, reached

  /** A call that answers the page "hello". */
  lemma HelloRound(c: Conn, t: Turn, taken: string, q: X.Call, next: string) returns (d: Conn)
    requires X.Waiting(c) && c.link == Connected && X.IsHello(q)
    requires c.inBuf + taken == X.Print(q, next) && |c.inBuf| + |taken| < NPOS && t.end == Drained && !t.writeFails
    ensures Block(c, t, taken) == Break(d)
    ensures !d.error && d.stage == Finish && d.link == Connected && d.inBuf == X.Behind(next) && d.outBuf == HELLO
    ensures X.Waiting(Reset(d))
    ensures RoundOf(c, t, taken) ==
            Round(HELLO[..Min(t.sent, |HELLO|)], HELLO, |c.outBuf|, HELLO[Min(t.sent, |HELLO|)..], HELLO, false)
  {
    hide ParseSections, AnalysisRequest, X.Print, X.IsHello, X.HasParsed, Block;
    d := X.BlockAnswersHello(c, t, taken, q, next);
    HelloIsAsked(c, t, taken, q, next);
  }

  lemma HelloIsAsked(c: Conn, t: Turn, taken: string, q: X.Call, next: string)
    requires X.Waiting(c) && c.link == Connected && X.IsHello(q)
    requires c.inBuf + taken == X.Print(q, next) && |c.inBuf| + |taken| < NPOS && t.end == Drained
    ensures var asked := Asked(c, t, taken);
            asked.Some? && asked.value.req.fileName == "hello" && asked.value.outBuf == c.outBuf
            && AnswerOf(asked.value, t) == HELLO
  {
    hide ParseSections, AnalysisRequest, X.Print;
    var b := c.(inBuf := c.inBuf + taken);
    X.HelloIsAnswered(b, t, q, next);
    var p := ParseSections(b, t).conn;
    R.OneFile("hello", p.req.fileName, q.target);
    HelloLength(p, t);
  }

  /** The second call, with nothing left in the socket and nothing behind the request. */
  lemma LastHello(f: Conn, plan: Plan, turn: nat, r: X.Call)
    requires X.Waiting(f) && f.link == Connected && X.IsHello(r) && f.inBuf == X.Print(r, "") && |f.inBuf| < NPOS
    requires plan(turn).end == Drained && !plan(turn).writeFails
    ensures var result := HandleRead(f, "", plan, turn);
            result.Ran? && !result.conn.error && result.conn.outBuf == HELLO[Min(plan(turn).sent, |HELLO|)..]
    ensures Rounds(f, "", plan, turn) == [Round(HELLO[..Min(plan(turn).sent, |HELLO|)], HELLO, |f.outBuf|,
                                                  HELLO[Min(plan(turn).sent, |HELLO|)..], HELLO, false)]
  {
    hide Block, RoundOf, X.Print, X.IsHello;
    var t := plan(turn);
    assert f.inBuf + "" == f.inBuf && ""[..TakenBytes(t, "")] == "";
    var d := HelloRound(f, t, "", r, "");
    BlockKeeps(f, t, "");
  }

  /** It can happen: a request for that page, one more byte, and a second one, while the first answer has
      gone out only in part.  What was still unsent of it is never sent. */
  lemma SecondHelloOverwrites(c: Conn, net: string, plan: Plan, turn: nat, q: X.Call, filler: char, r: X.Call)
    requires X.Waiting(c) && c.link == Connected && c.inBuf == "" && c.outBuf == "" && X.IsHello(q) && X.IsHello(r)
    requires net == X.Print(q, [filler] + X.Print(r, "")) && |net| < NPOS && X.ReadsAll(plan(turn), net)
    requires plan(turn).sent < |HELLO| && plan(turn + 1).end == Drained && !plan(turn + 1).writeFails
    ensures var result, rounds := HandleRead(c, net, plan, turn), Rounds(c, net, plan, turn);
            && result.Ran? && !result.conn.error
            && result.conn.outBuf == HELLO[Min(plan(turn + 1).sent, |HELLO|)..]
            && Lost(rounds) == |HELLO| - plan(turn).sent
            && Sent(rounds) + result.conn.outBuf != c.outBuf + Answers(rounds)
  {
    hide Block, RoundOf, HandleRead, X.Print, X.IsHello, Answers, Sent;
    var t, next := plan(turn), [filler] + X.Print(r, "");
    assert c.inBuf + net == net && net[..TakenBytes(t, net)] == net && net[TakenBytes(t, net)..] == "";
    assert X.Behind(next) == X.Print(r, "");
    var d := HelloRound(c, t, net, q, next);
    AgainIsHandleRead(c, net, plan, turn);
    SecondIsShort(q, filler, r);
    var f := Reset(Flush(d, t));
    assert Again(c, t, net) == Some(f) && f.outBuf == HELLO[t.sent..];
    LastHello(f, plan, turn + 1, r);
    var rounds := Rounds(c, net, plan, turn);
    assert rounds == [RoundOf(c, t, net)] + Rounds(f, "", plan, turn + 1);
    assert rounds == [rounds[0]] + [rounds[1]];
    LostInTwo(rounds[0], rounds[1]);
    StreamIsKeptIff(c, net, plan, turn);
    assert rounds[1].lost > 0;
  }

  lemma LostInTwo(a: Round, b: Round)
    ensures Lost([a] + [b]) == a.lost + b.lost
  {
    assert ([a] + [b])[1..] == [b];
    OneRound(b);
  }

  lemma SecondIsShort(q: X.Call, filler: char, r: X.Call)
    ensures 0 < |X.Print(r, "")| < |X.Print(q, [filler] + X.Print(r, ""))|
  {
    X.PrintIsLonger(q, [filler] + X.Print(r, ""));
    X.PrintIsLonger(r, "");
  }

  // ---------------------------------------------------------------- left behind with nothing to send

  /** The call that finds the end of the stream, sends all that was unsent, and has nothing to parse. */
  lemma EndIsFound(f: Conn, plan: Plan, turn: nat)
    requires X.Waiting(f) && f.link == Connected && |f.inBuf| < NPOS && f.outBuf != ""
    requires plan(turn).end == Eof && !plan(turn).writeFails && plan(turn).sent >= |f.outBuf|
    ensures var r := HandleRead(f, "", plan, turn);
            r == Ran(f.(link := Disconnecting, outBuf := "", events := f.events + {IN}), "", turn)
  {
    var t := plan(turn);
    assert ""[..TakenBytes(t, "")] == "" && ""[TakenBytes(t, "")..] == "" && f.inBuf + "" == f.inBuf;
    BlockKeeps(f, t, "");
    assert Block(f, t, "") == Break(f.(link := Disconnecting));
    assert f.outBuf[Min(t.sent, |f.outBuf|)..] == "";
  }

  /** The event of a request and at least two more bytes, whose answer goes out in part, and then the end of the
      stream and the rest of the answer: the connection is left as it is, with nothing to send. */
  lemma LeftWithNothingUnsent(c: Conn, net: string, plan: Plan, q: X.Call, next: string)
    requires X.Waiting(c) && c.link == Connected && c.inBuf == "" && X.IsHello(q)
    requires net == X.Print(q, next) && |net| < NPOS && |next| > 1
    requires X.ReadsAll(plan(0), net) && plan(0).sent < |HELLO|
    requires plan(1).end == Eof && !plan(1).writeFails && plan(1).sent >= |HELLO|
    ensures var r := HandleEvents(c, {IN}, net, plan, 0);
            r.Done? && r.request.Leave? && r.conn.link == Disconnecting && r.conn.outBuf == ""
  {
    hide Block, RoundOf, HandleRead, X.Print, X.IsHello, Rounds, Flush, Reset, X.Waiting;
    var t, b := plan(0), c.(events := {});
    WaitingWithout(c);
    assert b.inBuf + net == net;
    X.PrintIsLonger(q, next);
    var d := HelloRound(b, t, net, q, next);
    RoundGoesOn(b, net, plan, 0, d);
    RoundLeaves(b, t, net);
    FlushKept(d, t);
    ResetEvents(Flush(d, t));
    var f := Reset(Flush(d, t));
    WaitingIsSteady(f);
    assert 0 < |f.outBuf| <= |HELLO|;
    EndIsFound(f, plan, 1);
  }

  lemma WaitingWithout(c: Conn)
    requires X.Waiting(c)
    ensures X.Waiting(c.(events := {})) && Steady(c.(events := {})) && Steady(c)
  {
  }

  lemma ResetEvents(e: Conn)
    ensures Reset(e).outBuf == e.outBuf && Reset(e).events == e.events
  {
  }

  /** It can happen to a new connection.  So a half-closed connection that is abandoned need not even have
      anything to send. */
  lemma AbandonedWithNothingUnsent(net: string, plan: Plan, q: X.Call, next: string, now: nat)
    returns (worlds: seq<W.World>, acts: seq<W.Action>)
    requires X.IsHello(q) && net == X.Print(q, next) && |net| < NPOS && |next| > 1
    requires X.ReadsAll(plan(0), net) && plan(0).sent < |HELLO|
    requires plan(1).end == Eof && !plan(1).writeFails && plan(1).sent >= |HELLO|
    ensures W.IsRun(worlds, acts) && W.Abandoned(worlds[|acts|], 0)
    ensures worlds[|acts|].conns[0].conn.outBuf == ""
  {
    hide HandleEvents, W.Step, W.Inv, Steady;
    var w := X.FirstStep(now);
    var b := X.Arrival(net, plan, now);
    X.NewWaits();
    LeftWithNothingUnsent(X.NEW, net, plan, q, next);
    assert W.Enabled(w, b);
    W.LeaveAbandons(w, b);
    worlds, acts := [W.START, w, W.Step(w, b)], [W.New(0, true, now), b];
  }
}
