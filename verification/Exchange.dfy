/** Requests that arrive on a connection, from their bytes to the state of the connection behind them
    (HttpData.cpp:187-295). */
module Exchange {
  import opened Wrappers
  import opened Text
  import opened Connection
  import R = RequestLine
  import H = HeaderGrammar
  import Q = HttpRequest
  import W = Reactor
  import L = LostByte

  /** A request that the server is meant to understand. */
  datatype Call = Call(mthd: R.Method, target: string, version: R.Version, headers: seq<H.Header>)

  function Print(q: Call, next: string): string {
    Q.PrintRequest(q.mthd, q.target, q.version, q.headers, next)
  }

  predicate CallOk(q: Call) {
    && R.TargetOk(q.target) && !R.NameHidden(q.mthd, q.target)
    && q.headers != [] && H.LinesOk(q.headers)
  }

  /** Every position in its line is positive as an int. */
  predicate Short(q: Call) {
    |R.PrintLine(q.mthd, q.target, q.version)| < 0x8000_0000
  }

  /** A connection that waits for a new request. */
  predicate Waiting(c: Conn) {
    Steady(c) && c.stage == ParseUri && c.headers == map[]
  }

  function Behind(next: string): string {
    if next == "" then "" else next[1..]
  }

  /** d is c when the request q has been parsed and `rest` is still in the buffer. */
  predicate HasParsed(c: Conn, d: Conn, q: Call, rest: string) {
    && d == c.(inBuf := rest, req := d.req, hState := H.EndLf, headers := H.Merge(map[], q.headers),
               stage := if q.mthd == R.Post then RecvBody else Analysis)
    && d.req.mthd == q.mthd && d.req.version == q.version && R.IsFileOf(d.req.fileName, q.target)
  }

  /** A complete request is parsed in one go, into its method, file, version and last-wins header map;
      of what follows it the first byte is lost. */
  lemma CallIsParsed(c: Conn, t: Turn, q: Call, next: string)
    requires Waiting(c) && CallOk(q) && c.inBuf == Print(q, next) && |c.inBuf| < NPOS
    ensures var s := ParseSections(c, t); s.Go? && HasParsed(c, s.conn, q, Behind(next))
  {
    hide R.ParseUri, H.After, H.LastGood, R.IsFileOf, R.TargetOk, R.NameHidden, R.PrintLine, H.LinesOk;
    Q.RequestRoundTrip(c.req, q.mthd, q.target, q.version, q.headers, next);
  }

  // ---------------------------------------------------------------- pipelined requests

  /** The whole of net is read at once, and nothing fails. */
  predicate ReadsAll(t: Turn, net: string) {
    t.take >= |net| && t.end == Drained && !t.writeFails
  }

  /** The server has an answer to the request: no POST, and one of the two built-in pages or a file. */
  predicate Answerable(q: Call, t: Turn) {
    && q.mthd != R.Post
    && (R.IsFileOf("hello", q.target) || R.IsFileOf("favicon.ico", q.target)
        || t.disk.File? || (q.mthd == R.Head && t.disk == Unreadable))
  }

  lemma AnswerIsGivenIff(c: Conn, d: Conn, t: Turn, q: Call, rest: string)
    requires HasParsed(c, d, q, rest)
    ensures AnalysisRequest(d, t).1 <==> Answerable(q, t)
  {
    if R.IsFileOf("hello", q.target) {
      R.OneFile("hello", d.req.fileName, q.target);
    }
    if R.IsFileOf("favicon.ico", q.target) {
      R.OneFile("favicon.ico", d.req.fileName, q.target);
    }
  }

  lemma AnswerTouches(c: Conn, t: Turn)
    requires !c.error && !t.writeFails
    ensures var d := AnalysisRequest(c, t).0; d == c.(outBuf := d.outBuf, keepAlive := d.keepAlive)
    ensures var e := Flush(c, t); e == c.(outBuf := e.outBuf, events := e.events)
  {
  }

  /** The block of handleRead on a request that is parsed and has an answer: it is finished, with the rest
      still in the buffer. */
  lemma BlockAnswers(c: Conn, t: Turn, taken: string, q: Call, rest: string) returns (d: Conn)
    requires Waiting(c) && c.link == Connected && |c.inBuf| + |taken| < NPOS
    requires t.end == Drained && !t.writeFails && Answerable(q, t)
    ensures var b := c.(inBuf := c.inBuf + taken); var s := ParseSections(b, t);
            s.Go? && HasParsed(b, s.conn, q, rest) ==> Block(c, t, taken) == Break(d)
    ensures !d.error && d.stage == Finish && d.link == Connected && d.inBuf == rest
  {
    hide ParseSections, AnalysisRequest, HasParsed;
    var b := c.(inBuf := c.inBuf + taken);
    var p := ParseSections(b, t);
    if p.Go? && HasParsed(b, p.conn, q, rest) {
      WhatIsParsed(b, p.conn, q, rest);
      AnswerIsGivenIff(b, p.conn, t, q, rest);
      AnswerTouches(p.conn, t);
      d := AnalysisRequest(p.conn, t).0.(stage := Finish);
    } else {
      d := c.(inBuf := rest, stage := Finish);
    }
  }

  lemma WhatIsParsed(c: Conn, d: Conn, q: Call, rest: string)
    requires HasParsed(c, d, q, rest)
    ensures d.inBuf == rest && d.error == c.error && d.link == c.link && (q.mthd != R.Post ==> d.stage == Analysis)
    ensures d.outBuf == c.outBuf && d.req.mthd == q.mthd
  {
  }

  lemma FinishGoesOn(c: Conn, net: string, plan: Plan, turn: nat, d: Conn) returns (f: Conn)
    requires Steady(c) && |c.inBuf| + |net| < NPOS && ReadsAll(plan(turn), net)
    requires !d.error && d.stage == Finish && d.link == Connected && d.inBuf != "" && |d.inBuf| < NPOS
    ensures Waiting(f) && f.link == Connected && f.inBuf == d.inBuf
    ensures Block(c, plan(turn), net) == Break(d) ==>
              HandleRead(c, net, plan, turn) == HandleRead(f, "", plan, turn + 1)
  {
    hide Block, Flush;
    assert Min(plan(turn).take, |net|) == |net| && net[..|net|] == net && net[|net|..] == "";
    BlockKeeps(c, plan(turn), net);
    AnswerTouches(d, plan(turn));
    f := Reset(Flush(d, plan(turn)));
  }

  lemma PrintIsLonger(q: Call, next: string)
    ensures |next| < |Print(q, next)|
  {
  }

  /** An answered request, wherever in buffer and socket it stands, leaves a connection that waits for the next
      one, with the rest of the buffer, and handleRead goes on with it. */
  lemma NextIsRead(c: Conn, net: string, plan: Plan, turn: nat, q: Call, next: string) returns (f: Conn)
    requires Waiting(c) && c.link == Connected && CallOk(q) && c.inBuf + net == Print(q, next)
    requires |c.inBuf| + |net| < NPOS && |next| > 1
    requires ReadsAll(plan(turn), net) && Answerable(q, plan(turn))
    ensures Waiting(f) && f.link == Connected && f.inBuf == Behind(next)
    ensures HandleRead(c, net, plan, turn) == HandleRead(f, "", plan, turn + 1)
  {
    hide Block, HandleRead, CallOk, ParseSections, HasParsed, Print;
    PrintIsLonger(q, next);
    CallIsParsed(c.(inBuf := c.inBuf + net), plan(turn), q, next);
    var d := BlockAnswers(c, plan(turn), net, q, Behind(next));
    f := FinishGoesOn(c, net, plan, turn, d);
  }

  /** The request that r is taken for when its first byte is missing, if any. */
  function Misread(r: Call): Option<Call>
    requires |r.target| < NPOS
  {
    match L.TakenFor(r.target)
    case None => None
    case Some((mthd, target)) => Some(r.(mthd := mthd, target := target))
  }

  /** A target that begins with GET and a slash is taken for what is behind them. */
  lemma MisreadOfGet(r: Call, x: string)
    requires r.target == "GET/" + x && |r.target| < 0x8000_0000
    ensures Misread(r) == Some(r.(mthd := R.Get, target := x))
  {
    L.TakenForGet(x);
  }

  lemma TargetIsShort(r: Call)
    requires Short(r)
    ensures |r.target| < 0x8000_0000
  {
  }

  lemma BeheadedText(r: Call, next: string) returns (rest: string)
    requires CallOk(r)
    ensures |Print(r, next)| > 1 && rest == "\n" + H.Lines(r.headers) + "\r\n" + next
    ensures Print(r, next)[1..] == R.PrintLine(r.mthd, r.target, r.version)[1..] + "\r" + rest
    ensures |R.PrintLine(r.mthd, r.target, r.version)| + 1 + |rest| == |Print(r, next)|
  {
    var line := R.PrintLine(r.mthd, r.target, r.version);
    rest := "\n" + H.Lines(r.headers) + "\r\n" + next;
    assert |line| > 1;
    assert Print(r, next) == line + "\r" + rest;
  }

  /** A waiting connection that finds a request without its first byte refuses it, or takes it for another
      one. */
  lemma BeheadedIsMisread(f: Conn, t: Turn, r: Call, next: string)
    requires Waiting(f) && CallOk(r) && Short(r) && |Print(r, next)| < NPOS && f.inBuf == Behind(Print(r, next))
    ensures |r.target| < NPOS && |f.inBuf| < NPOS
    ensures var s := ParseSections(f, t);
            match Misread(r)
            case None => s.Break? && s.conn.error && R.ParseUri(f.req, f.inBuf).verdict == R.Error
            case Some(x) => s.Go? && HasParsed(f, s.conn, x, Behind(next))
  {
    hide R.ParseUri, H.After, H.LastGood, R.IsFileOf, R.NameHidden, R.PrintLine, L.TakenFor;
    TargetIsShort(r);
    var rest := BeheadedText(r, next);
    L.BeheadedIff(f.req, r.mthd, r.target, r.version, rest);
    BlockIsFound(r.headers, next, rest);
  }

  lemma BlockIsFound(headers: seq<H.Header>, next: string, rest: string)
    requires headers != [] && H.LinesOk(headers) && rest == "\n" + H.Lines(headers) + "\r\n" + next
    ensures var o := H.Parse(rest);
            o.Success? && o.scan.lines == headers && o.scan.known && o.scan.h == H.EndLf && o.rest == Behind(next)
  {
    H.BlockIsRead("\n", headers, next);
    assert H.Render("\n", headers) + next == rest;
  }

  lemma RefusedAtOnce(c: Conn, plan: Plan, turn: nat)
    requires Waiting(c) && c.link == Connected && |c.inBuf| < NPOS && plan(turn).end == Drained
    requires R.ParseUri(c.req, c.inBuf).verdict == R.Error
    ensures var r := HandleRead(c, "", plan, turn); r.Ran? && r.conn.error && r.turn == turn
  {
    hide R.ParseUri;
    assert c.inBuf + "" == c.inBuf && ""[..0] == "";
    BlockKeeps(c, plan(turn), "");
  }

  /** Two requests sent one right after the other: the first is answered and the second has lost its first
      byte.  It is refused if and only if it cannot be taken for another request: its target names no method
      with a slash at or behind the name.  Otherwise that other request is parsed in its place. */
  lemma PipelinedIsRefused(c: Conn, net: string, plan: Plan, turn: nat, q: Call, r: Call, next: string)
    returns (f: Conn)
    requires Waiting(c) && c.link == Connected && c.inBuf == "" && CallOk(q) && CallOk(r)
    requires net == Print(q, Print(r, next)) && |net| < NPOS && Short(r)
    requires ReadsAll(plan(turn), net) && Answerable(q, plan(turn)) && plan(turn + 1).end == Drained
    ensures |r.target| < NPOS && |f.inBuf| < NPOS && Waiting(f) && f.link == Connected
    ensures HandleRead(c, net, plan, turn) == HandleRead(f, "", plan, turn + 1)
    ensures var result := HandleRead(c, net, plan, turn);
            match Misread(r)
            case None => result.Ran? && result.conn.error && result.turn == turn + 1
            case Some(x) =>
              var s := ParseSections(f, plan(turn + 1)); s.Go? && HasParsed(f, s.conn, x, Behind(next))
  {
    hide HandleRead, CallOk, R.ParseUri, ParseSections, HasParsed, Misread;
    assert |Print(r, next)| <= |net|;
    var _ := BeheadedText(r, next);
    assert c.inBuf + net == net;
    f := NextIsRead(c, net, plan, turn, q, Print(r, next));
    BeheadedIsMisread(f, plan(turn + 1), r, next);
    if Misread(r).None? {
      RefusedAtOnce(f, plan, turn + 1);
    }
  }

  lemma FinishEnds(c: Conn, plan: Plan, turn: nat, d: Conn)
    requires Steady(c) && |c.inBuf| < NPOS && plan(turn).end == Drained && !plan(turn).writeFails
    requires !d.error && d.stage == Finish && d.link == Connected && d.inBuf == ""
    ensures Block(c, plan(turn), "") == Break(d) ==>
              var r := HandleRead(c, "", plan, turn); r.Ran? && !r.conn.error && r.turn == turn
  {
    hide Block, Flush;
    assert ""[..0] == "";
    BlockKeeps(c, plan(turn), "");
    AnswerTouches(d, plan(turn));
  }

  /** The same over the whole of handleRead, when nothing follows the second request and what it may be taken
      for has an answer: it ends in an error if and only if the second request can be taken for nothing. */
  lemma PipelinedErrorIff(c: Conn, net: string, plan: Plan, turn: nat, q: Call, r: Call, next: string)
    requires Waiting(c) && c.link == Connected && c.inBuf == "" && CallOk(q) && CallOk(r) && |next| <= 1
    requires net == Print(q, Print(r, next)) && |net| < NPOS && Short(r)
    requires ReadsAll(plan(turn), net) && Answerable(q, plan(turn))
    requires plan(turn + 1).end == Drained && !plan(turn + 1).writeFails
    ensures |r.target| < NPOS
    ensures (Misread(r).Some? ==> Answerable(Misread(r).value, plan(turn + 1))) ==>
              var result := HandleRead(c, net, plan, turn);
              result.Ran? && (result.conn.error <==> Misread(r).None?)
  {
    hide HandleRead, CallOk, ParseSections, HasParsed, Misread, Answerable, Block, Print;
    var f := PipelinedIsRefused(c, net, plan, turn, q, r, next);
    if Misread(r).Some? && Answerable(Misread(r).value, plan(turn + 1)) {
      assert f.inBuf + "" == f.inBuf && f.(inBuf := f.inBuf) == f;
      var d := BlockAnswers(f, plan(turn + 1), "", Misread(r).value, Behind(next));
      FinishEnds(f, plan, turn + 1, d);
    }
  }

  /** One more byte between the two requests, whichever it is, and the second one is complete when its
      turn comes, so that it is parsed like the first. */
  lemma SpacedIsComplete(c: Conn, net: string, plan: Plan, turn: nat, q: Call, filler: char, r: Call, next: string)
    returns (f: Conn)
    requires Waiting(c) && c.link == Connected && CallOk(q) && CallOk(r)
    requires c.inBuf + net == Print(q, [filler] + Print(r, next)) && |c.inBuf| + |net| < NPOS
    requires ReadsAll(plan(turn), net) && Answerable(q, plan(turn))
    ensures Waiting(f) && f.link == Connected && f.inBuf == Print(r, next)
    ensures HandleRead(c, net, plan, turn) == HandleRead(f, "", plan, turn + 1)
  {
    hide HandleRead, CallOk;
    assert Behind([filler] + Print(r, next)) == Print(r, next);
    f := NextIsRead(c, net, plan, turn, q, [filler] + Print(r, next));
  }

  // ---------------------------------------------------------------- a peer that has closed its side

  /** A new connection as the loop registers it. */
  const NEW := FRESH.(events := DEFAULT_EVENT, linked := true)

  /** A GET for the page "hello", which needs no file. */
  predicate IsHello(q: Call) {
    CallOk(q) && q.mthd == R.Get && R.IsFileOf("hello", q.target)
  }

  /** All of net is read, then the end of the stream; the answer goes out only in part. */
  predicate ReadsToEnd(t: Turn, net: string) {
    t.take >= |net| && t.end == Eof && !t.writeFails && t.sent < |HELLO|
  }

  lemma HelloIsAnswered(c: Conn, t: Turn, q: Call, next: string)
    requires Waiting(c) && IsHello(q) && c.inBuf == Print(q, next) && |c.inBuf| < NPOS
    ensures var p := ParseSections(c, t);
            && p.Go? && HasParsed(c, p.conn, q, Behind(next)) && p.conn.stage == Analysis && !p.conn.error
            && AnalysisRequest(p.conn, t).1 && AnalysisRequest(p.conn, t).0.outBuf == HELLO
  {
    hide ParseSections, R.IsFileOf;
    CallIsParsed(c, t, q, next);
    R.OneFile("hello", ParseSections(c, t).conn.req.fileName, q.target);
  }

  /** The block of handleRead on such a request, when the stream ends behind it. */
  lemma BlockAnswersLast(c: Conn, t: Turn, net: string, q: Call)
    requires Waiting(c) && c.link == Connected && c.inBuf == "" && IsHello(q) && net == Print(q, "") && |net| < NPOS
    requires ReadsToEnd(t, net)
    ensures var b := Block(c, t, net);
            && b.Break? && !b.conn.error && b.conn.stage == Finish && b.conn.link == Disconnecting
            && b.conn.inBuf == "" && b.conn.outBuf == HELLO && b.conn.events == c.events
  {
    hide ParseSections, AnalysisRequest, Steady;
    assert c.inBuf + net == net;
    var d := c.(inBuf := net, link := Disconnecting);
    assert c.(inBuf := c.inBuf + net).(link := Disconnecting) == d;
    assert net != "";
    WaitingLast(c, d);
    HelloIsAnswered(d, t, q, "");
    AnswerTouches(ParseSections(d, t).conn, t);
  }

  lemma WaitingLast(c: Conn, d: Conn)
    requires Waiting(c) && d.link == Disconnecting && d == c.(inBuf := d.inBuf, link := d.link)
    ensures Waiting(d)
  {
  }

  /** The event of such a request, on any waiting connection: it is left as it is, half closed, with unsent
      output. */
  lemma HalfClosedIsLeft(c: Conn, net: string, plan: Plan, q: Call)
    requires Waiting(c) && c.link == Connected && c.inBuf == ""
    requires IsHello(q) && net == Print(q, "") && |net| < NPOS && ReadsToEnd(plan(0), net)
    ensures var r := HandleEvents(c, {IN}, net, plan, 0);
            && r.Done? && r.request.Leave?
            && r.conn.link == Disconnecting && r.conn.outBuf == HELLO[plan(0).sent..] && r.conn.outBuf != ""
  {
    hide Block;
    var t, d := plan(0), c.(events := {});
    BlockAnswersLast(d, t, net, q);
    assert Min(t.take, |net|) == |net| && net[..|net|] == net && net[|net|..] == "";
    BlockKeeps(d, t, net);
  }

  /** All of net is read, no end of stream yet, and the whole answer goes out. */
  predicate SendsAll(t: Turn, net: string) {
    ReadsAll(t, net) && t.sent >= |HELLO|
  }

  lemma BlockAnswersHello(c: Conn, t: Turn, taken: string, q: Call, next: string) returns (d: Conn)
    requires Waiting(c) && c.link == Connected && IsHello(q)
    requires c.inBuf + taken == Print(q, next) && |c.inBuf| + |taken| < NPOS && t.end == Drained
    ensures Block(c, t, taken) == Break(d)
    ensures !d.error && d.stage == Finish && d.link == Connected && d.inBuf == Behind(next) && d.outBuf == HELLO
    ensures d.events == c.events && Waiting(Reset(d))
  {
    hide ParseSections, AnalysisRequest;
    var b := c.(inBuf := c.inBuf + taken);
    HelloIsAnswered(b, t, q, next);
    var p := ParseSections(b, t).conn;
    AnalysisTouches(p, t);
    d := AnalysisRequest(p, t).0.(stage := Finish);
  }

  /** A request of that page that is answered completely: the connection waits for the next one, registered
      for reading. */
  lemma HelloIsServed(c: Conn, net: string, plan: Plan, q: Call)
    requires Waiting(c) && c.link == Connected && c.inBuf == ""
    requires IsHello(q) && net == Print(q, "") && |net| < NPOS && SendsAll(plan(0), net)
    ensures var r := HandleEvents(c, {IN}, net, plan, 0);
            && r.Done? && r.request.Update?
            && Waiting(r.conn) && r.conn.link == Connected && r.conn.inBuf == "" && r.conn.outBuf == "" && !r.conn.error
            && r.conn.events == READ_EVENT
  {
    hide Block;
    var t, b := plan(0), c.(events := {});
    assert b.inBuf + net == net;
    var d := BlockAnswersHello(b, t, net, q, "");
    assert Min(t.take, |net|) == |net| && net[..|net|] == net && net[|net|..] == "";
    assert Min(t.sent, |HELLO|) == |HELLO| && HELLO[|HELLO|..] == "";
    BlockKeeps(b, t, net);
  }

  // ---------------------------------------------------------------- the runs that lead there

  /** The event of a request on connection 0. */
  function Arrival(net: string, plan: Plan, now: nat): W.Action {
    W.Event(0, {IN}, net, plan, true, now)
  }

  lemma NewWaits()
    ensures Waiting(NEW) && NEW.link == Connected && NEW.inBuf == ""
  {
  }

  lemma FirstStep(now: nat) returns (w: W.World)
    ensures W.IsRun([W.START, w], [W.New(0, true, now)]) && W.Inv(w)
    ensures 0 in w.conns && w.conns[0].conn == NEW && w.conns[0].last == DEFAULT_EVENT && 0 in w.chan
    ensures 0 in w.kernel && w.kernel[0] == W.Reg(DEFAULT_EVENT, true)
  {
    var a := W.New(0, true, now);
    assert W.Enabled(W.START, a);
    w := W.Step(W.START, a);
    W.NewKeeps(W.START, 0, true, now);
  }

  /** It can happen: a new connection sends one request and closes its side while the answer is still
      being sent.  Its registration is spent, no timer holds it, and output is unsent. */
  lemma AbandonedIsReachable(net: string, plan: Plan, q: Call, now: nat)
    returns (worlds: seq<W.World>, acts: seq<W.Action>)
    requires IsHello(q) && net == Print(q, "") && |net| < NPOS && ReadsToEnd(plan(0), net)
    ensures W.IsRun(worlds, acts) && W.Abandoned(worlds[|acts|], 0)
    ensures !worlds[|acts|].kernel[0].armed && worlds[|acts|].conns[0].conn.outBuf != ""
  {
    hide HandleEvents, W.Step, W.Inv, Steady;
    var w := FirstStep(now);
    var b := Arrival(net, plan, now);
    NewWaits();
    HalfClosedIsLeft(NEW, net, plan, q);
    assert W.Enabled(w, b);
    W.LeaveAbandons(w, b);
    worlds, acts := [W.START, w, W.Step(w, b)], [W.New(0, true, now), b];
  }

  /** A served request as a step of a run. */
  lemma ServedStep(w: W.World, net: string, plan: Plan, q: Call, now: nat)
    requires W.Inv(w) && 0 in w.conns && 0 in w.chan && 0 in w.kernel && w.kernel[0] == W.Reg(DEFAULT_EVENT, true)
    requires w.conns[0].conn == NEW
    requires IsHello(q) && net == Print(q, "") && |net| < NPOS && SendsAll(plan(0), net)
    ensures W.Enabled(w, Arrival(net, plan, now))
    ensures var u := W.Step(w, Arrival(net, plan, now));
            && W.Inv(u) && 0 in u.conns && 0 in u.chan && 0 in u.kernel && u.kernel[0] == W.Reg(READ_EVENT, true)
            && Waiting(u.conns[0].conn) && u.conns[0].conn.link == Connected && u.conns[0].conn.inBuf == ""
            && u.conns[0].last == READ_EVENT
  {
    hide HandleEvents, W.Detach, W.Inv, Steady, W.Step, W.AddTimer;
    var b := Arrival(net, plan, now);
    NewWaits();
    HelloIsServed(NEW, net, plan, q);
    assert W.Enabled(w, b);
    W.StepKeepsInv(w, b);
    W.ArmedAfterHandleConn(w, b);
    ServedEntry(w, b);
    StillWaits(HandleEvents(NEW, b.revents, b.net, b.plan, 0).conn);
  }

  lemma StillWaits(c: Conn)
    requires Waiting(c)
    ensures Waiting(c.(linked := true))
  {
  }

  lemma ServedEntry(w: W.World, b: W.Action)
    requires W.Inv(w) && b.Event? && b.ok && W.Enabled(w, b) && b.id in w.chan && b.id in w.conns
    requires HandleEvents(w.conns[b.id].conn, b.revents, b.net, b.plan, 0).Done?
    requires HandleEvents(w.conns[b.id].conn, b.revents, b.net, b.plan, 0).request.Update?
    ensures var c := HandleEvents(w.conns[b.id].conn, b.revents, b.net, b.plan, 0).conn; var u := W.Step(w, b);
            b.id in u.conns && u.conns[b.id].conn == c.(linked := true) && u.conns[b.id].last == c.events
  {
    hide HandleEvents;
    W.HandledAfter(w, b);
  }

  /** And it can happen later: a second request, behind one that was answered completely, and then the end
      of the stream.  The registration is armed, but for reading only. */
  lemma AbandonedLaterIsReachable(net: string, plan: Plan, q: Call, net2: string, plan2: Plan, q2: Call, now: nat)
    returns (worlds: seq<W.World>, acts: seq<W.Action>)
    requires IsHello(q) && net == Print(q, "") && |net| < NPOS && SendsAll(plan(0), net)
    requires IsHello(q2) && net2 == Print(q2, "") && |net2| < NPOS && ReadsToEnd(plan2(0), net2)
    ensures W.IsRun(worlds, acts) && W.Abandoned(worlds[|acts|], 0)
    ensures worlds[|acts|].kernel[0] == W.Reg(READ_EVENT, true) && worlds[|acts|].conns[0].conn.outBuf != ""
  {
    hide HandleEvents, W.Step, W.Inv, Steady;
    var w := FirstStep(now);
    var b := Arrival(net, plan, now);
    NewWaits();
    ServedStep(w, net, plan, q, now);
    var u := W.Step(w, b);
    var x := Arrival(net2, plan2, now);
    HalfClosedIsLeft(u.conns[0].conn, net2, plan2, q2);
    assert W.Enabled(u, x);
    W.LeaveAbandons(u, x);
    worlds, acts := [W.START, w, u, W.Step(u, x)], [W.New(0, true, now), b, x];
  }
}
