/** One connection: the handlers of HttpData.cpp as functions of its state and of what the socket
    and the disk do. */
module Connection {
  import opened Wrappers
  import opened Text
  import R = RequestLine
  import H = HeaderGrammar

  // ---------------------------------------------------------------- state

  datatype Flag = IN | OUT | ET | ONESHOT | PRI | RDHUP | HUP | ERR

  type Mask = set<Flag>

  const DEFAULT_EVENT: Mask := {IN, ET, ONESHOT}
  const READ_EVENT: Mask := {IN, ET}
  const WRITE_EVENT: Mask := {OUT, ET}
  const DEFAULT_EXPIRED_TIME := 2000
  const DEFAULT_KEEP_ALIVE_TIME := 5 * 60 * 1000

  datatype Link = Connected | Disconnecting | Disconnected

  datatype Stage = ParseUri | ParseHeaders | RecvBody | Analysis | Finish

  type Headers = map<string, string>

  /** The fields of HttpData, with the event mask of its channel.  linked says that timer_ leads to
      a timer node.  The path and the read position are never used and left out. */
  datatype Conn = Conn(inBuf: string, outBuf: string, error: bool, link: Link, req: R.Request, stage: Stage,
                       hState: H.HState, headers: Headers, keepAlive: bool, events: Mask, linked: bool)

  /** A connection object as its constructor makes it. */
  const FRESH := Conn("", "", false, Connected, R.Request(R.Get, "", R.Http11), ParseUri, H.Start,
                     map[], false, {}, false)

  // ---------------------------------------------------------------- the surroundings

  /** How readn stops: no more data for now, end of stream, or an error. */
  datatype ReadEnd = Drained | Eof | Failed

  /** What a file name leads to: no such file, a file that cannot be mapped, or its contents. */
  datatype Disk = Missing | Unreadable | File(contents: string)

  /** What the surroundings do during one call of handleRead: the number of bytes that readn gets
      and how it stops, what a write takes or whether it fails, the header map that an extraction
      outside the buffer leaves behind, the file, and the text of the response header. */
  datatype Turn = Turn(take: nat, end: ReadEnd, sent: nat, writeFails: bool, garbled: Headers,
                       disk: Disk, reply: string)

  type Plan = nat -> Turn

  function Min(a: nat, b: nat): nat {
    if a < b then a else b
  }

  // ---------------------------------------------------------------- stoi

  predicate IsDigit(c: char) {
    '0' <= c <= '9'
  }

  function Digits(s: string, value: nat): nat {
    if s == "" || !IsDigit(s[0]) then value
    else Digits(s[1..], 10 * value + (s[0] as int - '0' as int))
  }

  predicate IsSpace(c: char) {
    c == ' ' || '\t' <= c <= '\r'
  }

  function SkipSpace(s: string): string {
    if s != "" && IsSpace(s[0]) then SkipSpace(s[1..]) else s
  }

  /** std::stoi; None is one of its two exceptions. */
  function Stoi(s: string): Option<int> {
    var t := SkipSpace(s);
    var signed := t != "" && (t[0] == '-' || t[0] == '+');
    var d := if signed then t[1..] else t;
    if d == "" || !IsDigit(d[0]) then None
    else
      var n := Digits(d, 0);
      var v := if signed && t[0] == '-' then 0 - n else n;
      if -0x8000_0000 <= v <= 0x7fff_ffff then Some(v) else None
  }

  // ---------------------------------------------------------------- handlers

  /** handleWrite (HttpData.cpp:297-309); a failing write leaves the buffer as it was, and without output
      nothing is written (Util.cpp:118-124). */
  function HandleWrite(c: Conn, sent: nat, fails: bool): Conn {
    if c.error || c.link == Disconnected then c
    else
      var d := if fails && c.outBuf != "" then c.(events := {}, error := true)
               else c.(outBuf := c.outBuf[Min(sent, |c.outBuf|)..]);
      if d.outBuf != "" then d.(events := d.events + {OUT}) else d
  }

  /** reset (HttpData.cpp:129-141). */
  function Reset(c: Conn): Conn {
    c.(req := c.req.(fileName := ""), stage := ParseUri, hState := H.Start, headers := map[], linked := false)
  }

  const HELLO := "HTTP/1.1 200 OK\r\nContent-type: text/plain\r\n\r\nHello World"

  predicate WantsKeepAlive(headers: Headers) {
    "Connection" in headers && (headers["Connection"] == "Keep-Alive" || headers["Connection"] == "Keep-alive")
  }

  /** analysisRequest (HttpData.cpp:512-590): true is ANALYSIS_SUCCESS. */
  function AnalysisRequest(c: Conn, t: Turn): (Conn, bool) {
    if c.req.mthd == R.Post then (c, false)
    else
      var d := if WantsKeepAlive(c.headers) then c.(keepAlive := true) else c;
      if d.req.fileName == "hello" then (d.(outBuf := HELLO), true)
      else if d.req.fileName == "favicon.ico" then (d.(outBuf := d.outBuf + t.reply), true)
      else if t.disk == Missing then (d, false)
      else if d.req.mthd == R.Head then (d.(outBuf := d.outBuf + t.reply), true)
      else if t.disk == Unreadable then (d.(outBuf := ""), false)
      else (d.(outBuf := d.outBuf + t.reply + t.disk.contents), true)
  }

  /** The answer by itself: what a connection without unsent output would have to send. */
  function AnswerOf(c: Conn, t: Turn): string {
    AnalysisRequest(c.(outBuf := ""), t).0.outBuf
  }

  /** An answer is put behind the output that is still unsent if and only if it is not the page "hello",
      which overwrites that output, or nothing is unsent. */
  lemma PendingOutputKeptIff(c: Conn, t: Turn)
    requires AnalysisRequest(c, t).1
    ensures AnalysisRequest(c, t).0.outBuf == c.outBuf + AnswerOf(c, t)
            <==> c.req.fileName != "hello" || c.outBuf == ""
  {
    if c.req.fileName == "hello" {
      assert |c.outBuf + HELLO| == |c.outBuf| + |HELLO|;
      if c.outBuf == "" {
        assert c.outBuf + HELLO == HELLO;
      }
    } else if c.req.fileName != "favicon.ico" && t.disk.File? && c.req.mthd != R.Head {
      assert c.outBuf + t.reply + t.disk.contents == c.outBuf + (t.reply + t.disk.contents);
      assert "" + t.reply + t.disk.contents == t.reply + t.disk.contents;
    } else {
      assert "" + t.reply == t.reply;
    }
  }

  /** What one section of handleRead does to the connection, and whether it breaks out. */
  datatype Section = Go(conn: Conn) | Break(conn: Conn) | Throw

  function ReadSection(c: Conn, t: Turn, taken: string): Section {
    var d := c.(inBuf := c.inBuf + taken);
    if d.link == Disconnecting then Break(d.(inBuf := ""))
    else if t.end == Failed then Break(d.(error := true))
    else if t.end == Eof then
      var e := d.(link := Disconnecting);
      if taken == "" then Break(e) else Go(e)
    else Go(d)
  }

  function UriSection(c: Conn): Section
    requires |c.inBuf| < NPOS
  {
    if c.stage != ParseUri then Go(c)
    else
      var a := R.ParseUri(c.req, c.inBuf);
      var d := c.(inBuf := a.rest, req := a.req);
      match a.verdict
      case Again => Break(d)
      case Error => Break(d.(inBuf := "", error := true))
      case Success => Go(d.(stage := ParseHeaders))
  }

  /** The header map after a call; an extraction outside the buffer leaves anything. */
  function StoredHeaders(base: Headers, s: H.Scan, garbled: Headers): Headers {
    if s.known then H.Merge(base, s.lines) else garbled
  }

  function HeaderSection(c: Conn, t: Turn): Section {
    if c.stage != ParseHeaders then Go(c)
    else
      match H.ParseFrom(c.hState, c.inBuf)
      case Error(s) => Break(c.(error := true, hState := s.h, headers := StoredHeaders(c.headers, s, t.garbled)))
      case Again(s, rest) => Break(c.(inBuf := rest, hState := s.h, headers := StoredHeaders(c.headers, s, t.garbled)))
      case Success(s, rest) =>
        Go(c.(inBuf := rest, hState := s.h, headers := StoredHeaders(c.headers, s, t.garbled),
              stage := if c.req.mthd == R.Post then RecvBody else Analysis))
  }

  function BodySection(c: Conn): Section {
    if c.stage != RecvBody then Go(c)
    else if "Content-length" !in c.headers then Break(c.(error := true))
    else
      var n := Stoi(c.headers["Content-length"]);
      if n.None? then Throw
      else if ToInt32(|c.inBuf|) < n.value then Break(c)
      else Go(c.(stage := Analysis))
  }

  function AnalysisSection(c: Conn, t: Turn): Section {
    if c.stage != Analysis then Go(c)
    else
      var (d, ok) := AnalysisRequest(c, t);
      if ok then Break(d.(stage := Finish)) else Break(d.(error := true))
  }

  /** The sections up to the header block; no other one takes input. */
  function ParseSections(c: Conn, t: Turn): Section
    requires |c.inBuf| < NPOS
  {
    var s := UriSection(c);
    if s.Go? then HeaderSection(s.conn, t) else s
  }

  function AnswerSections(c: Conn, t: Turn): Section {
    var s := BodySection(c);
    if s.Go? then AnalysisSection(s.conn, t) else s
  }

  /** The do-while(false) block of handleRead (HttpData.cpp:190-277). */
  function Block(c: Conn, t: Turn, taken: string): Section
    requires |c.inBuf| + |taken| < NPOS
  {
    var s := ReadSection(c, t, taken);
    if !s.Go? then s
    else
      var p := ParseSections(s.conn, t);
      if p.Go? then AnswerSections(p.conn, t) else p
  }

  // ---------------------------------------------------------------- between two calls

  /** How a connection looks between two events while it is in order (HttpData.cpp:279-294). */
  predicate Steady(c: Conn) {
    && !c.error && c.link != Disconnected
    && (c.stage == ParseUri || c.stage == ParseHeaders || c.stage == RecvBody)
    && (c.stage == ParseUri ==> c.hState == H.Start)
    && (c.stage == ParseHeaders ==> c.hState != H.EndLf)
    && (c.stage == RecvBody ==> c.req.mthd == R.Post)
  }

  function Rank(s: Stage): nat {
    match s case ParseUri => 0 case ParseHeaders => 1 case RecvBody => 2 case Analysis => 3 case Finish => 4
  }

  /** A header block takes at least one byte out of the buffer, unless its automaton was already
      at its end when the call began. */
  lemma {:induction false} BlockHasLength(h: H.HState, text: string)
    requires h != H.EndLf && H.After(H.Resume(h), text).Some?
    ensures var s := H.After(H.Resume(h), text).value; s.h == H.EndLf ==> s.end > 0
  {
    if text != "" {
      BlockHasLength(h, text[..|text| - 1]);
    }
  }

  lemma HeadersTakeInput(h: H.HState, buf: string)
    requires h != H.EndLf && H.ParseFrom(h, buf).Success?
    ensures |H.ParseFrom(h, buf).rest| < |buf|
  {
    BlockHasLength(h, buf);
    H.PositionsInText(H.Resume(h), buf);
  }

  /** The channel's events and the timer are left alone. */
  predicate SameMask(c: Conn, d: Conn) {
    c.events == d.events && c.linked == d.linked
  }

  lemma UriSectionKeeps(c: Conn)
    requires Steady(c) && |c.inBuf| < NPOS
    ensures var s := UriSection(c);
            && !s.Throw? && |s.conn.inBuf| <= |c.inBuf| && s.conn.link == c.link && SameMask(s.conn, c)
            && (s.Break? ==> s.conn.error)
            && (s.Go? ==> Steady(s.conn) && s.conn.stage != ParseUri && Rank(c.stage) <= Rank(s.conn.stage))
  {
    R.NeverAgain(c.req, c.inBuf);
    R.RestIsNoLonger(c.req, c.inBuf);
  }

  lemma HeaderSectionKeeps(c: Conn, t: Turn)
    requires Steady(c) && c.stage != ParseUri
    ensures var s := HeaderSection(c, t);
            && !s.Throw? && |s.conn.inBuf| <= |c.inBuf| && s.conn.link == c.link && SameMask(s.conn, c)
            && (s.Break? ==> s.conn.error || Steady(s.conn))
            && (s.Go? ==> !s.conn.error && Rank(c.stage) <= Rank(s.conn.stage))
            && (s.Go? ==> if s.conn.req.mthd == R.Post then s.conn.stage == RecvBody
                          else s.conn.stage == Analysis && |s.conn.inBuf| < |c.inBuf|)
  {
    if c.stage == ParseHeaders {
      if H.ParseFrom(c.hState, c.inBuf).Success? {
        HeadersTakeInput(c.hState, c.inBuf);
      }
      H.PositionsInText(H.Resume(c.hState), c.inBuf);
    }
  }

  /** After the parsing sections: nothing was put into the buffer; and when they go on with a request
      that is not a POST, they have taken at least a byte. */
  lemma ParseSectionsKeep(c: Conn, t: Turn)
    requires Steady(c) && |c.inBuf| < NPOS
    ensures var s := ParseSections(c, t);
            && !s.Throw? && |s.conn.inBuf| <= |c.inBuf| && s.conn.link == c.link && SameMask(s.conn, c)
            && (s.Break? ==> s.conn.error || Steady(s.conn))
            && (s.Go? ==> !s.conn.error && Rank(c.stage) <= Rank(s.conn.stage))
            && (s.Go? ==> if s.conn.req.mthd == R.Post then s.conn.stage == RecvBody
                          else s.conn.stage == Analysis && |s.conn.inBuf| < |c.inBuf|)
  {
    UriSectionKeeps(c);
    if UriSection(c).Go? {
      HeaderSectionKeeps(UriSection(c).conn, t);
    }
  }

  lemma AnalysisTouches(c: Conn, t: Turn)
    ensures var (d, ok) := AnalysisRequest(c, t);
            d == c.(outBuf := d.outBuf, keepAlive := d.keepAlive) && (ok ==> c.req.mthd != R.Post)
  {
  }

  /** The answering sections take no input, and finish a request only when it is no POST. */
  lemma AnswerSectionsKeep(c: Conn, t: Turn)
    requires !c.error && c.link != Disconnected
    requires if c.req.mthd == R.Post then c.stage == RecvBody else c.stage == Analysis
    ensures var s := AnswerSections(c, t);
            && !s.Go?
            && (s.Break? ==>
                 s.conn.inBuf == c.inBuf && s.conn.link == c.link && s.conn.req == c.req && SameMask(s.conn, c))
            && (s.Break? && !s.conn.error ==>
                 (s.conn.stage == Finish && c.req.mthd != R.Post) || Steady(s.conn))
  {
    hide AnalysisRequest, Stoi;
    AnalysisTouches(c, t);
    AnalysisTouches(c.(stage := Analysis), t);
  }

  /** What holds behind the do-while block. */
  ghost predicate BlockEnds(c: Conn, taken: string, s: Section) {
    && !s.Go?
    && (s.Break? ==>
         && |s.conn.inBuf| <= |c.inBuf| + |taken|
         && s.conn.link != Disconnected && SameMask(s.conn, c)
         && (!s.conn.error ==> Steady(s.conn) || s.conn.stage == Finish)
         && (!s.conn.error && s.conn.stage == Finish ==>
              s.conn.req.mthd != R.Post && |s.conn.inBuf| < |c.inBuf| + |taken|))
  }

  /** From a connection in order, the block of handleRead leaves it in order, in error, or finished;
      finished only with a GET or HEAD whose header block has taken at least one byte. */
  lemma BlockKeeps(c: Conn, t: Turn, taken: string)
    requires Steady(c) && |c.inBuf| + |taken| < NPOS
    ensures BlockEnds(c, taken, Block(c, t, taken))
  {
    var s := ReadSection(c, t, taken);
    if s.Go? {
      ParseSectionsKeep(s.conn, t);
      var p := ParseSections(s.conn, t);
      if p.Go? {
        AnswerSectionsKeep(p.conn, t);
      }
    }
  }

  // ---------------------------------------------------------------- handleRead

  /** The outcome of handleRead: the connection, the bytes the socket still holds and the number of
      calls made; or an exception of stoi, which ends the process. */
  datatype ReadResult = Ran(conn: Conn, net: string, turn: nat) | Thrown

  /** Pending output is written at once (HttpData.cpp:280-283). */
  function Flush(c: Conn, t: Turn): Conn {
    if c.outBuf != "" then HandleWrite(c, t.sent, t.writeFails) else c
  }

  /** handleRead with its recursion over pipelined requests (HttpData.cpp:187-295).  Every recursive
      call leaves fewer bytes in the socket and the buffer together. */
  function HandleRead(c: Conn, net: string, plan: Plan, turn: nat): ReadResult
    requires Steady(c) && |c.inBuf| + |net| < NPOS
    decreases |net| + |c.inBuf|
  {
    var t := plan(turn);
    var k := Min(t.take, |net|);
    BlockKeeps(c, t, net[..k]);
    match Block(c, t, net[..k])
    case Throw => Thrown
    case Break(d) =>
      if d.error then Ran(d, net[k..], turn)
      else
        var e := Flush(d, t);
        if e.error then Ran(e, net[k..], turn)
        else if e.stage == Finish then
          var f := Reset(e);
          if f.inBuf != "" && f.link != Disconnecting then HandleRead(f, net[k..], plan, turn + 1)
          else Ran(f, net[k..], turn)
        else Ran(e.(events := e.events + {IN}), net[k..], turn)
  }

  /** What handleRead leaves behind. */
  predicate ReadOk(c: Conn) {
    && c.link != Disconnected
    && (!c.error ==> Steady(c))
    && (!c.error && c.outBuf != "" ==> OUT in c.events)
    && c.events <= {IN, OUT}
  }

  lemma FlushKeeps(c: Conn, t: Turn)
    requires !c.error && c.link != Disconnected && c.events <= {IN, OUT}
    ensures var e := Flush(c, t);
            && e.inBuf == c.inBuf && e.link == c.link && e.stage == c.stage && e.req == c.req
            && e.hState == c.hState && e.linked == c.linked && e.events <= {IN, OUT}
            && (!e.error && e.outBuf != "" ==> OUT in e.events)
  {
  }

  /** After handleRead the connection is in error or in order, whatever was pipelined; unsent output
      has asked for EPOLLOUT; and no byte has been invented. */
  lemma {:induction false} HandleReadKeeps(c: Conn, net: string, plan: Plan, turn: nat)
    requires Steady(c) && |c.inBuf| + |net| < NPOS && c.events <= {IN, OUT}
    ensures var r := HandleRead(c, net, plan, turn);
            r.Ran? ==> ReadOk(r.conn) && |r.conn.inBuf| + |r.net| <= |c.inBuf| + |net|
    decreases |net| + |c.inBuf|
  {
    var t := plan(turn);
    var k := Min(t.take, |net|);
    BlockKeeps(c, t, net[..k]);
    var b := Block(c, t, net[..k]);
    if b.Break? && !b.conn.error {
      FlushKeeps(b.conn, t);
      var e := Flush(b.conn, t);
      var f := Reset(e);
      if !e.error && e.stage == Finish && f.inBuf != "" && f.link != Disconnecting {
        HandleReadKeeps(f, net[k..], plan, turn + 1);
      }
    }
  }

  // ---------------------------------------------------------------- handleConn and the dispatch

  /** What handleConn asks of the loop: a new registration with a timeout, nothing, or a close. */
  datatype Request = Update(timeout: nat) | Leave | Close

  /** handleConn (HttpData.cpp:151-185), after the timer was detached. */
  function HandleConn(c: Conn): (Conn, Request) {
    var d := c.(linked := false);
    if !d.error && d.link == Connected then
      if d.events != {} then
        var timeout := if d.keepAlive then DEFAULT_KEEP_ALIVE_TIME else DEFAULT_EXPIRED_TIME;
        var mask := if IN in d.events && OUT in d.events then {OUT} else d.events;
        (d.(events := mask + {ET}), Update(timeout))
      else
        var timeout := if d.keepAlive then DEFAULT_KEEP_ALIVE_TIME else DEFAULT_KEEP_ALIVE_TIME / 2;
        (d.(events := READ_EVENT), Update(timeout))
    else if !d.error && d.link == Disconnecting && OUT in d.events then
      (d.(events := d.events + WRITE_EVENT), Leave)
    else (d, Close)
  }

  datatype Dispatch =
    | Early(conn: Conn)
    | Done(conn: Conn, net: string, turn: nat, request: Request)
    | Crash

  /** The read and write handlers of one event. */
  function RunHandlers(c: Conn, revents: Mask, net: string, plan: Plan, turn: nat): ReadResult
    requires Steady(c) && |c.inBuf| + |net| < NPOS
  {
    var r := if IN in revents || PRI in revents || RDHUP in revents then HandleRead(c, net, plan, turn)
             else Ran(c, net, turn);
    if r.Ran? && OUT in revents then r.(conn := HandleWrite(r.conn, plan(r.turn).sent, plan(r.turn).writeFails)) else r
  }

  /** Channel::handleEvents with the handlers of HttpData (Channel.h:79-105). */
  function HandleEvents(c: Conn, revents: Mask, net: string, plan: Plan, turn: nat): Dispatch
    requires Steady(c) && |c.inBuf| + |net| < NPOS
  {
    var d := c.(events := {});
    if HUP in revents && IN !in revents then Early(d)
    else if ERR in revents then Early(d)
    else
      match RunHandlers(d, revents, net, plan, turn)
      case Thrown => Crash
      case Ran(e, left, calls) =>
        var (f, request) := HandleConn(e);
        Done(f, left, calls + 1, request)
  }

  /** The masks that handleConn registers. */
  predicate Rearmed(mask: Mask) {
    mask == READ_EVENT || mask == WRITE_EVENT
  }

  /** The new mask, case by case: with EPOLLOUT it is just that, otherwise it is EPOLLIN. */
  lemma MaskIsRearmed(c: Conn)
    requires c.events <= {IN, OUT}
    requires !c.error && c.link == Connected
    ensures HandleConn(c).1.Update? && HandleConn(c).1.timeout > 0
    ensures HandleConn(c).0.events == if OUT in c.events then WRITE_EVENT else READ_EVENT
  {
    if OUT in c.events {
      assert (if IN in c.events && OUT in c.events then {OUT} else c.events) == {OUT};
    } else if IN in c.events {
      assert c.events == {IN};
    } else {
      assert c.events == {};
    }
  }

  /** handleConn leaves everything but the mask and the timer alone, and closes exactly on an error or
      on a half-closed connection for which no handler has asked for EPOLLOUT. */
  lemma HandleConnKeeps(c: Conn)
    requires c.events <= {IN, OUT} && c.link != Disconnected
    ensures var (d, request) := HandleConn(c);
            && d == c.(linked := false, events := d.events)
            && (OUT in d.events <==> OUT in c.events)
            && (request.Close? <==> c.error || (c.link == Disconnecting && OUT !in c.events))
            && (request.Update? <==> !c.error && c.link == Connected)
            && (request.Update? ==> request.timeout > 0 && Rearmed(d.events))
            && (request.Update? ==> (d.events == WRITE_EVENT <==> OUT in c.events))
  {
    if !c.error && c.link == Connected {
      MaskIsRearmed(c);
      assert WRITE_EVENT != READ_EVENT by {
        assert OUT in WRITE_EVENT && OUT !in READ_EVENT;
      }
    }
  }

  /** Before handleConn: what the read and write handlers of one event leave. */
  lemma HandlersKeep(c: Conn, revents: Mask, net: string, plan: Plan, turn: nat)
    requires Steady(c) && |c.inBuf| + |net| < NPOS && c.events == {}
    ensures var r := RunHandlers(c, revents, net, plan, turn);
      r.Ran? ==>
        && r.conn.events <= {IN, OUT} && r.conn.link != Disconnected && (!r.conn.error ==> Steady(r.conn))
        && |r.conn.inBuf| + |r.net| <= |c.inBuf| + |net|
        && (!r.conn.error && r.conn.outBuf != "" && revents * {IN, PRI, RDHUP, OUT} != {} ==> OUT in r.conn.events)
  {
    hide HandleRead;
    if IN in revents || PRI in revents || RDHUP in revents {
      HandleReadKeeps(c, net, plan, turn);
    }
  }

  /** One event, completely handled: the connection stays in order or is closed; a new registration
      asks for EPOLLIN or EPOLLOUT and never for a single shot, and for EPOLLOUT when output is unsent,
      provided the event gave a handler something to do. */
  lemma HandleEventsKeeps(c: Conn, revents: Mask, net: string, plan: Plan, turn: nat)
    requires Steady(c) && |c.inBuf| + |net| < NPOS
    ensures var r := HandleEvents(c, revents, net, plan, turn);
            && (r.Early? ==> r.conn == c.(events := {}))
            && (r.Done? ==>
                 && |r.conn.inBuf| + |r.net| <= |c.inBuf| + |net|
                 && !r.conn.linked && r.conn.link != Disconnected
                 && (r.request.Close? <==>
                      r.conn.error || (r.conn.link == Disconnecting && OUT !in r.conn.events))
                 && (!r.request.Close? ==> Steady(r.conn))
                 && (r.request.Update? <==> !r.conn.error && r.conn.link == Connected)
                 && (r.request.Update? ==> Rearmed(r.conn.events) && r.request.timeout > 0)
                 && (r.request.Update? && r.conn.outBuf != "" && revents * {IN, PRI, RDHUP, OUT} != {} ==>
                      r.conn.events == WRITE_EVENT))
  {
    var d := c.(events := {});
    HandlersKeep(d, revents, net, plan, turn);
    var r := RunHandlers(d, revents, net, plan, turn);
    if r.Ran? {
      HandleConnKeeps(r.conn);
    }
  }
}
