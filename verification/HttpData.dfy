/** A connection in the form HttpData.cpp, Channel.h and Timer.cpp give it: objects that update their
    fields.  View is the value that a connection object stands for, and every method is proved to do to
    it what the function of the same name in Connection does. */
module HttpData {
  import opened Wrappers
  import opened Text
  import opened Connection
  import R = RequestLine
  import H = HeaderGrammar
  import T = Timers

  // ---------------------------------------------------------------- what parseHeaders keeps in its locals

  /** The locals of parseHeaders; inside is false once an extraction was outside the buffer. */
  datatype Cursor = Cursor(keyStart: int, keyEnd: int, valueStart: int, valueEnd: int, lineBegin: nat, inside: bool)

  const AT_START := Cursor(-1, -1, -1, -1, 0, true)

  /** The indices lead to the key and the value of the scan, unless their beginnings are lost. */
  ghost predicate CursorAt(s: H.Scan, str: string, i: nat, p: Cursor) {
    && p.lineBegin == s.begin && p.inside == s.known
    && (s.h == H.Key ==> Between(s.key, str, p.keyStart, i, i))
    && (s.h == H.Colon || s.h == H.SpaceAfterColon || H.InValue(s.h) ==> Between(s.key, str, p.keyStart, p.keyEnd, i))
    && (s.h == H.Value ==> s.count == i - p.valueStart && Between(s.value, str, p.valueStart, i, i))
    && (s.h == H.Cr ==> Between(s.value, str, p.valueStart, p.valueEnd, i))
  }

  ghost predicate Between(text: Option<string>, str: string, from: int, to: int, i: nat) {
    if from == -1 then text == None else 0 <= from < to <= i <= |str| && text == Some(str[from..to])
  }

  lemma SliceGrows(str: string, from: int, i: nat)
    requires i < |str|
    ensures 0 <= from <= i ==> str[from..i + 1] == str[from..i] + [str[i]]
    ensures str[i..i + 1] == [str[i]]
  {
  }

  /** One turn of the loop on the character at i. */
  lemma TurnIsFeed(h: H.HState, str: string, i: nat, s: H.Scan)
    requires i < |str| && Scanned(H.Resume(h), str, i, s, true)
    ensures var r := H.Feed(s, str[i], i);
            if r.None? then H.ParseFrom(h, str) == H.Error(s)
            else Scanned(H.Resume(h), str, i + 1, r.value, s.h != H.EndLf)
  {
    var start, before, c := H.Resume(h), str[..i], str[i];
    assert str[..i + 1] == before + [c];
    H.AfterSnoc(start, before, c);
    if H.Feed(s, c, i).None? {
      assert str == before + [c] + str[i + 1..];
      H.FirstRefusal(start, before, c, str[i + 1..]);
    }
  }

  /** The state of the loop: i characters are read, or the one before i was the first behind a finished
      block. */
  ghost predicate Scanned(start: H.Scan, str: string, i: nat, s: H.Scan, notFinish: bool) {
    && i <= |str|
    && (if notFinish then H.After(start, str[..i]) == Some(s)
        else i > 0 && H.After(start, str[..i - 1]) == Some(s) && s.h == H.EndLf)
    && (s.h == H.EndLf ==> s.end == if notFinish then i else i - 1)
  }

  /** What parseHeaders has to answer behind the loop. */
  lemma LoopIsDone(h: H.HState, str: string, i: nat, s: H.Scan, notFinish: bool)
    requires Scanned(H.Resume(h), str, i, s, notFinish) && (i == |str| || !notFinish)
    ensures s.begin <= |str|
    ensures H.ParseFrom(h, str) == if s.h == H.EndLf then H.Success(s, str[i..]) else H.Again(s, str[s.begin..])
  {
    var start := H.Resume(h);
    if notFinish {
      assert str[..i] == str;
    } else {
      assert str == str[..i - 1] + str[i - 1..];
      H.VerdictStable(start, str[..i - 1], str[i - 1..]);
    }
    H.PositionsInText(start, str);
  }

  lemma MergeSnoc(s: H.Scan, garbled: Headers)
    ensures forall base: Headers, h: H.Header ::
              H.Merge(base, s.lines + [h]) == H.Merge(base, s.lines)[h.key := h.value]
  {
    forall h: H.Header ensures (s.lines + [h])[..|s.lines|] == s.lines {
    }
  }

  class Channel {
    const fd: nat
    var events: Mask
    var revents: Mask
    var lastEvents: Mask
    var holder: HttpData?

    constructor (fd: nat)
      ensures this.fd == fd && events == {} && revents == {} && lastEvents == {} && holder == null
    {
      this.fd, events, revents, lastEvents, holder := fd, {}, {}, {}, null;
    }

    method EqualAndUpdateLastEvents() returns (ret: bool)
      modifies this`lastEvents
      ensures ret == (old(lastEvents) == events) && lastEvents == events
    {
      ret := lastEvents == events;
      lastEvents := events;
    }
  }

  /** A node of the timer queue; id tells nodes apart in the proofs. */
  class TimerNode {
    ghost const id: nat
    const expiredTime: nat
    var deleted: bool
    var http: HttpData?

    ghost function View(): T.Node
      reads this
    {
      T.Node(id, expiredTime, if http == null then None else Some(http.fd))
    }

    constructor (ghost id: nat, requestData: HttpData, timeout: nat, now: T.Time)
      ensures this.id == id && expiredTime == T.Key(now, timeout) && !deleted && http == requestData
    {
      this.id, expiredTime, deleted, http := id, T.Key(now, timeout), false, requestData;
    }

    method IsValid(now: T.Time) returns (valid: bool)
      modifies this`deleted
      ensures valid <==> T.IsValid(now, expiredTime)
      ensures deleted == (old(deleted) || !valid)
    {
      var tmp := (now.sec % 10000) * 1000 + now.usec / 1000;
      valid := tmp < expiredTime;
      if !valid {
        deleted := true;
      }
    }

    method ClearReq()
      modifies this
      ensures deleted && http == null
    {
      http := null;
      deleted := true;
    }
  }

  class HttpData {
    const fd: nat
    const channel: Channel
    var inBuffer: string
    var outBuffer: string
    var error: bool
    var connectionState: Link
    var mthd: R.Method
    var version: R.Version
    var fileName: string
    var state: Stage
    var hState: H.HState
    var keepAlive: bool
    var headers: Headers
    var timer: TimerNode?

    function Req(): R.Request
      reads this
    {
      R.Request(mthd, fileName, version)
    }

    function View(): Conn
      reads this, channel
    {
      Conn(inBuffer, outBuffer, error, connectionState, Req(), state, hState,
           headers, keepAlive, channel.events, timer != null)
    }

    constructor (connfd: nat)
      ensures fd == connfd && fresh(channel) && channel.fd == connfd && channel.lastEvents == {}
      ensures channel.holder == this
      ensures timer == null && View() == FRESH
    {
      fd := connfd;
      channel := new Channel(connfd);
      inBuffer, outBuffer, error, connectionState := "", "", false, Connected;
      mthd, version, fileName := R.Get, R.Http11, "";
      state, hState, keepAlive, headers, timer := ParseUri, H.Start, false, map[], null;
      new;
      channel.holder := this;
    }

    // ---------------------------------------------------------------- the timer

    /** The node that was linked before, if any, is cleared when the link is gone and untouched otherwise. */
    twostate predicate TimerKept(node: TimerNode?)
      reads this, node
    {
      && (timer == null || timer == node)
      && (node != null ==> if timer == null then node.deleted && node.http == null else unchanged(node))
    }

    method SeperateTimer()
      modifies this`timer, timer
      ensures timer == null && TimerKept(old(timer))
    {
      if timer != null {
        timer.ClearReq();
        timer := null;
      }
    }

    method Reset()
      modifies this, timer
      ensures View() == Connection.Reset(old(View())) && TimerKept(old(timer))
    {
      fileName := "";
      state := ParseUri;
      hState := H.Start;
      headers := map[];
      SeperateTimer();
    }

    // ---------------------------------------------------------------- parsing

    /** The version behind the slash at pos. */
    method ParseVersion(requestLine: string, pos: nat) returns (verdict: R.Verdict)
      requires |requestLine| < NPOS && (pos < |requestLine| || pos == NPOS)
      modifies this`version
      ensures R.Answer(verdict, Req(), inBuffer) == R.ParseVersion(old(Req()), requestLine, inBuffer, pos)
    {
      if Minus(|requestLine|, pos) <= 3 {
        return R.Error;
      }
      var ver := Substr(requestLine, (pos + 1) % SIZE_RANGE, 3);
      if ver == "1.0" {
        version := R.Http10;
      } else if ver == "1.1" {
        version := R.Http11;
      } else {
        return R.Error;
      }
      return R.Success;
    }

    /** The file name between the slash at pos and the blank, without its query. */
    method TakeFileName(requestLine: string, pos: nat, blank: nat)
      requires |requestLine| < NPOS && (pos < |requestLine| || (pos == NPOS && blank == NPOS))
      modifies this`fileName
      ensures fileName == R.FileName(requestLine, pos, blank)
    {
      if Minus(blank, pos) > 1 {
        fileName := Substr(requestLine, pos + 1, Minus(blank, pos) - 1);
        fileName := Substr(fileName, 0, Find(fileName, "?", 0));
      } else {
        fileName := R.INDEX;
      }
    }

    /** Target and version, looked for behind the method's name at from. */
    method ParseTarget(requestLine: string, from: nat) returns (verdict: R.Verdict)
      requires |requestLine| < NPOS
      modifies this`fileName, this`version
      ensures R.Answer(verdict, Req(), inBuffer) == R.ParseTarget(old(Req()), requestLine, inBuffer, from)
    {
      var pos := Find(requestLine, "/", from);
      var blank := Find(requestLine, " ", pos);
      TakeFileName(requestLine, pos, blank);
      verdict := ParseVersion(requestLine, Find(requestLine, "/", blank));
    }

    /** The line is cut off before the method is looked for, so an error keeps the cut. */
    method CutLine() returns (requestLine: string)
      requires |inBuffer| < NPOS
      modifies this`inBuffer
      ensures (requestLine, inBuffer) == R.CutLine(old(inBuffer))
    {
      var pos := Find(inBuffer, "\r", 0);
      requestLine := Substr(inBuffer, 0, pos);
      var next := (pos + 1) % SIZE_RANGE;
      if |inBuffer| > next {
        inBuffer := Substr(inBuffer, next, NPOS);
      } else {
        inBuffer := "";
      }
    }

    /** parseURI: verdict, fields and buffer are those of the parser as a function. */
    method ParseURI() returns (verdict: R.Verdict)
      requires |inBuffer| < NPOS
      modifies this`inBuffer, this`mthd, this`fileName, this`version
      ensures R.Answer(verdict, Req(), inBuffer) == R.ParseUri(old(Req()), old(inBuffer))
    {
      var requestLine := CutLine();
      var posGet := ToInt32(Find(requestLine, "GET", 0));
      var posPost := ToInt32(Find(requestLine, "POST", 0));
      var posHead := ToInt32(Find(requestLine, "HEAD", 0));
      var pos: nat;
      if posGet >= 0 {
        pos, mthd := posGet, R.Get;
      } else if posPost >= 0 {
        pos, mthd := posPost, R.Post;
      } else if posHead >= 0 {
        pos, mthd := posHead, R.Head;
      } else {
        return R.Error;
      }
      verdict := ParseTarget(requestLine, pos);
    }

    /** After a turn: refused like the automaton, which then stays in its state, or in its next state
        with indices that fit. */
    ghost predicate TurnOk(before: H.HState, s: H.Scan, str: string, i: nat, next: Cursor, refused: bool)
      requires i < |str|
      reads this`hState
    {
      var r := H.Feed(s, str[i], i);
      && (refused <==> r.None?)
      && (if refused then hState == before else hState == r.value.h && CursorAt(r.value, str, i + 1, next))
    }

    /** A complete line is stored; with a lost beginning the extraction is outside the buffer. */
    method StoreLine(str: string, p: Cursor, garbled: Headers) returns (inside: bool)
      requires p.keyStart >= 0 && p.valueStart >= 0 ==>
                 p.keyStart <= p.keyEnd <= |str| && p.valueStart <= p.valueEnd <= |str|
      modifies this`headers
      ensures inside == (p.inside && p.keyStart >= 0 && p.valueStart >= 0)
      ensures headers == if inside then old(headers)[str[p.keyStart..p.keyEnd] := str[p.valueStart..p.valueEnd]]
                         else garbled
    {
      inside := p.inside && p.keyStart >= 0 && p.valueStart >= 0;
      headers := if inside then headers[str[p.keyStart..p.keyEnd] := str[p.valueStart..p.valueEnd]] else garbled;
    }

    /** The states up to the value. */
    method KeyTurn(str: string, i: nat, p: Cursor, ghost s: H.Scan) returns (next: Cursor, refused: bool)
      requires i < |str| && hState == s.h && CursorAt(s, str, i, p)
      requires s.h == H.Start || s.h == H.Key || s.h == H.Colon || s.h == H.SpaceAfterColon
      modifies this`hState
      ensures TurnOk(old(hState), s, str, i, next, refused)
    {
      next, refused := p, false;
      SliceGrows(str, p.keyStart, i);
      match hState
      case Start =>
        if str[i] != '\n' && str[i] != '\r' {
          hState, next := H.Key, p.(keyStart := i, lineBegin := i);
        }
      case Key =>
        if str[i] == ':' {
          next := p.(keyEnd := i);
          if next.keyEnd - next.keyStart <= 0 {
            return next, true;
          }
          hState := H.Colon;
        } else {
          refused := str[i] == '\n' || str[i] == '\r';
        }
      case Colon =>
        if str[i] == ' ' {
          hState := H.SpaceAfterColon;
        } else {
          refused := true;
        }
      case SpaceAfterColon =>
        hState, next := H.Value, p.(valueStart := i);
    }

    /** The states of the value and the line break behind it. */
    method ValueTurn(str: string, i: nat, p: Cursor, garbled: Headers, ghost s: H.Scan)
      returns (next: Cursor, refused: bool)
      requires i < |str| && hState == s.h && CursorAt(s, str, i, p) && H.InValue(s.h)
      modifies this`hState, this`headers
      ensures TurnOk(old(hState), s, str, i, next, refused)
      ensures forall base :: old(headers) == StoredHeaders(base, s, garbled) ==>
                headers == StoredHeaders(base, if refused then s else H.Feed(s, str[i], i).value, garbled)
    {
      next, refused := p, false;
      SliceGrows(str, p.valueStart, i);
      if hState == H.Value {
        if str[i] == '\r' {
          next := p.(valueEnd := i);
          if next.valueEnd - next.valueStart <= 0 {
            return next, true;
          }
          hState := H.Cr;
        } else {
          refused := i - p.valueStart > H.MAX_VALUE_OFFSET;
        }
      } else if str[i] == '\n' {
        hState := H.Lf;
        var inside := StoreLine(str, p, garbled);
        next := p.(lineBegin := i, inside := inside);
        MergeSnoc(s, garbled);
      } else {
        refused := true;
      }
    }

    /** The states behind a line. */
    method EndTurn(str: string, i: nat, p: Cursor, ghost s: H.Scan) returns (next: Cursor, refused: bool)
      requires i < |str| && hState == s.h && CursorAt(s, str, i, p) && (s.h == H.Lf || s.h == H.EndCr)
      modifies this`hState
      ensures TurnOk(old(hState), s, str, i, next, refused)
    {
      next, refused := p, false;
      SliceGrows(str, p.keyStart, i);
      if hState == H.Lf {
        if str[i] == '\r' {
          hState := H.EndCr;
        } else {
          next, hState := p.(keyStart := i), H.Key;
        }
      } else if str[i] == '\n' {
        hState := H.EndLf;
      } else {
        refused := true;
      }
    }

    /** One turn of the switch, except in its last state. */
    method Turn(str: string, i: nat, p: Cursor, garbled: Headers, ghost s: H.Scan) returns (next: Cursor, refused: bool)
      requires i < |str| && hState == s.h && CursorAt(s, str, i, p) && s.h != H.EndLf
      modifies this`hState, this`headers
      ensures TurnOk(old(hState), s, str, i, next, refused)
      ensures forall base :: old(headers) == StoredHeaders(base, s, garbled) ==>
                headers == StoredHeaders(base, if refused then s else H.Feed(s, str[i], i).value, garbled)
    {
      if hState == H.Value || hState == H.Cr {
        next, refused := ValueTurn(str, i, p, garbled, s);
      } else if hState == H.Lf || hState == H.EndCr {
        next, refused := EndTurn(str, i, p, s);
      } else {
        next, refused := KeyTurn(str, i, p, s);
      }
    }

    /** parseHeaders: verdict, buffer, automaton state and header map are those of the scan. */
    method ParseHeaders(garbled: Headers) returns (verdict: R.Verdict)
      modifies this`inBuffer, this`hState, this`headers
      ensures var o := H.ParseFrom(old(hState), old(inBuffer));
              && hState == o.scan.h && headers == StoredHeaders(old(headers), o.scan, garbled)
              && (o.Success? ==> verdict == R.Success && inBuffer == o.rest)
              && (o.Again? ==> verdict == R.Again && inBuffer == o.rest)
              && (o.Error? ==> verdict == R.Error && inBuffer == old(inBuffer))
    {
      var str, p := inBuffer, AT_START;
      var i: nat, notFinish := 0, true;
      ghost var s := H.Resume(hState);
      while i < |str| && notFinish
        invariant inBuffer == str && hState == s.h && Scanned(H.Resume(old(hState)), str, i, s, notFinish)
        invariant CursorAt(s, str, i, p)
        invariant headers == StoredHeaders(old(headers), s, garbled)
        decreases |str| - i
      {
        TurnIsFeed(old(hState), str, i, s);
        if hState == H.EndLf {
          notFinish := false;
        } else {
          var refused;
          p, refused := Turn(str, i, p, garbled, s);
          if refused {
            return R.Error;
          }
          s := H.Feed(s, str[i], i).value;
        }
        i := i + 1;
      }
      LoopIsDone(old(hState), str, i, s, notFinish);
      if hState == H.EndLf {
        inBuffer := str[i..];
        return R.Success;
      }
      inBuffer := str[p.lineBegin..];
      return R.Again;
    }

    // ---------------------------------------------------------------- answering

    method AnalysisRequest(t: Turn) returns (success: bool)
      modifies this`outBuffer, this`keepAlive
      ensures (View(), success) == Connection.AnalysisRequest(old(View()), t)
    {
      if mthd == R.Post {
        return false;
      }
      if "Connection" in headers && (headers["Connection"] == "Keep-Alive" || headers["Connection"] == "Keep-alive") {
        keepAlive := true;
      }
      if fileName == "hello" {
        outBuffer := HELLO;
        return true;
      }
      if fileName == "favicon.ico" {
        outBuffer := outBuffer + t.reply;
        return true;
      }
      if t.disk == Missing {
        return false;
      }
      outBuffer := outBuffer + t.reply;
      if mthd == R.Head {
        return true;
      }
      if t.disk == Unreadable {
        outBuffer := "";
        return false;
      }
      outBuffer := outBuffer + t.disk.contents;
      return true;
    }

    method HandleWrite(sent: nat, fails: bool)
      modifies this`outBuffer, this`error, channel`events
      ensures View() == Connection.HandleWrite(old(View()), sent, fails)
    {
      if !error && connectionState != Disconnected {
        if fails && outBuffer != "" {
          channel.events := {};
          error := true;
        } else {
          outBuffer := outBuffer[Min(sent, |outBuffer|)..];
        }
        if outBuffer != "" {
          channel.events := channel.events + {OUT};
        }
      }
    }

    // ---------------------------------------------------------------- handleRead

    method ReadStep(t: Turn, taken: string) returns (go: bool)
      modifies this`inBuffer, this`connectionState, this`error
      ensures ReadSection(old(View()), t, taken) == if go then Go(View()) else Break(View())
      ensures go ==> inBuffer == old(inBuffer) + taken
    {
      inBuffer := inBuffer + taken;
      if connectionState == Disconnecting {
        inBuffer := "";
        return false;
      }
      if t.end == Failed {
        error := true;
        return false;
      }
      if t.end == Eof {
        connectionState := Disconnecting;
        return taken != "";
      }
      return true;
    }

    method UriStep() returns (go: bool)
      requires |inBuffer| < NPOS
      modifies this`inBuffer, this`mthd, this`fileName, this`version, this`error, this`state
      ensures UriSection(old(View())) == if go then Go(View()) else Break(View())
    {
      if state != ParseUri {
        return true;
      }
      var flag := ParseURI();
      if flag == R.Again {
        return false;
      }
      if flag == R.Error {
        inBuffer := "";
        error := true;
        return false;
      }
      state := Stage.ParseHeaders;
      return true;
    }

    method HeaderStep(t: Turn) returns (go: bool)
      modifies this`inBuffer, this`hState, this`headers, this`error, this`state
      ensures HeaderSection(old(View()), t) == if go then Go(View()) else Break(View())
    {
      if state != Stage.ParseHeaders {
        return true;
      }
      var flag := ParseHeaders(t.garbled);
      if flag == R.Again {
        return false;
      }
      if flag == R.Error {
        error := true;
        return false;
      }
      state := if mthd == R.Post then RecvBody else Analysis;
      return true;
    }

    method BodyStep() returns (go: bool, thrown: bool)
      modifies this`error, this`state
      ensures BodySection(old(View())) == if thrown then Throw else if go then Go(View()) else Break(View())
    {
      go, thrown := true, false;
      if state == RecvBody {
        if "Content-length" !in headers {
          error := true;
          return false, false;
        }
        var contentLength := Stoi(headers["Content-length"]);
        if contentLength.None? {
          return false, true;
        }
        if ToInt32(|inBuffer|) < contentLength.value {
          return false, false;
        }
        state := Analysis;
      }
    }

    method AnalysisStep(t: Turn) returns (go: bool)
      modifies this`outBuffer, this`keepAlive, this`error, this`state
      ensures AnalysisSection(old(View()), t) == if go then Go(View()) else Break(View())
    {
      if state != Analysis {
        return true;
      }
      var success := AnalysisRequest(t);
      if success {
        state := Finish;
      } else {
        error := true;
      }
      return false;
    }

    /** The do-while block of handleRead. */
    method Sections(t: Turn, taken: string) returns (thrown: bool)
      requires Steady(View()) && |inBuffer| + |taken| < NPOS
      modifies this
      ensures timer == old(timer)
      ensures Block(old(View()), t, taken) == if thrown then Throw else Break(View())
    {
      hide ReadSection, UriSection, HeaderSection, BodySection, AnalysisSection, Steady;
      BlockKeeps(View(), t, taken);
      thrown := false;
      var go := ReadStep(t, taken);
      if go {
        go := UriStep();
      }
      if go {
        go := HeaderStep(t);
      }
      if go {
        go, thrown := BodyStep();
      }
      if go {
        go := AnalysisStep(t);
      }
    }

    /** handleRead with its recursion; net holds the bytes that the socket has for us. */
    method HandleRead(net: string, plan: Plan, turn: nat) returns (left: string, calls: nat, thrown: bool)
      requires Steady(View()) && |inBuffer| + |net| < NPOS
      modifies this, channel`events, timer
      decreases |net| + |inBuffer|
      ensures Connection.HandleRead(old(View()), net, plan, turn) == if thrown then Thrown else Ran(View(), left, calls)
      ensures TimerKept(old(timer))
    {
      hide Block;
      var t, k := plan(turn), Min(plan(turn).take, |net|);
      BlockKeeps(View(), t, net[..k]);
      left, calls := net[k..], turn;
      thrown := Sections(t, net[..k]);
      if !thrown && !error {
        ghost var d := View();
        if outBuffer != "" {
          HandleWrite(t.sent, t.writeFails);
        }
        assert View() == Flush(d, t);
        if !error && state == Finish {
          Reset();
          if inBuffer != "" && connectionState != Disconnecting {
            left, calls, thrown := HandleRead(left, plan, turn + 1);
          }
        } else if !error && connectionState != Disconnected {
          channel.events := channel.events + {IN};
        }
      }
    }

    // ---------------------------------------------------------------- handleConn and the dispatch

    /** handleConn up to its call into the loop, which is the request it returns. */
    method HandleConn() returns (request: Request)
      modifies this`timer, channel`events, timer
      ensures (View(), request) == Connection.HandleConn(old(View()))
      ensures timer == null && TimerKept(old(timer))
    {
      SeperateTimer();
      if !error && connectionState == Connected {
        var timeout := DEFAULT_KEEP_ALIVE_TIME;
        if channel.events != {} {
          timeout := if keepAlive then DEFAULT_KEEP_ALIVE_TIME else DEFAULT_EXPIRED_TIME;
          if IN in channel.events && OUT in channel.events {
            channel.events := {OUT};
          }
          channel.events := channel.events + {ET};
        } else {
          if !keepAlive {
            timeout := DEFAULT_KEEP_ALIVE_TIME / 2;
          }
          channel.events := channel.events + {IN, ET};
          assert channel.events == READ_EVENT;
        }
        return Update(timeout);
      }
      if !error && connectionState == Disconnecting && OUT in channel.events {
        channel.events := channel.events + {OUT, ET};
        return Leave;
      }
      return Close;
    }

    /** The read and write handlers of one event. */
    method ReadAndWrite(net: string, plan: Plan, turn: nat) returns (left: string, calls: nat, thrown: bool)
      requires Steady(View()) && |inBuffer| + |net| < NPOS
      modifies this, channel`events, timer
      ensures RunHandlers(old(View()), channel.revents, net, plan, turn) ==
              if thrown then Thrown else Ran(View(), left, calls)
      ensures TimerKept(old(timer))
    {
      left, calls, thrown := net, turn, false;
      if IN in channel.revents || PRI in channel.revents || RDHUP in channel.revents {
        left, calls, thrown := HandleRead(net, plan, turn);
      }
      if !thrown && OUT in channel.revents {
        HandleWrite(plan(calls).sent, plan(calls).writeFails);
      }
    }

    /** Channel::handleEvents with the handlers of this connection. */
    method HandleEvents(net: string, plan: Plan, turn: nat) returns (r: Dispatch)
      requires Steady(View()) && |inBuffer| + |net| < NPOS
      modifies this, channel`events, timer
      ensures r == Connection.HandleEvents(old(View()), channel.revents, net, plan, turn)
      ensures r.Early? || r.Done? ==> View() == r.conn
      ensures r.Early? ==> timer == old(timer)
      ensures r.Done? ==> timer == null
      ensures TimerKept(old(timer))
    {
      hide Connection.RunHandlers, Connection.HandleConn;
      channel.events := {};
      if HUP in channel.revents && IN !in channel.revents {
        return Early(View());
      }
      if ERR in channel.revents {
        return Early(View());
      }
      var left, calls, thrown := ReadAndWrite(net, plan, turn);
      if thrown {
        return Crash;
      }
      var request := HandleConn();
      return Done(View(), left, calls + 1, request);
    }
  }
}
