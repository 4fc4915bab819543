/** How an event of one connection ends, in terms of what was read (Channel.h:79-105, HttpData.cpp:151-309). */
module Outcome {
  import opened Wrappers
  import opened Text
  import opened Connection
  import H = HeaderGrammar
  import L = Response
  import R = RequestLine
  import S = LogStream
  import X = Exchange

  // ---------------------------------------------------------------- which events are handled

  /** With something to read a hang-up makes no difference. */
  lemma HangUpWithData(c: Conn, revents: Mask, net: string, plan: Plan)
    requires Steady(c) && |c.inBuf| + |net| < NPOS && IN in revents
    ensures HandleEvents(c, revents, net, plan, 0) == HandleEvents(c, revents - {HUP}, net, plan, 0)
  {
    hide HandleRead, HandleWrite, HandleConn, Steady;
    L.SteadyWithout(c);
    assert RunHandlers(c.(events := {}), revents, net, plan, 0)
           == RunHandlers(c.(events := {}), revents - {HUP}, net, plan, 0);
  }

  /** No handler runs exactly for an error and for a hang-up without anything to read; then the connection stays
      as it is. */
  lemma DroppedIff(c: Conn, revents: Mask, net: string, plan: Plan)
    requires Steady(c) && |c.inBuf| + |net| < NPOS
    ensures var e := HandleEvents(c, revents, net, plan, 0);
            && (e.Early? <==> ERR in revents || (HUP in revents && IN !in revents))
            && (e.Early? ==> e.conn == c.(events := {}))
  {
    hide RunHandlers, HandleConn;
    L.SteadyWithout(c);
  }

  // ---------------------------------------------------------------- the header block

  /** No continuation of the text begins with a header block. */
  ghost predicate Refused(text: string) {
    forall ext :: !H.HasBlock(text + ext)
  }

  /** The text does not, but a continuation of it does. */
  ghost predicate Unfinished(text: string) {
    !H.HasBlock(text) && exists ext :: H.HasBlock(text + ext)
  }

  /** The call reads without failing, and something if the stream has ended. */
  predicate ReadsOn(t: Turn, taken: string) {
    t.end != Failed && (t.end == Eof ==> taken != "")
  }

  /** The connection when the call has read. */
  function WithRead(c: Conn, t: Turn, taken: string): Conn {
    c.(inBuf := c.inBuf + taken, link := if t.end == Eof then Disconnecting else c.link)
  }

  /** The connection waits in front of its header lines, and they are to be read from this text. */
  ghost predicate AtHeaders(c: Conn, text: string) {
    Steady(c) && c.stage == ParseHeaders && c.hState == H.Start && c.inBuf == text
  }

  /** What handleRead does behind the request line. */
  function BehindUri(c: Conn, t: Turn): Section {
    var p := HeaderSection(c, t);
    if p.Go? then AnswerSections(p.conn, t) else p
  }

  lemma RefusedIsError(c: Conn, t: Turn, text: string)
    requires AtHeaders(c, text) && Refused(text)
    ensures var b := BehindUri(c, t); b.Break? && b.conn.error
  {
    H.ErrorIff(text);
  }

  lemma UnfinishedWaits(c: Conn, t: Turn, text: string)
    requires AtHeaders(c, text) && Unfinished(text)
    ensures var b := BehindUri(c, t); var o := H.Parse(text);
            && b.Break? && !b.conn.error && b.conn.stage == ParseHeaders && o.Again?
            && b.conn == c.(inBuf := o.rest, hState := o.scan.h, headers := H.Merge(c.headers, o.scan.lines))
  {
    H.AgainIff(text);
    H.ScanReadsConsumed(text);
  }

  lemma CompleteGoesOn(c: Conn, t: Turn, skip: string, lines: seq<H.Header>, rest: string)
    requires AtHeaders(c, H.Render(skip, lines) + rest) && H.BlockOk(skip, lines)
    ensures BehindUri(c, t) ==
            AnswerSections(c.(inBuf := X.Behind(rest), hState := H.EndLf, headers := H.Merge(c.headers, lines),
                              stage := if c.req.mthd == R.Post then RecvBody else Analysis), t)
  {
    H.BlockIsRead(skip, lines, rest);
  }

  /** The connection behind the request line: it waits there already, or a printed line is in front. */
  ghost predicate Enters(c: Conn, u: Conn, text: string) {
    && AtHeaders(u, text)
    && (u == c || (X.Waiting(c) && exists m, target, v :: Fronted(c, u, m, target, v, text)))
  }

  ghost predicate Fronted(c: Conn, u: Conn, m: R.Method, target: string, v: R.Version, text: string) {
    && R.TargetOk(target) && !R.NameHidden(m, target) && c.inBuf == R.PrintLine(m, target, v) + "\r" + text
    && u == c.(inBuf := text, req := u.req, stage := ParseHeaders)
    && u.req.mthd == m && u.req.version == v && R.IsFileOf(u.req.fileName, target)
  }

  /** A printed request line leads in front of the header lines. */
  lemma LineLeadsToHeaders(c: Conn, m: R.Method, target: string, v: R.Version, text: string) returns (u: Conn)
    requires X.Waiting(c) && R.TargetOk(target) && !R.NameHidden(m, target) && |c.inBuf| < NPOS
    requires c.inBuf == R.PrintLine(m, target, v) + "\r" + text
    ensures UriSection(c) == Go(u) && Fronted(c, u, m, target, v, text) && Enters(c, u, text)
  {
    hide R.ParseUri, R.PrintLine, R.IsFileOf, R.TargetOk, R.NameHidden;
    R.RoundTrip(c.req, m, target, v, text);
    u := UriSection(c).conn;
    assert Fronted(c, u, m, target, v, text);
  }

  lemma EntersUri(c: Conn, u: Conn, text: string)
    requires Enters(c, u, text) && |c.inBuf| < NPOS
    ensures UriSection(c).Go? && Enters(c, UriSection(c).conn, text)
    ensures var v := UriSection(c).conn; v.headers == u.headers && v.link == u.link && v.events == u.events
  {
    hide R.ParseUri, R.PrintLine, R.IsFileOf, R.TargetOk, R.NameHidden;
    if u != c {
      var m, target, v :| Fronted(c, u, m, target, v, text);
      var w := LineLeadsToHeaders(c, m, target, v, text);
    }
  }

  /** The block of handleRead from there. */
  lemma BlockFromHeaders(c: Conn, t: Turn, taken: string, u: Conn, text: string) returns (v: Conn)
    requires Steady(c) && c.link == Connected && |c.inBuf| + |taken| < NPOS && ReadsOn(t, taken)
    requires Enters(WithRead(c, t, taken), u, text)
    ensures Enters(WithRead(c, t, taken), v, text) && Block(c, t, taken) == BehindUri(v, t)
    ensures v.outBuf == c.outBuf && v.keepAlive == c.keepAlive && v.events == c.events
    ensures v.link == WithRead(c, t, taken).link && v.headers == c.headers
  {
    hide R.ParseUri, H.ParseFrom;
    var b := WithRead(c, t, taken);
    EntersUri(b, u, text);
    v := UriSection(b).conn;
    assert c.(inBuf := b.inBuf).(link := b.link) == b;
  }

  // ---------------------------------------------------------------- one call, one event

  /** What the first call of the event reads. */
  function FirstRead(net: string, plan: Plan): string {
    net[..Min(plan(0).take, |net|)]
  }

  /** The event reads, and is not dropped. */
  predicate Reading(revents: Mask) {
    IN in revents && ERR !in revents
  }

  /** What the block of the first call decides about the event. */
  lemma BlockDecides(c: Conn, revents: Mask, net: string, plan: Plan)
    requires Steady(c) && |c.inBuf| + |net| < NPOS && Reading(revents)
    ensures var b := Block(c.(events := {}), plan(0), FirstRead(net, plan));
            var e := HandleEvents(c, revents, net, plan, 0);
            && (b.Throw? ==> e.Crash?)
            && (b.Break? && b.conn.error ==> e.Done? && e.conn == b.conn.(linked := false) && e.request.Close?)
            && (b.Break? && !b.conn.error && b.conn.stage != Finish && b.conn.link == Connected
                && !plan(0).writeFails && OUT !in revents ==>
                 && e.Done? && e.request == Update(if b.conn.keepAlive then 300000 else 2000)
                 && e.conn == b.conn.(outBuf := e.conn.outBuf, events := e.conn.events, linked := false))
  {
    hide Block, Flush, Steady;
    L.SteadyWithout(c);
    var d, t := c.(events := {}), plan(0);
    BlockKeeps(d, t, FirstRead(net, plan));
    var b := Block(d, t, FirstRead(net, plan));
    if b.Break? && !b.conn.error && b.conn.link == Connected && !t.writeFails {
      SentIsTouched(b.conn, t);
    }
  }

  lemma SentIsTouched(d: Conn, t: Turn)
    requires !d.error && d.link == Connected && !t.writeFails
    ensures var e := Flush(d, t); e == d.(outBuf := e.outBuf, events := e.events)
  {
  }

  /** The verdict on the header lines decides the event: refused lines are answered with a close, unfinished ones
      are waited for, with the scan where it is, and nothing else happens while no block is there. */
  lemma HeadersDecide(c: Conn, revents: Mask, net: string, plan: Plan, u: Conn, text: string)
    requires Steady(c) && c.link == Connected && |c.inBuf| + |net| < NPOS && Reading(revents)
    requires ReadsOn(plan(0), FirstRead(net, plan))
    requires Enters(WithRead(c.(events := {}), plan(0), FirstRead(net, plan)), u, text) && !H.HasBlock(text)
    ensures var e := HandleEvents(c, revents, net, plan, 0);
            && (Refused(text) ==> e.Done? && e.conn.error && e.request.Close?)
            && (Unfinished(text) && plan(0).end == Drained && !plan(0).writeFails && OUT !in revents ==>
                 && e.Done? && !e.conn.error && e.conn.stage == ParseHeaders && e.conn.link == Connected
                 && e.request == Update(if c.keepAlive then 300000 else 2000)
                 && var o := H.Parse(text);
                    && o.Again? && e.conn.inBuf == o.rest && e.conn.hState == o.scan.h
                    && e.conn.headers == H.Merge(c.headers, o.scan.lines))
            && (Refused(text) <==> !Unfinished(text))
  {
    hide Block, HandleEvents, Refused, Unfinished, H.HasBlock, BehindUri, Enters;
    L.SteadyWithout(c);
    var v := BlockFromHeaders(c.(events := {}), plan(0), FirstRead(net, plan), u, text);
    EntersAtHeaders(WithRead(c.(events := {}), plan(0), FirstRead(net, plan)), v, text);
    BlockDecides(c, revents, net, plan);
    RefusedOrUnfinished(text);
    if Refused(text) {
      RefusedIsError(v, plan(0), text);
    } else {
      UnfinishedWaits(v, plan(0), text);
    }
  }

  lemma EntersAtHeaders(c: Conn, u: Conn, text: string)
    requires Enters(c, u, text)
    ensures AtHeaders(u, text)
  {
  }

  lemma RefusedOrUnfinished(text: string)
    requires !H.HasBlock(text)
    ensures Refused(text) <==> !Unfinished(text)
  {
  }

  // ---------------------------------------------------------------- the request line

  /** A waiting connection that reads what parseURI refuses is closed, and forgets it. */
  lemma RefusedLineCloses(c: Conn, revents: Mask, net: string, plan: Plan)
    requires X.Waiting(c) && c.link == Connected && |c.inBuf| + |net| < NPOS && Reading(revents)
    requires ReadsOn(plan(0), FirstRead(net, plan))
    requires R.ParseUri(c.req, c.inBuf + FirstRead(net, plan)).verdict == R.Error
    ensures var e := HandleEvents(c, revents, net, plan, 0);
            e.Done? && e.conn.error && e.conn.inBuf == "" && e.request.Close?
  {
    hide HandleEvents, R.ParseUri;
    L.WaitingWithout(c);
    BlockDecides(c, revents, net, plan);
  }

  /** So is one that reads a printed request line only in part, wherever it is cut. */
  lemma PartOfLineCloses(c: Conn, revents: Mask, net: string, plan: Plan, m: R.Method, target: string, v: R.Version)
    requires X.Waiting(c) && c.link == Connected && |c.inBuf| + |net| < NPOS && Reading(revents)
    requires ReadsOn(plan(0), FirstRead(net, plan))
    requires R.TargetOk(target) && |R.PrintLine(m, target, v)| < NPOS
    requires c.inBuf + FirstRead(net, plan) < R.PrintLine(m, target, v)
    ensures var e := HandleEvents(c, revents, net, plan, 0); e.Done? && e.conn.error && e.request.Close?
  {
    hide HandleEvents, R.ParseUri, R.PrintLine, R.TargetOk;
    R.PartOfLineIsRefused(c.req, c.inBuf + FirstRead(net, plan), m, target, v);
    RefusedLineCloses(c, revents, net, plan);
  }

  // ---------------------------------------------------------------- requests without an answer

  /** A complete request that is no POST ends in an error if and only if the server has no answer to it; a file that
      is there and cannot be read takes the unsent output with it. */
  lemma AnswerDecides(c: Conn, t: Turn, taken: string, q: X.Call, next: string)
    requires X.Waiting(c) && c.link == Connected && |c.inBuf| + |taken| < NPOS && ReadsOn(t, taken)
    requires X.CallOk(q) && q.mthd != R.Post && c.inBuf + taken == X.Print(q, next)
    ensures var b := Block(c, t, taken);
            && b.Break? && (b.conn.error <==> !X.Answerable(q, t)) && (!b.conn.error ==> b.conn.stage == Finish)
            && (b.conn.error ==> b.conn.outBuf == if t.disk == Missing then c.outBuf else "")
  {
    hide ParseSections, AnalysisRequest, X.Print, X.HasParsed, X.Answerable, X.CallOk;
    var b := WithRead(c, t, taken);
    assert c.(inBuf := b.inBuf).(link := b.link) == b;
    ReadWaits(c, t, taken);
    X.CallIsParsed(b, t, q, next);
    var p := ParseSections(b, t).conn;
    X.WhatIsParsed(b, p, q, X.Behind(next));
    X.AnswerIsGivenIff(b, p, t, q, X.Behind(next));
    AnalysisTouches(p, t);
    if !X.Answerable(q, t) {
      NoAnswer(p, t);
    }
  }

  lemma NoAnswer(c: Conn, t: Turn)
    requires c.req.mthd != R.Post && !AnalysisRequest(c, t).1
    ensures AnalysisRequest(c, t).0.outBuf == if t.disk == Missing then c.outBuf else ""
  {
  }

  lemma ReadWaits(c: Conn, t: Turn, taken: string)
    requires X.Waiting(c) && c.link == Connected
    ensures X.Waiting(WithRead(c, t, taken))
  {
  }

  /** So the event is answered with a close. */
  lemma UnanswerableCloses(c: Conn, revents: Mask, net: string, plan: Plan, q: X.Call, next: string)
    requires X.Waiting(c) && c.link == Connected && |c.inBuf| + |net| < NPOS && Reading(revents)
    requires ReadsOn(plan(0), FirstRead(net, plan)) && c.inBuf + FirstRead(net, plan) == X.Print(q, next)
    requires X.CallOk(q) && q.mthd != R.Post && !X.Answerable(q, plan(0))
    ensures var e := HandleEvents(c, revents, net, plan, 0);
            && e.Done? && e.conn.error && e.request.Close?
            && e.conn.outBuf == if plan(0).disk == Missing then c.outBuf else ""
  {
    hide Block, HandleEvents, X.Print, X.Answerable, X.CallOk;
    L.WaitingWithout(c);
    BlockDecides(c, revents, net, plan);
    AnswerDecides(c.(events := {}), plan(0), FirstRead(net, plan), q, next);
  }

  // ---------------------------------------------------------------- the body of a POST

  /** What the body section and analysisRequest make of a POST whose headers announce this length. */
  predicate BodyFate(c: Conn, announced: Option<string>, s: Section) {
    match announced
    case None => s == Break(c.(error := true))
    case Some(text) =>
      match Stoi(text)
      case None => s.Throw?
      case Some(n) => s == Break(if ToInt32(|c.inBuf|) < n then c else c.(stage := Analysis, error := true))
  }

  function Announced(c: Conn): Option<string> {
    if "Content-length" in c.headers then Some(c.headers["Content-length"]) else None
  }

  /** Without the length it is refused, with a malformed one stoi throws, an incomplete body is waited for, and a
      complete one is refused, for no POST has an answer. */
  lemma BodyDecides(c: Conn, t: Turn, taken: string)
    requires Steady(c) && c.stage == RecvBody && c.link == Connected && |c.inBuf| + |taken| < NPOS && ReadsOn(t, taken)
    ensures BodyFate(WithRead(c, t, taken), Announced(c), Block(c, t, taken))
  {
    var b := WithRead(c, t, taken);
    assert c.(inBuf := b.inBuf).(link := b.link) == b;
  }

  /** The same for a POST that has just been parsed: the length is the value of its last such header line. */
  lemma PostDecides(c: Conn, t: Turn, taken: string, q: X.Call, next: string) returns (p: Conn)
    requires X.Waiting(c) && c.link == Connected && |c.inBuf| + |taken| < NPOS && ReadsOn(t, taken)
    requires X.CallOk(q) && q.mthd == R.Post && c.inBuf + taken == X.Print(q, next)
    ensures X.HasParsed(WithRead(c, t, taken), p, q, X.Behind(next))
    ensures BodyFate(p, H.LastValue(q.headers, "Content-length"), Block(c, t, taken))
  {
    hide ParseSections, X.Print, X.CallOk, H.Merge, H.LastValue, R.IsFileOf;
    var b := WithRead(c, t, taken);
    assert c.(inBuf := b.inBuf).(link := b.link) == b;
    ReadWaits(c, t, taken);
    X.CallIsParsed(b, t, q, next);
    p := ParseSections(b, t).conn;
    H.MergeLooksUp(q.headers, "Content-length");
  }

  // ---------------------------------------------------------------- std::stoi

  /** White space in the C locale: a blank, or one of tab, line feed, vertical tab, form feed and CR. */
  predicate White(c: char) {
    c as int in {32, 9, 10, 11, 12, 13}
  }

  predicate Spaces(s: string) {
    forall k :: 0 <= k < |s| ==> White(s[k])
  }

  predicate Sign(s: string) {
    s == "" || s == "+" || s == "-"
  }

  lemma {:induction false} SkipsSpaces(space: string, text: string)
    requires Spaces(space) && (text != "" ==> !IsSpace(text[0]))
    ensures SkipSpace(space + text) == text
  {
    if space == "" {
      assert space + text == text;
    } else {
      assert (space + text)[1..] == space[1..] + text;
      SkipsSpaces(space[1..], text);
    }
  }

  lemma {:induction false} DigitsFrom(read: string, digits: string, tail: string)
    requires S.AllDigits(read) && S.AllDigits(digits) && (tail != "" ==> !IsDigit(tail[0]))
    ensures S.AllDigits(read + digits) && Digits(digits + tail, S.NatValue(read)) == S.NatValue(read + digits)
    decreases |digits|
  {
    if digits == "" {
      assert read + digits == read && digits + tail == tail;
    } else {
      var more := read + [digits[0]];
      assert more[..|read|] == read;
      assert (digits + tail)[1..] == digits[1..] + tail && read + digits == more + digits[1..];
      DigitsFrom(more, digits[1..], tail);
    }
  }

  lemma Regroup(space: string, sign: string, digits: string, tail: string)
    ensures space + sign + digits + tail == space + (sign + (digits + tail))
  {
  }

  lemma DigitsAreRead(digits: string, tail: string)
    requires digits != "" && S.AllDigits(digits) && (tail != "" ==> !IsDigit(tail[0]))
    ensures var rest := digits + tail;
            rest != "" && IsDigit(rest[0]) && Digits(rest, 0) == S.NatValue(digits)
  {
    assert (digits + tail)[0] == digits[0];
    DigitsFrom("", digits, tail);
    assert "" + digits == digits;
  }

  lemma SignInFront(sign: string, rest: string)
    requires Sign(sign) && rest != "" && IsDigit(rest[0])
    ensures var t := sign + rest; var signed := t != "" && (t[0] == '-' || t[0] == '+');
            && !IsSpace(t[0]) && (signed <==> sign != "") && (signed ==> t[1..] == rest && t[0] == sign[0])
            && (!signed ==> t == rest)
  {
    if sign == "" {
      assert sign + rest == rest;
    } else {
      assert (sign + rest)[1..] == rest;
    }
  }

  /** stoi skips white space, takes a sign and all digits behind it, and ignores the rest; the value is that of the
      digits, if it fits into 32 bits. */
  lemma StoiReads(space: string, sign: string, digits: string, tail: string)
    requires Spaces(space) && Sign(sign) && digits != "" && S.AllDigits(digits) && (tail != "" ==> !IsDigit(tail[0]))
    ensures var v := if sign == "-" then 0 - S.NatValue(digits) else S.NatValue(digits);
            Stoi(space + sign + digits + tail) == if -2147483648 <= v <= 2147483647 then Some(v) else None
  {
    hide SkipSpace, Digits, S.NatValue, S.AllDigits, Spaces;
    Regroup(space, sign, digits, tail);
    var rest := digits + tail;
    DigitsAreRead(digits, tail);
    SignInFront(sign, rest);
    SkipsSpaces(space, sign + rest);
  }

  /** Without a digit there it throws. */
  lemma StoiNeedsDigit(space: string, sign: string, tail: string)
    requires Spaces(space) && Sign(sign) && (tail != "" ==> !IsDigit(tail[0]))
    requires sign == "" && tail != "" ==> !White(tail[0]) && tail[0] != '+' && tail[0] != '-'
    ensures Stoi(space + sign + tail) == None
  {
    assert space + sign + tail == space + (sign + tail);
    SkipsSpaces(space, sign + tail);
    assert sign != "" ==> (sign + tail)[1..] == tail;
  }

  // ---------------------------------------------------------------- a peer that has closed its side

  /** A half-closed connection takes no request any more: one more readable event only sends, and then it is closed,
      or left again if output is still unsent. */
  lemma HalfClosedOnlySends(c: Conn, revents: Mask, net: string, plan: Plan)
    requires Steady(c) && c.link == Disconnecting && |c.inBuf| + |net| < NPOS && Reading(revents) && OUT !in revents
    ensures var e := HandleEvents(c, revents, net, plan, 0); var t := plan(0);
            var rest := if t.writeFails then c.outBuf else c.outBuf[Min(t.sent, |c.outBuf|)..];
            && e.Done? && e.conn.inBuf == "" && e.conn.outBuf == rest && e.conn.link == Disconnecting && e.turn == 1
            && (e.conn.error <==> t.writeFails && c.outBuf != "")
            && (e.request.Leave? <==> !e.conn.error && rest != "") && (!e.request.Leave? ==> e.request.Close?)
  {
    hide ParseSections, AnswerSections;
    L.SteadyWithout(c);
    BlockKeeps(c.(events := {}), plan(0), FirstRead(net, plan));
  }

  /** A connection that finds the end of the stream and nothing before it takes no request either: it sends, and is
      closed, or left if output is still unsent. */
  lemma EndOnlySends(c: Conn, revents: Mask, net: string, plan: Plan)
    requires Steady(c) && c.link == Connected && |c.inBuf| + |net| < NPOS && Reading(revents) && OUT !in revents
    requires plan(0).end == Eof && FirstRead(net, plan) == ""
    ensures var e := HandleEvents(c, revents, net, plan, 0); var t := plan(0);
            var rest := if t.writeFails then c.outBuf else c.outBuf[Min(t.sent, |c.outBuf|)..];
            && e.Done? && e.conn.inBuf == c.inBuf && e.conn.outBuf == rest && e.conn.link == Disconnecting
            && e.turn == 1
            && (e.conn.error <==> t.writeFails && c.outBuf != "")
            && (e.request.Leave? <==> !e.conn.error && rest != "") && (!e.request.Leave? ==> e.request.Close?)
  {
    hide ParseSections, AnswerSections;
    L.SteadyWithout(c);
    var d := c.(events := {});
    assert d.inBuf + "" == d.inBuf;
    BlockKeeps(d, plan(0), FirstRead(net, plan));
  }
}
