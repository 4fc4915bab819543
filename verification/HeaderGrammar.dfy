/** The header automaton of HttpData::parseHeaders (HttpData.cpp:396-509), as a fold over
    the characters of the buffer, and the language of header blocks that it accepts. */
module HeaderGrammar {
  import opened Wrappers

  const CR := '\r'
  const LF := '\n'
  /** A value character may sit at most this far from the first one (HttpData.cpp:452). */
  const MAX_VALUE_OFFSET := 255

  datatype HState = Start | Key | Colon | SpaceAfterColon | Value | Cr | Lf | EndCr | EndLf

  datatype Header = Header(key: string, value: string)

  // ---------------------------------------------------------------- the automaton

  /** What parseHeaders knows after some characters.  key and value are None while the index
      that marks their beginning is still -1, which happens only in a call that resumes in the
      middle of a line.  count is `i - value_start`, begin is now_read_line_begin and end is the
      position behind the blank line. */
  datatype Scan = Scan(h: HState, skip: string, lines: seq<Header>, key: Option<string>, value: Option<string>,
                       count: nat, begin: nat, end: nat, known: bool)

  /** Every call starts with all four indices at -1; only the automaton state survives. */
  function Resume(h: HState): Scan {
    Scan(h, "", [], None, None, 1, 0, 0, true)
  }

  function Grow(s: Option<string>, c: char): Option<string> {
    if s.Some? then Some(s.value + [c]) else None
  }

  /** One turn of the loop on character c at position i; None is PARSE_HEADER_ERROR.
      EndLf absorbs: the loop stops there. */
  function Feed(s: Scan, c: char, i: nat): Option<Scan> {
    match s.h
    case Start =>
      if c == LF || c == CR then Some(s.(skip := s.skip + [c]))
      else Some(s.(h := Key, key := Some([c]), begin := i))
    case Key =>
      if c == ':' then Some(s.(h := Colon))
      else if c == LF || c == CR then None
      else Some(s.(key := Grow(s.key, c)))
    case Colon => if c == ' ' then Some(s.(h := SpaceAfterColon)) else None
    case SpaceAfterColon => Some(s.(h := Value, value := Some([c]), count := 1))
    case Value =>
      if c == CR then Some(s.(h := Cr))
      else if s.count > MAX_VALUE_OFFSET then None
      else Some(s.(value := Grow(s.value, c), count := s.count + 1))
    case Cr =>
      if c != LF then None
      else if s.key.Some? && s.value.Some? then
        Some(s.(h := Lf, lines := s.lines + [Header(s.key.value, s.value.value)], begin := i))
      else Some(s.(h := Lf, known := false, begin := i))
    case Lf =>
      if c == CR then Some(s.(h := EndCr)) else Some(s.(h := Key, key := Some([c])))
    case EndCr => if c == LF then Some(s.(h := EndLf, end := i + 1)) else None
    case EndLf => Some(s)
  }

  function After(s: Scan, text: string): Option<Scan> {
    if text == "" then Some(s)
    else
      var r := After(s, text[..|text| - 1]);
      if r.None? then None else Feed(r.value, text[|text| - 1], |text| - 1)
  }

  datatype Outcome =
    | Success(scan: Scan, rest: string)
    | Again(scan: Scan, rest: string)
    | Error(scan: Scan)

  /** The buffer behind the blank line, less the byte that the H_END_LF arm steps over. */
  function Residue(buf: string, end: nat): string
    requires end <= |buf|
  {
    if end == |buf| then "" else buf[end + 1..]
  }

  /** Positions recorded by a scan lie inside the text that was scanned. */
  lemma {:induction false} PositionsInText(s: Scan, text: string)
    requires s.begin == 0 && s.end == 0
    ensures After(s, text).Some? ==> After(s, text).value.begin <= |text| && After(s, text).value.end <= |text|
  {
    if text != "" {
      PositionsInText(s, text[..|text| - 1]);
    }
  }

  /** The scan just before the first character that is refused, if one is. */
  function LastGood(s: Scan, text: string): Scan {
    if After(s, text).Some? then After(s, text).value else LastGood(s, text[..|text| - 1])
  }

  /** What one call of parseHeaders answers: the verdict, what it knows when it returns, and the
      buffer it leaves; an error leaves the buffer as it was. */
  function ParseFrom(h: HState, buf: string): Outcome {
    PositionsInText(Resume(h), buf);
    var r := After(Resume(h), buf);
    if r.None? then Error(LastGood(Resume(h), buf))
    else if r.value.h == EndLf then Success(r.value, Residue(buf, r.value.end))
    else Again(r.value, buf[r.value.begin..])
  }

  function Parse(buf: string): Outcome {
    ParseFrom(Start, buf)
  }

  /** The map the stored lines leave behind: a later line overwrites an earlier one. */
  function Merge(base: map<string, string>, lines: seq<Header>): map<string, string> {
    if lines == [] then base
    else
      var last := lines[|lines| - 1];
      Merge(base, lines[..|lines| - 1])[last.key := last.value]
  }

  // ---------------------------------------------------------------- the language

  predicate IsBreak(c: char) {
    c == CR || c == LF
  }

  predicate SkipOk(skip: string) {
    forall k :: 0 <= k < |skip| ==> IsBreak(skip[k])
  }

  /** Only the first character of a key escapes the check for ':' and line breaks; on the first
      line it is no CR or LF, on a later line no CR. */
  predicate KeyOk(key: string, first: bool) {
    && key != ""
    && key[0] != CR
    && (first ==> key[0] != LF)
    && forall k :: 1 <= k < |key| ==> key[k] != ':' && !IsBreak(key[k])
  }

  /** The first value character is unrestricted. */
  predicate ValueOk(value: string) {
    && 1 <= |value| <= 256
    && forall k :: 1 <= k < |value| ==> value[k] != CR
  }

  predicate LinesOk(lines: seq<Header>) {
    forall j :: 0 <= j < |lines| ==> KeyOk(lines[j].key, j == 0) && ValueOk(lines[j].value)
  }

  function Line(h: Header): string {
    h.key + ": " + h.value + [CR, LF]
  }

  function Lines(lines: seq<Header>): string {
    if lines == [] then "" else Lines(lines[..|lines| - 1]) + Line(lines[|lines| - 1])
  }

  function Render(skip: string, lines: seq<Header>): string {
    skip + Lines(lines) + [CR, LF]
  }

  predicate BlockOk(skip: string, lines: seq<Header>) {
    SkipOk(skip) && lines != [] && LinesOk(lines)
  }

  /** buf begins with a complete header block. */
  ghost predicate HasBlock(buf: string) {
    exists skip, lines, rest :: BlockOk(skip, lines) && buf == Render(skip, lines) + rest
  }

  // ---------------------------------------------------------------- folding

  lemma AfterSnoc(s: Scan, text: string, c: char)
    ensures After(s, text + [c]) == if After(s, text).None? then None else Feed(After(s, text).value, c, |text|)
  {
    assert (text + [c])[..|text|] == text;
  }

  /** Errors stay errors, and a finished block stays finished: later input changes neither. */
  lemma {:induction false} VerdictStable(s: Scan, buf: string, ext: string)
    ensures After(s, buf).None? ==> After(s, buf + ext).None?
    ensures After(s, buf).Some? && After(s, buf).value.h == EndLf ==> After(s, buf + ext) == After(s, buf)
  {
    if ext == "" {
      assert buf + ext == buf;
    } else {
      var init := ext[..|ext| - 1];
      VerdictStable(s, buf, init);
      assert buf + ext == (buf + init) + [ext[|ext| - 1]];
      AfterSnoc(s, buf + init, ext[|ext| - 1]);
    }
  }

  lemma {:induction false} FirstRefusal(s: Scan, good: string, c: char, ext: string)
    requires After(s, good).Some? && Feed(After(s, good).value, c, |good|).None?
    ensures After(s, good + [c] + ext).None? && LastGood(s, good + [c] + ext) == After(s, good).value
  {
    AfterSnoc(s, good, c);
    var text := good + [c] + ext;
    VerdictStable(s, good + [c], ext);
    if ext == "" {
      assert text[..|text| - 1] == good;
    } else {
      FirstRefusal(s, good, c, ext[..|ext| - 1]);
      assert text[..|text| - 1] == good + [c] + ext[..|ext| - 1];
    }
  }

  // ---------------------------------------------------------------- soundness

  /** The states between the first key character and the line break. */
  predicate InLine(h: HState) {
    h == Key || h == Colon || h == SpaceAfterColon || InValue(h)
  }

  predicate InValue(h: HState) {
    h == Value || h == Cr
  }

  /** What the scan has read of the current line. */
  function Partial(s: Scan): string
    requires InLine(s.h) ==> s.key.Some?
    requires InValue(s.h) ==> s.value.Some?
  {
    match s.h
    case Start => ""
    case Key => s.key.value
    case Colon => s.key.value + ":"
    case SpaceAfterColon => s.key.value + ": "
    case Value => s.key.value + ": " + s.value.value
    case Cr => s.key.value + ": " + s.value.value + [CR]
    case Lf => ""
    case EndCr => [CR]
    case EndLf => [CR, LF]
  }

  /** The text that leads a fresh scan to s. */
  function Consumed(s: Scan): string
    requires InLine(s.h) ==> s.key.Some?
    requires InValue(s.h) ==> s.value.Some?
  {
    s.skip + Lines(s.lines) + Partial(s)
  }

  predicate Good(s: Scan) {
    && s.known && SkipOk(s.skip) && LinesOk(s.lines)
    && (s.h == Start ==> s.lines == [])
    && (s.h == Lf || s.h == EndCr || s.h == EndLf ==> s.lines != [])
    && (InLine(s.h) ==> s.key.Some? && KeyOk(s.key.value, s.lines == []))
    && (InValue(s.h) ==> s.value.Some? && ValueOk(s.value.value))
    && (s.h == Value ==> s.count == |s.value.value|)
    && (s.h == EndLf ==> s.end == |Consumed(s)|)
  }

  lemma LinesSnoc(lines: seq<Header>, h: Header)
    ensures Lines(lines + [h]) == Lines(lines) + Line(h)
  {
    assert (lines + [h])[..|lines|] == lines;
  }

  /** Inside a line, at its start or in the final break, the lines stay and the partial line grows. */
  lemma FeedWithinLine(s: Scan, c: char, i: nat)
    requires Good(s) && s.h != EndLf && s.h != Cr && s.h != Start && i == |Consumed(s)|
    requires Feed(s, c, i).Some?
    ensures var t := Feed(s, c, i).value;
            Good(t) && t.skip == s.skip && t.lines == s.lines && Partial(t) == Partial(s) + [c]
  {
    hide Lines, LinesOk, SkipOk;
  }

  lemma SkipLinesSnoc(skip: string, lines: seq<Header>, h: Header)
    ensures skip + Lines(lines + [h]) == (skip + Lines(lines)) + Line(h)
  {
    LinesSnoc(lines, h);
  }

  /** At a line's LF, the partial line becomes a stored line. */
  lemma FeedEndsLine(s: Scan, c: char, i: nat)
    requires Good(s) && s.h == Cr && i == |Consumed(s)|
    requires Feed(s, c, i).Some?
    ensures var t := Feed(s, c, i).value; Good(t) && Consumed(t) == Consumed(s) + [c]
  {
    var h := Header(s.key.value, s.value.value);
    var t := Feed(s, c, i).value;
    SkipLinesSnoc(s.skip, s.lines, h);
    assert Line(h) == Partial(s) + [c];
    assert Partial(t) == "";
    assert Consumed(t) == s.skip + Lines(t.lines);
  }

  /** One accepted character: the scan stays sound and has read one character more. */
  lemma FeedKeepsGood(s: Scan, c: char, i: nat)
    requires Good(s) && s.h != EndLf && i == |Consumed(s)|
    requires Feed(s, c, i).Some?
    ensures var t := Feed(s, c, i).value; Good(t) && Consumed(t) == Consumed(s) + [c]
  {
    if s.h == Start {
      assert s.skip + Lines([]) == s.skip;
      assert s.skip + [c] + Lines([]) == s.skip + [c];
    } else if s.h == Cr {
      FeedEndsLine(s, c, i);
    } else {
      FeedWithinLine(s, c, i);
    }
  }

  lemma EndStays(s: Scan, c: char, i: nat)
    requires s.h == EndLf
    ensures Feed(s, c, i) == Some(s)
  {
  }

  lemma StartIsGood()
    ensures Good(Resume(Start)) && Consumed(Resume(Start)) == ""
  {
  }

  /** A fresh scan has read exactly Consumed, or Consumed and then anything once the block is complete. */
  lemma {:induction false} ScanReadsConsumed(text: string)
    requires After(Resume(Start), text).Some?
    ensures var s := After(Resume(Start), text).value;
            Good(s) && Consumed(s) <= text && (s.h != EndLf ==> Consumed(s) == text)
  {
    hide Good, Consumed, Feed;
    if text == "" {
      StartIsGood();
    } else {
      var init, c := text[..|text| - 1], text[|text| - 1];
      assert text == init + [c];
      ScanReadsConsumed(init);
      var s := After(Resume(Start), init).value;
      if s.h == EndLf {
        EndStays(s, c, |init|);
      } else {
        FeedKeepsGood(s, c, |init|);
      }
    }
  }

  /** Behind the first line the kept part begins with the LF that ended the line before. */
  function Kept(s: Scan): string
    requires Good(s)
  {
    if s.h == Start then s.skip else if s.lines == [] then Partial(s) else [LF] + Partial(s)
  }

  lemma FeedKeepsKept(s: Scan, c: char, i: nat)
    requires Good(s) && s.h != EndLf && i == |Consumed(s)| && Feed(s, c, i).Some?
    ensures var t := Feed(s, c, i).value;
            && Good(t)
            && if s.h == Cr || (s.h == Start && t.h == Key) then t.begin == i && Kept(t) == [c]
               else t.begin == s.begin && Kept(t) == Kept(s) + [c]
  {
    FeedKeepsGood(s, c, i);
    if s.h != Start && s.h != Cr {
      FeedWithinLine(s, c, i);
      hide Partial, Consumed, Good;
      assert [LF] + (Partial(s) + [c]) == ([LF] + Partial(s)) + [c];
    }
  }

  lemma SuffixSnoc(text: string, c: char, begin: nat)
    requires begin <= |text|
    ensures (text + [c])[begin..] == text[begin..] + [c] && (text + [c])[|text|..] == [c]
  {
  }

  lemma {:induction false} BeginIsKept(text: string)
    requires After(Resume(Start), text).Some? && After(Resume(Start), text).value.h != EndLf
    ensures var s := After(Resume(Start), text).value;
            Good(s) && s.begin <= |text| && text[s.begin..] == Kept(s)
  {
    if text == "" {
      StartIsGood();
    } else {
      var init, c := text[..|text| - 1], text[|text| - 1];
      var s := After(Resume(Start), init).value;
      assert s.h != EndLf;
      hide Good, Consumed, Kept, Feed;
      assert text == init + [c];
      BeginIsKept(init);
      ScanReadsConsumed(init);
      FeedKeepsKept(s, c, |init|);
      SuffixSnoc(init, c, s.begin);
    }
  }

  /** An unfinished call keeps of the buffer just what it has read of the current line, with the LF before it. */
  lemma AgainKeeps(buf: string)
    requires Parse(buf).Again?
    ensures var o := Parse(buf); Good(o.scan) && o.rest == Kept(o.scan)
  {
    BeginIsKept(buf);
  }

  // ---------------------------------------------------------------- completeness

  lemma {:induction false} ReadSkip(skip: string)
    requires SkipOk(skip)
    ensures After(Resume(Start), skip) == Some(Resume(Start).(skip := skip))
  {
    if skip != "" {
      var init := skip[..|skip| - 1];
      ReadSkip(init);
      assert init + [skip[|skip| - 1]] == skip;
    }
  }

  /** From the state s reached by `before`, the characters of text only extend the key. */
  lemma {:induction false} ReadKeyTail(start: Scan, before: string, text: string)
    requires After(start, before).Some? && After(start, before).value.h == Key && After(start, before).value.key.Some?
    requires forall k :: 0 <= k < |text| ==> text[k] != ':' && !IsBreak(text[k])
    ensures var s := After(start, before).value;
            After(start, before + text) == Some(s.(key := Some(s.key.value + text)))
  {
    hide After;
    var s := After(start, before).value;
    if text == "" {
      assert before + text == before && s.key.value + text == s.key.value;
    } else {
      var init, c := text[..|text| - 1], text[|text| - 1];
      ReadKeyTail(start, before, init);
      assert before + text == (before + init) + [c];
      AfterSnoc(start, before + init, c);
      assert s.key.value + text == (s.key.value + init) + [c];
    }
  }

  lemma {:induction false} ReadValueTail(start: Scan, before: string, text: string)
    requires After(start, before).Some?
    requires var s := After(start, before).value;
             s.h == Value && s.value.Some? && s.count == |s.value.value| && s.count + |text| <= MAX_VALUE_OFFSET + 1
    requires forall k :: 0 <= k < |text| ==> text[k] != CR
    ensures var s := After(start, before).value;
            After(start, before + text) == Some(s.(value := Some(s.value.value + text), count := s.count + |text|))
  {
    hide After;
    var s := After(start, before).value;
    if text == "" {
      assert before + text == before && s.value.value + text == s.value.value;
    } else {
      var init, c := text[..|text| - 1], text[|text| - 1];
      ReadValueTail(start, before, init);
      assert before + text == (before + init) + [c];
      AfterSnoc(start, before + init, c);
      assert s.value.value + text == (s.value.value + init) + [c];
    }
  }

  /** The scan at `before` stands where a line may begin. */
  ghost predicate AtLineStart(before: string, first: bool) {
    var r := After(Resume(Start), before);
    r.Some? && r.value.h == (if first then Start else Lf)
  }

  /** Reading a key and its colon. */
  lemma ReadKey(before: string, first: bool, key: string)
    requires AtLineStart(before, first) && KeyOk(key, first)
    ensures var s := After(Resume(Start), before).value;
            var r := After(Resume(Start), before + key + [':']);
            r.Some? && r.value.h == Colon && r.value.key == Some(key) && r.value.skip == s.skip
            && r.value.lines == s.lines && r.value.known == s.known
  {
    hide After;
    var start := Resume(Start);
    AfterSnoc(start, before, key[0]);
    ReadKeyTail(start, before + [key[0]], key[1..]);
    assert [key[0]] + key[1..] == key;
    assert before + [key[0]] + key[1..] == before + key;
    AfterSnoc(start, before + key, ':');
  }

  /** Reading the space, a value and its CR. */
  lemma ReadValue(before: string, value: string)
    requires ValueOk(value)
    requires var r := After(Resume(Start), before); r.Some? && r.value.h == Colon
    ensures var s := After(Resume(Start), before).value;
            var r := After(Resume(Start), before + [' '] + value + [CR]);
            r.Some? && r.value.h == Cr && r.value.value == Some(value) && r.value.skip == s.skip
            && r.value.lines == s.lines && r.value.known == s.known && r.value.key == s.key
  {
    hide After;
    var start := Resume(Start);
    AfterSnoc(start, before, ' ');
    AfterSnoc(start, before + [' '], value[0]);
    ReadValueTail(start, before + [' '] + [value[0]], value[1..]);
    assert [value[0]] + value[1..] == value;
    assert before + [' '] + [value[0]] + value[1..] == before + [' '] + value;
    AfterSnoc(start, before + [' '] + value, CR);
  }

  lemma LineInPieces(before: string, h: Header)
    ensures before + Line(h) == before + h.key + [':'] + [' '] + h.value + [CR] + [LF]
  {
    assert ": " == [':'] + [' '];
    assert [CR, LF] == [CR] + [LF];
  }

  /** A well-formed line takes the scan from one line start to the next. */
  lemma ReadLine(before: string, first: bool, h: Header)
    requires AtLineStart(before, first) && KeyOk(h.key, first) && ValueOk(h.value)
    ensures AtLineStart(before + Line(h), false)
    ensures var s := After(Resume(Start), before).value;
            var t := After(Resume(Start), before + Line(h)).value;
            t.skip == s.skip && t.known == s.known && t.lines == s.lines + [h]
  {
    ReadKey(before, first, h.key);
    var colon := before + h.key + [':'];
    ReadValue(colon, h.value);
    AfterSnoc(Resume(Start), colon + [' '] + h.value + [CR], LF);
    LineInPieces(before, h);
  }

  /** The scan at text has read the skipped breaks and exactly these lines. */
  ghost predicate HasRead(text: string, skip: string, lines: seq<Header>) {
    && AtLineStart(text, lines == [])
    && var s := After(Resume(Start), text).value; s.skip == skip && s.known && s.lines == lines
  }

  lemma ReadOneMore(text: string, skip: string, lines: seq<Header>, h: Header)
    requires HasRead(text, skip, lines) && KeyOk(h.key, lines == []) && ValueOk(h.value)
    ensures HasRead(text + Line(h), skip, lines + [h])
  {
    ReadLine(text, lines == [], h);
  }

  lemma {:induction false} ReadLines(skip: string, lines: seq<Header>)
    requires SkipOk(skip) && LinesOk(lines)
    ensures HasRead(skip + Lines(lines), skip, lines)
  {
    if lines == [] {
      ReadSkip(skip);
      assert skip + Lines(lines) == skip;
    } else {
      var init, h := lines[..|lines| - 1], lines[|lines| - 1];
      ReadLines(skip, init);
      assert lines == init + [h] && KeyOk(h.key, init == []) && ValueOk(h.value);
      ReadOneMore(skip + Lines(init), skip, init, h);
      SkipLinesSnoc(skip, init, h);
    }
  }

  lemma ReadBlock(skip: string, lines: seq<Header>)
    requires BlockOk(skip, lines)
    ensures var r := After(Resume(Start), Render(skip, lines));
            r.Some? && r.value.h == EndLf && r.value.lines == lines && r.value.skip == skip && r.value.known
            && r.value.end == |Render(skip, lines)|
  {
    var text := skip + Lines(lines);
    ReadLines(skip, lines);
    AfterSnoc(Resume(Start), text, CR);
    AfterSnoc(Resume(Start), text + [CR], LF);
    assert text + [CR] + [LF] == Render(skip, lines);
  }

  lemma ResidueBehind(block: string, rest: string)
    ensures Residue(block + rest, |block|) == if rest == "" then "" else rest[1..]
  {
    if rest != "" {
      assert (block + rest)[|block| + 1..] == rest[1..];
    }
  }

  /** Every rendered block is read back: the lines, and the residue less one byte. */
  lemma BlockIsRead(skip: string, lines: seq<Header>, rest: string)
    requires BlockOk(skip, lines)
    ensures var o := Parse(Render(skip, lines) + rest);
            && o.Success? && o.scan.lines == lines && o.scan.skip == skip && o.scan.known
            && o.scan.end == |Render(skip, lines)|
            && o.rest == (if rest == "" then "" else rest[1..])
  {
    ReadBlock(skip, lines);
    VerdictStable(Resume(Start), Render(skip, lines), rest);
    ResidueBehind(Render(skip, lines), rest);
  }

  /** The stored map in terms of the lines alone: it has their keys, each with its last value. */
  lemma {:induction false} MergeIsLastWins(base: map<string, string>, lines: seq<Header>, key: string)
    ensures key in Merge(base, lines) <==> key in base || exists j :: 0 <= j < |lines| && lines[j].key == key
    ensures forall j :: 0 <= j < |lines| && lines[j].key == key
                        && (forall i :: j < i < |lines| ==> lines[i].key != key)
                        ==> Merge(base, lines)[key] == lines[j].value
  {
    if lines != [] {
      var init, last := lines[..|lines| - 1], lines[|lines| - 1];
      MergeIsLastWins(base, init, key);
      assert forall j :: 0 <= j < |init| ==> init[j] == lines[j];
      forall j | 0 <= j < |lines| && lines[j].key == key ensures key in Merge(base, lines) {
        if j < |init| {
          assert init[j].key == key;
        }
      }
      forall j | 0 <= j < |lines| && lines[j].key == key && forall i :: j < i < |lines| ==> lines[i].key != key
        ensures Merge(base, lines)[key] == lines[j].value
      {
        if j < |init| {
          assert lines[|init|].key != key;
          assert forall i :: j < i < |init| ==> init[i].key != key;
          assert init[j].key == key;
        }
      }
    }
  }

  /** The value of the last line with this key. */
  function LastValue(lines: seq<Header>, key: string): Option<string> {
    if lines == [] then None
    else if lines[|lines| - 1].key == key then Some(lines[|lines| - 1].value)
    else LastValue(lines[..|lines| - 1], key)
  }

  lemma {:induction false} MergeLooksUp(lines: seq<Header>, key: string)
    ensures key in Merge(map[], lines) <==> LastValue(lines, key).Some?
    ensures key in Merge(map[], lines) ==> LastValue(lines, key) == Some(Merge(map[], lines)[key])
  {
    if lines != [] {
      MergeLooksUp(lines[..|lines| - 1], key);
    }
  }

  // ---------------------------------------------------------------- the verdicts

  /** PARSE_HEADER_SUCCESS exactly when the buffer begins with a header block. */
  lemma SuccessIff(buf: string)
    ensures Parse(buf).Success? <==> HasBlock(buf)
  {
    if Parse(buf).Success? {
      ScanReadsConsumed(buf);
      var s := Parse(buf).scan;
      assert buf == Render(s.skip, s.lines) + buf[|Consumed(s)|..];
      assert BlockOk(s.skip, s.lines);
    }
    if HasBlock(buf) {
      var skip, lines, rest :| BlockOk(skip, lines) && buf == Render(skip, lines) + rest;
      BlockIsRead(skip, lines, rest);
    }
  }

  /** The character that brings an unfinished scan closer to the end of a block. */
  function NextChar(h: HState): char {
    match h
    case Start => 'k'
    case Key => ':'
    case Colon => ' '
    case SpaceAfterColon => 'v'
    case Value => CR
    case Cr => LF
    case Lf => CR
    case EndCr => LF
    case EndLf => LF
  }

  function Distance(h: HState): nat {
    match h
    case Start => 8 case Key => 7 case Colon => 6 case SpaceAfterColon => 5 case Value => 4
    case Cr => 3 case Lf => 2 case EndCr => 1 case EndLf => 0
  }

  /** An unfinished scan can always be completed. */
  lemma {:induction false} Completable(s: Scan, buf: string) returns (ext: string)
    requires After(s, buf).Some?
    ensures After(s, buf + ext).Some? && After(s, buf + ext).value.h == EndLf
    decreases Distance(After(s, buf).value.h)
  {
    var h := After(s, buf).value.h;
    if h == EndLf {
      ext := "";
      assert buf + ext == buf;
    } else {
      AfterSnoc(s, buf, NextChar(h));
      var tail := Completable(s, buf + [NextChar(h)]);
      ext := [NextChar(h)] + tail;
      assert buf + ext == (buf + [NextChar(h)]) + tail;
    }
  }

  /** PARSE_HEADER_AGAIN exactly when no block is there yet but more input can complete one. */
  lemma AgainIff(buf: string)
    ensures Parse(buf).Again? <==> !HasBlock(buf) && exists ext :: HasBlock(buf + ext)
  {
    SuccessIff(buf);
    if Parse(buf).Again? {
      var ext := Completable(Resume(Start), buf);
      SuccessIff(buf + ext);
    }
    if exists ext :: HasBlock(buf + ext) {
      var ext :| HasBlock(buf + ext);
      SuccessIff(buf + ext);
      VerdictStable(Resume(Start), buf, ext);
    }
  }

  /** PARSE_HEADER_ERROR exactly when no continuation of the buffer begins with a block. */
  lemma ErrorIff(buf: string)
    ensures Parse(buf).Error? <==> forall ext :: !HasBlock(buf + ext)
  {
    SuccessIff(buf);
    AgainIff(buf);
    if HasBlock(buf) {
      assert buf + "" == buf;
      assert HasBlock(buf + "");
    }
    if Parse(buf).Error? {
      forall ext ensures !HasBlock(buf + ext) {
        VerdictStable(Resume(Start), buf, ext);
        SuccessIff(buf + ext);
      }
    }
  }

  /** A block determines its lines: no text is a block in two ways. */
  lemma BlockIsUnique(skip1: string, lines1: seq<Header>, rest1: string,
                      skip2: string, lines2: seq<Header>, rest2: string)
    requires BlockOk(skip1, lines1) && BlockOk(skip2, lines2)
    requires Render(skip1, lines1) + rest1 == Render(skip2, lines2) + rest2
    ensures skip1 == skip2 && lines1 == lines2 && rest1 == rest2
  {
    BlockIsRead(skip1, lines1, rest1);
    BlockIsRead(skip2, lines2, rest2);
    var buf := Render(skip1, lines1) + rest1;
    assert rest1 == buf[|Render(skip1, lines1)|..];
    assert rest2 == buf[|Render(skip2, lines2)|..];
  }
}
