/** parseHeaders keeps hState_ between calls but neither its four indices nor the beginning of
    the line, and it feeds the kept part of the buffer again (HttpData.cpp:398, 507).  So a
    header block that arrives in two pieces need not be read as the same block in one piece. */
module HeaderResume {
  import opened Wrappers
  import opened HeaderGrammar

  /** What a caller can see.  headers is None when a header was cut out of the buffer with an
      index that is still -1: the C++ program then reads before the buffer. */
  datatype Answer =
    | Found(headers: Option<map<string, string>>, rest: string)
    | Unfinished
    | Bad

  function AnswerOf(base: map<string, string>, o: Outcome): Answer {
    match o
    case Success(s, rest) => Found(if s.known then Some(Merge(base, s.lines)) else None, rest)
    case Again(_, _) => Unfinished
    case Error(_) => Bad
  }

  /** The block arrives at once. */
  function InOne(buf: string): Answer {
    AnswerOf(map[], Parse(buf))
  }

  /** The block arrives as `first`, which is not enough, and then `ext`. */
  function InTwo(first: string, ext: string): Answer
    requires Parse(first).Again?
  {
    var o := Parse(first);
    AnswerOf(Merge(map[], o.scan.lines), ParseFrom(o.scan.h, o.rest + ext))
  }

  /** After the line break of a header and after the CR of the blank line, the kept part begins
      with the LF that ended the header. */
  lemma {:induction false} KeptAfterLine(text: string)
    requires After(Resume(Start), text).Some?
    ensures var s := After(Resume(Start), text).value;
            && (s.h == Lf ==> s.begin < |text| && text[s.begin..] == [LF])
            && (s.h == EndCr ==> s.begin < |text| && text[s.begin..] == [LF, CR])
  {
    if text != "" {
      KeptAfterLine(text[..|text| - 1]);
    }
  }

  /** Resumed inside a line, the key is lost, and with it the header. */
  lemma {:induction false} ResumedLineIsLost(h: HState, text: string)
    requires InLine(h) && After(Resume(h), text).Some?
    ensures var s := After(Resume(h), text).value; !s.known || (InLine(s.h) && s.key.None?)
  {
    if text != "" {
      ResumedLineIsLost(h, text[..|text| - 1]);
    }
  }

  lemma StartIffOnlyBreaks(first: string)
    requires Parse(first).Again?
    ensures Parse(first).scan.h == Start <==> SkipOk(first)
  {
    ScanReadsConsumed(first);
    if SkipOk(first) {
      ReadSkip(first);
    }
  }

  lemma OldBreakStartsKey()
    ensures ParseFrom(Lf, [LF, CR, LF]).Error?
  {
    var again := Resume(Lf);
    AfterSnoc(again, "", LF);
    AfterSnoc(again, [LF], CR);
    assert [LF] + [CR] == [LF, CR];
    VerdictStable(again, [LF, CR], [LF]);
    assert [LF, CR] + [LF] == [LF, CR, LF];
  }

  /** The blank line is missing: sent on its own it is refused. */
  lemma SplitBeforeBlankLine(first: string)
    requires Parse(first).Again? && Parse(first).scan.h == Lf
    ensures InOne(first + [CR, LF]).Found? && InTwo(first, [CR, LF]).Bad?
  {
    var start := Resume(Start);
    AfterSnoc(start, first, CR);
    AfterSnoc(start, first + [CR], LF);
    assert first + [CR, LF] == first + [CR] + [LF];
    KeptAfterLine(first);
    OldBreakStartsKey();
    assert Parse(first).rest + [CR, LF] == [LF, CR, LF];
  }

  /** Only the final LF is missing: the resumed call takes the old LF for it. */
  lemma SplitInsideBlankLine(first: string)
    requires Parse(first).Again? && Parse(first).scan.h == EndCr
    ensures InOne(first + [LF]).Found? && InOne(first + [LF]).rest == ""
    ensures InTwo(first, [LF]).Found? && InTwo(first, [LF]).rest == [LF]
  {
    AfterSnoc(Resume(Start), first, LF);
    KeptAfterLine(first);
    var again := Resume(EndCr);
    AfterSnoc(again, "", LF);
    var whole := Parse(first).rest + [LF];
    assert whole == ("" + [LF]) + [CR, LF];
    VerdictStable(again, "" + [LF], [CR, LF]);
    assert Residue(whole, 1) == [LF];
  }

  /** Inside a line: complete in one piece, lost in two. */
  lemma SplitInsideLine(first: string) returns (ext: string)
    requires Parse(first).Again? && InLine(Parse(first).scan.h)
    ensures InTwo(first, ext) != InOne(first + ext)
  {
    ext := Completable(Resume(Start), first);
    ScanReadsConsumed(first + ext);
    var h, kept := Parse(first).scan.h, Parse(first).rest;
    if After(Resume(h), kept + ext).Some? {
      ResumedLineIsLost(h, kept + ext);
    }
  }

  /** The exact condition: two pieces are read like one, whatever comes second, if and only if
      the first piece holds nothing but line breaks. */
  lemma TwoPiecesLikeOneIff(first: string)
    requires Parse(first).Again?
    ensures (forall ext :: InTwo(first, ext) == InOne(first + ext)) <==> SkipOk(first)
  {
    StartIffOnlyBreaks(first);
    var h := Parse(first).scan.h;
    if h == Start {
      ReadSkip(first);
      assert Parse(first).rest == first;
    } else if h == Lf {
      SplitBeforeBlankLine(first);
    } else if h == EndCr {
      SplitInsideBlankLine(first);
    } else {
      var ext := SplitInsideLine(first);
    }
  }
}
