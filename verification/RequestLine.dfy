/** HttpData::parseURI (HttpData.cpp:311-394) with its size_t comparisons: `pos < 0` never holds,
    so npos flows on and wraps around. */
module RequestLine {
  import opened Wrappers
  import opened Text

  datatype Method = Post | Get | Head
  datatype Version = Http10 | Http11
  datatype Verdict = Again | Error | Success

  /** The fields of HttpData that parseURI assigns. */
  datatype Request = Request(mthd: Method, fileName: string, version: Version)

  datatype Answer = Answer(verdict: Verdict, req: Request, rest: string)

  const INDEX := "index.html"

  // ---------------------------------------------------------------- the parser

  /** The line before the first CR and what follows that CR.  Without a CR, pos + 1 wraps to 0:
      the whole buffer is the line and nothing is taken out of it. */
  function CutLine(buf: string): (string, string)
    requires |buf| < NPOS
  {
    var pos := Find(buf, "\r", 0);
    var next := (pos + 1) % SIZE_RANGE;
    (Substr(buf, 0, pos), if |buf| > next then Substr(buf, next, NPOS) else "")
  }

  function BeforeQuery(file: string): string
    requires |file| < NPOS
  {
    Substr(file, 0, Find(file, "?", 0))
  }

  function ParseVersion(req: Request, line: string, rest: string, pos: nat): Answer
    requires |line| < NPOS && (pos < |line| || pos == NPOS)
  {
    if Minus(|line|, pos) <= 3 then Answer(Error, req, rest)
    else
      var ver := Substr(line, (pos + 1) % SIZE_RANGE, 3);
      if ver == "1.0" then Answer(Success, req.(version := Http10), rest)
      else if ver == "1.1" then Answer(Success, req.(version := Http11), rest)
      else Answer(Error, req, rest)
  }

  /** The file named between the slash at pos and the blank; npos - npos is no room for a name. */
  function FileName(line: string, pos: nat, blank: nat): string
    requires |line| < NPOS && (pos < |line| || (pos == NPOS && blank == NPOS))
  {
    var width := Minus(blank, pos);
    if width > 1 then BeforeQuery(Substr(line, pos + 1, width - 1)) else INDEX
  }

  function ParseTarget(req: Request, line: string, rest: string, from: nat): Answer
    requires |line| < NPOS
  {
    var pos := Find(line, "/", from);
    var blank := Find(line, " ", pos);
    ParseVersion(req.(fileName := FileName(line, pos, blank)), line, rest, Find(line, "/", blank))
  }

  /** The method and the position of its name: GET is looked for first, then POST, then HEAD. */
  function PickMethod(line: string): Option<(Method, nat)>
    requires |line| < NPOS
  {
    var posGet := ToInt32(Find(line, "GET", 0));
    var posPost := ToInt32(Find(line, "POST", 0));
    var posHead := ToInt32(Find(line, "HEAD", 0));
    if posGet >= 0 then Some((Get, posGet))
    else if posPost >= 0 then Some((Post, posPost))
    else if posHead >= 0 then Some((Head, posHead))
    else None
  }

  function ParseUri(req: Request, buf: string): Answer
    requires |buf| < NPOS
  {
    var (line, rest) := CutLine(buf);
    match PickMethod(line)
    case None => Answer(Error, req, rest)
    case Some((m, pos)) => ParseTarget(req.(mthd := m), line, rest, pos)
  }

  // ---------------------------------------------------------------- printing a request line

  function MethodName(m: Method): string {
    match m case Post => "POST" case Get => "GET" case Head => "HEAD"
  }

  function VersionName(v: Version): string {
    match v case Http10 => "1.0" case Http11 => "1.1"
  }

  /** The request line of section 3.1.1 of RFC 7230 for the target "/" + target. */
  function PrintLine(m: Method, target: string, v: Version): string {
    MethodName(m) + " /" + target + " HTTP/" + VersionName(v)
  }

  /** A target is printable when it holds no blank and no CR. */
  predicate TargetOk(target: string) {
    forall k :: 0 <= k < |target| ==> target[k] != ' ' && target[k] != '\r'
  }

  /** The file that a target asks for: its part before the query, or the index page. */
  predicate IsFileOf(file: string, target: string) {
    if target == "" then file == "index.html"
    else if '?' in target then
      |file| < |target| && file == target[..|file|] && target[|file|] == '?' && '?' !in file
    else file == target
  }

  /** A target asks for one file. */
  lemma OneFile(file: string, other: string, target: string)
    requires IsFileOf(file, target) && IsFileOf(other, target)
    ensures file == other
  {
  }

  /** The name of another method inside the target wins over the method itself. */
  predicate NameHidden(m: Method, target: string) {
    match m
    case Get => false
    case Post => Contains(target, "GET")
    case Head => Contains(target, "GET") || Contains(target, "POST")
  }

  // ---------------------------------------------------------------- where things are in a printed line

  /** The offset of the target in a printed line. */
  function Offset(m: Method): nat {
    |MethodName(m)| + 2
  }

  /** The nine characters behind the target: " HTTP/1.x". */
  function TailAt(v: Version, j: nat): char {
    if j == 0 then ' '
    else if j == 1 then 'H'
    else if j == 2 || j == 3 then 'T'
    else if j == 4 then 'P'
    else if j == 5 then '/'
    else if j == 6 then '1'
    else if j == 7 then '.'
    else if v == Http10 then '0' else '1'
  }

  function CharAt(m: Method, target: string, v: Version, i: nat): char {
    var o := Offset(m);
    if i < o - 2 then MethodName(m)[i]
    else if i == o - 2 then ' '
    else if i == o - 1 then '/'
    else if i < o + |target| then target[i - o]
    else TailAt(v, i - o - |target|)
  }

  /** line is what PrintLine prints, character by character. */
  ghost predicate Printed(line: string, m: Method, target: string, v: Version) {
    && |line| == Offset(m) + |target| + 9
    && forall i: nat {:trigger CharAt(m, target, v, i)} :: i < |line| ==> line[i] == CharAt(m, target, v, i)
  }

  lemma PrintLineIsPrinted(m: Method, target: string, v: Version)
    ensures Printed(PrintLine(m, target, v), m, target, v)
  {
    var line := PrintLine(m, target, v);
    forall i: nat | i < |line| ensures line[i] == CharAt(m, target, v, i) {
    }
  }

  predicate IsName(name: string) {
    name == "GET" || name == "POST" || name == "HEAD"
  }

  lemma NameNotInFrontOrTail(m: Method, target: string, v: Version, name: string, i: nat)
    requires IsName(name) && 0 < i < Offset(m) + |target| + 8
    requires CharAt(m, target, v, i) == name[0] && CharAt(m, target, v, i + 1) == name[1]
    ensures Offset(m) <= i < Offset(m) + |target|
  {
  }

  lemma NameBeginsInTarget(line: string, m: Method, target: string, v: Version, name: string, i: nat)
    requires Printed(line, m, target, v) && IsName(name)
    requires i > 0 && Occurs(line, name, i)
    ensures Offset(m) <= i < Offset(m) + |target|
  {
    assert line[i + 0] == name[0] && line[i + 1] == name[1];
    assert line[i] == CharAt(m, target, v, i) && line[i + 1] == CharAt(m, target, v, i + 1);
    NameNotInFrontOrTail(m, target, v, name, i);
  }

  lemma NameEndsInTarget(line: string, m: Method, target: string, v: Version, name: string, i: nat)
    requires Printed(line, m, target, v) && IsName(name)
    requires i < Offset(m) + |target| && Occurs(line, name, i)
    ensures i + |name| <= Offset(m) + |target|
  {
    var blank := Offset(m) + |target|;
    assert line[blank] == CharAt(m, target, v, blank) == ' ';
    forall j | i <= j < i + |name| ensures line[j] != ' ' {
      assert line[i + (j - i)] == name[j - i];
    }
  }

  /** Behind its front, a printed line names a method only inside the target. */
  lemma NameInLine(line: string, m: Method, target: string, v: Version, name: string, i: nat)
    requires Printed(line, m, target, v) && IsName(name)
    requires i > 0 && Occurs(line, name, i)
    ensures Offset(m) <= i && Occurs(target, name, i - Offset(m))
  {
    NameBeginsInTarget(line, m, target, v, name, i);
    NameEndsInTarget(line, m, target, v, name, i);
    var o := Offset(m);
    forall k | 0 <= k < |name| ensures target[i - o + k] == name[k] {
      assert line[i + k] == name[k];
      assert line[i + k] == CharAt(m, target, v, i + k);
    }
  }

  lemma NameFromTarget(line: string, m: Method, target: string, v: Version, name: string, i: nat)
    requires Printed(line, m, target, v) && Occurs(target, name, i)
    ensures Occurs(line, name, Offset(m) + i)
  {
    var o := Offset(m);
    forall k | 0 <= k < |name| ensures line[o + i + k] == name[k] {
      assert target[i + k] == name[k];
      assert line[o + i + k] == CharAt(m, target, v, o + i + k);
    }
  }

  /** Searching a printed line for the name of another method searches its target. */
  lemma FindOtherName(line: string, m: Method, target: string, v: Version, other: Method)
    requires Printed(line, m, target, v) && other != m && |line| < NPOS
    ensures Find(line, MethodName(other), 0) != NPOS <==> Contains(target, MethodName(other))
  {
    var name := MethodName(other);
    assert line[0] == CharAt(m, target, v, 0) != name[0];
    assert !Occurs(line, name, 0) by {
      assert line[0 + 0] == line[0];
    }
    var pos := Find(line, name, 0);
    if pos != NPOS {
      NameInLine(line, m, target, v, name, pos);
    }
    if Contains(target, name) {
      var i: nat :| i <= |target| && Occurs(target, name, i);
      NameFromTarget(line, m, target, v, name, i);
    }
  }

  lemma FindOwnName(line: string, m: Method, target: string, v: Version)
    requires Printed(line, m, target, v) && |line| < NPOS
    ensures Find(line, MethodName(m), 0) == 0
  {
    forall k | 0 <= k < |MethodName(m)| ensures line[0 + k] == MethodName(m)[k] {
      assert line[k] == CharAt(m, target, v, k);
    }
    FindFirst(line, MethodName(m), 0, 0);
  }

  // ---------------------------------------------------------------- reading it back

  lemma FindSlash(line: string, m: Method, target: string, v: Version)
    requires Printed(line, m, target, v) && |line| < NPOS
    ensures Find(line, "/", 0) == Offset(m) - 1
  {
    forall i: nat | i < Offset(m) - 1 ensures line[i] != '/' {
      assert line[i] == CharAt(m, target, v, i);
    }
    assert line[Offset(m) - 1] == CharAt(m, target, v, Offset(m) - 1);
    FindChar(line, '/', 0, Offset(m) - 1);
  }

  lemma FindBlank(line: string, m: Method, target: string, v: Version)
    requires Printed(line, m, target, v) && TargetOk(target) && |line| < NPOS
    ensures Find(line, " ", Offset(m) - 1) == Offset(m) + |target|
  {
    var o := Offset(m);
    forall i | o - 1 <= i < o + |target| ensures line[i] != ' ' {
      assert line[i] == CharAt(m, target, v, i);
    }
    assert line[o + |target|] == CharAt(m, target, v, o + |target|);
    FindChar(line, ' ', o - 1, o + |target|);
  }

  lemma FindVersion(line: string, m: Method, target: string, v: Version)
    requires Printed(line, m, target, v) && |line| < NPOS
    ensures var b := Offset(m) + |target|;
            Find(line, "/", b) == b + 5 && line[b + 6..b + 9] == VersionName(v)
  {
    var b := Offset(m) + |target|;
    forall i: nat | b <= i < b + 9 ensures line[i] == TailAt(v, i - b) {
      assert line[i] == CharAt(m, target, v, i);
    }
    FindChar(line, '/', b, b + 5);
  }

  lemma {:induction false} QueryIsCutOff(target: string)
    requires target != "" && |target| < NPOS
    ensures IsFileOf(BeforeQuery(target), target)
  {
    if '?' in target {
      FindPresentChar(target, '?');
    } else {
      FindNoChar(target, '?', 0);
    }
  }

  lemma TargetInLine(line: string, m: Method, target: string, v: Version)
    requires Printed(line, m, target, v)
    ensures Substr(line, Offset(m), |target|) == target
  {
    var o := Offset(m);
    forall k | 0 <= k < |target| ensures line[o + k] == target[k] {
      assert line[o + k] == CharAt(m, target, v, o + k);
    }
    assert line[o..o + |target|] == target;
  }

  lemma VersionIsRead(req: Request, line: string, m: Method, target: string, v: Version, rest: string)
    requires Printed(line, m, target, v) && |line| < NPOS
    ensures ParseVersion(req, line, rest, Offset(m) + |target| + 5) == Answer(Success, req.(version := v), rest)
  {
    FindVersion(line, m, target, v);
    MinusInRange(|line|, Offset(m) + |target| + 5);
  }

  lemma FileIsRead(line: string, m: Method, target: string, v: Version)
    requires Printed(line, m, target, v) && |line| < NPOS
    ensures IsFileOf(FileName(line, Offset(m) - 1, Offset(m) + |target|), target)
  {
    var o := Offset(m);
    MinusInRange(o + |target|, o - 1);
    TargetInLine(line, m, target, v);
    if target != "" {
      QueryIsCutOff(target);
      assert FileName(line, o - 1, o + |target|) == BeforeQuery(Substr(line, o, |target|));
    } else {
      assert FileName(line, o - 1, o + |target|) == INDEX;
    }
  }

  /** The target, the version and the rest of a printed line, once the method is settled. */
  lemma TargetIsRead(req: Request, line: string, m: Method, target: string, v: Version, rest: string)
    requires Printed(line, m, target, v) && TargetOk(target) && |line| < NPOS
    ensures var a := ParseTarget(req, line, rest, 0);
            && a.verdict == Success && a.req.mthd == req.mthd && a.req.version == v && a.rest == rest
            && IsFileOf(a.req.fileName, target)
  {
    hide Printed, TargetOk, IsFileOf, Find, FileName, ParseVersion;
    var o := Offset(m);
    FindSlash(line, m, target, v);
    FindBlank(line, m, target, v);
    FindVersion(line, m, target, v);
    FileIsRead(line, m, target, v);
    VersionIsRead(req.(fileName := FileName(line, o - 1, o + |target|)), line, m, target, v, rest);
  }

  lemma BehindLine(line: string, rest: string)
    ensures var buf := line + "\r" + rest;
            buf[..|line|] == line && buf[|line|] == '\r' && buf[|line| + 1..] == rest
  {
  }

  lemma LineIsCut(line: string, rest: string)
    requires |line| + 1 + |rest| < NPOS && '\r' !in line
    ensures CutLine(line + "\r" + rest) == (line, rest)
  {
    hide Find;
    var buf := line + "\r" + rest;
    BehindLine(line, rest);
    FindChar(buf, '\r', 0, |line|);
  }

  lemma NoCrInLine(line: string, m: Method, target: string, v: Version)
    requires Printed(line, m, target, v) && TargetOk(target)
    ensures '\r' !in line
  {
    forall i | 0 <= i < |line| ensures line[i] != '\r' {
      assert line[i] == CharAt(m, target, v, i);
    }
  }

  /** Which method parseURI settles on. */
  lemma MethodIsPicked(line: string, m: Method, target: string, v: Version)
    requires Printed(line, m, target, v) && |line| < NPOS
    ensures !NameHidden(m, target) ==> PickMethod(line) == Some((m, 0))
    ensures |line| < 0x8000_0000 ==> PickMethod(line).Some?
    ensures |line| < 0x8000_0000 && NameHidden(m, target) ==> PickMethod(line).value.0 != m
  {
    FindOwnName(line, m, target, v);
    if m != Get { FindOtherName(line, m, target, v, Get); }
    if m == Head { FindOtherName(line, m, target, v, Post); }
    Int32OfPosition(Find(line, "GET", 0));
    Int32OfPosition(Find(line, "POST", 0));
    Int32OfPosition(Find(line, "HEAD", 0));
  }

  /** A printed request line is read back: always the rest of the buffer; the method, success, the file and the
      version if no earlier method name hides in the target; and the method only then, as long as positions in
      the line are positive as an int. */
  lemma RoundTrip(req: Request, m: Method, target: string, v: Version, rest: string)
    requires TargetOk(target)
    requires |PrintLine(m, target, v)| + 1 + |rest| < NPOS
    ensures var a := ParseUri(req, PrintLine(m, target, v) + "\r" + rest);
            && a.rest == rest
            && (!NameHidden(m, target) ==>
                 a.verdict == Success && a.req.mthd == m && a.req.version == v && IsFileOf(a.req.fileName, target))
            && (|PrintLine(m, target, v)| < 0x8000_0000 && NameHidden(m, target) ==> a.req.mthd != m)
  {
    hide Printed, PrintLine, CutLine, ParseTarget, PickMethod, IsFileOf, NameHidden, TargetOk;
    var line := PrintLine(m, target, v);
    PrintLineIsPrinted(m, target, v);
    NoCrInLine(line, m, target, v);
    LineIsCut(line, rest);
    MethodIsPicked(line, m, target, v);
    match PickMethod(line)
    case None =>
    case Some((name, pos)) =>
      ParsersKeepRest(req.(mthd := name), line, rest, pos);
      TargetIsRead(req.(mthd := m), line, m, target, v, rest);
  }

  // ---------------------------------------------------------------- lines that are not complete yet

  /** Without a CR the buffer is taken for a complete line and stays where it is. */
  lemma UncutLine(buf: string)
    requires |buf| < NPOS && '\r' !in buf
    ensures CutLine(buf) == (buf, buf)
  {
    FindNoChar(buf, '\r', 0);
    assert (NPOS + 1) % SIZE_RANGE == 0;
  }

  lemma CutTakesALine(buf: string)
    requires |buf| < NPOS && '\r' in buf
    ensures |CutLine(buf).1| < |buf|
  {
    FindPresentChar(buf, '\r');
  }

  lemma VersionKeepsRest(req: Request, line: string, rest: string, pos: nat)
    requires |line| < NPOS && (pos < |line| || pos == NPOS)
    ensures var a := ParseVersion(req, line, rest, pos); a.rest == rest && a.req.mthd == req.mthd && a.verdict != Again
  {
  }

  lemma ParsersKeepRest(req: Request, line: string, rest: string, from: nat)
    requires |line| < NPOS
    ensures var a := ParseTarget(req, line, rest, from); a.rest == rest && a.req.mthd == req.mthd && a.verdict != Again
  {
    var pos := Find(line, "/", from);
    var blank := Find(line, " ", pos);
    VersionKeepsRest(req.(fileName := FileName(line, pos, blank)), line, rest, Find(line, "/", blank));
  }

  /** PARSE_URI_AGAIN is documented for incomplete lines and is never answered: `pos < 0` compares a
      size_t.  The buffer loses its first line exactly when it holds a CR. */
  lemma NeverAgain(req: Request, buf: string)
    requires |buf| < NPOS
    ensures var a := ParseUri(req, buf);
            && a.verdict != Again
            && (a.rest == buf <==> '\r' !in buf)
  {
    if '\r' in buf {
      CutTakesALine(buf);
    } else {
      UncutLine(buf);
    }
    match PickMethod(CutLine(buf).0)
    case None =>
    case Some((m, pos)) => ParsersKeepRest(req.(mthd := m), CutLine(buf).0, CutLine(buf).1, pos);
  }

  lemma RestIsNoLonger(req: Request, buf: string)
    requires |buf| < NPOS
    ensures |ParseUri(req, buf).rest| <= |buf|
  {
    match PickMethod(CutLine(buf).0)
    case None =>
    case Some((m, pos)) => ParsersKeepRest(req.(mthd := m), CutLine(buf).0, CutLine(buf).1, pos);
  }

  /** Where the blanks and slashes of a printed line are. */
  lemma Landmarks(line: string, m: Method, target: string, v: Version, i: nat)
    requires Printed(line, m, target, v) && TargetOk(target) && i < |line|
    ensures line[i] == ' ' ==> i == Offset(m) - 2 || i == Offset(m) + |target|
    ensures line[i] == '/' ==> Offset(m) - 1 <= i
    ensures line[i] == '/' && i > Offset(m) + |target| ==> i == Offset(m) + |target| + 5
  {
    assert line[i] == CharAt(m, target, v, i);
  }

  /** Behind a slash, a part of a printed line holds at most one blank and then at most one slash. */
  lemma VersionIsShort(part: string, line: string, m: Method, target: string, v: Version,
                       slash: nat, blank: nat, pos: nat)
    requires Printed(line, m, target, v) && TargetOk(target)
    requires |part| < |line| && part == line[..|part|]
    requires slash <= blank <= pos < |part| < NPOS
    requires part[slash] == '/' && part[blank] == ' ' && part[pos] == '/'
    ensures Minus(|part|, pos) <= 3
  {
    Landmarks(line, m, target, v, slash);
    Landmarks(line, m, target, v, blank);
    Landmarks(line, m, target, v, pos);
    MinusInRange(|part|, pos);
  }

  /** With npos for a position, the first three characters are taken for the version. */
  lemma FrontIsNoVersion(req: Request, line: string, rest: string)
    requires |line| < NPOS && (line == "" || line[0] != '1')
    ensures ParseVersion(req, line, rest, NPOS).verdict == Error
  {
    assert Minus(|line|, NPOS) == |line| + 1;
    if |line| > 2 {
      assert Substr(line, 0, 3)[0] == line[0];
    }
  }

  /** The version of a part of a printed line is missing or too short. */
  lemma PartHasNoVersion(req: Request, part: string, rest: string, m: Method, target: string, v: Version, from: nat)
    requires TargetOk(target) && Printed(PrintLine(m, target, v), m, target, v) && |PrintLine(m, target, v)| < NPOS
    requires part < PrintLine(m, target, v)
    ensures ParseTarget(req, part, rest, from).verdict == Error
  {
    var line := PrintLine(m, target, v);
    var slash := Find(part, "/", from);
    var blank := Find(part, " ", slash);
    var pos := Find(part, "/", blank);
    if pos != NPOS {
      OccursChar(part, '/', slash);
      OccursChar(part, ' ', blank);
      OccursChar(part, '/', pos);
      VersionIsShort(part, line, m, target, v, slash, blank, pos);
    } else {
      if part != "" {
        assert part[0] == line[0] == CharAt(m, target, v, 0);
      }
      FrontIsNoVersion(req.(fileName := FileName(part, slash, blank)), part, rest);
    }
  }

  /** A request line that has not arrived completely is refused, wherever it was cut. */
  lemma PartOfLineIsRefused(req: Request, part: string, m: Method, target: string, v: Version)
    requires TargetOk(target) && |PrintLine(m, target, v)| < NPOS
    requires part < PrintLine(m, target, v)
    ensures ParseUri(req, part).verdict == Error
  {
    PrintLineIsPrinted(m, target, v);
    NoCrInLine(PrintLine(m, target, v), m, target, v);
    UncutLine(part);
    match PickMethod(part)
    case None =>
    case Some((name, pos)) =>
      PartHasNoVersion(req.(mthd := name), part, part, m, target, v, pos);
  }

  /** With only its CR missing, the line is accepted, but it is not taken out of the buffer: the
      header automaton will read it once more. */
  lemma LineWithoutCrStays(req: Request, m: Method, target: string, v: Version)
    requires TargetOk(target) && |PrintLine(m, target, v)| < NPOS && !NameHidden(m, target)
    ensures var a := ParseUri(req, PrintLine(m, target, v));
            a.verdict == Success && a.req.mthd == m && a.rest == PrintLine(m, target, v)
  {
    var line := PrintLine(m, target, v);
    PrintLineIsPrinted(m, target, v);
    NoCrInLine(line, m, target, v);
    UncutLine(line);
    MethodIsPicked(line, m, target, v);
    TargetIsRead(req.(mthd := m), line, m, target, v, line);
  }

  // ---------------------------------------------------------------- any line at all

  /** The first occurrence at or behind from. */
  ghost predicate First(s: string, pat: string, from: nat, pos: nat) {
    from <= pos && Occurs(s, pat, pos) && forall i: nat :: from <= i < pos ==> !Occurs(s, pat, i)
  }

  lemma FoundIsFirst(s: string, pat: string, from: nat, pos: nat)
    requires |s| < NPOS
    ensures First(s, pat, from, pos) <==> pos != NPOS && Find(s, pat, from) == pos
  {
    if First(s, pat, from, pos) {
      FindFirst(s, pat, from, pos);
    }
  }

  /** GET is chosen if it stands anywhere in the line, then POST, then HEAD. */
  ghost predicate Chosen(line: string, m: Method, p: nat) {
    && First(line, MethodName(m), 0, p)
    && (m != Get ==> !Contains(line, "GET")) && (m == Head ==> !Contains(line, "POST"))
  }

  ghost predicate Unnamed(line: string) {
    !Contains(line, "GET") && !Contains(line, "POST") && !Contains(line, "HEAD")
  }

  /** The first slash at or behind p, the first blank behind it, and the first slash behind that. */
  ghost predicate Marks(line: string, p: nat, s: nat, b: nat, v: nat) {
    First(line, "/", p, s) && First(line, " ", s, b) && First(line, "/", b, v)
  }

  lemma AbsentIsNpos(line: string, name: string)
    requires |line| < NPOS
    ensures !Contains(line, name) ==> Find(line, name, 0) == NPOS
  {
    var pos := Find(line, name, 0);
    if pos != NPOS {
      assert pos <= |line| && Occurs(line, name, pos);
    }
  }

  lemma ChosenIsPicked(line: string, m: Method, p: nat)
    requires |line| < 0x8000_0000 && Chosen(line, m, p)
    ensures PickMethod(line) == Some((m, p))
  {
    hide Find, ToInt32;
    FoundIsFirst(line, MethodName(m), 0, p);
    AbsentIsNpos(line, "GET");
    AbsentIsNpos(line, "POST");
    Int32OfPosition(Find(line, "GET", 0));
    Int32OfPosition(Find(line, "POST", 0));
    Int32OfPosition(Find(line, "HEAD", 0));
  }

  /** The three characters that are taken for the version. */
  predicate VersionIn(line: string, at: nat, v: Version) {
    at + 3 <= |line| && line[at..at + 3] == VersionName(v)
  }

  /** The answer is success with the version that stands there, and an error if none does. */
  predicate VerdictFrom(line: string, at: nat, a: Answer) {
    if VersionIn(line, at, Http10) || VersionIn(line, at, Http11)
    then a.verdict == Success && VersionIn(line, at, a.req.version)
    else a.verdict == Error
  }

  predicate FileIn(line: string, s: nat, b: nat, a: Answer) {
    s < b <= |line| && IsFileOf(a.req.fileName, line[s + 1..b])
  }

  lemma VersionIsTaken(req: Request, line: string, rest: string, pos: nat)
    requires |line| < NPOS && (pos < |line| || pos == NPOS)
    ensures var a, at := ParseVersion(req, line, rest, pos), if pos == NPOS then 0 else pos + 1;
            VerdictFrom(line, at, a) && a.req == req.(version := a.req.version)
  {
    if pos == NPOS {
      assert Minus(|line|, pos) == |line| + 1 && (pos + 1) % SIZE_RANGE == 0;
    } else {
      MinusInRange(|line|, pos);
    }
  }

  ghost predicate ReadFrom(line: string, p: nat, a: Answer) {
    && (forall s: nat, b: nat, v: nat ::
          Marks(line, p, s, b, v) ==> VerdictFrom(line, v + 1, a) && FileIn(line, s, b, a))
    && ((forall s: nat, b: nat, v: nat :: !Marks(line, p, s, b, v)) ==> VerdictFrom(line, 0, a))
  }

  /** Any line, well formed or not: it is accepted exactly when a version stands behind its marks, or, when one of
      the marks is missing, at its very beginning.  The method is the chosen one, and the file is named between
      the first two marks. */
  lemma AcceptedIff(req: Request, buf: string, m: Method, p: nat)
    requires |buf| < 0x8000_0000 && Chosen(CutLine(buf).0, m, p)
    ensures ParseUri(req, buf).req.mthd == m && ReadFrom(CutLine(buf).0, p, ParseUri(req, buf))
  {
    hide Find, CutLine, FileName, ParseVersion, PickMethod, IsFileOf, Chosen;
    var line, rest := CutLine(buf).0, CutLine(buf).1;
    LineIsShort(buf);
    ChosenIsPicked(line, m, p);
    var s := Find(line, "/", p);
    var b := Find(line, " ", s);
    var v := Find(line, "/", b);
    VersionIsTaken(req.(mthd := m, fileName := FileName(line, s, b)), line, rest, v);
    MarksAreFound(line, p);
    forall i: nat, j: nat, k: nat | Marks(line, p, i, j, k)
      ensures i == s && j == b && k == v && FileIn(line, i, j, ParseUri(req, buf))
    {
      FoundIsFirst(line, "/", p, i);
      FoundIsFirst(line, " ", i, j);
      FoundIsFirst(line, "/", j, k);
      FileBetween(line, i, j);
    }
  }

  lemma LineIsShort(buf: string)
    requires |buf| < NPOS
    ensures |CutLine(buf).0| <= |buf|
  {
  }

  lemma MarksAreFound(line: string, p: nat)
    requires |line| < NPOS
    ensures var s := Find(line, "/", p); var b := Find(line, " ", s); var v := Find(line, "/", b);
            && (v == NPOS || v < |line|) && (v != NPOS ==> Marks(line, p, s, b, v))
  {
    var s := Find(line, "/", p);
    var b := Find(line, " ", s);
    var v := Find(line, "/", b);
    FoundIsFirst(line, "/", p, s);
    FoundIsFirst(line, " ", s, b);
    FoundIsFirst(line, "/", b, v);
  }

  lemma FileBetween(line: string, s: nat, b: nat)
    requires |line| < NPOS && s <= b && Occurs(line, "/", s) && Occurs(line, " ", b)
    ensures s < b <= |line| && IsFileOf(FileName(line, s, b), line[s + 1..b])
  {
    OccursChar(line, '/', s);
    OccursChar(line, ' ', b);
    MinusInRange(b, s);
    var target := line[s + 1..b];
    if target != "" {
      assert Substr(line, s + 1, b - s - 1) == target;
      QueryIsCutOff(target);
    }
  }

  /** A line that names no method is refused. */
  lemma UnnamedIsRefused(req: Request, buf: string)
    requires |buf| < NPOS && Unnamed(CutLine(buf).0)
    ensures ParseUri(req, buf).verdict == Error
  {
    var line := CutLine(buf).0;
    AbsentIsNpos(line, "GET");
    AbsentIsNpos(line, "POST");
    AbsentIsNpos(line, "HEAD");
    Int32OfPosition(NPOS);
  }
}
