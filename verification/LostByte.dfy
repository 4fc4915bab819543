/** What parseURI makes of a request line whose first byte is missing (HttpData.cpp:311-394), as every
    line behind another request reaches it. */
module LostByte {
  import opened Wrappers
  import opened Text
  import opened RequestLine

  /** Where the target begins in such a line. */
  function Shift(m: Method): nat {
    Offset(m) - 1
  }

  /** What parseURI takes a target for when the line before it has lost its first byte: the method named
      in the target, and what stands behind the first slash at or behind that name. */
  function TakenFor(target: string): Option<(Method, string)>
    requires |target| < NPOS
  {
    match PickMethod(target)
    case None => None
    case Some((name, p)) =>
      var s := Find(target, "/", p);
      if s < |target| then Some((name, target[s + 1..])) else None
  }

  // ---------------------------------------------------------------- names

  lemma OccursBehindFirst(line: string, name: string, i: nat)
    requires line != ""
    ensures Occurs(line[1..], name, i) <==> Occurs(line, name, i + 1)
  {
    if Occurs(line, name, i + 1) {
      forall k | 0 <= k < |name| ensures line[1..][i + k] == name[k] {
        assert line[i + 1 + k] == name[k];
      }
    }
    if Occurs(line[1..], name, i) {
      forall k | 0 <= k < |name| ensures line[i + 1 + k] == name[k] {
        assert line[1..][i + k] == name[k];
      }
    }
  }

  /** Behind its first character a printed line names methods exactly where its target does. */
  lemma NamesAgree(line: string, m: Method, target: string, v: Version, name: string, i: nat)
    requires Printed(line, m, target, v) && IsName(name)
    ensures Occurs(line[1..], name, i) <==> i >= Shift(m) && Occurs(target, name, i - Shift(m))
  {
    hide Printed, Occurs;
    LengthOfLine(line, m, target, v);
    OccursBehindFirst(line, name, i);
    if Occurs(line, name, i + 1) {
      NameInLine(line, m, target, v, name, i + 1);
    }
    if i >= Shift(m) && Occurs(target, name, i - Shift(m)) {
      NameFromTarget(line, m, target, v, name, i - Shift(m));
    }
  }

  lemma FindName(line: string, m: Method, target: string, v: Version, name: string)
    requires Printed(line, m, target, v) && IsName(name) && |line| < NPOS
    ensures line != "" && |target| < |line|
    ensures var p := Find(target, name, 0);
            Find(line[1..], name, 0) == if p == NPOS then NPOS else p + Shift(m)
  {
    hide Printed;
    LengthOfLine(line, m, target, v);
    var p := Find(target, name, 0);
    if p == NPOS {
      forall i: nat ensures !Occurs(line[1..], name, i) {
        NamesAgree(line, m, target, v, name, i);
      }
      FindNone(line[1..], name, 0);
    } else {
      forall i: nat | i <= p + Shift(m) ensures Occurs(line[1..], name, i) <==> i == p + Shift(m) {
        NamesAgree(line, m, target, v, name, i);
      }
      FindFirst(line[1..], name, 0, p + Shift(m));
    }
  }

  lemma PositionIsPositive(target: string, name: string)
    requires |target| < 0x8000_0000
    ensures ToInt32(Find(target, name, 0)) == if Find(target, name, 0) == NPOS then -1 else Find(target, name, 0)
  {
    Int32OfPosition(Find(target, name, 0));
  }

  lemma NamePosition(line: string, m: Method, target: string, v: Version, name: string)
    requires Printed(line, m, target, v) && IsName(name) && |line| < 0x8000_0000
    ensures line != "" && |target| < |line|
    ensures var p := ToInt32(Find(target, name, 0));
            ToInt32(Find(line[1..], name, 0)) == if p >= 0 then p + Shift(m) else -1
  {
    hide Printed, Find, ToInt32;
    FindName(line, m, target, v, name);
    PositionIsPositive(target, name);
    PositionIsPositive(line[1..], name);
  }

  /** The method that parseURI picks, if any, is the one it would pick in the target alone. */
  lemma PickInTarget(line: string, m: Method, target: string, v: Version)
    requires Printed(line, m, target, v) && |line| < 0x8000_0000
    ensures line != "" && |target| < |line|
    ensures PickMethod(line[1..]) ==
              match PickMethod(target) case None => None case Some((name, p)) => Some((name, p + Shift(m)))
  {
    hide Printed, Find, ToInt32;
    NamePosition(line, m, target, v, "GET");
    NamePosition(line, m, target, v, "POST");
    NamePosition(line, m, target, v, "HEAD");
  }

  lemma LengthOfLine(line: string, m: Method, target: string, v: Version)
    requires Printed(line, m, target, v)
    ensures |line| == Shift(m) + |target| + 10 && line[0] != '1' && line[1] != '1'
  {
    assert line[0] == CharAt(m, target, v, 0) && line[1] == CharAt(m, target, v, 1);
  }

  // ---------------------------------------------------------------- slashes and blanks

  /** From position o on, t is the target and then the version. */
  ghost predicate EndsIn(t: string, o: nat, target: string, v: Version) {
    && |t| == o + |target| + 9 && |t| < NPOS
    && (forall k :: o <= k < o + |target| ==> t[k] == target[k - o])
    && (forall k :: o + |target| <= k < |t| ==> t[k] == TailAt(v, k - o - |target|))
  }

  lemma BeheadedEndsIn(line: string, m: Method, target: string, v: Version)
    requires Printed(line, m, target, v) && |line| < NPOS
    ensures line != "" && EndsIn(line[1..], Shift(m), target, v)
  {
    var t := line[1..];
    forall k | Shift(m) <= k < |t|
      ensures t[k] == if k < Shift(m) + |target| then target[k - Shift(m)] else TailAt(v, k - Shift(m) - |target|)
    {
      assert t[k] == line[k + 1] == CharAt(m, target, v, k + 1);
    }
  }

  /** The next slash is the one in the target, or else the one in the version. */
  lemma NextSlash(t: string, o: nat, target: string, v: Version, p: nat)
    requires EndsIn(t, o, target, v) && p <= |target|
    ensures var s := Find(target, "/", p);
            && Find(t, "/", p + o) == o + (if s == NPOS then |target| + 5 else s)
            && (s == NPOS || (p <= s < |target| && target[s] == '/'))
  {
    hide Find;
    var s := Find(target, "/", p);
    var q := if s == NPOS then |target| + 5 else s;
    if s != NPOS {
      OccursChar(target, '/', s);
    }
    forall k | p + o <= k < q + o ensures t[k] != '/' {
      if k < o + |target| {
        OccursChar(target, '/', k - o);
      }
    }
    FindChar(t, '/', p + o, q + o);
  }

  /** From a slash of the target on, the next blank is the one in front of the version. */
  lemma NextBlank(t: string, o: nat, target: string, v: Version, s: nat)
    requires EndsIn(t, o, target, v) && TargetOk(target) && s <= |target|
    ensures Find(t, " ", s + o) == o + |target| && Find(t, "/", o + |target|) == o + |target| + 5
  {
    FindChar(t, ' ', s + o, o + |target|);
    FindChar(t, '/', o + |target|, o + |target| + 5);
  }

  /** Behind the slash of the version there is neither a blank nor another slash. */
  lemma NothingBehindVersion(t: string, o: nat, target: string, v: Version)
    requires EndsIn(t, o, target, v)
    ensures Find(t, " ", o + |target| + 5) == NPOS && Find(t, "/", NPOS) == NPOS
  {
    FindNoChar(t, ' ', o + |target| + 5);
    FindNoChar(t, '/', NPOS);
  }

  // ---------------------------------------------------------------- the verdict

  lemma RestInTail(t: string, o: nat, target: string, v: Version, s: nat)
    requires EndsIn(t, o, target, v) && s < |target|
    ensures |t| == o + |target| + 9 && |t| < NPOS && Substr(t, o + s + 1, |target| - s - 1) == target[s + 1..]
  {
    assert t[o + s + 1..o + |target|] == target[s + 1..];
  }

  /** The file is what the target names behind its slash. */
  lemma FileBehindSlash(t: string, o: nat, target: string, v: Version, s: nat)
    requires EndsIn(t, o, target, v) && s < |target|
    ensures IsFileOf(FileName(t, o + s, o + |target|), target[s + 1..])
  {
    hide Find, EndsIn, Substr, Minus, BeforeQuery, IsFileOf;
    RestInTail(t, o, target, v, s);
    MinusInRange(o + |target|, o + s);
    IndexIsFile();
    if s + 1 < |target| {
      QueryIsCutOff(target[s + 1..]);
    }
  }

  lemma IndexIsFile()
    ensures IsFileOf(INDEX, "")
  {
  }

  lemma VersionInTail(t: string, o: nat, target: string, v: Version)
    requires EndsIn(t, o, target, v)
    ensures |t| == o + |target| + 9 && |t| < NPOS && Substr(t, o + |target| + 6, 3) == VersionName(v)
  {
    var b := o + |target|;
    assert t[b + 6..b + 9] == [TailAt(v, 6), TailAt(v, 7), TailAt(v, 8)] == VersionName(v);
  }

  lemma VersionNamesDiffer()
    ensures VersionName(Http10) != VersionName(Http11)
  {
    assert VersionName(Http10)[2] != VersionName(Http11)[2];
  }

  lemma VersionBehind(req: Request, t: string, o: nat, target: string, v: Version, rest: string)
    requires EndsIn(t, o, target, v)
    ensures ParseVersion(req, t, rest, o + |target| + 5) == Answer(Success, req.(version := v), rest)
  {
    hide EndsIn, Substr, Minus;
    VersionInTail(t, o, target, v);
    MinusInRange(|t|, o + |target| + 5);
    VersionNamesDiffer();
  }

  /** Where the target has a slash at or behind the picked name, what is behind the slash is read. */
  lemma TargetFromSlash(req: Request, t: string, o: nat, target: string, v: Version, rest: string, p: nat)
    requires EndsIn(t, o, target, v) && TargetOk(target) && p <= |target| && Find(target, "/", p) != NPOS
    ensures var s := Find(target, "/", p); var a := ParseTarget(req, t, rest, p + o);
            && s < |target| && a.verdict == Success && a.rest == rest && a.req.mthd == req.mthd && a.req.version == v
            && IsFileOf(a.req.fileName, target[s + 1..])
  {
    hide Find, FileName, IsFileOf, ParseVersion, TargetOk;
    var s := Find(target, "/", p);
    NextSlash(t, o, target, v, p);
    NextBlank(t, o, target, v, s);
    FileBehindSlash(t, o, target, v, s);
    VersionBehind(req.(fileName := FileName(t, o + s, o + |target|)), t, o, target, v, rest);
  }

  /** Where it has none, the slash of the version is taken for the target's, and no version is left. */
  lemma TargetWithoutSlash(req: Request, t: string, o: nat, target: string, v: Version, rest: string, p: nat)
    requires EndsIn(t, o, target, v) && p <= |target| && Find(target, "/", p) == NPOS && t[0] != '1'
    ensures var a := ParseTarget(req, t, rest, p + o); a.verdict == Error && a.rest == rest
  {
    hide Find, FileName, ParseVersion;
    NextSlash(t, o, target, v, p);
    NothingBehindVersion(t, o, target, v);
    var got := req.(fileName := FileName(t, o + |target| + 5, NPOS));
    FrontIsNoVersion(got, t, rest);
    VersionKeepsRest(got, t, rest, NPOS);
  }

  lemma PickIsInside(target: string)
    requires |target| < 0x8000_0000
    ensures PickMethod(target).Some? ==> PickMethod(target).value.1 <= |target|
  {
    PositionIsPositive(target, "GET");
    PositionIsPositive(target, "POST");
    PositionIsPositive(target, "HEAD");
  }

  /** A printed request line without its first byte is accepted if and only if its target names a method
      and has a slash at or behind that name.  Then it is taken for a request with that method for what the
      target names behind the slash. */
  lemma BeheadedIff(req: Request, m: Method, target: string, v: Version, rest: string)
    requires TargetOk(target)
    requires |PrintLine(m, target, v)| < 0x8000_0000 && |PrintLine(m, target, v)| + 1 + |rest| < NPOS
    ensures |target| < 0x8000_0000
    ensures var a := ParseUri(req, PrintLine(m, target, v)[1..] + "\r" + rest); var taken := TakenFor(target);
            && a.rest == rest
            && a.verdict == (if taken.Some? then Success else Error)
            && (taken.Some? ==>
                 a.req.mthd == taken.value.0 && a.req.version == v && IsFileOf(a.req.fileName, taken.value.1))
  {
    hide Printed, PrintLine, EndsIn, ParseTarget, PickMethod, IsFileOf, TargetOk, CutLine, Find;
    var line := PrintLine(m, target, v);
    PrintLineIsPrinted(m, target, v);
    LengthOfLine(line, m, target, v);
    NoCrInLine(line, m, target, v);
    LineIsCut(line[1..], rest);
    BeheadedEndsIn(line, m, target, v);
    PickInTarget(line, m, target, v);
    PickIsInside(target);
    match PickMethod(target)
    case None =>
    case Some((name, p)) =>
      if Find(target, "/", p) == NPOS {
        TargetWithoutSlash(req.(mthd := name), line[1..], Shift(m), target, v, rest, p);
      } else {
        TargetFromSlash(req.(mthd := name), line[1..], Shift(m), target, v, rest, p);
      }
  }

  /** Such a target, and what it is taken for. */
  lemma TakenForGet(x: string)
    requires |"GET/" + x| < 0x8000_0000
    ensures TakenFor("GET/" + x) == Some((Get, x))
  {
    var target := "GET/" + x;
    assert Occurs(target, "GET", 0);
    FindFirst(target, "GET", 0, 0);
    assert target[0] == 'G' && target[1] == 'E' && target[2] == 'T' && target[3] == '/';
    FindChar(target, '/', 0, 3);
    assert target[4..] == x;
  }
}
