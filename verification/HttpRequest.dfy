/** A whole request through parseURI and then parseHeaders (HttpData.cpp:311-509). */
module HttpRequest {
  import opened Text
  import R = RequestLine
  import H = HeaderGrammar

  /** A request in the form of section 3 of RFC 7230, and what follows it on the connection. */
  function PrintRequest(m: R.Method, target: string, v: R.Version, headers: seq<H.Header>, next: string): string {
    R.PrintLine(m, target, v) + "\r" + ("\n" + H.Lines(headers) + "\r\n" + next)
  }

  /** parseURI on a buffer and parseHeaders on what it leaves. */
  function ParseRequest(req: R.Request, buf: string): (R.Verdict, H.Outcome, R.Request)
    requires |buf| < NPOS
  {
    var a := R.ParseUri(req, buf);
    (a.verdict, H.Parse(a.rest), a.req)
  }

  lemma RequestRoundTrip(req: R.Request, m: R.Method, target: string, v: R.Version,
                         headers: seq<H.Header>, next: string)
    requires R.TargetOk(target) && !R.NameHidden(m, target)
    requires headers != [] && H.LinesOk(headers)
    requires |PrintRequest(m, target, v, headers, next)| < NPOS
    ensures var (verdict, outcome, got) := ParseRequest(req, PrintRequest(m, target, v, headers, next));
            && verdict == R.Success && outcome.Success?
            && got.mthd == m && got.version == v && R.IsFileOf(got.fileName, target)
            && outcome.scan.known && outcome.scan.lines == headers
            && outcome.rest == (if next == "" then "" else next[1..])
  {
    var block := "\n" + H.Lines(headers) + "\r\n";
    R.RoundTrip(req, m, target, v, block + next);
    assert "\n" + H.Lines(headers) + "\r\n" + next == block + next;
    H.BlockIsRead("\n", headers, next);
  }
}
