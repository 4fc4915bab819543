/** The std::string operations that the request line parser relies on, with size_t arithmetic. */
module Text {
  /** size_t has 64 bits; npos is its largest value. */
  const SIZE_RANGE := 0x1_0000_0000_0000_0000
  const NPOS: nat := SIZE_RANGE - 1

  /** The value of `(int)x` for a size_t x. */
  function ToInt32(x: nat): int {
    var low := x % 0x1_0000_0000;
    if low < 0x8000_0000 then low else low - 0x1_0000_0000
  }

  /** size_t subtraction wraps around. */
  function Minus(a: nat, b: nat): nat {
    (a - b) % SIZE_RANGE
  }

  lemma MinusInRange(a: nat, b: nat)
    requires b <= a < SIZE_RANGE
    ensures Minus(a, b) == a - b
  {
  }

  lemma Int32OfPosition(pos: nat)
    ensures pos < 0x8000_0000 ==> ToInt32(pos) == pos
    ensures ToInt32(NPOS) == -1
  {
  }

  lemma Int32Wraps(x: nat)
    ensures -0x8000_0000 <= ToInt32(x) < 0x8000_0000 && (x - ToInt32(x)) % 0x1_0000_0000 == 0
  {
  }

  predicate Occurs(s: string, pat: string, i: nat) {
    i + |pat| <= |s| && forall k :: 0 <= k < |pat| ==> s[i + k] == pat[k]
  }

  /** s.find(pat, from): the first occurrence at or behind from, or npos. */
  function Find(s: string, pat: string, from: nat): (pos: nat)
    requires |s| < NPOS
    ensures pos == NPOS ==> forall i: nat :: from <= i ==> !Occurs(s, pat, i)
    ensures pos != NPOS ==> from <= pos <= |s| && Occurs(s, pat, pos)
    ensures forall i: nat :: from <= i < pos ==> !Occurs(s, pat, i)
    decreases |s| + 1 - from
  {
    if from > |s| then NPOS
    else if Occurs(s, pat, from) then from
    else Find(s, pat, from + 1)
  }

  /** s.substr(p, n), for p inside the string; outside it the library throws. */
  function Substr(s: string, p: nat, n: nat): string
    requires p <= |s|
  {
    if p + n <= |s| then s[p..p + n] else s[p..]
  }

  lemma FindFirst(s: string, pat: string, from: nat, pos: nat)
    requires |s| < NPOS && from <= pos && Occurs(s, pat, pos)
    requires forall i: nat :: from <= i < pos ==> !Occurs(s, pat, i)
    ensures Find(s, pat, from) == pos
  {
  }

  lemma FindNone(s: string, pat: string, from: nat)
    requires |s| < NPOS
    requires forall i: nat :: from <= i ==> !Occurs(s, pat, i)
    ensures Find(s, pat, from) == NPOS
  {
  }

  lemma OccursChar(s: string, c: char, i: nat)
    ensures Occurs(s, [c], i) <==> i < |s| && s[i] == c
  {
    if i < |s| {
      assert [c][0] == c && s[i + 0] == s[i];
    }
  }

  lemma FindChar(s: string, c: char, from: nat, pos: nat)
    requires |s| < NPOS && from <= pos < |s| && s[pos] == c
    requires forall i :: from <= i < pos ==> s[i] != c
    ensures Find(s, [c], from) == pos
  {
    forall i: nat | from <= i <= pos ensures Occurs(s, [c], i) <==> s[i] == c {
      OccursChar(s, c, i);
    }
    FindFirst(s, [c], from, pos);
  }

  lemma FindPresentChar(s: string, c: char)
    requires |s| < NPOS && c in s
    ensures var pos := Find(s, [c], 0); pos < |s| && s[pos] == c && c !in s[..pos]
  {
    var pos := Find(s, [c], 0);
    var j :| 0 <= j < |s| && s[j] == c;
    OccursChar(s, c, j);
    OccursChar(s, c, pos);
    forall i: nat | i < pos && i < |s| ensures s[i] != c {
      OccursChar(s, c, i);
    }
  }

  lemma FindNoChar(s: string, c: char, from: nat)
    requires |s| < NPOS
    requires forall i :: from <= i < |s| ==> s[i] != c
    ensures Find(s, [c], from) == NPOS
  {
    forall i: nat | from <= i ensures !Occurs(s, [c], i) {
      OccursChar(s, c, i);
    }
    FindNone(s, [c], from);
  }

  predicate Contains(s: string, pat: string) {
    exists i: nat :: i <= |s| && Occurs(s, pat, i)
  }
}
