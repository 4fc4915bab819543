/** AppendFile of base/FileUtil.cpp: a sink whose writes may be short. */
module FileUtil {
  function Min(a: nat, b: nat): nat {
    if a < b then a else b
  }

  /** How much fwrite takes of the data it is offered, call by call. */
  type Script = nat -> nat

  /** The bytes stored by the retry loop, from call number `call`, with `remain` bytes to go. */
  function Retry(accept: Script, call: nat, remain: nat): (r: nat)
    ensures r <= remain
    decreases remain
  {
    var x := Min(accept(call), remain);
    if x == 0 then 0 else x + Retry(accept, call + 1, remain - x)
  }

  /** The bytes stored by one append of len bytes. */
  function Stored(accept: Script, call: nat, len: nat): (r: nat)
    ensures r <= len
  {
    var n := Min(accept(call), len);
    n + Retry(accept, call + 1, len - n)
  }

  /** What k calls would take together. */
  function Offer(accept: Script, call: nat, k: nat): nat
    decreases k
  {
    if k == 0 then 0 else accept(call) + Offer(accept, call + 1, k - 1)
  }

  /** k calls that each take something. */
  predicate AllTake(accept: Script, call: nat, k: nat) {
    forall j: nat :: call <= j < call + k ==> accept(j) > 0
  }

  lemma {:induction false} RetryIsEnough(accept: Script, call: nat, remain: nat, k: nat)
    requires AllTake(accept, call, k) && Offer(accept, call, k) >= remain
    ensures Retry(accept, call, remain) == remain
    decreases k
  {
    if remain > 0 {
      assert accept(call) > 0;
      if accept(call) < remain {
        RetryIsEnough(accept, call + 1, remain - accept(call), k - 1);
      }
    }
  }

  lemma {:induction false} RetryNeeds(accept: Script, call: nat, remain: nat) returns (k: nat)
    requires Retry(accept, call, remain) == remain
    ensures AllTake(accept, call, k) && Offer(accept, call, k) >= remain
    decreases remain
  {
    if remain == 0 {
      k := 0;
    } else {
      var x := Min(accept(call), remain);
      var j := RetryNeeds(accept, call + 1, remain - x);
      k := j + 1;
    }
  }

  /** One call and k retries take the whole line, and no retry takes nothing. */
  predicate Enough(accept: Script, call: nat, len: nat, k: nat) {
    AllTake(accept, call + 1, k) && accept(call) + Offer(accept, call + 1, k) >= len
  }

  /** The whole line is stored if and only if the first call and some number of retries, none of
      which takes nothing, take enough together.  The first call alone may take nothing. */
  lemma StoredWholeIff(accept: Script, call: nat, len: nat)
    ensures Stored(accept, call, len) == len <==> exists k: nat :: Enough(accept, call, len, k)
  {
    var n := Min(accept(call), len);
    if Stored(accept, call, len) == len {
      var k := RetryNeeds(accept, call + 1, len - n);
      assert Enough(accept, call, len, k);
    }
    if k: nat :| Enough(accept, call, len, k) {
      RetryIsEnough(accept, call + 1, len - n, k);
    }
  }

  lemma {:induction false} OfferAtLeast(accept: Script, call: nat, k: nat)
    requires AllTake(accept, call, k)
    ensures Offer(accept, call, k) >= k
    decreases k
  {
    if k > 0 {
      assert accept(call) > 0;
      OfferAtLeast(accept, call + 1, k - 1);
    }
  }

  ghost predicate Willing(accept: Script) {
    forall j :: accept(j) > 0
  }

  /** A disk that always takes something stores every line. */
  lemma WillingStoresWhole(accept: Script, call: nat, len: nat)
    requires Willing(accept)
    ensures Stored(accept, call, len) == len
  {
    OfferAtLeast(accept, call + 1, len);
    StoredWholeIff(accept, call, len);
    assert Enough(accept, call, len, len);
  }

  lemma NextPart(bytes: string, line: string, n: nat, x: nat)
    requires n + x <= |line|
    ensures bytes + line[..n] + line[n..][..x] == bytes + line[..n + x]
  {
    assert line[..n] + line[n..][..x] == line[..n + x];
  }

  class AppendFile {
    /** The bytes that have reached the file, and how many calls it took. */
    var bytes: string
    var calls: nat
    const accept: Script

    constructor (accept: Script)
      ensures bytes == "" && calls == 0 && this.accept == accept
    {
      this.accept := accept;
      bytes := "";
      calls := 0;
    }

    /** fwrite: takes a first part of the data. */
    method Write(data: string) returns (x: nat)
      modifies this
      ensures x == Min(accept(old(calls)), |data|)
      ensures bytes == old(bytes) + data[..x] && calls == old(calls) + 1
    {
      x := Min(accept(calls), |data|);
      bytes := bytes + data[..x];
      calls := calls + 1;
    }

    /** The file grows by a first part of the line, in order and without gaps or repeats. */
    method Append(line: string)
      modifies this
      ensures bytes == old(bytes) + line[..Stored(accept, old(calls), |line|)]
    {
      var n := Write(line);
      var remain := |line| - n;
      while remain > 0
        invariant 0 <= n <= |line| && remain == |line| - n
        invariant bytes == old(bytes) + line[..n]
        invariant n + Retry(accept, calls, remain) == Stored(accept, old(calls), |line|)
        decreases remain
      {
        var x := Write(line[n..]);
        NextPart(old(bytes), line, n, x);
        if x == 0 {
          break;
        }
        n := n + x;
        remain := |line| - n;
      }
    }
  }
}
