/** The logger of base/AsyncLogging.cpp in its own form: buffers are objects that move between the
    fields.  Each method is one atomic step; calling them in any order is any interleaving of the
    producers with the consumer thread. */
module AsyncLogging {
  import opened Wrappers
  import opened LogStream
  import opened FileUtil
  import P = LogProtocol

  ghost function Pieces(buffers: seq<FixedBuffer>): seq<P.Buf>
    reads buffers
  {
    seq(|buffers|, i requires 0 <= i < |buffers| reads buffers => buffers[i].pieces)
  }

  ghost function PiecesOf(buffer: FixedBuffer?): Option<P.Buf>
    reads buffer
  {
    if buffer == null then None else Some(buffer.pieces)
  }

  /** No buffer is listed twice. */
  ghost predicate Distinct(buffers: seq<FixedBuffer>) {
    forall i, j :: 0 <= i < j < |buffers| ==> buffers[i] != buffers[j]
  }

  lemma DistinctSnoc(buffers: seq<FixedBuffer>, b: FixedBuffer)
    requires Distinct(buffers) && b !in buffers
    ensures Distinct(buffers + [b])
    ensures forall c :: c in buffers + [b] <==> c in buffers || c == b
  {
  }

  /** A pointer to a buffer that is in neither list. */
  ghost predicate Apart(buffer: FixedBuffer?, xs: seq<FixedBuffer>, ys: seq<FixedBuffer>) {
    buffer != null ==> buffer !in xs && buffer !in ys
  }

  /** Two pointers to different buffers. */
  ghost predicate Unlike(a: FixedBuffer?, b: FixedBuffer?) {
    a != null && b != null ==> a != b
  }

  lemma {:induction false} FlatSplit(a: seq<string>, b: seq<string>)
    ensures Flat(a + b) == Flat(a) + Flat(b)
  {
    if b == [] {
      assert a + b == a;
    } else {
      FlatSplit(a, b[..|b| - 1]);
      assert (a + b)[..|a + b| - 1] == a + b[..|b| - 1];
    }
  }

  /** A first part of each, or the whole of each. */
  ghost predicate PartsOf(parts: seq<string>, wholes: seq<string>, all: bool) {
    && |parts| == |wholes| && (forall k :: 0 <= k < |parts| ==> parts[k] <= wholes[k])
    && (all ==> parts == wholes)
  }

  lemma OnePartMore(parts: seq<string>, wholes: seq<string>, accept: Script, call: nat, data: string)
    requires PartsOf(parts, wholes, Willing(accept))
    ensures PartsOf(parts + [data[..Stored(accept, call, |data|)]], wholes + [data], Willing(accept))
  {
    hide Stored, Willing;
    if Willing(accept) {
      WillingStoresWhole(accept, call, |data|);
      assert data[..|data|] == data;
    }
  }

  lemma FlatSnoc(a: seq<string>, b: string)
    ensures Flat(a + [b]) == Flat(a) + b
  {
    assert (a + [b])[..|a|] == a;
  }

  class AsyncLogging {
    /** The array size of a buffer, 4000 * 1000 in the source. */
    const size: nat
    const file: AppendFile
    ghost var stored: seq<string>

    /** The buffers given to the file so far, and the part of each that its disk has taken. */
    ghost var offered: seq<string>
    ghost var taken: seq<string>

    // Shared, under the mutex.
    var currentBuffer: FixedBuffer?
    var nextBuffer: FixedBuffer?
    var buffers: seq<FixedBuffer>

    // The local variables of threadFunc.
    var newBuffer1: FixedBuffer?
    var newBuffer2: FixedBuffer?
    var buffersToWrite: seq<FixedBuffer>
    var pos: nat
    var phase: P.Phase

    ghost function Model(): P.Logger
      reads this, currentBuffer, nextBuffer, newBuffer1, newBuffer2, buffers, buffersToWrite
    {
      P.Logger(if currentBuffer == null then [] else currentBuffer.pieces, PiecesOf(nextBuffer), Pieces(buffers),
               phase, PiecesOf(newBuffer1), PiecesOf(newBuffer2), Pieces(buffersToWrite), pos, stored)
    }

    /** All pointers of the logger refer to different buffers. */
    ghost predicate NoAlias()
      reads this`currentBuffer, this`nextBuffer, this`newBuffer1, this`newBuffer2, this`buffers, this`buffersToWrite
    {
      && Unlike(currentBuffer, nextBuffer) && Unlike(currentBuffer, newBuffer1) && Unlike(currentBuffer, newBuffer2)
      && Unlike(nextBuffer, newBuffer1) && Unlike(nextBuffer, newBuffer2) && Unlike(newBuffer1, newBuffer2)
      && Apart(currentBuffer, buffers, buffersToWrite) && Apart(nextBuffer, buffers, buffersToWrite)
      && Apart(newBuffer1, buffers, buffersToWrite) && Apart(newBuffer2, buffers, buffersToWrite)
      && Distinct(buffers) && Distinct(buffersToWrite)
      && (forall b :: b in buffers ==> b !in buffersToWrite)
    }

    ghost predicate Sound(b: FixedBuffer?)
      reads b
    {
      b != null ==> b.Valid() && b.size == size
    }

    /** The file holds a first part of each buffer that was written, in order, and all of them whole if its disk
        always takes something; the buffers are the stored lines. */
    ghost predicate FileOk()
      reads this`offered, this`taken, this`stored, file
    {
      file.bytes == Flat(taken) && Flat(offered) == Flat(stored) && PartsOf(taken, offered, Willing(file.accept))
    }

    /** No two pointers share a buffer, and the file is in order. */
    ghost predicate Owns()
      reads this, file, currentBuffer, nextBuffer, newBuffer1, newBuffer2, buffers, buffersToWrite
    {
      && currentBuffer != null && NoAlias()
      && Sound(currentBuffer) && Sound(nextBuffer) && Sound(newBuffer1) && Sound(newBuffer2)
      && (forall b :: b in buffers ==> Sound(b))
      && (forall b :: b in buffersToWrite ==> Sound(b))
      && FileOk()
    }

    /** The invariant of every step: ownership and the protocol's condition. */
    ghost predicate Valid()
      reads this, file, currentBuffer, nextBuffer, newBuffer1, newBuffer2, buffers, buffersToWrite
    {
      Owns() && P.Shape(Model())
    }

    constructor (size: nat, accept: Script)
      ensures Valid() && Model() == P.INITIAL && file.accept == accept && file.bytes == ""
    {
      this.size := size;
      file := new AppendFile(accept);
      stored, offered, taken := [], [], [];
      currentBuffer := new FixedBuffer(size);
      nextBuffer := new FixedBuffer(size);
      buffers := [];
      newBuffer1 := new FixedBuffer(size);
      newBuffer2 := new FixedBuffer(size);
      buffersToWrite, pos, phase := [], 0, P.Collect;
    }

    /** The current buffer joins the full ones; an empty one takes its place. */
    method HandOver(empty: FixedBuffer)
      requires Owns() && Sound(empty)
      requires Unlike(empty, currentBuffer) && Unlike(empty, nextBuffer)
      requires Unlike(empty, newBuffer1) && Unlike(empty, newBuffer2) && Apart(empty, buffers, buffersToWrite)
      modifies this`buffers, this`currentBuffer
      ensures Owns() && currentBuffer == empty
      ensures var s := old(Model());
              Model() == s.(buffers := s.buffers + [s.current], current := empty.pieces)
    {
      hide FileOk;
      ghost var before := Model();
      DistinctSnoc(buffers, currentBuffer);
      buffers := buffers + [currentBuffer];
      currentBuffer := empty;
      assert Pieces(buffers) == before.buffers + [before.current];
    }

    /** The next buffer, or a new one, takes the place of the current one. */
    method Rotate()
      requires Owns()
      modifies this
      ensures Owns()
      ensures currentBuffer == old(nextBuffer) || fresh(currentBuffer)
      ensures var s := old(Model());
              Model() == s.(buffers := s.buffers + [s.current],
                            current := if s.next.Some? then s.next.value else [], next := None)
    {
      hide FileOk;
      if nextBuffer != null {
        var empty := nextBuffer;
        nextBuffer := null;
        HandOver(empty);
      } else {
        var empty := new FixedBuffer(size);
        HandOver(empty);
      }
    }

    /** A producer appends a line. */
    method Append(logline: string)
      requires Valid()
      modifies this, currentBuffer, nextBuffer
      ensures Valid()
      ensures Model() == P.Append(P.WholeArray, size, old(Model()), logline)
    {
      ghost var before := Model();
      if currentBuffer.Avail() <= |logline| {
        Rotate();
      }
      AppendToCurrent(logline);
      P.StepKeepsShape(P.WholeArray, size, before, P.AppendLine(logline));
    }

    /** The current buffer takes the line, or refuses it. */
    method AppendToCurrent(logline: string)
      requires Owns()
      modifies currentBuffer
      ensures Owns()
      ensures var s := old(Model());
              Model() == s.(current := P.Put(P.WholeArray, size, s.current, logline))
    {
      hide FileOk;
      ghost var before := Model();
      currentBuffer.Append(logline);
      assert Pieces(buffers) == before.buffers;
      assert Pieces(buffersToWrite) == before.toWrite;
    }

    /** buffersToWrite.swap(buffers_), with nothing left to write. */
    method TakeBatch()
      requires Owns() && buffersToWrite == []
      modifies this`buffersToWrite, this`buffers, this`phase
      ensures Owns()
      ensures var s := old(Model()); Model() == s.(toWrite := s.buffers, buffers := s.toWrite, phase := P.Cut)
    {
      hide FileOk;
      buffersToWrite, buffers := buffers, buffersToWrite;
      phase := P.Cut;
    }

    /** In front of the critical section both spares are there, and nothing is left to write. */
    lemma SparesAreReady()
      requires Valid() && phase == P.Collect
      ensures newBuffer1 != null && newBuffer1.pieces == [] && newBuffer2 != null && buffersToWrite == []
    {
      assert |Model().toWrite| == |buffersToWrite|;
    }

    /** std::move(newBuffer1). */
    method TakeSpare() returns (empty: FixedBuffer)
      requires Owns() && newBuffer1 != null
      modifies this`newBuffer1
      ensures Owns() && newBuffer1 == null && empty == old(newBuffer1) && Sound(empty)
      ensures Unlike(empty, currentBuffer) && Unlike(empty, nextBuffer) && Unlike(empty, newBuffer2)
      ensures Apart(empty, buffers, buffersToWrite)
      ensures Model() == old(Model()).(spare1 := None)
    {
      hide FileOk;
      empty := newBuffer1;
      newBuffer1 := null;
    }

    /** The second spare becomes the next buffer if there is none. */
    method FillNext()
      requires Owns()
      modifies this`nextBuffer, this`newBuffer2
      ensures Owns()
      ensures var s := old(Model()); Model() == if s.next.None? then s.(next := s.spare2, spare2 := None) else s
    {
      hide FileOk;
      if nextBuffer == null {
        nextBuffer, newBuffer2 := newBuffer2, null;
      }
    }

    /** The consumer's critical section. */
    method SwapOut()
      requires Valid() && phase == P.Collect
      modifies this
      ensures Valid()
      ensures Model() == P.Swap(old(Model()))
    {
      hide P.Shape, Owns;
      ghost var before := Model();
      SparesAreReady();
      var empty := TakeSpare();
      HandOver(empty);
      TakeBatch();
      FillNext();
      P.StepKeepsShape(P.WholeArray, size, before, P.SwapOut);
    }

    /** A batch of more than 25 buffers loses all but two. */
    method CutDown()
      requires Valid() && phase == P.Cut
      modifies this
      ensures Valid()
      ensures Model() == P.CutBatch(old(Model()))
    {
      hide NoAlias, FileOk;
      ghost var before := Model();
      assert |before.toWrite| == |buffersToWrite|;
      if |buffersToWrite| > P.MAX_BATCH {
        KeepTwo();
      }
      pos, phase := 0, P.Write;
      P.StepKeepsShape(P.WholeArray, size, before, P.CutDown);
    }

    method WriteOut(data: string, ghost pieces: seq<string>)
      requires FileOk() && data == Flat(pieces)
      modifies this`stored, this`offered, this`taken, file
      ensures FileOk() && stored == old(stored) + pieces
      ensures file.bytes == old(file.bytes) + data[..Stored(file.accept, old(file.calls), |data|)]
    {
      hide Stored, PartsOf, Willing;
      FlatSplit(stored, pieces);
      ghost var part := data[..Stored(file.accept, file.calls, |data|)];
      OnePartMore(taken, offered, file.accept, file.calls, data);
      FlatSnoc(offered, data);
      FlatSnoc(taken, part);
      file.Append(data);
      stored, offered, taken := stored + pieces, offered + [data], taken + [part];
    }

    /** output.append: the disk takes a first part of the buffer, the whole of it if it always takes something. */
    method Store(buffer: FixedBuffer)
      requires Owns() && buffer in buffersToWrite
      modifies this`stored, this`offered, this`taken, file
      ensures Owns()
      ensures file.bytes == old(file.bytes) + buffer.bytes[..Stored(file.accept, old(file.calls), |buffer.bytes|)]
      ensures Model() == old(Model()).(file := old(stored) + buffer.pieces)
    {
      hide NoAlias, FileOk;
      assert Sound(buffer);
      WriteOut(buffer.bytes, buffer.pieces);
    }

    /** One turn of the write loop. */
    method WriteOne()
      requires Valid() && phase == P.Write && pos < |buffersToWrite|
      modifies this, file
      ensures Valid()
      ensures Model() == P.WriteNext(old(Model()))
      ensures var data := old(buffersToWrite[pos].bytes);
              file.bytes == old(file.bytes) + data[..Stored(file.accept, old(file.calls), |data|)]
    {
      hide FileOk;
      ghost var before := Model();
      Store(buffersToWrite[pos]);
      pos := pos + 1;
      P.StepKeepsShape(P.WholeArray, size, before, P.WriteOne);
    }

    /** Only the first two buffers stay, when there are more: erase(begin + 2, end) and resize(2). */
    method KeepTwo()
      requires Owns()
      modifies this`buffersToWrite
      ensures Owns() && buffersToWrite <= old(buffersToWrite)
      ensures var s := old(Model());
              Model() == s.(toWrite := if |s.toWrite| > P.KEPT_BUFFERS then s.toWrite[..P.KEPT_BUFFERS] else s.toWrite)
    {
      hide FileOk;
      ghost var before := Model();
      if |buffersToWrite| > P.KEPT_BUFFERS {
        buffersToWrite := buffersToWrite[..P.KEPT_BUFFERS];
        assert Pieces(buffersToWrite) == before.toWrite[..P.KEPT_BUFFERS];
      }
    }

    /** The last drained buffer becomes the first spare. */
    method RefillFirst()
      requires Owns() && newBuffer1 == null && buffersToWrite != []
      modifies this`buffersToWrite, this`newBuffer1, buffersToWrite[|buffersToWrite| - 1]
      ensures Owns() && buffersToWrite == old(buffersToWrite[..|buffersToWrite| - 1])
      ensures var s := old(Model());
              |s.toWrite| > 0 && Model() == s.(spare1 := Some([]), toWrite := s.toWrite[..|s.toWrite| - 1])
    {
      hide FileOk;
      ghost var before := Model();
      newBuffer1 := buffersToWrite[|buffersToWrite| - 1];
      assert newBuffer1 in buffersToWrite && Sound(newBuffer1);
      buffersToWrite := buffersToWrite[..|buffersToWrite| - 1];
      newBuffer1.Reset();
      assert Pieces(buffersToWrite) == before.toWrite[..|before.toWrite| - 1];
      assert Pieces(buffers) == before.buffers;
    }

    /** The last drained buffer becomes the second spare. */
    method RefillSecond()
      requires Owns() && newBuffer2 == null && buffersToWrite != []
      modifies this`buffersToWrite, this`newBuffer2, buffersToWrite[|buffersToWrite| - 1]
      ensures Owns() && buffersToWrite == old(buffersToWrite[..|buffersToWrite| - 1])
      ensures var s := old(Model());
              |s.toWrite| > 0 && Model() == s.(spare2 := Some([]), toWrite := s.toWrite[..|s.toWrite| - 1])
    {
      hide FileOk;
      ghost var before := Model();
      newBuffer2 := buffersToWrite[|buffersToWrite| - 1];
      assert newBuffer2 in buffersToWrite && Sound(newBuffer2);
      buffersToWrite := buffersToWrite[..|buffersToWrite| - 1];
      newBuffer2.Reset();
      assert Pieces(buffersToWrite) == before.toWrite[..|before.toWrite| - 1];
      assert Pieces(buffers) == before.buffers;
    }

    /** buffersToWrite.clear(): the remaining drained buffers are freed. */
    method Clear()
      requires Owns()
      modifies this`buffersToWrite, this`pos, this`phase
      ensures Owns()
      ensures Model() == old(Model()).(toWrite := [], pos := 0, phase := P.Collect)
    {
      hide FileOk;
      buffersToWrite, pos, phase := [], 0, P.Collect;
    }

    /** Two drained buffers become the spares again; the others are freed. */
    method GiveBack()
      requires Valid() && phase == P.Write && pos == |buffersToWrite|
      modifies this, buffersToWrite
      ensures Valid()
      ensures Model() == P.Recycle(old(Model()))
    {
      hide FileOk;
      ghost var before := Model();
      KeepTwo();
      assert Model().toWrite != [];
      if newBuffer1 == null {
        assert buffersToWrite != [] && buffersToWrite[|buffersToWrite| - 1] in old(buffersToWrite);
        RefillFirst();
      }
      if newBuffer2 == null {
        assert Model().toWrite != [];
        assert buffersToWrite != [] && buffersToWrite[|buffersToWrite| - 1] in old(buffersToWrite);
        RefillSecond();
      }
      Clear();
      P.StepKeepsShape(P.WholeArray, size, before, P.GiveBack);
    }
  }
}
