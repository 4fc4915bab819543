/** The double-buffered logger of base/AsyncLogging.cpp as a state machine: any number of
    producers call append under the lock, one consumer goes round its loop.  A run is any
    interleaving of their atomic steps. */
module LogProtocol {
  import opened Wrappers

  type Line = string

  /** The lines in a buffer, oldest first; its bytes are their concatenation. */
  type Buf = seq<Line>

  /** A batch of more buffers than this is cut down to KEPT_BUFFERS (AsyncLogging.cpp:81-83). */
  const MAX_BATCH := 25
  const KEPT_BUFFERS := 2

  function Size(b: Buf): nat {
    if b == [] then 0 else Size(b[..|b| - 1]) + |b[|b| - 1]|
  }

  function Concat(bufs: seq<Buf>): seq<Line> {
    if bufs == [] then [] else Concat(bufs[..|bufs| - 1]) + bufs[|bufs| - 1]
  }

  /** What avail() answers.  FixedBuffer::avail subtracts the beginning of its array from the end
      of it (LogStream.h:26), so it answers WholeArray; its name promises Remaining. */
  datatype Room = WholeArray | Remaining

  function Avail(room: Room, n: nat, b: Buf): int {
    match room case WholeArray => n case Remaining => n - Size(b)
  }

  /** The guard in AsyncLogging::append and in FixedBuffer::append. */
  predicate Fits(room: Room, n: nat, b: Buf, len: nat) {
    Avail(room, n, b) > len
  }

  /** FixedBuffer::append stores the line or silently drops it (LogStream.h:16-21). */
  function Put(room: Room, n: nat, b: Buf, line: Line): Buf {
    if Fits(room, n, b, |line|) then b + [line] else b
  }

  /** Where the consumer is in its loop. */
  datatype Phase = Collect | Cut | Write

  /** current, next and buffers are shared; the two spares, toWrite and the write position belong
      to the consumer; file is what the disk holds. */
  datatype Logger = Logger(current: Buf, next: Option<Buf>, buffers: seq<Buf>, phase: Phase,
                           spare1: Option<Buf>, spare2: Option<Buf>, toWrite: seq<Buf>, pos: nat, file: seq<Line>)

  const INITIAL := Logger([], Some([]), [], Collect, Some([]), Some([]), [], 0, [])

  // ---------------------------------------------------------------- the steps

  function Append(room: Room, n: nat, s: Logger, line: Line): Logger {
    if Fits(room, n, s.current, |line|) then s.(current := Put(room, n, s.current, line))
    else
      var empty := if s.next.Some? then s.next.value else [];
      s.(buffers := s.buffers + [s.current], current := Put(room, n, empty, line), next := None)
  }

  /** The critical section of the consumer: waiting gives up the lock, so what counts is the state
      after the wait. */
  function Swap(s: Logger): Logger
    requires s.spare1.Some?
  {
    var t := s.(toWrite := s.buffers + [s.current], buffers := s.toWrite, current := s.spare1.value,
                spare1 := None, phase := Cut);
    if s.next.None? then t.(next := s.spare2, spare2 := None) else t
  }

  function CutBatch(s: Logger): Logger {
    s.(toWrite := if |s.toWrite| > MAX_BATCH then s.toWrite[..KEPT_BUFFERS] else s.toWrite, pos := 0, phase := Write)
  }

  function WriteNext(s: Logger): Logger
    requires s.pos < |s.toWrite|
  {
    s.(file := s.file + s.toWrite[s.pos], pos := s.pos + 1)
  }

  /** At most two drained buffers are kept; a missing spare takes the last of them. */
  function Recycle(s: Logger): Logger {
    var drained := if |s.toWrite| > KEPT_BUFFERS then s.toWrite[..KEPT_BUFFERS] else s.toWrite;
    var left := if s.spare1.None? && drained != [] then drained[..|drained| - 1] else drained;
    s.(spare1 := if s.spare1.None? && drained != [] then Some([]) else s.spare1,
       spare2 := if s.spare2.None? && left != [] then Some([]) else s.spare2,
       toWrite := [], pos := 0, phase := Collect)
  }

  datatype Action = AppendLine(line: Line) | SwapOut | CutDown | WriteOne | GiveBack

  predicate Enabled(s: Logger, a: Action) {
    match a
    case AppendLine(_) => true
    case SwapOut => s.phase == Collect && s.spare1.Some?
    case CutDown => s.phase == Cut
    case WriteOne => s.phase == Write && s.pos < |s.toWrite|
    case GiveBack => s.phase == Write && s.pos == |s.toWrite|
  }

  function Step(room: Room, n: nat, s: Logger, a: Action): Logger
    requires Enabled(s, a)
  {
    match a
    case AppendLine(line) => Append(room, n, s, line)
    case SwapOut => Swap(s)
    case CutDown => CutBatch(s)
    case WriteOne => WriteNext(s)
    case GiveBack => Recycle(s)
  }

  // ---------------------------------------------------------------- runs and their history

  /** One round of the consumer: the buffers it took, how many of them it wrote, and how many lines
      since the previous round had been too long for any buffer. */
  datatype Cycle = Cycle(batch: seq<Buf>, kept: nat, refused: nat)

  /** A state with the history that led to it: finished rounds, the batch of the round under way,
      and the refused lines since the last swap and during the round under way. */
  datatype World = World(s: Logger, cycles: seq<Cycle>, batch: seq<Buf>, refused: nat, refusedBefore: nat)

  const START := World(INITIAL, [], [], 0, 0)

  function Next(room: Room, n: nat, w: World, a: Action): World
    requires Enabled(w.s, a)
  {
    var t := w.(s := Step(room, n, w.s, a));
    match a
    case AppendLine(line) => if |line| >= n then t.(refused := w.refused + 1) else t
    case SwapOut => t.(batch := t.s.toWrite, refusedBefore := w.refused, refused := 0)
    case GiveBack => t.(cycles := w.cycles + [Cycle(w.batch, |w.s.toWrite|, w.refusedBefore)], batch := [])
    case _ => t
  }

  /** The state after a schedule, None if the schedule is not possible. */
  function Exec(room: Room, n: nat, acts: seq<Action>): Option<World> {
    if acts == [] then Some(START)
    else
      var r := Exec(room, n, acts[..|acts| - 1]);
      var a := acts[|acts| - 1];
      if r.Some? && Enabled(r.value.s, a) then Some(Next(room, n, r.value, a)) else None
  }

  /** The lines of a schedule that fit into a buffer, in the order in which the lock was taken. */
  function Accepted(n: nat, acts: seq<Action>): seq<Line> {
    if acts == [] then []
    else
      var a := acts[|acts| - 1];
      Accepted(n, acts[..|acts| - 1]) + if a.AppendLine? && |a.line| < n then [a.line] else []
  }

  function Taken(cycles: seq<Cycle>): seq<Line> {
    if cycles == [] then [] else Taken(cycles[..|cycles| - 1]) + Concat(cycles[|cycles| - 1].batch)
  }

  function Written(cycles: seq<Cycle>): seq<Line>
    requires forall j :: 0 <= j < |cycles| ==> cycles[j].kept <= |cycles[j].batch|
  {
    if cycles == [] then []
    else
      var c := cycles[|cycles| - 1];
      Written(cycles[..|cycles| - 1]) + Concat(c.batch[..c.kept])
  }

  // ---------------------------------------------------------------- the invariant

  /** The condition that none of the four asserts states: without a next buffer there is a full
      one, so the consumer drains at least two. */
  predicate Shape(s: Logger) {
    && (s.next.None? <==> s.buffers != [])
    && (s.next.Some? ==> s.next.value == [])
    && (s.spare2.Some? ==> s.spare2.value == [])
    && match s.phase
       case Collect => s.spare1 == Some([]) && s.spare2.Some? && s.toWrite == [] && s.pos == 0
       case Cut => s.spare1.None? && s.toWrite != [] && (s.spare2.None? ==> |s.toWrite| >= 2) && s.pos == 0
       case Write => s.spare1.None? && s.toWrite != [] && (s.spare2.None? ==> |s.toWrite| >= 2)
                     && s.pos <= |s.toWrite| <= 25
  }

  /** A round writes its whole batch, or just two buffers of a batch of more than 25. */
  predicate CycleOk(c: Cycle) {
    c.kept == if |c.batch| > 25 then 2 else |c.batch|
  }

  predicate BatchOk(w: World) {
    match w.s.phase
    case Collect => w.batch == []
    case Cut => w.s.toWrite == w.batch
    case Write => w.s.toWrite <= w.batch && CycleOk(Cycle(w.batch, |w.s.toWrite|, 0))
  }

  predicate Inv(w: World) {
    Shape(w.s) && BatchOk(w) && forall j :: 0 <= j < |w.cycles| ==> CycleOk(w.cycles[j])
  }

  lemma StepKeepsShape(room: Room, n: nat, s: Logger, a: Action)
    requires Shape(s) && Enabled(s, a)
    ensures Shape(Step(room, n, s, a))
  {
  }

  lemma StepKeepsBatch(room: Room, n: nat, w: World, a: Action)
    requires Shape(w.s) && BatchOk(w) && Enabled(w.s, a)
    ensures BatchOk(Next(room, n, w, a))
  {
  }

  lemma StepKeepsInv(room: Room, n: nat, w: World, a: Action)
    requires Inv(w) && Enabled(w.s, a)
    ensures Inv(Next(room, n, w, a))
  {
    StepKeepsShape(room, n, w.s, a);
    StepKeepsBatch(room, n, w, a);
    var t := Next(room, n, w, a);
    forall j | 0 <= j < |t.cycles| ensures CycleOk(t.cycles[j]) {
      assert j < |w.cycles| ==> t.cycles[j] == w.cycles[j];
    }
  }

  lemma {:induction false} ReachableInv(room: Room, n: nat, acts: seq<Action>)
    requires Exec(room, n, acts).Some?
    ensures Inv(Exec(room, n, acts).value)
  {
    if acts != [] {
      ReachableInv(room, n, acts[..|acts| - 1]);
      StepKeepsInv(room, n, Exec(room, n, acts[..|acts| - 1]).value, acts[|acts| - 1]);
    }
  }

  // ---------------------------------------------------------------- the asserts of the consumer

  /** The asserts of threadFunc that are due in state s (AsyncLogging.cpp:60-62, 79, 94, 101), and
      that the pointers it dereferences are set. */
  predicate AssertsHold(s: Logger) {
    match s.phase
    case Collect => s.spare1 == Some([]) && s.spare2 == Some([]) && s.toWrite == []
    case Cut => s.toWrite != []
    case Write =>
      s.pos == |s.toWrite| ==>
        var drained := if |s.toWrite| > KEPT_BUFFERS then KEPT_BUFFERS else |s.toWrite|;
        && (s.spare1.None? ==> drained > 0)
        && (s.spare2.None? ==> drained > if s.spare1.None? then 1 else 0)
  }

  /** In every run no assert of the consumer fails, and the consumer is never stuck. */
  lemma AssertsNeverFail(room: Room, n: nat, acts: seq<Action>)
    requires Exec(room, n, acts).Some?
    ensures var s := Exec(room, n, acts).value.s;
            && AssertsHold(s)
            && (Enabled(s, SwapOut) || Enabled(s, CutDown) || Enabled(s, WriteOne) || Enabled(s, GiveBack))
  {
    ReachableInv(room, n, acts);
  }

  // ---------------------------------------------------------------- conservation

  lemma ConcatSnoc(bufs: seq<Buf>, b: Buf)
    ensures Concat(bufs + [b]) == Concat(bufs) + b
  {
    assert (bufs + [b])[..|bufs|] == bufs;
  }

  lemma {:induction false} ConcatSplit(a: seq<Buf>, b: seq<Buf>)
    ensures Concat(a + b) == Concat(a) + Concat(b)
  {
    if b == [] {
      assert a + b == a;
    } else {
      var init, last := b[..|b| - 1], b[|b| - 1];
      ConcatSplit(a, init);
      assert a + b == (a + init) + [last];
      ConcatSnoc(a + init, last);
      assert Concat(a) + (Concat(init) + last) == Concat(a) + Concat(init) + last;
    }
  }

  /** All lines, from the oldest round to the youngest line in memory. */
  function Everything(w: World): seq<Line> {
    Taken(w.cycles) + Concat(w.batch) + Concat(w.s.buffers) + w.s.current
  }

  /** The file, and what of the round under way has reached it. */
  predicate FileOk(w: World)
    requires Inv(w)
  {
    w.s.file == Written(w.cycles) + DoneOf(w)
  }

  lemma PutFirst(room: Room, n: nat, line: Line)
    ensures Put(room, n, [], line) == if |line| < n then [line] else []
  {
    assert Size([]) == 0;
  }

  /** What an append does to the buffers. */
  lemma AppendMoves(room: Room, n: nat, w: World, line: Line)
    requires Inv(w)
    ensures var t := Next(room, n, w, AppendLine(line));
            && t.cycles == w.cycles && t.batch == w.batch
            && if Fits(room, n, w.s.current, |line|) then
                 t.s.buffers == w.s.buffers && t.s.current == w.s.current + [line] && |line| < n
               else
                 t.s.buffers == w.s.buffers + [w.s.current] && t.s.current == Put(room, n, [], line)
  {
    hide Size;
  }

  lemma AppendAddsLine(room: Room, n: nat, w: World, line: Line)
    requires Inv(w)
    ensures var t := Next(room, n, w, AppendLine(line));
            Everything(t) == Everything(w) + if |line| < n then [line] else []
  {
    hide Taken, Concat, Size, Next, Put, Fits, Inv;
    AppendMoves(room, n, w, line);
    PutFirst(room, n, line);
    ConcatSnoc(w.s.buffers, w.s.current);
    var before := Taken(w.cycles) + Concat(w.batch);
    Joined(before, Concat(w.s.buffers), w.s.current);
    Joined(before + Concat(w.s.buffers), w.s.current, [line]);
  }

  lemma Joined(a: seq<Line>, b: seq<Line>, c: seq<Line>)
    ensures a + (b + c) == a + b + c
  {
  }

  lemma SwapKeepsEverything(room: Room, n: nat, w: World)
    requires Inv(w) && Enabled(w.s, SwapOut)
    ensures Everything(Next(room, n, w, SwapOut)) == Everything(w)
  {
    ConcatSnoc(w.s.buffers, w.s.current);
    var t := Next(room, n, w, SwapOut);
    assert t.batch == w.s.buffers + [w.s.current];
    assert Concat(t.s.buffers) == [] && t.s.current == [] && Concat(w.batch) == [];
  }

  lemma GiveBackKeepsEverything(room: Room, n: nat, w: World)
    requires Inv(w) && Enabled(w.s, GiveBack)
    ensures Everything(Next(room, n, w, GiveBack)) == Everything(w)
  {
    var t := Next(room, n, w, GiveBack);
    assert t.cycles[..|t.cycles| - 1] == w.cycles;
    assert Taken(t.cycles) == Taken(w.cycles) + Concat(w.batch);
    assert Concat(t.batch) == [];
  }

  lemma ConsumerKeepsEverything(room: Room, n: nat, w: World, a: Action)
    requires Inv(w) && Enabled(w.s, a) && !a.AppendLine?
    ensures Everything(Next(room, n, w, a)) == Everything(w)
  {
    match a
    case SwapOut => SwapKeepsEverything(room, n, w);
    case GiveBack => GiveBackKeepsEverything(room, n, w);
    case _ =>
  }

  lemma {:induction false} ReachableEverything(room: Room, n: nat, acts: seq<Action>)
    requires Exec(room, n, acts).Some?
    ensures Everything(Exec(room, n, acts).value) == Accepted(n, acts)
  {
    if acts != [] {
      var init, a := acts[..|acts| - 1], acts[|acts| - 1];
      ReachableInv(room, n, init);
      ReachableEverything(room, n, init);
      var w := Exec(room, n, init).value;
      if a.AppendLine? {
        AppendAddsLine(room, n, w, a.line);
      } else {
        ConsumerKeepsEverything(room, n, w, a);
      }
    }
  }

  lemma ConcatPrefix(bufs: seq<Buf>, k: nat)
    requires k < |bufs|
    ensures Concat(bufs[..k + 1]) == Concat(bufs[..k]) + bufs[k]
  {
    assert bufs[..k + 1] == bufs[..k] + [bufs[k]];
    ConcatSnoc(bufs[..k], bufs[k]);
  }

  lemma WriteExtendsFile(room: Room, n: nat, w: World)
    requires Inv(w) && FileOk(w) && Enabled(w.s, WriteOne)
    requires Inv(Next(room, n, w, WriteOne))
    ensures FileOk(Next(room, n, w, WriteOne))
  {
    hide Next, Written, Concat, Shape, BatchOk;
    WriteTouches(room, n, w);
    ConcatPrefix(w.s.toWrite, w.s.pos);
    Joined(Written(w.cycles), Concat(w.s.toWrite[..w.s.pos]), w.s.toWrite[w.s.pos]);
  }

  lemma WriteTouches(room: Room, n: nat, w: World)
    requires Enabled(w.s, WriteOne)
    ensures w.s.phase == Write && w.s.pos < |w.s.toWrite|
    ensures var t := Next(room, n, w, WriteOne);
            && t.cycles == w.cycles && t.s.phase == Write && t.s.toWrite == w.s.toWrite && t.s.pos == w.s.pos + 1
            && t.s.file == w.s.file + w.s.toWrite[w.s.pos]
  {
  }

  lemma GiveBackClosesCycle(room: Room, n: nat, w: World)
    requires Inv(w) && FileOk(w) && Enabled(w.s, GiveBack)
    requires Inv(Next(room, n, w, GiveBack))
    ensures FileOk(Next(room, n, w, GiveBack))
  {
    var c := Cycle(w.batch, |w.s.toWrite|, w.refusedBefore);
    assert (w.cycles + [c])[..|w.cycles|] == w.cycles;
    assert w.s.toWrite[..w.s.pos] == w.batch[..c.kept];
  }

  lemma OtherTouches(room: Room, n: nat, w: World, a: Action)
    requires Enabled(w.s, a) && !a.WriteOne? && !a.GiveBack?
    ensures var t := Next(room, n, w, a);
            && t.s.file == w.s.file && t.cycles == w.cycles
            && (if a.CutDown? then w.s.phase != Write && t.s.pos == 0
                else (t.s.phase == Write <==> w.s.phase == Write)
                     && (w.s.phase == Write ==> t.s.pos == w.s.pos && t.s.toWrite == w.s.toWrite))
  {
  }

  lemma OtherKeepsFile(room: Room, n: nat, w: World, a: Action)
    requires Inv(w) && FileOk(w) && Enabled(w.s, a) && Inv(Next(room, n, w, a))
    requires !a.WriteOne? && !a.GiveBack?
    ensures FileOk(Next(room, n, w, a))
  {
    hide Next, Written;
    OtherTouches(room, n, w, a);
    var t := Next(room, n, w, a);
    if a.CutDown? {
      assert t.s.toWrite[..0] == [];
    }
  }

  lemma StepKeepsFile(room: Room, n: nat, w: World, a: Action)
    requires Inv(w) && FileOk(w) && Enabled(w.s, a)
    ensures Inv(Next(room, n, w, a)) && FileOk(Next(room, n, w, a))
  {
    hide Inv, FileOk, Next, Enabled;
    StepKeepsInv(room, n, w, a);
    match a
    case WriteOne => WriteExtendsFile(room, n, w);
    case GiveBack => GiveBackClosesCycle(room, n, w);
    case _ => OtherKeepsFile(room, n, w, a);
  }

  lemma {:induction false} ReachableFile(room: Room, n: nat, acts: seq<Action>)
    requires Exec(room, n, acts).Some?
    ensures Inv(Exec(room, n, acts).value) && FileOk(Exec(room, n, acts).value)
  {
    if acts != [] {
      ReachableFile(room, n, acts[..|acts| - 1]);
      StepKeepsFile(room, n, Exec(room, n, acts[..|acts| - 1]).value, acts[|acts| - 1]);
    }
  }

  /** The lines whose flag is set, in order. */
  function Keep(lines: seq<Line>, flags: seq<bool>): seq<Line>
    requires |lines| == |flags|
  {
    if lines == [] then []
    else
      Keep(lines[..|lines| - 1], flags[..|flags| - 1]) +
      if flags[|flags| - 1] then [lines[|lines| - 1]] else []
  }

  /** a is what remains of b when some lines are left out. */
  ghost predicate Subsequence(a: seq<Line>, b: seq<Line>) {
    exists flags: seq<bool> :: |flags| == |b| && Keep(b, flags) == a
  }

  lemma {:induction false} KeepSplit(a: seq<Line>, b: seq<Line>, f: seq<bool>, g: seq<bool>)
    requires |a| == |f| && |b| == |g|
    ensures Keep(a + b, f + g) == Keep(a, f) + Keep(b, g)
  {
    if b == [] {
      assert a + b == a && f + g == f;
    } else {
      var bInit, gInit := b[..|b| - 1], g[..|g| - 1];
      KeepSplit(a, bInit, f, gInit);
      assert (a + b)[..|a + b| - 1] == a + bInit;
      assert (f + g)[..|f + g| - 1] == f + gInit;
    }
  }

  function Flags(k: nat, flag: bool): seq<bool> {
    seq(k, _ => flag)
  }

  lemma {:induction false} KeepAllOrNone(lines: seq<Line>, flag: bool)
    ensures Keep(lines, Flags(|lines|, flag)) == if flag then lines else []
  {
    if lines != [] {
      var init := lines[..|lines| - 1];
      KeepAllOrNone(init, flag);
      assert Flags(|lines|, flag)[..|lines| - 1] == Flags(|init|, flag);
      assert lines == init + [lines[|lines| - 1]];
    }
  }

  /** A first part is kept and what is behind it left out. */
  lemma KeepFirstPart(kept: seq<Line>, lost: seq<Line>)
    ensures Keep(kept + lost, Flags(|kept|, true) + Flags(|lost|, false)) == kept
  {
    KeepAllOrNone(kept, true);
    KeepAllOrNone(lost, false);
    KeepSplit(kept, lost, Flags(|kept|, true), Flags(|lost|, false));
  }

  /** Taking a piece of which a first part is kept. */
  lemma SubsequenceGrows(a: seq<Line>, b: seq<Line>, kept: seq<Line>, lost: seq<Line>)
    requires Subsequence(a, b)
    ensures Subsequence(a + kept, b + (kept + lost))
  {
    var flags: seq<bool> :| |flags| == |b| && Keep(b, flags) == a;
    KeepFirstPart(kept, lost);
    KeepSplit(b, kept + lost, flags, Flags(|kept|, true) + Flags(|lost|, false));
  }

  lemma {:induction false} WrittenIsSubsequence(cycles: seq<Cycle>)
    requires forall j :: 0 <= j < |cycles| ==> cycles[j].kept <= |cycles[j].batch|
    ensures Subsequence(Written(cycles), Taken(cycles))
  {
    if cycles == [] {
      assert Keep([], []) == [];
    } else {
      var init, c := cycles[..|cycles| - 1], cycles[|cycles| - 1];
      WrittenIsSubsequence(init);
      ConcatSplit(c.batch[..c.kept], c.batch[c.kept..]);
      assert c.batch[..c.kept] + c.batch[c.kept..] == c.batch;
      SubsequenceGrows(Written(init), Taken(init), Concat(c.batch[..c.kept]), Concat(c.batch[c.kept..]));
    }
  }

  lemma {:induction false} WrittenIsTaken(cycles: seq<Cycle>)
    requires forall j :: 0 <= j < |cycles| ==> cycles[j].kept == |cycles[j].batch|
    ensures Written(cycles) == Taken(cycles)
  {
    if cycles != [] {
      var init, c := cycles[..|cycles| - 1], cycles[|cycles| - 1];
      WrittenIsTaken(init);
      assert c.batch[..c.kept] == c.batch;
    }
  }

  /** No round so far has thrown buffers away. */
  predicate NothingCut(w: World) {
    && (forall j :: 0 <= j < |w.cycles| ==> w.cycles[j].kept == |w.cycles[j].batch|)
    && (w.s.phase == Write ==> w.s.toWrite == w.batch)
  }

  /** What the consumer still has to write. */
  function Unwritten(s: Logger): seq<Line>
    requires s.pos <= |s.toWrite|
  {
    Concat(s.toWrite[s.pos..])
  }

  lemma BatchIsDoneAndUnwritten(w: World)
    requires Inv(w) && NothingCut(w)
    ensures w.s.pos <= |w.s.toWrite| && Concat(w.batch) == DoneOf(w) + Unwritten(w.s)
  {
    var a, b := w.s.toWrite[..w.s.pos], w.s.toWrite[w.s.pos..];
    assert w.s.toWrite == a + b;
    ConcatSplit(a, b);
    if w.s.phase != Write {
      assert b == w.s.toWrite && [] + Concat(b) == Concat(b);
    }
  }

  lemma NothingCutNothingLost(w: World)
    requires Inv(w) && FileOk(w) && NothingCut(w)
    ensures w.s.pos <= |w.s.toWrite|
    ensures w.s.file + Unwritten(w.s) + Concat(w.s.buffers) + w.s.current == Everything(w)
  {
    hide Concat, DoneOf, Unwritten, Inv;
    WrittenIsTaken(w.cycles);
    BatchIsDoneAndUnwritten(w);
    Regroup(Taken(w.cycles), DoneOf(w), Unwritten(w.s), Concat(w.s.buffers), w.s.current);
  }

  /** Conservation: as long as no batch exceeded 25 buffers, the file, then the unwritten part of
      the batch, then the full buffers, then the current buffer hold exactly the accepted lines in
      lock order, whatever the interleaving. */
  lemma Conservation(room: Room, n: nat, acts: seq<Action>)
    requires Exec(room, n, acts).Some? && NothingCut(Exec(room, n, acts).value)
    ensures var s := Exec(room, n, acts).value.s;
            s.pos <= |s.toWrite| &&
            s.file + Unwritten(s) + Concat(s.buffers) + s.current == Accepted(n, acts)
  {
    ReachableFile(room, n, acts);
    ReachableEverything(room, n, acts);
    NothingCutNothingLost(Exec(room, n, acts).value);
  }

  /** The part of the batch under way that is in the file. */
  function DoneOf(w: World): seq<Line>
    requires Inv(w)
  {
    if w.s.phase == Write then Concat(w.s.toWrite[..w.s.pos]) else []
  }

  lemma BatchInTwo(w: World) returns (left: seq<Line>)
    requires Inv(w)
    ensures Concat(w.batch) == DoneOf(w) + left
  {
    if w.s.phase == Write {
      var a, b := w.batch[..w.s.pos], w.batch[w.s.pos..];
      assert w.s.toWrite[..w.s.pos] == a;
      assert w.batch == a + b;
      ConcatSplit(a, b);
      left := Concat(b);
    } else {
      left := Concat(w.batch);
      assert [] + left == left;
    }
  }

  lemma Regroup(taken: seq<Line>, done: seq<Line>, left: seq<Line>, full: seq<Line>, current: seq<Line>)
    ensures taken + (done + (left + full + current)) == taken + (done + left) + full + current
    ensures taken + done + left + full + current == taken + (done + left) + full + current
  {
  }

  lemma FileIsPartOfEverything(w: World)
    requires Inv(w) && FileOk(w)
    ensures Subsequence(w.s.file, Everything(w))
  {
    WrittenIsSubsequence(w.cycles);
    var left := BatchInTwo(w);
    var lost := left + Concat(w.s.buffers) + w.s.current;
    SubsequenceGrows(Written(w.cycles), Taken(w.cycles), DoneOf(w), lost);
    Regroup(Taken(w.cycles), DoneOf(w), left, Concat(w.s.buffers), w.s.current);
  }

  /** In every run the file holds the kept first parts of the batches of all rounds and what has been written
      of the batch under way, buffer by buffer.  That is a subsequence of the accepted lines in lock order: no
      line is duplicated, reordered or split. */
  lemma FileIsSubsequence(room: Room, n: nat, acts: seq<Action>)
    requires Exec(room, n, acts).Some?
    ensures var w := Exec(room, n, acts).value;
            && (forall j :: 0 <= j < |w.cycles| ==> w.cycles[j].kept <= |w.cycles[j].batch|)
            && w.s.pos <= |w.s.toWrite|
            && w.s.file == Written(w.cycles) + (if w.s.phase == Write then Concat(w.s.toWrite[..w.s.pos]) else [])
            && Subsequence(w.s.file, Accepted(n, acts))
            && (forall j :: 0 <= j < |w.cycles| ==> CycleOk(w.cycles[j]))
            && w.s.toWrite <= w.batch
  {
    ReachableFile(room, n, acts);
    ReachableEverything(room, n, acts);
    FileIsPartOfEverything(Exec(room, n, acts).value);
  }

  // ---------------------------------------------------------------- the loss bound

  /** Every line of the schedule is at most l bytes long. */
  predicate LinesAtMost(acts: seq<Action>, l: nat) {
    forall j :: 0 <= j < |acts| && acts[j].AppendLine? ==> |acts[j].line| <= l
  }

  lemma {:induction false} SizeSplit(a: Buf, b: Buf)
    ensures Size(a + b) == Size(a) + Size(b)
  {
    if b == [] {
      assert a + b == a;
    } else {
      SizeSplit(a, b[..|b| - 1]);
      assert (a + b)[..|a + b| - 1] == a + b[..|b| - 1];
    }
  }

  /** Buffers that were full hold at least n - l bytes each. */
  predicate Full(bufs: seq<Buf>, n: nat, l: nat) {
    forall j :: 0 <= j < |bufs| ==> Size(bufs[j]) + l >= n
  }

  lemma OneMoreTimes(k: nat, d: nat)
    ensures (k + 1) * d == k * d + d
  {
  }

  lemma {:induction false} FullBuffersAreLarge(bufs: seq<Buf>, n: nat, l: nat)
    requires l <= n && Full(bufs, n, l)
    ensures Size(Concat(bufs)) >= |bufs| * (n - l)
  {
    if bufs != [] {
      var init, last := bufs[..|bufs| - 1], bufs[|bufs| - 1];
      FullBuffersAreLarge(init, n, l);
      SizeSplit(Concat(init), last);
      OneMoreTimes(|init|, n - l);
    }
  }

  /** With a room check, only full buffers are handed over, except the last of each batch. */
  predicate HandedOverFull(w: World, n: nat, l: nat) {
    && Full(w.s.buffers, n, l)
    && (w.batch != [] ==> Full(w.batch[..|w.batch| - 1], n, l))
    && forall j :: 0 <= j < |w.cycles| && w.cycles[j].batch != [] ==>
         Full(w.cycles[j].batch[..|w.cycles[j].batch| - 1], n, l)
  }

  lemma StepHandsOverFull(n: nat, l: nat, w: World, a: Action)
    requires Inv(w) && HandedOverFull(w, n, l) && Enabled(w.s, a)
    requires a.AppendLine? ==> |a.line| <= l
    ensures HandedOverFull(Next(Remaining, n, w, a), n, l)
  {
    var t := Next(Remaining, n, w, a);
    match a
    case AppendLine(line) =>
      if !Fits(Remaining, n, w.s.current, |line|) {
        assert Size(w.s.current) + l >= n;
      }
    case SwapOut =>
      assert t.batch[..|t.batch| - 1] == w.s.buffers;
    case _ =>
  }

  lemma {:induction false} ReachableFull(n: nat, l: nat, acts: seq<Action>)
    requires Exec(Remaining, n, acts).Some? && LinesAtMost(acts, l)
    ensures HandedOverFull(Exec(Remaining, n, acts).value, n, l)
  {
    if acts != [] {
      var init := acts[..|acts| - 1];
      ReachableFull(n, l, init);
      ReachableInv(Remaining, n, init);
      StepHandsOverFull(n, l, Exec(Remaining, n, init).value, acts[|acts| - 1]);
    }
  }

  lemma TimesAtLeast(a: nat, b: nat, c: nat)
    requires a >= b
    ensures a * c >= b * c
  {
  }

  lemma SizeOfInit(bufs: seq<Buf>)
    requires bufs != []
    ensures Size(Concat(bufs)) >= Size(Concat(bufs[..|bufs| - 1]))
  {
    SizeSplit(Concat(bufs[..|bufs| - 1]), bufs[|bufs| - 1]);
  }

  lemma LargeBatch(batch: seq<Buf>, n: nat, l: nat)
    requires l < n && |batch| > MAX_BATCH && Full(batch[..|batch| - 1], n, l)
    ensures Size(Concat(batch)) >= MAX_BATCH * (n - l)
  {
    var full, d := batch[..|batch| - 1], n - l;
    FullBuffersAreLarge(full, n, l);
    assert Size(Concat(full)) >= |full| * d >= MAX_BATCH * d by {
      TimesAtLeast(|full|, MAX_BATCH, d);
    }
    SizeOfInit(batch);
  }

  lemma LossBoundWithCheck(n: nat, l: nat, acts: seq<Action>, j: nat)
    requires Exec(Remaining, n, acts).Some? && LinesAtMost(acts, l) && l < n
    requires j < |Exec(Remaining, n, acts).value.cycles|
    ensures var c := Exec(Remaining, n, acts).value.cycles[j];
            c.kept < |c.batch| ==> Size(Concat(c.batch)) >= 25 * (n - l)
  {
    ReachableInv(Remaining, n, acts);
    ReachableFull(n, l, acts);
    var c := Exec(Remaining, n, acts).value.cycles[j];
    if c.kept < |c.batch| {
      LargeBatch(c.batch, n, l);
    }
  }

  /** With avail() as it is written, only a line that fits into no buffer hands a buffer over. */
  predicate HandedOverByRefusal(w: World) {
    && |w.s.buffers| == w.refused
    && (w.batch != [] ==> |w.batch| == w.refusedBefore + 1)
    && forall j :: 0 <= j < |w.cycles| ==> |w.cycles[j].batch| == w.cycles[j].refused + 1
  }

  lemma {:induction false} ReachableRefusals(n: nat, acts: seq<Action>)
    requires Exec(WholeArray, n, acts).Some?
    ensures HandedOverByRefusal(Exec(WholeArray, n, acts).value)
  {
    if acts != [] {
      ReachableRefusals(n, acts[..|acts| - 1]);
      ReachableInv(WholeArray, n, acts[..|acts| - 1]);
    }
  }

  /** The exact loss condition of the code as it stands: a round throws buffers away if and only if
      at least 25 lines of n bytes or more were refused since the swap before it. */
  lemma LossIff(n: nat, acts: seq<Action>, j: nat)
    requires Exec(WholeArray, n, acts).Some?
    requires j < |Exec(WholeArray, n, acts).value.cycles|
    ensures var c := Exec(WholeArray, n, acts).value.cycles[j];
            c.kept < |c.batch| <==> c.refused >= 25
  {
    ReachableRefusals(n, acts);
    ReachableInv(WholeArray, n, acts);
  }

  /** Lines that fit into a buffer are never refused. */
  predicate NoneRefused(w: World) {
    w.refused == 0 && w.refusedBefore == 0 && forall j :: 0 <= j < |w.cycles| ==> w.cycles[j].refused == 0
  }

  lemma {:induction false} ReachableNoneRefused(n: nat, l: nat, acts: seq<Action>)
    requires Exec(WholeArray, n, acts).Some? && LinesAtMost(acts, l) && l < n
    ensures NoneRefused(Exec(WholeArray, n, acts).value)
  {
    if acts != [] {
      ReachableNoneRefused(n, l, acts[..|acts| - 1]);
    }
  }

  /** The loss bound, whichever of the two avail() answers: a round that throws buffers away has taken
      at least 25 * (n - l) bytes, all appended since the swap before it.  With avail() as it is written
      no such round exists. */
  lemma LossBound(room: Room, n: nat, l: nat, acts: seq<Action>, j: nat)
    requires Exec(room, n, acts).Some? && LinesAtMost(acts, l) && l < n
    requires j < |Exec(room, n, acts).value.cycles|
    ensures var c := Exec(room, n, acts).value.cycles[j];
            && (c.kept < |c.batch| ==> Size(Concat(c.batch)) >= 25 * (n - l))
            && (room == WholeArray ==> c.kept == |c.batch|)
  {
    if room == WholeArray {
      ReachableInv(WholeArray, n, acts);
      ReachableNoneRefused(n, l, acts);
      LossIff(n, acts, j);
    } else {
      LossBoundWithCheck(n, l, acts, j);
    }
  }

  // ---------------------------------------------------------------- writing behind the end of a buffer

  /** avail() as written is the room check it is used for, for every length, exactly while the
      buffer is empty. */
  lemma GuardIsRoomCheckIff(n: nat, b: Buf)
    ensures (forall len: nat :: Fits(WholeArray, n, b, len) <==> Fits(Remaining, n, b, len))
            <==> (Size(b) == 0 || n == 0)
  {
    if 0 < Size(b) && 0 < n {
      assert Fits(WholeArray, n, b, n - 1) && !Fits(Remaining, n, b, n - 1);
    }
  }

  /** No buffer outgrows its array. */
  predicate InBounds(s: Logger, n: nat) {
    && Size(s.current) <= n
    && (forall j :: 0 <= j < |s.buffers| ==> Size(s.buffers[j]) <= n)
    && (forall j :: 0 <= j < |s.toWrite| ==> Size(s.toWrite[j]) <= n)
  }

  lemma SizeSnoc(b: Buf, line: Line)
    ensures Size(b + [line]) == Size(b) + |line|
  {
    assert (b + [line])[..|b|] == b;
  }

  lemma ShortenedInBounds(bufs: seq<Buf>, k: nat, n: nat)
    requires k <= |bufs| && forall j :: 0 <= j < |bufs| ==> Size(bufs[j]) <= n
    ensures forall j :: 0 <= j < |bufs[..k]| ==> Size(bufs[..k][j]) <= n
  {
  }

  /** A step keeps every buffer inside its array when the line it stores stays inside. */
  lemma StepInBounds(room: Room, n: nat, s: Logger, a: Action)
    requires Enabled(s, a) && Shape(s) && InBounds(s, n) && Size(Step(room, n, s, a).current) <= n
    ensures InBounds(Step(room, n, s, a), n)
  {
    hide Size, Fits, Put;
    match a
    case AppendLine(line) =>
    case SwapOut =>
    case CutDown =>
      if |s.toWrite| > MAX_BATCH {
        ShortenedInBounds(s.toWrite, KEPT_BUFFERS, n);
      }
    case WriteOne =>
    case GiveBack =>
  }

  /** The bytes appended since the consumer last took the current buffer or a line of a whole buffer's
      size made a producer hand it over. */
  function Since(n: nat, acts: seq<Action>): nat {
    if acts == [] then 0
    else
      var before := Since(n, acts[..|acts| - 1]);
      match acts[|acts| - 1]
      case AppendLine(line) => if |line| >= n then 0 else before + |line|
      case SwapOut => 0
      case _ => before
  }

  lemma {:induction false} SizeIsSince(n: nat, acts: seq<Action>)
    requires Exec(WholeArray, n, acts).Some?
    ensures Size(Exec(WholeArray, n, acts).value.s.current) == Since(n, acts)
  {
    if acts != [] {
      var init, a := acts[..|acts| - 1], acts[|acts| - 1];
      SizeIsSince(n, init);
      ReachableInv(WholeArray, n, init);
      if a.AppendLine? {
        SizeSnoc(Exec(WholeArray, n, init).value.s.current, a.line);
      }
    }
  }

  lemma {:induction false} PrefixRuns(room: Room, n: nat, acts: seq<Action>, k: nat)
    requires Exec(room, n, acts).Some? && k <= |acts|
    ensures Exec(room, n, acts[..k]).Some?
  {
    if k < |acts| {
      PrefixRuns(room, n, acts[..|acts| - 1], k);
      assert acts[..|acts| - 1][..k] == acts[..k];
    } else {
      assert acts[..k] == acts;
    }
  }

  /** After every action of the run so far all buffers are inside their arrays. */
  ghost predicate AlwaysInBounds(n: nat, acts: seq<Action>) {
    forall k :: 0 <= k <= |acts| ==>
      Exec(WholeArray, n, acts[..k]).Some? && InBounds(Exec(WholeArray, n, acts[..k]).value.s, n)
  }

  ghost predicate AlwaysAtMost(n: nat, acts: seq<Action>) {
    forall k :: 0 <= k <= |acts| ==> Since(n, acts[..k]) <= n
  }

  lemma {:induction false} AtMostIsInBounds(n: nat, acts: seq<Action>)
    requires Exec(WholeArray, n, acts).Some? && AlwaysAtMost(n, acts)
    ensures InBounds(Exec(WholeArray, n, acts).value.s, n)
  {
    if acts != [] {
      var init, a := acts[..|acts| - 1], acts[|acts| - 1];
      forall k | 0 <= k <= |init| ensures Since(n, init[..k]) <= n {
        assert init[..k] == acts[..k];
      }
      AtMostIsInBounds(n, init);
      ReachableInv(WholeArray, n, init);
      SizeIsSince(n, acts);
      assert acts[..|acts|] == acts;
      StepInBounds(WholeArray, n, Exec(WholeArray, n, init).value.s, a);
    }
  }

  /** The code as it stands never writes behind the end of a buffer, in a run of any length and
      interleaving, if and only if at no time more than n bytes have been appended since the current
      buffer was last handed over: by the consumer's swap, or by a line of n bytes or more. */
  lemma InBoundsIff(n: nat, acts: seq<Action>)
    requires Exec(WholeArray, n, acts).Some?
    ensures AlwaysInBounds(n, acts) <==> AlwaysAtMost(n, acts)
  {
    forall k | 0 <= k <= |acts|
      ensures Exec(WholeArray, n, acts[..k]).Some?
      ensures Size(Exec(WholeArray, n, acts[..k]).value.s.current) == Since(n, acts[..k])
      ensures AlwaysAtMost(n, acts) ==> InBounds(Exec(WholeArray, n, acts[..k]).value.s, n)
    {
      PrefixRuns(WholeArray, n, acts, k);
      SizeIsSince(n, acts[..k]);
      if AlwaysAtMost(n, acts) {
        forall i | 0 <= i <= k ensures Since(n, acts[..k][..i]) <= n {
          assert acts[..k][..i] == acts[..i];
        }
        AtMostIsInBounds(n, acts[..k]);
      }
    }
  }

  /** Two lines that each fit into a buffer, but not together, are already too much. */
  lemma TwoLinesOverflow(n: nat, first: Line, second: Line)
    requires |first| < n && |second| < n && |first| + |second| > n
    ensures var acts := [AppendLine(first), AppendLine(second)];
            Exec(WholeArray, n, acts).Some? && !InBounds(Exec(WholeArray, n, acts).value.s, n)
  {
    var one, acts := [AppendLine(first)], [AppendLine(first), AppendLine(second)];
    assert one[..0] == [] && acts[..1] == one;
    assert Exec(WholeArray, n, []) == Some(START);
    assert Exec(WholeArray, n, one).Some?;
    assert Since(n, []) == 0 && Since(n, one) == |first|;
    SizeIsSince(n, acts);
  }
}
