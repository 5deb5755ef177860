/**
 The pipelined upload of internal/session/copy.go: one reader fills recycled buffers and
 hands them over an unbuffered channel to a fixed set of writers, which return each buffer
 through the `free` channel once the server has acknowledged it.

 A state holds everything the goroutines share; a `Step` is one atomic action of one
 goroutine, so a run is an arbitrary interleaving. Reading and writing are modelled one
 byte at a time, so a buffer that were reused too early would be visible in the remote file.
 */
module Upload {
  import opened Options

  type Byte = b: int | 0 <= b < 256

  /** The source bytes, the chunk size and the number of writers (and of buffers). */
  datatype Config = Config(src: seq<Byte>, chunk: nat, conc: nat) {
    predicate Valid() { chunk > 0 && conc > 0 }
  }

  const UPLOAD_CHUNK_SIZE: nat := 32 * 1024
  const UPLOAD_CONCURRENCY: nat := 64

  /** The configuration the program uploads `src` with; every result below holds for any valid one. */
  function ProgramConfig(src: seq<Byte>): (c: Config)
    ensures c.Valid() && c.src == src && c.chunk == 32768 && c.conc == 64
  {
    Config(src, UPLOAD_CHUNK_SIZE, UPLOAD_CONCURRENCY)
  }

  /** How io.ReadFull ended: a full buffer, an error the program takes for the end of the source, or another error. */
  datatype ReadEnd = Full | Eof | Broken

  datatype Reader =
    | Waiting
    | Filling(buf: nat, n: nat)
    | Sending(buf: nat, n: nat, end: ReadEnd)
    | Returned(kept: Option<nat>, ok: bool)

  datatype Worker =
    | Idle
    | Writing(buf: nat, off: nat, n: nat, k: nat)
    | Acked(buf: nat, n: nat)
    | Counted(buf: nat)
    | Failed(buf: nat, off: nat, n: nat)
    | Exited

  datatype State = State(
    bufs: seq<seq<Byte>>,
    free: seq<nat>,
    reader: Reader,
    pos: nat,
    off: nat,
    workers: seq<Worker>,
    remote: map<nat, Byte>,
    bytes: nat,
    acked: nat,
    ctxDone: bool,
    short: bool)   // history: a read ended early with io.ErrUnexpectedEOF

  datatype Step =
    | Cancel
    | TakeFree
    | ReadByte
    | ReadFull
    | ReadEof
    | ReadShort
    | ReadFail
    | Hand(w: nat)
    | ReaderCancel
    | WriteByte(w: nat)
    | Ack(w: nat)
    | WriteFail(w: nat)
    | Count(w: nat)
    | Recycle(w: nat)
    | Exit(w: nat)

  ghost predicate Init(c: Config, s: State) {
    && |s.bufs| == c.conc && (forall b :: 0 <= b < c.conc ==> |s.bufs[b]| == c.chunk)
    && s.free == seq(c.conc, i => i)
    && s.workers == seq(c.conc, i => Idle)
    && s.reader == Waiting && s.pos == 0 && s.off == 0
    && s.remote == map[] && s.bytes == 0 && s.acked == 0 && !s.short
  }

  predicate Enabled(c: Config, s: State, step: Step) {
    match step
    case Cancel => true
    case TakeFree => s.reader.Waiting? && s.free != [] && s.free[0] < |s.bufs|
    case ReadByte =>
      && s.reader.Filling? && s.reader.n < c.chunk && s.pos < |c.src|
      && s.reader.buf < |s.bufs| && s.reader.n < |s.bufs[s.reader.buf]|
    case ReadFull => s.reader.Filling? && s.reader.n == c.chunk
    case ReadEof => s.reader.Filling? && s.reader.n < c.chunk && s.pos == |c.src|
    case ReadShort => s.reader.Filling? && s.reader.n < c.chunk && s.pos < |c.src|
    case ReadFail => s.reader.Filling? && s.reader.n < c.chunk
    case Hand(w) => s.reader.Sending? && w < |s.workers| && s.workers[w].Idle?
    case ReaderCancel => s.ctxDone && (s.reader.Waiting? || s.reader.Sending?)
    case WriteByte(w) =>
      && w < |s.workers| && s.workers[w].Writing? && s.workers[w].k < s.workers[w].n
      && s.workers[w].buf < |s.bufs| && s.workers[w].k < |s.bufs[s.workers[w].buf]|
    case Ack(w) => w < |s.workers| && s.workers[w].Writing? && s.workers[w].k == s.workers[w].n
    case WriteFail(w) => w < |s.workers| && s.workers[w].Writing?
    case Count(w) => w < |s.workers| && s.workers[w].Acked?
    case Recycle(w) => w < |s.workers| && s.workers[w].Counted? && |s.free| < c.conc
    case Exit(w) => w < |s.workers| && s.workers[w].Idle? && s.reader.Returned?
  }

  /** The reader's state once ReadFull has ended with `n` bytes in `buf`. */
  function AfterRead(buf: nat, n: nat, end: ReadEnd): Reader {
    if n > 0 then Sending(buf, n, end) else Returned(Some(buf), end == Eof)
  }

  /** The reader's state once the last chunk it read has been taken by a writer. */
  function AfterHand(end: ReadEnd): Reader {
    if end.Full? then Waiting else Returned(None, end == Eof)
  }

  function Apply(c: Config, s: State, step: Step): State
    requires Enabled(c, s, step)
  {
    match step
    case Cancel => s.(ctxDone := true)
    case TakeFree => s.(reader := Filling(s.free[0], 0), free := s.free[1..])
    case ReadByte =>
      var b, n := s.reader.buf, s.reader.n;
      s.(bufs := s.bufs[b := s.bufs[b][n := c.src[s.pos]]], reader := Filling(b, n + 1), pos := s.pos + 1)
    case ReadFull => s.(reader := AfterRead(s.reader.buf, s.reader.n, Full))
    case ReadEof => s.(reader := AfterRead(s.reader.buf, s.reader.n, Eof))
    case ReadShort => s.(reader := AfterRead(s.reader.buf, s.reader.n, Eof), short := true)
    case ReadFail =>
      s.(reader := AfterRead(s.reader.buf, s.reader.n, Broken), ctxDone := s.ctxDone || s.reader.n == 0)
    case Hand(w) =>
      var r := s.reader;
      s.(workers := s.workers[w := Writing(r.buf, s.off, r.n, 0)], off := s.off + r.n,
         reader := AfterHand(r.end), ctxDone := s.ctxDone || r.end.Broken?)
    case ReaderCancel =>
      s.(reader := Returned(if s.reader.Sending? then Some(s.reader.buf) else None, false))
    case WriteByte(w) =>
      var k := s.workers[w];
      s.(remote := s.remote[k.off + k.k := s.bufs[k.buf][k.k]], workers := s.workers[w := k.(k := k.k + 1)])
    case Ack(w) =>
      s.(workers := s.workers[w := Acked(s.workers[w].buf, s.workers[w].n)], acked := s.acked + s.workers[w].n)
    case WriteFail(w) =>
      var k := s.workers[w];
      s.(workers := s.workers[w := Failed(k.buf, k.off, k.n)], ctxDone := true)
    case Count(w) =>
      s.(workers := s.workers[w := Counted(s.workers[w].buf)], bytes := s.bytes + s.workers[w].n)
    case Recycle(w) => s.(free := s.free + [s.workers[w].buf], workers := s.workers[w := Idle])
    case Exit(w) => s.(workers := s.workers[w := Exited])
  }

  /** The state after `steps`, when each is enabled where it happens. */
  ghost predicate Reaches(c: Config, s: State, steps: seq<Step>, t: State)
    decreases |steps|
  {
    if steps == [] then s == t
    else Enabled(c, s, steps[0]) && Reaches(c, Apply(c, s, steps[0]), steps[1..], t)
  }

  // ----- sums over the writers

  function Sum(ws: seq<Worker>, f: Worker -> nat): nat {
    if ws == [] then 0 else f(ws[0]) + Sum(ws[1..], f)
  }

  lemma {:induction false} SumUpdate(ws: seq<Worker>, i: nat, w: Worker, f: Worker -> nat)
    requires i < |ws|
    ensures Sum(ws[i := w], f) + f(ws[i]) == Sum(ws, f) + f(w)
  {
    if i == 0 {
      assert ws[0 := w][1..] == ws[1..];
    } else {
      assert ws[i := w][1..] == ws[1..][i - 1 := w];
      SumUpdate(ws[1..], i - 1, w, f);
    }
  }

  lemma {:induction false} SumAtLeast(ws: seq<Worker>, i: nat, f: Worker -> nat)
    requires i < |ws|
    ensures Sum(ws, f) >= f(ws[i])
  {
    if i > 0 {
      SumAtLeast(ws[1..], i - 1, f);
    }
  }

  lemma {:induction false} SumConst(ws: seq<Worker>, v: nat, f: Worker -> nat)
    requires forall i :: 0 <= i < |ws| ==> f(ws[i]) == v
    ensures Sum(ws, f) == v * |ws|
  {
    if ws != [] {
      SumConst(ws[1..], v, f);
    }
  }

  /** Bytes handed to a writer and not yet counted in the job. */
  function Outstanding(w: Worker): nat {
    match w
    case Writing(_, _, n, _) => n
    case Acked(_, n) => n
    case Failed(_, _, n) => n
    case _ => 0
  }

  /** Bytes acknowledged and not yet counted in the job. */
  function AckPending(w: Worker): nat { if w.Acked? then w.n else 0 }

  function WorkerBuf(w: Worker): Option<nat> {
    match w
    case Writing(b, _, _, _) => Some(b)
    case Acked(b, _) => Some(b)
    case Counted(b) => Some(b)
    case Failed(b, _, _) => Some(b)
    case _ => None
  }

  function ReaderBuf(r: Reader): Option<nat> {
    match r
    case Waiting => None
    case Filling(b, _) => Some(b)
    case Sending(b, _, _) => Some(b)
    case Returned(kept, _) => kept
  }

  function Holds(w: Worker): nat { if WorkerBuf(w).Some? then 1 else 0 }

  // ----- the invariant

  ghost predicate Shape(c: Config, s: State) {
    && |s.bufs| == c.conc && |s.workers| == c.conc
    && (forall b :: 0 <= b < |s.bufs| ==> |s.bufs[b]| == c.chunk)
    && (forall i :: 0 <= i < |s.free| ==> s.free[i] < c.conc)
    && (ReaderBuf(s.reader).Some? ==> ReaderBuf(s.reader).value < c.conc)
    && (forall i :: 0 <= i < |s.workers| && WorkerBuf(s.workers[i]).Some? ==> WorkerBuf(s.workers[i]).value < c.conc)
  }

  /** No buffer has two owners. */
  ghost predicate Exclusive(s: State) {
    && (forall i, j :: 0 <= i < j < |s.free| ==> s.free[i] != s.free[j])
    && (ReaderBuf(s.reader).Some? ==> ReaderBuf(s.reader).value !in s.free)
    && (forall i :: 0 <= i < |s.workers| && WorkerBuf(s.workers[i]).Some? ==>
          WorkerBuf(s.workers[i]).value !in s.free && WorkerBuf(s.workers[i]) != ReaderBuf(s.reader))
    && (forall i, j :: 0 <= i < j < |s.workers| && WorkerBuf(s.workers[i]).Some? ==>
          WorkerBuf(s.workers[i]) != WorkerBuf(s.workers[j]))
  }

  ghost predicate HeldByWorker(s: State, b: nat, i: nat) {
    i < |s.workers| && WorkerBuf(s.workers[i]) == Some(b)
  }

  /** Every buffer has an owner. */
  ghost predicate Owned(c: Config, s: State) {
    forall b: nat :: b < c.conc ==> HasOwner(s, b)
  }

  /** Buffers, handed-over bytes and acknowledged bytes are each conserved. */
  ghost predicate Conserved(c: Config, s: State) {
    && BuffersConserved(c, s)
    && s.bytes + Sum(s.workers, Outstanding) == s.off
    && s.bytes + Sum(s.workers, AckPending) == s.acked
  }

  ghost predicate BuffersConserved(c: Config, s: State) {
    |s.free| + (if ReaderBuf(s.reader).Some? then 1 else 0) + Sum(s.workers, Holds) == c.conc
  }

  ghost predicate ReaderContent(c: Config, s: State)
    requires s.off <= s.pos <= |c.src|
  {
    match s.reader
    case Waiting => s.pos == s.off && !s.short
    case Filling(b, n) => ReadSoFar(c, s, b, n) && !s.short
    case Sending(b, n, end) => 0 < n && ReadSoFar(c, s, b, n) && EndKnown(c, s, end.Eof?) && (s.short ==> end.Eof?)
    case Returned(_, ok) => (ok ==> s.pos == s.off) && EndKnown(c, s, ok)
  }

  /** The first `n` bytes of buffer `b` are the ones read and not handed over yet. */
  ghost predicate ReadSoFar(c: Config, s: State, b: nat, n: nat)
    requires s.off <= s.pos <= |c.src|
  {
    b < |s.bufs| && n <= |s.bufs[b]| && s.pos == s.off + n && s.bufs[b][..n] == c.src[s.off..s.pos]
  }

  /** A reader that takes the source for ended is right unless a read ended early. */
  ghost predicate EndKnown(c: Config, s: State, ended: bool) {
    && (ended ==> (s.short <==> s.pos < |c.src|))
    && (s.short ==> s.pos < |c.src|)
  }

  ghost predicate WorkerContent(c: Config, s: State, w: Worker)
    requires s.off <= |c.src|
  {
    w.Writing? ==>
      && w.buf < |s.bufs| && w.k <= w.n <= |s.bufs[w.buf]| && w.off + w.n <= s.off
      && s.bufs[w.buf][..w.n] == c.src[w.off..w.off + w.n]
  }

  /** Byte `j` of the file is still this writer's to deliver. */
  ghost predicate Missing(w: Worker, j: nat) {
    || (w.Writing? && w.off + w.k <= j < w.off + w.n)
    || (w.Failed? && w.off <= j < w.off + w.n)
  }

  ghost predicate MissingAt(s: State, j: nat, i: nat) {
    i < |s.workers| && Missing(s.workers[i], j)
  }

  ghost predicate Content(c: Config, s: State) {
    && s.off <= s.pos <= |c.src|
    && ReaderContent(c, s)
    && (forall i :: 0 <= i < |s.workers| ==> WorkerContent(c, s, s.workers[i]))
    && RemoteMatches(c, s)
    && NothingLost(s)
  }

  /** What has reached the remote file is what the source holds there. */
  ghost predicate RemoteMatches(c: Config, s: State) {
    forall j :: j in s.remote ==> j < s.off <= |c.src| && s.remote[j] == c.src[j]
  }

  /** Every byte handed out is in the remote file or still some writer's to deliver. */
  ghost predicate NothingLost(s: State) {
    forall j: nat :: j < s.off ==> Accounted(s, j)
  }

  ghost predicate Accounted(s: State, j: nat) { j in s.remote || exists i :: MissingAt(s, j, i) }

  ghost predicate Errors(s: State) {
    && (s.reader.Returned? && !s.reader.ok ==> s.ctxDone)
    && (forall i :: 0 <= i < |s.workers| && s.workers[i].Failed? ==> s.ctxDone)
    && (forall i :: 0 <= i < |s.workers| && s.workers[i].Exited? ==> s.reader.Returned?)
  }

  ghost predicate Inv(c: Config, s: State) {
    Shape(c, s) && Exclusive(s) && Owned(c, s) && Conserved(c, s) && Content(c, s) && Errors(s)
  }

  lemma InitInv(c: Config, s: State)
    requires c.Valid() && Init(c, s)
    ensures Inv(c, s)
  {
    SumConst(s.workers, 0, Holds);
    SumConst(s.workers, 0, Outstanding);
    SumConst(s.workers, 0, AckPending);
    forall b: nat | b < c.conc ensures b in s.free {
      assert s.free[b] == b;
    }
  }

  /** The writer a step changes, if any. */
  function Target(step: Step): Option<nat> {
    match step
    case Hand(w) => Some(w)
    case WriteByte(w) => Some(w)
    case Ack(w) => Some(w)
    case WriteFail(w) => Some(w)
    case Count(w) => Some(w)
    case Recycle(w) => Some(w)
    case Exit(w) => Some(w)
    case _ => None
  }

  lemma StepShape(c: Config, s: State, step: Step)
    requires Shape(c, s) && Enabled(c, s, step)
    ensures Shape(c, Apply(c, s, step))
  {}

  lemma ReaderKeepsExclusive(c: Config, s: State, step: Step)
    requires Shape(c, s) && Exclusive(s) && Enabled(c, s, step) && Target(step).None?
    ensures Exclusive(Apply(c, s, step))
  {}

  lemma WriterKeepsExclusive(c: Config, s: State, step: Step)
    requires Shape(c, s) && Exclusive(s) && Enabled(c, s, step) && Target(step).Some?
    ensures Exclusive(Apply(c, s, step))
  {}

  ghost predicate HasOwner(s: State, b: nat) {
    b in s.free || ReaderBuf(s.reader) == Some(b) || exists i :: HeldByWorker(s, b, i)
  }

  lemma ReaderKeepsOwner(c: Config, s: State, step: Step, b: nat)
    requires HasOwner(s, b) && Enabled(c, s, step) && Target(step).None?
    ensures HasOwner(Apply(c, s, step), b)
  {
    var t := Apply(c, s, step);
    assert t.workers == s.workers;
    if i: nat :| HeldByWorker(s, b, i) {
      assert HeldByWorker(t, b, i);
    } else if b in s.free {
      assert step.TakeFree? ==> s.free == [s.free[0]] + t.free;
    }
  }

  lemma WriterKeepsOwner(c: Config, s: State, step: Step, b: nat)
    requires HasOwner(s, b) && Enabled(c, s, step) && Target(step).Some?
    ensures HasOwner(Apply(c, s, step), b)
  {
    var t := Apply(c, s, step);
    if i: nat :| HeldByWorker(s, b, i) {
      if Target(step) == Some(i) && step.Recycle? {
        assert t.free[|s.free|] == b;
      } else {
        assert HeldByWorker(t, b, i);
      }
    } else if step.Hand? {
      assert HeldByWorker(t, s.reader.buf, step.w);
    }
  }

  lemma StepOwned(c: Config, s: State, step: Step)
    requires Owned(c, s) && Enabled(c, s, step)
    ensures Owned(c, Apply(c, s, step))
  {
    forall b: nat | b < c.conc ensures HasOwner(Apply(c, s, step), b) {
      if Target(step).Some? {
        WriterKeepsOwner(c, s, step, b);
      } else {
        ReaderKeepsOwner(c, s, step, b);
      }
    }
  }

  lemma StepKeepsBuffers(c: Config, s: State, step: Step)
    requires Shape(c, s) && Enabled(c, s, step) && BuffersConserved(c, s)
    ensures BuffersConserved(c, Apply(c, s, step))
  {
    if Target(step).Some? {
      var i := Target(step).value;
      SumUpdate(s.workers, i, Apply(c, s, step).workers[i], Holds);
    }
  }

  lemma StepKeepsOutstanding(c: Config, s: State, step: Step)
    requires Enabled(c, s, step) && s.bytes + Sum(s.workers, Outstanding) == s.off
    ensures var t := Apply(c, s, step);
            t.bytes + Sum(t.workers, Outstanding) == t.off
  {
    if Target(step).Some? {
      var i := Target(step).value;
      SumUpdate(s.workers, i, Apply(c, s, step).workers[i], Outstanding);
    }
  }

  lemma StepKeepsAcked(c: Config, s: State, step: Step)
    requires Enabled(c, s, step) && s.bytes + Sum(s.workers, AckPending) == s.acked
    ensures var t := Apply(c, s, step);
            t.bytes + Sum(t.workers, AckPending) == t.acked
  {
    if Target(step).Some? {
      var i := Target(step).value;
      SumUpdate(s.workers, i, Apply(c, s, step).workers[i], AckPending);
    }
  }

  /** A step stores into a buffer only while the reader owns it. */
  lemma StepBuffers(c: Config, s: State, step: Step, i: nat)
    requires Shape(c, s) && Exclusive(s) && Enabled(c, s, step)
    requires i < |s.workers| && WorkerBuf(s.workers[i]).Some?
    ensures Apply(c, s, step).bufs[WorkerBuf(s.workers[i]).value] == s.bufs[WorkerBuf(s.workers[i]).value]
  {
    assert WorkerBuf(s.workers[i]) != ReaderBuf(s.reader);
  }

  lemma StepReaderContent(c: Config, s: State, step: Step)
    requires Shape(c, s) && s.off <= s.pos <= |c.src| && ReaderContent(c, s) && Enabled(c, s, step)
    ensures var t := Apply(c, s, step);
            t.off <= t.pos <= |c.src| && ReaderContent(c, t)
  {
    if step.ReadByte? {
      ByteKeepsContent(c, s);
    } else if step.TakeFree? {
      var t := Apply(c, s, step);
      assert t.bufs[t.reader.buf][..0] == [] == c.src[s.off..s.pos];
    }
  }

  lemma ByteKeepsContent(c: Config, s: State)
    requires Shape(c, s) && s.off <= s.pos <= |c.src| && ReaderContent(c, s) && Enabled(c, s, ReadByte)
    ensures var t := Apply(c, s, ReadByte);
            t.off <= t.pos <= |c.src| && ReaderContent(c, t)
  {
    var t, b, n := Apply(c, s, ReadByte), s.reader.buf, s.reader.n;
    assert t.bufs[b][..n + 1] == s.bufs[b][..n] + [c.src[s.pos]];
    assert c.src[s.off..t.pos] == c.src[s.off..s.pos] + [c.src[s.pos]];
  }

  /** A writer that a step does not concern keeps its chunk. */
  lemma OtherWorkerContent(c: Config, s: State, step: Step, i: nat)
    requires Shape(c, s) && Exclusive(s) && s.off <= s.pos <= |c.src| && ReaderContent(c, s) && Enabled(c, s, step)
    requires i < |s.workers| && WorkerContent(c, s, s.workers[i]) && Target(step) != Some(i)
    ensures var t := Apply(c, s, step);
            s.off <= t.off <= |c.src| && i < |t.workers| && WorkerContent(c, t, t.workers[i])
  {
    var t := Apply(c, s, step);
    assert t.workers[i] == s.workers[i];
    assert !step.Hand? ==> t.off == s.off;
    if s.workers[i].Writing? {
      StepBuffers(c, s, step, i);
    }
  }

  lemma OwnWorkerContent(c: Config, s: State, step: Step, i: nat)
    requires Shape(c, s) && s.off <= s.pos <= |c.src| && ReaderContent(c, s) && Enabled(c, s, step)
    requires i < |s.workers| && WorkerContent(c, s, s.workers[i]) && Target(step) == Some(i)
    ensures var t := Apply(c, s, step);
            s.off <= t.off <= |c.src| && i < |t.workers| && WorkerContent(c, t, t.workers[i])
  {
    assert Apply(c, s, step).bufs == s.bufs;
  }

  lemma StepRemote(c: Config, s: State, step: Step)
    requires Shape(c, s) && Content(c, s) && Enabled(c, s, step)
    ensures RemoteMatches(c, Apply(c, s, step))
  {
    if step.WriteByte? {
      var k := s.workers[step.w];
      assert WorkerContent(c, s, k);
      assert s.bufs[k.buf][k.k] == s.bufs[k.buf][..k.n][k.k] == c.src[k.off + k.k];
    }
  }

  lemma StepMissing(c: Config, s: State, step: Step, j: nat)
    requires Shape(c, s) && Enabled(c, s, step) && j < Apply(c, s, step).off
    requires j < s.off ==> Accounted(s, j)
    ensures Accounted(Apply(c, s, step), j)
  {
    var t := Apply(c, s, step);
    if j >= s.off {
      assert MissingAt(t, j, step.w);
    } else if j !in s.remote && j !in t.remote {
      var i :| MissingAt(s, j, i);
      assert MissingAt(t, j, i);
    }
  }

  lemma StepNothingLost(c: Config, s: State, step: Step)
    requires Shape(c, s) && Enabled(c, s, step) && NothingLost(s)
    ensures NothingLost(Apply(c, s, step))
  {
    var t := Apply(c, s, step);
    forall j: nat | j < t.off ensures Accounted(t, j) {
      StepMissing(c, s, step, j);
    }
  }

  lemma StepContent(c: Config, s: State, step: Step)
    requires Shape(c, s) && Exclusive(s) && Content(c, s) && Enabled(c, s, step)
    ensures Content(c, Apply(c, s, step))
  {
    var t := Apply(c, s, step);
    StepReaderContent(c, s, step);
    forall i | 0 <= i < |t.workers| ensures WorkerContent(c, t, t.workers[i]) {
      if Target(step) == Some(i) {
        OwnWorkerContent(c, s, step, i);
      } else {
        OtherWorkerContent(c, s, step, i);
      }
    }
    StepRemote(c, s, step);
    StepNothingLost(c, s, step);
  }

  lemma StepErrors(c: Config, s: State, step: Step)
    requires c.Valid() && Errors(s) && Enabled(c, s, step)
    ensures Errors(Apply(c, s, step))
  {}

  /** Every step of every goroutine preserves the invariant. */
  lemma StepInv(c: Config, s: State, step: Step)
    requires c.Valid() && Inv(c, s) && Enabled(c, s, step)
    ensures Inv(c, Apply(c, s, step))
  {
    StepShape(c, s, step);
    if Target(step).Some? {
      WriterKeepsExclusive(c, s, step);
    } else {
      ReaderKeepsExclusive(c, s, step);
    }
    StepOwned(c, s, step);
    StepKeepsBuffers(c, s, step);
    StepKeepsOutstanding(c, s, step);
    StepKeepsAcked(c, s, step);
    StepContent(c, s, step);
    StepErrors(c, s, step);
  }

  lemma {:induction false} RunInv(c: Config, s: State, steps: seq<Step>, t: State)
    requires c.Valid() && Inv(c, s) && Reaches(c, s, steps, t)
    ensures Inv(c, t)
    decreases |steps|
  {
    if steps != [] {
      StepInv(c, s, steps[0]);
      RunInv(c, Apply(c, s, steps[0]), steps[1..], t);
    }
  }

  // ----- what a reader may rely on

  datatype Owner = FreeList | TheReader | TheWorker(i: nat)

  ghost predicate OwnedBy(s: State, b: nat, o: Owner) {
    match o
    case FreeList => b in s.free
    case TheReader => ReaderBuf(s.reader) == Some(b)
    case TheWorker(i) => HeldByWorker(s, b, i)
  }

  /** In every reachable state each buffer has exactly one owner. */
  lemma SingleOwner(c: Config, s0: State, steps: seq<Step>, s: State, b: nat)
    requires c.Valid() && Init(c, s0) && Reaches(c, s0, steps, s)
    requires b < c.conc
    ensures exists o :: OwnedBy(s, b, o)
    ensures forall o, o' :: OwnedBy(s, b, o) && OwnedBy(s, b, o') ==> o == o'
  {
    InitInv(c, s0);
    RunInv(c, s0, steps, s);
    assert HasOwner(s, b);
    if b in s.free {
      assert OwnedBy(s, b, FreeList);
    } else if ReaderBuf(s.reader) == Some(b) {
      assert OwnedBy(s, b, TheReader);
    } else {
      var i :| HeldByWorker(s, b, i);
      assert OwnedBy(s, b, TheWorker(i));
    }
  }

  /** Returning a buffer never blocks: the free channel always has room for it. */
  lemma RecycleNeverBlocks(c: Config, s0: State, steps: seq<Step>, s: State, w: nat)
    requires c.Valid() && Init(c, s0) && Reaches(c, s0, steps, s)
    requires w < |s.workers| && s.workers[w].Counted?
    ensures Enabled(c, s, Recycle(w))
  {
    InitInv(c, s0);
    RunInv(c, s0, steps, s);
    SumAtLeast(s.workers, w, Holds);
  }

  /** No step overwrites a chunk that a writer is still sending, and the chunk is the source's. */
  lemma InFlightUntouched(c: Config, s0: State, steps: seq<Step>, s: State, step: Step, w: nat)
    requires c.Valid() && Init(c, s0) && Reaches(c, s0, steps, s) && Enabled(c, s, step)
    requires w < |s.workers| && s.workers[w].Writing?
    ensures var k := s.workers[w];
            && k.buf < |s.bufs| && Apply(c, s, step).bufs[k.buf] == s.bufs[k.buf]
            && k.n <= |s.bufs[k.buf]| && k.off + k.n <= |c.src|
            && s.bufs[k.buf][..k.n] == c.src[k.off..k.off + k.n]
  {
    InitInv(c, s0);
    RunInv(c, s0, steps, s);
    StepBuffers(c, s, step, w);
    assert WorkerContent(c, s, s.workers[w]);
  }

  /** Progress never runs ahead of the server, and the server never runs ahead of the source. */
  lemma ProgressIsAcknowledged(c: Config, s0: State, steps: seq<Step>, s: State)
    requires c.Valid() && Init(c, s0) && Reaches(c, s0, steps, s)
    ensures s.bytes <= s.acked <= s.off <= |c.src|
    ensures forall j :: j in s.remote ==> j < s.off && s.remote[j] == c.src[j]
  {
    InitInv(c, s0);
    RunInv(c, s0, steps, s);
    SumLeq(s.workers, AckPending, Outstanding);
  }

  lemma {:induction false} SumLeq(ws: seq<Worker>, f: Worker -> nat, g: Worker -> nat)
    requires forall w :: f(w) <= g(w)
    ensures Sum(ws, f) <= Sum(ws, g)
  {
    if ws != [] {
      SumLeq(ws[1..], f, g);
    }
  }

  /** errgroup.Wait has returned: the reader and every writer are done. */
  ghost predicate Finished(s: State) {
    s.reader.Returned? && forall i :: 0 <= i < |s.workers| ==> s.workers[i].Exited? || s.workers[i].Failed?
  }

  ghost predicate ReturnsNil(s: State) {
    Finished(s) && s.reader.ok && forall i :: 0 <= i < |s.workers| ==> s.workers[i].Exited?
  }

  function Prefix(src: seq<Byte>, n: nat): map<nat, Byte>
    requires n <= |src|
  {
    map j: nat | 0 <= j < n :: src[j]
  }

  /** If the call returns nil, the remote file is what was read, and that is what progress counts. */
  lemma SuccessIsPrefix(c: Config, s0: State, steps: seq<Step>, s: State)
    requires c.Valid() && Init(c, s0) && Reaches(c, s0, steps, s) && ReturnsNil(s)
    ensures s.pos <= |c.src| && s.remote == Prefix(c.src, s.pos)
    ensures s.bytes == s.acked == s.pos
    ensures s.short <==> s.pos < |c.src|
  {
    InitInv(c, s0);
    RunInv(c, s0, steps, s);
    SumConst(s.workers, 0, Outstanding);
    SumConst(s.workers, 0, AckPending);
    forall j: nat | j < s.pos ensures j in s.remote {
      assert Accounted(s, j);
      assert forall i :: !MissingAt(s, j, i);
    }
  }

  /** A nil return means the whole source arrived exactly when no read ended early, which is when
      the bytes counted are as many as the source has. */
  lemma SuccessIsComplete(c: Config, s0: State, steps: seq<Step>, s: State)
    requires c.Valid() && Init(c, s0) && Reaches(c, s0, steps, s) && ReturnsNil(s)
    ensures s.remote == Prefix(c.src, |c.src|) <==> !s.short
    ensures s.bytes == |c.src| <==> !s.short
  {
    SuccessIsPrefix(c, s0, steps, s);
    if s.short {
      assert s.pos !in s.remote && s.pos in Prefix(c.src, |c.src|);
    }
  }

  lemma {:induction false} Extend(c: Config, s: State, steps: seq<Step>, t: State, step: Step)
    requires Reaches(c, s, steps, t) && Enabled(c, t, step)
    ensures Reaches(c, s, steps + [step], Apply(c, t, step))
    decreases |steps|
  {
    if steps == [] {
      assert [step][1..] == [];
      assert Reaches(c, Apply(c, s, step), [], Apply(c, t, step));
      assert steps + [step] == [step];
    } else {
      Extend(c, Apply(c, s, steps[0]), steps[1..], t, step);
      assert (steps + [step])[1..] == steps[1..] + [step];
    }
  }

  // ----- when the call returns nil

  /** A read or a write failed, or the reader gave up. */
  predicate Fails(step: Step) { step.ReadFail? || step.WriteFail? || step.ReaderCancel? }

  ghost predicate AnyFails(steps: seq<Step>) {
    exists i :: 0 <= i < |steps| && Fails(steps[i])
  }

  /** The trace a failure leaves. */
  ghost predicate Spoiled(s: State) {
    || (s.reader.Sending? && s.reader.end.Broken?)
    || (s.reader.Returned? && !s.reader.ok)
    || exists i :: 0 <= i < |s.workers| && s.workers[i].Failed?
  }

  lemma ReaderSpoils(c: Config, s: State, step: Step)
    requires c.Valid() && Enabled(c, s, step) && Target(step).None?
    ensures Spoiled(Apply(c, s, step)) <==> Spoiled(s) || Fails(step)
  {
    assert Apply(c, s, step).workers == s.workers;
  }

  lemma WriterSpoils(c: Config, s: State, step: Step)
    requires c.Valid() && Enabled(c, s, step) && Target(step).Some?
    ensures Spoiled(Apply(c, s, step)) <==> Spoiled(s) || Fails(step)
  {
    var t, w := Apply(c, s, step), Target(step).value;
    assert t.workers[w].Failed? <==> Fails(step);
    assert !s.workers[w].Failed?;
    if i :| 0 <= i < |s.workers| && s.workers[i].Failed? {
      assert t.workers[i] == s.workers[i];
    }
  }

  lemma {:induction false} RunSpoils(c: Config, s: State, steps: seq<Step>, t: State)
    requires c.Valid() && Reaches(c, s, steps, t)
    ensures Spoiled(t) <==> Spoiled(s) || AnyFails(steps)
    decreases |steps|
  {
    if steps != [] {
      if Target(steps[0]).Some? {
        WriterSpoils(c, s, steps[0]);
      } else {
        ReaderSpoils(c, s, steps[0]);
      }
      RunSpoils(c, Apply(c, s, steps[0]), steps[1..], t);
      AnyFailsCons(steps);
    }
  }

  lemma AnyFailsCons(steps: seq<Step>)
    requires steps != []
    ensures AnyFails(steps) <==> Fails(steps[0]) || AnyFails(steps[1..])
  {
    if i :| 0 <= i < |steps[1..]| && Fails(steps[1..][i]) {
      assert Fails(steps[i + 1]);
    }
    if i :| 0 <= i < |steps| && Fails(steps[i]) {
      assert i > 0 ==> Fails(steps[1..][i - 1]);
    }
  }

  /** A finished call returns nil exactly when no read and no write failed and the reader did not give up. */
  lemma NilIff(c: Config, s0: State, steps: seq<Step>, s: State)
    requires c.Valid() && Init(c, s0) && Reaches(c, s0, steps, s) && Finished(s)
    ensures ReturnsNil(s) <==> !AnyFails(steps)
  {
    RunSpoils(c, s0, steps, s);
  }

  /** Nothing asks the reader to give up. */
  predicate Quiet(step: Step) { !step.Cancel? && !step.ReadFail? && !step.WriteFail? }

  ghost predicate Calm(s: State) {
    !s.ctxDone && !(s.reader.Sending? && s.reader.end.Broken?)
  }

  lemma {:induction false} CalmRun(c: Config, s: State, steps: seq<Step>, t: State)
    requires Calm(s) && Reaches(c, s, steps, t) && forall i :: 0 <= i < |steps| ==> Quiet(steps[i])
    ensures Calm(t) && !AnyFails(steps)
    decreases |steps|
  {
    if steps != [] {
      CalmRun(c, Apply(c, s, steps[0]), steps[1..], t);
      AnyFailsCons(steps);
    }
  }

  /** An upload that nobody cancels and in which nothing fails or ends early returns nil with the whole source sent. */
  lemma CleanRunSucceeds(c: Config, s0: State, steps: seq<Step>, s: State)
    requires c.Valid() && Init(c, s0) && !s0.ctxDone && Reaches(c, s0, steps, s) && Finished(s)
    requires forall i :: 0 <= i < |steps| ==> Quiet(steps[i]) && !steps[i].ReadShort?
    ensures ReturnsNil(s) && s.remote == Prefix(c.src, |c.src|) && s.bytes == |c.src|
  {
    CalmRun(c, s0, steps, s);
    NilIff(c, s0, steps, s);
    NeverShort(c, s0, steps, s);
    SuccessIsComplete(c, s0, steps, s);
  }

  lemma {:induction false} NeverShort(c: Config, s: State, steps: seq<Step>, t: State)
    requires !s.short && Reaches(c, s, steps, t) && forall i :: 0 <= i < |steps| ==> !steps[i].ReadShort?
    ensures !t.short
    decreases |steps|
  {
    if steps != [] {
      NeverShort(c, Apply(c, s, steps[0]), steps[1..], t);
    }
  }

  /** A cancellation reaches the reader: wherever it waits, for a buffer or for a writer, it can give up at once. */
  lemma CancelReachesReader(c: Config, s: State)
    requires s.reader.Waiting? || s.reader.Sending?
    ensures Enabled(c, Apply(c, s, Cancel), ReaderCancel)
    ensures var t := Apply(c, Apply(c, s, Cancel), ReaderCancel);
            t.reader.Returned? && !t.reader.ok
  {}

  /** Whatever the source, a first read that ends early makes the call return nil with nothing sent. */
  lemma TruncatedIsSuccess(c: Config, s0: State) returns (steps: seq<Step>, s: State)
    requires c.Valid() && Init(c, s0) && c.src != []
    ensures Reaches(c, s0, steps, s) && ReturnsNil(s) && s.remote == map[] && s.bytes == 0
  {
    steps, s := [], s0;
    Extend(c, s0, steps, s, TakeFree);
    steps, s := steps + [TakeFree], Apply(c, s, TakeFree);
    Extend(c, s0, steps, s, ReadShort);
    steps, s := steps + [ReadShort], Apply(c, s, ReadShort);
    for i := 0 to c.conc
      invariant Reaches(c, s0, steps, s) && s.reader.Returned? && s.reader.ok && s.remote == map[] && s.bytes == 0
      invariant |s.workers| == c.conc
      invariant forall j :: 0 <= j < c.conc ==> s.workers[j] == if j < i then Exited else Idle
    {
      Extend(c, s0, steps, s, Exit(i));
      steps, s := steps + [Exit(i)], Apply(c, s, Exit(i));
    }
  }

  // ----- the call always returns

  /** A step the call can take by itself, when it has not returned yet. */
  lemma Progress(c: Config, s: State) returns (step: Step)
    requires c.Valid() && Inv(c, s) && !Finished(s)
    ensures Enabled(c, s, step) && !step.Cancel?
  {
    if i :| 0 <= i < |s.workers| && WorkerBuf(s.workers[i]).Some? && !s.workers[i].Failed? {
      var w := s.workers[i];
      assert WorkerContent(c, s, w);
      SumAtLeast(s.workers, i, Holds);
      step := if w.Writing? then (if w.k < w.n then WriteByte(i) else Ack(i))
              else if w.Acked? then Count(i)
              else Recycle(i);
    } else if s.reader.Filling? {
      step := if s.reader.n == c.chunk then ReadFull else if s.pos < |c.src| then ReadByte else ReadEof;
    } else if i :| 0 <= i < |s.workers| && s.workers[i].Idle? {
      step := ProgressIdle(c, s, i);
    } else {
      step := ReaderCancel;
      StuckIsCanceled(c, s);
    }
  }

  lemma ProgressIdle(c: Config, s: State, i: nat) returns (step: Step)
    requires c.Valid() && Inv(c, s) && i < |s.workers| && s.workers[i].Idle? && !s.reader.Filling?
    requires forall j :: 0 <= j < |s.workers| && WorkerBuf(s.workers[j]).Some? ==> s.workers[j].Failed?
    ensures Enabled(c, s, step) && !step.Cancel?
  {
    match s.reader
    case Sending(_, _, _) => step := Hand(i);
    case Returned(_, _) => step := Exit(i);
    case Waiting =>
      if s.free != [] {
        step := TakeFree;
      } else {
        step := ReaderCancel;
        assert HasOwner(s, 0) && 0 !in s.free;
        var j :| HeldByWorker(s, 0, j);
      }
  }

  lemma StuckIsCanceled(c: Config, s: State)
    requires c.Valid() && Inv(c, s) && !Finished(s) && !s.reader.Filling?
    requires forall j :: 0 <= j < |s.workers| ==> s.workers[j].Failed? || s.workers[j].Exited?
    ensures s.ctxDone && !s.reader.Returned?
  {
    assert s.workers[0].Failed?;
  }

  /** No reachable state is stuck before the call returns, whatever failed so far. */
  lemma NoDeadlock(c: Config, s0: State, steps: seq<Step>, s: State)
    requires c.Valid() && Init(c, s0) && Reaches(c, s0, steps, s) && !Finished(s)
    ensures exists step :: Enabled(c, s, step) && !step.Cancel?
  {
    InitInv(c, s0);
    RunInv(c, s0, steps, s);
    var step := Progress(c, s);
  }

  function WorkerRank(w: Worker): nat {
    match w
    case Idle => 1
    case Writing(_, _, n, k) => if k <= n then n - k + 5 else 5
    case Acked(_, _) => 4
    case Counted(_) => 3
    case _ => 0
  }

  function ReaderRank(r: Reader): nat {
    match r
    case Waiting => 8
    case Filling(_, n) => 7 + 9 * n
    case Sending(_, n, _) => 6 + 9 * n
    case Returned(_, _) => 0
  }

  /** Work left: it bounds the number of further steps. */
  function Rank(c: Config, s: State): nat {
    (if s.pos <= |c.src| then 10 * (|c.src| - s.pos) else 0) + ReaderRank(s.reader) + Sum(s.workers, WorkerRank)
  }

  /** Every step but the caller's cancellation uses up some of the work left. */
  lemma StepRank(c: Config, s: State, step: Step)
    requires c.Valid() && Inv(c, s) && Enabled(c, s, step)
    ensures if step.Cancel? then Rank(c, Apply(c, s, step)) == Rank(c, s) else Rank(c, Apply(c, s, step)) < Rank(c, s)
  {
    if Target(step).Some? {
      WriterRank(c, s, step, Target(step).value);
    }
  }

  lemma WriterRank(c: Config, s: State, step: Step, i: nat)
    requires c.Valid() && Shape(c, s) && Enabled(c, s, step) && Target(step) == Some(i)
    requires s.off <= s.pos <= |c.src| && ReaderContent(c, s) && i < |s.workers| && WorkerContent(c, s, s.workers[i])
    ensures Rank(c, Apply(c, s, step)) < Rank(c, s)
  {
    SumUpdate(s.workers, i, Apply(c, s, step).workers[i], WorkerRank);
  }

  function OwnSteps(steps: seq<Step>): nat {
    if steps == [] then 0 else (if steps[0].Cancel? then 0 else 1) + OwnSteps(steps[1..])
  }

  /** They are all steps but cancellations. */
  lemma {:induction false} OwnStepsCount(steps: seq<Step>, step: Step)
    ensures OwnSteps([]) == 0
    ensures OwnSteps(steps + [step]) == OwnSteps(steps) + (if step == Cancel then 0 else 1)
    decreases |steps|
  {
    if steps == [] {
      assert [] + [step] == [step];
    } else {
      assert (steps + [step])[1..] == steps[1..] + [step];
      OwnStepsCount(steps[1..], step);
    }
  }

  lemma {:induction false} RunRank(c: Config, s: State, steps: seq<Step>, t: State)
    requires c.Valid() && Inv(c, s) && Reaches(c, s, steps, t)
    ensures OwnSteps(steps) + Rank(c, t) <= Rank(c, s)
    decreases |steps|
  {
    if steps != [] {
      StepInv(c, s, steps[0]);
      StepRank(c, s, steps[0]);
      RunRank(c, Apply(c, s, steps[0]), steps[1..], t);
    }
  }

  /** Every schedule is finite: with NoDeadlock, the call returns under every interleaving. */
  lemma AlwaysReturns(c: Config, s0: State, steps: seq<Step>, s: State)
    requires c.Valid() && Init(c, s0) && Reaches(c, s0, steps, s)
    ensures OwnSteps(steps) <= 10 * |c.src| + 8 + c.conc
    ensures Finished(s) || exists step :: Enabled(c, s, step) && !step.Cancel?
  {
    InitInv(c, s0);
    RunRank(c, s0, steps, s);
    SumConst(s0.workers, 1, WorkerRank);
    if !Finished(s) {
      NoDeadlock(c, s0, steps, s);
    }
  }
}
